# Computer search: from language-service entities to a store filter

This project models, in Dafny, the query builder of a Spanish-language
computer search app (`app.py`). A user types a free-text query. A language
service returns the entities it found, each a category name and a text. The
request handler then turns those entities into a document-store filter in
three steps, and the model covers all three:

- **`parse_price`** (`Prices`) reads a price text with the pattern
  `(\d+\.?\d*)\s*[,\.]?\d*\s*$`, anchored at the start. It gives the
  number in group 1, or nothing. The pattern is modelled twice: once as
  the greedy function `ParsePrice`, and once as the declarative
  `Matches`, which says whether some way of splitting the text fits the
  pattern. The two are proved to agree. The number is an exact `real`.
- **The entity loop** (`Entities`) goes through the entities in order. Each
  recognised category overwrites one of nine slots with the normalised
  text:
  - the first whitespace token for `Pulgadas`, `Almacenamiento` and `Precio`;
  - the first digit run for `RAM`;
  - the lower-cased text for `Color` and both comparators;
  - the text as given for `Marca` and `Codigo`.

  Taking the first token of a blank text raises `IndexError`, which aborts
  the request. `Normalize` models that as a `Failure`.
- **The query assembly** (`Query`) builds the filter from the slots:
  - an equality on each truthy text slot;
  - for storage and price, a `$gt`, `$lt` or plain equality on the truthy
    parsed bound, chosen by the comparator slot.

`Requests.Search` chains the loop and the assembly. `Text` models the Python
string operations involved: whitespace, digits, `split()[0]`,
`re.search(r'\d+')` and `lower()`. `Scenarios` works whole requests through
to the exact filter.

`parse_storage` is called by the source but not defined in it. It is
therefore a parameter `parseStorage: string -> Option<nat>`, and every
property about storage holds whatever total function of that type it is.

## Behaviour worth noting

- `3.849,00`, the format the comment at `app.py:2` names, is read as 3.849,
  not 3849. `1.234,56` is read as 1.234. Group 1 ends at the second
  separator, and the `.replace(",", ".")` on it never finds a comma. A
  decimal comma drops the decimals: `899,00` is read as 899.
- Storage text goes through `split()[0]` before `parse_storage`
  (`app.py:81`, `app.py:106`), so `1 TB` reaches it as `1`; a unit written
  without a space, as in `512GB`, reaches it attached.
- The RAM value is the digit run as a string (`"16"`), as `group(0)` returns
  it (`app.py:79`).
- A comparator must be exactly `más de` or `menos de` after lower-casing
  (`app.py:108-110`, `app.py:119-121`). `más de 500` gives an equality.
- `Marca` and `Codigo` are copied as given (`app.py:75`, `app.py:87`). Only
  the nine category names of `app.py:72-91` are recognised; any other
  category is passed over.
- A blank text for `Pulgadas`, `Almacenamiento` or `Precio` makes
  `split()[0]` raise (`app.py:73`, `81`, `89`), which ends the whole request.
- For `Marca`, `Codigo`, `Color` and the two comparators, last occurrence
  wins even when the last text is empty; an empty slot is falsy and gives no
  clause (`app.py:94-103`). A later empty `RAM` text has no digit and writes
  nothing, so the earlier RAM value stays (`app.py:78`); a later empty
  `Pulgadas`, `Almacenamiento` or `Precio` text makes `split()[0]` raise and
  the request fails (`app.py:73`, `81`, `89`).

## Model

| member | source | states |
|---|---|---|
| `Text.FirstToken` | app.py:73 | `split()[0]` of a non-blank text is a non-empty run of non-whitespace that starts after leading whitespace only and ends at whitespace or the end |
| `Text.FirstTokenOf` | app.py:81 | whitespace, a token, then whitespace or nothing splits to that token first (reading back) |
| `Text.FirstDigitRun` | app.py:77-79 | `re.search(r'\d+')` finds the leftmost digit run, non-empty and maximal, with no digit before it |
| `Text.FirstDigitRunOf` | app.py:77-79 | non-digits, digits, then a non-digit or nothing yields exactly those digits (reading back) |
| `Text.Lower` | app.py:85 | `lower()` keeps the length, turns each capital A-Z and Latin-1 capital into the small letter 32 code points above it, and changes nothing else |
| `Text.LowerIdempotent` | app.py:83 | lower-casing twice equals lower-casing once |
| `Prices.ParsePriceMatches` | app.py:3-4 | `parse_price` returns a value exactly when the anchored pattern matches some split of the text |
| `Prices.ParsePrice` | app.py:3-6 | `None` when the anchored pattern fails; otherwise group 1: the text starts with it, a tail the pattern accepts follows, and the greedy quantifiers left no digit (and without a point no '.') behind |
| `Prices.ParsePriceOfGroup` | app.py:3-5 | a valid group followed by a tail the greedy match leaves alone parses back to that group |
| `Prices.Value` | app.py:5 | the number `float()` reads from group 1 is 0 exactly when every digit is '0', and lies in [whole, whole + 1), the fraction digits never reaching the next unit |
| `Prices.ValueDigits` | app.py:5 | `float()` reads group 1 as the number its digits spell with the point taken out, divided by ten to the number of fraction digits (`3.849` is 3849 / 1000) |
| `Prices.GroupedThousandsReadAsFraction` | app.py:1-6 | `3.849,00` is read as 3.849 |
| `Prices.DecimalCommaDropsCents` | app.py:1-6 | `899,00` is read as 899 |
| `Prices.NotPrices` | app.py:3-6 | the empty text, `,50` and `12€` are not prices |
| `Entities.Classify` | app.py:72-91 | a category name selects the category with exactly that name, or none when no category has it |
| `Entities.ClassifyName` | app.py:72-91 | every category is recognised under its own name |
| `Entities.Step` | app.py:72-91 | one pass of the `if`/`elif` chain raises exactly when the entity takes `split()[0]` of a blank text, and an unrecognised category leaves the slots unchanged |
| `Entities.StepSlots` | app.py:71-91 | one loop pass raises exactly when the entity needs `split()[0]` of a blank text; otherwise the entity's own slot gets its normalised text and every other slot is kept |
| `Entities.Normalize` | app.py:61-91 | the loop fails exactly when some entity raises |
| `Entities.NormalizeSnoc` | app.py:71 | one more entity is one more pass on the slots so far |
| `Entities.LastWriter` | app.py:71-91 | the index found writes the slot and no later entity does; none when no entity writes it |
| `Entities.LastOccurrenceWins` | app.py:61-91 | after the loop each slot holds the normalised text of the last entity that writes it, or `None` |
| `Entities.InertEntityIgnored` | app.py:71-91 | an entity of an unknown category, or a RAM entity without a digit, changes nothing wherever it stands |
| `Query.Ranged` | app.py:108-113 | `$gt` exactly for `más de`, `$lt` exactly for `menos de`, equality otherwise (no comparator included) |
| `Query.StorageClause` | app.py:105-113 | a storage clause exactly when the slot is set, not empty, and `parse_storage` of it returns a number other than 0; that number is its operand, and it is `$gt` iff the comparator is exactly `más de`, `$lt` iff exactly `menos de` |
| `Query.PriceClause` | app.py:115-124 | a price clause exactly when the slot is set, not empty, and `parse_price` of it matches with a value other than 0; that value is its operand, and it is `$lt` iff the comparator is exactly `menos de`, `$gt` iff exactly `más de` |
| `Query.Assemble` | app.py:93-124 | the seven `if`s leave only the seven field paths, each with exactly its own clause or absent |
| `Query.Compile` | app.py:93-124 | only the seven fields appear, and each holds the clause its slot selects, or is absent when there is none |
| `Requests.Search` | app.py:61-124 | a request fails exactly when some entity raises; otherwise the filter has keys from the seven fields only |
| `Requests.NoEntitiesNoConstraint` | app.py:61-93 | no entities give the empty filter |
| `Requests.CompiledTextField` | app.py:94-103 | a text field's entry is the equality clause of its slot |
| `Requests.UnsetSlotNoEntry` | app.py:93-124 | a field whose slot was never written has no entry |
| `Requests.TextFieldFromLastWriter` | app.py:71-103 | a text field is the equality with the last writer's normalised text when that is non-empty, and absent when no entity writes it |
| `Requests.StorageFieldFromLastWriter` | app.py:105-107 | the storage field is present exactly when `parse_storage` of the last storage token returns a number other than 0, which is its bound; a comparator alone adds nothing |
| `Requests.PriceFieldFromLastWriter` | app.py:115-118 | the price field is present exactly when the last price token parses to a price other than 0, which is its bound |
| `Requests.AbsentCategoryUnconstrained` | app.py:93-124 | a field whose category no entity has is not constrained |
| `Requests.StorageRangeFollowsComparator` | app.py:82-113 | a present storage entry is `$gt` iff the last storage comparator lower-cases to exactly `más de`, and `$lt` iff to `menos de` |
| `Requests.PriceRangeFollowsComparator` | app.py:90-124 | a present price entry is `$lt` iff the last price comparator lower-cases to exactly `menos de`, and `$gt` iff to `más de` |
| `Scenarios.RamBrandStorageScenario` | app.py:71-113 | RAM "16GB de RAM", brand "HP", storage "1 TB" and "más de" give RAM "16", brand "HP" and a `$gt` on `parse_storage("1")` |
| `Scenarios.PriceBelowScenario` | app.py:115-124 | "899,00" with "menos de" gives a `$lt` on 899 |
| `Scenarios.OrphanComparatorScenario` | app.py:105-113 | a storage comparator without a storage entity gives the empty filter |
| `Scenarios.ComparatorMustBeExact` | app.py:108-113 | "Más de 500" is not the `más de` phrase, so storage "512 GB" gives an equality |
| `Scenarios.EmptyBrandOverwrites` | app.py:74-97 | a later empty brand overwrites "HP", and being falsy gives no brand entry |
| `Scenarios.BlankPriceAborts` | app.py:88-89 | a blank price text makes the request fail, whatever came before |

## Left out

- The Streamlit page, `st.secrets`, the title and the text input (`app.py:8-27`) are presentation and configuration.
- The language-service call and unpacking its response (`app.py:28-59`) are left out. The service is an opaque network collaborator; its entities are the input `seq<Entity>`.
- The store connection, `collection.find` and iterating its results (`app.py:17-20`, `app.py:126`) are database I/O.
- Rendering the results, the property list and the PDF link (`app.py:128` onward) are presentation.
- The body of `parse_storage` is not part of this model. It is a parameter, and no GB/TB rule is assumed.
- `parse_storage` is modelled as a total function returning `None` or a natural number. As `app.py` stands the name is undefined, so reaching `app.py:106` raises `NameError` and the request fails; that failure, a `parse_storage` that raises, and one that returns a float or a negative number are not modelled.
- `float()` rounding is left out. The price is an exact `real`, so doubles that round to 0 or overflow are not modelled.
- `\d` stands for the ASCII digits only. Python's `\d` on `str` also accepts other Unicode decimal digits.
- `Text.Lower`: lower-cases A-Z and the Latin-1 capitals only (each to the letter 32 code points above). Python's `lower()` covers all of Unicode. No capital outside this range lower-cases to a letter of `más de` or `menos de`, so the comparator rule is unaffected; a colour text with a capital outside it compiles to a different colour filter than `app.py` builds.
- The catch-all `except` of the request handler becomes the `Failure(EmptySplit)` result. Its error message is not modelled.
- Entities whose `text` is not a string, or that lack a key, are not modelled. `str()` of a string is the string itself.
- `top_intent` is read but never used by the query builder, so it is left out.
