/** The query assembly: the slots the entity loop left become a document
    store filter on the `entities.*` fields, holding a literal for equality
    or a one-bound range (`$gt` or `$lt`) for storage and price. */
module Query {
  import opened Wrappers
  import opened Entities
  import opened Prices

  /** A value in the filter: the slot text itself, the number
      `parse_storage` returned, or the number `parse_price` returned. */
  datatype Scalar = Str(s: string) | Int(n: nat) | Number(x: real)

  /** A field's constraint: a literal, `{"$gt": bound}` or `{"$lt": bound}`. */
  datatype Clause = Eq(operand: Scalar) | Gt(operand: Scalar) | Lt(operand: Scalar)

  /** The filter dict handed to the store: field path to clause. */
  type Filter = map<string, Clause>

  /** The two comparator phrases, as they read after lower-casing. */
  const MasDe: string := "más de"
  const MenosDe: string := "menos de"

  /** The categories with a field of their own; the comparators only qualify one. */
  predicate HasField(k: Category) {
    k != ComparacionAlmacenamiento && k != ComparacionPrecio
  }

  const PulgadasField: string := "entities.Pulgadas"
  const MarcaField: string := "entities.Marca"
  const RamField: string := "entities.RAM"
  const ColorField: string := "entities.Color"
  const CodigoField: string := "entities.Codigo"
  const AlmacenamientoField: string := "entities.Almacenamiento"
  const PrecioField: string := "entities.Precio"

  /** The field a category's value is filtered on. */
  function Field(k: Category): string
    requires HasField(k)
  {
    match k
    case Pulgadas => PulgadasField
    case Marca => MarcaField
    case Ram => RamField
    case Color => ColorField
    case Codigo => CodigoField
    case Almacenamiento => AlmacenamientoField
    case Precio => PrecioField
  }

  /** Every field a filter may constrain. */
  const Fields: set<string> :=
    {PulgadasField, MarcaField, RamField, ColorField, CodigoField, AlmacenamientoField, PrecioField}

  /** The categories whose slot text is compared for equality as is. */
  predicate TextField(k: Category) {
    k == Pulgadas || k == Marca || k == Ram || k == Color || k == Codigo
  }

  /** Python truthiness of a slot: set, and not the empty string. */
  predicate Truthy(o: Option<string>) {
    o.Some? && o.value != ""
  }

  /** The clause a comparator slot selects for `bound`: exactly `más de`
      gives `$gt`, exactly `menos de` gives `$lt`, anything else (another
      text, or no comparator at all) gives equality. The storage branch tests
      `más de` first and the price branch `menos de` first; the two phrases
      differ, so the order does not matter. */
  function Ranged(comparator: Option<string>, bound: Scalar): (c: Clause)
    ensures c.Gt? <==> comparator == Some(MasDe)
    ensures c.Lt? <==> comparator == Some(MenosDe)
    ensures c == Eq(bound) || c == Gt(bound) || c == Lt(bound)
  {
    if comparator == Some(MasDe) then Gt(bound)
    else if comparator == Some(MenosDe) then Lt(bound)
    else Eq(bound)
  }

  /** The entry of field `f`, if the filter has one. */
  function Lookup(q: Filter, f: string): Option<Clause> {
    if f in q then Some(q[f]) else None
  }

  /** The equality clause `if x: query[f] = x` adds for a text slot, if truthy. */
  function TextClause(o: Option<string>): (c: Option<Clause>)
    ensures c.Some? <==> o.Some? && o.value != ""
    ensures c.Some? ==> c.value == Eq(Str(o.value))
  {
    if Truthy(o) then Some(Eq(Str(o.value))) else None
  }

  /** The storage clause: when the slot is set and not empty, and
      `parse_storage` of it returns a number other than 0 (the truthiness
      test on `almacenamiento_int`), a `$gt`, `$lt` or equality on that
      number as the storage comparator selects; nothing otherwise. */
  function StorageClause(s: Slots, parseStorage: string -> Option<nat>): (c: Option<Clause>)
    ensures c.Some? <==>
      && s.almacenamiento.Some? && s.almacenamiento.value != ""
      && parseStorage(s.almacenamiento.value).Some? && parseStorage(s.almacenamiento.value).value != 0
    ensures c.Some? ==> c.value.operand == Int(parseStorage(s.almacenamiento.value).value)
    ensures c.Some? ==> (c.value.Gt? <==> s.comparacionAlmacenamiento == Some(MasDe))
    ensures c.Some? ==> (c.value.Lt? <==> s.comparacionAlmacenamiento == Some(MenosDe))
  {
    if Truthy(s.almacenamiento) then
      match parseStorage(s.almacenamiento.value)
      case Some(n) => if n != 0 then Some(Ranged(s.comparacionAlmacenamiento, Int(n))) else None
      case None => None
    else None
  }

  /** The price clause: when the slot is set and not empty, `parse_price`
      of it matches and the number it reads is not 0 (the truthiness test on
      `precio_float`), a `$lt`, `$gt` or equality on that number as the price
      comparator selects; nothing otherwise. */
  function PriceClause(s: Slots): (c: Option<Clause>)
    ensures c.Some? <==>
      && s.precio.Some? && s.precio.value != ""
      && ParsePrice(s.precio.value).Some? && Value(ParsePrice(s.precio.value).value) != 0.0
    ensures c.Some? ==> c.value.operand == Number(Value(ParsePrice(s.precio.value).value))
    ensures c.Some? ==> (c.value.Lt? <==> s.comparacionPrecio == Some(MenosDe))
    ensures c.Some? ==> (c.value.Gt? <==> s.comparacionPrecio == Some(MasDe))
  {
    if Truthy(s.precio) then
      match ParsePrice(s.precio.value)
      case Some(p) => if Value(p) != 0.0 then Some(Ranged(s.comparacionPrecio, Number(Value(p)))) else None
      case None => None
    else None
  }

  /** The seven field paths are distinct. */
  lemma FieldsDistinct()
    ensures PulgadasField !in {MarcaField, RamField, ColorField, CodigoField, AlmacenamientoField, PrecioField}
    ensures MarcaField !in {RamField, ColorField, CodigoField, AlmacenamientoField, PrecioField}
    ensures RamField !in {ColorField, CodigoField, AlmacenamientoField, PrecioField}
    ensures ColorField !in {CodigoField, AlmacenamientoField, PrecioField}
    ensures CodigoField !in {AlmacenamientoField, PrecioField}
    ensures AlmacenamientoField != PrecioField
  {
    assert PulgadasField[9] == 'P' && MarcaField[9] == 'M' && RamField[9] == 'R';
    assert ColorField[9] == 'C' && CodigoField[9] == 'C' && AlmacenamientoField[9] == 'A';
    assert PrecioField[9] == 'P';
    assert ColorField[10] == 'o' && CodigoField[10] == 'o' && ColorField[11] == 'l' && CodigoField[11] == 'd';
    assert PulgadasField[10] == 'u' && PrecioField[10] == 'r';
  }

  /** The clause field `f` gets from the seven `if`s of the query
      assembly, given the clause each field's test selected. */
  function Pick(f: string, pulgadas: Option<Clause>, marca: Option<Clause>, ram: Option<Clause>,
                color: Option<Clause>, codigo: Option<Clause>,
                almacenamiento: Option<Clause>, precio: Option<Clause>): Option<Clause>
  {
    if f == PulgadasField then pulgadas
    else if f == MarcaField then marca
    else if f == RamField then ram
    else if f == ColorField then color
    else if f == CodigoField then codigo
    else if f == AlmacenamientoField then almacenamiento
    else if f == PrecioField then precio
    else None
  }

  /** The dict the seven `if`s leave, given the clause each field's test
      selected (`None` where the test fails): every key is written at most
      once, so the order of the writes does not show. Each field ends up with
      exactly its own clause, or absent. */
  function Assemble(pulgadas: Option<Clause>, marca: Option<Clause>, ram: Option<Clause>,
                    color: Option<Clause>, codigo: Option<Clause>,
                    almacenamiento: Option<Clause>, precio: Option<Clause>): (q: Filter)
    ensures q.Keys <= Fields
    ensures Lookup(q, PulgadasField) == pulgadas
    ensures Lookup(q, MarcaField) == marca
    ensures Lookup(q, RamField) == ram
    ensures Lookup(q, ColorField) == color
    ensures Lookup(q, CodigoField) == codigo
    ensures Lookup(q, AlmacenamientoField) == almacenamiento
    ensures Lookup(q, PrecioField) == precio
  {
    FieldsDistinct();
    map f | f in Fields && Pick(f, pulgadas, marca, ram, color, codigo, almacenamiento, precio).Some?
      :: Pick(f, pulgadas, marca, ram, color, codigo, almacenamiento, precio).value
  }

  /** The query assembly as the request handler writes it: an equality
      clause for each truthy text slot, and for storage and price the range
      their comparator selects around a truthy bound. Nothing but the seven
      fields appears, and a field with no clause is absent. */
  function Compile(s: Slots, parseStorage: string -> Option<nat>): (q: Filter)
    ensures q.Keys <= Fields
    ensures Lookup(q, PulgadasField) == TextClause(s.pulgadas)
    ensures Lookup(q, MarcaField) == TextClause(s.marca)
    ensures Lookup(q, RamField) == TextClause(s.ram)
    ensures Lookup(q, ColorField) == TextClause(s.color)
    ensures Lookup(q, CodigoField) == TextClause(s.codigo)
    ensures Lookup(q, AlmacenamientoField) == StorageClause(s, parseStorage)
    ensures Lookup(q, PrecioField) == PriceClause(s)
  {
    Assemble(TextClause(s.pulgadas), TextClause(s.marca), TextClause(s.ram),
             TextClause(s.color), TextClause(s.codigo),
             StorageClause(s, parseStorage), PriceClause(s))
  }
}
