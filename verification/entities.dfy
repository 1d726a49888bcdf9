/** The entity loop of the search request: the language service's entities,
    in order, are folded into nine optional text slots, one per recognised
    category, each holding the normalised text of the last entity that
    wrote it. */
module Entities {
  import opened Wrappers
  import opened Text

  /** The nine categories the loop recognises. */
  datatype Category =
    | Pulgadas
    | Marca
    | Ram
    | Almacenamiento
    | ComparacionAlmacenamiento
    | Color
    | Codigo
    | Precio
    | ComparacionPrecio

  /** The category name the language service reports. */
  function Name(k: Category): string {
    match k
    case Pulgadas => "Pulgadas"
    case Marca => "Marca"
    case Ram => "RAM"
    case Almacenamiento => "Almacenamiento"
    case ComparacionAlmacenamiento => "ComparacionAlmacenamiento"
    case Color => "Color"
    case Codigo => "Codigo"
    case Precio => "Precio"
    case ComparacionPrecio => "ComparacionPrecio"
  }

  /** The branch of the loop's `if`/`elif` chain a category name selects:
      exact string equality with one of the nine names, or none. */
  function Classify(category: string): (k: Option<Category>)
    ensures k.Some? ==> Name(k.value) == category
    ensures k.None? ==> forall c: Category :: Name(c) != category
  {
    if category == "Pulgadas" then Some(Pulgadas)
    else if category == "Marca" then Some(Marca)
    else if category == "RAM" then Some(Ram)
    else if category == "Almacenamiento" then Some(Almacenamiento)
    else if category == "ComparacionAlmacenamiento" then Some(ComparacionAlmacenamiento)
    else if category == "Color" then Some(Color)
    else if category == "Codigo" then Some(Codigo)
    else if category == "Precio" then Some(Precio)
    else if category == "ComparacionPrecio" then Some(ComparacionPrecio)
    else None
  }

  /** Every category is recognised under its own name. */
  lemma ClassifyName(k: Category)
    ensures Classify(Name(k)) == Some(k)
  {
  }

  /** One entity of the language service's prediction. */
  datatype Entity = Entity(category: string, text: string)

  function KindOf(e: Entity): Option<Category> {
    Classify(e.category)
  }

  /** The nine local variables of the loop; `None` until an entity writes them. */
  datatype Slots = Slots(
    pulgadas: Option<string>,
    marca: Option<string>,
    ram: Option<string>,
    comparacionAlmacenamiento: Option<string>,
    almacenamiento: Option<string>,
    color: Option<string>,
    codigo: Option<string>,
    comparacionPrecio: Option<string>,
    precio: Option<string>)

  const NoSlots := Slots(None, None, None, None, None, None, None, None, None)

  /** The slot a category writes. */
  function Get(s: Slots, k: Category): Option<string> {
    match k
    case Pulgadas => s.pulgadas
    case Marca => s.marca
    case Ram => s.ram
    case Almacenamiento => s.almacenamiento
    case ComparacionAlmacenamiento => s.comparacionAlmacenamiento
    case Color => s.color
    case Codigo => s.codigo
    case Precio => s.precio
    case ComparacionPrecio => s.comparacionPrecio
  }

  /** The categories whose text goes through `split()[0]`. */
  predicate TakesToken(k: Category) {
    k == Pulgadas || k == Almacenamiento || k == Precio
  }

  /** Handling `e` raises `IndexError`: its category takes `split()[0]` and
      its text is blank, so the split has no first element. */
  predicate Raises(e: Entity) {
    KindOf(e).Some? && TakesToken(KindOf(e).value) && Blank(e.text)
  }

  /** `e` writes slot `k`: it is of category `k` and, for RAM, its text has a digit. */
  predicate Writes(e: Entity, k: Category) {
    KindOf(e) == Some(k) && (k == Ram ==> HasDigit(e.text))
  }

  /** The per-category normalisation, as a table: the first token for the
      screen size, storage and price; the first digit run for RAM; the
      lower-cased text for the colour and both comparators; the text itself
      for the brand and the code. */
  function Normalised(e: Entity, k: Category): string
    requires Writes(e, k) && !Raises(e)
  {
    match k
    case Pulgadas => FirstToken(e.text)
    case Almacenamiento => FirstToken(e.text)
    case Precio => FirstToken(e.text)
    case Ram => FirstDigitRun(e.text)
    case Marca => e.text
    case Codigo => e.text
    case Color => Lower(e.text)
    case ComparacionAlmacenamiento => Lower(e.text)
    case ComparacionPrecio => Lower(e.text)
  }

  /** Why the request stops: `split()[0]` of a blank text raised `IndexError`. */
  datatype Error = EmptySplit

  /** One pass of the loop body: the `if`/`elif` chain on the category.
      `None` when the branch raises, which it does exactly when the entity
      takes `split()[0]` of a blank text; an unrecognised category falls
      through every branch and leaves the slots as they were. */
  function Step(s: Slots, e: Entity): (r: Option<Slots>)
    ensures r.None? <==> Raises(e)
    ensures KindOf(e).None? ==> r == Some(s)
  {
    match KindOf(e)
    case None => Some(s)
    case Some(k) =>
      match k
      case Pulgadas =>
        if Blank(e.text) then None else Some(s.(pulgadas := Some(FirstToken(e.text))))
      case Marca =>
        Some(s.(marca := Some(e.text)))
      case Ram =>
        if HasDigit(e.text) then Some(s.(ram := Some(FirstDigitRun(e.text)))) else Some(s)
      case Almacenamiento =>
        if Blank(e.text) then None else Some(s.(almacenamiento := Some(FirstToken(e.text))))
      case ComparacionAlmacenamiento =>
        Some(s.(comparacionAlmacenamiento := Some(Lower(e.text))))
      case Color =>
        Some(s.(color := Some(Lower(e.text))))
      case Codigo =>
        Some(s.(codigo := Some(e.text)))
      case Precio =>
        if Blank(e.text) then None else Some(s.(precio := Some(FirstToken(e.text))))
      case ComparacionPrecio =>
        Some(s.(comparacionPrecio := Some(Lower(e.text))))
  }

  /** One loop pass, slot by slot: it raises exactly when the entity does,
      and otherwise the entity's own slot (if it writes one) gets its
      normalised text while every other slot keeps its value. */
  lemma StepSlots(s: Slots, e: Entity, k: Category)
    ensures Step(s, e).None? <==> Raises(e)
    ensures Step(s, e).Some? ==>
      Get(Step(s, e).value, k) == (if Writes(e, k) then Some(Normalised(e, k)) else Get(s, k))
  {
    if Step(s, e).Some? {
      if Writes(e, k) {
        StepWrites(s, e, k);
      } else {
        StepKeeps(s, e, k);
      }
    }
  }

  /** A pass that completes gives the entity's own slot its normalised text. */
  lemma StepWrites(s: Slots, e: Entity, k: Category)
    requires Writes(e, k) && !Raises(e)
    ensures Step(s, e).Some? && Get(Step(s, e).value, k) == Some(Normalised(e, k))
  {
  }

  /** A pass that completes leaves every slot the entity does not write. */
  lemma StepKeeps(s: Slots, e: Entity, k: Category)
    requires !Writes(e, k) && Step(s, e).Some?
    ensures Get(Step(s, e).value, k) == Get(s, k)
  {
    match KindOf(e)
    case None =>
    case Some(j) =>
      if TakesToken(j) {
        StepKeepsToken(s, e, k);
      } else if j == Marca || j == Codigo || j == Ram {
        StepKeepsText(s, e, k);
      } else {
        StepKeepsLower(s, e, k);
      }
  }

  /** `StepKeeps` for the screen size, storage and price. */
  lemma StepKeepsToken(s: Slots, e: Entity, k: Category)
    requires KindOf(e).Some? && TakesToken(KindOf(e).value)
    requires !Writes(e, k) && Step(s, e).Some?
    ensures Get(Step(s, e).value, k) == Get(s, k)
  {
  }

  /** `StepKeeps` for the brand, the code and RAM. */
  lemma StepKeepsText(s: Slots, e: Entity, k: Category)
    requires KindOf(e) == Some(Marca) || KindOf(e) == Some(Codigo) || KindOf(e) == Some(Ram)
    requires !Writes(e, k) && Step(s, e).Some?
    ensures Get(Step(s, e).value, k) == Get(s, k)
  {
  }

  /** `StepKeeps` for the colour and the two comparators. */
  lemma StepKeepsLower(s: Slots, e: Entity, k: Category)
    requires KindOf(e) == Some(Color) || KindOf(e) == Some(ComparacionAlmacenamiento)
      || KindOf(e) == Some(ComparacionPrecio)
    requires !Writes(e, k) && Step(s, e).Some?
    ensures Get(Step(s, e).value, k) == Get(s, k)
  {
  }

  /** The whole loop, entity by entity from the first: the slots it leaves,
      or the failure of the first pass that raised. */
  function Normalize(es: seq<Entity>): (r: Result<Slots, Error>)
    ensures r.Failure? <==> exists i :: 0 <= i < |es| && Raises(es[i])
    decreases |es|
  {
    if es == [] then Success(NoSlots)
    else
      var init := es[..|es| - 1];
      var e := es[|es| - 1];
      match Normalize(init)
      case Failure(err) => Failure(err)
      case Success(s) =>
        assert forall i :: 0 <= i < |init| ==> init[i] == es[i];
        match Step(s, e)
        case None => Failure(EmptySplit)
        case Some(s') => Success(s')
  }

  /** The loop after one more entity: the slots so far, put through one pass. */
  lemma NormalizeSnoc(es: seq<Entity>, e: Entity, s: Slots, s': Slots)
    requires Normalize(es) == Success(s) && Step(s, e) == Some(s')
    ensures Normalize(es + [e]) == Success(s')
  {
    assert (es + [e])[..|es + [e]| - 1] == es;
  }

  /** The index of the last element of `xs` that satisfies `p`, if any. */
  function LastWhere<T>(xs: seq<T>, p: T -> bool): (r: Option<nat>)
    ensures r.Some? ==> r.value < |xs| && p(xs[r.value])
    ensures r.Some? ==> forall j :: r.value < j < |xs| ==> !p(xs[j])
    ensures r.None? ==> forall j :: 0 <= j < |xs| ==> !p(xs[j])
    decreases |xs|
  {
    if xs == [] then None
    else if p(xs[|xs| - 1]) then Some(|xs| - 1)
    else
      var init := xs[..|xs| - 1];
      assert forall j :: 0 <= j < |init| ==> init[j] == xs[j];
      LastWhere(init, p)
  }

  /** The index of the last entity that writes slot `k`, if any. */
  function LastWriter(es: seq<Entity>, k: Category): (r: Option<nat>)
    ensures r.Some? ==> r.value < |es| && Writes(es[r.value], k)
    ensures r.Some? ==> forall j :: r.value < j < |es| ==> !Writes(es[j], k)
    ensures r.None? ==> forall j :: 0 <= j < |es| ==> !Writes(es[j], k)
  {
    LastWhere(es, e => Writes(e, k))
  }

  /** The normalised text of the last entity that writes slot `k`, if any,
      in a sequence the loop gets through. */
  function LastText(es: seq<Entity>, k: Category): Option<string>
    requires Normalize(es).Success?
  {
    var w := LastWriter(es, k);
    if w.None? then None else Some(Normalised(es[w.value], k))
  }

  /** Last occurrence wins: after the loop, each slot holds the normalised
      text of the last entity that writes it, or `None` if none does. Earlier
      entities of the category, RAM entities without a digit and entities of
      other or unknown categories leave no trace in it. */
  lemma {:induction false} LastOccurrenceWins(es: seq<Entity>, k: Category)
    requires Normalize(es).Success?
    ensures Get(Normalize(es).value, k) == LastText(es, k)
    decreases |es|
  {
    if es != [] {
      var init := es[..|es| - 1];
      var e := es[|es| - 1];
      NormalizeLast(es);
      var s := Normalize(init).value;
      LastOccurrenceWins(init, k);
      StepSlots(s, e, k);
      if !Writes(e, k) {
        assert LastWriter(es, k) == LastWriter(init, k);
        var w := LastWriter(init, k);
        assert w.Some? ==> init[w.value] == es[w.value];
      }
    }
  }

  /** A loop that completes completed on all but the last entity, and its
      slots are one pass on from there. */
  lemma NormalizeLast(es: seq<Entity>)
    requires es != [] && Normalize(es).Success?
    ensures Normalize(es[..|es| - 1]).Success?
    ensures Step(Normalize(es[..|es| - 1]).value, es[|es| - 1]) == Some(Normalize(es).value)
  {
  }

  /** An entity the loop passes over without effect: one of a category it
      does not recognise, or a RAM entity whose text has no digit. */
  predicate Inert(e: Entity) {
    KindOf(e).None? || (KindOf(e) == Some(Ram) && !HasDigit(e.text))
  }

  /** An inert entity changes nothing, wherever it stands in the sequence:
      in particular a RAM text without a digit keeps an earlier RAM value. */
  lemma {:induction false} InertEntityIgnored(a: seq<Entity>, e: Entity, b: seq<Entity>)
    requires Inert(e)
    ensures Normalize(a + [e] + b) == Normalize(a + b)
    decreases |b|
  {
    if b == [] {
      assert (a + [e] + b)[..|a + [e] + b| - 1] == a;
      assert a + b == a;
    } else {
      var b' := b[..|b| - 1];
      InertEntityIgnored(a, e, b');
      assert (a + [e] + b)[..|a + [e] + b| - 1] == a + [e] + b';
      assert (a + b)[..|a + b| - 1] == a + b';
      assert (a + [e] + b)[|a + [e] + b| - 1] == b[|b| - 1];
      assert (a + b)[|a + b| - 1] == b[|b| - 1];
    }
  }
}
