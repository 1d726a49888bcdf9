/** One search request, from the language service's entities to the filter
    handed to the store: the entity loop, then the query assembly. A blank
    text where `split()[0]` is taken aborts the request instead. */
module Requests {
  import opened Wrappers
  import opened Text
  import opened Entities
  import opened Prices
  import opened Query

  /** The filter one request sends to the store, or the failure that the
      request handler's `except` turns into an error message. */
  function Search(es: seq<Entity>, parseStorage: string -> Option<nat>): (r: Result<Filter, Error>)
    ensures r.Failure? <==> exists i :: 0 <= i < |es| && Raises(es[i])
    ensures r.Success? ==> r.value.Keys <= Fields
  {
    match Normalize(es)
    case Failure(err) => Failure(err)
    case Success(s) => Success(Compile(s, parseStorage))
  }

  /** No entities, no constraint: the empty filter, which matches every document. */
  lemma NoEntitiesNoConstraint(parseStorage: string -> Option<nat>)
    ensures Search([], parseStorage) == Success(map[])
  {
    var q := Compile(NoSlots, parseStorage);
    assert forall f :: f in Fields ==> Lookup(q, f).None?;
    assert q.Keys == {};
  }

  /** A text field's entry, read from the compiled slots. */
  lemma CompiledTextField(s: Slots, parseStorage: string -> Option<nat>, k: Category)
    requires TextField(k)
    ensures Lookup(Compile(s, parseStorage), Field(k)) == TextClause(Get(s, k))
  {
  }

  /** A field whose slot was never written has no entry. */
  lemma UnsetSlotNoEntry(s: Slots, parseStorage: string -> Option<nat>, k: Category)
    requires HasField(k) && Get(s, k).None?
    ensures Field(k) !in Compile(s, parseStorage)
  {
    var q := Compile(s, parseStorage);
    if TextField(k) {
      CompiledTextField(s, parseStorage, k);
    } else if k == Almacenamiento {
      assert Lookup(q, AlmacenamientoField) == StorageClause(s, parseStorage);
    } else {
      assert Lookup(q, PrecioField) == PriceClause(s);
    }
  }

  /** The screen size, brand, RAM, colour and code fields come from the last
      entity that writes their slot: equality with its normalised text when
      that text is not empty, and no entry when it is empty or no entity
      writes the slot. */
  lemma TextFieldFromLastWriter(es: seq<Entity>, parseStorage: string -> Option<nat>, k: Category)
    requires TextField(k)
    requires Search(es, parseStorage).Success?
    ensures var q, w := Search(es, parseStorage).value, LastWriter(es, k);
      && (w.None? ==> Field(k) !in q)
      && (w.Some? ==> Lookup(q, Field(k)) == TextClause(Some(Normalised(es[w.value], k))))
  {
    LastOccurrenceWins(es, k);
    CompiledTextField(Normalize(es).value, parseStorage, k);
  }

  /** The storage field is present exactly when some entity writes the
      storage slot and `parse_storage` of the last one's first token returns
      a number other than 0; its bound is that number. A comparator alone adds nothing. */
  lemma StorageFieldFromLastWriter(es: seq<Entity>, parseStorage: string -> Option<nat>)
    requires Search(es, parseStorage).Success?
    ensures Normalize(es).Success?
    ensures var q, t := Search(es, parseStorage).value, LastText(es, Almacenamiento);
      && (AlmacenamientoField in q <==>
            t.Some? && parseStorage(t.value).Some? && parseStorage(t.value).value != 0)
      && (AlmacenamientoField in q ==> q[AlmacenamientoField].operand == Int(parseStorage(t.value).value))
  {
    var s := Normalize(es).value;
    LastOccurrenceWins(es, Almacenamiento);
    assert Lookup(Compile(s, parseStorage), AlmacenamientoField) == StorageClause(s, parseStorage);
  }

  /** The price field is present exactly when some entity writes the price
      slot and the last one's first token is a price other than 0; its bound
      is that price. */
  lemma PriceFieldFromLastWriter(es: seq<Entity>, parseStorage: string -> Option<nat>)
    requires Search(es, parseStorage).Success?
    ensures Normalize(es).Success?
    ensures var q, t := Search(es, parseStorage).value, LastText(es, Precio);
      && (PrecioField in q <==> t.Some? && ParsePrice(t.value).Some? && Value(ParsePrice(t.value).value) != 0.0)
      && (PrecioField in q ==> q[PrecioField].operand == Number(Value(ParsePrice(t.value).value)))
  {
    var s := Normalize(es).value;
    LastOccurrenceWins(es, Precio);
    assert Lookup(Compile(s, parseStorage), PrecioField) == PriceClause(s);
  }

  /** A field whose category no entity has is not constrained. */
  lemma AbsentCategoryUnconstrained(es: seq<Entity>, parseStorage: string -> Option<nat>, k: Category)
    requires HasField(k)
    requires forall i :: 0 <= i < |es| ==> KindOf(es[i]) != Some(k)
    requires Search(es, parseStorage).Success?
    ensures Field(k) !in Search(es, parseStorage).value
  {
    var s := Normalize(es).value;
    assert Get(s, k).None? by {
      LastOccurrenceWins(es, k);
      assert LastWriter(es, k).None?;
    }
    UnsetSlotNoEntry(s, parseStorage, k);
  }

  /** The storage entry is a `$gt` range exactly when the last storage
      comparator entity, lower-cased, reads `más de` and nothing else, and a
      `$lt` range exactly when it reads `menos de`; otherwise it is an
      equality on the parsed storage. */
  lemma StorageRangeFollowsComparator(es: seq<Entity>, parseStorage: string -> Option<nat>)
    requires Search(es, parseStorage).Success?
    ensures var q, w := Search(es, parseStorage).value, LastWriter(es, ComparacionAlmacenamiento);
      AlmacenamientoField in q ==> (q[AlmacenamientoField].Gt? <==> w.Some? && Lower(es[w.value].text) == MasDe)
    ensures var q, w := Search(es, parseStorage).value, LastWriter(es, ComparacionAlmacenamiento);
      AlmacenamientoField in q ==> (q[AlmacenamientoField].Lt? <==> w.Some? && Lower(es[w.value].text) == MenosDe)
  {
    var s := Normalize(es).value;
    var w := LastWriter(es, ComparacionAlmacenamiento);
    LastOccurrenceWins(es, ComparacionAlmacenamiento);
    assert s.comparacionAlmacenamiento == if w.None? then None else Some(Lower(es[w.value].text));
    assert Lookup(Compile(s, parseStorage), AlmacenamientoField) == StorageClause(s, parseStorage);
  }

  /** The price entry is a `$lt` range exactly when the last price
      comparator entity, lower-cased, reads `menos de` and nothing else, and a
      `$gt` range exactly when it reads `más de`; otherwise it is an
      equality on the parsed price. */
  lemma PriceRangeFollowsComparator(es: seq<Entity>, parseStorage: string -> Option<nat>)
    requires Search(es, parseStorage).Success?
    ensures var q, w := Search(es, parseStorage).value, LastWriter(es, ComparacionPrecio);
      PrecioField in q ==> (q[PrecioField].Lt? <==> w.Some? && Lower(es[w.value].text) == MenosDe)
    ensures var q, w := Search(es, parseStorage).value, LastWriter(es, ComparacionPrecio);
      PrecioField in q ==> (q[PrecioField].Gt? <==> w.Some? && Lower(es[w.value].text) == MasDe)
  {
    var s := Normalize(es).value;
    var w := LastWriter(es, ComparacionPrecio);
    LastOccurrenceWins(es, ComparacionPrecio);
    assert s.comparacionPrecio == if w.None? then None else Some(Lower(es[w.value].text));
    assert Lookup(Compile(s, parseStorage), PrecioField) == PriceClause(s);
  }

  /** Two filters over the seven fields are equal when every field's entry is. */
  lemma SameFilter(q: Filter, m: Filter)
    requires q.Keys <= Fields && m.Keys <= Fields
    requires Lookup(q, PulgadasField) == Lookup(m, PulgadasField)
    requires Lookup(q, MarcaField) == Lookup(m, MarcaField)
    requires Lookup(q, RamField) == Lookup(m, RamField)
    requires Lookup(q, ColorField) == Lookup(m, ColorField)
    requires Lookup(q, CodigoField) == Lookup(m, CodigoField)
    requires Lookup(q, AlmacenamientoField) == Lookup(m, AlmacenamientoField)
    requires Lookup(q, PrecioField) == Lookup(m, PrecioField)
    ensures q == m
  {
    assert forall f | f in Fields :: Lookup(q, f) == Lookup(m, f);
    assert forall f | f in q :: f in m && q[f] == m[f] by {
      forall f | f in q ensures f in m && q[f] == m[f] {
        assert Lookup(q, f) == Lookup(m, f);
      }
    }
    assert forall f | f in m :: f in q by {
      forall f | f in m ensures f in q {
        assert Lookup(q, f) == Lookup(m, f);
      }
    }
  }
}
