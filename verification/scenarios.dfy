/** Whole requests worked through: the entities a query yields and the
    filter (or failure) that results. `parse_storage` is not part of this
    model, so the storage scenarios take whatever number it gives. */
module Scenarios {
  import opened Wrappers
  import opened Text
  import opened Prices
  import opened Entities
  import opened Query
  import opened Requests

  /** One loop pass on each entity the scenarios use. */
  lemma RamStep(s: Slots, t: string, n: nat)
    requires 0 < n <= |t| && (forall i :: 0 <= i < n ==> IsDigit(t[i])) && (n == |t| || !IsDigit(t[n]))
    ensures Step(s, Entity("RAM", t)) == Some(s.(ram := Some(t[..n])))
  {
    LeadingDigitRun(t, n);
  }

  lemma BrandStep(s: Slots, t: string)
    ensures Step(s, Entity("Marca", t)) == Some(s.(marca := Some(t)))
  {
  }

  lemma StorageStep(s: Slots, t: string, n: nat)
    requires 0 < n <= |t| && (forall i :: 0 <= i < n ==> !IsSpace(t[i])) && (n == |t| || IsSpace(t[n]))
    ensures Step(s, Entity("Almacenamiento", t)) == Some(s.(almacenamiento := Some(t[..n])))
  {
    LeadingToken(t, n);
  }

  lemma PriceStep(s: Slots, t: string, n: nat)
    requires 0 < n <= |t| && (forall i :: 0 <= i < n ==> !IsSpace(t[i])) && (n == |t| || IsSpace(t[n]))
    ensures Step(s, Entity("Precio", t)) == Some(s.(precio := Some(t[..n])))
  {
    LeadingToken(t, n);
  }

  lemma StorageComparatorStep(s: Slots, t: string)
    ensures Step(s, Entity("ComparacionAlmacenamiento", t)) == Some(s.(comparacionAlmacenamiento := Some(Lower(t))))
  {
  }

  lemma PriceComparatorStep(s: Slots, t: string)
    ensures Step(s, Entity("ComparacionPrecio", t)) == Some(s.(comparacionPrecio := Some(Lower(t))))
  {
  }

  /** The two comparator phrases are already lower case. */
  lemma PhrasesLower()
    ensures Lower(MasDe) == MasDe && Lower(MenosDe) == MenosDe
  {
    LowerOfLower(MasDe);
    LowerOfLower(MenosDe);
  }

  /** The loop over one, two or four entities, pass by pass. */
  lemma Fold1(e0: Entity, s1: Slots)
    requires Step(NoSlots, e0) == Some(s1)
    ensures Normalize([e0]) == Success(s1)
  {
    NormalizeSnoc([], e0, NoSlots, s1);
    assert [] + [e0] == [e0];
  }

  lemma Fold2(e0: Entity, e1: Entity, s1: Slots, s2: Slots)
    requires Step(NoSlots, e0) == Some(s1) && Step(s1, e1) == Some(s2)
    ensures Normalize([e0, e1]) == Success(s2)
  {
    Fold1(e0, s1);
    NormalizeSnoc([e0], e1, s1, s2);
    assert [e0] + [e1] == [e0, e1];
  }

  lemma Fold4(e0: Entity, e1: Entity, e2: Entity, e3: Entity, s2: Slots, s3: Slots, s4: Slots)
    requires Normalize([e0, e1]) == Success(s2)
    requires Step(s2, e2) == Some(s3) && Step(s3, e3) == Some(s4)
    ensures Normalize([e0, e1, e2, e3]) == Success(s4)
  {
    NormalizeSnoc([e0, e1], e2, s2, s3);
    assert [e0, e1] + [e2] == [e0, e1, e2];
    NormalizeSnoc([e0, e1, e2], e3, s3, s4);
    assert [e0, e1, e2] + [e3] == [e0, e1, e2, e3];
  }

  /** The loop over the RAM and brand entities below. */
  lemma RamBrandSlots()
    ensures Normalize([Entity("RAM", "16GB de RAM"), Entity("Marca", "HP")])
      == Success(NoSlots.(ram := Some("16"), marca := Some("HP")))
  {
    var e0 := Entity("RAM", "16GB de RAM");
    var s1 := NoSlots.(ram := Some("16"));
    RamStep(NoSlots, e0.text, 2);
    assert e0.text[..2] == "16";
    BrandStep(s1, "HP");
    Fold2(e0, Entity("Marca", "HP"), s1, s1.(marca := Some("HP")));
  }

  /** The passes on the storage and comparator entities below. */
  lemma StorageComparatorSteps(s: Slots)
    ensures Step(s, Entity("Almacenamiento", "1 TB")) == Some(s.(almacenamiento := Some("1")))
    ensures Step(s.(almacenamiento := Some("1")), Entity("ComparacionAlmacenamiento", "más de"))
      == Some(s.(almacenamiento := Some("1"), comparacionAlmacenamiento := Some(MasDe)))
  {
    StorageStep(s, "1 TB", 1);
    assert "1 TB"[..1] == "1";
    StorageComparatorStep(s.(almacenamiento := Some("1")), MasDe);
    PhrasesLower();
  }

  /** The loop over the RAM, brand, storage and comparator entities below. */
  lemma RamBrandStorageSlots()
    ensures Normalize([
        Entity("RAM", "16GB de RAM"),
        Entity("Marca", "HP"),
        Entity("Almacenamiento", "1 TB"),
        Entity("ComparacionAlmacenamiento", "más de")
      ]) == Success(NoSlots.(ram := Some("16"), marca := Some("HP"), almacenamiento := Some("1"),
                             comparacionAlmacenamiento := Some(MasDe)))
  {
    var s2 := NoSlots.(ram := Some("16"), marca := Some("HP"));
    RamBrandSlots();
    StorageComparatorSteps(s2);
    Fold4(Entity("RAM", "16GB de RAM"), Entity("Marca", "HP"), Entity("Almacenamiento", "1 TB"),
          Entity("ComparacionAlmacenamiento", "más de"),
          s2, s2.(almacenamiento := Some("1")), s2.(almacenamiento := Some("1"), comparacionAlmacenamiento := Some(MasDe)));
  }

  /** The query assembly on the slots the loop leaves for those entities. */
  lemma RamBrandStorageFilter(parseStorage: string -> Option<nat>)
    requires parseStorage("1").Some? && parseStorage("1").value != 0
    ensures Compile(NoSlots.(ram := Some("16"), marca := Some("HP"), almacenamiento := Some("1"),
                             comparacionAlmacenamiento := Some(MasDe)), parseStorage)
      == map[RamField := Eq(Str("16")), MarcaField := Eq(Str("HP")),
             AlmacenamientoField := Gt(Int(parseStorage("1").value))]
  {
    var s := NoSlots.(ram := Some("16"), marca := Some("HP"), almacenamiento := Some("1"),
                      comparacionAlmacenamiento := Some(MasDe));
    var m := map[RamField := Eq(Str("16")), MarcaField := Eq(Str("HP")),
                 AlmacenamientoField := Gt(Int(parseStorage("1").value))];
    FieldsDistinct();
    SameFilter(Compile(s, parseStorage), m);
  }

  /** "16GB de RAM", brand "HP", storage "1 TB" and "más de": RAM is the
      text "16", the brand is kept as written, and storage is a `$gt` range
      on what `parse_storage` makes of "1", the unit having been split off. */
  lemma RamBrandStorageScenario(parseStorage: string -> Option<nat>)
    requires parseStorage("1").Some? && parseStorage("1").value != 0
    ensures Search([
        Entity("RAM", "16GB de RAM"),
        Entity("Marca", "HP"),
        Entity("Almacenamiento", "1 TB"),
        Entity("ComparacionAlmacenamiento", "más de")
      ], parseStorage)
      == Success(map[
        RamField := Eq(Str("16")),
        MarcaField := Eq(Str("HP")),
        AlmacenamientoField := Gt(Int(parseStorage("1").value))
      ])
  {
    RamBrandStorageSlots();
    RamBrandStorageFilter(parseStorage);
  }

  /** The loop over the price and price comparator entities below. */
  lemma PriceBelowSlots()
    ensures Normalize([Entity("Precio", "899,00"), Entity("ComparacionPrecio", "menos de")])
      == Success(NoSlots.(precio := Some("899,00"), comparacionPrecio := Some(MenosDe)))
  {
    var s1 := NoSlots.(precio := Some("899,00"));
    PriceStep(NoSlots, "899,00", 6);
    assert "899,00"[..6] == "899,00";
    PriceComparatorStep(s1, MenosDe);
    PhrasesLower();
    Fold2(Entity("Precio", "899,00"), Entity("ComparacionPrecio", "menos de"), s1, s1.(comparacionPrecio := Some(MenosDe)));
  }

  /** The query assembly on the slots the loop leaves for those entities. */
  lemma PriceBelowFilter(parseStorage: string -> Option<nat>)
    ensures Compile(NoSlots.(precio := Some("899,00"), comparacionPrecio := Some(MenosDe)), parseStorage)
      == map[PrecioField := Lt(Number(899.0))]
  {
    var s := NoSlots.(precio := Some("899,00"), comparacionPrecio := Some(MenosDe));
    assert ParsePrice(s.precio.value) == Some(Price("899", false, "")) && Value(Price("899", false, "")) == 899.0 by {
      DecimalCommaDropsCents();
    }
    FieldsDistinct();
    SameFilter(Compile(s, parseStorage), map[PrecioField := Lt(Number(899.0))]);
  }

  /** "899,00" and "menos de": a `$lt` range on 899, the decimal comma
      having ended the number. */
  lemma PriceBelowScenario(parseStorage: string -> Option<nat>)
    ensures Search([Entity("Precio", "899,00"), Entity("ComparacionPrecio", "menos de")], parseStorage)
      == Success(map[PrecioField := Lt(Number(899.0))])
  {
    PriceBelowSlots();
    PriceBelowFilter(parseStorage);
  }

  /** A storage comparator with no storage entity: the empty filter. */
  lemma OrphanComparatorScenario(parseStorage: string -> Option<nat>)
    ensures Search([Entity("ComparacionAlmacenamiento", "más de")], parseStorage) == Success(map[])
  {
    var e0 := Entity("ComparacionAlmacenamiento", "más de");
    var s1 := NoSlots.(comparacionAlmacenamiento := Some(MasDe));
    StorageComparatorStep(NoSlots, MasDe);
    PhrasesLower();
    Fold1(e0, s1);
    SameFilter(Compile(s1, parseStorage), map[]);
  }

  /** The loop over the storage entity and the longer comparator below. */
  lemma ExactSlots()
    ensures Normalize([Entity("Almacenamiento", "512 GB"), Entity("ComparacionAlmacenamiento", "Más de 500")])
      == Success(NoSlots.(almacenamiento := Some("512"), comparacionAlmacenamiento := Some(Lower("Más de 500"))))
  {
    var e0 := Entity("Almacenamiento", "512 GB");
    var e1 := Entity("ComparacionAlmacenamiento", "Más de 500");
    var s1 := NoSlots.(almacenamiento := Some("512"));
    StorageStep(NoSlots, e0.text, 3);
    assert e0.text[..3] == "512";
    StorageComparatorStep(s1, e1.text);
    Fold2(e0, e1, s1, s1.(comparacionAlmacenamiento := Some(Lower(e1.text))));
  }

  /** The comparator phrase must be the whole text: "Más de 500" lower-cases
      to something other than "más de", so the storage entry is an equality. */
  lemma ComparatorMustBeExact(parseStorage: string -> Option<nat>)
    requires parseStorage("512").Some? && parseStorage("512").value != 0
    ensures Search([Entity("Almacenamiento", "512 GB"), Entity("ComparacionAlmacenamiento", "Más de 500")], parseStorage)
      == Success(map[AlmacenamientoField := Eq(Int(parseStorage("512").value))])
  {
    var c := Lower("Más de 500");
    var s := NoSlots.(almacenamiento := Some("512"), comparacionAlmacenamiento := Some(c));
    ExactSlots();
    assert c != MasDe && c != MenosDe by {
      assert |c| == 10;
    }
    FieldsDistinct();
    SameFilter(Compile(s, parseStorage), map[AlmacenamientoField := Eq(Int(parseStorage("512").value))]);
  }

  /** Last occurrence wins even when it is empty: a later empty brand
      overwrites "HP", and the empty brand is falsy, so no brand entry. */
  lemma EmptyBrandOverwrites(parseStorage: string -> Option<nat>)
    ensures Search([Entity("Marca", "HP"), Entity("Marca", "")], parseStorage) == Success(map[])
  {
    var s1 := NoSlots.(marca := Some("HP"));
    var s2 := NoSlots.(marca := Some(""));
    BrandStep(NoSlots, "HP");
    BrandStep(s1, "");
    Fold2(Entity("Marca", "HP"), Entity("Marca", ""), s1, s2);
    SameFilter(Compile(s2, parseStorage), map[]);
  }

  /** A blank price text makes `split()[0]` raise: the request fails and no
      filter is built, whatever came before. */
  lemma BlankPriceAborts(parseStorage: string -> Option<nat>)
    ensures Search([Entity("Marca", "HP"), Entity("Precio", " ")], parseStorage).Failure?
  {
    assert Raises([Entity("Marca", "HP"), Entity("Precio", " ")][1]);
  }
}
