/**
 * GET /dosage-forms: every dosage form in id order, each with the unit
 * types that belong to it, grouped by dosage_form_id in a first pass and
 * attached to the forms in a second.
 */
module DosageForms {
  import opened Wrappers
  import opened Tables
  import Seqs

  /** One entry of a form's unit_types list. */
  datatype UnitEntry = UnitEntry(unitTypeId: int, unitTypeName: string)

  /** One form of the response; unitTypes is the field the second loop sets. */
  datatype FormEntry = FormEntry(dosageFormId: int, dosageName: string, unitTypes: seq<UnitEntry>)

  function UnitTypeId(u: UnitType): int { u.id }
  function FormIdOf(u: UnitType): int { u.dosageFormId }
  function EntryOf(u: UnitType): UnitEntry { UnitEntry(u.id, u.name) }

  /** ORDER BY dosage_form_id ASC and ORDER BY unit_type_id ASC. */
  function FormOrder(f: DosageForm): (int, int) { (-f.id, 0) }
  function UnitOrder(u: UnitType): (int, int) { (-u.id, 0) }

  function SortedForms(dosageForms: seq<DosageForm>): seq<DosageForm>
  {
    Seqs.SortDesc(dosageForms, FormOrder)
  }

  function SortedUnits(unitTypes: seq<UnitType>): seq<UnitType>
  {
    Seqs.SortDesc(unitTypes, UnitOrder)
  }

  function ForForm(dosageFormId: int): UnitType -> bool
  {
    (u: UnitType) => u.dosageFormId == dosageFormId
  }

  function Entries(us: seq<UnitType>): (r: seq<UnitEntry>)
    ensures |r| == |us| && forall i :: 0 <= i < |us| ==> r[i] == EntryOf(us[i])
  {
    seq(|us|, i requires 0 <= i < |us| => EntryOf(us[i]))
  }

  /** The units of one form, in the order of the given unit rows. */
  function UnitsOf(units: seq<UnitType>, dosageFormId: int): seq<UnitEntry>
  {
    Entries(Seqs.Filter(units, ForForm(dosageFormId)))
  }

  lemma EntriesAppend(a: seq<UnitType>, b: seq<UnitType>)
    ensures Entries(a + b) == Entries(a) + Entries(b)
  {
  }

  lemma FilterOne(u: UnitType, d: int)
    ensures Seqs.Filter([u], ForForm(d)) == if u.dosageFormId == d then [u] else []
  {
    assert [u][1..] == [];
  }

  /** One more unit row adds it to its own form's list and to no other. */
  lemma UnitsOfSnoc(units: seq<UnitType>, u: UnitType, d: int)
    ensures UnitsOf(units + [u], d) == UnitsOf(units, d) + (if u.dosageFormId == d then [EntryOf(u)] else [])
  {
    Seqs.FilterAppend(units, [u], ForForm(d));
    FilterOne(u, d);
    EntriesAppend(Seqs.Filter(units, ForForm(d)), Seqs.Filter([u], ForForm(d)));
  }

  /** A form no unit row names has no unit. */
  lemma EmptyUnitsOf(units: seq<UnitType>, d: int)
    requires d !in IdsOf(units, FormIdOf)
    ensures UnitsOf(units, d) == []
  {
    Seqs.CountPositive(units, ForForm(d));
    forall i | 0 <= i < |units| ensures units[i].dosageFormId != d {
      assert IdsOf(units, FormIdOf)[i] == units[i].dosageFormId;
    }
  }

  /** The map holds, for each form that has a unit among the rows, that form's units in row order. */
  ghost predicate GroupedBy(grouped: map<int, seq<UnitEntry>>, units: seq<UnitType>)
  {
    && (forall d :: d in grouped <==> d in IdsOf(units, FormIdOf))
    && forall d :: d in grouped ==> grouped[d] == UnitsOf(units, d)
  }

  /** The units grouped under a dosage form, or none when the form has no group. */
  function UnitsFor(grouped: map<int, seq<UnitEntry>>, dosageFormId: int): seq<UnitEntry>
  {
    if dosageFormId in grouped then grouped[dosageFormId] else []
  }

  /** Reading a grouped map gives the form's units, and an empty list for a form without any. */
  lemma UnitsForGrouped(grouped: map<int, seq<UnitEntry>>, units: seq<UnitType>, d: int)
    requires GroupedBy(grouped, units)
    ensures UnitsFor(grouped, d) == UnitsOf(units, d)
  {
    if d !in grouped {
      EmptyUnitsOf(units, d);
    }
  }

  /** One pass of the first loop keeps the map grouped over one more row. */
  lemma GroupStep(grouped: map<int, seq<UnitEntry>>, units: seq<UnitType>, u: UnitType)
    requires GroupedBy(grouped, units)
    ensures GroupedBy(grouped[u.dosageFormId := UnitsFor(grouped, u.dosageFormId) + [EntryOf(u)]], units + [u])
  {
    var g := grouped[u.dosageFormId := UnitsFor(grouped, u.dosageFormId) + [EntryOf(u)]];
    IdsOfAppend(units, [u], FormIdOf);
    assert IdsOf([u], FormIdOf) == [u.dosageFormId];
    if u.dosageFormId !in grouped {
      EmptyUnitsOf(units, u.dosageFormId);
    }
    forall d ensures d in g <==> d in IdsOf(units + [u], FormIdOf) {
      assert d in IdsOf(units + [u], FormIdOf) <==> d in IdsOf(units, FormIdOf) || d == u.dosageFormId;
    }
    forall d | d in g ensures g[d] == UnitsOf(units + [u], d) {
      UnitsOfSnoc(units, u, d);
    }
  }

  /**
   * The first foreach: every unit row is appended to its dosage form's group.
   * A key exists exactly for the forms that have a unit.
   */
  method GroupUnits(units: seq<UnitType>) returns (grouped: map<int, seq<UnitEntry>>)
    ensures GroupedBy(grouped, units)
  {
    grouped := map[];
    var i := 0;
    while i < |units|
      invariant 0 <= i <= |units|
      invariant GroupedBy(grouped, units[..i])
    {
      var u := units[i];
      assert units[..i + 1] == units[..i] + [u];
      GroupStep(grouped, units[..i], u);
      var dfId := u.dosageFormId;
      if dfId !in grouped {
        grouped := grouped[dfId := []];
      }
      grouped := grouped[dfId := grouped[dfId] + [EntryOf(u)]];
      i := i + 1;
    }
    assert units[..i] == units;
  }


  /** The second, by-reference foreach: each form gets the list of its id. */
  method AttachUnits(a: array<FormEntry>, grouped: map<int, seq<UnitEntry>>)
    modifies a
    ensures forall i :: 0 <= i < a.Length ==>
      a[i] == old(a[i]).(unitTypes := UnitsFor(grouped, old(a[i]).dosageFormId))
  {
    var i := 0;
    while i < a.Length
      invariant 0 <= i <= a.Length
      invariant forall j :: 0 <= j < i ==> a[j] == old(a[j]).(unitTypes := UnitsFor(grouped, old(a[j]).dosageFormId))
      invariant forall j :: i <= j < a.Length ==> a[j] == old(a[j])
    {
      a[i] := a[i].(unitTypes := UnitsFor(grouped, a[i].dosageFormId));
      i := i + 1;
    }
  }

  /** The response: the forms in id order, each with its units in unit id order. */
  function Catalog(dosageForms: seq<DosageForm>, unitTypes: seq<UnitType>): seq<FormEntry>
  {
    var forms := SortedForms(dosageForms);
    seq(|forms|, i requires 0 <= i < |forms| =>
      FormEntry(forms[i].id, forms[i].name, UnitsOf(SortedUnits(unitTypes), forms[i].id)))
  }

  /** Every form is listed once per row of the table, in ascending id order. */
  lemma CatalogForms(dosageForms: seq<DosageForm>, unitTypes: seq<UnitType>)
    ensures var c := Catalog(dosageForms, unitTypes);
      && |c| == |dosageForms|
      && (forall i, j :: 0 <= i < j < |c| ==> c[i].dosageFormId <= c[j].dosageFormId)
      && (forall f :: f in dosageForms <==>
            (exists i :: 0 <= i < |c| && SortedForms(dosageForms)[i] == f && c[i].dosageFormId == f.id && c[i].dosageName == f.name))
  {
    var forms := SortedForms(dosageForms);
    forall i, j | 0 <= i < j < |forms| ensures forms[i].id <= forms[j].id {
      assert Seqs.KeyGe(FormOrder(forms[i]), FormOrder(forms[j]));
    }
    forall f ensures f in dosageForms <==> f in forms {
      assert f in dosageForms <==> f in multiset(dosageForms);
      assert f in forms <==> f in multiset(forms);
    }
  }

  /** Unit ids are unique: unit_type_id is the table's primary key. */
  predicate UniqueUnitIds(unitTypes: seq<UnitType>)
  {
    forall i, j :: 0 <= i < j < |unitTypes| ==> unitTypes[i].id != unitTypes[j].id
  }

  /** Sorting the unit rows keeps exactly the same rows. */
  lemma SortedUnitsSame(unitTypes: seq<UnitType>)
    ensures forall u :: u in SortedUnits(unitTypes) <==> u in unitTypes
  {
    var sorted := SortedUnits(unitTypes);
    forall u ensures u in sorted <==> u in unitTypes {
      assert u in sorted <==> u in multiset(sorted);
      assert u in unitTypes <==> u in multiset(unitTypes);
    }
  }

  /** A form's list holds exactly the unit rows of that form, and a form with no unit gets an empty list. */
  lemma UnitsOfMembers(unitTypes: seq<UnitType>, d: int)
    requires UniqueUnitIds(unitTypes)
    ensures var es := UnitsOf(SortedUnits(unitTypes), d);
      && (forall u :: u in unitTypes ==> (EntryOf(u) in es <==> u.dosageFormId == d))
      && (forall e :: e in es ==> exists u :: u in unitTypes && u.dosageFormId == d && e == EntryOf(u))
      && ((forall i :: 0 <= i < |unitTypes| ==> unitTypes[i].dosageFormId != d) ==> es == [])
  {
    var sorted := SortedUnits(unitTypes);
    var kept := Seqs.Filter(sorted, ForForm(d));
    var es := UnitsOf(sorted, d);
    SortedUnitsSame(unitTypes);
    forall u | u in unitTypes ensures EntryOf(u) in es <==> u.dosageFormId == d {
      if EntryOf(u) in es {
        var k :| 0 <= k < |es| && es[k] == EntryOf(u);
        assert kept[k] in kept;
        var a :| 0 <= a < |unitTypes| && unitTypes[a] == kept[k];
        var b :| 0 <= b < |unitTypes| && unitTypes[b] == u;
        assert a == b;
      }
      if u.dosageFormId == d {
        assert u in kept;
        var k :| 0 <= k < |kept| && kept[k] == u;
        assert es[k] == EntryOf(u);
      }
    }
    forall e | e in es ensures exists u :: u in unitTypes && u.dosageFormId == d && e == EntryOf(u) {
      var k :| 0 <= k < |es| && es[k] == e;
      assert kept[k] in kept;
    }
    if forall i :: 0 <= i < |unitTypes| ==> unitTypes[i].dosageFormId != d {
      if |kept| > 0 {
        assert kept[0] in unitTypes;
      }
    }
  }

  /** Each form's list is in strictly ascending unit id order, so no unit appears twice. */
  lemma UnitsOfAscending(unitTypes: seq<UnitType>, d: int)
    requires UniqueUnitIds(unitTypes)
    ensures var es := UnitsOf(SortedUnits(unitTypes), d);
      forall i, j :: 0 <= i < j < |es| ==> es[i].unitTypeId < es[j].unitTypeId
  {
    var sorted := SortedUnits(unitTypes);
    var kept := Seqs.Filter(sorted, ForForm(d));
    Seqs.PermutationKeepsDistinct(unitTypes, sorted, UnitTypeId);
    assert Seqs.IncreasingBy(sorted, UnitTypeId) by {
      forall i, j | 0 <= i < j < |sorted| ensures sorted[i].id < sorted[j].id {
        assert Seqs.KeyGe(UnitOrder(sorted[i]), UnitOrder(sorted[j]));
      }
    }
    Seqs.FilterIncreasing(sorted, ForForm(d), UnitTypeId);
  }

  /**
   * The handler.  userId and connectId are the token's values, 0 when
   * missing: no user is 401, no connection 403.  Without any form the
   * answer is an empty list.
   */
  method Index(s: Store, userId: int, connectId: int) returns (r: Reply<seq<FormEntry>>)
    ensures userId == 0 ==> r == Fail(Unauthorized)
    ensures userId != 0 && connectId == 0 ==> r == Fail(Forbidden)
    ensures userId != 0 && connectId != 0 && s.dosageForms == [] ==> r == Ok([])
    ensures userId != 0 && connectId != 0 ==> r == Ok(Catalog(s.dosageForms, s.unitTypes))
  {
    if userId == 0 {
      return Fail(Unauthorized);
    }
    if connectId == 0 {
      return Fail(Forbidden);
    }
    var forms := SortedForms(s.dosageForms);
    if forms == [] {
      assert Catalog(s.dosageForms, s.unitTypes) == [];
      return Ok([]);
    }
    var units := SortedUnits(s.unitTypes);
    var grouped := GroupUnits(units);
    var a := new FormEntry[|forms|](i requires 0 <= i < |forms| => FormEntry(forms[i].id, forms[i].name, []));
    AttachUnits(a, grouped);
    ghost var catalog := Catalog(s.dosageForms, s.unitTypes);
    forall i | 0 <= i < |forms| ensures a[i] == catalog[i] {
      UnitsForGrouped(grouped, units, forms[i].id);
    }
    assert a[..] == catalog;
    r := Ok(a[..]);
  }
}
