/**
 * GET /medications: the medications of the caller's connection, newest
 * first, each row rewritten in place with its display defaults, its picture
 * URL and its display name.
 */
module MedicationsIndex {
  import opened Wrappers
  import opened Php
  import opened Tables
  import Seqs
  import ConfigLoader
  import Uploads
  import MedicationsShow

  /**
   * One row of the list.  dosageForm and unitType come from LEFT JOINs and
   * are null when the join finds nothing; the two ids are then (int)null = 0.
   * pictureUrl and displayName are the columns the loop adds.
   */
  datatype Row = Row(
    medicationId: int, connectId: int, nickname: string, name: string, description: string,
    picture: Option<string>, dosageForm: Option<string>, dosageFormId: int,
    unitType: Option<string>, unitTypeId: int, pictureUrl: Option<string>, displayName: string)

  /** A column with a fallback: the default when the value is falsy. */
  function OrDefault(v: string, default: string): (r: string)
    ensures !EmptyString(default) ==> !EmptyString(r)
    ensures r == v || r == default
  {
    if EmptyString(v) then default else v
  }

  /** A nullable column with a fallback. */
  function OrDefaultNull(v: Option<string>, default: string): (r: string)
    ensures !EmptyString(default) ==> !EmptyString(r)
    ensures v.None? ==> r == default
    ensures v.Some? ==> r == OrDefault(v.value, default)
  {
    if v.None? then default else OrDefault(v.value, default)
  }

  function OfConnection(connectId: int): Medication -> bool
  {
    (m: Medication) => m.connectId == connectId
  }

  /** ORDER BY m.medication_id DESC. */
  function ById(m: Medication): (int, int) { (m.id, 0) }

  /** The connection's medications in the listing order. */
  function Ordered(medications: seq<Medication>, connectId: int): seq<Medication>
  {
    Seqs.SortDesc(Seqs.Filter(medications, OfConnection(connectId)), ById)
  }

  /** The row the query fetches for one medication, before the loop touches it. */
  function FetchedRow(m: Medication, dosageForms: seq<DosageForm>, unitTypes: seq<UnitType>): (r: Row)
    ensures r.medicationId == m.id && r.connectId == m.connectId && r.nickname == m.nickname && r.name == m.name
    ensures r.pictureUrl.None? && r.displayName == ""
    ensures match MedicationsShow.DosageFormById(dosageForms, m.dosageFormId)
            case None => r.dosageForm.None? && r.dosageFormId == 0
            case Some(f) => r.dosageForm == Some(f.name) && r.dosageFormId == m.dosageFormId
    ensures r.unitType == UnitName(unitTypes, m.unitTypeId)
    ensures r.unitTypeId == if r.unitType.None? then 0 else m.unitTypeId
  {
    var form := MedicationsShow.DosageFormById(dosageForms, m.dosageFormId);
    var unit := UnitName(unitTypes, m.unitTypeId);
    Row(m.id, m.connectId, m.nickname, m.name, m.description, m.picture,
        if form.Some? then Some(form.value.name) else None, if form.Some? then form.value.id else 0,
        unit, if unit.Some? then m.unitTypeId else 0, None, "")
  }

  /** The rows fetchAll() returns. */
  function Fetched(medications: seq<Medication>, dosageForms: seq<DosageForm>, unitTypes: seq<UnitType>, connectId: int): seq<Row>
  {
    var ms := Ordered(medications, connectId);
    seq(|ms|, i requires 0 <= i < |ms| => FetchedRow(ms[i], dosageForms, unitTypes))
  }

  /**
   * One pass of the loop body: the picture URL, the four defaults, then the
   * display name from the defaulted nickname.
   */
  function Normalized(row: Row, config: ConfigLoader.UploadConfig): (r: Row)
    ensures r.medicationId == row.medicationId && r.connectId == row.connectId && r.name == row.name
    ensures r.picture == row.picture && r.dosageFormId == row.dosageFormId && r.unitTypeId == row.unitTypeId
    ensures r.pictureUrl == Uploads.ImageUrl(config, row.picture)
    ensures EmptyString(row.nickname) ==> r.nickname == "-"
    ensures !EmptyString(row.nickname) ==> r.nickname == row.nickname
    ensures EmptyString(row.description) ==> r.description == "-"
    ensures !EmptyString(row.description) ==> r.description == row.description
    ensures r.dosageForm == Some(OrDefaultNull(row.dosageForm, "ไม่ระบุ"))
    ensures r.unitType == Some(OrDefaultNull(row.unitType, "เม็ด"))
    ensures r.displayName == if r.nickname != "-" then r.nickname else row.name
  {
    var nickname := OrDefault(row.nickname, "-");
    row.(pictureUrl := Uploads.ImageUrl(config, row.picture),
         nickname := nickname,
         description := OrDefault(row.description, "-"),
         dosageForm := Some(OrDefaultNull(row.dosageForm, "ไม่ระบุ")),
         unitType := Some(OrDefaultNull(row.unitType, "เม็ด")),
         displayName := MedicationsShow.ShownName(nickname, row.name))
  }

  /** The rows of the response. */
  function Listing(medications: seq<Medication>, dosageForms: seq<DosageForm>, unitTypes: seq<UnitType>, connectId: int,
                   config: ConfigLoader.UploadConfig): seq<Row>
  {
    var rows := Fetched(medications, dosageForms, unitTypes, connectId);
    seq(|rows|, i requires 0 <= i < |rows| => Normalized(rows[i], config))
  }

  /** After the loop no shown text field is empty. */
  lemma NormalizedHasNoEmptyField(row: Row, config: ConfigLoader.UploadConfig)
    ensures var r := Normalized(row, config);
      && !EmptyString(r.nickname) && !EmptyString(r.description)
      && r.dosageForm.Some? && !EmptyString(r.dosageForm.value)
      && r.unitType.Some? && !EmptyString(r.unitType.value)
  {
  }

  /** Running the loop body twice changes nothing more than running it once. */
  lemma NormalizedIdempotent(row: Row, config: ConfigLoader.UploadConfig)
    ensures Normalized(Normalized(row, config), config) == Normalized(row, config)
  {
    var once := Normalized(row, config);
    assert !EmptyString(once.nickname) && !EmptyString(once.description);
  }

  /** The list shows the same display name as the detail view of the same medication. */
  lemma DisplayNameAgreesWithShow(m: Medication, dosageForms: seq<DosageForm>, unitTypes: seq<UnitType>,
                                  config: ConfigLoader.UploadConfig)
    ensures Normalized(FetchedRow(m, dosageForms, unitTypes), config).displayName == MedicationsShow.ShownName(m.nickname, m.name)
  {
  }

  /** The query keeps exactly the connection's medications, one row each, highest id first. */
  lemma OrderedExact(medications: seq<Medication>, connectId: int)
    ensures var ms := Ordered(medications, connectId);
      && (forall m :: m in ms <==> m in medications && m.connectId == connectId)
      && |ms| == Seqs.Count(medications, OfConnection(connectId))
      && forall i, j :: 0 <= i < j < |ms| ==> ms[i].id >= ms[j].id
  {
    var kept := Seqs.Filter(medications, OfConnection(connectId));
    var ms := Ordered(medications, connectId);
    forall m ensures m in ms <==> m in kept {
      assert m in ms <==> m in multiset(ms);
      assert m in kept <==> m in multiset(kept);
    }
    forall i, j | 0 <= i < j < |ms| ensures ms[i].id >= ms[j].id {
      assert Seqs.KeyGe(ById(ms[i]), ById(ms[j]));
    }
  }

  /** The list holds exactly the connection's medications, highest id first, one row each. */
  lemma ListingExact(medications: seq<Medication>, dosageForms: seq<DosageForm>, unitTypes: seq<UnitType>, connectId: int,
                     config: ConfigLoader.UploadConfig)
    ensures forall m :: m in Ordered(medications, connectId) <==> m in medications && m.connectId == connectId
    ensures var rows := Listing(medications, dosageForms, unitTypes, connectId, config);
      var ms := Ordered(medications, connectId);
      && |rows| == |ms| == Seqs.Count(medications, OfConnection(connectId))
      && (forall i :: 0 <= i < |rows| ==> rows[i] == Normalized(FetchedRow(ms[i], dosageForms, unitTypes), config))
      && forall i, j :: 0 <= i < j < |rows| ==> rows[i].medicationId >= rows[j].medicationId
  {
    OrderedExact(medications, connectId);
  }

  /** The by-reference foreach: every row is rewritten in place by the loop body. */
  method NormalizeRows(a: array<Row>, config: ConfigLoader.UploadConfig)
    modifies a
    ensures forall i :: 0 <= i < a.Length ==> a[i] == Normalized(old(a[i]), config)
  {
    var i := 0;
    while i < a.Length
      invariant 0 <= i <= a.Length
      invariant forall j :: 0 <= j < i ==> a[j] == Normalized(old(a[j]), config)
      invariant forall j :: i <= j < a.Length ==> a[j] == old(a[j])
    {
      var row := a[i];
      a[i] := Normalized(row, config);
      i := i + 1;
    }
  }

  datatype ListData = ListData(data: seq<Row>, total: nat)

  /**
   * The handler.  userId and connectId come from the token: either one not
   * positive is 422, a connection that is not the user's is 403.
   */
  method List(s: Store, userId: int, connectId: int, config: ConfigLoader.UploadConfig) returns (r: Reply<ListData>)
    ensures userId <= 0 || connectId <= 0 ==> r == Fail(Unprocessable)
    ensures userId > 0 && connectId > 0 && !ConnectionOf(s.connects, connectId, userId) ==> r == Fail(Forbidden)
    ensures userId > 0 && connectId > 0 && ConnectionOf(s.connects, connectId, userId) ==>
      var rows := Listing(s.medications, s.dosageForms, s.unitTypes, connectId, config);
      r == Ok(ListData(rows, |rows|))
  {
    if userId <= 0 || connectId <= 0 {
      return Fail(Unprocessable);
    }
    if !ConnectionOf(s.connects, connectId, userId) {
      return Fail(Forbidden);
    }
    var fetched := Fetched(s.medications, s.dosageForms, s.unitTypes, connectId);
    var a := new Row[|fetched|](i requires 0 <= i < |fetched| => fetched[i]);
    ghost var before := a[..];
    assert before == fetched;
    NormalizeRows(a, config);
    var rows := Listing(s.medications, s.dosageForms, s.unitTypes, connectId, config);
    assert |rows| == a.Length;
    forall i | 0 <= i < a.Length ensures a[i] == rows[i] {
      assert a[i] == Normalized(before[i], config);
    }
    assert a[..] == rows;
    r := Ok(ListData(a[..], a.Length));
  }
}
