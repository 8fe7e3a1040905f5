/**
 * PUT /medications/{id}/timings: replaces the set of meal timings a
 * medication is taken at.  The requested ids are validated (integers 1 to 7),
 * de-duplicated, and each id the timing table knows becomes one row.
 */
module MedicationTimings {
  import opened Wrappers
  import opened Php
  import opened Tables
  import Seqs

  /** The ids in 1 to 7 that FILTER_VALIDATE_INT accepts, in request order, after n values. */
  function ValidTimingIds(values: seq<Value>): (r: seq<int>)
  {
    if |values| == 0 then []
    else
      var before := ValidTimingIds(values[..|values| - 1]);
      var v := FilterValidateInt(values[|values| - 1]);
      if v.Some? && 1 <= v.value <= 7 then before + [v.value] else before
  }

  /** Every kept id is in range and comes from a request value, and every valid value is kept. */
  lemma {:induction false} ValidTimingIdsExact(values: seq<Value>)
    ensures forall i :: 0 <= i < |ValidTimingIds(values)| ==> 1 <= ValidTimingIds(values)[i] <= 7
    ensures forall i :: 0 <= i < |ValidTimingIds(values)| ==> ValidatedFrom(values, ValidTimingIds(values)[i])
    ensures forall k :: 0 <= k < |values| && FilterValidateInt(values[k]).Some? && 1 <= FilterValidateInt(values[k]).value <= 7 ==>
      FilterValidateInt(values[k]).value in ValidTimingIds(values)
  {
    if |values| > 0 {
      var init := values[..|values| - 1];
      ValidTimingIdsExact(init);
      var r := ValidTimingIds(values);
      var before := ValidTimingIds(init);
      forall i | 0 <= i < |r| ensures ValidatedFrom(values, r[i]) {
        if i < |before| {
          assert ValidatedFrom(init, before[i]);
          var k :| 0 <= k < |init| && FilterValidateInt(init[k]) == Some(before[i]);
          assert values[k] == init[k];
        } else {
          assert FilterValidateInt(values[|values| - 1]) == Some(r[i]);
        }
      }
      forall k | 0 <= k < |values| && FilterValidateInt(values[k]).Some? && 1 <= FilterValidateInt(values[k]).value <= 7
        ensures FilterValidateInt(values[k]).value in r
      {
        if k < |init| {
          assert values[k] == init[k];
        }
      }
    }
  }

  /** Some request value validates to this id. */
  predicate ValidatedFrom(values: seq<Value>, id: int)
  {
    exists k :: 0 <= k < |values| && FilterValidateInt(values[k]) == Some(id)
  }

  /** The name of the timing with this id, if the timing table has it. */
  function TimingName(timings: seq<Timing>, id: int): (r: Option<string>)
    ensures r.None? <==> forall i :: 0 <= i < |timings| ==> timings[i].id != id
  {
    if |timings| == 0 then None
    else if timings[0].id == id then Some(timings[0].name)
    else TimingName(timings[1..], id)
  }

  /** An element of medication_timings in the response. */
  datatype TimingRow = TimingRow(timingId: int, name: string)

  /** The rows the insert loop adds for ids, in order: one per id the timing table knows. */
  function Inserted(ids: seq<int>, timings: seq<Timing>): seq<TimingRow>
  {
    if |ids| == 0 then []
    else
      var before := Inserted(ids[..|ids| - 1], timings);
      var name := TimingName(timings, ids[|ids| - 1]);
      if name.Some? then before + [TimingRow(ids[|ids| - 1], name.value)] else before
  }

  /** The inserted rows are exactly the known ids, in order and each once when the ids are distinct. */
  lemma {:induction false} InsertedExact(ids: seq<int>, timings: seq<Timing>)
    ensures |Inserted(ids, timings)| <= |ids|
    ensures forall i :: 0 <= i < |Inserted(ids, timings)| ==>
      Inserted(ids, timings)[i].timingId in ids && TimingName(timings, Inserted(ids, timings)[i].timingId).Some?
    ensures forall k :: 0 <= k < |ids| && TimingName(timings, ids[k]).Some? ==>
      exists i :: 0 <= i < |Inserted(ids, timings)| && Inserted(ids, timings)[i].timingId == ids[k]
    ensures Seqs.Distinct(ids) ==> Seqs.Distinct(TimingIdsOf(Inserted(ids, timings)))
  {
    if |ids| > 0 {
      var init := ids[..|ids| - 1];
      var last := ids[|ids| - 1];
      InsertedExact(init, timings);
      var before := Inserted(init, timings);
      var r := Inserted(ids, timings);
      assert forall i :: 0 <= i < |before| ==> before[i].timingId in ids by {
        assert forall x :: x in init ==> x in ids;
      }
      forall k | 0 <= k < |ids| && TimingName(timings, ids[k]).Some?
        ensures exists i :: 0 <= i < |r| && r[i].timingId == ids[k]
      {
        if k < |init| {
          assert init[k] == ids[k];
          var i :| 0 <= i < |before| && before[i].timingId == init[k];
          assert r[i] == before[i];
        } else {
          assert r[|r| - 1].timingId == last;
        }
      }
      if Seqs.Distinct(ids) {
        assert Seqs.Distinct(init);
        assert last !in init;
        var t := TimingIdsOf(r);
        forall i, j | 0 <= i < j < |t| ensures t[i] != t[j] {
          if j < |before| {
            assert TimingIdsOf(before)[i] == t[i] && TimingIdsOf(before)[j] == t[j];
          } else {
            assert r[i] == before[i] && before[i].timingId in init;
          }
        }
      }
    }
  }

  function TimingIdsOf(rows: seq<TimingRow>): (r: seq<int>)
    ensures |r| == |rows| && forall i :: 0 <= i < |rows| ==> r[i] == rows[i].timingId
  {
    seq(|rows|, i requires 0 <= i < |rows| => rows[i].timingId)
  }

  /** medication_timing after the replace: the medication's old rows gone, one row per inserted timing. */
  function TimingsAfter(medicationTimings: seq<MedicationTiming>, medicationId: int, inserted: seq<TimingRow>): seq<MedicationTiming>
  {
    OtherTimings(medicationTimings, medicationId) + RowsOf(medicationId, inserted)
  }

  /** DELETE FROM medication_timing WHERE medication_id = ?. */
  function OtherTimings(medicationTimings: seq<MedicationTiming>, medicationId: int): seq<MedicationTiming>
  {
    Seqs.Filter(medicationTimings, OtherTest(medicationId))
  }

  function OtherTest(medicationId: int): MedicationTiming -> bool
  {
    (mt: MedicationTiming) => mt.medicationId != medicationId
  }

  function RowsOf(medicationId: int, inserted: seq<TimingRow>): (r: seq<MedicationTiming>)
    ensures |r| == |inserted| && forall i :: 0 <= i < |r| ==> r[i] == MedicationTiming(medicationId, inserted[i].timingId)
  {
    seq(|inserted|, i requires 0 <= i < |inserted| => MedicationTiming(medicationId, inserted[i].timingId))
  }

  /** Afterwards the medication's timings are exactly the inserted ones; other medications keep theirs. */
  lemma TimingsAfterExact(medicationTimings: seq<MedicationTiming>, medicationId: int, inserted: seq<TimingRow>)
    ensures var r := TimingsAfter(medicationTimings, medicationId, inserted);
      && (forall t :: HasTiming(r, medicationId, t) <==> t in TimingIdsOf(inserted))
      && (forall m, t :: m != medicationId ==> (HasTiming(r, m, t) <==> HasTiming(medicationTimings, m, t)))
  {
    var kept := OtherTimings(medicationTimings, medicationId);
    var added := RowsOf(medicationId, inserted);
    var r := kept + added;
    Seqs.FilterAt(medicationTimings, OtherTest(medicationId));
    assert forall i :: 0 <= i < |kept| ==> kept[i].medicationId != medicationId;
    forall t ensures HasTiming(r, medicationId, t) <==> t in TimingIdsOf(inserted) {
      if HasTiming(r, medicationId, t) {
        var i :| 0 <= i < |r| && r[i].medicationId == medicationId && r[i].timingId == t;
        assert i >= |kept|;
        assert TimingIdsOf(inserted)[i - |kept|] == t;
      }
      if t in TimingIdsOf(inserted) {
        var k :| 0 <= k < |inserted| && TimingIdsOf(inserted)[k] == t;
        assert r[|kept| + k] == MedicationTiming(medicationId, t);
      }
    }
    forall m, t | m != medicationId ensures HasTiming(r, m, t) <==> HasTiming(medicationTimings, m, t) {
      if HasTiming(r, m, t) {
        var i :| 0 <= i < |r| && r[i].medicationId == m && r[i].timingId == t;
        assert i < |kept|;
        assert kept[i] in medicationTimings;
      }
      if HasTiming(medicationTimings, m, t) {
        var i :| 0 <= i < |medicationTimings| && medicationTimings[i].medicationId == m && medicationTimings[i].timingId == t;
        assert medicationTimings[i] in kept;
        var j :| 0 <= j < |kept| && kept[j] == medicationTimings[i];
        assert r[j] == kept[j];
      }
    }
  }

  datatype TimingsResult = TimingsResult(
    medicationId: int, medicationTimings: seq<TimingRow>, updatedTimingIds: seq<int>, timingCount: nat)

  /**
   * The handler.  timingIds is the body's timing_ids, None when the JSON does
   * not parse or the key is absent; fault stands for a database error in any
   * statement of the transaction, the ownership lookup among them, which
   * answers 500 and rolls back.
   */
  method SetTimings(s: Store, userId: int, connectId: int, medicationIdParam: Value, timingIds: Option<Value>, fault: bool)
      returns (r: Reply<TimingsResult>)
    modifies s`medicationTimings
    ensures r.Fail? ==> s.medicationTimings == old(s.medicationTimings)
    ensures ToInt(medicationIdParam) <= 0 ==> r == Fail(Unprocessable)
    ensures ToInt(medicationIdParam) > 0 && (timingIds.None? || !timingIds.value.Arr? || |timingIds.value.entries| == 0) ==>
      r == Fail(Unprocessable)
    ensures (ToInt(medicationIdParam) > 0 && timingIds.Some? && timingIds.value.Arr?
             && ValidTimingIds(Values(timingIds.value.entries)) == []) ==> r == Fail(Unprocessable)
    ensures (ToInt(medicationIdParam) > 0 && timingIds.Some? && timingIds.value.Arr?
             && ValidTimingIds(Values(timingIds.value.entries)) != []) ==>
      var medicationId := ToInt(medicationIdParam);
      && (fault ==> r == Fail(ServerError))
      && (!fault && !MedicationOwned(s.medications, s.connects, medicationId, userId) ==> r == Fail(NotFound))
      && (!fault && MedicationOwned(s.medications, s.connects, medicationId, userId) ==>
            var m := OwnedMedication(s.medications, s.connects, medicationId, userId).value;
            && (m.connectId != connectId ==> r == Fail(Forbidden))
            && (m.connectId == connectId ==> r.Ok?))
    ensures r.Ok? ==>
      var medicationId := ToInt(medicationIdParam);
      && medicationId > 0 && timingIds.Some? && timingIds.value.Arr?
      && var ids := Seqs.Dedup(ValidTimingIds(Values(timingIds.value.entries)));
      && |ids| > 0
      && ReplaceSpec(old(s.medicationTimings), s.medicationTimings, s.medications, s.connects, s.timings,
                     userId, medicationId, ids, fault, r)
  {
    var medicationId := ToInt(medicationIdParam);
    if medicationId <= 0 {
      return Fail(Unprocessable);
    }
    if timingIds.None? || !timingIds.value.Arr? || |timingIds.value.entries| == 0 {
      return Fail(Unprocessable);
    }
    var valid := ValidIds(Values(timingIds.value.entries));
    if valid == [] {
      return Fail(Unprocessable);
    }
    var ids := Seqs.Dedup(valid);
    r := Replace(s, userId, connectId, medicationId, ids, fault);
  }

  /** What a successful replace returns and leaves behind. */
  ghost predicate ReplaceSpec(before: seq<MedicationTiming>, after: seq<MedicationTiming>, medications: seq<Medication>,
                              connects: seq<Connection>, timings: seq<Timing>, userId: int, medicationId: int,
                              ids: seq<int>, fault: bool, r: Reply<TimingsResult>)
    requires r.Ok?
  {
    && !fault
    && MedicationOwned(medications, connects, medicationId, userId)
    && r.data.medicationId == medicationId
    && r.data.updatedTimingIds == ids
    && r.data.medicationTimings == Inserted(ids, timings)
    && r.data.timingCount == |r.data.medicationTimings|
    && after == TimingsAfter(before, medicationId, r.data.medicationTimings)
  }

  /** The transaction: the ownership checks, the DELETE and the inserts; a database error in any of them is 500. */
  method Replace(s: Store, userId: int, connectId: int, medicationId: int, ids: seq<int>, fault: bool)
      returns (r: Reply<TimingsResult>)
    modifies s`medicationTimings
    ensures r.Fail? ==> s.medicationTimings == old(s.medicationTimings)
    ensures fault ==> r == Fail(ServerError)
    ensures !fault && !MedicationOwned(s.medications, s.connects, medicationId, userId) ==> r == Fail(NotFound)
    ensures !fault && MedicationOwned(s.medications, s.connects, medicationId, userId) ==>
      var m := OwnedMedication(s.medications, s.connects, medicationId, userId).value;
      && (m.connectId != connectId ==> r == Fail(Forbidden))
      && (m.connectId == connectId ==> r.Ok?)
    ensures r.Ok? ==> ReplaceSpec(old(s.medicationTimings), s.medicationTimings, s.medications, s.connects, s.timings,
                                  userId, medicationId, ids, fault, r)
  {
    if fault {
      return Fail(ServerError);
    }
    var owner := OwnedMedication(s.medications, s.connects, medicationId, userId);
    if owner.None? {
      return Fail(NotFound);
    }
    if owner.value.connectId != connectId {
      return Fail(Forbidden);
    }
    s.medicationTimings := OtherTimings(s.medicationTimings, medicationId);
    var added := InsertTimings(s, medicationId, ids);
    r := Ok(TimingsResult(medicationId, added, ids, |added|));
  }

  /** The values of a JSON array, in order. */
  function Values(entries: seq<(Key, Value)>): (r: seq<Value>)
    ensures |r| == |entries| && forall i :: 0 <= i < |entries| ==> r[i] == entries[i].1
  {
    seq(|entries|, i requires 0 <= i < |entries| => entries[i].1)
  }

  /** The validation foreach. */
  method ValidIds(values: seq<Value>) returns (ids: seq<int>)
    ensures ids == ValidTimingIds(values)
  {
    ids := [];
    var i := 0;
    while i < |values|
      invariant 0 <= i <= |values|
      invariant ids == ValidTimingIds(values[..i])
    {
      assert values[..i + 1][..i] == values[..i];
      var id := FilterValidateInt(values[i]);
      if id.Some? && 1 <= id.value <= 7 {
        ids := ids + [id.value];
      }
      i := i + 1;
    }
    assert values[..i] == values;
  }

  /** The insert foreach: one row per id the timing table knows. */
  method InsertTimings(s: Store, medicationId: int, ids: seq<int>) returns (added: seq<TimingRow>)
    modifies s`medicationTimings
    ensures added == Inserted(ids, s.timings)
    ensures s.medicationTimings == old(s.medicationTimings) + RowsOf(medicationId, added)
  {
    added := [];
    var base := s.medicationTimings;
    var i := 0;
    while i < |ids|
      invariant 0 <= i <= |ids|
      invariant added == Inserted(ids[..i], s.timings)
      invariant s.medicationTimings == base + RowsOf(medicationId, added)
    {
      assert ids[..i + 1][..i] == ids[..i];
      var name := TimingName(s.timings, ids[i]);
      if name.Some? {
        added := added + [TimingRow(ids[i], name.value)];
        s.medicationTimings := s.medicationTimings + [MedicationTiming(medicationId, ids[i])];
      }
      i := i + 1;
    }
    assert ids[..i] == ids;
  }
}
