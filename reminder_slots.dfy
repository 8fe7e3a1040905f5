/**
 * GET /reminders/{app_id}/slot: the settings form of one slot -- the slot,
 * the timing it dispenses at, its week (created all-off when missing), its
 * medication links and the medications that may be added to it.
 */
module ReminderSlots {
  import opened Wrappers
  import opened Php
  import opened Tables
  import Seqs
  import Uploads
  import ConfigLoader

  /** A row of medication_links: the link joined with its medication and unit. */
  datatype LinkView = LinkView(
    appId: int, medicationId: int, amount: real, name: string, pictureUrl: Option<string>, unitType: Option<string>)

  /** A row of available_medications. */
  datatype MedicationView = MedicationView(
    medicationId: int, connectId: int, name: string, pictureUrl: Option<string>, unitType: Option<string>)

  datatype SlotDetail = SlotDetail(
    slot: Slot, timingOptions: seq<Timing>, days: DayFlags, links: seq<LinkView>, available: seq<MedicationView>)

  /** SELECT ... FROM timing WHERE timing_id = pill_slot. */
  function TimingOptions(timings: seq<Timing>, pillSlot: int): (r: seq<Timing>)
    ensures forall i :: 0 <= i < |r| ==> r[i].id == pillSlot && r[i] in timings
    ensures forall i :: 0 <= i < |timings| && timings[i].id == pillSlot ==> timings[i] in r
  {
    Seqs.FilterAt(timings, TimingTest(pillSlot));
    Seqs.Filter(timings, TimingTest(pillSlot))
  }

  function TimingTest(pillSlot: int): Timing -> bool
  {
    (t: Timing) => t.id == pillSlot
  }

  /** The links the inner join with medication keeps: this slot's links whose medication exists. */
  function SlotLinks(links: seq<Link>, appId: int, medications: seq<Medication>): (r: seq<Link>)
    ensures forall i :: 0 <= i < |r| ==> r[i] in links && r[i].appId == appId && MedicationById(medications, r[i].medicationId).Some?
    ensures forall i :: 0 <= i < |links| && links[i].appId == appId && MedicationById(medications, links[i].medicationId).Some? ==>
      links[i] in r
  {
    Seqs.FilterAt(links, SlotLinkTest(appId, medications));
    Seqs.Filter(links, SlotLinkTest(appId, medications))
  }

  function SlotLinkTest(appId: int, medications: seq<Medication>): Link -> bool
  {
    (l: Link) => l.appId == appId && MedicationById(medications, l.medicationId).Some?
  }

  function LinkViewOf(l: Link, m: Medication, unitTypes: seq<UnitType>, config: ConfigLoader.UploadConfig): LinkView
  {
    LinkView(l.appId, l.medicationId, l.amount, m.name, Uploads.ImageUrl(config, m.picture), UnitName(unitTypes, m.unitTypeId))
  }

  function LinkViews(links: seq<Link>, appId: int, medications: seq<Medication>, unitTypes: seq<UnitType>,
                     config: ConfigLoader.UploadConfig): seq<LinkView>
  {
    var ls := SlotLinks(links, appId, medications);
    seq(|ls|, i requires 0 <= i < |ls| =>
      LinkViewOf(ls[i], MedicationById(medications, ls[i].medicationId).value, unitTypes, config))
  }

  /**
   * medication_links lists every link of the slot whose medication exists,
   * with its amount and its medication's name, and nothing else.
   */
  lemma LinkViewsExact(links: seq<Link>, appId: int, medications: seq<Medication>, unitTypes: seq<UnitType>,
                       config: ConfigLoader.UploadConfig)
    ensures var r := LinkViews(links, appId, medications, unitTypes, config);
      && (forall i :: 0 <= i < |r| ==>
            (r[i].appId == appId
             && exists k :: 0 <= k < |links| && links[k].appId == appId && links[k].medicationId == r[i].medicationId
                            && links[k].amount == r[i].amount))
      && (forall k :: 0 <= k < |links| && links[k].appId == appId && MedicationById(medications, links[k].medicationId).Some? ==>
            LinkViewOf(links[k], MedicationById(medications, links[k].medicationId).value, unitTypes, config) in r)
  {
    var ls := SlotLinks(links, appId, medications);
    var r := LinkViews(links, appId, medications, unitTypes, config);
    forall i | 0 <= i < |r|
      ensures r[i].appId == appId
      ensures exists k :: 0 <= k < |links| && links[k].appId == appId && links[k].medicationId == r[i].medicationId
                          && links[k].amount == r[i].amount
    {
      assert ls[i] in links;
      var k :| 0 <= k < |links| && links[k] == ls[i];
    }
    forall k | 0 <= k < |links| && links[k].appId == appId && MedicationById(medications, links[k].medicationId).Some?
      ensures LinkViewOf(links[k], MedicationById(medications, links[k].medicationId).value, unitTypes, config) in r
    {
      assert links[k] in ls;
      var i :| 0 <= i < |ls| && ls[i] == links[k];
      assert r[i] == LinkViewOf(links[k], MedicationById(medications, links[k].medicationId).value, unitTypes, config);
    }
  }

  /** The medications of the caller's connection registered for the slot's timing. */
  function Available(medications: seq<Medication>, medicationTimings: seq<MedicationTiming>, connectId: int, pillSlot: int): seq<Medication>
  {
    Seqs.Filter(medications, AvailableTest(medicationTimings, connectId, pillSlot))
  }

  /** WHERE m.connect_id = ? AND mt.timing_id = ?, over the join with medication_timing. */
  function AvailableTest(medicationTimings: seq<MedicationTiming>, connectId: int, pillSlot: int): Medication -> bool
  {
    (m: Medication) => m.connectId == connectId && HasTiming(medicationTimings, m.id, pillSlot)
  }

  function AvailableViews(medications: seq<Medication>, medicationTimings: seq<MedicationTiming>, unitTypes: seq<UnitType>,
                          connectId: int, pillSlot: int, config: ConfigLoader.UploadConfig): seq<MedicationView>
  {
    var ms := Available(medications, medicationTimings, connectId, pillSlot);
    seq(|ms|, i requires 0 <= i < |ms| =>
      MedicationView(ms[i].id, ms[i].connectId, ms[i].name, Uploads.ImageUrl(config, ms[i].picture), UnitName(unitTypes, ms[i].unitTypeId)))
  }

  /**
   * available_medications holds exactly the connection's medications that
   * have a timing row for the pill slot, each once (SELECT DISTINCT), in id
   * order.
   */
  lemma AvailableExact(medications: seq<Medication>, medicationTimings: seq<MedicationTiming>, unitTypes: seq<UnitType>,
                       connectId: int, pillSlot: int, config: ConfigLoader.UploadConfig, nextMedicationId: int)
    requires Ascending(IdsOf(medications, MedicationId), nextMedicationId)
    ensures var r := AvailableViews(medications, medicationTimings, unitTypes, connectId, pillSlot, config);
      && (forall i :: 0 <= i < |r| ==>
            (r[i].connectId == connectId && HasTiming(medicationTimings, r[i].medicationId, pillSlot)
             && exists k :: 0 <= k < |medications| && medications[k].id == r[i].medicationId))
      && (forall k :: 0 <= k < |medications| ==>
            (medications[k].connectId == connectId && HasTiming(medicationTimings, medications[k].id, pillSlot)
             ==> exists i :: 0 <= i < |r| && r[i].medicationId == medications[k].id))
      && (forall i, j :: 0 <= i < j < |r| ==> r[i].medicationId < r[j].medicationId)
  {
    var ms := Available(medications, medicationTimings, connectId, pillSlot);
    var r := AvailableViews(medications, medicationTimings, unitTypes, connectId, pillSlot, config);
    assert |r| == |ms| && forall i :: 0 <= i < |r| ==> r[i].medicationId == ms[i].id && r[i].connectId == ms[i].connectId;
    AvailableRows(medications, medicationTimings, connectId, pillSlot, nextMedicationId);
  }

  lemma AvailableRows(medications: seq<Medication>, medicationTimings: seq<MedicationTiming>,
                      connectId: int, pillSlot: int, nextMedicationId: int)
    requires Ascending(IdsOf(medications, MedicationId), nextMedicationId)
    ensures var ms := Available(medications, medicationTimings, connectId, pillSlot);
      && (forall i :: 0 <= i < |ms| ==>
            (ms[i].connectId == connectId && HasTiming(medicationTimings, ms[i].id, pillSlot)
             && exists k :: 0 <= k < |medications| && medications[k].id == ms[i].id))
      && (forall k :: 0 <= k < |medications| ==>
            (medications[k].connectId == connectId && HasTiming(medicationTimings, medications[k].id, pillSlot)
             ==> exists i :: 0 <= i < |ms| && ms[i].id == medications[k].id))
      && Seqs.IncreasingBy(ms, MedicationId)
  {
    var test := AvailableTest(medicationTimings, connectId, pillSlot);
    var ms := Available(medications, medicationTimings, connectId, pillSlot);
    assert Seqs.IncreasingBy(medications, MedicationId) by {
      forall i, j | 0 <= i < j < |medications| ensures MedicationId(medications[i]) < MedicationId(medications[j]) {
        assert IdsOf(medications, MedicationId)[i] == MedicationId(medications[i]);
        assert IdsOf(medications, MedicationId)[j] == MedicationId(medications[j]);
      }
    }
    Seqs.FilterIncreasing(medications, test, MedicationId);
    Seqs.FilterAt(medications, test);
    forall i | 0 <= i < |ms| ensures exists k :: 0 <= k < |medications| && medications[k].id == ms[i].id {
      assert ms[i] in medications;
    }
    forall k | 0 <= k < |medications| && test(medications[k])
      ensures exists i :: 0 <= i < |ms| && ms[i].id == medications[k].id
    {
      assert medications[k] in ms;
    }
  }

  /**
   * The handler.  userId and connectId come from the token; appIdParam is the
   * query's app_id, Null when absent.  fault is a database error inside the
   * try block, caught and answered 400: BeforeEffect in a query up to the
   * day_app INSERT (the ownership lookup among them), AfterEffect in a later
   * one.  The handler runs no transaction, so a week inserted before an
   * AfterEffect fault stays.
   */
  method Detail(s: Store, userId: int, connectId: int, appIdParam: Value, config: ConfigLoader.UploadConfig, fault: Fault)
      returns (r: Reply<SlotDetail>)
    modifies s`dayApps
    ensures ToInt(appIdParam) <= 0 ==> r == Fail(Unprocessable) && s.dayApps == old(s.dayApps)
    ensures ToInt(appIdParam) > 0 && fault == BeforeEffect ==> r == Fail(BadRequest) && s.dayApps == old(s.dayApps)
    ensures ToInt(appIdParam) > 0 && fault != BeforeEffect && !AppOwned(s.apps, s.connects, ToInt(appIdParam), userId) ==>
      r == Fail(NotFound) && s.dayApps == old(s.dayApps)
    ensures ToInt(appIdParam) > 0 && AppOwned(s.apps, s.connects, ToInt(appIdParam), userId) ==>
      var appId := ToInt(appIdParam);
      var days := if appId in old(s.dayApps) then old(s.dayApps)[appId] else NoDays;
      && (fault == AfterEffect ==> r == Fail(BadRequest) && s.dayApps == old(s.dayApps)[appId := days])
      && (fault == NoFault ==> r.Ok? && r.data.days == days && s.dayApps == old(s.dayApps)[appId := days])
    ensures r.Ok? ==>
      var appId := ToInt(appIdParam);
      && appId > 0 && AppOwned(s.apps, s.connects, appId, userId) && fault == NoFault
      && var slot := s.apps[SlotIndex(s.apps, appId).value];
      && r.data.slot == slot
      && r.data.timingOptions == TimingOptions(s.timings, slot.pillSlot)
      && r.data.links == LinkViews(s.links, appId, s.medications, s.unitTypes, config)
      && r.data.available == AvailableViews(s.medications, s.medicationTimings, s.unitTypes, connectId, slot.pillSlot, config)
  {
    var appId := ToInt(appIdParam);
    if appId <= 0 {
      return Fail(Unprocessable);
    }
    if fault == BeforeEffect {
      return Fail(BadRequest);
    }
    if !AppOwned(s.apps, s.connects, appId, userId) {
      return Fail(NotFound);
    }
    var slot := s.apps[SlotIndex(s.apps, appId).value];
    var days := EnsureDays(s, appId);
    if fault == AfterEffect {
      return Fail(BadRequest);
    }
    var links := LinkViews(s.links, appId, s.medications, s.unitTypes, config);
    var available := AvailableViews(s.medications, s.medicationTimings, s.unitTypes, connectId, slot.pillSlot, config);
    r := Ok(SlotDetail(slot, TimingOptions(s.timings, slot.pillSlot), days, links, available));
  }

  /** The day_app row of the slot, inserted as all zeros when it is missing. */
  method EnsureDays(s: Store, appId: int) returns (days: DayFlags)
    modifies s`dayApps
    ensures days == if appId in old(s.dayApps) then old(s.dayApps)[appId] else NoDays
    ensures s.dayApps == old(s.dayApps)[appId := days]
  {
    if appId in s.dayApps {
      days := s.dayApps[appId];
    } else {
      days := NoDays;
      s.dayApps := s.dayApps[appId := NoDays];
    }
  }
}
