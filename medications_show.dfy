/**
 * GET /medications/{id}: one medication of the user with its display name,
 * its timings (each timing once) and, per timing, the user's active slots
 * at that pill slot that dispense it.
 */
module MedicationsShow {
  import opened Wrappers
  import opened Strings
  import opened Php
  import opened Tables
  import Seqs
  import ConfigLoader
  import Uploads
  import MedicationCreate
  import HistorySummary

  /** The name shown: the nickname unless it is empty() or '-', otherwise the name. */
  function ShownName(nickname: string, name: string): (r: string)
    ensures r == nickname || r == name
    ensures r == nickname <==> (!EmptyString(nickname) && nickname != "-") || nickname == name
  {
    if !EmptyString(nickname) && nickname != "-" then nickname else name
  }

  /** On a nickname stored by the create handler (never empty), the rule agrees with the one used there. */
  lemma ShownNameAgreesWithCreate(nickname: string, name: string)
    requires !EmptyString(nickname)
    ensures ShownName(nickname, name) == MedicationCreate.DisplayName(nickname, name)
  {
  }

  /** A timing of the medication: medication_timing joined with timing. */
  datatype TimingEntry = TimingEntry(timingId: int, timingName: string)

  function EntryTimingId(e: TimingEntry): int { e.timingId }

  function ForMedication(medicationId: int): MedicationTiming -> bool
  {
    (mt: MedicationTiming) => mt.medicationId == medicationId
  }

  function JoinsTiming(timings: seq<Timing>): MedicationTiming -> bool
  {
    (mt: MedicationTiming) => HistorySummary.TimingById(timings, mt.timingId).Some?
  }

  function ByTimingId(mt: MedicationTiming): (int, int) { (-mt.timingId, 0) }

  function EntryOf(mt: MedicationTiming, timings: seq<Timing>): TimingEntry
  {
    TimingEntry(mt.timingId, match HistorySummary.TimingById(timings, mt.timingId) case Some(t) => t.name case None => "")
  }

  /** SELECT mt.timing_id, t.timing FROM medication_timing mt JOIN timing t ... WHERE mt.medication_id = ? ORDER BY mt.timing_id. */
  function RawTimings(medicationTimings: seq<MedicationTiming>, timings: seq<Timing>, medicationId: int): seq<TimingEntry>
  {
    var rows := Seqs.SortDesc(Seqs.Filter(Seqs.Filter(medicationTimings, ForMedication(medicationId)), JoinsTiming(timings)), ByTimingId);
    seq(|rows|, i requires 0 <= i < |rows| => EntryOf(rows[i], timings))
  }

  /** The raw rows come in ascending timing_id order. */
  lemma RawTimingsAscending(medicationTimings: seq<MedicationTiming>, timings: seq<Timing>, medicationId: int)
    ensures var raw := RawTimings(medicationTimings, timings, medicationId);
      forall i, j :: 0 <= i < j < |raw| ==> raw[i].timingId <= raw[j].timingId
  {
    var rows := Seqs.SortDesc(Seqs.Filter(Seqs.Filter(medicationTimings, ForMedication(medicationId)), JoinsTiming(timings)), ByTimingId);
    forall i, j | 0 <= i < j < |rows| ensures rows[i].timingId <= rows[j].timingId {
      assert Seqs.KeyGe(ByTimingId(rows[i]), ByTimingId(rows[j]));
    }
  }

  /** e is the first entry of raw with its timing_id. */
  predicate FirstOccurrence(raw: seq<TimingEntry>, e: TimingEntry)
  {
    exists j :: 0 <= j < |raw| && raw[j] == e && forall k :: 0 <= k < j ==> raw[k].timingId != e.timingId
  }

  /** The entries the dedup loop keeps: each timing_id once, in query order. */
  function KeepFirst(raw: seq<TimingEntry>): (r: seq<TimingEntry>)
    ensures Seqs.Distinct(IdsOf(r, EntryTimingId))
    ensures forall id :: id in IdsOf(r, EntryTimingId) <==> id in IdsOf(raw, EntryTimingId)
    decreases |raw|
  {
    if |raw| == 0 then []
    else
      var init := raw[..|raw| - 1];
      var last := raw[|raw| - 1];
      var kept := KeepFirst(init);
      assert raw == init + [last];
      IdsOfAppend(init, [last], EntryTimingId);
      IdsOfAppend(kept, [last], EntryTimingId);
      if last.timingId in IdsOf(kept, EntryTimingId) then kept else kept + [last]
  }

  /** Appending a row keeps every earlier first occurrence a first occurrence. */
  lemma FirstOccurrenceExtend(init: seq<TimingEntry>, last: TimingEntry, e: TimingEntry)
    requires FirstOccurrence(init, e)
    ensures FirstOccurrence(init + [last], e)
  {
    var j :| 0 <= j < |init| && init[j] == e && forall k :: 0 <= k < j ==> init[k].timingId != e.timingId;
    assert (init + [last])[j] == e;
  }

  /** A row whose timing_id is new is its own first occurrence. */
  lemma FirstOccurrenceLast(init: seq<TimingEntry>, last: TimingEntry)
    requires last.timingId !in IdsOf(init, EntryTimingId)
    ensures FirstOccurrence(init + [last], last)
  {
    var raw := init + [last];
    forall k | 0 <= k < |init| ensures raw[k].timingId != last.timingId {
      assert IdsOf(init, EntryTimingId)[k] == init[k].timingId;
    }
    assert raw[|init|] == last;
  }

  /** Every kept entry is the first raw entry with its timing_id. */
  lemma {:induction false} KeepFirstIsFirst(raw: seq<TimingEntry>)
    ensures forall i :: 0 <= i < |KeepFirst(raw)| ==> FirstOccurrence(raw, KeepFirst(raw)[i])
    decreases |raw|
  {
    if |raw| > 0 {
      var init := raw[..|raw| - 1];
      var last := raw[|raw| - 1];
      var kept := KeepFirst(init);
      assert raw == init + [last];
      KeepFirstIsFirst(init);
      forall i | 0 <= i < |kept| ensures FirstOccurrence(raw, kept[i]) {
        FirstOccurrenceExtend(init, last, kept[i]);
      }
      if last.timingId !in IdsOf(kept, EntryTimingId) {
        FirstOccurrenceLast(init, last);
      }
    }
  }

  /** The de-duplicating foreach: keeps an entry only when its timing_id was not seen before. */
  method DedupTimings(raw: seq<TimingEntry>) returns (kept: seq<TimingEntry>)
    ensures kept == KeepFirst(raw)
  {
    kept := [];
    var seen: seq<int> := [];
    var i := 0;
    while i < |raw|
      invariant 0 <= i <= |raw|
      invariant kept == KeepFirst(raw[..i])
      invariant seen == IdsOf(kept, EntryTimingId)
    {
      assert raw[..i + 1][..i] == raw[..i];
      IdsOfAppend(kept, [raw[i]], EntryTimingId);
      if raw[i].timingId !in seen {
        kept := kept + [raw[i]];
        seen := seen + [raw[i].timingId];
      }
      i := i + 1;
    }
    assert raw[..i] == raw;
  }

  /** A slot counted for a timing: the user's active slot at that pill slot that links the medication. */
  predicate UsesTiming(connects: seq<Connection>, links: seq<Link>, userId: int, medicationId: int, timingId: int, a: Slot)
  {
    && ConnectionOf(connects, a.connectId, userId)
    && a.pillSlot == timingId && a.status == 1
    && exists k :: 0 <= k < |links| && links[k].appId == a.id && links[k].medicationId == medicationId
  }

  function UsageTest(connects: seq<Connection>, links: seq<Link>, userId: int, medicationId: int, timingId: int): Slot -> bool
  {
    (a: Slot) => UsesTiming(connects, links, userId, medicationId, timingId, a)
  }

  /** A row of the usage query: only the app_id, timing and status columns are selected. */
  datatype ActiveApp = ActiveApp(appId: int, timing: string, status: int)

  function ActiveOf(a: Slot): ActiveApp { ActiveApp(a.id, a.timing, a.status) }

  function ActiveAppId(x: ActiveApp): int { x.appId }

  /** The selected columns of each row, in the rows' order. */
  function Actives(rows: seq<Slot>): (r: seq<ActiveApp>)
    ensures |r| == |rows| && IdsOf(r, ActiveAppId) == IdsOf(rows, SlotId)
    ensures forall a :: a in rows ==> ActiveOf(a) in r
    ensures forall x :: x in r ==> exists a :: a in rows && ActiveOf(a) == x
  {
    var r := seq(|rows|, i requires 0 <= i < |rows| => ActiveOf(rows[i]));
    forall a | a in rows ensures ActiveOf(a) in r {
      var k :| 0 <= k < |rows| && rows[k] == a;
      assert r[k] == ActiveOf(a);
    }
    forall x | x in r ensures exists a :: a in rows && ActiveOf(a) == x {
      var k :| 0 <= k < |r| && r[k] == x;
      assert rows[k] in rows;
    }
    r
  }

  /** One entry of timing_usage. */
  datatype Usage = Usage(timingId: int, timingName: string, isUsed: bool, appCount: nat, apps: seq<ActiveApp>)

  /** The usage of one timing: the matching slots in app order, and whether there are any. */
  function UsageOf(apps: seq<Slot>, connects: seq<Connection>, links: seq<Link>, userId: int, medicationId: int, t: TimingEntry): (r: Usage)
    ensures r.timingId == t.timingId && r.timingName == t.timingName
    ensures r.appCount == |r.apps| && (r.isUsed <==> r.appCount > 0)
    ensures forall a :: a in apps && UsesTiming(connects, links, userId, medicationId, t.timingId, a) ==> ActiveOf(a) in r.apps
    ensures forall x :: x in r.apps ==> exists a :: a in apps && UsesTiming(connects, links, userId, medicationId, t.timingId, a) && ActiveOf(a) == x
    ensures r.isUsed <==> exists i :: 0 <= i < |apps| && UsesTiming(connects, links, userId, medicationId, t.timingId, apps[i])
    ensures IdsOf(r.apps, ActiveAppId) == IdsOf(Seqs.Filter(apps, UsageTest(connects, links, userId, medicationId, t.timingId)), SlotId)
  {
    var used := Seqs.Filter(apps, UsageTest(connects, links, userId, medicationId, t.timingId));
    Seqs.CountPositive(apps, UsageTest(connects, links, userId, medicationId, t.timingId));
    Usage(t.timingId, t.timingName, |used| > 0, |used|, Actives(used))
  }

  /** With the store's slots in ascending id order, a usage list is in ascending app id order, as ORDER BY a.app_id asks. */
  lemma UsageInAppIdOrder(apps: seq<Slot>, connects: seq<Connection>, links: seq<Link>, userId: int, medicationId: int,
                          t: TimingEntry, next: int)
    requires Ascending(IdsOf(apps, SlotId), next)
    ensures Ascending(IdsOf(UsageOf(apps, connects, links, userId, medicationId, t).apps, ActiveAppId), next)
  {
    AscendingFilter(apps, UsageTest(connects, links, userId, medicationId, t.timingId), SlotId, next);
  }

  /** The map timing_usage: one entry per kept timing, keyed by its timing_id. */
  ghost predicate UsageMap(usage: map<int, Usage>, kept: seq<TimingEntry>, apps: seq<Slot>, connects: seq<Connection>,
                           links: seq<Link>, userId: int, medicationId: int)
  {
    && (forall id :: id in usage <==> id in IdsOf(kept, EntryTimingId))
    && forall i :: 0 <= i < |kept| ==> usage[kept[i].timingId] == UsageOf(apps, connects, links, userId, medicationId, kept[i])
  }

  /** In a list with distinct timing ids, an entry's id differs from every earlier entry's. */
  lemma DistinctBefore(kept: seq<TimingEntry>, i: nat)
    requires Seqs.Distinct(IdsOf(kept, EntryTimingId)) && i < |kept|
    ensures kept[i].timingId !in IdsOf(kept[..i], EntryTimingId)
  {
    var ids := IdsOf(kept, EntryTimingId);
    forall j | 0 <= j < i ensures IdsOf(kept[..i], EntryTimingId)[j] != kept[i].timingId {
      assert ids[j] == kept[j].timingId && ids[i] == kept[i].timingId;
    }
  }

  /** The foreach that counts the usage of each timing. */
  method BuildUsage(apps: seq<Slot>, connects: seq<Connection>, links: seq<Link>, userId: int, medicationId: int,
                    kept: seq<TimingEntry>) returns (usage: map<int, Usage>)
    requires Seqs.Distinct(IdsOf(kept, EntryTimingId))
    ensures UsageMap(usage, kept, apps, connects, links, userId, medicationId)
  {
    usage := map[];
    var i := 0;
    while i < |kept|
      invariant 0 <= i <= |kept|
      invariant forall id :: id in usage <==> id in IdsOf(kept[..i], EntryTimingId)
      invariant forall j :: 0 <= j < i ==> usage[kept[j].timingId] == UsageOf(apps, connects, links, userId, medicationId, kept[j])
    {
      var t := kept[i];
      IdsOfAppend(kept[..i], [t], EntryTimingId);
      assert kept[..i + 1] == kept[..i] + [t];
      DistinctBefore(kept, i);
      usage := usage[t.timingId := UsageOf(apps, connects, links, userId, medicationId, t)];
      i := i + 1;
    }
    assert kept[..i] == kept;
  }

  /** The medication object of the response. */
  datatype Detail = Detail(
    id: int, connectId: int, name: string, nickname: string, description: string, picture: Option<string>,
    dosageFormId: int, unitTypeId: int, dosageForm: string, unitType: Option<string>,
    pictureUrl: Option<string>, displayName: string)

  datatype ShowData = ShowData(medication: Detail, timings: seq<TimingEntry>, usage: map<int, Usage>)

  function DosageFormById(dosageForms: seq<DosageForm>, id: int): (r: Option<DosageForm>)
    ensures r.None? <==> forall i :: 0 <= i < |dosageForms| ==> dosageForms[i].id != id
    ensures r.Some? ==> r.value in dosageForms && r.value.id == id
  {
    Seqs.FindFirst(dosageForms, (f: DosageForm) => f.id == id)
  }

  /** The detail row: JOIN dosage_form (required) and LEFT JOIN unit_type (may be null). */
  function DetailOf(m: Medication, form: DosageForm, unitTypes: seq<UnitType>, config: ConfigLoader.UploadConfig): (r: Detail)
    ensures r.id == m.id && r.name == m.name && r.nickname == m.nickname && r.dosageForm == form.name
    ensures r.unitType == UnitName(unitTypes, m.unitTypeId)
    ensures r.pictureUrl == Uploads.ImageUrl(config, m.picture)
    ensures r.displayName == ShownName(m.nickname, m.name)
  {
    Detail(m.id, m.connectId, m.name, m.nickname, m.description, m.picture, m.dosageFormId, m.unitTypeId,
           form.name, UnitName(unitTypes, m.unitTypeId), Uploads.ImageUrl(config, m.picture), ShownName(m.nickname, m.name))
  }

  /**
   * The handler.  medicationId is the medication_id query parameter as text; intval()
   * of it must be positive (422), and the medication must be the user's and
   * have an existing dosage form (404).
   */
  method Show(s: Store, userId: int, medicationId: Option<string>, config: ConfigLoader.UploadConfig) returns (r: Reply<ShowData>)
    requires s.Valid()
    ensures var id := if medicationId.Some? then IntVal(medicationId.value) else 0;
      && (id <= 0 ==> r == Fail(Unprocessable))
      && (id > 0 && OwnedMedication(s.medications, s.connects, id, userId).None? ==> r == Fail(NotFound))
      && (id > 0 && OwnedMedication(s.medications, s.connects, id, userId).Some? ==>
            var m := OwnedMedication(s.medications, s.connects, id, userId).value;
            match DosageFormById(s.dosageForms, m.dosageFormId)
            case None => r == Fail(NotFound)
            case Some(form) =>
              var kept := KeepFirst(RawTimings(s.medicationTimings, s.timings, id));
              && r.Ok?
              && r.data.medication == DetailOf(m, form, s.unitTypes, config)
              && r.data.timings == kept
              && UsageMap(r.data.usage, kept, s.apps, s.connects, s.links, userId, id))
    ensures r.Ok? ==> forall i :: 0 <= i < |r.data.timings| ==>
      r.data.timings[i].timingId in r.data.usage &&
      Ascending(IdsOf(r.data.usage[r.data.timings[i].timingId].apps, ActiveAppId), s.nextAppId)
  {
    var id := if medicationId.Some? then IntVal(medicationId.value) else 0;
    if id <= 0 {
      return Fail(Unprocessable);
    }
    var owned := OwnedMedication(s.medications, s.connects, id, userId);
    if owned.None? {
      return Fail(NotFound);
    }
    var m := owned.value;
    var form := DosageFormById(s.dosageForms, m.dosageFormId);
    if form.None? {
      return Fail(NotFound);
    }
    var kept := DedupTimings(RawTimings(s.medicationTimings, s.timings, id));
    var usage := BuildUsage(s.apps, s.connects, s.links, userId, id, kept);
    forall i | 0 <= i < |kept| ensures Ascending(IdsOf(usage[kept[i].timingId].apps, ActiveAppId), s.nextAppId) {
      UsageInAppIdOrder(s.apps, s.connects, s.links, userId, id, kept[i], s.nextAppId);
    }
    r := Ok(ShowData(DetailOf(m, form.value, s.unitTypes, config), kept, usage));
  }
}
