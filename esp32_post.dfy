/**
 * POST /esp32/record: the dispenser reports a dose as taken or missed.  The
 * handler stores one dose event, then one medication snapshot per medication
 * linked to the reported slot (or a placeholder when none is linked).  There
 * is no transaction: the snapshots are written after the event is stored.
 */
module Esp32Post {
  import opened Wrappers
  import opened Strings
  import opened Php
  import opened Tables
  import Seqs
  import Esp32Get

  // ---------------------------------------------------------------------------
  // Day names

  const EnglishDays: seq<string> := ["Sunday", "Monday", "Tuesday", "Wednesday", "Thursday", "Friday", "Saturday"]
  const ThaiDays: seq<string> :=
    ["วันอาทิตย์", "วันจันทร์", "วันอังคาร", "วันพุธ", "วันพฤหัสบดี", "วันศุกร์", "วันเสาร์"]

  /** The English weekday names differ pairwise in their first two letters. */
  lemma EnglishDaysDistinct()
    ensures forall i, j :: 0 <= i < j < 7 ==> EnglishDays[i] != EnglishDays[j]
  {
    forall i, j | 0 <= i < j < 7 ensures EnglishDays[i] != EnglishDays[j] {
      assert EnglishDays[i][0] != EnglishDays[j][0] || EnglishDays[i][1] != EnglishDays[j][1];
    }
  }

  /** The position of day among the English names, or 7 when it is none of them. */
  function DayIndex(day: string, k: nat): (r: nat)
    requires k <= 7
    decreases 7 - k
    ensures k <= r <= 7
    ensures r < 7 ==> EnglishDays[r] == day
    ensures r == 7 ==> forall j :: k <= j < 7 ==> EnglishDays[j] != day
  {
    if k == 7 then 7 else if EnglishDays[k] == day then k else DayIndex(day, k + 1)
  }

  /** convertDayToThai(): the Thai label of an English weekday name; any other text passes through. */
  function ConvertDayToThai(day: string): (r: string)
    ensures forall k :: 0 <= k < 7 && day == EnglishDays[k] ==> r == ThaiDays[k]
    ensures (forall k :: 0 <= k < 7 ==> day != EnglishDays[k]) ==> r == day
  {
    EnglishDaysDistinct();
    var k := DayIndex(day, 0);
    if k < 7 then ThaiDays[k] else day
  }

  /** Different weekdays get different labels, so the label identifies the day. */
  lemma ThaiDaysDistinct()
    ensures forall i, j :: 0 <= i < j < 7 ==> ThaiDays[i] != ThaiDays[j]
  {
    forall i, j | 0 <= i < j < 7 ensures ThaiDays[i] != ThaiDays[j] {
      assert ThaiDays[i][3] != ThaiDays[j][3] || ThaiDays[i][4] != ThaiDays[j][4];
    }
  }

  // ---------------------------------------------------------------------------
  // Amounts

  /** convertToFraction(): whole amounts of at least 1 as integers, 0.5 and 0.25 as fractions, anything else as a decimal. */
  function ConvertToFraction(d: real): (r: Fraction)
    ensures r.Whole? <==> d >= 1.0 && d == d.Floor as real
    ensures r.Whole? ==> r.n >= 1 && r.n as real == d
    ensures r.Half? <==> d == 0.5
    ensures r.Quarter? <==> d == 0.25
    ensures r.Decimal? ==> r.r == d
  {
    if d >= 1.0 then
      if d == d.Floor as real then Whole(d.Floor) else Decimal(d)
    else if d == 0.5 then Half
    else if d == 0.25 then Quarter
    else Decimal(d)
  }

  /** The quantity a fraction stands for. */
  function FractionValue(f: Fraction): real
  {
    match f
    case Whole(n) => n as real
    case Half => 0.5
    case Quarter => 0.25
    case Decimal(r) => r
  }

  /** Formatting an amount never changes its quantity. */
  lemma FractionKeepsValue(d: real)
    ensures FractionValue(ConvertToFraction(d)) == d
  {
  }

  // ---------------------------------------------------------------------------
  // Status, delay, picture

  /** A body field with a default: a missing key or a null value gives the default. */
  function Coalesce(v: Option<Value>, default: Value): Value
  {
    if v.Some? && v.value != Null then v.value else default
  }

  /** The dose counts as missed iff missed_dose is truthy or medication_taken is strictly false. */
  function DoseStatus(missedDose: Option<Value>, medicationTaken: Option<Value>): (r: string)
    ensures r == "missed" || r == "taken"
    ensures r == "missed" <==> Truthy(Coalesce(missedDose, Bool(false))) || medicationTaken == Some(Bool(false))
  {
    if Truthy(Coalesce(missedDose, Bool(false))) || (medicationTaken.Some? && medicationTaken.value != Null && medicationTaken.value == Bool(false))
    then "missed" else "taken"
  }

  /** max(0, round(seconds / 60)), rounding halves away from zero. */
  function DelayMinutes(seconds: int): (r: nat)
    ensures seconds <= 0 ==> r == 0
    ensures seconds > 0 ==> r * 60 - 30 <= seconds < r * 60 + 30
  {
    if seconds <= 0 then 0 else (seconds + 30) / 60
  }

  function Abs(x: int): nat { if x < 0 then -x else x }

  /** Every positive delay is the nearest whole number of minutes: no other count is closer. */
  lemma DelayMinutesNearest(seconds: int, k: nat)
    requires seconds > 0
    ensures Abs(DelayMinutes(seconds) * 60 - seconds) <= Abs(k * 60 - seconds)
  {
    var r := DelayMinutes(seconds);
    if k < r {
      assert k * 60 <= r * 60 - 60;
    } else if k > r {
      assert k * 60 >= r * 60 + 60;
    }
  }

  /** What base64_decode() and file_put_contents() did; the handler only sees the outcome. */
  datatype ImageWrite = ImageWrite(decodes: bool, written: bool)

  /**
   * saveImage(): the stored file's name, or None.  A falsy custom name is
   * replaced by pill_slot{n}_{timestamp}.jpg; a custom name is used as given.
   */
  function SaveImage(imageData: string, slot: int, filename: Option<string>, stamp: string, io: ImageWrite): (r: Option<string>)
    ensures EmptyString(imageData) || !io.decodes || !io.written ==> r.None?
    ensures r.Some? ==> !EmptyString(r.value)
    ensures r.Some? && filename.Some? && !EmptyString(filename.value) ==> r.value == filename.value
    ensures r.Some? && (filename.None? || EmptyString(filename.value)) ==>
      r.value == "pill_slot" + IntToString(slot) + "_" + stamp + ".jpg"
  {
    if EmptyString(imageData) || !io.decodes then None
    else
      var name := if filename.Some? && !EmptyString(filename.value) then filename.value
                  else "pill_slot" + IntToString(slot) + "_" + stamp + ".jpg";
      if io.written then Some(name) else None
  }

  // ---------------------------------------------------------------------------
  // Snapshots

  /** A row of getMedicationsByAppId(): the LEFT JOINs leave the name or the unit null when missing. */
  datatype LinkedMedication = LinkedMedication(name: Option<string>, unit: Option<string>, amount: real)

  function LinkTest(appId: int): Link -> bool
  {
    (l: Link) => l.appId == appId
  }

  function LinkedOf(l: Link, medications: seq<Medication>, unitTypes: seq<UnitType>): (r: LinkedMedication)
    ensures r.amount == l.amount
    ensures r.name.None? <==> MedicationById(medications, l.medicationId).None?
    ensures r.name.Some? ==> r.name.value == MedicationById(medications, l.medicationId).value.name
  {
    match MedicationById(medications, l.medicationId)
    case None => LinkedMedication(None, None, l.amount)
    case Some(m) => LinkedMedication(Some(m.name), UnitName(unitTypes, m.unitTypeId), l.amount)
  }

  /** SELECT ... FROM medication_link ml LEFT JOIN medication m LEFT JOIN unit_type ut WHERE ml.app_id = ?. */
  function MedicationsByAppId(links: seq<Link>, medications: seq<Medication>, unitTypes: seq<UnitType>, appId: int): seq<LinkedMedication>
  {
    var own := Seqs.Filter(links, LinkTest(appId));
    seq(|own|, i requires 0 <= i < |own| => LinkedOf(own[i], medications, unitTypes))
  }

  /** The snapshot of one linked medication: falsy names and amounts take their defaults. */
  function SnapshotOf(eventId: int, m: LinkedMedication): (r: Snapshot)
    ensures r.eventId == eventId
    ensures m.name.None? || EmptyString(m.name.value) ==> r.name == "Unknown Medicine"
    ensures m.name.Some? && !EmptyString(m.name.value) ==> r.name == m.name.value
    ensures FractionValue(r.amount.f) == if m.amount == 0.0 then 1.0 else m.amount
    ensures r.amount.WithUnit? <==> m.unit.Some? && !EmptyString(m.unit.value)
    ensures r.amount.WithUnit? ==> r.amount.unit == m.unit.value
  {
    var name := if m.name.Some? && !EmptyString(m.name.value) then m.name.value else "Unknown Medicine";
    var fraction := ConvertToFraction(if m.amount == 0.0 then 1.0 else m.amount);
    var amount := if m.unit.Some? && !EmptyString(m.unit.value) then WithUnit(fraction, m.unit.value) else Plain(fraction);
    Snapshot(eventId, name, amount)
  }

  /** The placeholder recorded when the slot links no medication. */
  function Placeholder(eventId: int, slot: int): Snapshot
  {
    Snapshot(eventId, "Slot " + IntToString(slot) + " Medicine", Plain(Whole(1)))
  }

  /** createMedicationSnapshots(): one snapshot per linked medication, in query order, or the placeholder. */
  function Snapshots(eventId: int, meds: seq<LinkedMedication>, slot: int): (r: seq<Snapshot>)
    ensures |meds| == 0 ==> r == [Placeholder(eventId, slot)]
    ensures |meds| > 0 ==> |r| == |meds| && forall i :: 0 <= i < |meds| ==> r[i] == SnapshotOf(eventId, meds[i])
    ensures |r| >= 1 && forall i :: 0 <= i < |r| ==> r[i].eventId == eventId
  {
    if |meds| == 0 then [Placeholder(eventId, slot)]
    else seq(|meds|, i requires 0 <= i < |meds| => SnapshotOf(eventId, meds[i]))
  }

  /** Each snapshot of a slot with links names the linked medication, or 'Unknown Medicine' when it is gone. */
  lemma SnapshotsFollowLinks(links: seq<Link>, medications: seq<Medication>, unitTypes: seq<UnitType>,
                             appId: int, slot: int, eventId: int)
    ensures var meds := MedicationsByAppId(links, medications, unitTypes, appId);
            var own := Seqs.Filter(links, LinkTest(appId));
            && |meds| == |own|
            && (|own| > 0 ==> forall i :: 0 <= i < |own| ==>
                  && own[i] in links && own[i].appId == appId
                  && Snapshots(eventId, meds, slot)[i].name ==
                       match MedicationById(medications, own[i].medicationId)
                       case None => "Unknown Medicine"
                       case Some(m) => if EmptyString(m.name) then "Unknown Medicine" else m.name)
    ensures (forall i :: 0 <= i < |links| ==> links[i].appId != appId) ==>
      Snapshots(eventId, MedicationsByAppId(links, medications, unitTypes, appId), slot) == [Placeholder(eventId, slot)]
  {
    var own := Seqs.Filter(links, LinkTest(appId));
    Seqs.FilterAt(links, LinkTest(appId));
    Seqs.CountPositive(links, LinkTest(appId));
  }

  // ---------------------------------------------------------------------------
  // The handler

  /** The JSON body's fields; receive_time and actual_time arrive already read as timestamps. */
  datatype PostRequest = PostRequest(
    machineSn: Option<string>, appId: Option<Value>, slotNumber: Option<Value>, timing: Option<Value>,
    missedDose: Option<Value>, medicationTaken: Option<Value>,
    receiveTime: Option<int>, actualTime: Option<int>, day: Option<string>,
    saveImage: Option<Value>, imageData: Option<string>, imageFilename: Option<string>)

  /** The clock: now, today's midnight, date('l') and date('YmdHis'). */
  datatype Clock = Clock(now: int, midnight: int, weekday: string, stamp: string)

  datatype Recorded = Recorded(
    eventId: int, connectId: int, slotNumber: int, timing: Value, day: string, status: string,
    picture: Option<string>, imageUrl: Option<string>, delayMinutes: nat, missed: bool, snapshots: seq<Snapshot>)

  function AppIdOf(req: PostRequest): int { ToInt(Coalesce(req.appId, Int(0))) }
  function SlotOf(req: PostRequest): int { ToInt(Coalesce(req.slotNumber, Int(0))) }
  function TimingOf(req: PostRequest): Value { Coalesce(req.timing, Str("00:00:00")) }

  /** The required parameters: a non-empty serial, app_id > 0 and a slot number in 1..7. */
  predicate ParamsOk(req: PostRequest)
  {
    req.machineSn.Some? && !EmptyString(req.machineSn.value) && AppIdOf(req) > 0 && 1 <= SlotOf(req) <= 7
  }

  /** SELECT c.connect_id ... FROM connect c JOIN machinesn m ... WHERE m.machine_SN = ?. */
  function ConnectionBySerial(machines: seq<Machine>, connects: seq<Connection>, serial: string): (r: Option<Connection>)
    ensures r.None? <==>
      forall i :: 0 <= i < |connects| ==> forall j :: 0 <= j < |machines| ==>
        machines[j].id != connects[i].machineId || machines[j].serial != serial
    ensures r.Some? ==> r.value in connects && exists j :: 0 <= j < |machines| && machines[j].id == r.value.machineId && machines[j].serial == serial
  {
    Seqs.FindFirst(connects, (c: Connection) => exists j :: 0 <= j < |machines| && machines[j].id == c.machineId && machines[j].serial == serial)
  }

  /** The scheduled time: receive_time when given, else today at the given timing. */
  function ScheduledOf(req: PostRequest, clock: Clock): int
  {
    if req.receiveTime.Some? then req.receiveTime.value else clock.midnight + Esp32Get.TimeToSeconds(TimingOf(req))
  }

  function ActualOf(req: PostRequest, clock: Clock): int
  {
    if req.actualTime.Some? then req.actualTime.value else clock.now
  }

  function DayOf(req: PostRequest, clock: Clock): string
  {
    ConvertDayToThai(if req.day.Some? && !EmptyString(req.day.value) then req.day.value else clock.weekday)
  }

  /** The picture is attempted only for a dose not flagged missed_dose, with save_image === true and image data. */
  predicate WantsImage(req: PostRequest)
  {
    && !Truthy(Coalesce(req.missedDose, Bool(false)))
    && req.saveImage == Some(Bool(true))
    && req.imageData.Some? && !EmptyString(req.imageData.value)
  }

  function PictureOf(req: PostRequest, clock: Clock, io: ImageWrite): (r: Option<string>)
    ensures !WantsImage(req) ==> r.None?
  {
    if WantsImage(req) then SaveImage(req.imageData.value, SlotOf(req), req.imageFilename, clock.stamp, io) else None
  }

  /** The reminder_medication row of a valid request; timing_id is the slot number. */
  function EventOf(req: PostRequest, id: int, connectId: int, clock: Clock, io: ImageWrite): (r: DoseEvent)
    ensures r.id == id && r.connectId == connectId && r.timingId == SlotOf(req)
    ensures r.status == DoseStatus(req.missedDose, req.medicationTaken)
    ensures r.scheduledTime == ScheduledOf(req, clock) && r.actualTime == ActualOf(req, clock)
    ensures r.day == DayOf(req, clock) && r.picture == PictureOf(req, clock, io)
  {
    DoseEvent(id, connectId, DayOf(req, clock), ActualOf(req, clock), ScheduledOf(req, clock),
              DoseStatus(req.missedDose, req.medicationTaken), SlotOf(req), PictureOf(req, clock, io))
  }

  /** The success data: the stored event with its picture URL, the rounded delay and the snapshots. */
  function Response(req: PostRequest, event: DoseEvent, snapshots: seq<Snapshot>): (r: Recorded)
    ensures r.eventId == event.id && r.connectId == event.connectId && r.slotNumber == SlotOf(req)
    ensures r.day == event.day && r.status == event.status && r.picture == event.picture
    ensures r.imageUrl.Some? <==> event.picture.Some? && !EmptyString(event.picture.value)
    ensures r.imageUrl.Some? ==> r.imageUrl.value == "/pill-reminder/pictures/" + event.picture.value
    ensures r.delayMinutes == DelayMinutes(event.actualTime - event.scheduledTime)
    ensures r.missed == Truthy(Coalesce(req.missedDose, Bool(false))) && r.snapshots == snapshots
  {
    var url := if event.picture.Some? && !EmptyString(event.picture.value) then Some("/pill-reminder/pictures/" + event.picture.value) else None;
    Recorded(event.id, event.connectId, SlotOf(req), TimingOf(req), event.day, event.status, event.picture, url,
             DelayMinutes(event.actualTime - event.scheduledTime), Truthy(Coalesce(req.missedDose, Bool(false))), snapshots)
  }

  /**
   * The handler.  body is None when there is no input or it decodes to a
   * falsy value; every failure answers 400.  insertFault stands for an error
   * in the connection lookup or the event INSERT, both of which leave the
   * store as it was; snapshotFault, when it is Some(k), for one in the
   * k-th snapshot INSERT (k = 0 also covers the query of the linked
   * medications), after the event is stored.
   */
  method Record(s: Store, body: Option<PostRequest>, clock: Clock, io: ImageWrite, insertFault: bool, snapshotFault: Option<nat>)
    returns (r: Reply<Recorded>)
    requires s.Valid()
    modifies s`events, s`nextEventId, s`snapshots
    ensures s.Valid()
    ensures r.Fail? ==> r.code == BadRequest
    ensures body.None? || !ParamsOk(body.value) ==> r == Fail(BadRequest) && unchanged(s)
    ensures body.Some? && ParamsOk(body.value) ==>
      match ConnectionBySerial(old(s.machines), old(s.connects), body.value.machineSn.value)
      case None => r == Fail(BadRequest) && unchanged(s)
      case Some(c) =>
        if insertFault then r == Fail(BadRequest) && unchanged(s)
        else Logged(s, old(s.events), old(s.snapshots), old(s.nextEventId), body.value, c.id, clock, io, snapshotFault, r)
  {
    if body.None? || !ParamsOk(body.value) {
      return Fail(BadRequest);
    }
    var connection := ConnectionBySerial(s.machines, s.connects, body.value.machineSn.value);
    if connection.None? {
      return Fail(BadRequest);
    }
    if insertFault {
      return Fail(BadRequest);
    }
    r := Log(s, body.value, connection.value.id, clock, io, snapshotFault);
  }

  /**
   * How many snapshot INSERTs of n complete: all of them, unless the fault
   * strikes one of them.
   */
  function Stored(snapshotFault: Option<nat>, n: nat): (k: nat)
    ensures k <= n
    ensures k < n <==> snapshotFault.Some? && snapshotFault.value < n
    ensures k < n ==> k == snapshotFault.value
  {
    if snapshotFault.Some? && snapshotFault.value < n then snapshotFault.value else n
  }

  /**
   * The state after a valid request of a known machine: the event appended
   * with the next id and the snapshots that were written before any fault,
   * each committed on its own since the handler runs no transaction; the
   * answer is the record only when every snapshot was written.
   */
  ghost predicate Logged(s: Store, events: seq<DoseEvent>, snapshots: seq<Snapshot>, id: int, req: PostRequest,
                         connectId: int, clock: Clock, io: ImageWrite, snapshotFault: Option<nat>, r: Reply<Recorded>)
    reads s
  {
    var event := EventOf(req, id, connectId, clock, io);
    var added := Snapshots(id, MedicationsByAppId(s.links, s.medications, s.unitTypes, AppIdOf(req)), SlotOf(req));
    var stored := Stored(snapshotFault, |added|);
    && s.events == events + [event]
    && s.nextEventId == id + 1
    && s.snapshots == snapshots + added[..stored]
    && (stored < |added| ==> r == Fail(BadRequest))
    && (stored == |added| ==> r == Ok(Response(req, event, added)))
  }

  /** The INSERT of the event, then the snapshots of the medications linked to app_id. */
  method Log(s: Store, req: PostRequest, connectId: int, clock: Clock, io: ImageWrite, snapshotFault: Option<nat>)
    returns (r: Reply<Recorded>)
    requires s.Valid()
    modifies s`events, s`nextEventId, s`snapshots
    ensures s.Valid()
    ensures Logged(s, old(s.events), old(s.snapshots), old(s.nextEventId), req, connectId, clock, io, snapshotFault, r)
  {
    var id := s.nextEventId;
    var event := EventOf(req, id, connectId, clock, io);
    AddEvent(s, event);
    var added := Snapshots(id, MedicationsByAppId(s.links, s.medications, s.unitTypes, AppIdOf(req)), SlotOf(req));
    var stored := Stored(snapshotFault, |added|);
    AddSnapshots(s, added[..stored]);
    if stored < |added| {
      return Fail(BadRequest);
    }
    assert added[..stored] == added;
    r := Ok(Response(req, event, added));
  }

  /** INSERT INTO reminder_medication: the row takes the next AUTO_INCREMENT id. */
  method AddEvent(s: Store, event: DoseEvent)
    requires s.Valid() && event.id == s.nextEventId
    modifies s`events, s`nextEventId
    ensures s.Valid()
    ensures s.nextEventId == old(s.nextEventId) + 1
    ensures s.events == old(s.events) + [event]
  {
    var id := s.nextEventId;
    IdsOfAppend(s.events, [event], EventId);
    AscendingAppend(IdsOf(s.events, EventId), [id], id, id + 1);
    s.events := s.events + [event];
    s.nextEventId := id + 1;
  }

  /** The INSERT INTO medication_snapshot of each snapshot in turn. */
  method AddSnapshots(s: Store, added: seq<Snapshot>)
    modifies s`snapshots
    ensures s.snapshots == old(s.snapshots) + added
  {
    var i := 0;
    while i < |added|
      invariant 0 <= i <= |added|
      invariant s.snapshots == old(s.snapshots) + added[..i]
    {
      s.snapshots := s.snapshots + [added[i]];
      i := i + 1;
    }
    assert added[..i] == added;
  }

  /** Every stored event of a valid request has a picture only when the image was wanted, and its URL then names the file. */
  lemma PictureNeedsRequest(req: PostRequest, id: int, connectId: int, clock: Clock, io: ImageWrite, added: seq<Snapshot>)
    ensures var event := EventOf(req, id, connectId, clock, io);
            var r := Response(req, event, added);
            r.imageUrl.Some? <==> WantsImage(req) && event.picture.Some?
  {
  }

  /** A dose reported with missed_dose never stores a picture, whatever the image fields say. */
  lemma MissedDoseHasNoPicture(req: PostRequest, id: int, connectId: int, clock: Clock, io: ImageWrite)
    requires Truthy(Coalesce(req.missedDose, Bool(false)))
    ensures EventOf(req, id, connectId, clock, io).picture.None?
    ensures EventOf(req, id, connectId, clock, io).status == "missed"
  {
  }

  /** medication_taken === false marks the dose missed but does not stop the picture being stored. */
  lemma NotTakenMayKeepPicture(req: PostRequest, id: int, connectId: int, clock: Clock, io: ImageWrite)
    requires !Truthy(Coalesce(req.missedDose, Bool(false))) && req.medicationTaken == Some(Bool(false))
    requires req.saveImage == Some(Bool(true)) && req.imageData.Some? && !EmptyString(req.imageData.value)
    requires io.decodes && io.written
    ensures EventOf(req, id, connectId, clock, io).status == "missed"
    ensures EventOf(req, id, connectId, clock, io).picture.Some?
  {
  }
}
