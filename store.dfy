/**
 * The database the endpoints share.  Each table is a field of one Store
 * object; tables the code reads in id order are sequences kept in ascending
 * id order (AUTO_INCREMENT), tables it only reads by key are maps.
 */
module Tables {
  import opened Wrappers
  import Seqs

  /** The seven day columns of day_app, Sunday first. */
  type DayFlags = f: seq<bool> | |f| == 7 witness [false, false, false, false, false, false, false]

  const NoDays: DayFlags := [false, false, false, false, false, false, false]

  predicate AnyDay(f: DayFlags)
  {
    exists k :: 0 <= k < 7 && f[k]
  }

  /** machinesn: a dispenser known to the system by its serial. */
  datatype Machine = Machine(id: int, serial: string)

  /** connect: the pairing of one user with one machine. */
  datatype Connection = Connection(id: int, userId: int, machineId: int)

  /** volume: the machine's sound and timing settings, one row per connection. */
  datatype VolumeRow = VolumeRow(volume: int, delay: string, alertOffset: string)

  /** app: one reminder slot of a connection. status is 1 when active. */
  datatype Slot = Slot(id: int, pillSlot: int, connectId: int, status: int, timing: string)

  /** medication: a user-defined drug of a connection. */
  datatype Medication = Medication(
    id: int, connectId: int, name: string, nickname: string, description: string,
    dosageFormId: int, unitTypeId: int, picture: Option<string>)

  /** medication_timing: a meal timing a medication is taken at. */
  datatype MedicationTiming = MedicationTiming(medicationId: int, timingId: int)

  /** medication_link: a medication and the amount a slot dispenses. */
  datatype Link = Link(appId: int, medicationId: int, amount: real)

  /** timing, dosage_form, unit_type: reference tables. */
  datatype Timing = Timing(id: int, name: string)
  datatype DosageForm = DosageForm(id: int, name: string)
  datatype UnitType = UnitType(id: int, dosageFormId: int, name: string)

  datatype User = User(id: int, username: string)

  /**
   * reminder_medication: one dose event.  scheduledTime is the column `time`,
   * actualTime the column `receive_time`; both are seconds since the epoch.
   */
  datatype DoseEvent = DoseEvent(
    id: int, connectId: int, day: string, actualTime: int, scheduledTime: int,
    status: string, timingId: int, picture: Option<string>)

  /** How an amount is written into a snapshot: 1/2, 1/4, a whole number or a decimal. */
  datatype Fraction = Whole(n: int) | Half | Quarter | Decimal(r: real)

  /** amount_taken: the fraction, followed by the unit name when there is one. */
  datatype AmountText = Plain(f: Fraction) | WithUnit(f: Fraction, unit: string)

  /** medication_snapshot: what was due at a dose event, frozen at record time. */
  datatype Snapshot = Snapshot(eventId: int, name: string, amount: AmountText)

  /**
   * Where a database error strikes in a handler that has one effect no
   * rollback undoes (a file unlinked, a row written outside a transaction):
   * not at all, before that effect, or after it.
   */
  datatype Fault = NoFault | BeforeEffect | AfterEffect

  function IdsOf<T>(rows: seq<T>, id: T -> int): (r: seq<int>)
    ensures |r| == |rows| && forall i :: 0 <= i < |rows| ==> r[i] == id(rows[i])
  {
    seq(|rows|, i requires 0 <= i < |rows| => id(rows[i]))
  }

  /** Ids strictly ascending, positive and below the next AUTO_INCREMENT value. */
  predicate Ascending(ids: seq<int>, next: int)
  {
    (forall i :: 0 <= i < |ids| ==> 0 < ids[i] < next)
    && (forall i, j :: 0 <= i < j < |ids| ==> ids[i] < ids[j])
  }

  lemma IdsOfAppend<T>(a: seq<T>, b: seq<T>, id: T -> int)
    ensures IdsOf(a + b, id) == IdsOf(a, id) + IdsOf(b, id)
  {
  }

  /** A value is among the ids exactly when some row carries it. */
  lemma IdsOfMembers<T>(rows: seq<T>, id: T -> int)
    ensures forall y :: y in IdsOf(rows, id) <==> exists x :: x in rows && id(x) == y
  {
    var ids := IdsOf(rows, id);
    forall y ensures y in ids <==> exists x :: x in rows && id(x) == y {
      if y in ids {
        var k :| 0 <= k < |ids| && ids[k] == y;
        assert rows[k] in rows;
      }
      if x :| x in rows && id(x) == y {
        var k :| 0 <= k < |rows| && rows[k] == x;
        assert ids[k] == y;
      }
    }
  }

  /** Rows appended with fresh ids above the old counter keep the table ascending. */
  lemma AscendingAppend(ids: seq<int>, more: seq<int>, next: int, next2: int)
    requires Ascending(ids, next) && Ascending(more, next2)
    requires next <= next2 && forall i :: 0 <= i < |more| ==> more[i] >= next
    ensures Ascending(ids + more, next2)
  {
    var all := ids + more;
    forall i | 0 <= i < |all| ensures 0 < all[i] < next2 {
      if i >= |ids| { assert all[i] == more[i - |ids|]; }
    }
    forall i, j | 0 <= i < j < |all| ensures all[i] < all[j] {
      if j < |ids| {
      } else if i >= |ids| {
        assert all[i] == more[i - |ids|] && all[j] == more[j - |ids|];
      } else {
        assert all[j] == more[j - |ids|];
      }
    }
  }

  /** Deleting rows keeps the remaining ids ascending and below the counter. */
  lemma AscendingFilter<T(!new)>(rows: seq<T>, p: T -> bool, id: T -> int, next: int)
    requires Ascending(IdsOf(rows, id), next)
    ensures Ascending(IdsOf(Seqs.Filter(rows, p), id), next)
  {
    var ids := IdsOf(rows, id);
    assert Seqs.IncreasingBy(rows, id) by {
      forall i, j | 0 <= i < j < |rows| ensures id(rows[i]) < id(rows[j]) {
        assert ids[i] < ids[j];
      }
    }
    var kept := Seqs.Filter(rows, p);
    Seqs.FilterIncreasing(rows, p, id);
    Seqs.FilterAt(rows, p);
    var ids2 := IdsOf(kept, id);
    forall i | 0 <= i < |ids2| ensures 0 < ids2[i] < next {
      var k :| 0 <= k < |rows| && rows[k] == kept[i];
      assert ids[k] == ids2[i];
    }
    forall i, j | 0 <= i < j < |ids2| ensures ids2[i] < ids2[j] {
      assert ids2[i] == id(kept[i]) && ids2[j] == id(kept[j]);
    }
  }

  function ConnectionId(c: Connection): int { c.id }
  function SlotId(a: Slot): int { a.id }
  function MedicationId(m: Medication): int { m.id }
  function EventId(e: DoseEvent): int { e.id }

  predicate IsConnection(connects: seq<Connection>, id: int)
  {
    exists j :: 0 <= j < |connects| && connects[j].id == id
  }

  /** The user a connection belongs to, if the connection exists. */
  function OwnerIn(connects: seq<Connection>, connectId: int): (r: Option<int>)
    ensures r.Some? <==> IsConnection(connects, connectId)
    ensures r.Some? ==> exists j :: 0 <= j < |connects| && connects[j].id == connectId && connects[j].userId == r.value
  {
    match Seqs.FindFirst(connects, (c: Connection) => c.id == connectId)
    case None => None
    case Some(c) => Some(c.userId)
  }

  /** A record joined to its connection and filtered by user: some connection with this id is the user's. */
  predicate ConnectionOf(connects: seq<Connection>, connectId: int, userId: int)
  {
    exists j :: 0 <= j < |connects| && connects[j].id == connectId && connects[j].userId == userId
  }

  /** JOIN medication m JOIN connect c ... WHERE m.medication_id = ? AND c.user_id = ? */
  predicate MedicationOwned(medications: seq<Medication>, connects: seq<Connection>, medicationId: int, userId: int)
  {
    exists i :: 0 <= i < |medications| && medications[i].id == medicationId
                && ConnectionOf(connects, medications[i].connectId, userId)
  }

  /** medication_timing has a row for this medication and timing. */
  predicate HasTiming(medicationTimings: seq<MedicationTiming>, medicationId: int, timingId: int)
  {
    exists i :: 0 <= i < |medicationTimings| && medicationTimings[i].medicationId == medicationId
                && medicationTimings[i].timingId == timingId
  }

  /** LEFT JOIN unit_type: the unit's name, or null when there is no such unit. */
  function UnitName(unitTypes: seq<UnitType>, unitTypeId: int): (r: Option<string>)
    ensures r.None? <==> forall i :: 0 <= i < |unitTypes| ==> unitTypes[i].id != unitTypeId
    ensures r.Some? ==> exists i :: 0 <= i < |unitTypes| && unitTypes[i].id == unitTypeId && unitTypes[i].name == r.value
  {
    match Seqs.FindFirst(unitTypes, (u: UnitType) => u.id == unitTypeId)
    case None => None
    case Some(u) => Some(u.name)
  }

  /** JOIN medication: the medication row with this id. */
  function MedicationById(medications: seq<Medication>, medicationId: int): (r: Option<Medication>)
    ensures r.None? <==> forall i :: 0 <= i < |medications| ==> medications[i].id != medicationId
    ensures r.Some? ==> r.value in medications && r.value.id == medicationId
  {
    Seqs.FindFirst(medications, (m: Medication) => m.id == medicationId)
  }

  /** The row SELECT ... FROM medication m JOIN connect c ... WHERE m.medication_id = ? AND c.user_id = ? fetches. */
  function OwnedMedication(medications: seq<Medication>, connects: seq<Connection>, medicationId: int, userId: int): (r: Option<Medication>)
    ensures r.None? <==> !MedicationOwned(medications, connects, medicationId, userId)
    ensures r.Some? ==> r.value in medications && r.value.id == medicationId && ConnectionOf(connects, r.value.connectId, userId)
  {
    Seqs.FindFirst(medications, (m: Medication) => m.id == medicationId && ConnectionOf(connects, m.connectId, userId))
  }

  /** The position of the slot with this app_id: SELECT ... FROM app WHERE app_id = ?. */
  function SlotIndex(apps: seq<Slot>, appId: int): (r: Option<nat>)
    ensures r.Some? ==> r.value < |apps| && apps[r.value].id == appId
    ensures r.None? <==> forall i :: 0 <= i < |apps| ==> apps[i].id != appId
  {
    Seqs.FindIndex(apps, (a: Slot) => a.id == appId)
  }

  /** A slot joined to its connection and filtered by slot id and user: the slot exists and is the user's. */
  predicate AppOwned(apps: seq<Slot>, connects: seq<Connection>, appId: int, userId: int)
  {
    SlotIndex(apps, appId).Some? && OwnerIn(connects, apps[SlotIndex(apps, appId).value].connectId) == Some(userId)
  }

  /** Every slot belongs to an existing connection. */
  predicate SlotsOwned(connects: seq<Connection>, apps: seq<Slot>)
  {
    forall i :: 0 <= i < |apps| ==> IsConnection(connects, apps[i].connectId)
  }

  /** A user is paired with at most one machine and a machine with at most one user. */
  predicate OnePairing(connects: seq<Connection>)
  {
    forall i, j :: 0 <= i < j < |connects| ==>
      connects[i].userId != connects[j].userId && connects[i].machineId != connects[j].machineId
  }

  /**
   * Ids are assigned by AUTO_INCREMENT counters that start at 1; every slot
   * has its connection; pairings are one to one.
   */
  predicate Invariant(connects: seq<Connection>, apps: seq<Slot>, medications: seq<Medication>, events: seq<DoseEvent>,
                      nextConnectId: int, nextAppId: int, nextMedicationId: int, nextEventId: int)
  {
    && 0 < nextConnectId && 0 < nextAppId && 0 < nextMedicationId && 0 < nextEventId
    && Ascending(IdsOf(connects, ConnectionId), nextConnectId)
    && Ascending(IdsOf(apps, SlotId), nextAppId)
    && Ascending(IdsOf(medications, MedicationId), nextMedicationId)
    && Ascending(IdsOf(events, EventId), nextEventId)
    && SlotsOwned(connects, apps)
    && OnePairing(connects)
  }

  /** The slots were rewritten in place, each keeping its id and connection. */
  predicate SameSlotKeys(apps: seq<Slot>, apps2: seq<Slot>)
  {
    |apps2| == |apps| && forall i :: 0 <= i < |apps| ==> apps2[i].id == apps[i].id && apps2[i].connectId == apps[i].connectId
  }

  /** Rewriting slots in place, each keeping its id and connection, keeps the invariant. */
  lemma SameSlotKeysKeepInvariant(connects: seq<Connection>, apps: seq<Slot>, apps2: seq<Slot>,
                                  medications: seq<Medication>, events: seq<DoseEvent>,
                                  nextConnectId: int, nextAppId: int, nextMedicationId: int, nextEventId: int)
    requires Invariant(connects, apps, medications, events, nextConnectId, nextAppId, nextMedicationId, nextEventId)
    requires SameSlotKeys(apps, apps2)
    ensures Invariant(connects, apps2, medications, events, nextConnectId, nextAppId, nextMedicationId, nextEventId)
  {
    assert IdsOf(apps2, SlotId) == IdsOf(apps, SlotId);
    forall i | 0 <= i < |apps2| ensures IsConnection(connects, apps2[i].connectId) {
      assert apps[i].connectId == apps2[i].connectId;
    }
  }

  class Store {
    var machines: seq<Machine>
    var connects: seq<Connection>
    var volumes: map<int, VolumeRow>
    var apps: seq<Slot>
    var dayApps: map<int, DayFlags>
    var medications: seq<Medication>
    var medicationTimings: seq<MedicationTiming>
    var links: seq<Link>
    var events: seq<DoseEvent>
    var snapshots: seq<Snapshot>
    var timings: seq<Timing>
    var dosageForms: seq<DosageForm>
    var unitTypes: seq<UnitType>
    var users: seq<User>
    var nextConnectId: int
    var nextAppId: int
    var nextMedicationId: int
    var nextEventId: int

    /** The invariant every handler keeps. */
    ghost predicate Valid()
      reads this`connects, this`apps, this`medications, this`events
      reads this`nextConnectId, this`nextAppId, this`nextMedicationId, this`nextEventId
    {
      Invariant(connects, apps, medications, events, nextConnectId, nextAppId, nextMedicationId, nextEventId)
    }

    constructor ()
      ensures Valid()
      ensures machines == [] && connects == [] && apps == [] && medications == []
      ensures events == [] && snapshots == [] && links == [] && medicationTimings == []
      ensures volumes == map[] && dayApps == map[]
    {
      machines, connects, volumes, apps, dayApps := [], [], map[], [], map[];
      medications, medicationTimings, links, events, snapshots := [], [], [], [], [];
      timings, dosageForms, unitTypes, users := [], [], [], [];
      nextConnectId, nextAppId, nextMedicationId, nextEventId := 1, 1, 1, 1;
    }

    /** A connection filtered by id and user: the connection exists and is the user's. */
    predicate OwnedBy(connectId: int, userId: int)
      reads this`connects
    {
      OwnerIn(connects, connectId) == Some(userId)
    }
  }
}
