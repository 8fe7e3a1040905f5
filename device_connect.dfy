/**
 * POST /devices/connect: pairs the calling user with the dispenser whose
 * serial is given, then bootstraps the connection's volume row, its seven
 * reminder slots and an all-off week for each slot, in one transaction.
 */
module DeviceConnect {
  import opened Wrappers
  import opened Strings
  import opened Tables
  import Seqs
  import ConfigLoader

  /** The default dispensing times of slots 1 to 7. */
  const DefaultTimes: seq<string> := ["07:00:00", "08:00:00", "12:00:00", "18:00:00", "19:00:00", "20:00:00", "21:00:00"]

  /**
   * The checks before any insert: the serial must name a machine, the machine
   * must be unpaired and the user must not be paired.  Ok carries the machine id.
   * The lookup takes the first machine row with the serial: that machine is
   * paired with this user exactly when neither it nor the user has a connection,
   * and otherwise the answer is 409.
   */
  function PairCheck(machines: seq<Machine>, connects: seq<Connection>, userId: int, serial: string): (r: Reply<int>)
    ensures r == Fail(NotFound) <==> forall i :: 0 <= i < |machines| ==> machines[i].serial != serial
    ensures forall i :: 0 <= i < |machines| && machines[i].serial == serial && (forall j :: 0 <= j < i ==> machines[j].serial != serial) ==>
      if forall j :: 0 <= j < |connects| ==> connects[j].machineId != machines[i].id && connects[j].userId != userId
      then r == Ok(machines[i].id)
      else r == Fail(Conflict)
    ensures r.Ok? ==> exists i :: 0 <= i < |machines| && machines[i].serial == serial && machines[i].id == r.data
    ensures r.Ok? ==> forall j :: 0 <= j < |connects| ==> connects[j].machineId != r.data && connects[j].userId != userId
    ensures r.Fail? ==> r.code == NotFound || r.code == Conflict
    ensures (exists j :: 0 <= j < |connects| && connects[j].userId == userId) ==> r.Fail?
  {
    assert forall i :: 0 <= i < |machines| && machines[i].serial == serial && (forall j :: 0 <= j < i ==> machines[j].serial != serial) ==>
      Seqs.FindFirst(machines, (m: Machine) => m.serial == serial) == Some(machines[i]) by {
      forall i | 0 <= i < |machines| && machines[i].serial == serial && (forall j :: 0 <= j < i ==> machines[j].serial != serial) {
        Seqs.FindFirstAt(machines, (m: Machine) => m.serial == serial, i);
      }
    }
    match Seqs.FindFirst(machines, (m: Machine) => m.serial == serial)
    case None => Fail(NotFound)
    case Some(m) =>
      if Seqs.FindFirst(connects, (c: Connection) => c.machineId == m.id).Some? then Fail(Conflict)
      else if Seqs.FindFirst(connects, (c: Connection) => c.userId == userId).Some? then Fail(Conflict)
      else Ok(m.id)
  }

  /** The slots the loop has inserted after pill slots 1 to n. */
  function SlotsUpTo(firstId: int, connectId: int, status: int, n: nat): seq<Slot>
    requires n <= 7
  {
    if n == 0 then []
    else SlotsUpTo(firstId, connectId, status, n - 1) + [Slot(firstId + n - 1, n, connectId, status, DefaultTimes[n - 1])]
  }

  /** The seven slots a new connection starts with, ids from firstId on. */
  function BootstrapSlots(firstId: int, connectId: int, status: int): seq<Slot>
  {
    SlotsUpTo(firstId, connectId, status, 7)
  }

  lemma {:induction false} SlotsUpToAt(firstId: int, connectId: int, status: int, n: nat)
    requires n <= 7
    ensures var r := SlotsUpTo(firstId, connectId, status, n);
      |r| == n && forall k :: 0 <= k < n ==> r[k] == Slot(firstId + k, k + 1, connectId, status, DefaultTimes[k])
  {
    if n > 0 {
      SlotsUpToAt(firstId, connectId, status, n - 1);
    }
  }

  /** One all-off week per new slot id. */
  function NoDayRows(firstId: int, n: nat): map<int, DayFlags>
  {
    if n == 0 then map[] else NoDayRows(firstId, n - 1)[firstId + n - 1 := NoDays]
  }

  /**
   * The bootstrap slots cover pill slots 1 to 7 once each, in order, with the
   * default times, and take consecutive fresh ids.
   */
  lemma BootstrapSlotsShape(firstId: int, connectId: int, status: int)
    requires firstId > 0
    ensures var r := BootstrapSlots(firstId, connectId, status);
      && |r| == 7
      && (forall k :: 0 <= k < 7 ==> r[k].pillSlot == k + 1)
      && (forall k :: 0 <= k < 7 ==> r[k].connectId == connectId && r[k].status == status)
      && (forall k :: 0 <= k < 7 ==> r[k].timing == DefaultTimes[k])
      && Ascending(IdsOf(r, SlotId), firstId + 7)
  {
    var r := BootstrapSlots(firstId, connectId, status);
    SlotsUpToAt(firstId, connectId, status, 7);
    assert forall k :: 0 <= k < 7 ==> IdsOf(r, SlotId)[k] == firstId + k;
  }

  /** The weeks added are exactly the all-off weeks of the ids firstId to firstId + n - 1. */
  lemma {:induction false} NoDayRowsCover(firstId: int, n: nat, id: int)
    ensures id in NoDayRows(firstId, n) <==> firstId <= id < firstId + n
    ensures id in NoDayRows(firstId, n) ==> NoDayRows(firstId, n)[id] == NoDays
  {
    if n > 0 {
      NoDayRowsCover(firstId, n - 1, id);
    }
  }

  /**
   * Whether a pairing reaches the commit: a non-blank serial that passes the
   * checks, and no database error inside the transaction.
   */
  predicate Committed(machines: seq<Machine>, connects: seq<Connection>, userId: int, machineSn: Option<string>, fault: Fault)
  {
    && machineSn.Some? && Trim(machineSn.value) != ""
    && PairCheck(machines, connects, userId, Trim(machineSn.value)).Ok?
    && fault != BeforeEffect
  }

  /**
   * The handler.  machineSn is the request's machine_sn, None when absent.
   * fault says where a database error strikes once the serial is accepted:
   * BeforeEffect is inside the transaction (the machine and pairing lookups
   * among its statements), which answers 500 and rolls everything back;
   * AfterEffect is in the connection lookup or the token creation after the
   * commit, which answers 500 with the pairing kept.
   */
  method Pair(s: Store, userId: int, machineSn: Option<string>, config: ConfigLoader.SystemConfig, fault: Fault)
      returns (r: Reply<int>)
    requires s.Valid()
    modifies s`connects, s`volumes, s`apps, s`dayApps, s`nextConnectId, s`nextAppId
    ensures s.Valid()
    ensures machineSn.None? || Trim(machineSn.value) == "" ==> r == Fail(Unprocessable)
    ensures machineSn.Some? && Trim(machineSn.value) != "" ==>
      var check := PairCheck(old(s.machines), old(s.connects), userId, Trim(machineSn.value));
      && (fault == BeforeEffect ==> r == Fail(ServerError))
      && (check.Fail? && fault != BeforeEffect ==> r == check)
      && (check.Ok? && fault == AfterEffect ==> r == Fail(ServerError))
      && (check.Ok? && fault == NoFault ==> r == Ok(old(s.nextConnectId)))
    ensures !Committed(old(s.machines), old(s.connects), userId, machineSn, fault) ==> unchanged(s)
    ensures Committed(old(s.machines), old(s.connects), userId, machineSn, fault) ==>
      var machineId := PairCheck(old(s.machines), old(s.connects), userId, Trim(machineSn.value)).data;
      var connectId := old(s.nextConnectId);
      && s.connects == old(s.connects) + [Connection(connectId, userId, machineId)]
      && s.volumes == old(s.volumes)[connectId := VolumeRow(config.defaultVolume, config.defaultDelay, config.defaultAlertOffset)]
      && s.apps == old(s.apps) + BootstrapSlots(old(s.nextAppId), connectId, config.defaultAppStatus)
      && s.dayApps == old(s.dayApps) + NoDayRows(old(s.nextAppId), 7)
  {
    if machineSn.None? {
      return Fail(Unprocessable);
    }
    var serial := Trim(machineSn.value);
    if serial == "" {
      return Fail(Unprocessable);
    }
    if fault == BeforeEffect {
      return Fail(ServerError);
    }
    var check := PairCheck(s.machines, s.connects, userId, serial);
    if check.Fail? {
      return check;
    }
    var connectId := Bootstrap(s, userId, check.data, config);
    if fault == AfterEffect {
      return Fail(ServerError);
    }
    r := Ok(connectId);
  }

  /** The inserts of a pairing: the connection, its volume row, its slots and their weeks. */
  method Bootstrap(s: Store, userId: int, machineId: int, config: ConfigLoader.SystemConfig) returns (connectId: int)
    requires s.Valid()
    requires forall j :: 0 <= j < |s.connects| ==> s.connects[j].machineId != machineId && s.connects[j].userId != userId
    modifies s`connects, s`volumes, s`apps, s`dayApps, s`nextConnectId, s`nextAppId
    ensures s.Valid()
    ensures connectId == old(s.nextConnectId) && s.nextConnectId == connectId + 1
    ensures s.connects == old(s.connects) + [Connection(connectId, userId, machineId)]
    ensures s.volumes == old(s.volumes)[connectId := VolumeRow(config.defaultVolume, config.defaultDelay, config.defaultAlertOffset)]
    ensures s.apps == old(s.apps) + BootstrapSlots(old(s.nextAppId), connectId, config.defaultAppStatus)
    ensures s.dayApps == old(s.dayApps) + NoDayRows(old(s.nextAppId), 7)
  {
    PairKeepsValid(s.connects, s.apps, s.medications, s.events, s.nextConnectId, s.nextAppId, s.nextMedicationId, s.nextEventId,
                   userId, machineId, config.defaultAppStatus);
    connectId := s.nextConnectId;
    s.connects := s.connects + [Connection(connectId, userId, machineId)];
    s.nextConnectId := connectId + 1;
    s.volumes := s.volumes[connectId := VolumeRow(config.defaultVolume, config.defaultDelay, config.defaultAlertOffset)];
    AddSlots(s, connectId, config.defaultAppStatus);
  }

  /** Adding a key to the right operand of a map union adds it to the union. */
  lemma MergeUpdate(m: map<int, DayFlags>, n: map<int, DayFlags>, k: int, v: DayFlags)
    ensures m + n[k := v] == (m + n)[k := v]
  {
  }

  /** The for loop over pill slots 1 to 7: one slot and one all-off week each. */
  method AddSlots(s: Store, connectId: int, status: int)
    modifies s`apps, s`dayApps, s`nextAppId
    ensures s.nextAppId == old(s.nextAppId) + 7
    ensures s.apps == old(s.apps) + BootstrapSlots(old(s.nextAppId), connectId, status)
    ensures s.dayApps == old(s.dayApps) + NoDayRows(old(s.nextAppId), 7)
  {
    var first := s.nextAppId;
    var i := 1;
    while i <= 7
      invariant 1 <= i <= 8
      invariant s.nextAppId == first + i - 1
      invariant s.apps == old(s.apps) + SlotsUpTo(first, connectId, status, i - 1)
      invariant s.dayApps == old(s.dayApps) + NoDayRows(first, i - 1)
    {
      var appId := s.nextAppId;
      s.apps := s.apps + [Slot(appId, i, connectId, status, DefaultTimes[i - 1])];
      s.nextAppId := appId + 1;
      s.dayApps := s.dayApps[appId := NoDays];
      MergeUpdate(old(s.dayApps), NoDayRows(first, i - 1), appId, NoDays);
      i := i + 1;
    }
  }

  /** The tables after a pairing still satisfy the store's invariant. */
  lemma PairKeepsValid(connects: seq<Connection>, apps: seq<Slot>, medications: seq<Medication>, events: seq<DoseEvent>,
                       nextConnectId: int, nextAppId: int, nextMedicationId: int, nextEventId: int,
                       userId: int, machineId: int, status: int)
    requires Invariant(connects, apps, medications, events, nextConnectId, nextAppId, nextMedicationId, nextEventId)
    requires forall j :: 0 <= j < |connects| ==> connects[j].machineId != machineId && connects[j].userId != userId
    ensures Invariant(connects + [Connection(nextConnectId, userId, machineId)],
                      apps + BootstrapSlots(nextAppId, nextConnectId, status), medications, events,
                      nextConnectId + 1, nextAppId + 7, nextMedicationId, nextEventId)
  {
    var c2 := connects + [Connection(nextConnectId, userId, machineId)];
    var added := BootstrapSlots(nextAppId, nextConnectId, status);
    var a2 := apps + added;
    IdsOfAppend(connects, [Connection(nextConnectId, userId, machineId)], ConnectionId);
    AscendingAppend(IdsOf(connects, ConnectionId), [nextConnectId], nextConnectId, nextConnectId + 1);
    IdsOfAppend(apps, added, SlotId);
    BootstrapSlotsShape(nextAppId, nextConnectId, status);
    SlotsUpToAt(nextAppId, nextConnectId, status, 7);
    assert forall k :: 0 <= k < 7 ==> IdsOf(added, SlotId)[k] == nextAppId + k;
    AscendingAppend(IdsOf(apps, SlotId), IdsOf(added, SlotId), nextAppId, nextAppId + 7);
    forall i | 0 <= i < |a2| ensures IsConnection(c2, a2[i].connectId) {
      if i < |apps| {
        assert IsConnection(connects, apps[i].connectId);
        var j :| 0 <= j < |connects| && connects[j].id == apps[i].connectId;
        assert c2[j] == connects[j];
      } else {
        assert a2[i] == added[i - |apps|];
        assert c2[|connects|].id == nextConnectId == a2[i].connectId;
      }
    }
    assert SlotsOwned(c2, a2);
  }
}
