/**
 * GET /esp32/schedule: what the dispenser with a given serial needs to run
 * its day: the active slots of its connection with their day flags, and the
 * volume settings with durations in seconds.
 */
module Esp32Get {
  import opened Wrappers
  import opened Strings
  import opened Php
  import opened Tables
  import Seqs
  import SettingsVolume
  import SettingsIndex

  /** The clock parts the source reads, a missing part counting as 0. */
  function PartValue(parts: seq<string>, k: nat): int
  {
    if k < |parts| then IntVal(parts[k]) else 0
  }

  /**
   * timeToSeconds(): 0 for anything empty() or not a string; otherwise the
   * first three ':'-separated parts as hours, minutes and seconds.
   */
  function TimeToSeconds(v: Value): (r: int)
    ensures !v.Str? || EmptyString(v.s) ==> r == 0
    ensures v.Str? && !EmptyString(v.s) ==>
      var parts := Split(v.s, ':');
      r == PartValue(parts, 0) * 3600 + PartValue(parts, 1) * 60 + PartValue(parts, 2)
  {
    if !v.Str? || EmptyString(v.s) then 0
    else
      var parts := Split(v.s, ':');
      PartValue(parts, 0) * 3600 + PartValue(parts, 1) * 60 + PartValue(parts, 2)
  }

  /** On text of exactly three parts, the device's conversion and the settings page's agree. */
  lemma TimeToSecondsAgrees(t: string)
    requires |Split(t, ':')| == 3
    ensures TimeToSeconds(Str(t)) == SettingsIndex.ConvertTimeToSeconds(Some(t))
  {
  }

  /** The device reads back the seconds that the volume update stored as clock text. */
  lemma TimeToSecondsOfFormat(n: nat)
    ensures TimeToSeconds(Str(SettingsVolume.FormatSeconds(n))) == n
  {
    SettingsVolume.FormatSecondsSplit(n);
    SettingsIndex.ConvertFormatSeconds(n);
    TimeToSecondsAgrees(SettingsVolume.FormatSeconds(n));
  }

  /** The defaults of a connection without a volume row. */
  const DefaultVolume := 50
  const DefaultDelay := "00:30:00"
  const DefaultAlertOffset := "00:05:00"

  /** The default delay is what the volume update writes for 1800 seconds. */
  lemma DefaultDelayText()
    ensures SettingsVolume.FormatSeconds(1800) == DefaultDelay
  {
    SettingsVolume.Pad2Small(0);
    SettingsVolume.Pad2Small(30);
    JoinThree("00", "30", "00", ':');
  }

  /** The default alert offset is what the volume update writes for 300 seconds. */
  lemma DefaultAlertOffsetText()
    ensures SettingsVolume.FormatSeconds(300) == DefaultAlertOffset
  {
    SettingsVolume.Pad2Small(0);
    SettingsVolume.Pad2Small(5);
    JoinThree("00", "05", "00", ':');
  }

  /** The default clock texts are half an hour and five minutes. */
  lemma DefaultSeconds(delay: string, alertOffset: string)
    requires delay == DefaultDelay && alertOffset == DefaultAlertOffset
    ensures TimeToSeconds(Str(delay)) == 1800
    ensures TimeToSeconds(Str(alertOffset)) == 300
  {
    DefaultDelayText();
    DefaultAlertOffsetText();
    TimeToSecondsOfFormat(1800);
    TimeToSecondsOfFormat(300);
  }

  /** One entry of active_schedules. */
  datatype Schedule = Schedule(appId: int, pillSlot: int, timing: string, status: int, days: DayFlags)

  /** The entries of a list of slots, each with its day_app flags or all seven 0 without a row. */
  function Schedules(active: seq<Slot>, dayApps: map<int, DayFlags>): seq<Schedule>
  {
    seq(|active|, i requires 0 <= i < |active| => ScheduleOf(active[i], dayApps))
  }

  /** The volume object: the volume and both durations in seconds. */
  datatype VolumeSeconds = VolumeSeconds(volume: int, delaySeconds: int, alertOffsetSeconds: int)

  datatype ScheduleData = ScheduleData(
    machineId: int, serial: string, connectId: int, userId: int,
    activeSchedules: seq<Schedule>, volume: VolumeSeconds, totalActiveApps: nat)

  function ActiveTest(connectId: int): Slot -> bool
  {
    (a: Slot) => a.connectId == connectId && a.status == 1
  }

  /** ORDER BY pill_slot: ascending slot number, ties by ascending app_id. */
  function SlotOrder(a: Slot): (int, int)
  {
    (-a.pillSlot, -a.id)
  }

  /** SELECT ... FROM app WHERE connect_id = ? AND status = 1 ORDER BY pill_slot. */
  function ActiveSlots(apps: seq<Slot>, connectId: int): seq<Slot>
  {
    Seqs.SortDesc(Seqs.Filter(apps, ActiveTest(connectId)), SlotOrder)
  }

  /** Exactly the connection's active slots, in ascending pill_slot order. */
  lemma ActiveSlotsExact(apps: seq<Slot>, connectId: int)
    ensures forall a :: a in ActiveSlots(apps, connectId) <==> a in apps && a.connectId == connectId && a.status == 1
    ensures forall i, j :: 0 <= i < j < |ActiveSlots(apps, connectId)| ==>
      ActiveSlots(apps, connectId)[i].pillSlot <= ActiveSlots(apps, connectId)[j].pillSlot
    ensures |ActiveSlots(apps, connectId)| <= |apps|
  {
    var kept := Seqs.Filter(apps, ActiveTest(connectId));
    var sorted := ActiveSlots(apps, connectId);
    forall a ensures a in sorted <==> a in kept {
      assert a in sorted <==> a in multiset(sorted);
      assert a in kept <==> a in multiset(kept);
    }
    forall i, j | 0 <= i < j < |sorted| ensures sorted[i].pillSlot <= sorted[j].pillSlot {
      assert Seqs.KeyGe(SlotOrder(sorted[i]), SlotOrder(sorted[j]));
    }
  }

  /** The entry of one slot: its day_app flags, or all seven 0 without a row. */
  function ScheduleOf(a: Slot, dayApps: map<int, DayFlags>): (r: Schedule)
    ensures r.appId == a.id && r.pillSlot == a.pillSlot && r.timing == a.timing && r.status == a.status
    ensures a.id !in dayApps ==> r.days == NoDays && !AnyDay(r.days)
    ensures a.id in dayApps ==> r.days == dayApps[a.id]
  {
    Schedule(a.id, a.pillSlot, a.timing, a.status, if a.id in dayApps then dayApps[a.id] else NoDays)
  }

  /** The volume row converted, or the defaults when the connection has none. */
  function VolumeOf(volumes: map<int, VolumeRow>, connectId: int): (r: VolumeSeconds)
    ensures connectId in volumes ==>
      r == VolumeSeconds(volumes[connectId].volume, TimeToSeconds(Str(volumes[connectId].delay)),
                         TimeToSeconds(Str(volumes[connectId].alertOffset)))
    ensures connectId !in volumes ==> r == VolumeSeconds(50, 1800, 300)
  {
    var row := if connectId in volumes then volumes[connectId] else VolumeRow(DefaultVolume, DefaultDelay, DefaultAlertOffset);
    assert connectId !in volumes ==> TimeToSeconds(Str(row.delay)) == 1800 && TimeToSeconds(Str(row.alertOffset)) == 300 by {
      if connectId !in volumes {
        DefaultSeconds(row.delay, row.alertOffset);
      }
    }
    VolumeSeconds(row.volume, TimeToSeconds(Str(row.delay)), TimeToSeconds(Str(row.alertOffset)))
  }

  /** SELECT machine_id FROM machinesn WHERE machine_SN = ?. */
  function MachineBySerial(machines: seq<Machine>, serial: string): (r: Option<Machine>)
    ensures r.None? <==> forall i :: 0 <= i < |machines| ==> machines[i].serial != serial
    ensures r.Some? ==> r.value in machines && r.value.serial == serial
  {
    Seqs.FindFirst(machines, (m: Machine) => m.serial == serial)
  }

  /** SELECT connect_id, user_id FROM connect WHERE machine_id = ?. */
  function ConnectionOfMachine(connects: seq<Connection>, machineId: int): (r: Option<Connection>)
    ensures r.None? <==> forall i :: 0 <= i < |connects| ==> connects[i].machineId != machineId
    ensures r.Some? ==> r.value in connects && r.value.machineId == machineId
  {
    Seqs.FindFirst(connects, (c: Connection) => c.machineId == machineId)
  }

  /**
   * The handler.  serial is the machine_SN query parameter; a missing or empty() serial
   * is 400; an unknown serial or a machine without a connection is 404.
   */
  method GetSchedule(s: Store, serial: Option<string>) returns (r: Reply<ScheduleData>)
    ensures serial.None? || EmptyString(serial.value) ==> r == Fail(BadRequest)
    ensures serial.Some? && !EmptyString(serial.value) ==>
      match MachineBySerial(s.machines, serial.value)
      case None => r == Fail(NotFound)
      case Some(m) =>
        match ConnectionOfMachine(s.connects, m.id)
        case None => r == Fail(NotFound)
        case Some(c) =>
          var active := ActiveSlots(s.apps, c.id);
          && r.Ok?
          && r.data.machineId == m.id && r.data.serial == serial.value
          && r.data.connectId == c.id && r.data.userId == c.userId
          && r.data.activeSchedules == Schedules(active, s.dayApps)
          && r.data.volume == VolumeOf(s.volumes, c.id)
          && r.data.totalActiveApps == |active|
  {
    if serial.None? || EmptyString(serial.value) {
      return Fail(BadRequest);
    }
    var machine := MachineBySerial(s.machines, serial.value);
    if machine.None? {
      return Fail(NotFound);
    }
    var connection := ConnectionOfMachine(s.connects, machine.value.id);
    if connection.None? {
      return Fail(NotFound);
    }
    var c := connection.value;
    var active := ActiveSlots(s.apps, c.id);
    var schedules := BuildSchedules(s, active);
    r := Ok(ScheduleData(machine.value.id, serial.value, c.id, c.userId, schedules,
                         VolumeOf(s.volumes, c.id), |schedules|));
  }

  /** The foreach over the active slots, looking up each slot's day flags. */
  method BuildSchedules(s: Store, active: seq<Slot>) returns (schedules: seq<Schedule>)
    ensures schedules == Schedules(active, s.dayApps)
  {
    schedules := [];
    var i := 0;
    while i < |active|
      invariant 0 <= i <= |active|
      invariant schedules == Schedules(active[..i], s.dayApps)
    {
      schedules := schedules + [ScheduleOf(active[i], s.dayApps)];
      i := i + 1;
    }
  }

  /** A serial whose connection has no active slot still succeeds, with an empty list. */
  lemma NoActiveSlotIsEmptySuccess(apps: seq<Slot>, connectId: int)
    requires forall i :: 0 <= i < |apps| ==> apps[i].connectId != connectId || apps[i].status != 1
    ensures ActiveSlots(apps, connectId) == []
  {
    ActiveSlotsExact(apps, connectId);
  }
}
