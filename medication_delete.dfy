/**
 * DELETE /medications/{id}: removes one of the user's medications.  Active
 * slots that still dispense it block the deletion unless force_delete is
 * set, in which case they are switched off first; then the medication's
 * links, timings, the snapshots carrying its name and the row itself go,
 * in one transaction.
 */
module MedicationDelete {
  import opened Wrappers
  import opened Php
  import opened Tables
  import Seqs
  import Uploads
  import MedicationTimings

  /** The timing name reported when the slot's pill_slot names no timing. */
  const NoTimingName: string := "ไม่ระบุ"

  /** A row of the 409 response: a slot that still dispenses the medication. */
  datatype Reminder = Reminder(appId: int, timing: string, timingName: string, pillSlot: int)

  /** The three ways the handler answers. */
  datatype DeleteReply =
    | Failed(code: int)
    | InUse(medicationId: int, name: string, reminders: seq<Reminder>)
    | Deleted(medicationId: int, name: string, disabledCount: nat)

  /** Some medication_link row puts this medication in this slot. */
  predicate LinksMedication(links: seq<Link>, appId: int, medicationId: int)
  {
    exists k :: 0 <= k < |links| && links[k].appId == appId && links[k].medicationId == medicationId
  }

  /** An active slot of the user with at least one link to the medication (the HAVING medication_count > 0). */
  predicate Blocks(links: seq<Link>, connects: seq<Connection>, medicationId: int, userId: int, a: Slot)
  {
    ConnectionOf(connects, a.connectId, userId) && a.status == 1 && LinksMedication(links, a.id, medicationId)
  }

  function BlockingTest(links: seq<Link>, connects: seq<Connection>, medicationId: int, userId: int): Slot -> bool
  {
    (a: Slot) => Blocks(links, connects, medicationId, userId, a)
  }

  /** checkMedicationUsageInReminder(): the blocking slots, ORDER BY app_id. */
  function BlockingSlots(apps: seq<Slot>, links: seq<Link>, connects: seq<Connection>, medicationId: int, userId: int): seq<Slot>
  {
    Seqs.Filter(apps, BlockingTest(links, connects, medicationId, userId))
  }

  /** What the usage check reports; a failing query counts as no reminders. */
  function Usage(apps: seq<Slot>, links: seq<Link>, connects: seq<Connection>, medicationId: int, userId: int,
                 usageFault: bool): seq<Slot>
  {
    if usageFault then [] else BlockingSlots(apps, links, connects, medicationId, userId)
  }

  /** The usage check lists exactly the blocking slots, each once, by ascending app id. */
  lemma BlockingSlotsExact(apps: seq<Slot>, links: seq<Link>, connects: seq<Connection>, medicationId: int, userId: int,
                           nextAppId: int)
    requires Ascending(IdsOf(apps, SlotId), nextAppId)
    ensures var r := BlockingSlots(apps, links, connects, medicationId, userId);
      && (forall i :: 0 <= i < |r| ==> r[i] in apps && Blocks(links, connects, medicationId, userId, r[i]))
      && (forall i :: 0 <= i < |apps| && Blocks(links, connects, medicationId, userId, apps[i]) ==> apps[i] in r)
      && Ascending(IdsOf(r, SlotId), nextAppId)
  {
    var r := BlockingSlots(apps, links, connects, medicationId, userId);
    AscendingFilter(apps, BlockingTest(links, connects, medicationId, userId), SlotId, nextAppId);
    assert forall i :: 0 <= i < |r| ==> BlockingTest(links, connects, medicationId, userId)(r[i]);
  }

  /** A row of the 409 response; timing_name falls back when the LEFT JOIN finds no timing. */
  function ReminderOf(timings: seq<Timing>, a: Slot): (r: Reminder)
    ensures r.appId == a.id && r.pillSlot == a.pillSlot && r.timing == a.timing
    ensures (forall i :: 0 <= i < |timings| ==> timings[i].id != a.pillSlot) ==> r.timingName == NoTimingName
    ensures (exists i :: 0 <= i < |timings| && timings[i].id == a.pillSlot) ==>
      Some(r.timingName) == MedicationTimings.TimingName(timings, a.pillSlot)
  {
    Reminder(a.id, a.timing, MedicationTimings.TimingName(timings, a.pillSlot).GetOr(NoTimingName), a.pillSlot)
  }

  function Reminders(timings: seq<Timing>, slots: seq<Slot>): (r: seq<Reminder>)
    ensures |r| == |slots| && forall i :: 0 <= i < |r| ==> r[i] == ReminderOf(timings, slots[i])
  {
    seq(|slots|, i requires 0 <= i < |slots| => ReminderOf(timings, slots[i]))
  }

  function SlotIds(slots: seq<Slot>): (r: seq<int>)
    ensures |r| == |slots| && forall i :: 0 <= i < |r| ==> r[i] == slots[i].id
  {
    IdsOf(slots, SlotId)
  }

  /** UPDATE app SET status = 0 WHERE app_id IN (...). */
  function Deactivated(apps: seq<Slot>, appIds: seq<int>): seq<Slot>
  {
    seq(|apps|, i requires 0 <= i < |apps| => if apps[i].id in appIds then apps[i].(status := 0) else apps[i])
  }

  /** The listed slots are switched off, every other field and every other slot stays as it was. */
  lemma DeactivatedExact(apps: seq<Slot>, appIds: seq<int>)
    ensures var r := Deactivated(apps, appIds);
      && SameSlotKeys(apps, r)
      && (forall i :: 0 <= i < |apps| && apps[i].id in appIds ==> r[i] == apps[i].(status := 0))
      && (forall i :: 0 <= i < |apps| && apps[i].id !in appIds ==> r[i] == apps[i])
  {
  }

  /** disabled_count: the distinct app ids of the blocking slots, which is their number. */
  lemma DisabledCountIsBlockingCount(blocking: seq<Slot>, nextAppId: int)
    requires Ascending(IdsOf(blocking, SlotId), nextAppId)
    ensures Seqs.Dedup(SlotIds(blocking)) == SlotIds(blocking)
    ensures |Seqs.Dedup(SlotIds(blocking))| == |blocking|
  {
    Seqs.DedupDistinct(SlotIds(blocking));
  }

  function LinkKept(medicationId: int): Link -> bool
  {
    (l: Link) => l.medicationId != medicationId
  }

  function SnapshotKept(name: string): Snapshot -> bool
  {
    (sn: Snapshot) => sn.name != name
  }

  function MedicationKept(medicationId: int): Medication -> bool
  {
    (m: Medication) => m.id != medicationId
  }

  /** DELETE FROM medication_link WHERE medication_id = ?. */
  function LinksWithout(links: seq<Link>, medicationId: int): seq<Link>
  {
    Seqs.Filter(links, LinkKept(medicationId))
  }

  /** DELETE FROM medication_snapshot WHERE medication_name = ?. */
  function SnapshotsWithout(snapshots: seq<Snapshot>, name: string): seq<Snapshot>
  {
    Seqs.Filter(snapshots, SnapshotKept(name))
  }

  /** DELETE FROM medication WHERE medication_id = ?. */
  function MedicationsWithout(medications: seq<Medication>, medicationId: int): seq<Medication>
  {
    Seqs.Filter(medications, MedicationKept(medicationId))
  }

  /**
   * After the deletes nothing refers to the medication or carries its name,
   * and every row that did not is still there.
   */
  lemma DeletesExact(links: seq<Link>, medicationTimings: seq<MedicationTiming>, snapshots: seq<Snapshot>,
                     medications: seq<Medication>, medicationId: int, name: string)
    ensures var l := LinksWithout(links, medicationId);
      && (forall i :: 0 <= i < |l| ==> l[i] in links && l[i].medicationId != medicationId)
      && (forall i :: 0 <= i < |links| && links[i].medicationId != medicationId ==> links[i] in l)
    ensures var t := MedicationTimings.OtherTimings(medicationTimings, medicationId);
      && (forall i :: 0 <= i < |t| ==> t[i] in medicationTimings && t[i].medicationId != medicationId)
      && (forall i :: 0 <= i < |medicationTimings| && medicationTimings[i].medicationId != medicationId ==>
            medicationTimings[i] in t)
    ensures var sn := SnapshotsWithout(snapshots, name);
      && (forall i :: 0 <= i < |sn| ==> sn[i] in snapshots && sn[i].name != name)
      && (forall i :: 0 <= i < |snapshots| && snapshots[i].name != name ==> snapshots[i] in sn)
    ensures var m := MedicationsWithout(medications, medicationId);
      && (forall i :: 0 <= i < |m| ==> m[i] in medications && m[i].id != medicationId)
      && (forall i :: 0 <= i < |medications| && medications[i].id != medicationId ==> medications[i] in m)
  {
    var l := LinksWithout(links, medicationId);
    assert forall i :: 0 <= i < |l| ==> LinkKept(medicationId)(l[i]);
    var t := MedicationTimings.OtherTimings(medicationTimings, medicationId);
    assert forall i :: 0 <= i < |t| ==> MedicationTimings.OtherTest(medicationId)(t[i]);
    var sn := SnapshotsWithout(snapshots, name);
    assert forall i :: 0 <= i < |sn| ==> SnapshotKept(name)(sn[i]);
    var m := MedicationsWithout(medications, medicationId);
    assert forall i :: 0 <= i < |m| ==> MedicationKept(medicationId)(m[i]);
  }

  /** After a forced delete no slot of anyone links the medication, so nothing blocks a second delete. */
  lemma NothingBlocksAfterDelete(apps: seq<Slot>, links: seq<Link>, connects: seq<Connection>, medicationId: int, userId: int)
    ensures BlockingSlots(apps, LinksWithout(links, medicationId), connects, medicationId, userId) == []
  {
    var l := LinksWithout(links, medicationId);
    assert forall i :: 0 <= i < |l| ==> LinkKept(medicationId)(l[i]);
    forall i | 0 <= i < |apps| ensures !BlockingTest(l, connects, medicationId, userId)(apps[i]) {
      assert !LinksMedication(l, apps[i].id, medicationId);
    }
    Seqs.CountPositive(apps, BlockingTest(l, connects, medicationId, userId));
  }

  /** The force_delete field cast to a boolean, false when it is not set. */
  predicate ForceFlag(forceDelete: Option<Value>)
  {
    forceDelete.Some? && Truthy(forceDelete.value)
  }

  /** The id segment is truthy and numeric. */
  predicate IdAccepted(medicationIdParam: Option<string>)
  {
    medicationIdParam.Some? && !EmptyString(medicationIdParam.value) && IsIntString(medicationIdParam.value)
  }

  /** The tables a successful delete leaves behind. */
  ghost predicate DeletedState(s: Store, apps: seq<Slot>, links: seq<Link>, medicationTimings: seq<MedicationTiming>,
                               snapshots: seq<Snapshot>, medications: seq<Medication>,
                               medicationId: int, name: string, disabledIds: seq<int>)
    reads s`apps, s`links, s`medicationTimings, s`snapshots, s`medications
  {
    && s.apps == Deactivated(apps, disabledIds)
    && s.links == LinksWithout(links, medicationId)
    && s.medicationTimings == MedicationTimings.OtherTimings(medicationTimings, medicationId)
    && s.snapshots == SnapshotsWithout(snapshots, name)
    && s.medications == MedicationsWithout(medications, medicationId)
  }

  /** The app ids the force path switches off: array_unique() of the reported slots. */
  function DisabledIds(blocking: seq<Slot>): seq<int>
  {
    if |blocking| > 0 then Seqs.Dedup(SlotIds(blocking)) else []
  }

  /** deleteOldImage() is called with the picture when it is not empty. */
  function ImageToDelete(m: Medication): (r: Option<string>)
    ensures r.Some? <==> !Uploads.NoName(m.picture)
    ensures r.Some? ==> r == m.picture
  {
    if Uploads.NoName(m.picture) then None else m.picture
  }

  /**
   * The handler.  connectId is the token's connect_id, 0 when it is null;
   * medicationIdParam is the id segment of the URL; forceDelete the body's
   * force_delete; usageFault a failing usage query, which the usage check
   * catches itself; fault a database error inside the transaction, which
   * rolls every row back: BeforeEffect in a statement from the ownership
   * lookup up to the unlink, AfterEffect in the last DELETE or the commit.
   * unlinked is the picture file deleteOldImage() removed, which no rollback
   * brings back.
   */
  method Delete(s: Store, userId: int, connectId: int, medicationIdParam: Option<string>, forceDelete: Option<Value>,
                usageFault: bool, fault: Fault) returns (r: DeleteReply, unlinked: Option<string>)
    requires s.Valid()
    modifies s`apps, s`links, s`medicationTimings, s`snapshots, s`medications
    ensures s.Valid()
    ensures !r.Deleted? ==> unchanged(s)
    ensures connectId == 0 ==> r == Failed(Forbidden) && unlinked.None?
    ensures connectId != 0 && !IdAccepted(medicationIdParam) ==> r == Failed(Unprocessable) && unlinked.None?
    ensures connectId != 0 && IdAccepted(medicationIdParam) && fault == BeforeEffect ==>
            r == Failed(ServerError) && unlinked.None?
    ensures connectId != 0 && IdAccepted(medicationIdParam) && fault != BeforeEffect
            && !MedicationOwned(old(s.medications), old(s.connects), IntVal(medicationIdParam.value), userId) ==>
            r == Failed(NotFound) && unlinked.None?
    ensures connectId != 0 && IdAccepted(medicationIdParam) && fault != BeforeEffect
            && MedicationOwned(old(s.medications), old(s.connects), IntVal(medicationIdParam.value), userId) ==>
      var m := OwnedMedication(old(s.medications), old(s.connects), IntVal(medicationIdParam.value), userId).value;
      var blocking := Usage(old(s.apps), old(s.links), old(s.connects), m.id, userId, usageFault);
      Deletion(s, old(s.apps), old(s.links), old(s.medicationTimings), old(s.snapshots), old(s.medications), old(s.timings),
               m, blocking, ForceFlag(forceDelete), fault, r, unlinked)
  {
    if connectId == 0 {
      return Failed(Forbidden), None;
    }
    if !IdAccepted(medicationIdParam) {
      return Failed(Unprocessable), None;
    }
    if fault == BeforeEffect {
      return Failed(ServerError), None;
    }
    var medicationId := IntVal(medicationIdParam.value);
    var found := OwnedMedication(s.medications, s.connects, medicationId, userId);
    if found.None? {
      return Failed(NotFound), None;
    }
    r, unlinked := Proceed(s, userId, found.value, ForceFlag(forceDelete), usageFault, fault);
  }

  /**
   * What happens after the ownership check: 409 when the medication is in use
   * and not forced; otherwise 500 on a fault, with the picture already gone
   * when the fault comes after the unlink; otherwise the deletion.
   */
  ghost predicate Deletion(s: Store, apps: seq<Slot>, links: seq<Link>, medicationTimings: seq<MedicationTiming>,
                           snapshots: seq<Snapshot>, medications: seq<Medication>, timings: seq<Timing>,
                           m: Medication, blocking: seq<Slot>, force: bool, fault: Fault,
                           r: DeleteReply, unlinked: Option<string>)
    reads s`apps, s`links, s`medicationTimings, s`snapshots, s`medications
  {
    && (|blocking| > 0 && !force ==> r == InUse(m.id, m.name, Reminders(timings, blocking)) && unlinked.None?)
    && (!(|blocking| > 0 && !force) ==>
          && unlinked == (if fault == BeforeEffect then None else ImageToDelete(m))
          && (fault != NoFault ==> r == Failed(ServerError))
          && (fault == NoFault ==>
                && r == Deleted(m.id, m.name, |DisabledIds(blocking)|)
                && DeletedState(s, apps, links, medicationTimings, snapshots, medications, m.id, m.name, DisabledIds(blocking))))
  }

  /** Everything after the ownership check: the usage check, the 409, the writes and the unlink. */
  method Proceed(s: Store, userId: int, medication: Medication, force: bool, usageFault: bool, fault: Fault)
      returns (r: DeleteReply, unlinked: Option<string>)
    requires s.Valid()
    modifies s`apps, s`links, s`medicationTimings, s`snapshots, s`medications
    ensures s.Valid()
    ensures !r.Deleted? ==> unchanged(s)
    ensures Deletion(s, old(s.apps), old(s.links), old(s.medicationTimings), old(s.snapshots), old(s.medications), old(s.timings),
                     medication, Usage(old(s.apps), old(s.links), old(s.connects), medication.id, userId, usageFault),
                     force, fault, r, unlinked)
  {
    var reminders := Usage(s.apps, s.links, s.connects, medication.id, userId, usageFault);
    if |reminders| > 0 && !force {
      return InUse(medication.id, medication.name, Reminders(s.timings, reminders)), None;
    }
    if fault == BeforeEffect {
      return Failed(ServerError), None;
    }
    unlinked := ImageToDelete(medication);
    if fault == AfterEffect {
      return Failed(ServerError), unlinked;
    }
    Remove(s, medication.id, medication.name, DisabledIds(reminders));
    r := Deleted(medication.id, medication.name, |DisabledIds(reminders)|);
  }

  /** The writes: switch the blocking slots off, then the four DELETEs in the handler's order. */
  method Remove(s: Store, medicationId: int, name: string, disabledIds: seq<int>)
    requires s.Valid()
    modifies s`apps, s`links, s`medicationTimings, s`snapshots, s`medications
    ensures s.Valid()
    ensures s.apps == Deactivated(old(s.apps), disabledIds)
    ensures s.links == LinksWithout(old(s.links), medicationId)
    ensures s.medicationTimings == MedicationTimings.OtherTimings(old(s.medicationTimings), medicationId)
    ensures s.snapshots == SnapshotsWithout(old(s.snapshots), name)
    ensures s.medications == MedicationsWithout(old(s.medications), medicationId)
  {
    Deactivate(s, disabledIds);
    s.links := LinksWithout(s.links, medicationId);
    s.medicationTimings := MedicationTimings.OtherTimings(s.medicationTimings, medicationId);
    s.snapshots := SnapshotsWithout(s.snapshots, name);
    DeleteRow(s, medicationId);
  }

  /** UPDATE app SET status = 0 WHERE app_id IN (...). */
  method Deactivate(s: Store, appIds: seq<int>)
    requires s.Valid()
    modifies s`apps
    ensures s.Valid()
    ensures s.apps == Deactivated(old(s.apps), appIds)
  {
    DeactivatedExact(s.apps, appIds);
    SameSlotKeysKeepInvariant(s.connects, s.apps, Deactivated(s.apps, appIds), s.medications, s.events,
                              s.nextConnectId, s.nextAppId, s.nextMedicationId, s.nextEventId);
    s.apps := Deactivated(s.apps, appIds);
  }

  /** DELETE FROM medication WHERE medication_id = ?. */
  method DeleteRow(s: Store, medicationId: int)
    requires s.Valid()
    modifies s`medications
    ensures s.Valid()
    ensures s.medications == MedicationsWithout(old(s.medications), medicationId)
  {
    AscendingFilter(s.medications, MedicationKept(medicationId), MedicationId, s.nextMedicationId);
    s.medications := MedicationsWithout(s.medications, medicationId);
  }
}
