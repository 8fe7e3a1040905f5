/**
 * PUT /reminders/{app_id}: rewrites one slot from a settings form in one
 * transaction -- its timing and pill slot, its status, its week and its
 * medication links.  The status is derived from the request alone.
 */
module ReminderUpdate {
  import opened Wrappers
  import opened Php
  import opened Strings
  import opened Tables

  /** The request's days object: the values of sunday .. saturday, Null where a key is absent. */
  type DayValues = d: seq<Value> | |d| == 7 witness [Null, Null, Null, Null, Null, Null, Null]

  /**
   * One element of the request's medications list.  amount is the value after
   * the (float) cast, None when the key is absent or null.
   */
  datatype MedEntry = MedEntry(medicationId: Value, amount: Option<real>)

  /** The decoded body; None fields are keys that are absent or null. */
  datatype UpdateRequest = UpdateRequest(
    timing: Option<string>,
    timingId: Value,
    days: Option<DayValues>,
    medications: Option<seq<MedEntry>>)

  /** The seven flags written to day_app: a day is on when its value is set and truthy. */
  function DayFlagsOf(days: DayValues): (f: DayFlags)
    ensures forall k :: 0 <= k < 7 ==> (f[k] <==> Truthy(days[k]))
  {
    seq(7, k requires 0 <= k < 7 => Truthy(days[k]))
  }

  /** The status the request asks for, whatever the store holds. */
  function RequestedStatus(req: UpdateRequest): (status: int)
    ensures status == 0 || status == 1
    ensures status == 1 <==>
      && req.medications.Some? && |req.medications.value| > 0
      && req.days.Some? && exists k :: 0 <= k < 7 && Truthy(req.days.value[k])
  {
    var hasMedications := req.medications.Some? && |req.medications.value| > 0;
    var hasSelectedDays := req.days.Some? && AnyDay(DayFlagsOf(req.days.value));
    if hasMedications && hasSelectedDays then 1 else 0
  }

  /** The slot row after the UPDATEs on app. */
  function UpdatedSlot(app: Slot, req: UpdateRequest): (a: Slot)
    ensures a.id == app.id && a.connectId == app.connectId
    ensures a.status == RequestedStatus(req)
    ensures a.timing == (if req.timing.Some? then Trim(req.timing.value) else app.timing)
    ensures a.pillSlot == (if req.timing.Some? && ToInt(req.timingId) > 0 then ToInt(req.timingId) else app.pillSlot)
  {
    var status := RequestedStatus(req);
    if req.timing.None? then app.(status := status)
    else
      var timed := app.(timing := Trim(req.timing.value), status := status);
      var timingId := ToInt(req.timingId);
      if timingId > 0 then timed.(pillSlot := timingId) else timed
  }

  /** day_app after the upsert: the row of this slot written or created, the others untouched. */
  function DaysAfter(dayApps: map<int, DayFlags>, appId: int, req: UpdateRequest): (r: map<int, DayFlags>)
    ensures req.days.None? ==> r == dayApps
    ensures req.days.Some? ==> appId in r && forall k :: 0 <= k < 7 ==> (r[appId][k] <==> Truthy(req.days.value[k]))
    ensures forall id :: id != appId ==> (id in r <==> id in dayApps)
    ensures forall id :: id != appId && id in dayApps ==> r[id] == dayApps[id]
  {
    if req.days.Some? then dayApps[appId := DayFlagsOf(req.days.value)] else dayApps
  }

  /** What the medication checks read: the user's medications and their timings, and the slot's pill slot. */
  datatype LinkContext = LinkContext(
    medications: seq<Medication>, connects: seq<Connection>, medicationTimings: seq<MedicationTiming>,
    userId: int, pillSlot: int)

  /** The tests an entry passes before its link is inserted. */
  predicate EntryAccepted(ctx: LinkContext, e: MedEntry)
  {
    && !e.medicationId.Null? && e.amount.Some?
    && ToInt(e.medicationId) > 0 && e.amount.value > 0.0
    && MedicationOwned(ctx.medications, ctx.connects, ToInt(e.medicationId), ctx.userId)
    && (ctx.pillSlot > 0 ==> HasTiming(ctx.medicationTimings, ToInt(e.medicationId), ctx.pillSlot))
  }

  function LinkOf(appId: int, e: MedEntry): Link
    requires e.amount.Some?
  {
    Link(appId, ToInt(e.medicationId), e.amount.value)
  }

  /** The links the foreach inserts after the first n entries. */
  function NewLinks(entries: seq<MedEntry>, appId: int, ctx: LinkContext): seq<Link>
  {
    if |entries| == 0 then []
    else
      var before := NewLinks(entries[..|entries| - 1], appId, ctx);
      var e := entries[|entries| - 1];
      if EntryAccepted(ctx, e) then before + [LinkOf(appId, e)] else before
  }

  /** The links the DELETE leaves: all but this slot's links to the user's medications. */
  function KeptLinks(links: seq<Link>, appId: int, ctx: LinkContext): seq<Link>
  {
    Seqs.Filter(links, KeptTest(appId, ctx))
  }

  function KeptTest(appId: int, ctx: LinkContext): Link -> bool
  {
    (l: Link) => !(l.appId == appId && MedicationOwned(ctx.medications, ctx.connects, l.medicationId, ctx.userId))
  }

  function LinksAfter(links: seq<Link>, appId: int, req: UpdateRequest, ctx: LinkContext): seq<Link>
  {
    if req.medications.Some? then KeptLinks(links, appId, ctx) + NewLinks(req.medications.value, appId, ctx) else links
  }

  /** The link comes from an entry of the request that passed the tests. */
  predicate FromAccepted(entries: seq<MedEntry>, appId: int, ctx: LinkContext, l: Link)
  {
    exists k :: 0 <= k < |entries| && EntryAccepted(ctx, entries[k]) && l == LinkOf(appId, entries[k])
  }

  /**
   * The inserted links are exactly the accepted entries, in request order;
   * rejected entries leave no trace.
   */
  lemma {:induction false} NewLinksExact(entries: seq<MedEntry>, appId: int, ctx: LinkContext)
    ensures |NewLinks(entries, appId, ctx)| <= |entries|
    ensures forall i :: 0 <= i < |NewLinks(entries, appId, ctx)| ==> FromAccepted(entries, appId, ctx, NewLinks(entries, appId, ctx)[i])
    ensures forall k :: 0 <= k < |entries| && EntryAccepted(ctx, entries[k]) ==> LinkOf(appId, entries[k]) in NewLinks(entries, appId, ctx)
  {
    if |entries| > 0 {
      var init := entries[..|entries| - 1];
      NewLinksExact(init, appId, ctx);
      var before := NewLinks(init, appId, ctx);
      var r := NewLinks(entries, appId, ctx);
      forall i | 0 <= i < |r| ensures FromAccepted(entries, appId, ctx, r[i]) {
        if i < |before| {
          assert FromAccepted(init, appId, ctx, before[i]);
          var k :| 0 <= k < |init| && EntryAccepted(ctx, init[k]) && before[i] == LinkOf(appId, init[k]);
          assert entries[k] == init[k];
        } else {
          assert r[i] == LinkOf(appId, entries[|entries| - 1]);
        }
      }
      forall k | 0 <= k < |entries| && EntryAccepted(ctx, entries[k]) ensures LinkOf(appId, entries[k]) in r {
        if k < |init| {
          assert entries[k] == init[k];
        }
      }
    }
  }

  /**
   * The links are fully replaced: afterwards this slot's links to the user's
   * medications are exactly the inserted ones, and every other link is kept.
   */
  lemma ReplaceLinksExact(links: seq<Link>, appId: int, entries: seq<MedEntry>, ctx: LinkContext)
    ensures var r := KeptLinks(links, appId, ctx) + NewLinks(entries, appId, ctx);
      && (forall i :: 0 <= i < |links| && !(links[i].appId == appId && MedicationOwned(ctx.medications, ctx.connects, links[i].medicationId, ctx.userId)) ==> links[i] in r)
      && (forall i :: 0 <= i < |r| && r[i].appId == appId && MedicationOwned(ctx.medications, ctx.connects, r[i].medicationId, ctx.userId) ==> r[i] in NewLinks(entries, appId, ctx))
      && (forall i :: 0 <= i < |r| && r[i].appId != appId ==> r[i] in links)
  {
    var kept := KeptLinks(links, appId, ctx);
    var added := NewLinks(entries, appId, ctx);
    var r := kept + added;
    Seqs.FilterAt(links, KeptTest(appId, ctx));
    NewLinksExact(entries, appId, ctx);
    forall j | 0 <= j < |added| ensures added[j].appId == appId {
      assert FromAccepted(entries, appId, ctx, added[j]);
    }
    forall j | |kept| <= j < |r| ensures r[j].appId == appId {
      assert r[j] == added[j - |kept|];
    }
    forall i | 0 <= i < |r| && r[i].appId != appId ensures r[i] in links {
      assert r[i] == kept[i];
    }
  }

  /**
   * The status does not look at which links survive: a request whose only
   * entry is refused still activates the slot, which is then left without
   * a link to any of the user's medications.
   */
  lemma ActivatesWithoutLinks(links: seq<Link>, appId: int, ctx: LinkContext)
    ensures var on := Bool(true);
      var req := UpdateRequest(None, Null, Some([on, on, on, on, on, on, on]), Some([MedEntry(Int(0), Some(1.0))]));
      && RequestedStatus(req) == 1
      && NewLinks(req.medications.value, appId, ctx) == []
      && var after := LinksAfter(links, appId, req, ctx);
      forall i :: 0 <= i < |after| ==> !(after[i].appId == appId && MedicationOwned(ctx.medications, ctx.connects, after[i].medicationId, ctx.userId))
  {
    var on := Bool(true);
    var days: DayValues := [on, on, on, on, on, on, on];
    var entries := [MedEntry(Int(0), Some(1.0))];
    var req := UpdateRequest(None, Null, Some(days), Some(entries));
    assert Truthy(days[0]);
    assert RequestedStatus(req) == 1;
    assert entries[..0] == [];
    assert !EntryAccepted(ctx, entries[0]);
    assert NewLinks(entries, appId, ctx) == [];
    var kept := KeptLinks(links, appId, ctx);
    Seqs.FilterAt(links, KeptTest(appId, ctx));
    assert LinksAfter(links, appId, req, ctx) == kept + [];
    assert kept + [] == kept;
  }

  /**
   * The handler.  appIdParam is the query's app_id (Null when absent), body is
   * the decoded JSON (None when it does not parse), fault stands for a
   * database error inside the transaction.  Ok carries the new status.
   */
  method Update(s: Store, userId: int, appIdParam: Value, body: Option<UpdateRequest>, fault: bool) returns (r: Reply<int>)
    requires s.Valid()
    modifies s`apps, s`dayApps, s`links
    ensures s.Valid()
    ensures r.Fail? ==> unchanged(s)
    ensures ToInt(appIdParam) <= 0 ==> r == Fail(Unprocessable)
    ensures ToInt(appIdParam) > 0 && !AppOwned(old(s.apps), old(s.connects), ToInt(appIdParam), userId) ==> r == Fail(Forbidden)
    ensures ToInt(appIdParam) > 0 && AppOwned(old(s.apps), old(s.connects), ToInt(appIdParam), userId) ==>
      && (body.None? ==> r == Fail(Unprocessable))
      && (body.Some? && fault ==> r == Fail(ServerError))
      && (body.Some? && !fault ==> r.Ok?)
    ensures r.Ok? ==>
      var appId := ToInt(appIdParam);
      && appId > 0 && AppOwned(old(s.apps), old(s.connects), appId, userId) && body.Some? && !fault
      && var idx := SlotIndex(old(s.apps), appId).value;
      && var slot := UpdatedSlot(old(s.apps)[idx], body.value);
      && r.data == RequestedStatus(body.value)
      && s.apps == old(s.apps)[idx := slot]
      && s.dayApps == DaysAfter(old(s.dayApps), appId, body.value)
      && s.links == LinksAfter(old(s.links), appId, body.value,
                               LinkContext(s.medications, s.connects, s.medicationTimings, userId, slot.pillSlot))
  {
    var appId := ToInt(appIdParam);
    if appId <= 0 {
      return Fail(Unprocessable);
    }
    if !AppOwned(s.apps, s.connects, appId, userId) {
      return Fail(Forbidden);
    }
    if body.None? {
      return Fail(Unprocessable);
    }
    if fault {
      return Fail(ServerError);
    }
    var idx := SlotIndex(s.apps, appId).value;
    Apply(s, userId, appId, idx, body.value);
    r := Ok(RequestedStatus(body.value));
  }

  /** The writes of the transaction, in the order the handler issues them. */
  method Apply(s: Store, userId: int, appId: int, idx: nat, req: UpdateRequest)
    requires s.Valid()
    requires idx < |s.apps| && s.apps[idx].id == appId
    modifies s`apps, s`dayApps, s`links
    ensures s.Valid()
    ensures s.apps == old(s.apps)[idx := UpdatedSlot(old(s.apps)[idx], req)]
    ensures s.dayApps == DaysAfter(old(s.dayApps), appId, req)
    ensures s.links == LinksAfter(old(s.links), appId, req,
                                  LinkContext(s.medications, s.connects, s.medicationTimings, userId, s.apps[idx].pillSlot))
  {
    var slot := UpdatedSlot(s.apps[idx], req);
    SetSlot(s, idx, slot);
    if req.days.Some? {
      s.dayApps := s.dayApps[appId := DayFlagsOf(req.days.value)];
    }
    if req.medications.Some? {
      var ctx := LinkContext(s.medications, s.connects, s.medicationTimings, userId, slot.pillSlot);
      ReplaceLinks(s, appId, req.medications.value, ctx);
    }
  }

  /** An UPDATE app ... WHERE app_id = ? that keeps the slot's id and connection. */
  method SetSlot(s: Store, idx: nat, slot: Slot)
    requires s.Valid()
    requires idx < |s.apps| && slot.id == s.apps[idx].id && slot.connectId == s.apps[idx].connectId
    modifies s`apps
    ensures s.Valid()
    ensures s.apps == old(s.apps)[idx := slot]
  {
    SameSlotKeysKeepInvariant(s.connects, s.apps, s.apps[idx := slot], s.medications, s.events,
                              s.nextConnectId, s.nextAppId, s.nextMedicationId, s.nextEventId);
    s.apps := s.apps[idx := slot];
  }

  /** The DELETE of the slot's links to the user's medications, then the foreach of conditional INSERTs. */
  method ReplaceLinks(s: Store, appId: int, entries: seq<MedEntry>, ctx: LinkContext)
    modifies s`links
    ensures s.links == KeptLinks(old(s.links), appId, ctx) + NewLinks(entries, appId, ctx)
  {
    var kept := KeptLinks(s.links, appId, ctx);
    s.links := kept;
    var i := 0;
    while i < |entries|
      invariant 0 <= i <= |entries|
      invariant s.links == kept + NewLinks(entries[..i], appId, ctx)
    {
      var e := entries[i];
      assert entries[..i + 1][..i] == entries[..i];
      if EntryAccepted(ctx, e) {
        s.links := s.links + [LinkOf(appId, e)];
      }
      i := i + 1;
    }
    assert entries[..i] == entries;
  }
}
