/**
 * PUT /reminders/status: switches one reminder slot of the caller's
 * connection on or off.  A slot may be switched on only when it dispenses at
 * least one medication and is scheduled on at least one weekday; a refused
 * request leaves the slot as it was.
 */
module ReminderStatus {
  import opened Wrappers
  import opened Php
  import opened Tables
  import Seqs

  predicate HasLink(links: seq<Link>, appId: int)
  {
    exists j :: 0 <= j < |links| && links[j].appId == appId
  }

  predicate HasDay(dayApps: map<int, DayFlags>, appId: int)
  {
    appId in dayApps && AnyDay(dayApps[appId])
  }

  /** The slot dispenses something and is scheduled on some day. */
  predicate Ready(links: seq<Link>, dayApps: map<int, DayFlags>, appId: int)
  {
    HasLink(links, appId) && HasDay(dayApps, appId)
  }

  /** The activation rule, as an invariant of the tables. */
  predicate ActiveReady(apps: seq<Slot>, links: seq<Link>, dayApps: map<int, DayFlags>)
  {
    forall i :: 0 <= i < |apps| && apps[i].status == 1 ==> Ready(links, dayApps, apps[i].id)
  }

  datatype Reason = NoMedication | NoActiveDay

  datatype StatusResult =
    | Changed(appId: int, pillSlot: int, newStatus: int, statusChanged: bool)
    | CannotActivate(reasons: seq<Reason>)       // a 422 whose message names the reasons
    | Error(code: int)

  function Code(r: StatusResult): int
  {
    match r
    case Changed(_, _, _, _) => 200
    case CannotActivate(_) => Unprocessable
    case Error(c) => c
  }

  /** The unmet conditions, medication first. */
  function Reasons(hasMedication: bool, hasActiveDay: bool): (r: seq<Reason>)
    ensures NoMedication in r <==> !hasMedication
    ensures NoActiveDay in r <==> !hasActiveDay
    ensures |r| > 0 <==> !hasMedication || !hasActiveDay
    ensures |r| == 2 ==> r == [NoMedication, NoActiveDay]
  {
    (if hasMedication then [] else [NoMedication]) + (if hasActiveDay then [] else [NoActiveDay])
  }

  /** The accepted spellings of a status. */
  const StatusWords: seq<Value> := [Int(0), Int(1), Str("0"), Str("1"), Bool(false), Bool(true)]

  /** The status guard as written: a loose in_array(), then truthiness. */
  function ParseStatusAsWritten(v: Value): Option<int>
  {
    if InArrayLoose(v, StatusWords) then Some(if Truthy(v) then 1 else 0) else None
  }

  /** Because true and false are in the list, the loose guard lets every value through. */
  lemma LooseStatusGuardAcceptsAll(v: Value)
    ensures ParseStatusAsWritten(v).Some?
  {
    assert StatusWords[5] == Bool(true) && StatusWords[4] == Bool(false);
    BooleansMatchEverything(v, StatusWords);
  }

  /** "yes" is taken as 1 by the guard as written and refused by the intended one. */
  lemma LooseStatusGuardReadsYes()
    ensures ParseStatusAsWritten(Str("yes")) == Some(1)
    ensures ParseStatus(Str("yes")) == None
  {
    LooseStatusGuardAcceptsAll(Str("yes"));
  }

  /** The intended guard: only the six listed values, read as 0 or 1. */
  function ParseStatus(v: Value): (r: Option<int>)
    ensures r == Some(1) <==> v == Int(1) || v == Str("1") || v == Bool(true)
    ensures r == Some(0) <==> v == Int(0) || v == Str("0") || v == Bool(false)
    ensures r.None? <==> v !in StatusWords
  {
    if InArrayStrict(v, StatusWords) then Some(if Truthy(v) then 1 else 0) else None
  }

  /**
   * The checks on the token and the request before any read: a connection is
   * required, pill_slot and status must be set, pill_slot must be 1 to 7 and
   * the status one of the accepted values.  Ok carries (pill_slot, status).
   */
  function Requested(connectId: int, pillSlot: Value, status: Value): (r: Reply<(int, int)>)
    ensures connectId == 0 ==> r == Fail(Forbidden)
    ensures connectId != 0 && (pillSlot.Null? || status.Null?) ==> r == Fail(Unprocessable)
    ensures r.Ok? <==> connectId != 0 && !pillSlot.Null? && 1 <= ToInt(pillSlot) <= 7 && status in StatusWords
    ensures r.Ok? ==> r.data.0 == ToInt(pillSlot) && (r.data.1 == 1 <==> Truthy(status)) && (r.data.1 == 0 || r.data.1 == 1)
    ensures r.Fail? ==> r.code == Forbidden || r.code == Unprocessable
  {
    if connectId == 0 then Fail(Forbidden)
    else if pillSlot.Null? || status.Null? then Fail(Unprocessable)
    else
      var p := ToInt(pillSlot);
      if p < 1 || p > 7 then Fail(Unprocessable)
      else match ParseStatus(status)
        case None => Fail(Unprocessable)
        case Some(n) => Ok((p, n))
  }

  /** The slot of the connection with that pill_slot, as the JOIN finds it. */
  function SlotOf(apps: seq<Slot>, connectId: int, pillSlot: int): (r: Option<nat>)
    ensures r.Some? ==> r.value < |apps| && apps[r.value].connectId == connectId && apps[r.value].pillSlot == pillSlot
    ensures r.None? <==> forall i :: 0 <= i < |apps| ==> !(apps[i].connectId == connectId && apps[i].pillSlot == pillSlot)
  {
    Seqs.FindIndex(apps, (a: Slot) => a.pillSlot == pillSlot && a.connectId == connectId)
  }

  /** The foreach over the day columns, stopping at the first '1'. */
  method HasActiveDay(days: DayFlags) returns (r: bool)
    ensures r <==> AnyDay(days)
  {
    r := false;
    var k := 0;
    while k < 7
      invariant 0 <= k <= 7
      invariant !r ==> forall j :: 0 <= j < k ==> !days[j]
      invariant r ==> AnyDay(days)
    {
      if days[k] {
        r := true;
        break;
      }
      k := k + 1;
    }
  }

  /** The two activation checks: COUNT(*) of the slot's links, then its day row. */
  method ActivationReasons(s: Store, appId: int) returns (reasons: seq<Reason>)
    ensures reasons == Reasons(HasLink(s.links, appId), HasDay(s.dayApps, appId))
    ensures |reasons| == 0 <==> Ready(s.links, s.dayApps, appId)
  {
    var hasMedication := Seqs.Count(s.links, (l: Link) => l.appId == appId) > 0;
    Seqs.CountPositive(s.links, (l: Link) => l.appId == appId);
    var hasActiveDay := false;
    if appId in s.dayApps {
      hasActiveDay := HasActiveDay(s.dayApps[appId]);
    }
    reasons := Reasons(hasMedication, hasActiveDay);
  }

  /** Switching a slot off, or on when it is ready, keeps every active slot ready. */
  lemma SetStatusKeepsReady(apps: seq<Slot>, links: seq<Link>, dayApps: map<int, DayFlags>, k: nat, status: int)
    requires ActiveReady(apps, links, dayApps) && k < |apps|
    requires status != 1 || Ready(links, dayApps, apps[k].id)
    ensures ActiveReady(apps[k := apps[k].(status := status)], links, dayApps)
  {
    var apps2 := apps[k := apps[k].(status := status)];
    forall i | 0 <= i < |apps2| && apps2[i].status == 1 ensures Ready(links, dayApps, apps2[i].id) {
      if i != k {
        assert apps2[i] == apps[i];
      }
    }
  }

  /** PDO's rowCount() after an UPDATE on MySQL: the rows whose value changed. */
  function ChangedRows(current: int, requested: int): nat
  {
    if current == requested then 0 else 1
  }

  /** The write step as written: no changed row is taken for a failed update. */
  function StatusWriteAsWritten(current: int, requested: int): Reply<bool>
  {
    if ChangedRows(current, requested) == 0 then Fail(ServerError) else Ok(current != requested)
  }

  /** Re-sending the status a slot already has ends in a server error, and status_changed is never false. */
  lemma ResendFailsAsWritten(current: int, requested: int)
    ensures StatusWriteAsWritten(current, current) == Fail(ServerError)
    ensures StatusWriteAsWritten(current, requested).Ok? ==> StatusWriteAsWritten(current, requested).data
  {
  }

  /** The intended write step: the row exists, so the update matches it and succeeds. */
  function StatusWrite(current: int, requested: int): (r: Reply<bool>)
    ensures r.Ok? && (r.data <==> current != requested)
  {
    Ok(current != requested)
  }

  /**
   * The handler, with the intended guard and write step.  userId and
   * connectId come from the token (0 when the token has no connection);
   * fault is a database error inside the transaction, rolled back and
   * answered 500.
   */
  method SetStatus(s: Store, userId: int, connectId: int, pillSlot: Value, status: Value, fault: bool) returns (r: StatusResult)
    requires s.Valid()
    modifies s`apps
    ensures s.Valid()
    ensures Requested(connectId, pillSlot, status).Fail? ==> r == Error(Requested(connectId, pillSlot, status).code) && s.apps == old(s.apps)
    ensures Requested(connectId, pillSlot, status).Ok? && fault ==> r == Error(ServerError) && s.apps == old(s.apps)
    ensures Requested(connectId, pillSlot, status).Ok? && !fault ==>
      SlotStatusSpec(old(s.apps), s.apps, s.links, s.dayApps, s.OwnedBy(connectId, userId), connectId,
                     Requested(connectId, pillSlot, status).data.0, Requested(connectId, pillSlot, status).data.1, r)
    ensures old(ActiveReady(s.apps, s.links, s.dayApps)) ==> ActiveReady(s.apps, s.links, s.dayApps)
  {
    var req := Requested(connectId, pillSlot, status);
    if req.Fail? {
      return Error(req.code);
    }
    if fault {
      return Error(ServerError);
    }
    r := SetSlotStatus(s, userId, connectId, req.data.0, req.data.1);
    SameSlotKeysKeepInvariant(s.connects, old(s.apps), s.apps, s.medications, s.events,
                              s.nextConnectId, s.nextAppId, s.nextMedicationId, s.nextEventId);
  }

  /** What a status change on a validated request does to the slots. */
  ghost predicate SlotStatusSpec(apps: seq<Slot>, apps2: seq<Slot>, links: seq<Link>, dayApps: map<int, DayFlags>,
                                 owned: bool, connectId: int, pillSlot: int, status: int, r: StatusResult)
  {
    var idx := SlotOf(apps, connectId, pillSlot);
    && (idx.None? || !owned ==> r == Error(NotFound) && apps2 == apps)
    && (idx.Some? && owned ==>
        var app := apps[idx.value];
        if status == 1 && !Ready(links, dayApps, app.id) then
          r == CannotActivate(Reasons(HasLink(links, app.id), HasDay(dayApps, app.id))) && apps2 == apps
        else
          r == Changed(app.id, pillSlot, status, app.status != status) && apps2 == apps[idx.value := app.(status := status)])
  }

  /** The lookup, the activation checks and the UPDATE, on a validated request. */
  method SetSlotStatus(s: Store, userId: int, connectId: int, p: int, ns: int) returns (r: StatusResult)
    requires ns == 0 || ns == 1
    modifies s`apps
    ensures SameSlotKeys(old(s.apps), s.apps)
    ensures SlotStatusSpec(old(s.apps), s.apps, s.links, s.dayApps, s.OwnedBy(connectId, userId), connectId, p, ns, r)
    ensures old(ActiveReady(s.apps, s.links, s.dayApps)) ==> ActiveReady(s.apps, s.links, s.dayApps)
  {
    var idx := SlotOf(s.apps, connectId, p);
    if idx.None? || !s.OwnedBy(connectId, userId) {
      return Error(NotFound);
    }
    var app := s.apps[idx.value];
    if ns == 1 {
      var reasons := ActivationReasons(s, app.id);
      if |reasons| > 0 {
        return CannotActivate(reasons);
      }
    }
    var written := StatusWrite(app.status, ns);
    var apps2 := s.apps[idx.value := app.(status := ns)];
    forall i | 0 <= i < |s.apps| ensures apps2[i].id == s.apps[i].id && apps2[i].connectId == s.apps[i].connectId {
      if i != idx.value {
        assert apps2[i] == s.apps[i];
      }
    }
    assert SameSlotKeys(s.apps, apps2);
    if ActiveReady(s.apps, s.links, s.dayApps) {
      SetStatusKeepsReady(s.apps, s.links, s.dayApps, idx.value, ns);
      assert ActiveReady(apps2, s.links, s.dayApps);
    }
    s.apps := apps2;
    r := Changed(app.id, p, ns, written.data);
  }
}
