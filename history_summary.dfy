/**
 * GET /history/summary: adherence statistics of the caller's connection.
 * Every aggregate runs over the same selection of dose events: the
 * connection's events inside the requested date window.
 */
module HistorySummary {
  import opened Wrappers
  import opened Strings
  import opened Php
  import opened Tables
  import Seqs
  import Esp32Post

  // ---------------------------------------------------------------------------
  // The date window

  /** BETWEEN two dates (as day numbers), the last n days before now, or no condition. */
  datatype DateFilter = Between(startDay: int, endDay: int) | Since(days: nat) | Everything

  /** The query string, each parameter None when absent. */
  datatype SummaryQuery = SummaryQuery(period: Option<string>, startDate: Option<string>, endDate: Option<string>)

  /** NOW() in seconds, and the day numbers the database reads start_date and end_date as. */
  datatype Calendar = Calendar(now: int, startDay: int, endDay: int)

  /** The period parameter, 'all' when it is absent or null. */
  function PeriodOf(q: SummaryQuery): string
  {
    if q.period.Some? then q.period.value else "all"
  }

  predicate HasRange(q: SummaryQuery)
  {
    q.startDate.Some? && !EmptyString(q.startDate.value) && q.endDate.Some? && !EmptyString(q.endDate.value)
  }

  /** The date condition: an explicit range wins over period; 'month' is 30 days, 'week' 7, anything else none. */
  function FilterOf(q: SummaryQuery, cal: Calendar): (r: DateFilter)
    ensures HasRange(q) ==> r == Between(cal.startDay, cal.endDay)
    ensures !HasRange(q) && PeriodOf(q) == "month" ==> r == Since(30)
    ensures !HasRange(q) && PeriodOf(q) == "week" ==> r == Since(7)
    ensures r.Everything? <==> !HasRange(q) && PeriodOf(q) != "month" && PeriodOf(q) != "week"
  {
    if HasRange(q) then Between(cal.startDay, cal.endDay)
    else if PeriodOf(q) == "month" then Since(30)
    else if PeriodOf(q) == "week" then Since(7)
    else Everything
  }

  /** DATE(t): the day number of a timestamp. */
  function DayOf(t: int): int
  {
    t / 86400
  }

  predicate InWindow(f: DateFilter, cal: Calendar, e: DoseEvent)
  {
    match f
    case Between(a, b) => a <= DayOf(e.scheduledTime) <= b
    case Since(n) => e.scheduledTime >= cal.now - n * 86400
    case Everything => true
  }

  function SelectTest(connectId: int, f: DateFilter, cal: Calendar): DoseEvent -> bool
  {
    (e: DoseEvent) => e.connectId == connectId && InWindow(f, cal, e)
  }

  /** WHERE rm.connect_id = ? plus the date condition. */
  function Selected(events: seq<DoseEvent>, connectId: int, f: DateFilter, cal: Calendar): seq<DoseEvent>
  {
    Seqs.Filter(events, SelectTest(connectId, f, cal))
  }

  /** Every aggregate sees exactly the connection's events inside the window, nothing of another connection. */
  lemma SelectedExact(events: seq<DoseEvent>, connectId: int, f: DateFilter, cal: Calendar)
    ensures forall e :: e in Selected(events, connectId, f, cal) <==> e in events && e.connectId == connectId && InWindow(f, cal, e)
    ensures f.Everything? ==> forall e :: e in Selected(events, connectId, f, cal) <==> e in events && e.connectId == connectId
  {
  }

  /** A narrower window never admits more: the last week is inside the last month. */
  lemma WeekInsideMonth(events: seq<DoseEvent>, connectId: int, cal: Calendar)
    ensures forall e :: e in Selected(events, connectId, Since(7), cal) ==> e in Selected(events, connectId, Since(30), cal)
  {
  }

  // ---------------------------------------------------------------------------
  // Counts and the compliance rate

  /**
   * ROUND(taken * 100.0 / NULLIF(total, 0), 2), as hundredths of a percent:
   * the nearest integer to taken·10000/total, halves rounded up, and 0 when
   * there is nothing to count.
   */
  function Rate(taken: nat, total: nat): (r: int)
  {
    if total == 0 then 0 else (taken * 20000 + total) / (total * 2)
  }

  /** The rate is the nearest number of hundredths: it is off from taken·10000/total by at most half a hundredth. */
  lemma RateNearest(taken: nat, total: nat)
    requires total > 0
    ensures total + 2 * (Rate(taken, total) * total - taken * 10000) > 0
    ensures 2 * (Rate(taken, total) * total - taken * 10000) <= total
  {
    var n, d := taken * 20000 + total, total * 2;
    var q, m := n / d, n % d;
    assert q == Rate(taken, total);
    assert n == d * q + m && 0 <= m < d;
    assert d * q == 2 * (q * total);
  }

  lemma MulMono(a: int, b: int, c: nat)
    requires a <= b
    ensures a * c <= b * c
  {
  }

  /** The rate lies within 0..10000; it is 0 when nothing was taken and 10000 when everything was. */
  lemma RateBounds(taken: nat, total: nat)
    requires taken <= total
    ensures total == 0 ==> Rate(taken, total) == 0
    ensures 0 <= Rate(taken, total) <= 10000
    ensures taken == 0 ==> Rate(taken, total) == 0
    ensures taken == total ==> Rate(taken, total) == 10000 || total == 0
  {
    if total > 0 {
      RateNearest(taken, total);
      var q := Rate(taken, total);
      if q < 0 {
        MulMono(q, -1, total);
      }
      if q > 10000 {
        MulMono(10001, q, total);
      }
      if taken == 0 && q > 0 {
        MulMono(1, q, total);
      }
      if taken == total && q < 10000 {
        MulMono(q, 9999, total);
      }
    }
  }

  predicate IsTaken(e: DoseEvent) { e.status == "taken" }
  predicate NotTaken(e: DoseEvent) { e.status != "taken" }

  /** COUNT(*), the two SUM(CASE ...) columns and the rate; rate is in hundredths of a percent. */
  datatype Counts = Counts(total: nat, taken: nat, missed: nat, rate: int)

  function CountsOf(xs: seq<DoseEvent>): (r: Counts)
    ensures r.total == |xs| && r.taken + r.missed == r.total
    ensures r.taken == Seqs.Count(xs, IsTaken) && r.missed == Seqs.Count(xs, NotTaken)
    ensures r.rate == Rate(r.taken, r.total) && 0 <= r.rate <= 10000
  {
    Seqs.CountSplit(xs, IsTaken, NotTaken);
    var taken := Seqs.Count(xs, IsTaken);
    RateBounds(taken, |xs|);
    Counts(|xs|, taken, Seqs.Count(xs, NotTaken), Rate(taken, |xs|))
  }

  // ---------------------------------------------------------------------------
  // Timing breakdown

  /** One row of the timing breakdown. */
  datatype TimingRow = TimingRow(timingId: int, timing: string, counts: Counts)

  function TimingById(timings: seq<Timing>, id: int): (r: Option<Timing>)
    ensures r.None? <==> forall i :: 0 <= i < |timings| ==> timings[i].id != id
    ensures r.Some? ==> r.value in timings && r.value.id == id
  {
    Seqs.FindFirst(timings, (t: Timing) => t.id == id)
  }

  /** JOIN timing t ON rm.timing_id = t.timing_id: only events whose timing exists. */
  function JoinsTiming(timings: seq<Timing>): DoseEvent -> bool
  {
    (e: DoseEvent) => TimingById(timings, e.timingId).Some?
  }

  function TimingIdOf(e: DoseEvent): int { e.timingId }

  function WithTiming(id: int): DoseEvent -> bool
  {
    (e: DoseEvent) => e.timingId == id
  }

  function TimingRowOf(sel: seq<DoseEvent>, timings: seq<Timing>, id: int): TimingRow
  {
    var name := match TimingById(timings, id) case Some(t) => t.name case None => "";
    TimingRow(id, name, CountsOf(Seqs.Filter(sel, WithTiming(id))))
  }

  /** The timing ids of the groups: each id of a selected event that joins a timing, once, ascending. */
  function TimingIds(sel: seq<DoseEvent>, timings: seq<Timing>): seq<int>
  {
    Seqs.GroupKeys(IdsOf(Seqs.Filter(sel, JoinsTiming(timings)), TimingIdOf))
  }

  /** GROUP BY t.timing_id ORDER BY t.timing_id over the selected events that join a timing. */
  function Breakdown(sel: seq<DoseEvent>, timings: seq<Timing>): seq<TimingRow>
  {
    var ids := TimingIds(sel, timings);
    seq(|ids|, i requires 0 <= i < |ids| => TimingRowOf(sel, timings, ids[i]))
  }

  /** The groups are exactly the timing ids that have a selected event and exist in the timing table, ascending. */
  lemma TimingIdsExact(sel: seq<DoseEvent>, timings: seq<Timing>)
    ensures Seqs.StrictlyAscending(TimingIds(sel, timings))
    ensures forall id :: id in TimingIds(sel, timings) <==>
      (exists e :: e in sel && e.timingId == id) && TimingById(timings, id).Some?
  {
    var joined := Seqs.Filter(sel, JoinsTiming(timings));
    IdsOfMembers(joined, TimingIdOf);
    forall id ensures id in TimingIds(sel, timings) <==> (exists e :: e in sel && e.timingId == id) && TimingById(timings, id).Some? {
      if e :| e in sel && e.timingId == id && TimingById(timings, id).Some? {
        assert e in joined && TimingIdOf(e) == id;
      }
    }
  }

  /**
   * One row per group in that order, each counting exactly that timing's
   * selected events (at least one) and carrying the timing's name.
   */
  lemma BreakdownExact(sel: seq<DoseEvent>, timings: seq<Timing>)
    ensures var rows := Breakdown(sel, timings);
      var ids := TimingIds(sel, timings);
      && |rows| == |ids|
      && (forall i, j :: 0 <= i < j < |rows| ==> rows[i].timingId < rows[j].timingId)
      && (forall i :: 0 <= i < |rows| ==>
            && rows[i].timingId == ids[i]
            && rows[i].counts == CountsOf(Seqs.Filter(sel, WithTiming(ids[i])))
            && rows[i].counts.total > 0
            && TimingById(timings, ids[i]).Some?
            && rows[i].timing == TimingById(timings, ids[i]).value.name)
  {
    var ids := TimingIds(sel, timings);
    var rows := Breakdown(sel, timings);
    TimingIdsExact(sel, timings);
    forall i | 0 <= i < |rows|
      ensures rows[i].timingId == ids[i] && rows[i].counts.total > 0 && TimingById(timings, ids[i]).Some?
    {
      assert ids[i] in ids;
      var e :| e in sel && e.timingId == ids[i];
      assert e in Seqs.Filter(sel, WithTiming(ids[i]));
    }
  }

  // ---------------------------------------------------------------------------
  // Daily trend

  /** One row of the trend: a day, its Thai weekday name, and its counts. */
  datatype TrendRow = TrendRow(date: int, dayName: string, total: nat, taken: nat, rate: int)

  /** DAYOFWEEK(): day 0 of the epoch is a Thursday; the names start on Sunday. */
  function WeekdayName(day: int): string
  {
    Esp32Post.ThaiDays[(day + 4) % 7]
  }

  function NegDayOf(e: DoseEvent): int { -DayOf(e.scheduledTime) }

  function OnDay(day: int): DoseEvent -> bool
  {
    (e: DoseEvent) => DayOf(e.scheduledTime) == day
  }

  function TrendRowOf(sel: seq<DoseEvent>, day: int): TrendRow
  {
    var c := CountsOf(Seqs.Filter(sel, OnDay(day)));
    TrendRow(day, WeekdayName(day), c.total, c.taken, c.rate)
  }

  /** The days of the groups: each day of a selected event, once, newest first. */
  function TrendDays(sel: seq<DoseEvent>): seq<int>
  {
    var ks := Seqs.GroupKeys(IdsOf(sel, NegDayOf));
    seq(|ks|, i requires 0 <= i < |ks| => -ks[i])
  }

  /** GROUP BY DATE(rm.time) ORDER BY date DESC. */
  function Trend(sel: seq<DoseEvent>): seq<TrendRow>
  {
    var days := TrendDays(sel);
    seq(|days|, i requires 0 <= i < |days| => TrendRowOf(sel, days[i]))
  }

  /** The trend's days are exactly the days with a selected event, strictly newest first. */
  lemma TrendDaysExact(sel: seq<DoseEvent>)
    ensures forall i, j :: 0 <= i < j < |TrendDays(sel)| ==> TrendDays(sel)[i] > TrendDays(sel)[j]
    ensures forall d :: d in TrendDays(sel) <==> exists e :: e in sel && DayOf(e.scheduledTime) == d
  {
    var ks := Seqs.GroupKeys(IdsOf(sel, NegDayOf));
    var days := TrendDays(sel);
    IdsOfMembers(sel, NegDayOf);
    forall d ensures d in days <==> exists e :: e in sel && DayOf(e.scheduledTime) == d {
      if d in days {
        var i :| 0 <= i < |days| && days[i] == d;
        assert ks[i] in ks;
      }
      if e :| e in sel && DayOf(e.scheduledTime) == d {
        assert NegDayOf(e) == -d;
        assert -d in IdsOf(sel, NegDayOf);
        assert -d in ks;
        var i :| 0 <= i < |ks| && ks[i] == -d;
        assert days[i] == d;
      }
    }
  }

  /** One row per day that has a selected event, newest first, each named by its weekday and counting at least one event. */
  lemma TrendExact(sel: seq<DoseEvent>)
    ensures var rows := Trend(sel);
      && |rows| == |TrendDays(sel)|
      && (forall i, j :: 0 <= i < j < |rows| ==> rows[i].date > rows[j].date)
      && (forall i :: 0 <= i < |rows| ==>
            rows[i].date == TrendDays(sel)[i] && rows[i].dayName == WeekdayName(rows[i].date) && rows[i].total > 0)
  {
    var days := TrendDays(sel);
    var rows := Trend(sel);
    TrendDaysExact(sel);
    forall i | 0 <= i < |rows| ensures rows[i].date == days[i] && rows[i].total > 0 {
      assert days[i] in days;
      var e :| e in sel && DayOf(e.scheduledTime) == days[i];
      assert e in Seqs.Filter(sel, OnDay(days[i]));
    }
  }

  // ---------------------------------------------------------------------------
  // Top medications

  /** One row of the join with medication_snapshot: the snapshot's name and whether its event was taken. */
  datatype Dose = Dose(name: string, taken: bool)

  function EventById(sel: seq<DoseEvent>, id: int): (r: Option<DoseEvent>)
    ensures r.None? <==> forall i :: 0 <= i < |sel| ==> sel[i].id != id
    ensures r.Some? ==> r.value in sel && r.value.id == id
  {
    Seqs.FindFirst(sel, (e: DoseEvent) => e.id == id)
  }

  /** JOIN medication_snapshot ms ON rm.reminder_medical_id = ms.reminder_medical_id, one row per snapshot of a selected event. */
  function Doses(sel: seq<DoseEvent>, snapshots: seq<Snapshot>): (r: seq<Dose>)
    ensures |r| <= |snapshots|
    ensures forall d :: d in r ==> exists k :: 0 <= k < |snapshots| && snapshots[k].name == d.name && EventById(sel, snapshots[k].eventId).Some?
  {
    if |snapshots| == 0 then []
    else
      var init := Doses(sel, snapshots[..|snapshots| - 1]);
      var last := snapshots[|snapshots| - 1];
      assert forall k :: 0 <= k < |snapshots| - 1 ==> snapshots[..|snapshots| - 1][k] == snapshots[k];
      match EventById(sel, last.eventId)
      case None => init
      case Some(e) => init + [Dose(last.name, IsTaken(e))]
  }

  /** One row of top_medications; rate in hundredths of a percent. */
  datatype MedRow = MedRow(name: string, totalTimes: nat, takenTimes: nat, rate: int)

  function Named(name: string): Dose -> bool
  {
    (d: Dose) => d.name == name
  }

  predicate DoseTaken(d: Dose) { d.taken }

  function MedRowOf(doses: seq<Dose>, name: string): (r: MedRow)
    ensures r.name == name && r.takenTimes <= r.totalTimes
  {
    var mine := Seqs.Filter(doses, Named(name));
    Seqs.CountSplit(mine, DoseTaken, (d: Dose) => !d.taken);
    var taken := Seqs.Count(mine, DoseTaken);
    MedRow(name, |mine|, taken, Rate(taken, |mine|))
  }

  function NameOf(d: Dose): string { d.name }

  /** The names of the groups: each snapshot name of the join, once, at its first occurrence. */
  function GroupNames(doses: seq<Dose>): seq<string>
  {
    Seqs.Dedup(seq(|doses|, i requires 0 <= i < |doses| => doses[i].name))
  }

  /** GROUP BY ms.medication_name: one row per distinct snapshot name. */
  function MedGroups(doses: seq<Dose>): seq<MedRow>
  {
    var names := GroupNames(doses);
    seq(|names|, i requires 0 <= i < |names| => MedRowOf(doses, names[i]))
  }

  /** ORDER BY total_times DESC, compliance_rate DESC. */
  function MedOrder(m: MedRow): (int, int) { (m.totalTimes, m.rate) }

  /** ... LIMIT 5. */
  function TopMedications(doses: seq<Dose>): seq<MedRow>
  {
    var sorted := Seqs.SortDesc(MedGroups(doses), MedOrder);
    if |sorted| <= 5 then sorted else sorted[..5]
  }

  /** At most five rows, ordered by total then rate, each of them a group of the join. */
  lemma TopMedicationsShape(doses: seq<Dose>)
    ensures var top := TopMedications(doses);
      var groups := MedGroups(doses);
      && |top| == (if |groups| <= 5 then |groups| else 5)
      && Seqs.SortedDesc(top, MedOrder)
      && (forall m :: m in top ==> m in groups)
  {
    var groups := MedGroups(doses);
    var sorted := Seqs.SortDesc(groups, MedOrder);
    var top := TopMedications(doses);
    forall m | m in top ensures m in groups {
      assert m in sorted;
      assert m in multiset(sorted);
    }
  }

  /** No group left out of the five ranks above the last row kept. */
  lemma TopMedicationsAreTop(doses: seq<Dose>, m: MedRow)
    requires m in MedGroups(doses) && m !in TopMedications(doses)
    ensures |TopMedications(doses)| == 5
    ensures Seqs.KeyGe(MedOrder(TopMedications(doses)[4]), MedOrder(m))
  {
    var sorted := Seqs.SortDesc(MedGroups(doses), MedOrder);
    assert m in multiset(sorted);
    Seqs.LimitLeavesLower(sorted, MedOrder, 5, m);
    assert TopMedications(doses)[4] == sorted[4];
  }

  /** The group names are distinct and are exactly the names in the join. */
  lemma GroupNamesExact(doses: seq<Dose>)
    ensures Seqs.Distinct(GroupNames(doses))
    ensures forall n :: n in GroupNames(doses) <==> exists d :: d in doses && d.name == n
  {
    var all := seq(|doses|, i requires 0 <= i < |doses| => doses[i].name);
    var names := GroupNames(doses);
    forall n ensures n in names <==> exists d :: d in doses && d.name == n {
      if n in names {
        var k :| 0 <= k < |all| && all[k] == n;
        assert doses[k] in doses;
      }
      if d :| d in doses && d.name == n {
        var k :| 0 <= k < |doses| && doses[k] == d;
        assert all[k] == n;
      }
    }
  }

  /** Each group counts exactly the joined rows of its name, at least one. */
  lemma MedGroupsExact(doses: seq<Dose>)
    ensures var groups := MedGroups(doses);
      var names := GroupNames(doses);
      && |groups| == |names|
      && (forall i :: 0 <= i < |groups| ==>
            groups[i].name == names[i] && groups[i].totalTimes == Seqs.Count(doses, Named(names[i])) > 0)
  {
    var names := GroupNames(doses);
    var groups := MedGroups(doses);
    GroupNamesExact(doses);
    forall i | 0 <= i < |groups| ensures groups[i].name == names[i] && Seqs.Count(doses, Named(names[i])) > 0 {
      assert names[i] in names;
      var d :| d in doses && d.name == names[i];
      assert d in Seqs.Filter(doses, Named(names[i]));
    }
  }

  // ---------------------------------------------------------------------------
  // The handler

  datatype Summary = Summary(summary: Counts, timingBreakdown: seq<TimingRow>, weeklyTrend: Option<seq<TrendRow>>,
                             topMedications: seq<MedRow>)

  /** The handler: 403 without a connection id; otherwise the four aggregates over one selection. */
  function GetSummary(events: seq<DoseEvent>, snapshots: seq<Snapshot>, timings: seq<Timing>,
                      connectId: int, q: SummaryQuery, cal: Calendar): (r: Reply<Summary>)
    ensures connectId == 0 <==> r == Fail(Forbidden)
    ensures r.Ok? ==>
      var sel := Selected(events, connectId, FilterOf(q, cal), cal);
      && r.data.summary == CountsOf(sel)
      && r.data.timingBreakdown == Breakdown(sel, timings)
      && (r.data.weeklyTrend.Some? <==> PeriodOf(q) != "all")
      && (r.data.weeklyTrend.Some? ==> r.data.weeklyTrend.value == Trend(sel))
      && r.data.topMedications == TopMedications(Doses(sel, snapshots))
  {
    if connectId == 0 then Fail(Forbidden)
    else
      var sel := Selected(events, connectId, FilterOf(q, cal), cal);
      var trend := if PeriodOf(q) != "all" then Some(Trend(sel)) else None;
      Ok(Summary(CountsOf(sel), Breakdown(sel, timings), trend, TopMedications(Doses(sel, snapshots))))
  }

  /** An explicit date range with a period of 'all' still gets no trend: the trend follows period alone. */
  lemma RangeWithoutTrend(events: seq<DoseEvent>, snapshots: seq<Snapshot>, timings: seq<Timing>,
                          connectId: int, q: SummaryQuery, cal: Calendar)
    requires connectId != 0 && HasRange(q) && q.period.None?
    ensures GetSummary(events, snapshots, timings, connectId, q, cal).Ok?
    ensures GetSummary(events, snapshots, timings, connectId, q, cal).data.weeklyTrend.None?
    ensures FilterOf(q, cal).Between?
  {
  }
}
