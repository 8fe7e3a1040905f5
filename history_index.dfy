/**
 * GET /history: the connection's dose events, newest first, one page at a
 * time, with the display defaults for a missing timing name or day.
 */
module HistoryIndex {
  import opened Wrappers
  import opened Strings
  import opened Php
  import opened Tables
  import Seqs
  import HistorySummary

  /** The page parameter: its integer value, at least 1, and 1 when it is absent. */
  function PageOf(page: Option<string>): (r: int)
    ensures r >= 1
    ensures page.None? ==> r == 1
    ensures page.Some? ==> r == if IntVal(page.value) < 1 then 1 else IntVal(page.value)
  {
    if page.None? then 1 else if IntVal(page.value) < 1 then 1 else IntVal(page.value)
  }

  /** The limit parameter: its integer value clamped to 1..50, and 10 when it is absent. */
  function LimitOf(limit: Option<string>): (r: int)
    ensures 1 <= r <= 50
    ensures limit.None? ==> r == 10
    ensures limit.Some? && 1 <= IntVal(limit.value) <= 50 ==> r == IntVal(limit.value)
    ensures limit.Some? && IntVal(limit.value) < 1 ==> r == 1
    ensures limit.Some? && IntVal(limit.value) > 50 ==> r == 50
  {
    if limit.None? then 10
    else
      var n := IntVal(limit.value);
      if n < 1 then 1 else if n > 50 then 50 else n
  }

  /** ceil(total / limit). */
  function TotalPages(total: nat, limit: int): (r: nat)
    requires limit >= 1
  {
    (total + limit - 1) / limit
  }

  /** The page count is the least number of pages of the given size that hold every item. */
  lemma TotalPagesCeil(total: nat, limit: int)
    requires limit >= 1
    ensures TotalPages(total, limit) * limit >= total
    ensures TotalPages(total, limit) > 0 ==> (TotalPages(total, limit) - 1) * limit < total
    ensures total == 0 <==> TotalPages(total, limit) == 0
  {
    var n := total + limit - 1;
    var q, m := n / limit, n % limit;
    assert n == q * limit + m && 0 <= m < limit;
    assert (q - 1) * limit == q * limit - limit;
  }

  /** has_next: there is a later page exactly when some item lies beyond the current one. */
  lemma HasNextMeansMore(total: nat, limit: int, page: int)
    requires limit >= 1 && page >= 1
    ensures page < TotalPages(total, limit) <==> page * limit < total
  {
    TotalPagesCeil(total, limit);
    var t := TotalPages(total, limit);
    if page < t {
      HistorySummary.MulMono(page, t - 1, limit);
    } else {
      HistorySummary.MulMono(t, page, limit);
    }
  }

  /** The offset of a page: the rows of the pages before it. */
  function Offset(page: int, limit: int): (r: nat)
    requires page >= 1 && limit >= 1
  {
    HistorySummary.MulMono(0, page - 1, limit);
    (page - 1) * limit
  }

  /** One row of the list; receive_time is the actual time. */
  datatype HistoryItem = HistoryItem(id: int, day: string, time: int, receiveTime: int, status: string,
                                     timingId: int, timingName: string)

  datatype Pagination = Pagination(currentPage: int, totalPages: nat, totalItems: nat, itemsPerPage: int,
                                   hasNext: bool, hasPrev: bool)

  datatype HistoryPage = HistoryPage(history: seq<HistoryItem>, pagination: Pagination)

  /** The row with the display defaults: a missing or empty timing name and an empty day are replaced. */
  function ItemOf(e: DoseEvent, timings: seq<Timing>): (r: HistoryItem)
    ensures r.id == e.id && r.time == e.scheduledTime && r.receiveTime == e.actualTime && r.status == e.status
    ensures r.timingId == e.timingId
    ensures EmptyString(e.day) ==> r.day == "ทุกวัน"
    ensures !EmptyString(e.day) ==> r.day == e.day
    ensures match HistorySummary.TimingById(timings, e.timingId)
            case None => r.timingName == "ไม่ระบุมื้อ"
            case Some(t) => r.timingName == if EmptyString(t.name) then "ไม่ระบุมื้อ" else t.name
  {
    var name := match HistorySummary.TimingById(timings, e.timingId) case Some(t) => t.name case None => "";
    HistoryItem(e.id, if EmptyString(e.day) then "ทุกวัน" else e.day, e.scheduledTime, e.actualTime, e.status,
                e.timingId, if EmptyString(name) then "ไม่ระบุมื้อ" else name)
  }

  function OfConnection(connectId: int): DoseEvent -> bool
  {
    (e: DoseEvent) => e.connectId == connectId
  }

  /** ORDER BY rm.time DESC, rm.reminder_medical_id DESC. */
  function Newest(e: DoseEvent): (int, int) { (e.scheduledTime, e.id) }

  /** The connection's events in the listing order. */
  function Ordered(events: seq<DoseEvent>, connectId: int): seq<DoseEvent>
  {
    Seqs.SortDesc(Seqs.Filter(events, OfConnection(connectId)), Newest)
  }

  /** LIMIT limit OFFSET offset over the ordered rows. */
  function PageRows(rows: seq<DoseEvent>, offset: int, limit: int): (r: seq<DoseEvent>)
    requires offset >= 0 && limit >= 1
    ensures |r| == if offset >= |rows| then 0 else if offset + limit <= |rows| then limit else |rows| - offset
    ensures forall k :: 0 <= k < |r| ==> r[k] == rows[offset + k]
  {
    if offset >= |rows| then [] else if offset + limit <= |rows| then rows[offset..offset + limit] else rows[offset..]
  }

  /** The handler: 403 without a connection; otherwise one page and its pagination block. */
  function GetHistory(events: seq<DoseEvent>, timings: seq<Timing>, connectId: int,
                      page: Option<string>, limit: Option<string>): (r: Reply<HistoryPage>)
    ensures connectId == 0 <==> r == Fail(Forbidden)
    ensures r.Ok? ==>
      var p, l := PageOf(page), LimitOf(limit);
      var rows := Ordered(events, connectId);
      var shown := PageRows(rows, Offset(p, l), l);
      && r.data.pagination.currentPage == p && r.data.pagination.itemsPerPage == l
      && r.data.pagination.totalItems == |rows|
      && r.data.pagination.totalPages == TotalPages(|rows|, l)
      && (r.data.pagination.hasNext <==> p < TotalPages(|rows|, l))
      && (r.data.pagination.hasPrev <==> p > 1)
      && |r.data.history| == |shown|
      && forall k :: 0 <= k < |shown| ==> r.data.history[k] == ItemOf(shown[k], timings)
  {
    if connectId == 0 then Fail(Forbidden)
    else
      var p, l := PageOf(page), LimitOf(limit);
      var rows := Ordered(events, connectId);
      var shown := PageRows(rows, Offset(p, l), l);
      var total := |rows|;
      var pages := TotalPages(total, l);
      Ok(HistoryPage(seq(|shown|, k requires 0 <= k < |shown| => ItemOf(shown[k], timings)),
                     Pagination(p, pages, total, l, p < pages, p > 1)))
  }

  /** The listing holds exactly the connection's events, newest first (ties by the higher id), and counts them. */
  lemma OrderedExact(events: seq<DoseEvent>, connectId: int)
    ensures forall e :: e in Ordered(events, connectId) <==> e in events && e.connectId == connectId
    ensures Seqs.SortedDesc(Ordered(events, connectId), Newest)
    ensures |Ordered(events, connectId)| == Seqs.Count(events, OfConnection(connectId))
  {
    var kept := Seqs.Filter(events, OfConnection(connectId));
    var sorted := Ordered(events, connectId);
    forall e ensures e in sorted <==> e in kept {
      assert e in sorted <==> e in multiset(sorted);
      assert e in kept <==> e in multiset(kept);
    }
  }

  /** No row of the listing is skipped by the paging: row k is entry k % limit of page k / limit + 1. */
  lemma RowOnItsPage(rows: seq<DoseEvent>, limit: int, k: nat)
    requires limit >= 1 && k < |rows|
    ensures var p := k / limit + 1;
      var shown := PageRows(rows, Offset(p, limit), limit);
      k % limit < |shown| && shown[k % limit] == rows[k]
  {
    var q, m := k / limit, k % limit;
    assert k == q * limit + m && 0 <= m < limit;
    assert ((q + 1) - 1) * limit == q * limit;
  }

  /** has_next and has_prev as the pages around the current one: a next page shows at least one row. */
  lemma NextPageNotEmpty(events: seq<DoseEvent>, timings: seq<Timing>, connectId: int, page: Option<string>, limit: Option<string>)
    requires GetHistory(events, timings, connectId, page, limit).Ok?
    requires GetHistory(events, timings, connectId, page, limit).data.pagination.hasNext
    ensures var p, l := PageOf(page), LimitOf(limit);
      |PageRows(Ordered(events, connectId), Offset(p + 1, l), l)| > 0
  {
    var p, l := PageOf(page), LimitOf(limit);
    HasNextMeansMore(|Ordered(events, connectId)|, l, p);
    assert Offset(p + 1, l) == p * l;
  }
}
