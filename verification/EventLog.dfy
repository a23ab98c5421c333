/**
 The durable event stream of one agent session: sequence allocation and cursor paging.
 */
module EventLog {
  import opened Options
  import opened Sequences

  datatype Row = Row(number: int, runId: int, payload: int)

  /** The event table of a session; (session, seq) is unique, so it is a map by seq. */
  datatype Log = Log(rows: map<int, Row>, nextEventSeq: int)

  const EMPTY_LOG := Log(map[], 1)

  /** Numbered 1 .. next-1 without gaps. */
  ghost predicate Numbered(log: Log) {
    && log.nextEventSeq >= 1
    && (forall s :: s in log.rows <==> 1 <= s < log.nextEventSeq)
    && (forall s :: s in log.rows ==> log.rows[s].number == s)
  }

  /** `append_event`: whatever seq the event carries, it gets the next one. */
  function Append(log: Log, event: Row): Log {
    Log(log.rows[log.nextEventSeq := event.(number := log.nextEventSeq)], log.nextEventSeq + 1)
  }

  /** The log after events of any runs, in commit order. */
  function Appended(events: seq<Row>): Log {
    if events == [] then EMPTY_LOG else Append(Appended(events[..|events| - 1]), events[|events| - 1])
  }

  /** Any interleaving of runs is numbered 1, 2, ... in commit order, and nothing written
      is lost or changed. */
  lemma {:induction false} AppendedIsNumbered(events: seq<Row>)
    ensures Numbered(Appended(events))
    ensures Appended(events).nextEventSeq == |events| + 1
    ensures forall i :: 0 <= i < |events| ==>
              i + 1 in Appended(events).rows && Appended(events).rows[i + 1] == events[i].(number := i + 1)
  {
    if events != [] { AppendedIsNumbered(events[..|events| - 1]); }
  }

  // ----- Pages -----

  /** `... WHERE seq < hi ORDER BY seq DESC LIMIT k`. */
  function NewestBelow(rows: map<int, Row>, hi: int, k: nat): (found: seq<Row>)
    ensures |found| <= k
    decreases if hi > 0 then hi else 0
  {
    if hi <= 1 || k == 0 then []
    else if hi - 1 in rows then [rows[hi - 1]] + NewestBelow(rows, hi - 1, k - 1)
    else NewestBelow(rows, hi - 1, k)
  }

  datatype Page = Page(events: seq<Row>, hasMore: bool, nextBeforeSeq: Option<int>)

  /** Where an unbounded query starts: every seq is below the next one. */
  function Upper(log: Log, before: Option<int>): int {
    before.GetOr(log.nextEventSeq)
  }

  function Replay(log: Log, before: Option<int>, limit: nat): Page {
    var found := NewestBelow(log.rows, Upper(log, before), limit + 1);
    var hasMore := |found| > limit;
    var selected := Reversed(if hasMore then found[..limit] else found);
    Page(selected, hasMore, if hasMore && selected != [] then Some(selected[0].number) else None)
  }

  /** Rows `lo` to `hi`, the last excluded. */
  function Range(log: Log, lo: int, hi: int): (rows: seq<Row>)
    requires forall s :: lo <= s < hi ==> s in log.rows
    ensures |rows| == if lo <= hi then hi - lo else 0
    ensures forall i :: 0 <= i < |rows| ==> rows[i] == log.rows[lo + i]
    decreases if lo <= hi then hi - lo else 0
  {
    if lo >= hi then [] else Range(log, lo, hi - 1) + [log.rows[hi - 1]]
  }

  lemma {:induction false} NewestOfNumbered(log: Log, hi: int, k: nat)
    requires Numbered(log) && 1 <= hi <= log.nextEventSeq
    ensures |NewestBelow(log.rows, hi, k)| == if k < hi - 1 then k else hi - 1
    ensures forall i :: 0 <= i < |NewestBelow(log.rows, hi, k)| ==>
              hi - 1 - i in log.rows && NewestBelow(log.rows, hi, k)[i] == log.rows[hi - 1 - i]
    decreases hi
  {
    if hi > 1 && k > 0 {
      NewestOfNumbered(log, hi - 1, k - 1);
    }
  }

  /** Where a page starts. */
  function PageStart(hi: int, limit: pos): int {
    if limit < hi - 1 then hi - limit else 1
  }

  lemma PageRows(log: Log, hi: int, limit: pos, selected: seq<Row>)
    requires Numbered(log) && 1 <= hi <= log.nextEventSeq
    requires var found := NewestBelow(log.rows, hi, limit + 1);
             selected == if |found| > limit then found[..limit] else found
    ensures |NewestBelow(log.rows, hi, limit + 1)| > limit <==> limit < hi - 1
    ensures Reversed(selected) == Range(log, PageStart(hi, limit), hi)
  {
    NewestOfNumbered(log, hi, limit + 1);
    var lo := PageStart(hi, limit);
    assert |selected| == hi - lo;
    assert forall i :: 0 <= i < |selected| ==> selected[i] == log.rows[hi - 1 - i];
    forall i | 0 <= i < hi - lo ensures Reversed(selected)[i] == log.rows[lo + i] {
      assert Reversed(selected)[i] == selected[hi - lo - 1 - i];
    }
  }

  /** The cursor a client sent, brought into the range of the log. */
  function Cursor(log: Log, before: Option<int>): int {
    if Upper(log, before) < 1 then 1
    else if Upper(log, before) < log.nextEventSeq then Upper(log, before)
    else log.nextEventSeq
  }

  lemma {:induction false} NothingAbove(log: Log, hi: int, k: nat)
    requires Numbered(log) && log.nextEventSeq <= hi
    ensures NewestBelow(log.rows, hi, k) == NewestBelow(log.rows, log.nextEventSeq, k)
    decreases hi
  {
    if log.nextEventSeq < hi { NothingAbove(log, hi - 1, k); }
  }

  /** The rows of `page` are the block just below row `hi`, oldest first; there are more
      exactly when rows precede the block, and then the next cursor is where it starts. */
  ghost predicate IsBlock(log: Log, page: Page, hi: int, limit: pos)
    requires Numbered(log) && 1 <= hi <= log.nextEventSeq
  {
    && page.events == Range(log, PageStart(hi, limit), hi)
    && page.hasMore == (limit < hi - 1)
    && page.nextBeforeSeq == if page.hasMore then Some(PageStart(hi, limit)) else None
  }

  /** A page of a numbered log is the block of rows just below the cursor, whatever it is. */
  lemma PageIsBlock(log: Log, before: Option<int>, limit: pos)
    requires Numbered(log)
    ensures IsBlock(log, Replay(log, before, limit), Cursor(log, before), limit)
  {
    var hi := Cursor(log, before);
    if log.nextEventSeq < Upper(log, before) { NothingAbove(log, Upper(log, before), limit + 1); }
    var found := NewestBelow(log.rows, hi, limit + 1);
    PageRows(log, hi, limit, if |found| > limit then found[..limit] else found);
  }

  /** `later` contains `log` unchanged. */
  ghost predicate Extended(log: Log, later: Log) {
    && Numbered(later)
    && log.nextEventSeq <= later.nextEventSeq
    && forall s :: s in log.rows ==> s in later.rows && later.rows[s] == log.rows[s]
  }

  lemma RangeJoins(log: Log, later: Log, lo: int, hi: int)
    requires Numbered(log) && Extended(log, later)
    requires 1 <= lo <= hi <= log.nextEventSeq
    ensures Range(log, 1, lo) + Range(later, lo, hi) == Range(log, 1, hi)
    ensures lo == 1 ==> Range(later, lo, hi) == Range(log, 1, hi)
  {}

  // ----- Following the cursor -----

  ghost predicate Grows(history: nat -> Log) {
    Numbered(history(0)) && forall i, j :: i <= j ==> Extended(history(i), history(j))
  }

  /** A client that asks for older pages until there are none, the log being `history(i)`
      at its i-th request, and joins the pages oldest first. */
  ghost function ReadBack(history: nat -> Log, i: nat, before: Option<int>, limit: pos): seq<Row>
    requires Grows(history)
    requires before.Some? ==> 1 <= before.value <= history(i).nextEventSeq
    decreases Upper(history(i), before)
  {
    PageIsBlock(history(i), before, limit);
    var page := Replay(history(i), before, limit);
    if page.hasMore then
      assert page.nextBeforeSeq.value <= history(i).nextEventSeq <= history(i + 1).nextEventSeq;
      ReadBack(history, i + 1, page.nextBeforeSeq, limit) + page.events
    else page.events
  }

  /** One request: the rows of this page, preceded by what older pages hold. */
  lemma ReadBackOnce(history: nat -> Log, i: nat, before: Option<int>, limit: pos, lo: int, hi: int)
    requires Grows(history)
    requires before.Some? ==> 1 <= before.value <= history(i).nextEventSeq
    requires hi == Upper(history(i), before) && lo == PageStart(hi, limit)
    requires 1 <= lo <= hi <= history(i).nextEventSeq <= history(i + 1).nextEventSeq && Numbered(history(i))
    ensures limit < hi - 1 ==>
              ReadBack(history, i, before, limit) ==
              ReadBack(history, i + 1, Some(lo), limit) + Range(history(i), lo, hi)
    ensures limit >= hi - 1 ==> ReadBack(history, i, before, limit) == Range(history(i), lo, hi)
  {
    PageIsBlock(history(i), before, limit);
  }

  /** The cursor `before` stands at row `hi` of the first log. */
  ghost predicate Asks(history: nat -> Log, i: nat, before: Option<int>, hi: int) {
    && Extended(history(0), history(i))
    && Extended(history(i), history(i + 1))
    && 1 <= hi <= history(0).nextEventSeq
    && hi == Upper(history(i), before)
  }

  lemma {:induction false} ReadBackBelow(history: nat -> Log, i: nat, before: Option<int>, limit: pos, hi: int)
    requires Grows(history) && Asks(history, i, before, hi)
    ensures ReadBack(history, i, before, limit) == Range(history(0), 1, hi)
    decreases hi
  {
    var lo := PageStart(hi, limit);
    ReadBackOnce(history, i, before, limit, lo, hi);
    RangeJoins(history(0), history(i), lo, hi);
    if limit < hi - 1 {
      ReadBackBelow(history, i + 1, Some(lo), limit, lo);
    }
  }

  // ----- Logs that grow by appending -----

  function AppendAll(log: Log, events: seq<Row>): Log {
    if events == [] then log else Append(AppendAll(log, events[..|events| - 1]), events[|events| - 1])
  }

  lemma {:induction false} AppendAllExtends(log: Log, events: seq<Row>)
    requires Numbered(log)
    ensures Extended(log, AppendAll(log, events))
  {
    if events != [] { AppendAllExtends(log, events[..|events| - 1]); }
  }

  /** The log at each request is the one before with some events appended. */
  ghost predicate GrowsBy(history: nat -> Log, batches: nat -> seq<Row>) {
    forall i: nat :: history(i + 1) == AppendAll(history(i), batches(i))
  }

  lemma {:induction false} LaterExtends(history: nat -> Log, batches: nat -> seq<Row>, i: nat, j: nat)
    requires Numbered(history(0)) && GrowsBy(history, batches) && i <= j
    ensures Numbered(history(i)) && Extended(history(i), history(j))
    decreases i + j
  {
    if i < j {
      LaterExtends(history, batches, i, j - 1);
      AppendAllExtends(history(j - 1), batches(j - 1));
      assert history(j - 1 + 1) == AppendAll(history(j - 1), batches(j - 1));
    } else if i > 0 {
      LaterExtends(history, batches, 0, i - 1);
      AppendAllExtends(history(i - 1), batches(i - 1));
      assert history(i - 1 + 1) == AppendAll(history(i - 1), batches(i - 1));
    }
  }

  lemma AppendingGrows(history: nat -> Log, batches: nat -> seq<Row>)
    requires Numbered(history(0)) && GrowsBy(history, batches)
    ensures Grows(history)
  {
    forall i: nat, j: nat | i <= j ensures Extended(history(i), history(j)) { LaterExtends(history, batches, i, j); }
  }

  /** Following the cursor terminates and yields every event present at the first page
      exactly once and in order, whatever events are appended between pages. */
  lemma ReadBackIsComplete(first: seq<Row>, history: nat -> Log, batches: nat -> seq<Row>, limit: pos)
    requires history(0) == Appended(first) && GrowsBy(history, batches)
    ensures Grows(history)
    ensures |ReadBack(history, 0, None, limit)| == |first|
    ensures forall k :: 0 <= k < |first| ==> ReadBack(history, 0, None, limit)[k] == first[k].(number := k + 1)
  {
    AppendedIsNumbered(first);
    AppendingGrows(history, batches);
    ReadBackBelow(history, 0, None, limit, |first| + 1);
    RangeOfAppended(first);
  }

  lemma RangeOfAppended(events: seq<Row>)
    ensures Numbered(Appended(events)) && Appended(events).nextEventSeq == |events| + 1
    ensures |Range(Appended(events), 1, |events| + 1)| == |events|
    ensures forall k :: 0 <= k < |events| ==> Range(Appended(events), 1, |events| + 1)[k] == events[k].(number := k + 1)
  {
    AppendedIsNumbered(events);
    var log := Appended(events);
    forall k | 0 <= k < |events| ensures Range(log, 1, |events| + 1)[k] == events[k].(number := k + 1) {
      assert k + 1 in log.rows && log.rows[k + 1] == events[k].(number := k + 1);
    }
  }

  // ----- The session row -----

  class AgentSession {
    var nextEventSeq: int
    var rows: map<int, Row>

    ghost function Value(): Log
      reads this
    {
      Log(rows, nextEventSeq)
    }

    constructor ()
      ensures Value() == EMPTY_LOG
    {
      nextEventSeq, rows := 1, map[];
    }

    method AppendEvent(event: Row) returns (stored: Row)
      modifies this
      ensures Value() == Append(old(Value()), event)
      ensures old(Numbered(Value())) ==> Numbered(Value())
      ensures stored == event.(number := old(nextEventSeq))
    {
      stored := event;
      if event.number != nextEventSeq {
        stored := event.(number := nextEventSeq);
      }
      nextEventSeq := nextEventSeq + 1;
      rows := rows[stored.number := stored];
    }

    /** `replay_events`; the route asks for at least one event. */
    method ReplayEvents(before: Option<int>, limit: pos) returns (page: Page)
      requires Numbered(Value())
      ensures IsBlock(Value(), page, Cursor(Value(), before), limit)
      ensures page == Replay(Value(), before, limit)
    {
      PageIsBlock(Value(), before, limit);
      var found := NewestBelow(rows, before.GetOr(nextEventSeq), limit + 1);
      var hasMore := |found| > limit;
      var selected := if hasMore then found[..limit] else found;
      selected := Reversed(selected);
      page := Page(selected, hasMore, if hasMore && selected != [] then Some(selected[0].number) else None);
    }
  }
}
