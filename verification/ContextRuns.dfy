/**
 Runs of the context store with compactions in flight: what every transaction keeps, and
 when compaction boundaries strictly increase.
 */
module ContextRuns {
  import opened Options
  import opened Sequences
  import opened ContextRows
  import opened ContextViews

  /** `pending` are the sequence numbers a running compaction has read. */
  datatype Store = Store(context: Context, pending: Option<seq<int>>)

  datatype Step =
    | Add(batch: seq<Keyed>)
    | Pop
    | Clear
    | Rewind(chosen: Row -> bool)
    | Read(count: nat)               // choose the first `count` active rows to compact
    | Commit(key: string, summary: Item)
    | Drop                           // the summary failed

  const EMPTY_STORE := Store(EMPTY_CONTEXT, None)

  /** One transaction; a refused one changes nothing. */
  function Next(s: Store, step: Step): Store {
    match step
    case Add(batch) =>
      var r := AddItems(s.context, batch);
      if r.Success? then s.(context := r.value) else s
    case Pop => s.(context := PopItem(s.context))
    case Clear => s.(context := ClearSession(s.context))
    case Rewind(chosen) => s.(context := RewindRows(s.context, chosen))
    case Read(count) =>
      if 0 < count <= |View(s.context)| then s.(pending := Some(Numbers(View(s.context)[..count]))) else s
    case Commit(key, summary) =>
      if s.pending.None? || s.pending.value == [] then s
      else
        var r := CommitCompaction(s.context, s.pending.value, key, summary);
        if r.Success? && r.value.Some? then Store(r.value.value, None) else s.(pending := None)
    case Drop => s.(pending := None)
  }

  function Run(s: Store, steps: seq<Step>): Store {
    if steps == [] then s else Next(Run(s, steps[..|steps| - 1]), steps[|steps| - 1])
  }

  /** Every transaction keeps sequence numbers and keys unique and follows the status table. */
  lemma NextKeepsInv(s: Store, step: Step)
    requires Inv(s.context)
    ensures Inv(Next(s, step).context)
    ensures Follows(s.context.rows, Next(s, step).context.rows)
  {
    match step
    case Add(batch) => if AddItems(s.context, batch).Success? { AddItemsKeepsInv(s.context, batch); }
    case Pop => PopKeepsInv(s.context);
    case Clear => ClearHidesEverything(s.context);
    case Rewind(chosen) => RetireKeepsInv(s.context, RewindRows(s.context, chosen).rows);
    case Read(_) =>
    case Commit(key, summary) =>
      if s.pending.Some? && s.pending.value != [] {
        var r := CommitCompaction(s.context, s.pending.value, key, summary);
        if r.Success? && r.value.Some? { CommitKeepsInv(s.context, s.pending.value, key, summary); }
      }
    case Drop =>
  }

  /** The rows are sound, and all recorded boundaries are sequence numbers in use. */
  predicate Recorded(c: Context) {
    Inv(c) && forall i :: 0 <= i < |c.boundaries| ==> 1 <= c.boundaries[i] < c.nextItemSeq
  }

  lemma NextKeepsRecorded(s: Store, step: Step)
    requires Recorded(s.context)
    ensures Recorded(Next(s, step).context)
  {
    NextKeepsInv(s, step);
    if step.Add? && AddItems(s.context, step.batch).Success? { AddItemsCommitsIff(s.context, step.batch); }
    if step.Commit? && s.pending.Some? && s.pending.value != [] {
      CommitSucceedsIff(s.context, s.pending.value, step.key, step.summary);
      if Unchanged(s.context, s.pending.value) { CandidatesInRange(s.context, s.pending.value); }
    }
  }

  lemma {:induction false} RunKeepsInv(steps: seq<Step>)
    ensures Recorded(Run(EMPTY_STORE, steps).context)
  {
    if steps != [] {
      RunKeepsInv(steps[..|steps| - 1]);
      NextKeepsRecorded(Run(EMPTY_STORE, steps[..|steps| - 1]), steps[|steps| - 1]);
    }
  }

  // ----- What lasts -----

  /** A cleared or compacted row stays exactly as it is over every continuation, whatever is
      added, popped, rewound or compacted. */
  lemma {:induction false} RetiredForGood(s: Store, more: seq<Step>, i: nat)
    requires Inv(s.context) && i < |s.context.rows|
    requires s.context.rows[i].status.Cleared? || s.context.rows[i].status.Compacted?
    ensures var later := Run(s, more).context;
            Inv(later) && i < |later.rows| && later.rows[i] == s.context.rows[i]
  {
    if more != [] {
      var before := more[..|more| - 1];
      RetiredForGood(s, before, i);
      NextKeepsInv(Run(s, before), more[|more| - 1]);
    }
  }

  /** What a clear hides never comes back: each row that was active stays cleared. */
  lemma ClearedForGood(s: Store, more: seq<Step>, i: nat)
    requires Inv(s.context) && i < |s.context.rows| && s.context.rows[i].status.Active?
    ensures var later := Run(Next(s, Clear), more).context;
            i < |later.rows| && later.rows[i] == s.context.rows[i].(status := Cleared, retired := true)
  {
    ClearHidesEverything(s.context);
    NextKeepsInv(s, Clear);
    RetiredForGood(Next(s, Clear), more, i);
  }

  /** Popping and adding an item with the same key again leaves everything as it was. */
  lemma AddingAgainUndoesPop(s: Store, entry: Keyed)
    requires Inv(s.context) && View(s.context) != []
    requires entry.key != "" && entry.key == View(s.context)[|View(s.context)| - 1].dedupeKey
    ensures View(Next(s, Pop).context) == View(s.context)[..|View(s.context)| - 1]
    ensures Next(Next(s, Pop), Add([entry])) == s
  {
    PopTakesTheNewest(s.context);
    AddUndoesPop(s.context, entry);
  }

  /** A compaction ends with its commit, and a dropped one commits nothing. */
  lemma CompactionEnds(s: Store, key: string, summary: Item, key': string, summary': Item)
    requires s.pending.Some? ==> s.pending.value != []
    ensures Next(s, Commit(key, summary)).pending == None
    ensures Next(Next(s, Drop), Commit(key, summary)) == s.(pending := None)
    ensures Next(Next(s, Commit(key, summary)), Commit(key', summary')) == Next(s, Commit(key, summary))
  {}

  // ----- Boundaries -----

  function LastBoundary(c: Context): int {
    if c.boundaries == [] then 0 else c.boundaries[|c.boundaries| - 1]
  }

  /** The lowest sequence number that may still be active. */
  function Floor(s: Store): int {
    if s.pending.Some? && s.pending.value != [] then s.pending.value[0] else LastBoundary(s.context)
  }

  predicate Increasing(numbers: seq<int>) {
    forall i, j :: 0 <= i < j < |numbers| ==> numbers[i] < numbers[j]
  }

  predicate NothingBelow(c: Context, floor: int) {
    forall i :: 0 <= i < |c.rows| && c.rows[i].status.Active? ==> floor <= c.rows[i].number
  }

  predicate Advancing(s: Store) {
    && Inv(s.context)
    && Increasing(s.context.boundaries)
    && LastBoundary(s.context) <= Floor(s) < s.context.nextItemSeq
    && NothingBelow(s.context, Floor(s))
    && (s.pending.Some? ==> |s.pending.value| >= 2)
  }

  /** The batch brings no row below the floor back. */
  predicate RevivesAbove(c: Context, batch: seq<Keyed>, floor: int) {
    forall i :: 0 <= i < |c.rows| && c.rows[i].status.Rewound? && Mentions(c.rows, batch, i) ==>
        floor <= c.rows[i].number
  }

  predicate NoRevivalBelow(s: Store, step: Step) {
    step.Add? ==> RevivesAbove(s.context, step.batch, Floor(s))
  }

  /** What the boundary claim needs: two items per compaction, no revival below the floor. */
  predicate Careful(s: Store, step: Step) {
    (step.Read? ==> step.count >= 2) && NoRevivalBelow(s, step)
  }

  /** A batch leaves nothing active below the floor exactly when it revives nothing there. */
  lemma AddKeepsFloorIff(c: Context, batch: seq<Keyed>, floor: int)
    requires Inv(c) && NothingBelow(c, floor) && floor < c.nextItemSeq && AddItems(c, batch).Success?
    ensures NothingBelow(AddItems(c, batch).value, floor) <==> RevivesAbove(c, batch, floor)
  {
    var c' := AddItems(c, batch).value;
    AddItemsCommitsIff(c, batch);
    if NothingBelow(c', floor) {
      forall i | 0 <= i < |c.rows| && c.rows[i].status.Rewound? && Mentions(c.rows, batch, i)
          ensures floor <= c.rows[i].number {
        assert c'.rows[i].status.Active?;
      }
    }
  }

  lemma ReadRaisesFloor(s: Store, count: nat)
    requires Advancing(s) && count >= 2
    ensures Advancing(Next(s, Read(count)))
  {
    var c, view := s.context, View(s.context);
    if count <= |view| {
      ViewIsOrdered(c);
      assert view[0] in c.rows;
      forall i | 0 <= i < |c.rows| && c.rows[i].status.Active? ensures view[0].number <= c.rows[i].number {
        assert c.rows[i] in view;
      }
    }
  }

  /** With a careful history a commit is never refused for its boundary; its boundary lies
      above all earlier ones, and the view becomes the summary and the later rows. */
  lemma CommitAdvances(s: Store, key: string, summary: Item)
    requires Advancing(s) && s.pending.Some?
    ensures var c, candidates := s.context, s.pending.value;
            var hi := candidates[|candidates| - 1];
            var r := CommitCompaction(c, candidates, key, summary);
            && r != Failure(DuplicateBoundary)
            && (r.Success? && r.value.Some? ==>
                  && LastBoundary(c) < hi < c.nextItemSeq
                  && Increasing(r.value.value.boundaries)
                  && NothingBelow(r.value.value, hi)
                  && View(r.value.value) == [Row(hi, Active, false, key, summary)] + Above(c.rows, hi, c.nextItemSeq))
  {
    var c, candidates := s.context, s.pending.value;
    CommitSucceedsIff(c, candidates, key, summary);
    if Unchanged(c, candidates) {
      CandidatesInRange(c, candidates);
      var r := CommitCompaction(c, candidates, key, summary);
      if r.Success? {
        CompactedViewIsSummaryFirstIff(c, candidates, key, summary);
      }
    }
  }

  lemma NextKeepsAdvancing(s: Store, step: Step)
    requires Advancing(s) && Careful(s, step)
    ensures Advancing(Next(s, step))
  {
    NextKeepsInv(s, step);
    match step
    case Add(batch) => AddAdvances(s, batch);
    case Read(count) => ReadRaisesFloor(s, count);
    case Commit(key, summary) => CommitKeepsAdvancing(s, key, summary);
    case Pop => 
    case Clear => 
    case Rewind(chosen) => 
    case Drop =>
  }

  lemma CommitKeepsAdvancing(s: Store, key: string, summary: Item)
    requires Advancing(s) && Inv(Next(s, Commit(key, summary)).context)
    ensures Advancing(Next(s, Commit(key, summary)))
  {
    if s.pending.Some? { CommitAdvances(s, key, summary); }
  }

  lemma AddAdvances(s: Store, batch: seq<Keyed>)
    requires Advancing(s) && RevivesAbove(s.context, batch, Floor(s)) && Inv(Next(s, Add(batch)).context)
    ensures Advancing(Next(s, Add(batch)))
  {
    if AddItems(s.context, batch).Success? {
      AddKeepsFloorIff(s.context, batch, Floor(s));
      AddItemsCommitsIff(s.context, batch);
    }
  }

  predicate CarefulRun(steps: seq<Step>) {
    forall i :: 0 <= i < |steps| ==> Careful(Run(EMPTY_STORE, steps[..i]), steps[i])
  }

  /** Over every careful run the recorded boundaries strictly increase, so the uniqueness
      constraint on them is never violated. */
  lemma {:induction false} BoundariesIncrease(steps: seq<Step>)
    requires CarefulRun(steps)
    ensures Advancing(Run(EMPTY_STORE, steps))
  {
    if steps != [] {
      var before := steps[..|steps| - 1];
      forall i | 0 <= i < |before| ensures Careful(Run(EMPTY_STORE, before[..i]), before[i]) {
        assert before[..i] == steps[..i];
      }
      BoundariesIncrease(before);
      NextKeepsAdvancing(Run(EMPTY_STORE, before), steps[|steps| - 1]);
    }
  }

  // ----- When a boundary exceeds the last one -----

  /** How many active rows there are at or below a sequence number. */
  function ActiveUpTo(c: Context, number: int): nat {
    |Within(c.rows, 1, number)|
  }

  /** The last of the first `count` active rows lies above the last boundary exactly when
      fewer rows than that are active at or below it. */
  lemma ReadExceedsIff(c: Context, count: pos)
    requires Recorded(c) && count <= |View(c)|
    ensures View(c)[count - 1].number > LastBoundary(c) <==> ActiveUpTo(c, LastBoundary(c)) < count
  {
    var b := LastBoundary(c);
    var low, high := Within(c.rows, 1, b), Above(c.rows, b, c.nextItemSeq);
    SplitAt(c.rows, 1, b, c.nextItemSeq);
    var row := (low + high)[count - 1];
    WithinMembers(c.rows, 1, b, row);
    AboveMembers(c.rows, b, c.nextItemSeq, row);
  }

  lemma PrefixMembers(view: seq<Row>, count: pos, row: Row)
    requires StrictlyAscending(view) && count <= |view|
    ensures row in view[..count] <==> row in view && view[0].number <= row.number <= view[count - 1].number
  {
    if row in view {
      var i :| 0 <= i < |view| && view[i] == row;
      if i < count { assert view[..count][i] == row; }
    }
  }

  /** The first rows of the view are the active rows of their range. */
  lemma FirstRowsAreRange(c: Context, count: pos)
    requires Inv(c) && count <= |View(c)|
    ensures Unchanged(c, Numbers(View(c)[..count]))
  {
    var view := View(c);
    var lo, hi := view[0].number, view[count - 1].number;
    ViewIsOrdered(c);
    forall row ensures row in view[..count] <==> row in c.rows && row.status.Active? && lo <= row.number < hi + 1 {
      PrefixMembers(view, count, row);
    }
    AscendingIs(c.rows, lo, hi + 1, view[..count]);
  }

  /** A compaction that meets no concurrent change is recorded, above all earlier boundaries,
      if and only if it takes more rows than are active at or below the last boundary.
      Otherwise it is refused or recorded at a lower boundary. */
  lemma BoundaryExceedsIff(s: Store, count: pos, key: string, summary: Item)
    requires Recorded(s.context) && Increasing(s.context.boundaries)
    requires count <= |View(s.context)| && KeyFree(s.context.rows, key)
    ensures var c, c' := s.context, Next(Next(s, Read(count)), Commit(key, summary)).context;
            |c'.boundaries| == |c.boundaries| + 1 && Increasing(c'.boundaries)
            <==> ActiveUpTo(c, LastBoundary(c)) < count
  {
    var c, candidates := s.context, Numbers(View(s.context)[..count]);
    FirstRowsAreRange(c, count);
    ReadExceedsIff(c, count);
    CommitSucceedsIff(c, candidates, key, summary);
    var c' := Next(Next(s, Read(count)), Commit(key, summary)).context;
    var n := |c.boundaries|;
    if ActiveUpTo(c, LastBoundary(c)) < count {
    } else if |c'.boundaries| == n + 1 {
      assert c'.boundaries == c.boundaries + [candidates[count - 1]];
      assert c'.boundaries[n - 1] == LastBoundary(c) && c'.boundaries[n] == candidates[count - 1];
    }
  }

  /** Every compaction takes more rows than are active at or below the last boundary. */
  predicate Ample(s: Store, step: Step) {
    step.Read? ==> ActiveUpTo(s.context, LastBoundary(s.context)) < step.count
  }

  /** The compaction in flight will end above all recorded boundaries. */
  predicate Rising(s: Store) {
    && Recorded(s.context) && Increasing(s.context.boundaries)
    && (s.pending.Some? ==> s.pending.value != [] && LastBoundary(s.context) < s.pending.value[|s.pending.value| - 1])
  }

  lemma NextKeepsRising(s: Store, step: Step)
    requires Rising(s) && Ample(s, step)
    ensures Rising(Next(s, step))
    ensures step.Commit? && s.pending.Some? ==>
              CommitCompaction(s.context, s.pending.value, step.key, step.summary) != Failure(DuplicateBoundary)
  {
    NextKeepsInv(s, step);
    match step
    case Add(batch) => if AddItems(s.context, batch).Success? { AddItemsCommitsIff(s.context, batch); }
    case Read(count) => ReadRises(s, count);
    case Commit(key, summary) => if s.pending.Some? { CommitRises(s, key, summary); }
    case _ =>
  }

  lemma ReadRises(s: Store, count: nat)
    requires Rising(s) && Ample(s, Read(count))
    ensures Rising(Next(s, Read(count)))
  {
    if 0 < count <= |View(s.context)| { ReadExceedsIff(s.context, count); }
  }

  lemma CommitRises(s: Store, key: string, summary: Item)
    requires Rising(s) && s.pending.Some?
    ensures CommitCompaction(s.context, s.pending.value, key, summary) != Failure(DuplicateBoundary)
    ensures var c' := Next(s, Commit(key, summary)).context;
            Increasing(c'.boundaries) && forall i :: 0 <= i < |c'.boundaries| ==> 1 <= c'.boundaries[i] < c'.nextItemSeq
  {
    var c, candidates := s.context, s.pending.value;
    CommitSucceedsIff(c, candidates, key, summary);
    if Unchanged(c, candidates) { CandidatesInRange(c, candidates); }
  }

  predicate AmpleRun(steps: seq<Step>) {
    steps == [] || (AmpleRun(steps[..|steps| - 1]) && Ample(Run(EMPTY_STORE, steps[..|steps| - 1]), steps[|steps| - 1]))
  }

  /** Whatever is revived, boundaries strictly increase over every run whose compactions each
      take more rows than are active at or below the last boundary. */
  lemma {:induction false} AmpleRunRises(steps: seq<Step>)
    requires AmpleRun(steps)
    ensures Rising(Run(EMPTY_STORE, steps))
  {
    if steps != [] {
      AmpleRunRises(steps[..|steps| - 1]);
      NextKeepsRising(Run(EMPTY_STORE, steps[..|steps| - 1]), steps[|steps| - 1]);
    }
  }

  lemma TwoDiffer(rows: seq<Row>)
    requires StrictlyAscending(rows)
    ensures |rows| >= 2 ==> rows[0].number != rows[1].number
  {}

  /** With nothing active below the last boundary, two rows are always enough. */
  lemma CarefulIsAmple(s: Store, step: Step)
    requires Advancing(s) && Careful(s, step)
    ensures Ample(s, step)
  {
    var c, b := s.context, LastBoundary(s.context);
    var low := Within(c.rows, 1, b);
    AscendingIsSorted(c.rows, 1, b + 1);
    TwoDiffer(low);
    forall i | 0 <= i < |low| ensures low[i].number == b {
      assert low[i] in low;
      WithinMembers(c.rows, 1, b, low[i]);
    }
  }

  // ----- The session object -----

  /** The loop of `add_items`: `found` are the rows looked up before it. */
  method Extend(found: seq<Row>, next: int, ghost boundaries: seq<int>, batch: seq<Keyed>)
      returns (pending: seq<Row>, inserted: nat)
    ensures Context(pending, next + inserted, boundaries) == AddEach(found, Context(found, next, boundaries), batch)
  {
    ghost var before := Context(found, next, boundaries);
    pending, inserted := found, 0;
    assert batch[..0] == [];
    for i := 0 to |batch|
      invariant |found| <= |pending|
      invariant Context(pending, next + inserted, boundaries) == AddEach(found, before, batch[..i])
    {
      assert batch[..i + 1][..i] == batch[..i];
      var existing := Existing(found, batch[i]);
      if existing.Some? {
        var row := pending[existing.value];
        if row.status.Rewound? {
          pending := pending[existing.value := row.(status := Active, retired := false)];
        }
      } else {
        pending := pending + [NewRow(next + inserted, batch[i])];
        inserted := inserted + 1;
      }
    }
    assert batch[..|batch|] == batch;
  }

  class V3ilSession {
    var rows: seq<Row>
    var nextItemSeq: int
    var boundaries: seq<int>

    ghost function Value(): Context
      reads this
    {
      Context(rows, nextItemSeq, boundaries)
    }

    constructor ()
      ensures Value() == EMPTY_CONTEXT && Inv(Value())
    {
      rows, nextItemSeq, boundaries := [], 1, [];
    }

    /** All active items by strictly ascending sequence number, or the last `limit` of them. */
    method ReadItems(limit: Option<nat>) returns (items: seq<Item>)
      requires Inv(Value())
      ensures StrictlyAscending(View(Value()))
      ensures forall row :: row in View(Value()) <==> row in rows && row.status.Active?
      ensures var all := Items(View(Value()));
              items == if limit.Some? && limit.value < |all| then all[|all| - limit.value..] else all
    {
      ViewIsOrdered(Value());
      if limit.None? {
        return Items(Ascending(rows, 1, nextItemSeq));
      }
      LimitedReadIsSuffix(Value(), limit.value);
      var found := Descending(rows, 1, nextItemSeq, limit.value);
      items := Items(Reversed(found));
      assert items == GetItems(Value(), Some(limit.value));
    }

    /** Computes all keys, looks them up, then revives or inserts item by item. */
    method AddAll(items: seq<Item>) returns (r: Result<(), StoreError>)
      requires Inv(Value())
      modifies this
      ensures match AddItems(old(Value()), Serialized(items))
              case Success(after) => r.Success? && Value() == after
              case Failure(e) => r == Failure(e) && Value() == old(Value())
      ensures Inv(Value())
    {
      var batch := Serialized(items);
      var pending, inserted := Extend(rows, nextItemSeq, boundaries, batch);
      if !UniqueKeys(pending) {
        return Failure(DuplicateKey);
      }
      AddItemsKeepsInv(Value(), batch);
      rows, nextItemSeq := pending, nextItemSeq + inserted;
      return Success(());
    }

    method PopNewest() returns (item: Option<Item>)
      requires Inv(Value())
      modifies this`rows
      ensures Value() == PopItem(old(Value())) && Inv(Value())
      ensures if View(old(Value())) == [] then Value() == old(Value()) else NewestRewound(old(Value()), Value())
      ensures item == if View(old(Value())) == [] then None else Some(View(old(Value()))[|View(old(Value()))| - 1].item)
    {
      PopTakesTheNewest(Value());
      PopKeepsInv(Value());
      NewestEndsView(Value());
      var newest := NewestActive(rows);
      if newest.None? {
        return None;
      }
      var row := rows[newest.value];
      rows := rows[newest.value := row.(status := Rewound, retired := true)];
      return Some(row.item);
    }

    method ClearAll()
      requires Inv(Value())
      modifies this`rows
      ensures Value() == ClearSession(old(Value())) && Inv(Value())
      ensures View(Value()) == [] && |rows| == |old(rows)|
      ensures forall i :: 0 <= i < |rows| ==>
                rows[i] == if old(rows)[i].status.Active? then old(rows)[i].(status := Cleared, retired := true)
                           else old(rows)[i]
    {
      ClearHidesEverything(Value());
      var cleared := [];
      for i := 0 to |rows|
        invariant |cleared| == i
        invariant forall k :: 0 <= k < i ==>
            cleared[k] == if rows[k].status.Active? then Retire(rows[k], Cleared) else rows[k]
      {
        var row := rows[i];
        cleared := cleared + [if row.status.Active? then row.(status := Cleared, retired := true) else row];
      }
      assert cleared == ClearSession(Value()).rows;
      rows := cleared;
    }

    /** The commit part of `compact_context_if_needed`; false when the rows changed. */
    method CommitSummary(candidates: seq<int>, key: string, summary: Item) returns (r: Result<bool, StoreError>)
      requires Inv(Value()) && candidates != []
      modifies this
      ensures match CommitCompaction(old(Value()), candidates, key, summary)
              case Success(None) => r == Success(false) && Value() == old(Value())
              case Success(Some(after)) => r == Success(true) && Value() == after
              case Failure(e) => r == Failure(e) && Value() == old(Value())
      ensures Inv(Value())
    {
      var lo, hi := candidates[0], candidates[|candidates| - 1];
      var current := Within(rows, lo, hi);
      if Numbers(current) != candidates {
        return Success(false);
      }
      var compacted := RetireWhere(rows, Between(lo, hi), Compacted) + [Row(hi, Active, false, key, summary)];
      if !UniqueKeys(compacted) {
        return Failure(DuplicateKey);
      }
      if hi in boundaries {
        return Failure(DuplicateBoundary);
      }
      CommitKeepsInv(Value(), candidates, key, summary);
      rows, boundaries := compacted, boundaries + [hi];
      return Success(true);
    }
  }
}
