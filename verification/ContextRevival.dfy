/**
 Runs of the context store in which revived rows spoil the order of compaction boundaries:
 for all settings, compactions that the boundary selection chooses are refused, or recorded
 below an earlier boundary.
 */
module ContextRevival {
  import opened Options
  import opened Sequences
  import opened ContextRows
  import opened ContextViews
  import opened ContextRuns
  import opened CompactionBoundary
  import opened ContextCompaction

  // ----- The runs -----

  /** Entries of which the first ones are rewound and added again; the next `minItems` are
      compacted in between and `preserveRecentItems` more are preserved. */
  datatype Story = Story(
    settings: Settings, limits: Limits, first: nat, entries: seq<Keyed>, key: string, summary: Item) {
    function Through(): pos { first + settings.minItems }

    /** How many entries are still active or compacted after the second rewind. */
    function Remaining(): pos { 2 * settings.minItems - 1 + settings.preserveRecentItems }

    predicate Fits() {
      && settings.minItems - 1 <= first <= settings.minItems
      && |entries| == Through() + settings.preserveRecentItems
      && DistinctKeys(entries) && summary.kind.OtherItem? && key != ""
      && forall i :: 0 <= i < |entries| ==>
           entries[i].item.kind.OtherItem? && entries[i].key != key && (i < first ==> entries[i].key != "")
    }

    function Begun(): seq<Step> { [] + [Add(entries)] + [Rewind(UpTo(first))] }

    function CompactedOnce(): seq<Step> { Begun() + [Read(settings.minItems)] + [Commit(key, summary)] }

    function Revived(): seq<Step>
      requires Fits()
    {
      CompactedOnce() + [Rewind(Beyond(Remaining()))] + [Add(entries[..first])]
    }
  }

  function UpTo(n: int): Row -> bool {
    (row: Row) => row.number <= n
  }

  function Beyond(n: int): Row -> bool {
    (row: Row) => row.number > n
  }

  // ----- The states of the runs -----

  /** The rows of the entries: the first ones have status `front`, those to be compacted
      `middle`, and of the others those before `until` are active. */
  function EntryRows(t: Story, front: Status, middle: Status, until: nat): (rows: seq<Row>)
    ensures |rows| == |t.entries|
    ensures forall i :: 0 <= i < |rows| ==>
              rows[i] == Stored(t.entries[i], i + 1, StatusAt(t, i, front, middle, until))
  {
    seq(|t.entries|, i requires 0 <= i < |t.entries| =>
      Stored(t.entries[i], i + 1, StatusAt(t, i, front, middle, until)))
  }

  function StatusAt(t: Story, i: int, front: Status, middle: Status, until: nat): Status {
    if i < t.first then front
    else if i < t.Through() then middle
    else if i < until then Active
    else Rewound
  }

  function Stored(entry: Keyed, number: int, status: Status): Row {
    Row(number, status, !status.Active?, entry.key, entry.item)
  }

  /** Before the first compaction. */
  function Early(t: Story, front: Status): Context {
    Context(EntryRows(t, front, Active, |t.entries|), |t.entries| + 1, [])
  }

  function SummaryRow(t: Story): Row {
    Row(t.Through(), Active, false, t.key, t.summary)
  }

  /** After it. */
  function Late(t: Story, front: Status, until: nat): Context {
    Context(EntryRows(t, front, Compacted, until) + [SummaryRow(t)], |t.entries| + 1, [t.Through()])
  }

  // ----- Single transactions -----

  lemma {:induction false} AllNovel(e: seq<Keyed>, n: nat)
    requires n <= |e|
    ensures Novel([], e[..n]) == e[..n]
  {
    if n > 0 {
      AllNovel(e, n - 1);
      assert e[..n][..n - 1] == e[..n - 1];
      assert e[..n] == e[..n - 1] + [e[n - 1]];
    }
  }

  /** Into an empty context a batch goes entry by entry. */
  lemma FreshBatch(e: seq<Keyed>)
    requires DistinctKeys(e)
    ensures AddItems(EMPTY_CONTEXT, e).Success?
    ensures var c := AddItems(EMPTY_CONTEXT, e).value;
            && c == Context(c.rows, |e| + 1, []) && |c.rows| == |e|
            && forall i :: 0 <= i < |e| ==> c.rows[i] == NewRow(i + 1, e[i])
  {
    AllNovel(e, |e|);
    assert e[..|e|] == e;
    AddItemsCommitsIff(EMPTY_CONTEXT, e);
  }

  lemma AddFresh(t: Story)
    requires t.Fits()
    ensures AddItems(EMPTY_CONTEXT, t.entries) == Success(Early(t, Active))
  {
    FreshBatch(t.entries);
    assert AddItems(EMPTY_CONTEXT, t.entries).value.rows == EntryRows(t, Active, Active, |t.entries|);
  }

  lemma RewindFirst(t: Story)
    requires t.Fits()
    ensures RewindRows(Early(t, Active), UpTo(t.first)) == Early(t, Rewound)
  {
    assert RewindRows(Early(t, Active), UpTo(t.first)).rows == Early(t, Rewound).rows;
  }

  lemma RewindLast(t: Story)
    requires t.Fits()
    ensures RewindRows(Late(t, Rewound, |t.entries|), Beyond(t.Remaining())) == Late(t, Rewound, t.Remaining())
  {
    var c := RewindRows(Late(t, Rewound, |t.entries|), Beyond(t.Remaining()));
    assert c.rows == Late(t, Rewound, t.Remaining()).rows;
  }

  /** A batch of entries that are all known mentions exactly their rows. */
  lemma {:induction false} KnownBatch(rows: seq<Row>, e: seq<Keyed>, n: nat)
    requires n <= |e| <= |rows| && UniqueKeys(rows)
    requires forall j :: 0 <= j < n ==> e[j].key != "" && rows[j].dedupeKey == e[j].key
    ensures Novel(rows, e[..n]) == []
    ensures forall i: nat :: Mentions(rows, e[..n], i) <==> i < n
  {
    if n > 0 {
      KnownBatch(rows, e, n - 1);
      assert e[..n][..n - 1] == e[..n - 1];
    }
  }

  /** Adding known entries again revives their rewound rows and changes nothing else. */
  lemma KnownBatchRevives(c: Context, e: seq<Keyed>, n: nat)
    requires Inv(c) && n <= |e| <= |c.rows|
    requires forall j :: 0 <= j < n ==> e[j].key != "" && c.rows[j].dedupeKey == e[j].key
    ensures AddItems(c, e[..n]).Success?
    ensures var c' := AddItems(c, e[..n]).value;
            && c' == c.(rows := c'.rows) && |c'.rows| == |c.rows|
            && forall i :: 0 <= i < |c.rows| ==>
                 c'.rows[i] == if c.rows[i].status.Rewound? && i < n
                               then c.rows[i].(status := Active, retired := false) else c.rows[i]
  {
    KnownBatch(c.rows, e, n);
    AddItemsCommitsIff(c, e[..n]);
  }

  lemma AddFirstAgain(t: Story)
    requires t.Fits() && Inv(Late(t, Rewound, t.Remaining()))
    ensures AddItems(Late(t, Rewound, t.Remaining()), t.entries[..t.first]) == Success(Late(t, Active, t.Remaining()))
  {
    var c := Late(t, Rewound, t.Remaining());
    KnownBatchRevives(c, t.entries, t.first);
    assert AddItems(c, t.entries[..t.first]).value.rows == Late(t, Active, t.Remaining()).rows;
  }

  // ----- Views -----

  lemma EarlyActiveAt(t: Story, i: nat)
    requires t.Fits() && i < |t.entries|
    ensures var row := EntryRows(t, Rewound, Active, |t.entries|)[i];
            && row.number == i + 1 && row.item.kind.OtherItem? && (row.status.Active? <==> t.first <= i)
  {}

  lemma EarlyView(t: Story)
    requires t.Fits() && Inv(Early(t, Rewound))
    ensures View(Early(t, Rewound)) == Early(t, Rewound).rows[t.first..]
    ensures PlainView(Early(t, Rewound), t.settings)
  {
    var c := Early(t, Rewound);
    forall i | 0 <= i < |c.rows|
      ensures c.rows[i].number == i + 1 && c.rows[i].item.kind.OtherItem?
      ensures c.rows[i].status.Active? <==> t.first <= i
    {
      EarlyActiveAt(t, i);
    }
    LastRowsAreView(c, t.first);
  }

  /** A context whose rows from `first` on, and no others, are active, numbered by position. */
  lemma LastRowsAreView(c: Context, first: nat)
    requires Inv(c) && first <= |c.rows|
    requires forall i :: 0 <= i < |c.rows| ==> c.rows[i].number == i + 1 && (c.rows[i].status.Active? <==> first <= i)
    ensures View(c) == c.rows[first..]
  {
    forall row | row in c.rows && row.status.Active? ensures row in c.rows[first..] {
      var i :| 0 <= i < |c.rows| && c.rows[i] == row;
      assert c.rows[first..][i - first] == row;
    }
    NumbersInUse(c);
    AscendingIs(c.rows, 1, c.nextItemSeq, c.rows[first..]);
  }

  /** The revived rows, the summary, and the preserved rows. */
  function LateActive(t: Story): (active: seq<Row>)
    requires t.Fits()
    ensures |active| == t.settings.minItems + t.settings.preserveRecentItems
  {
    var rows := EntryRows(t, Active, Compacted, t.Remaining());
    rows[..t.first] + [SummaryRow(t)] + rows[t.Through()..t.Remaining()]
  }

  lemma LateActiveAt(t: Story, j: nat)
    requires t.Fits() && j < |LateActive(t)|
    ensures var row := LateActive(t)[j];
            && row in Late(t, Active, t.Remaining()).rows && row.status.Active? && row.item.kind.OtherItem?
            && row.number == if j < t.first then j + 1
                             else if j == t.first then t.Through()
                             else t.Through() + j - t.first
  {
    var rows := EntryRows(t, Active, Compacted, t.Remaining());
    var all := Late(t, Active, t.Remaining()).rows;
    if j < t.first { assert LateActive(t)[j] == rows[j] == all[j]; }
    else if j == t.first { assert all[|rows|] == SummaryRow(t); }
    else { assert LateActive(t)[j] == rows[t.Through() + j - t.first - 1] == all[t.Through() + j - t.first - 1]; }
  }

  lemma ActiveInLate(t: Story, i: nat)
    requires t.Fits() && i < |Late(t, Active, t.Remaining()).rows|
    requires Late(t, Active, t.Remaining()).rows[i].status.Active?
    ensures Late(t, Active, t.Remaining()).rows[i] in LateActive(t)
  {
    var j := if i < t.first then i else if i == |t.entries| then t.first else t.first + 1 + i - t.Through();
    assert LateActive(t)[j] == Late(t, Active, t.Remaining()).rows[i];
  }

  lemma LateView(t: Story)
    requires t.Fits() && Inv(Late(t, Active, t.Remaining()))
    ensures View(Late(t, Active, t.Remaining())) == LateActive(t)
    ensures PlainView(Late(t, Active, t.Remaining()), t.settings)
  {
    var c, expected := Late(t, Active, t.Remaining()), LateActive(t);
    forall j | 0 <= j < |expected|
      ensures expected[j] in c.rows && expected[j].status.Active? && expected[j].item.kind.OtherItem?
      ensures expected[j].number ==
          if j < t.first then j + 1 else if j == t.first then t.Through() else t.Through() + j - t.first
    {
      LateActiveAt(t, j);
    }
    forall i | 0 <= i < |c.rows| && c.rows[i].status.Active? ensures c.rows[i] in expected { ActiveInLate(t, i); }
    NumbersInUse(c);
    AscendingIs(c.rows, 1, c.nextItemSeq, expected);
  }

  lemma NumbersInUse(c: Context)
    requires Inv(c)
    ensures forall row :: row in c.rows ==> 1 <= row.number < c.nextItemSeq
  {}

  // ----- What the selection chooses -----

  lemma {:induction false} NothingOpen(rows: seq<Candidate>, n: nat)
    requires n <= |rows| && forall i :: 0 <= i < |rows| ==> !rows[i].item.FunctionCall?
    ensures OpenCalls(ItemsOf(rows[..n])) == {}
  {
    if n > 0 {
      NothingOpen(rows, n - 1);
      assert ItemsOf(rows[..n])[..n - 1] == ItemsOf(rows[..n - 1]);
    }
  }

  /** Completed items, each with as many tokens as are to be preserved. */
  function Flat(settings: Settings, target: nat): Estimate {
    Estimate((item: Item) => PreserveTokens(settings, target) + 1, (item: Item) => false)
  }

  /** When `kept` rows hold enough tokens, they alone are preserved. */
  lemma PreservesKept(rows: seq<Candidate>, kept: pos, tokens: nat)
    requires kept <= |rows| && rows[|rows| - 1].tokens >= tokens
    ensures PreservedFrom(rows, kept, tokens, 0) == kept
  {
    var last := rows[|rows| - kept..];
    assert last[|last| - 1] == rows[|rows| - 1];
    assert Enough(rows, kept, tokens, kept);
  }

  lemma PlainBoundary(rows: seq<Candidate>, settings: Settings, projected: int, target: nat)
    requires |rows| == settings.minItems + settings.preserveRecentItems
    requires forall i :: 0 <= i < |rows| ==>
               !rows[i].inProgress && !rows[i].item.FunctionCall? && rows[i].tokens >= PreserveTokens(settings, target)
    ensures IsBoundary(rows, settings, projected, target, Some(settings.minItems))
  {
    assert CompletedEnd(rows) == |rows|;
    PreservesKept(rows, settings.preserveRecentItems, PreserveTokens(settings, target));
    assert CandidateLimit(rows, settings, target) == settings.minItems;
    NothingOpen(rows, settings.minItems);
  }

  /** As many active rows as are compacted and preserved at least, none of them of a tool. */
  predicate PlainView(c: Context, settings: Settings) {
    && |View(c)| == settings.minItems + settings.preserveRecentItems
    && forall i :: 0 <= i < |View(c)| ==> View(c)[i].item.kind.OtherItem?
  }

  /** Of such a view exactly `minItems` rows are chosen, at every trigger and target. */
  lemma TakesMinItems(c: Context, settings: Settings, limits: Limits)
    requires PlainView(c, settings)
    ensures var r := Request(Flat(settings, limits.target), limits.trigger, limits);
            Chooses(c, settings, r, Some(settings.minItems))
  {
    var r, target := Request(Flat(settings, limits.target), limits.trigger, limits), limits.target;
    var rows := Candidates(View(c), r.est);
    forall i | 0 <= i < |rows|
      ensures !rows[i].inProgress && !rows[i].item.FunctionCall? && rows[i].tokens >= PreserveTokens(settings, target)
    {
      assert View(c)[i].item.kind.OtherItem?;
    }
    PlainBoundary(rows, settings, Projected(rows, r), target);
  }

  lemma ReadTakesMinItems(s: Store, settings: Settings, limits: Limits)
    requires PlainView(s.context, settings)
    ensures SelectedAt(settings, limits, s, Read(settings.minItems))
  {
    TakesMinItems(s.context, settings, limits);
  }

  // ----- The runs, step by step -----

  lemma OneMore(settings: Settings, limits: Limits, before: seq<Step>, step: Step)
    ensures Run(EMPTY_STORE, before + [step]) == Next(Run(EMPTY_STORE, before), step)
    ensures SelectedRunAt(settings, limits, before + [step]) <==>
            SelectedRunAt(settings, limits, before) && SelectedAt(settings, limits, Run(EMPTY_STORE, before), step)
    ensures NoRevivalRun(before + [step]) <==>
            NoRevivalRun(before) && NoRevivalBelow(Run(EMPTY_STORE, before), step)
  {
    PrefixOfLonger(before, step);
  }

  lemma AfterBegun(t: Story)
    requires t.Fits()
    ensures Run(EMPTY_STORE, t.Begun()) == Store(Early(t, Rewound), None)
    ensures SelectedRunAt(t.settings, t.limits, t.Begun()) && NoRevivalRun(t.Begun())
  {
    AddFresh(t);
    RewindFirst(t);
    OneMore(t.settings, t.limits, [], Add(t.entries));
    OneMore(t.settings, t.limits, [] + [Add(t.entries)], Rewind(UpTo(t.first)));
  }

  lemma FirstCommit(t: Story, candidates: seq<int>)
    requires t.Fits() && Inv(Early(t, Rewound))
    requires |candidates| == t.settings.minItems && Unchanged(Early(t, Rewound), candidates)
    requires candidates[0] == t.first + 1 && candidates[|candidates| - 1] == t.Through()
    ensures CommitCompaction(Early(t, Rewound), candidates, t.key, t.summary) ==
            Success(Some(Late(t, Rewound, |t.entries|)))
  {
    var c := Early(t, Rewound);
    CommitSucceedsIff(c, candidates, t.key, t.summary);
    var retired := RetireWhere(c.rows, Between(t.first + 1, t.Through()), Compacted);
    assert retired == EntryRows(t, Rewound, Compacted, |t.entries|);
    assert c.boundaries + [t.Through()] == [t.Through()];
  }

  lemma ReadsRange(before: seq<Step>, c: Context, count: pos)
    requires Run(EMPTY_STORE, before) == Store(c, None) && count <= |View(c)|
    ensures Unchanged(c, Numbers(View(c)[..count]))
    ensures Next(Store(c, None), Read(count)) == Store(c, Some(Numbers(View(c)[..count])))
  {
    RunKeepsInv(before);
    FirstRowsAreRange(c, count);
  }

  /** A compaction reads the first rows of the view, and they are the active rows of their range. */
  lemma ReadStep(settings: Settings, limits: Limits, before: seq<Step>, c: Context)
    requires Run(EMPTY_STORE, before) == Store(c, None) && SelectedRunAt(settings, limits, before)
    requires PlainView(c, settings)
    ensures var candidates, steps := Numbers(View(c)[..settings.minItems]), before + [Read(settings.minItems)];
            && Unchanged(c, candidates)
            && Run(EMPTY_STORE, steps) == Store(c, Some(candidates))
            && SelectedRunAt(settings, limits, steps)
            && (NoRevivalRun(before) ==> NoRevivalRun(steps))
  {
    ReadsRange(before, c, settings.minItems);
    ReadTakesMinItems(Store(c, None), settings, limits);
    OneMore(settings, limits, before, Read(settings.minItems));
  }

  /** A commit that succeeds, as a step of a run. */
  lemma CommitStep(settings: Settings, limits: Limits, before: seq<Step>, c: Context, candidates: seq<int>,
      key: string, summary: Item, c': Context)
    requires Run(EMPTY_STORE, before) == Store(c, Some(candidates)) && candidates != []
    requires SelectedRunAt(settings, limits, before)
    requires CommitCompaction(c, candidates, key, summary) == Success(Some(c'))
    ensures Run(EMPTY_STORE, before + [Commit(key, summary)]) == Store(c', None)
    ensures SelectedRunAt(settings, limits, before + [Commit(key, summary)])
    ensures NoRevivalRun(before) ==> NoRevivalRun(before + [Commit(key, summary)])
  {
    OneMore(settings, limits, before, Commit(key, summary));
  }

  lemma EarlyEnds(t: Story, candidates: seq<int>)
    requires t.Fits() && candidates == Numbers(Early(t, Rewound).rows[t.first..][..t.settings.minItems])
    ensures candidates[0] == t.first + 1 && candidates[|candidates| - 1] == t.Through()
  {}

  lemma AfterCompactedOnce(t: Story)
    requires t.Fits()
    ensures Run(EMPTY_STORE, t.CompactedOnce()) == Store(Late(t, Rewound, |t.entries|), None)
    ensures SelectedRunAt(t.settings, t.limits, t.CompactedOnce()) && NoRevivalRun(t.CompactedOnce())
  {
    var c, c', n := Early(t, Rewound), Late(t, Rewound, |t.entries|), t.settings.minItems;
    AfterBegun(t);
    RunKeepsInv(t.Begun());
    EarlyView(t);
    var candidates := Numbers(View(c)[..n]);
    EarlyEnds(t, candidates);
    ReadStep(t.settings, t.limits, t.Begun(), c);
    FirstCommit(t, candidates);
    CommitStep(t.settings, t.limits, t.Begun() + [Read(n)], c, candidates, t.key, t.summary, c');
  }

  lemma AfterRevived(t: Story)
    requires t.Fits()
    ensures Run(EMPTY_STORE, t.Revived()) == Store(Late(t, Active, t.Remaining()), None)
    ensures SelectedRunAt(t.settings, t.limits, t.Revived())
    ensures t.first == 0 ==> NoRevivalRun(t.Revived())
  {
    var rewind := Rewind(Beyond(t.Remaining()));
    AfterCompactedOnce(t);
    RewindLast(t);
    OneMore(t.settings, t.limits, t.CompactedOnce(), rewind);
    RunKeepsInv(t.CompactedOnce() + [rewind]);
    AddFirstAgain(t);
    OneMore(t.settings, t.limits, t.CompactedOnce() + [rewind], Add(t.entries[..t.first]));
  }

  /** The second compaction reads the revived rows, and the summary if it needs one more. */
  lemma AfterSecondRead(t: Story, candidates: seq<int>)
    requires t.Fits() && candidates == Numbers(LateActive(t)[..t.settings.minItems])
    ensures var c, steps := Late(t, Active, t.Remaining()), t.Revived() + [Read(t.settings.minItems)];
            && Recorded(c) && Unchanged(c, candidates)
            && Run(EMPTY_STORE, steps) == Store(c, Some(candidates))
            && SelectedRunAt(t.settings, t.limits, steps)
            && (t.first == 0 ==> NoRevivalRun(steps))
  {
    AfterRevived(t);
    RunKeepsInv(t.Revived());
    LateView(t);
    ReadStep(t.settings, t.limits, t.Revived(), Late(t, Active, t.Remaining()));
  }

  lemma LastCandidate(t: Story, candidates: seq<int>)
    requires t.Fits() && candidates == Numbers(LateActive(t)[..t.settings.minItems])
    ensures candidates[|candidates| - 1] == if t.first == t.settings.minItems then t.settings.minItems else t.Through()
  {
    LateActiveAt(t, t.settings.minItems - 1);
  }

  // ----- The failures -----

  lemma RepeatIsRefused(s: Store, key: string, summary: Item)
    requires Inv(s.context) && s.pending.Some? && s.pending.value != [] && Unchanged(s.context, s.pending.value)
    requires s.context.boundaries == [s.pending.value[|s.pending.value| - 1]]
    ensures !Rising(s)
    ensures KeyFree(s.context.rows, key) ==>
              CommitCompaction(s.context, s.pending.value, key, summary) == Failure(DuplicateBoundary)
  {
    CommitSucceedsIff(s.context, s.pending.value, key, summary);
  }

  /** A commit above or below the boundaries, but not at one of them, is recorded. */
  lemma CommitRecords(c: Context, candidates: seq<int>, key: string, summary: Item) returns (c': Context)
    requires Inv(c) && candidates != [] && Unchanged(c, candidates) && KeyFree(c.rows, key)
    requires candidates[|candidates| - 1] !in c.boundaries
    ensures CommitCompaction(c, candidates, key, summary) == Success(Some(c'))
    ensures c'.boundaries == c.boundaries + [candidates[|candidates| - 1]]
  {
    CommitSucceedsIff(c, candidates, key, summary);
    c' := CommitCompaction(c, candidates, key, summary).value.value;
  }

  /** A run of chosen compactions that records these boundaries. */
  ghost predicate Records(settings: Settings, limits: Limits, steps: seq<Step>, boundaries: seq<int>) {
    SelectedRunAt(settings, limits, steps) && Run(EMPTY_STORE, steps).context.boundaries == boundaries
  }

  lemma CommitRuns(settings: Settings, limits: Limits, before: seq<Step>, c: Context, candidates: seq<int>,
      key: string, summary: Item)
    requires Run(EMPTY_STORE, before) == Store(c, Some(candidates)) && SelectedRunAt(settings, limits, before)
    requires Inv(c) && candidates != [] && Unchanged(c, candidates) && KeyFree(c.rows, key)
    requires candidates[|candidates| - 1] !in c.boundaries
    ensures Records(settings, limits, before + [Commit(key, summary)], c.boundaries + [candidates[|candidates| - 1]])
  {
    var c' := CommitRecords(c, candidates, key, summary);
    CommitStep(settings, limits, before, c, candidates, key, summary, c');
  }

  /** For all settings: `minItems - 1` items are rewound, the next ones compacted, the first
      ones added again; the selection then takes them with the summary, and the commit is
      refused because its boundary exists. */
  lemma RevivalRepeatsBoundary(t: Story, key: string)
    requires t.Fits() && t.first == t.settings.minItems - 1
    ensures var steps := t.Revived() + [Read(t.settings.minItems)];
            var s := Run(EMPTY_STORE, steps);
            && SelectedRunAt(t.settings, t.limits, steps) && (t.first == 0 ==> NoRevivalRun(steps))
            && !Rising(s) && s.pending.Some? && s.pending.value != []
            && (KeyFree(s.context.rows, key) ==>
                  CommitCompaction(s.context, s.pending.value, key, t.summary) == Failure(DuplicateBoundary))
  {
    var c, candidates := Late(t, Active, t.Remaining()), Numbers(LateActive(t)[..t.settings.minItems]);
    AfterSecondRead(t, candidates);
    LastCandidate(t, candidates);
    RepeatIsRefused(Store(c, Some(candidates)), key, t.summary);
  }

  /** The same with `minItems` items: the selection takes exactly these, and the second
      boundary is recorded below the first. */
  lemma RevivalLowersBoundary(t: Story, key: string)
    requires t.Fits() && t.first == t.settings.minItems && KeyFree(Late(t, Active, t.Remaining()).rows, key)
    ensures var n := t.settings.minItems;
            Records(t.settings, t.limits, t.Revived() + [Read(n)] + [Commit(key, t.summary)], [2 * n] + [n])
  {
    var c, candidates := Late(t, Active, t.Remaining()), Numbers(LateActive(t)[..t.settings.minItems]);
    AfterSecondRead(t, candidates);
    LastCandidate(t, candidates);
    CommitRuns(t.settings, t.limits, t.Revived() + [Read(t.settings.minItems)], c, candidates, key, t.summary);
    assert t.Through() == 2 * t.settings.minItems;
  }

  // ----- Settings -----

  function Plain(id: string): Item {
    Item(OtherItem, Falsy, Text(id), 0)
  }

  function Letters(n: nat): string {
    seq(n, _ => 'x')
  }

  /** A story about plain items with ids of their own. */
  function Example(settings: Settings, limits: Limits, first: nat): Story {
    var count := first + settings.minItems + settings.preserveRecentItems;
    var items := seq(count, i requires 0 <= i => Plain(Letters(i + 1)));
    Story(settings, limits, first, Serialized(items), "compaction:1", Plain("context_summary"))
  }

  lemma ExampleEntry(settings: Settings, limits: Limits, first: nat, i: nat)
    requires i < |Example(settings, limits, first).entries|
    ensures var entry := Example(settings, limits, first).entries[i];
            entry.item.kind.OtherItem? && |entry.key| == i + 6 && entry.key[0] == 'i'
  {
    assert Example(settings, limits, first).entries[i].key == DedupeKey(Plain(Letters(i + 1)));
  }

  lemma ExampleFits(settings: Settings, limits: Limits, first: nat)
    requires settings.minItems - 1 <= first <= settings.minItems
    ensures Example(settings, limits, first).Fits()
  {
    var e := Example(settings, limits, first).entries;
    forall i | 0 <= i < |e| ensures e[i].item.kind.OtherItem? && |e[i].key| == i + 6 && e[i].key[0] == 'i' {
      ExampleEntry(settings, limits, first, i);
    }
    DistinctByLength(e);
  }

  lemma DistinctByLength(e: seq<Keyed>)
    requires forall i :: 0 <= i < |e| ==> |e[i].key| == i + 6
    ensures DistinctKeys(e)
  {}

  lemma ExampleKeyFree(settings: Settings, limits: Limits)
    requires Example(settings, limits, settings.minItems).Fits()
    ensures var t := Example(settings, limits, settings.minItems);
            KeyFree(Late(t, Active, t.Remaining()).rows, "compaction:2")
  {
    var t := Example(settings, limits, settings.minItems);
    var rows := Late(t, Active, t.Remaining()).rows;
    forall i | 0 <= i < |t.entries| ensures rows[i].dedupeKey[..1] == "i" {
      assert rows[i].dedupeKey == DedupeKey(Plain(Letters(i + 1)));
    }
    assert "compaction:2"[..1] == "c";
  }

  /** No settings prevent it: each has a run of chosen compactions whose last commit is refused. */
  lemma NoSettingsSuffice(settings: Settings, limits: Limits)
    ensures exists steps :: SelectedRunAt(settings, limits, steps) && !Rising(Run(EMPTY_STORE, steps))
  {
    ExampleFits(settings, limits, settings.minItems - 1);
    RevivalRepeatsBoundary(Example(settings, limits, settings.minItems - 1), "");
  }

  /** And each has one that records its second boundary below the first. */
  lemma NoSettingsKeepOrder(settings: Settings, limits: Limits)
    ensures exists steps :: Records(settings, limits, steps, [2 * settings.minItems] + [settings.minItems])
  {
    var t := Example(settings, limits, settings.minItems);
    ExampleFits(settings, limits, settings.minItems);
    ExampleKeyFree(settings, limits);
    RevivalLowersBoundary(t, "compaction:2");
    var steps := t.Revived() + [Read(settings.minItems)] + [Commit("compaction:2", t.summary)];
    assert Records(settings, limits, steps, [2 * settings.minItems] + [settings.minItems]);
  }

  /** Chosen compactions without revival below the floor keep the order. */
  ghost predicate KeepsOrder(settings: Settings, steps: seq<Step>) {
    SelectedRun(settings, steps) && NoRevivalRun(steps) ==> Rising(Run(EMPTY_STORE, steps))
  }

  lemma SummaryRepeats(t: Story)
    requires t.Fits() && t.settings.minItems == 1 && t.first == 0
    ensures var steps := t.Revived() + [Read(1)];
            SelectedRunAt(t.settings, t.limits, steps) && !KeepsOrder(t.settings, steps)
  {
    RevivalRepeatsBoundary(t, "");
    SelectedAtIsSelected(t.settings, t.limits, t.Revived() + [Read(1)]);
  }

  /** With a minimum of one item, the summary alone is compacted again. */
  lemma OneItemRepeats(settings: Settings, limits: Limits)
    requires settings.minItems == 1
    ensures exists steps :: SelectedRunAt(settings, limits, steps) && !KeepsOrder(settings, steps)
  {
    ExampleFits(settings, limits, 0);
    SummaryRepeats(Example(settings, limits, 0));
  }

  /** They keep it in every run if and only if they take at least two rows. */
  lemma MinItemsIff(settings: Settings)
    ensures (forall steps :: KeepsOrder(settings, steps)) <==> settings.minItems >= 2
  {
    if settings.minItems >= 2 {
      forall steps ensures KeepsOrder(settings, steps) {
        if SelectedRun(settings, steps) && NoRevivalRun(steps) { QuietRunRises(settings, steps); }
      }
    } else {
      OneItemRepeats(settings, Limits(1, 1));
    }
  }
}
