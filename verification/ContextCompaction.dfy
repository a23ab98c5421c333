/**
 The decision of `compact_context_if_needed` on the rows of a context: which prefix the
 boundary selection hands to a compaction, and what that means for the recorded boundaries.
 */
module ContextCompaction {
  import opened Options
  import opened ContextRows
  import opened ContextViews
  import opened ContextRuns
  import opened CompactionBoundary
  import opened ToolConservation
  import ToolTransactions

  // ----- From rows to candidates -----

  /** A stored item as the boundary selection sees it. */
  function ModelItem(item: Item): ToolTransactions.Item {
    match item.kind
    case Call => ToolTransactions.FunctionCall(ToolId(item), item.tag)
    case CallOutput => ToolTransactions.FunctionCallOutput(ToolId(item), item.tag)
    case OtherItem => ToolTransactions.Other(item.tag)
  }

  function Seen(items: seq<Item>): (seen: seq<ToolTransactions.Item>)
    ensures |seen| == |items| && forall i :: 0 <= i < |items| ==> seen[i] == ModelItem(items[i])
  {
    seq(|items|, i requires 0 <= i < |items| => ModelItem(items[i]))
  }

  /** What else the selection reads off an item. */
  datatype Estimate = Estimate(tokens: Item -> nat, inProgress: Item -> bool)

  function Candidates(view: seq<Row>, est: Estimate): (rows: seq<Candidate>)
    ensures |rows| == |view|
    ensures forall i :: 0 <= i < |view| ==>
              rows[i] == Candidate(ModelItem(view[i].item), est.tokens(view[i].item), est.inProgress(view[i].item))
  {
    seq(|view|, i requires 0 <= i < |view| =>
      Candidate(ModelItem(view[i].item), est.tokens(view[i].item), est.inProgress(view[i].item)))
  }

  /** The shares of the context window at which a compaction starts and at which it aims. */
  datatype Limits = Limits(trigger: nat, target: nat)

  /** What a compaction is decided on besides the rows and the settings. */
  datatype Request = Request(est: Estimate, incoming: nat, limits: Limits)

  function Projected(rows: seq<Candidate>, r: Request): nat {
    Tokens(rows) + r.incoming
  }

  /** How many rows are compacted: none below the trigger, else what the selection returns. */
  ghost predicate Chooses(c: Context, settings: Settings, r: Request, count: Option<nat>) {
    var rows := Candidates(View(c), r.est);
    if Projected(rows, r) < r.limits.trigger then count.None?
    else IsBoundary(rows, settings, Projected(rows, r), r.limits.target, count)
  }

  lemma ChosenIsEligible(c: Context, settings: Settings, r: Request, count: nat)
    requires Chooses(c, settings, r, Some(count))
    ensures settings.minItems <= count <= |View(c)| - settings.preserveRecentItems
    ensures Eligible(Candidates(View(c), r.est), settings, r.limits.target, count)
  {
    BoundaryPreservesRecent(Candidates(View(c), r.est), settings, r.limits.target, count);
  }

  /** A compaction happens exactly when the context and the incoming items reach the trigger
      and some prefix may be compacted. */
  lemma CompactsIff(c: Context, settings: Settings, r: Request, count: Option<nat>)
    requires Chooses(c, settings, r, count)
    ensures var rows := Candidates(View(c), r.est);
            count.Some? <==> Tokens(rows) + r.incoming >= r.limits.trigger
                             && exists n: nat :: MayCompact(rows, settings, r.limits.target, n)
  {
    var rows := Candidates(View(c), r.est);
    if Projected(rows, r) >= r.limits.trigger { BoundaryIs(rows, settings, r.incoming, r.limits.target, count); }
  }

  // ----- Tool calls of the kept rows -----

  predicate CallAt(view: seq<Row>, i: int, id: string) {
    0 <= i < |view| && view[i].item.kind.Call? && ToolId(view[i].item) == id
  }

  predicate OutputAt(view: seq<Row>, i: int, id: string) {
    0 <= i < |view| && view[i].item.kind.CallOutput? && ToolId(view[i].item) == id
  }

  /** Call ids are usable and distinct, and each output has one place and follows its call. */
  ghost predicate PairedView(view: seq<Row>) {
    && (forall i :: !CallAt(view, i, ""))
    && (forall i, j, id :: CallAt(view, i, id) && CallAt(view, j, id) ==> i == j)
    && (forall i, j, id :: OutputAt(view, i, id) && OutputAt(view, j, id) ==> i == j)
    && (forall j, id :: OutputAt(view, j, id) ==> exists i :: i < j && CallAt(view, i, id))
  }

  /** The candidates are the view, item by item. */
  lemma CandidateTools(view: seq<Row>, est: Estimate, i: int, id: string)
    ensures ItemsOf(Candidates(view, est)) == Seen(Items(view))
    ensures IsCall(ItemsOf(Candidates(view, est)), i, id) <==> CallAt(view, i, id)
    ensures IsOutput(ItemsOf(Candidates(view, est)), i, id) <==> OutputAt(view, i, id)
  {
    assert ItemsOf(Candidates(view, est)) == Seen(Items(view));
  }

  /** On a well-paired view no output that stays active loses its call to a compaction. */
  lemma CompactionSplitsNoPair(c: Context, settings: Settings, r: Request, count: nat, j: nat, id: string)
    requires PairedView(View(c)) && Chooses(c, settings, r, Some(count))
    requires count <= j && OutputAt(View(c), j, id)
    ensures exists i :: count <= i < j && CallAt(View(c), i, id)
  {
    var view, rows := View(c), Candidates(View(c), r.est);
    var items := ItemsOf(rows);
    forall i, id' ensures IsCall(items, i, id') <==> CallAt(view, i, id') { CandidateTools(view, r.est, i, id'); }
    forall i, id' ensures IsOutput(items, i, id') <==> OutputAt(view, i, id') { CandidateTools(view, r.est, i, id'); }
    forall k, id' | IsOutput(items, k, id') ensures exists i :: i < k && IsCall(items, i, id') {
      var i :| i < k && CallAt(view, i, id');
      assert IsCall(items, i, id');
    }
    NoKeptOutputLosesItsCall(rows, settings, r.limits.target, count, j, id);
    var i :| count <= i < j && IsCall(items, i, id);
    assert CallAt(view, i, id);
  }

  // ----- When the chosen boundary exceeds the last one -----

  /** Some prefix that may be compacted ends above the last boundary, and none that ends at or
      below it meets the target. */
  ghost predicate SelectsAbove(c: Context, settings: Settings, r: Request) {
    var rows, low := Candidates(View(c), r.est), ActiveUpTo(c, LastBoundary(c));
    && (exists m: nat :: low < m && Eligible(rows, settings, r.limits.target, m))
    && (forall m: nat :: m <= low && Eligible(rows, settings, r.limits.target, m) ==>
          !MeetsTarget(rows, settings, Projected(rows, r), r.limits.target, m))
  }

  lemma ChosenCountIff(c: Context, settings: Settings, r: Request, count: nat)
    requires Chooses(c, settings, r, Some(count))
    ensures ActiveUpTo(c, LastBoundary(c)) < count <==> SelectsAbove(c, settings, r)
  {}

  /** The compaction that is chosen, if no concurrent change meets it, is recorded above all
      earlier boundaries if and only if the selection finds a prefix that ends above the last
      boundary and none at or below it that meets the target. */
  lemma ChosenExceedsIff(s: Store, settings: Settings, r: Request, count: nat, key: string, summary: Item)
    requires Recorded(s.context) && Increasing(s.context.boundaries) && KeyFree(s.context.rows, key)
    requires Chooses(s.context, settings, r, Some(count))
    ensures var c, c' := s.context, Next(Next(s, Read(count)), Commit(key, summary)).context;
            |c'.boundaries| == |c.boundaries| + 1 && Increasing(c'.boundaries)
            <==> SelectsAbove(c, settings, r)
  {
    ChosenIsEligible(s.context, settings, r, count);
    ChosenCountIff(s.context, settings, r, count);
    BoundaryExceedsIff(s, count, key, summary);
  }

  // ----- Runs -----

  /** A compaction takes what the boundary selection chose, for some request. */
  ghost predicate Selected(settings: Settings, s: Store, step: Step) {
    step.Read? ==> exists r: Request :: Chooses(s.context, settings, r, Some(step.count))
  }

  ghost predicate SelectedRun(settings: Settings, steps: seq<Step>) {
    steps == [] ||
    var before := steps[..|steps| - 1];
    SelectedRun(settings, before) && Selected(settings, Run(EMPTY_STORE, before), steps[|steps| - 1])
  }

  /** The same within one and the same context window. */
  ghost predicate SelectedAt(settings: Settings, limits: Limits, s: Store, step: Step) {
    step.Read? ==> exists est, incoming: nat ::
      Chooses(s.context, settings, Request(est, incoming, limits), Some(step.count))
  }

  ghost predicate SelectedRunAt(settings: Settings, limits: Limits, steps: seq<Step>) {
    steps == [] ||
    var before := steps[..|steps| - 1];
    && SelectedRunAt(settings, limits, before)
    && SelectedAt(settings, limits, Run(EMPTY_STORE, before), steps[|steps| - 1])
  }

  lemma {:induction false} SelectedAtIsSelected(settings: Settings, limits: Limits, steps: seq<Step>)
    requires SelectedRunAt(settings, limits, steps)
    ensures SelectedRun(settings, steps)
  {
    if steps != [] {
      var before, step := steps[..|steps| - 1], steps[|steps| - 1];
      SelectedAtIsSelected(settings, limits, before);
      if step.Read? {
        var est, incoming: nat :|
          Chooses(Run(EMPTY_STORE, before).context, settings, Request(est, incoming, limits), Some(step.count));
      }
    }
  }

  /** When a compaction reads, fewer rows than the smallest compaction takes are active at or
      below the last boundary. */
  predicate FewBelow(settings: Settings, s: Store, step: Step) {
    step.Read? ==> ActiveUpTo(s.context, LastBoundary(s.context)) < settings.minItems
  }

  predicate FewBelowRun(settings: Settings, steps: seq<Step>) {
    steps == [] ||
    var before := steps[..|steps| - 1];
    FewBelowRun(settings, before) && FewBelow(settings, Run(EMPTY_STORE, before), steps[|steps| - 1])
  }

  predicate NoRevivalRun(steps: seq<Step>) {
    steps == [] ||
    var before := steps[..|steps| - 1];
    NoRevivalRun(before) && NoRevivalBelow(Run(EMPTY_STORE, before), steps[|steps| - 1])
  }

  /** A chosen compaction is ample wherever few rows are active below the last boundary. */
  lemma SelectedIsAmple(settings: Settings, s: Store, step: Step)
    requires Selected(settings, s, step) && FewBelow(settings, s, step)
    ensures Ample(s, step)
  {
    if step.Read? {
      var r: Request :| Chooses(s.context, settings, r, Some(step.count));
      ChosenIsEligible(s.context, settings, r, step.count);
    }
  }

  /** Whatever is revived, the boundaries of the compactions that the selection chooses
      strictly increase as long as fewer than `minItems` rows are active at or below the last
      boundary whenever a compaction reads. */
  lemma {:induction false} SelectedRunRises(settings: Settings, steps: seq<Step>)
    requires SelectedRun(settings, steps) && FewBelowRun(settings, steps)
    ensures Rising(Run(EMPTY_STORE, steps))
  {
    if steps != [] {
      var before, step := steps[..|steps| - 1], steps[|steps| - 1];
      SelectedRunRises(settings, before);
      SelectedIsAmple(settings, Run(EMPTY_STORE, before), step);
      NextKeepsRising(Run(EMPTY_STORE, before), step);
    }
  }

  lemma SelectedIsCareful(settings: Settings, s: Store, step: Step)
    requires Selected(settings, s, step) && NoRevivalBelow(s, step) && settings.minItems >= 2
    ensures Careful(s, step)
  {
    if step.Read? {
      var r: Request :| Chooses(s.context, settings, r, Some(step.count));
    }
  }

  /** With settings that compact at least two rows, and nothing revived below the floor, every
      run of chosen compactions has strictly increasing boundaries and no refused one. */
  lemma {:induction false} QuietRunRises(settings: Settings, steps: seq<Step>)
    requires SelectedRun(settings, steps) && NoRevivalRun(steps) && settings.minItems >= 2
    ensures var s := Run(EMPTY_STORE, steps); Advancing(s) && Rising(s)
  {
    if steps != [] {
      var before, step := steps[..|steps| - 1], steps[|steps| - 1];
      var s := Run(EMPTY_STORE, before);
      QuietRunRises(settings, before);
      SelectedIsCareful(settings, s, step);
      CarefulIsAmple(s, step);
      NextKeepsAdvancing(s, step);
      NextKeepsRising(s, step);
    }
  }

  // ----- The decision -----

  /** `compact_context_if_needed` up to the candidates: the sequence numbers to compact. */
  method ChooseCandidates(c: Context, settings: Settings, r: Request) returns (chosen: Option<seq<int>>)
    ensures chosen.None? ==> Chooses(c, settings, r, None)
    ensures chosen.Some? ==>
              var count := |chosen.value|;
              && Chooses(c, settings, r, Some(count))
              && Next(Store(c, None), Read(count)).pending == chosen
  {
    var rows := Candidates(View(c), r.est);
    var projected := Projected(rows, r);
    if projected < r.limits.trigger {
      return None;
    }
    var boundary := SelectBoundary(rows, settings, projected, r.limits.target);
    if boundary.None? {
      return None;
    }
    ChosenIsEligible(c, settings, r, boundary.value);
    return Some(Numbers(View(c)[..boundary.value]));
  }
}
