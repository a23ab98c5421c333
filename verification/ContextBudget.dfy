/**
 Fitting one model call into its context window: the budget, the pruning of older items,
 and exactly when pruning fails.
 */
module ContextBudget {
  import opened Options
  import opened ToolTransactions
  import opened ToolConservation
  import opened CompactionBoundary
  import opened ContextChunks

  // ----- The budget -----

  const MIN_COMPLETION_SLACK_TOKENS := 2048

  function Min(a: int, b: int): int {
    if a < b then a else b
  }

  /** Tokens reserved for the completion. */
  function CompletionSlack(window: pos): int {
    Min(MIN_COMPLETION_SLACK_TOKENS, Max(1, window / 10))
  }

  /** `resolve_context_budget` for the call ratio `num / den`; no budget without a window. */
  function ResolveBudget(window: int, num: nat, den: pos): Option<nat> {
    if window <= 0 then None
    else
      var ratioBudget := window * num / den;
      var hardBudget := Max(1, window - CompletionSlack(window));
      Some(Max(1, Min(ratioBudget, hardBudget)))
  }

  /** A full budget leaves the slack free in every window of at least two tokens, and only
      in those. */
  lemma BudgetLeavesSlackIff(window: pos, num: nat, den: pos)
    ensures ResolveBudget(window, num, den).Some? && 1 <= CompletionSlack(window) <= MIN_COMPLETION_SLACK_TOKENS
    ensures ResolveBudget(window, num, den).value + CompletionSlack(window) <= window <==> window >= 2
  {}

  /** The slack is the greatest of 1 and the numbers up to 2048 and a tenth of the window. */
  lemma SlackIsGreatest(window: pos)
    ensures var slack := CompletionSlack(window);
            && slack <= 2048 && (slack == 1 || 10 * slack <= window)
            && forall more :: slack < more <= 2048 ==> 10 * more > window
  {}

  /** The budget is the greatest of 1 and the numbers within the share of the window that a call
      may use and within what the completion slack leaves. */
  lemma BudgetIsGreatest(window: pos, num: nat, den: pos)
    ensures var budget, slack := ResolveBudget(window, num, den).value, CompletionSlack(window);
            && (budget == 1 || (budget * den <= window * num && budget + slack <= window))
            && forall more :: more > budget ==> more * den > window * num || more + slack > window
  {
    var share, slack := window * num / den, CompletionSlack(window);
    ShareIs(window * num, den, share);
    forall more: int ensures more * den <= window * num <==> more <= share {
      WithinShareIff(window * num, den, share, more);
    }
  }

  lemma ShareIs(total: nat, den: pos, share: nat)
    requires share == total / den
    ensures share * den <= total < (share + 1) * den
  {}

  lemma WithinShareIff(total: nat, den: pos, share: nat, more: int)
    requires share * den <= total < (share + 1) * den
    ensures more * den <= total <==> more <= share
  {
    if more <= share {
      assert more * den <= share * den;
    } else {
      assert (share + 1) * den <= more * den;
    }
  }

  // ----- Pruning -----

  /** `_split_context_anchor`: a leading context summary stays. */
  predicate IsSummary(item: Item) {
    item.Message? && item.role == "user" && item.id == Some("context_summary")
  }

  function Anchor(items: seq<Item>): seq<Item> {
    if items != [] && IsSummary(items[0]) then [items[0]] else []
  }

  function Tail(items: seq<Item>): seq<Item> {
    if items != [] && IsSummary(items[0]) then items[1..] else items
  }

  /** How pruning ends: with or without the fallback that drops the anchor, or with one of
      its two errors. */
  datatype PruneResult =
    | Pruned(items: seq<Item>)
    | PrunedByFallback(items: seq<Item>)
    | LatestTooLarge
    | StillTooLarge

  /** The anchor that is kept, once what is left for the suffix is known. */
  function KeptAnchor(tokens: Item -> nat, items: seq<Item>, notice: Item, budget: int): seq<Item> {
    if budget - Cost(tokens, Anchor(items)) - Cost(tokens, [notice]) <= 0 then [] else Anchor(items)
  }

  /** The budget the suffix of recent chunks has in the end. */
  function SuffixBudget(tokens: Item -> nat, items: seq<Item>, notice: Item, budget: int): nat {
    Max(0, budget - Cost(tokens, KeptAnchor(tokens, items, notice, budget)) - Cost(tokens, [notice]))
  }

  /** What stands before the suffix: the anchor, and the notice if something was omitted. */
  function Front(anchor: seq<Item>, notice: Item, omitted: nat): seq<Item> {
    if omitted == 0 then anchor else anchor + [notice]
  }

  function Candidate(anchor: seq<Item>, notice: Item, suffix: seq<Item>, omitted: nat): seq<Item> {
    Front(anchor, notice, omitted) + suffix
  }

  /** What pruning comes to: the error about the newest chunk or the pruned items, never the
      fallback nor the last error. */
  function Pruning(tokens: Item -> nat, items: seq<Item>, notice: Item, budget: int): PruneResult {
    if NewestChunkTooLarge(tokens, items, notice, budget) then LatestTooLarge
    else Pruned(PrunedItems(tokens, items, notice, budget))
  }

  // ----- What pruning means for the items -----

  /** The context summary, a user message with that id, leads the items. */
  predicate SummaryLeads(items: seq<Item>) {
    items != [] && items[0].Message? && items[0].role == "user" && items[0].id == Some("context_summary")
  }

  /** What follows it. */
  function Rest(items: seq<Item>): seq<Item> {
    if SummaryLeads(items) then items[1..] else items
  }

  /** It fits together with the notice. */
  predicate SummaryFits(tokens: Item -> nat, items: seq<Item>, notice: Item, budget: int) {
    SummaryLeads(items) && Cost(tokens, [items[0]]) + Cost(tokens, [notice]) < budget
  }

  /** What the summary and the notice leave to the rest. */
  function RestLimit(tokens: Item -> nat, items: seq<Item>, notice: Item, budget: int): nat {
    Max(0, budget - Cost(tokens, [notice]) -
           if SummaryFits(tokens, items, notice, budget) then Cost(tokens, [items[0]]) else 0)
  }

  /** The items after the summary, from `k` on, are some last chunks. */
  ghost predicate RestFits(tokens: Item -> nat, items: seq<Item>, notice: Item, budget: int, k: nat) {
    && k <= |Rest(items)| && ChunkStart(Rest(items), k)
    && Cost(tokens, Rest(items)[k..]) <= RestLimit(tokens, items, notice, budget)
  }

  /** The result is the summary if it fits, the notice exactly if something is omitted, and
      the longest affordable run of last chunks of the rest, without orphaned tool items. */
  ghost predicate PrunedAt(tokens: Item -> nat, items: seq<Item>, notice: Item, budget: int, out: seq<Item>, k: nat) {
    && RestFits(tokens, items, notice, budget, k)
    && (forall j: nat :: RestFits(tokens, items, notice, budget, j) ==> k <= j)
    && out == (if SummaryFits(tokens, items, notice, budget) then [items[0]] else [])
              + (if k > 0 then [notice] else []) + DropOrphans(Rest(items)[k..])
  }

  ghost predicate IsPruned(tokens: Item -> nat, items: seq<Item>, notice: Item, budget: int, out: seq<Item>) {
    exists k :: PrunedAt(tokens, items, notice, budget, out, k)
  }

  /** There is something to keep besides the summary, and not even the last chunk fits. */
  ghost predicate NothingFits(tokens: Item -> nat, items: seq<Item>, notice: Item, budget: int) {
    && Rest(items) != []
    && forall k: nat :: RestFits(tokens, items, notice, budget, k) ==> k == |Rest(items)|
  }

  /** `_prune_items_to_budget`. */
  method PruneItems(tokens: Item -> nat, items: seq<Item>, notice: Item, budget: int) returns (r: PruneResult)
    requires budget > 0 && !IsTool(notice)
    ensures r == Pruning(tokens, items, notice, budget)
    ensures r.Pruned? ==> Cost(tokens, r.items) <= budget
    ensures r.Pruned? ==> IsPruned(tokens, items, notice, budget, r.items)
    ensures !r.Pruned? <==> NothingFits(tokens, items, notice, budget)
  {
    var anchor, tail := Anchor(items), Tail(items);
    var noticeTokens := Cost(tokens, [notice]);
    var suffixBudget := budget - Cost(tokens, anchor) - noticeTokens;
    if suffixBudget <= 0 && anchor != [] {
      anchor := [];
      suffixBudget := budget - noticeTokens;
    }
    assert anchor == KeptAnchor(tokens, items, notice, budget);
    assert Max(0, suffixBudget) == SuffixBudget(tokens, items, notice, budget);
    var chunks := BuildChunks(tail);
    var suffix, omitted := SelectRecentChunks(tokens, chunks, Max(0, suffixBudget));
    ChunksAreLossless(tail);
    NothingSelectedIff(tokens, chunks, Max(0, suffixBudget));
    if suffix == [] && chunks != [] {
      PruningIs(tokens, items, notice, budget);
      return LatestTooLarge;
    }
    var candidate := DropOrphanToolItems(Candidate(anchor, notice, suffix, omitted));
    CandidateFits(tokens, items, notice, budget);
    if Cost(tokens, candidate) <= budget {
      PruningIs(tokens, items, notice, budget);
      return Pruned(candidate);
    }
    if anchor != [] {
      candidate := DropOrphanToolItems(Candidate([], notice, suffix, omitted));
      if Cost(tokens, candidate) <= budget {
        return PrunedByFallback(candidate);
      }
    }
    return StillTooLarge;
  }

  /** The tail is not empty and its newest chunk alone exceeds the final suffix budget. */
  predicate NewestChunkTooLarge(tokens: Item -> nat, items: seq<Item>, notice: Item, budget: int) {
    var chunks := ChunksOf(Tail(items));
    chunks != [] && Cost(tokens, chunks[|chunks| - 1]) > SuffixBudget(tokens, items, notice, budget)
  }

  /** The items pruning returns: the longest affordable suffix, after the anchor. */
  function PrunedItems(tokens: Item -> nat, items: seq<Item>, notice: Item, budget: int): seq<Item> {
    var chunks := ChunksOf(Tail(items));
    var start := SuffixStart(tokens, chunks, SuffixBudget(tokens, items, notice, budget));
    DropOrphans(Candidate(KeptAnchor(tokens, items, notice, budget), notice, FlattenChunks(chunks[start..]), start))
  }

  lemma LimitsAgree(tokens: Item -> nat, items: seq<Item>, notice: Item, budget: int)
    ensures SuffixBudget(tokens, items, notice, budget) == RestLimit(tokens, items, notice, budget)
    ensures KeptAnchor(tokens, items, notice, budget) ==
            if SummaryFits(tokens, items, notice, budget) then [items[0]] else []
    ensures Tail(items) == Rest(items)
  {}

  lemma RestIsChunks(tokens: Item -> nat, items: seq<Item>, notice: Item, budget: int, n: nat)
    requires n <= |ChunksOf(Tail(items))|
    ensures StartOf(Tail(items), n) <= |Tail(items)|
    ensures RestFits(tokens, items, notice, budget, StartOf(Tail(items), n)) <==>
            Cost(tokens, FlattenChunks(ChunksOf(Tail(items))[n..])) <= RestLimit(tokens, items, notice, budget)
  {
    StartSplits(Tail(items), n);
  }

  lemma StartIsLeast(tokens: Item -> nat, items: seq<Item>, notice: Item, budget: int, n: nat)
    requires n == SuffixStart(tokens, ChunksOf(Tail(items)), RestLimit(tokens, items, notice, budget))
    ensures n <= |ChunksOf(Tail(items))|
    ensures RestFits(tokens, items, notice, budget, StartOf(Tail(items), n))
    ensures forall j: nat :: RestFits(tokens, items, notice, budget, j) ==> StartOf(Tail(items), n) <= j
  {
    var tail := Tail(items);
    SuffixIsLongest(tokens, ChunksOf(tail), RestLimit(tokens, items, notice, budget));
    RestIsChunks(tokens, items, notice, budget, n);
    forall j: nat | RestFits(tokens, items, notice, budget, j) ensures StartOf(tail, n) <= j {
      var i :| 0 <= i <= |ChunksOf(tail)| && StartOf(tail, i) == j;
      RestIsChunks(tokens, items, notice, budget, i);
      StartsGrow(tail, n, i);
    }
  }

  lemma PrunedItemsAt(tokens: Item -> nat, items: seq<Item>, notice: Item, budget: int, n: nat)
    requires !IsTool(notice)
    requires n == SuffixStart(tokens, ChunksOf(Tail(items)), RestLimit(tokens, items, notice, budget))
    ensures PrunedAt(tokens, items, notice, budget, PrunedItems(tokens, items, notice, budget), StartOf(Tail(items), n))
  {
    var tail := Tail(items);
    LimitsAgree(tokens, items, notice, budget);
    StartIsLeast(tokens, items, notice, budget, n);
    StartSplits(tail, n);
    var anchor := if SummaryFits(tokens, items, notice, budget) then [items[0]] else [];
    CandidateWithoutOrphans(anchor, notice, tail, n);
  }

  lemma CandidateWithoutOrphans(anchor: seq<Item>, notice: Item, tail: seq<Item>, n: nat)
    requires n <= |ChunksOf(tail)| && !IsTool(notice) && forall i :: 0 <= i < |anchor| ==> !IsTool(anchor[i])
    ensures StartOf(tail, n) <= |tail|
    ensures DropOrphans(Candidate(anchor, notice, FlattenChunks(ChunksOf(tail)[n..]), n)) ==
            anchor + (if StartOf(tail, n) > 0 then [notice] else []) + DropOrphans(tail[StartOf(tail, n)..])
  {
    StartSplits(tail, n);
    NoToolInFront(Front(anchor, notice, n), FlattenChunks(ChunksOf(tail)[n..]));
    assert anchor + [] == anchor;
  }

  /** Pruning in terms of the items: what it returns, and when it fails. */
  lemma PruningIs(tokens: Item -> nat, items: seq<Item>, notice: Item, budget: int)
    requires !IsTool(notice)
    ensures IsPruned(tokens, items, notice, budget, PrunedItems(tokens, items, notice, budget))
    ensures NewestChunkTooLarge(tokens, items, notice, budget) <==> NothingFits(tokens, items, notice, budget)
  {
    var tail, limit := Tail(items), RestLimit(tokens, items, notice, budget);
    var n := SuffixStart(tokens, ChunksOf(tail), limit);
    PrunedItemsAt(tokens, items, notice, budget, n);
    LimitsAgree(tokens, items, notice, budget);
    ChunksAreLossless(tail);
    NothingSelectedIff(tokens, ChunksOf(tail), limit);
    StartSplits(tail, n);
    assert tail[StartOf(tail, n)..] == [] <==> StartOf(tail, n) == |tail|;
    StartIsLeast(tokens, items, notice, budget, n);
  }

  /** Items without tools in front are none of the orphans' business. */
  lemma NoToolInFront(front: seq<Item>, rest: seq<Item>)
    requires forall i :: 0 <= i < |front| ==> !IsTool(front[i])
    ensures DropOrphans(front + rest) == front + DropOrphans(rest)
  {
    IdsAppend(front, rest);
    assert CallIds(front) == {} && OutputIds(front) == {};
    var paired := CallIds(front + rest) * OutputIds(front + rest);
    assert paired == CallIds(rest) * OutputIds(rest);
    FilterAppends(paired, front, rest);
    FilterFacts(paired, front);
    forall item | item in front ensures Kept(paired, item) { assert !IsTool(item); }
  }

  /** No suffix is selected exactly when the newest chunk alone is too dear. */
  lemma NothingSelectedIff(tokens: Item -> nat, chunks: seq<seq<Item>>, budget: nat)
    requires NonEmpty(chunks)
    ensures var suffix := FlattenChunks(chunks[SuffixStart(tokens, chunks, budget)..]);
            suffix == [] && chunks != [] <==> chunks != [] && Cost(tokens, chunks[|chunks| - 1]) > budget
    ensures Cost(tokens, FlattenChunks(chunks[SuffixStart(tokens, chunks, budget)..])) <= budget
  {
    SuffixIsLongest(tokens, chunks, budget);
    assert chunks[|chunks|..] == [];
    if chunks != [] {
      var n := |chunks| - 1;
      ConsCost(tokens, chunks, n);
      var start := SuffixStart(tokens, chunks, budget);
      if start <= n { ConsCost(tokens, chunks, start); }
    }
  }

  /** Anchor, notice and suffix together stay within the budget, so neither the fallback
      nor the last error of pruning is ever reached. */
  lemma CandidateFits(tokens: Item -> nat, items: seq<Item>, notice: Item, budget: int)
    requires budget > 0
    requires !NewestChunkTooLarge(tokens, items, notice, budget)
    ensures Cost(tokens, PrunedItems(tokens, items, notice, budget)) <= budget
  {
    var anchor := KeptAnchor(tokens, items, notice, budget);
    var limit := SuffixBudget(tokens, items, notice, budget);
    var chunks := ChunksOf(Tail(items));
    var start := SuffixStart(tokens, chunks, limit);
    var suffix := FlattenChunks(chunks[start..]);
    ChunksAreLossless(Tail(items));
    NothingSelectedIff(tokens, chunks, limit);
    CostAppends(tokens, anchor, suffix);
    CostAppends(tokens, anchor + [notice], suffix);
    CostAppends(tokens, anchor, [notice]);
    var candidate := Candidate(anchor, notice, suffix, start);
    FilterCost(tokens, CallIds(candidate) * OutputIds(candidate), candidate);
  }

  /** With every call of the tail answered by one later output, pruning separates no pair
      and drops no tool item of the suffix it selects. */
  lemma PruningSeparatesNoPair(tokens: Item -> nat, items: seq<Item>, notice: Item, budget: int)
    requires !IsTool(notice)
    requires OutputsFollowCalls(Tail(items)) && CallIds(Tail(items)) <= OutputIds(Tail(items))
    ensures var chunks := ChunksOf(Tail(items));
            var start := SuffixStart(tokens, chunks, SuffixBudget(tokens, items, notice, budget));
            PrunedItems(tokens, items, notice, budget) ==
            Candidate(KeptAnchor(tokens, items, notice, budget), notice, FlattenChunks(chunks[start..]), start)
  {
    var tail := Tail(items);
    var chunks := ChunksOf(tail);
    var start := SuffixStart(tokens, chunks, SuffixBudget(tokens, items, notice, budget));
    var anchor := KeptAnchor(tokens, items, notice, budget);
    SuffixKeepsItsTools(tail, start, Front(anchor, notice, start));
  }

  /** Items without tools in front of a suffix of chunks: nothing is an orphan. */
  lemma SuffixKeepsItsTools(tail: seq<Item>, start: nat, front: seq<Item>)
    requires OutputsFollowCalls(tail) && CallIds(tail) <= OutputIds(tail) && start <= |ChunksOf(tail)|
    requires forall i :: 0 <= i < |front| ==> !IsTool(front[i])
    ensures var all := front + FlattenChunks(ChunksOf(tail)[start..]); DropOrphans(all) == all
  {
    var suffix := FlattenChunks(ChunksOf(tail)[start..]);
    SuffixesAreClosed(tail, start);
    IdsAppend(front, suffix);
    forall item | item in front + suffix && IsTool(item) ensures item.callId != "" {
      SuffixIsTail(tail, start, item);
    }
    OrphansAreDropped(front + suffix);
  }

  /** A tool item of a suffix is one of the tail, so its id is usable. */
  lemma SuffixIsTail(tail: seq<Item>, start: nat, item: Item)
    requires OutputsFollowCalls(tail) && start <= |ChunksOf(tail)|
    requires item in FlattenChunks(ChunksOf(tail)[start..]) && IsTool(item)
    ensures item.callId != ""
  {
    var chunks := ChunksOf(tail);
    ChunksAreLossless(tail);
    assert chunks == chunks[..start] + chunks[start..];
    FlattenAppends(chunks[..start], chunks[start..]);
    assert item in tail;
    var k :| 0 <= k < |tail| && tail[k] == item;
    if item.FunctionCall? {
      assert IsCall(tail, k, item.callId);
    } else {
      assert IsOutput(tail, k, item.callId);
      var i :| i < k && IsCall(tail, i, item.callId);
    }
  }

  // ----- The model call -----

  datatype ConstrainResult =
    | Unchanged
    | Constrained(items: seq<Item>)
    | InstructionsTooLarge
    | PruneFailed
    | ExceedsAfterPruning

  /** The call fails exactly when the newest chunk is too large, and otherwise it is given
      exactly the pruned items. */
  predicate IsPruning(r: ConstrainResult, tokens: Item -> nat, items: seq<Item>, notice: Item, itemBudget: int) {
    r == if NewestChunkTooLarge(tokens, items, notice, itemBudget) then PruneFailed
         else Constrained(PrunedItems(tokens, items, notice, itemBudget))
  }

  /** What the instructions leave for the items. */
  function ItemBudget(budget: int, instructions: nat): int {
    budget - instructions
  }

  /** `constrain_model_input`; `instructions` is the cost of the instructions, 0 without any.
      The check after pruning never fails. */
  method ConstrainModelInput(tokens: Item -> nat, items: seq<Item>, notice: Item, instructions: nat, budget: pos)
      returns (r: ConstrainResult)
    requires !IsTool(notice)
    ensures r.Unchanged? <==> Cost(tokens, items) + instructions <= budget
    ensures r.InstructionsTooLarge? <==> Cost(tokens, items) + instructions > budget && instructions >= budget
    ensures !r.Unchanged? && !r.InstructionsTooLarge? ==>
        IsPruning(r, tokens, items, notice, ItemBudget(budget, instructions))
    ensures r.Constrained? ==> Cost(tokens, r.items) + instructions <= budget
    ensures r.Constrained? ==> IsPruned(tokens, items, notice, ItemBudget(budget, instructions), r.items)
    ensures r.PruneFailed? ==> NothingFits(tokens, items, notice, ItemBudget(budget, instructions))
  {
    if Cost(tokens, items) + instructions <= budget {
      return Unchanged;
    }
    var itemBudget := ItemBudget(budget, instructions);
    if itemBudget <= 0 {
      return InstructionsTooLarge;
    }
    PruningIs(tokens, items, notice, itemBudget);
    r := PruneForCall(tokens, items, notice, itemBudget, instructions, budget);
  }

  /** The pruning of a model call and the check after it. */
  method PruneForCall(tokens: Item -> nat, items: seq<Item>, notice: Item, itemBudget: int, instructions: nat,
      budget: int)
      returns (r: ConstrainResult)
    requires !IsTool(notice) && itemBudget > 0 && itemBudget + instructions == budget
    ensures r.Constrained? || r.PruneFailed?
    ensures IsPruning(r, tokens, items, notice, itemBudget)
    ensures r.Constrained? ==> Cost(tokens, r.items) + instructions <= budget
  {
    var pruned := PruneItems(tokens, items, notice, itemBudget);
    if !pruned.Pruned? && !pruned.PrunedByFallback? {
      return PruneFailed;
    }
    if Cost(tokens, pruned.items) + instructions > budget {
      return ExceedsAfterPruning;
    }
    return Constrained(pruned.items);
  }

  /** Whatever a model call is given leaves the completion slack free in a window of at
      least two tokens. */
  method ModelCall(tokens: Item -> nat, items: seq<Item>, notice: Item, instructions: nat, window: int, num: nat,
      den: pos)
      returns (r: ConstrainResult)
    requires !IsTool(notice)
    ensures window <= 0 ==> r == Unchanged
    ensures window > 0 ==>
              (r.Unchanged? <==> Cost(tokens, items) + instructions <= ResolveBudget(window, num, den).value)
    ensures window > 0 && !r.Unchanged? && !r.InstructionsTooLarge? ==>
              IsPruning(r, tokens, items, notice, ItemBudget(ResolveBudget(window, num, den).value, instructions))
    ensures window >= 2 && r.Unchanged? ==> Cost(tokens, items) + instructions + CompletionSlack(window) <= window
    ensures window >= 2 && r.Constrained? ==> Cost(tokens, r.items) + instructions + CompletionSlack(window) <= window
    ensures window > 0 && r.Constrained? ==>
              IsPruned(tokens, items, notice, ItemBudget(ResolveBudget(window, num, den).value, instructions), r.items)
  {
    var budget := ResolveBudget(window, num, den);
    if budget.None? {
      return Unchanged;
    }
    BudgetLeavesSlackIff(window, num, den);
    r := ConstrainModelInput(tokens, items, notice, instructions, budget.value);
  }
}
