/**
 Chunks of model input: splitting so that calls stay with their outputs, choosing the
 longest recent suffix within a budget, and dropping orphaned tool items.
 */
module ContextChunks {
  import opened ToolTransactions
  import opened ToolConservation
  import opened CompactionBoundary

  // ----- Additive cost -----

  /** `estimate_items_tokens`: 4 plus the encoded length, per item. */
  function Cost(tokens: Item -> nat, items: seq<Item>): nat {
    if items == [] then 0 else Cost(tokens, items[..|items| - 1]) + 4 + tokens(items[|items| - 1])
  }

  lemma {:induction false} CostAppends(tokens: Item -> nat, left: seq<Item>, right: seq<Item>)
    ensures Cost(tokens, left + right) == Cost(tokens, left) + Cost(tokens, right)
  {
    if right == [] {
      assert left + right == left;
    } else {
      var before := right[..|right| - 1];
      assert (left + right)[..|left + right| - 1] == left + before;
      CostAppends(tokens, left, before);
    }
  }

  // ----- Chunks -----

  function FlattenChunks(chunks: seq<seq<Item>>): seq<Item> {
    if chunks == [] then [] else FlattenChunks(chunks[..|chunks| - 1]) + chunks[|chunks| - 1]
  }

  lemma {:induction false} FlattenAppends(left: seq<seq<Item>>, right: seq<seq<Item>>)
    ensures FlattenChunks(left + right) == FlattenChunks(left) + FlattenChunks(right)
  {
    if right == [] {
      assert left + right == left;
    } else {
      var before := right[..|right| - 1];
      assert (left + right)[..|left + right| - 1] == left + before;
      FlattenAppends(left, before);
    }
  }

  function CallIds(items: seq<Item>): set<string> {
    set i | 0 <= i < |items| && items[i].FunctionCall? && items[i].callId != "" :: items[i].callId
  }

  function OutputIds(items: seq<Item>): set<string> {
    set i | 0 <= i < |items| && items[i].FunctionCallOutput? && items[i].callId != "" :: items[i].callId
  }

  /** `pending` is the chunk being built and `open` its unanswered call ids. */
  datatype Building = Building(chunks: seq<seq<Item>>, pending: seq<Item>, open: set<string>)

  function Flushed(b: Building): Building {
    if b.pending == [] then b else Building(b.chunks + [b.pending], [], {})
  }

  function Placed(b: Building, item: Item): Building {
    if item.FunctionCall? then
      Building(b.chunks, b.pending + [item], b.open + (if item.callId != "" then {item.callId} else {}))
    else if b.pending != [] then
      var open := if item.FunctionCallOutput? then b.open - {item.callId} else b.open;
      var longer := Building(b.chunks, b.pending + [item], open);
      if open == {} then Flushed(longer) else longer
    else b.(chunks := b.chunks + [[item]])
  }

  /** After the first `n` items. */
  function Built(items: seq<Item>, n: nat): Building
    requires n <= |items|
  {
    if n == 0 then Building([], [], {}) else Placed(Built(items, n - 1), items[n - 1])
  }

  /** `_build_chunks`. */
  function ChunksOf(items: seq<Item>): seq<seq<Item>> {
    Flushed(Built(items, |items|)).chunks
  }

  method BuildChunks(items: seq<Item>) returns (chunks: seq<seq<Item>>)
    ensures chunks == ChunksOf(items)
  {
    var pending, open := [], {};
    chunks := [];
    for i := 0 to |items|
      invariant Building(chunks, pending, open) == Built(items, i)
      invariant pending == [] ==> open == {}
    {
      var item := items[i];
      if item.FunctionCall? {
        if pending == [] {
          pending, open := [item], if item.callId != "" then {item.callId} else {};
        } else {
          pending := pending + [item];
          if item.callId != "" {
            open := open + {item.callId};
          }
        }
      } else if pending != [] {
        pending := pending + [item];
        if item.FunctionCallOutput? && item.callId in open {
          open := open - {item.callId};
        }
        if open == {} {
          chunks, pending, open := chunks + [pending], [], {};
        }
      } else {
        chunks := chunks + [[item]];
      }
    }
    assert items[..|items|] == items;
    if pending != [] {
      chunks := chunks + [pending];
    }
  }

  // ----- Lossless -----

  predicate NonEmpty(chunks: seq<seq<Item>>) {
    forall i :: 0 <= i < |chunks| ==> chunks[i] != []
  }

  /** Everything placed so far, in order. */
  function Joined(b: Building): seq<Item> {
    FlattenChunks(b.chunks) + b.pending
  }

  lemma PlacedJoins(b: Building, item: Item)
    ensures Joined(Placed(b, item)) == Joined(b) + [item]
    ensures NonEmpty(b.chunks) ==> NonEmpty(Placed(b, item).chunks)
  {
    if item.FunctionCall? || b.pending != [] {
      var open := if item.FunctionCallOutput? then b.open - {item.callId} else b.open;
      assert FlattenChunks(b.chunks) + (b.pending + [item]) == Joined(b) + [item];
    } else {
    }
  }

  lemma {:induction false} BuiltJoins(items: seq<Item>, n: nat)
    requires n <= |items|
    ensures Joined(Built(items, n)) == items[..n]
    ensures NonEmpty(Built(items, n).chunks)
  {
    if n > 0 {
      BuiltJoins(items, n - 1);
      PlacedJoins(Built(items, n - 1), items[n - 1]);
    }
  }

  /** The chunks are non-empty and, joined, are the input. */
  lemma ChunksAreLossless(items: seq<Item>)
    ensures FlattenChunks(ChunksOf(items)) == items
    ensures NonEmpty(ChunksOf(items))
    ensures ChunksOf(items) == [] <==> items == []
  {
    BuiltJoins(items, |items|);
    assert items[..|items|] == items;
  }

  /** How many items the first `n` chunks hold. */
  function StartOf(items: seq<Item>, n: nat): nat
    requires n <= |ChunksOf(items)|
  {
    |FlattenChunks(ChunksOf(items)[..n])|
  }

  /** Some chunk begins at position `k`, or the items end there. */
  ghost predicate ChunkStart(items: seq<Item>, k: nat) {
    exists n :: 0 <= n <= |ChunksOf(items)| && StartOf(items, n) == k
  }

  lemma StartSplits(items: seq<Item>, n: nat)
    requires n <= |ChunksOf(items)|
    ensures StartOf(items, n) <= |items| && items[StartOf(items, n)..] == FlattenChunks(ChunksOf(items)[n..])
    ensures StartOf(items, n) == 0 <==> n == 0
  {
    var chunks := ChunksOf(items);
    ChunksAreLossless(items);
    assert chunks == chunks[..n] + chunks[n..];
    FlattenAppends(chunks[..n], chunks[n..]);
    if n > 0 { assert FlattenChunks(chunks[..n]) == FlattenChunks(chunks[..n][..n - 1]) + chunks[n - 1]; }
  }

  lemma StartsGrow(items: seq<Item>, n: nat, k: nat)
    requires n <= |ChunksOf(items)| && k <= |ChunksOf(items)|
    ensures n <= k ==> StartOf(items, n) <= StartOf(items, k)
    ensures n > k ==> StartOf(items, n) > StartOf(items, k)
  {
    if n <= k { MoreChunks(items, n, k); } else { MoreChunks(items, k, n); }
  }

  lemma MoreChunks(items: seq<Item>, n: nat, k: nat)
    requires n <= k <= |ChunksOf(items)|
    ensures StartOf(items, n) <= StartOf(items, k)
    ensures n < k ==> StartOf(items, n) < StartOf(items, k)
  {
    var chunks := ChunksOf(items);
    ChunksAreLossless(items);
    assert chunks[..k] == chunks[..n] + chunks[n..k];
    FlattenAppends(chunks[..n], chunks[n..k]);
    if n < k { assert FlattenChunks(chunks[n..k]) == FlattenChunks(chunks[n..k][..k - n - 1]) + chunks[k - 1]; }
  }

  // ----- Chunks are minimal -----

  /** A single item that is no call, or a call and what follows until no call is open: before
      the last item, every item that is no call leaves a call unanswered. */
  predicate Minimal(chunk: seq<Item>) {
    || (|chunk| == 1 && !chunk[0].FunctionCall?)
    || (chunk != [] && chunk[0].FunctionCall?
        && forall k :: 1 <= k < |chunk| - 1 && !chunk[k].FunctionCall? ==> OpenCalls(chunk[..k + 1]) != {})
  }

  /** A complete chunk ends with an item that is no call and leaves no call open. */
  predicate Closed(chunk: seq<Item>) {
    chunk != [] && !chunk[|chunk| - 1].FunctionCall? && OpenCalls(chunk) == {}
  }

  /** The chunk being built would still be minimal with one more item. */
  predicate Growing(pending: seq<Item>) {
    pending != [] ==>
      && pending[0].FunctionCall?
      && forall k :: 1 <= k < |pending| && !pending[k].FunctionCall? ==> OpenCalls(pending[..k + 1]) != {}
  }

  predicate WellBuilt(b: Building) {
    && (forall i :: 0 <= i < |b.chunks| ==> Minimal(b.chunks[i]) && Closed(b.chunks[i]))
    && Growing(b.pending) && b.open == OpenCalls(b.pending)
  }

  lemma SingleIsClosed(item: Item)
    requires !item.FunctionCall?
    ensures Minimal([item]) && Closed([item])
  {
    assert [item][..0] == [];
  }

  lemma CallGrows(pending: seq<Item>, item: Item)
    requires Growing(pending) && item.FunctionCall?
    ensures Growing(pending + [item])
  {
    forall k | 1 <= k < |pending| && !pending[k].FunctionCall? ensures OpenCalls((pending + [item])[..k + 1]) != {} {
      assert (pending + [item])[..k + 1] == pending[..k + 1];
    }
  }

  lemma OtherGrows(pending: seq<Item>, item: Item)
    requires Growing(pending) && pending != [] && !item.FunctionCall?
    ensures OpenCalls(pending + [item]) != {} ==> Growing(pending + [item])
    ensures OpenCalls(pending + [item]) == {} ==> Minimal(pending + [item]) && Closed(pending + [item])
  {
    var longer := pending + [item];
    assert longer[..|longer|] == longer;
    forall k | 1 <= k < |pending| && !longer[k].FunctionCall? ensures OpenCalls(longer[..k + 1]) != {} {
      assert longer[..k + 1] == pending[..k + 1];
    }
  }

  /** The open ids after one more item. */
  lemma OpenOneMore(items: seq<Item>, item: Item)
    ensures OpenCalls(items + [item]) ==
            if item.FunctionCall? then OpenCalls(items) + (if item.callId != "" then {item.callId} else {})
            else if item.FunctionCallOutput? then OpenCalls(items) - {item.callId}
            else OpenCalls(items)
  {
    assert (items + [item])[..|items|] == items;
    OpenCallsIff(items, "");
  }

  lemma PlacedIsWellBuilt(b: Building, item: Item)
    requires WellBuilt(b)
    ensures WellBuilt(Placed(b, item))
  {
    if item.FunctionCall? {
      OpenOneMore(b.pending, item);
      CallGrows(b.pending, item);
    } else if b.pending != [] {
      OpenOneMore(b.pending, item);
      OtherGrows(b.pending, item);
    } else {
      SingleIsClosed(item);
    }
  }

  lemma {:induction false} BuiltIsWellBuilt(items: seq<Item>, n: nat)
    requires n <= |items|
    ensures WellBuilt(Built(items, n))
  {
    if n > 0 {
      BuiltIsWellBuilt(items, n - 1);
      PlacedIsWellBuilt(Built(items, n - 1), items[n - 1]);
    }
  }

  /** Every chunk is minimal, and every chunk but the last is complete. */
  lemma ChunksAreMinimal(items: seq<Item>)
    ensures forall i :: 0 <= i < |ChunksOf(items)| ==> Minimal(ChunksOf(items)[i])
    ensures forall i :: 0 <= i < |ChunksOf(items)| - 1 ==> Closed(ChunksOf(items)[i])
  {
    BuiltIsWellBuilt(items, |items|);
  }

  // ----- Calls stay with their outputs -----

  lemma IdsAppend(left: seq<Item>, right: seq<Item>)
    ensures CallIds(left + right) == CallIds(left) + CallIds(right)
    ensures OutputIds(left + right) == OutputIds(left) + OutputIds(right)
  {
    var all := left + right;
    forall id ensures id in CallIds(all) <==> id in CallIds(left) + CallIds(right) {
      if id in CallIds(left) {
        var i :| 0 <= i < |left| && left[i].FunctionCall? && left[i].callId == id;
        assert all[i] == left[i];
      }
      if id in CallIds(right) {
        var i :| 0 <= i < |right| && right[i].FunctionCall? && right[i].callId == id;
        assert all[|left| + i] == right[i];
      }
    }
    forall id ensures id in OutputIds(all) <==> id in OutputIds(left) + OutputIds(right) {
      if id in OutputIds(left) {
        var i :| 0 <= i < |left| && left[i].FunctionCallOutput? && left[i].callId == id;
        assert all[i] == left[i];
      }
      if id in OutputIds(right) {
        var i :| 0 <= i < |right| && right[i].FunctionCallOutput? && right[i].callId == id;
        assert all[|left| + i] == right[i];
      }
    }
  }

  lemma IdsOfOne(item: Item)
    ensures CallIds([item]) == if item.FunctionCall? && item.callId != "" then {item.callId} else {}
    ensures OutputIds([item]) == if item.FunctionCallOutput? && item.callId != "" then {item.callId} else {}
  {
    assert [item][0] == item;
  }

  /** Each output has its call in the same run of items. */
  predicate OutputsHaveCalls(items: seq<Item>) {
    OutputIds(items) <= CallIds(items)
  }

  /** In addition, each call has its output. */
  predicate Paired(items: seq<Item>) {
    OutputIds(items) == CallIds(items)
  }

  /** While building from a prefix: the open ids are exactly the unanswered calls, all of
      them pending, and every closed chunk is paired. */
  predicate Tied(b: Building, items: seq<Item>) {
    && b.open == CallIds(items) - OutputIds(items)
    && b.open == CallIds(b.pending) - OutputIds(b.pending)
    && OutputsHaveCalls(b.pending) && OutputIds(b.pending) <= OutputIds(items)
    && (forall k :: 0 <= k < |b.chunks| ==> Paired(b.chunks[k]))
  }

  lemma InPrefix(items: seq<Item>, n: nat, id: string)
    requires n <= |items|
    ensures id in CallIds(items[..n]) <==> id != "" && exists i :: i < n && IsCall(items, i, id)
    ensures id in OutputIds(items[..n]) <==> id != "" && exists i :: i < n && IsOutput(items, i, id)
  {
    var before := items[..n];
    if id in CallIds(before) {
      var i :| 0 <= i < n && before[i].FunctionCall? && before[i].callId == id;
      assert IsCall(items, i, id);
    }
    if id in OutputIds(before) {
      var i :| 0 <= i < n && before[i].FunctionCallOutput? && before[i].callId == id;
      assert IsOutput(items, i, id);
    }
    if id != "" {
      if i :| i < n && IsCall(items, i, id) { assert before[i].callId == id; }
      if i :| i < n && IsOutput(items, i, id) { assert before[i].callId == id; }
    }
  }

  lemma PrefixIds(items: seq<Item>, n: nat)
    requires OutputsFollowCalls(items) && n < |items|
    ensures items[n].FunctionCall? ==>
              items[n].callId !in CallIds(items[..n]) + OutputIds(items[..n]) && items[n].callId != ""
    ensures items[n].FunctionCallOutput? ==> items[n].callId in CallIds(items[..n]) - OutputIds(items[..n])
  {
    if IsTool(items[n]) {
      var id := items[n].callId;
      InPrefix(items, n, id);
      assert items[n].FunctionCall? ==> IsCall(items, n, id);
      assert items[n].FunctionCallOutput? ==> IsOutput(items, n, id);
    }
  }

  lemma TiedOne(items: seq<Item>, n: nat, b: Building)
    requires OutputsFollowCalls(items) && n < |items| && Tied(b, items[..n])
    requires b.pending == [] ==> b.open == {}
    ensures Tied(Placed(b, items[n]), items[..n + 1])
  {
    var item := items[n];
    assert items[..n + 1] == items[..n] + [item];
    IdsAppend(items[..n], [item]);
    IdsAppend(b.pending, [item]);
    IdsOfOne(item);
    PrefixIds(items, n);
  }

  lemma {:induction false} BuiltIsTied(items: seq<Item>, n: nat)
    requires OutputsFollowCalls(items) && n <= |items|
    ensures Tied(Built(items, n), items[..n])
    ensures Built(items, n).pending == [] ==> Built(items, n).open == {}
  {
    if n > 0 {
      BuiltIsTied(items, n - 1);
      TiedOne(items, n - 1, Built(items, n - 1));
    }
  }

  lemma {:induction false} SuffixHasCalls(chunks: seq<seq<Item>>)
    requires forall k :: 0 <= k < |chunks| ==> OutputsHaveCalls(chunks[k])
    ensures OutputsHaveCalls(FlattenChunks(chunks))
  {
    if chunks != [] {
      SuffixHasCalls(chunks[..|chunks| - 1]);
      IdsAppend(FlattenChunks(chunks[..|chunks| - 1]), chunks[|chunks| - 1]);
    }
  }

  lemma {:induction false} SuffixIsPaired(chunks: seq<seq<Item>>)
    requires forall k :: 0 <= k < |chunks| ==> Paired(chunks[k])
    ensures Paired(FlattenChunks(chunks))
  {
    if chunks != [] {
      SuffixIsPaired(chunks[..|chunks| - 1]);
      IdsAppend(FlattenChunks(chunks[..|chunks| - 1]), chunks[|chunks| - 1]);
    }
  }

  /** Every suffix of chunks contains the call of each of its outputs; if every call is
      answered, it also contains the output of each of its calls. */
  lemma SuffixesAreClosed(items: seq<Item>, k: nat)
    requires OutputsFollowCalls(items) && k <= |ChunksOf(items)|
    ensures OutputsHaveCalls(FlattenChunks(ChunksOf(items)[k..]))
    ensures CallIds(items) <= OutputIds(items) ==> Paired(FlattenChunks(ChunksOf(items)[k..]))
  {
    BuiltIsTied(items, |items|);
    assert items[..|items|] == items;
    var chunks := ChunksOf(items);
    SuffixHasCalls(chunks[k..]);
    if CallIds(items) <= OutputIds(items) {
      var b := Built(items, |items|);
      assert CallIds(items) - OutputIds(items) == {};
      assert Paired(b.pending) by {
        assert forall id :: id in CallIds(b.pending) ==> id in OutputIds(b.pending) || id in b.open;
      }
      SuffixIsPaired(chunks[k..]);
    }
  }

  // ----- The recent suffix -----

  /** Where the longest affordable suffix begins, given that the chunks from `k` on are affordable. */
  function SuffixFrom(tokens: Item -> nat, chunks: seq<seq<Item>>, budget: nat, k: nat): (start: nat)
    requires k <= |chunks|
    ensures start <= k
  {
    if k == 0 || Cost(tokens, FlattenChunks(chunks[k - 1..])) > budget then k
    else SuffixFrom(tokens, chunks, budget, k - 1)
  }

  function SuffixStart(tokens: Item -> nat, chunks: seq<seq<Item>>, budget: nat): nat {
    SuffixFrom(tokens, chunks, budget, |chunks|)
  }

  lemma {:induction false} SuffixFromIsLongest(tokens: Item -> nat, chunks: seq<seq<Item>>, budget: nat, k: nat)
    requires k <= |chunks| && Cost(tokens, FlattenChunks(chunks[k..])) <= budget
    ensures var start := SuffixFrom(tokens, chunks, budget, k);
            && Cost(tokens, FlattenChunks(chunks[start..])) <= budget
            && (start > 0 ==> Cost(tokens, FlattenChunks(chunks[start - 1..])) > budget)
  {
    if k > 0 && Cost(tokens, FlattenChunks(chunks[k - 1..])) <= budget {
      SuffixFromIsLongest(tokens, chunks, budget, k - 1);
    }
  }

  /** The suffix of chunks from `SuffixStart` on fits the budget, and every longer one does not. */
  lemma SuffixIsLongest(tokens: Item -> nat, chunks: seq<seq<Item>>, budget: nat)
    ensures var start := SuffixStart(tokens, chunks, budget);
            && Cost(tokens, FlattenChunks(chunks[start..])) <= budget
            && forall longer :: 0 <= longer < start ==> Cost(tokens, FlattenChunks(chunks[longer..])) > budget
  {
    var start := SuffixStart(tokens, chunks, budget);
    assert chunks[|chunks|..] == [];
    SuffixFromIsLongest(tokens, chunks, budget, |chunks|);
    if start > 0 { LongerCostsMore(tokens, chunks, budget, start - 1); }
  }

  lemma ConsCost(tokens: Item -> nat, chunks: seq<seq<Item>>, k: nat)
    requires k < |chunks|
    ensures FlattenChunks(chunks[k..]) == chunks[k] + FlattenChunks(chunks[k + 1..])
    ensures Cost(tokens, FlattenChunks(chunks[k..])) ==
        Cost(tokens, chunks[k]) + Cost(tokens, FlattenChunks(chunks[k + 1..]))
  {
    assert chunks[k..] == [chunks[k]] + chunks[k + 1..];
    FlattenAppends([chunks[k]], chunks[k + 1..]);
    assert [] + [chunks[k]] == [chunks[k]];
    CostAppends(tokens, chunks[k], FlattenChunks(chunks[k + 1..]));
  }

  /** `_select_recent_chunks`: the items of the longest affordable suffix of chunks, and how
      many chunks precede it. */
  method SelectRecentChunks(tokens: Item -> nat, chunks: seq<seq<Item>>, budget: nat)
      returns (items: seq<Item>, omitted: nat)
    ensures omitted == SuffixStart(tokens, chunks, budget)
    ensures omitted <= |chunks| && items == FlattenChunks(chunks[omitted..])
    ensures Cost(tokens, items) <= budget
    ensures forall longer :: 0 <= longer < omitted ==> Cost(tokens, FlattenChunks(chunks[longer..])) > budget
  {
    var total, selected := 0, |chunks|;
    items := [];
    assert chunks[|chunks|..] == [];
    while selected > 0
      invariant 0 <= selected <= |chunks| && total == Cost(tokens, items) <= budget
      invariant items == FlattenChunks(chunks[selected..])
      invariant SuffixFrom(tokens, chunks, budget, selected) == SuffixStart(tokens, chunks, budget)
    {
      ConsCost(tokens, chunks, selected - 1);
      var chunk := chunks[selected - 1];
      if total + Cost(tokens, chunk) > budget {
        LongerCostsMore(tokens, chunks, budget, selected - 1);
        return items, selected;
      }
      items, total, selected := chunk + items, total + Cost(tokens, chunk), selected - 1;
    }
    omitted := 0;
  }

  /** Once a suffix is too dear, every longer one is. */
  lemma {:induction false} LongerCostsMore(tokens: Item -> nat, chunks: seq<seq<Item>>, budget: nat, k: nat)
    requires k < |chunks| && Cost(tokens, FlattenChunks(chunks[k..])) > budget
    ensures forall longer :: 0 <= longer <= k ==> Cost(tokens, FlattenChunks(chunks[longer..])) > budget
  {
    if k > 0 {
      ConsCost(tokens, chunks, k - 1);
      LongerCostsMore(tokens, chunks, budget, k - 1);
    }
  }

  // ----- Orphans -----

  predicate Kept(paired: set<string>, item: Item) {
    IsTool(item) ==> item.callId in paired
  }

  function Filter(paired: set<string>, items: seq<Item>): seq<Item> {
    if items == [] then []
    else
      var before, item := Filter(paired, items[..|items| - 1]), items[|items| - 1];
      if Kept(paired, item) then before + [item] else before
  }

  /** `_drop_orphan_tool_items`. */
  function DropOrphans(items: seq<Item>): seq<Item> {
    Filter(CallIds(items) * OutputIds(items), items)
  }

  method DropOrphanToolItems(items: seq<Item>) returns (cleaned: seq<Item>)
    ensures cleaned == DropOrphans(items)
  {
    var paired := CallIds(items) * OutputIds(items);
    cleaned := [];
    assert items[..0] == [];
    for i := 0 to |items|
      invariant cleaned == Filter(paired, items[..i])
    {
      assert items[..i + 1][..i] == items[..i];
      if !IsTool(items[i]) || items[i].callId in paired {
        cleaned := cleaned + [items[i]];
      }
    }
    assert items[..|items|] == items;
  }

  lemma {:induction false} FilterFacts(paired: set<string>, items: seq<Item>)
    ensures forall item :: item in Filter(paired, items) <==> item in items && Kept(paired, item)
    ensures NonTools(Filter(paired, items)) == NonTools(items)
    ensures |Filter(paired, items)| <= |items|
    ensures Filter(paired, items) == items <==> forall item :: item in items ==> Kept(paired, item)
  {
    if items != [] {
      var before, last := items[..|items| - 1], items[|items| - 1];
      FilterFacts(paired, before);
      assert items == before + [last];
      assert (Filter(paired, before) + [last])[..|Filter(paired, before)|] == Filter(paired, before);
    }
  }

  lemma {:induction false} FilterCost(tokens: Item -> nat, paired: set<string>, items: seq<Item>)
    ensures Cost(tokens, Filter(paired, items)) <= Cost(tokens, items)
  {
    if items != [] {
      var before, last := items[..|items| - 1], items[|items| - 1];
      FilterCost(tokens, paired, before);
      var kept := Filter(paired, before);
      assert (kept + [last])[..|kept|] == kept;
    }
  }

  lemma {:induction false} FilterAppends(paired: set<string>, left: seq<Item>, right: seq<Item>)
    ensures Filter(paired, left + right) == Filter(paired, left) + Filter(paired, right)
  {
    if right == [] {
      assert left + right == left;
    } else {
      var before := right[..|right| - 1];
      assert (left + right)[..|left + right| - 1] == left + before;
      FilterAppends(paired, left, before);
    }
  }

  lemma {:induction false} FilterKeepsOrder(paired: set<string>, items: seq<Item>)
    ensures Subsequence(Filter(paired, items), items)
  {
    if items != [] {
      var before, last := items[..|items| - 1], items[|items| - 1];
      FilterKeepsOrder(paired, before);
      assert items == before + [last];
      SubsequenceSnoc(Filter(paired, before), before, last);
    }
  }

  lemma {:induction false} FilterCounts(paired: set<string>, items: seq<Item>, item: Item)
    ensures multiset(Filter(paired, items))[item] == if Kept(paired, item) then multiset(items)[item] else 0
  {
    if items != [] {
      var before, last := items[..|items| - 1], items[|items| - 1];
      FilterCounts(paired, before, item);
      assert items == before + [last];
    }
  }

  lemma MemberIds(items: seq<Item>, id: string)
    ensures id in CallIds(items)
            <==> id != "" && exists item :: item in items && item.FunctionCall? && item.callId == id
    ensures id in OutputIds(items)
            <==> id != "" && exists item :: item in items && item.FunctionCallOutput? && item.callId == id
  {
    if item :| item in items && item.FunctionCall? && item.callId == id {
      var i :| 0 <= i < |items| && items[i] == item;
    }
    if item :| item in items && item.FunctionCallOutput? && item.callId == id {
      var i :| 0 <= i < |items| && items[i] == item;
    }
  }

  /** The item is of no tool, or both a call and an output carry its id. */
  ghost predicate HasPartner(items: seq<Item>, item: Item) {
    IsTool(item) ==>
      && item.callId != ""
      && (exists call :: call in items && call.FunctionCall? && call.callId == item.callId)
      && (exists output :: output in items && output.FunctionCallOutput? && output.callId == item.callId)
  }

  /** Exactly the items with a partner remain, each as often as before and in the old order. */
  lemma OrphansAreExactly(items: seq<Item>)
    ensures Subsequence(DropOrphans(items), items)
    ensures forall item ::
              multiset(DropOrphans(items))[item] == if HasPartner(items, item) then multiset(items)[item] else 0
  {
    var paired := CallIds(items) * OutputIds(items);
    FilterKeepsOrder(paired, items);
    forall item
      ensures multiset(DropOrphans(items))[item] == if HasPartner(items, item) then multiset(items)[item] else 0
    {
      FilterCounts(paired, items, item);
      if IsTool(item) { MemberIds(items, item.callId); }
    }
  }

  /** What remains is paired, all other items are untouched and in order, nothing is dropped
      exactly when every tool item already had its partner, and dropping again does nothing. */
  lemma OrphansAreDropped(items: seq<Item>)
    ensures Paired(DropOrphans(items))
    ensures NonTools(DropOrphans(items)) == NonTools(items)
    ensures DropOrphans(items) == items
            <==> Paired(items) && forall item :: item in items && IsTool(item) ==> item.callId != ""
    ensures DropOrphans(DropOrphans(items)) == DropOrphans(items)
  {
    var paired, out := CallIds(items) * OutputIds(items), DropOrphans(items);
    FilterFacts(paired, items);
    forall id ensures (id in CallIds(out) <==> id in paired) && (id in OutputIds(out) <==> id in paired) {
      MemberIds(items, id);
      MemberIds(out, id);
    }
    assert CallIds(out) == OutputIds(out) == paired;
    FilterFacts(paired, out);
    assert CallIds(out) * OutputIds(out) == paired;
    if forall item :: item in items ==> Kept(paired, item) {
      assert out == items;
    } else {
      var item :| item in items && !Kept(paired, item);
      MemberIds(items, item.callId);
    }
  }
}
