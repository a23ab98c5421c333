/**
 Where a compaction may cut the active items: `_select_boundary` against a declarative
 specification, and what a chosen boundary guarantees.
 */
module CompactionBoundary {
  import opened Options
  import opened ToolTransactions
  import opened ToolConservation

  /** An active row: its item, its token estimate, and whether it is still being produced. */
  datatype Candidate = Candidate(item: Item, tokens: nat, inProgress: bool)

  /** The compression settings; the preserve ratio is `ratioNum / ratioDen`. */
  datatype Settings = Settings(
    preserveRecentItems: pos, minItems: pos, summaryMaxTokens: nat, ratioNum: nat, ratioDen: pos)

  function ItemsOf(rows: seq<Candidate>): (items: seq<Item>)
    ensures |items| == |rows| && forall i :: 0 <= i < |rows| ==> items[i] == rows[i].item
  {
    seq(|rows|, i requires 0 <= i < |rows| => rows[i].item)
  }

  function Tokens(rows: seq<Candidate>): nat {
    if rows == [] then 0 else Tokens(rows[..|rows| - 1]) + rows[|rows| - 1].tokens
  }

  lemma {:induction false} TokensSplit(left: seq<Candidate>, right: seq<Candidate>)
    ensures Tokens(left + right) == Tokens(left) + Tokens(right)
  {
    if right == [] {
      assert left + right == left;
    } else {
      var before := right[..|right| - 1];
      assert (left + right)[..|left + right| - 1] == left + before;
      TokensSplit(left, before);
    }
  }

  /** The number of rows before the first one in progress. */
  function CompletedEnd(rows: seq<Candidate>): (end: nat)
    ensures end <= |rows|
    ensures forall i :: 0 <= i < end ==> !rows[i].inProgress
    ensures end < |rows| ==> rows[end].inProgress
  {
    if rows == [] || rows[0].inProgress then 0 else 1 + CompletedEnd(rows[1..])
  }

  // ----- Open calls -----

  /** Call ids that a prefix opens and does not answer. */
  function OpenCalls(items: seq<Item>): set<string> {
    if items == [] then {}
    else
      var before, item := OpenCalls(items[..|items| - 1]), items[|items| - 1];
      if item.FunctionCall? && item.callId != "" then before + {item.callId}
      else if item.FunctionCallOutput? && item.callId != "" then before - {item.callId}
      else before
  }

  /** An id is open exactly when some call has it and no output after that call has it. */
  lemma {:induction false} OpenCallsIff(items: seq<Item>, id: string)
    ensures id in OpenCalls(items) <==> id != "" && exists i :: IsCall(items, i, id) && NoOutputAfter(items, i, id)
  {
    if items != [] {
      var n := |items| - 1;
      var before := items[..n];
      OpenCallsIff(before, id);
      if id in OpenCalls(before) && !IsOutput(items, n, id) {
        var i :| IsCall(before, i, id) && NoOutputAfter(before, i, id);
        forall j | i < j ensures !IsOutput(items, j, id) {
          assert IsOutput(items, j, id) && j != n ==> IsOutput(before, j, id);
        }
        assert IsCall(items, i, id) && NoOutputAfter(items, i, id);
      }
      if IsCall(items, n, id) { assert NoOutputAfter(items, n, id); }
      if i :| IsCall(items, i, id) && NoOutputAfter(items, i, id) {
        assert !IsOutput(items, n, id) || i == n;
        if i < n {
          forall j | i < j ensures !IsOutput(before, j, id) {
            assert IsOutput(before, j, id) ==> IsOutput(items, j, id);
          }
          assert IsCall(before, i, id) && NoOutputAfter(before, i, id);
        }
      }
    }
  }

  ghost predicate NoOutputAfter(items: seq<Item>, i: int, id: string) {
    forall j :: i < j ==> !IsOutput(items, j, id)
  }

  // ----- Preserved rows -----

  /** The last `k` rows reach both thresholds. */
  predicate Enough(rows: seq<Candidate>, items: nat, tokens: int, k: nat)
    requires k <= |rows|
  {
    k >= items && Tokens(rows[|rows| - k..]) >= tokens
  }

  /** The least suffix length from `k` on that reaches both thresholds, or everything. */
  function PreservedFrom(rows: seq<Candidate>, items: nat, tokens: int, k: nat): (count: nat)
    requires k <= |rows|
    ensures k <= count <= |rows|
    ensures count == |rows| || Enough(rows, items, tokens, count)
    ensures forall m :: k <= m < count ==> !Enough(rows, items, tokens, m)
    decreases |rows| - k
  {
    if k == |rows| || Enough(rows, items, tokens, k) then k else PreservedFrom(rows, items, tokens, k + 1)
  }

  function PreserveTokens(s: Settings, target: nat): nat {
    target * s.ratioNum / s.ratioDen
  }

  function CandidateLimit(rows: seq<Candidate>, s: Settings, target: nat): (limit: nat)
    ensures limit <= |rows|
  {
    var kept := |rows| - PreservedFrom(rows, s.preserveRecentItems, PreserveTokens(s, target), 0);
    if CompletedEnd(rows) < kept then CompletedEnd(rows) else kept
  }

  // ----- Specification -----

  /** A prefix length that may be compacted. */
  predicate Eligible(rows: seq<Candidate>, s: Settings, target: nat, n: int) {
    s.minItems <= n <= CandidateLimit(rows, s, target) && OpenCalls(ItemsOf(rows[..n])) == {}
  }

  predicate MeetsTarget(rows: seq<Candidate>, s: Settings, projected: int, target: nat, n: nat)
    requires n <= |rows|
  {
    projected - Tokens(rows[..n]) + s.summaryMaxTokens <= target
  }

  /** The least eligible length that meets the target; if none does, the greatest eligible
      one; if none is eligible, nothing. */
  ghost predicate IsBoundary(rows: seq<Candidate>, s: Settings, projected: int, target: nat, r: Option<nat>) {
    match r
    case None => forall m: nat :: !Eligible(rows, s, target, m)
    case Some(n) =>
      Eligible(rows, s, target, n) &&
      if MeetsTarget(rows, s, projected, target, n)
      then forall m :: 0 <= m < n && Eligible(rows, s, target, m) ==> !MeetsTarget(rows, s, projected, target, m)
      else forall m :: 0 <= m <= |rows| && Eligible(rows, s, target, m) ==>
          m <= n && !MeetsTarget(rows, s, projected, target, m)
  }

  // ----- The loops -----

  method CompletedPrefixEnd(rows: seq<Candidate>) returns (end: nat)
    ensures end == CompletedEnd(rows)
  {
    for i := 0 to |rows|
      invariant forall k :: 0 <= k < i ==> !rows[k].inProgress
    {
      if rows[i].inProgress {
        return i;
      }
    }
    return |rows|;
  }

  method CountPreserved(rows: seq<Candidate>, items: nat, tokens: int) returns (count: nat)
    ensures count == PreservedFrom(rows, items, tokens, 0)
  {
    var preserved := 0;
    count := 0;
    assert rows[|rows|..] == [];
    while count < |rows| && !(count >= items && preserved >= tokens)
      invariant count <= |rows| && preserved == Tokens(rows[|rows| - count..])
      invariant PreservedFrom(rows, items, tokens, count) == PreservedFrom(rows, items, tokens, 0)
    {
      var row := rows[|rows| - 1 - count];
      assert rows[|rows| - 1 - count..] == [row] + rows[|rows| - count..];
      TokensSplit([row], rows[|rows| - count..]);
      SingleToken(row);
      count, preserved := count + 1, preserved + row.tokens;
    }
  }

  lemma SingleToken(row: Candidate)
    ensures Tokens([row]) == row.tokens
  {
    assert [row][..0] == [];
  }

  lemma NextPrefix(rows: seq<Candidate>, n: nat)
    requires n < |rows|
    ensures ItemsOf(rows[..n + 1])[..n] == ItemsOf(rows[..n])
    ensures Tokens(rows[..n + 1]) == Tokens(rows[..n]) + rows[n].tokens
  {
    assert rows[..n + 1][..n] == rows[..n];
  }

  /** The eligible lengths up to `index` all miss the target, and `best` is the greatest. */
  ghost predicate Searched(rows: seq<Candidate>, s: Settings, projected: int, target: nat, index: nat,
      best: Option<nat>) {
    && index <= |rows|
    && (forall m: nat :: m <= index && Eligible(rows, s, target, m) ==>
          !MeetsTarget(rows, s, projected, target, m) && best.Some? && m <= best.value)
    && (best.Some? ==> best.value <= index && Eligible(rows, s, target, best.value))
  }

  lemma SearchedOneMore(rows: seq<Candidate>, s: Settings, projected: int, target: nat, index: nat, best: Option<nat>)
    requires Searched(rows, s, projected, target, index, best) && index < |rows|
    requires Eligible(rows, s, target, index + 1) ==> !MeetsTarget(rows, s, projected, target, index + 1)
    ensures Searched(rows, s, projected, target, index + 1,
                     if Eligible(rows, s, target, index + 1) then Some(index + 1) else best)
  {}

  method SelectBoundary(rows: seq<Candidate>, s: Settings, projected: int, target: nat) returns (r: Option<nat>)
    ensures IsBoundary(rows, s, projected, target, r)
  {
    if |rows| <= s.preserveRecentItems {
      return None;
    }
    var completed := CompletedPrefixEnd(rows);
    if completed < s.minItems {
      return None;
    }
    var preserved := CountPreserved(rows, s.preserveRecentItems, PreserveTokens(s, target));
    var limit := if completed < |rows| - preserved then completed else |rows| - preserved;
    if limit < s.minItems {
      return None;
    }
    r := Search(rows, s, projected, target, limit);
  }

  /** The search loop of `_select_boundary`. */
  method Search(rows: seq<Candidate>, s: Settings, projected: int, target: nat, limit: nat) returns (r: Option<nat>)
    requires limit == CandidateLimit(rows, s, target)
    ensures IsBoundary(rows, s, projected, target, r)
  {
    var open: set<string>, removed := {}, 0;
    r := None;
    assert rows[..0] == [];
    for index := 0 to limit
      invariant open == OpenCalls(ItemsOf(rows[..index])) && removed == Tokens(rows[..index])
      invariant Searched(rows, s, projected, target, index, r)
    {
      var row := rows[index];
      NextPrefix(rows, index);
      if row.item.FunctionCall? && row.item.callId != "" {
        open := open + {row.item.callId};
      } else if row.item.FunctionCallOutput? && row.item.callId != "" {
        open := open - {row.item.callId};
      }
      removed := removed + row.tokens;
      assert Eligible(rows, s, target, index + 1) <==> index + 1 >= s.minItems && open == {};
      if index + 1 >= s.minItems && open == {} {
        if projected - removed + s.summaryMaxTokens <= target {
          return Some(index + 1);
        }
        SearchedOneMore(rows, s, projected, target, index, r);
        r := Some(index + 1);
      } else {
        SearchedOneMore(rows, s, projected, target, index, r);
      }
    }
  }

  // ----- What a boundary guarantees -----

  /** Each output has exactly one place and follows its call; call ids are usable and distinct. */
  ghost predicate OutputsFollowCalls(items: seq<Item>) {
    && (forall i :: !IsCall(items, i, ""))
    && (forall i, j, id :: IsCall(items, i, id) && IsCall(items, j, id) ==> i == j)
    && (forall i, j, id :: IsOutput(items, i, id) && IsOutput(items, j, id) ==> i == j)
    && (forall j, id :: IsOutput(items, j, id) ==> exists i :: i < j && IsCall(items, i, id))
  }

  /** A prefix that may be compacted, said of the rows: it has the minimum of items, the rest
      has the configured items and the share of the target, nothing in it is in progress, and
      each call in it has a later output in it. */
  ghost predicate MayCompact(rows: seq<Candidate>, s: Settings, target: nat, n: int) {
    && s.minItems <= n <= |rows| && |rows| - n >= s.preserveRecentItems
    && Tokens(rows[n..]) >= PreserveTokens(s, target)
    && (forall i :: 0 <= i < n ==> !rows[i].inProgress)
    && (forall i, id :: i < n && IsCall(ItemsOf(rows), i, id) && id != "" ==>
          exists j :: i < j < n && IsOutput(ItemsOf(rows), j, id))
  }

  lemma ShareIff(tokens: nat, s: Settings, target: nat)
    ensures tokens >= PreserveTokens(s, target) <==> (tokens + 1) * s.ratioDen > target * s.ratioNum
  {
    var share, total, den := PreserveTokens(s, target), target * s.ratioNum, s.ratioDen;
    assert share * den <= total < (share + 1) * den;
    if tokens >= share { assert (tokens + 1) * den >= (share + 1) * den; }
    else { assert (tokens + 1) * den <= share * den; }
  }

  lemma {:induction false} CompletedIff(rows: seq<Candidate>, n: nat)
    requires n <= |rows|
    ensures n <= CompletedEnd(rows) <==> forall i :: 0 <= i < n ==> !rows[i].inProgress
  {
    if CompletedEnd(rows) < n { assert rows[CompletedEnd(rows)].inProgress; }
  }

  /** What is kept is enough exactly when it has the items and the tokens. */
  lemma PreservedIff(rows: seq<Candidate>, items: pos, tokens: int, k: nat)
    requires k < |rows|
    ensures PreservedFrom(rows, items, tokens, 0) <= k <==> k >= items && Tokens(rows[|rows| - k..]) >= tokens
  {
    var least := PreservedFrom(rows, items, tokens, 0);
    if least <= k {
      var left, right := rows[|rows| - k..|rows| - least], rows[|rows| - least..];
      assert rows[|rows| - k..] == left + right;
      TokensSplit(left, right);
    } else {
      assert !Enough(rows, items, tokens, k);
    }
  }

  lemma BalancedIff(rows: seq<Candidate>, n: nat)
    requires n <= |rows|
    ensures OpenCalls(ItemsOf(rows[..n])) == {} <==>
            forall i, id :: i < n && IsCall(ItemsOf(rows), i, id) && id != "" ==>
              exists j :: i < j < n && IsOutput(ItemsOf(rows), j, id)
  {
    var items, before := ItemsOf(rows), ItemsOf(rows[..n]);
    forall i, id ensures IsCall(before, i, id) <==> i < n && IsCall(items, i, id) {}
    forall i, id ensures IsOutput(before, i, id) <==> i < n && IsOutput(items, i, id) {}
    if OpenCalls(before) == {} {
      forall i, id | i < n && IsCall(items, i, id) && id != "" ensures exists j :: i < j < n && IsOutput(items, j, id) {
        OpenCallsIff(before, id);
        assert IsCall(before, i, id);
        var j :| i < j && IsOutput(before, j, id);
        assert IsOutput(items, j, id);
      }
    } else {
      var id :| id in OpenCalls(before);
      OpenCallsIff(before, id);
      var i :| IsCall(before, i, id) && NoOutputAfter(before, i, id);
      assert IsCall(items, i, id);
      forall j | i < j < n ensures !IsOutput(items, j, id) { assert !IsOutput(before, j, id); }
    }
  }

  /** The limits of the search are exactly these conditions. */
  lemma {:induction false} EligibleIff(rows: seq<Candidate>, s: Settings, target: nat, n: nat)
    ensures Eligible(rows, s, target, n) <==> MayCompact(rows, s, target, n)
  {
    if s.minItems <= n <= |rows| {
      var k := |rows| - n;
      assert rows[|rows| - k..] == rows[n..];
      PreservedIff(rows, s.preserveRecentItems, PreserveTokens(s, target), k);
      CompletedIff(rows, n);
      BalancedIff(rows, n);
    }
  }

  /** With the longest summary the rest and the incoming items are within the target. */
  predicate Reaches(rows: seq<Candidate>, s: Settings, incoming: nat, target: nat, n: nat)
    requires n <= |rows|
  {
    Tokens(rows[n..]) + incoming + s.summaryMaxTokens <= target
  }

  lemma {:induction false} ReachesIff(rows: seq<Candidate>, s: Settings, incoming: nat, target: nat, n: nat)
    requires n <= |rows|
    ensures MeetsTarget(rows, s, Tokens(rows) + incoming, target, n) <==> Reaches(rows, s, incoming, target, n)
  {
    assert rows == rows[..n] + rows[n..];
    TokensSplit(rows[..n], rows[n..]);
  }

  /** `n` reaches the target, and no smaller prefix that may be compacted does. */
  ghost predicate LeastReaching(rows: seq<Candidate>, s: Settings, incoming: nat, target: nat, n: nat)
    requires n <= |rows|
  {
    && Reaches(rows, s, incoming, target, n)
    && forall m: nat :: m < n && MayCompact(rows, s, target, m) ==> !Reaches(rows, s, incoming, target, m)
  }

  /** No prefix that may be compacted reaches the target, and none is longer. */
  ghost predicate GreatestOfNone(rows: seq<Candidate>, s: Settings, incoming: nat, target: nat, n: nat) {
    forall m: nat :: MayCompact(rows, s, target, m) ==> m <= n && !Reaches(rows, s, incoming, target, m)
  }

  lemma {:induction false} BoundaryIsLeast(rows: seq<Candidate>, s: Settings, incoming: nat, target: nat, n: nat)
    requires IsBoundary(rows, s, Tokens(rows) + incoming, target, Some(n))
    requires n <= |rows| && Reaches(rows, s, incoming, target, n)
    ensures LeastReaching(rows, s, incoming, target, n)
  {
    ReachesIff(rows, s, incoming, target, n);
    forall m: nat | m < n && MayCompact(rows, s, target, m) ensures !Reaches(rows, s, incoming, target, m) {
      EligibleIff(rows, s, target, m);
      ReachesIff(rows, s, incoming, target, m);
    }
  }

  lemma {:induction false} BoundaryIsGreatest(rows: seq<Candidate>, s: Settings, incoming: nat, target: nat, n: nat)
    requires IsBoundary(rows, s, Tokens(rows) + incoming, target, Some(n))
    requires n <= |rows| && !Reaches(rows, s, incoming, target, n)
    ensures GreatestOfNone(rows, s, incoming, target, n)
  {
    ReachesIff(rows, s, incoming, target, n);
    forall m: nat | MayCompact(rows, s, target, m) ensures m <= n && !Reaches(rows, s, incoming, target, m) {
      EligibleIff(rows, s, target, m);
      ReachesIff(rows, s, incoming, target, m);
    }
  }

  lemma {:induction false} NoBoundaryIff(rows: seq<Candidate>, s: Settings, projected: int, target: nat, r: Option<nat>)
    requires IsBoundary(rows, s, projected, target, r)
    ensures r.None? <==> forall m: nat :: !MayCompact(rows, s, target, m)
    ensures r.Some? ==> MayCompact(rows, s, target, r.value)
  {
    match r
    case None => forall m: nat ensures !MayCompact(rows, s, target, m) { EligibleIff(rows, s, target, m); }
    case Some(n) => EligibleIff(rows, s, target, n);
  }

  /** The boundary is the least prefix that may be compacted and reaches the target; if none
      reaches it, the greatest that may be compacted; and there is none exactly if none may. */
  lemma {:induction false} BoundaryIs(rows: seq<Candidate>, s: Settings, incoming: nat, target: nat, r: Option<nat>)
    requires IsBoundary(rows, s, Tokens(rows) + incoming, target, r)
    ensures r.None? <==> forall m: nat :: !MayCompact(rows, s, target, m)
    ensures r.Some? ==>
              && MayCompact(rows, s, target, r.value)
              && (LeastReaching(rows, s, incoming, target, r.value)
                  || GreatestOfNone(rows, s, incoming, target, r.value))
  {
    NoBoundaryIff(rows, s, Tokens(rows) + incoming, target, r);
    if r.Some? {
      if Reaches(rows, s, incoming, target, r.value) { BoundaryIsLeast(rows, s, incoming, target, r.value); }
      else { BoundaryIsGreatest(rows, s, incoming, target, r.value); }
    }
  }

  /** The kept suffix has at least the configured items and tokens, and nothing in progress
      is compacted. */
  lemma BoundaryPreservesRecent(rows: seq<Candidate>, s: Settings, target: nat, n: nat)
    requires Eligible(rows, s, target, n)
    ensures |rows| - n >= s.preserveRecentItems
    ensures Tokens(rows[n..]) >= PreserveTokens(s, target)
    ensures forall i :: 0 <= i < n ==> !rows[i].inProgress
  {
    var count := PreservedFrom(rows, s.preserveRecentItems, PreserveTokens(s, target), 0);
    assert rows[n..] == rows[n..|rows| - count] + rows[|rows| - count..];
    TokensSplit(rows[n..|rows| - count], rows[|rows| - count..]);
  }

  /** On well-paired rows no kept output loses its call. */
  lemma NoKeptOutputLosesItsCall(rows: seq<Candidate>, s: Settings, target: nat, n: nat, j: nat, id: string)
    requires OutputsFollowCalls(ItemsOf(rows)) && Eligible(rows, s, target, n)
    requires n <= j && IsOutput(ItemsOf(rows), j, id)
    ensures exists i :: n <= i < j && IsCall(ItemsOf(rows), i, id)
  {
    var items, before := ItemsOf(rows), ItemsOf(rows[..n]);
    var i :| i < j && IsCall(items, i, id);
    if i < n {
      forall k | i < k ensures !IsOutput(before, k, id) {
        assert IsOutput(before, k, id) ==> IsOutput(items, k, id);
      }
      assert IsCall(before, i, id) && NoOutputAfter(before, i, id);
      OpenCallsIff(before, id);
      assert false;
    }
  }
}
