/**
 What the tool-transaction normalizer keeps: regular items in order, no invented tool
 item, and exactly when no tool item is lost.
 */
module ToolConservation {
  import opened Sequences
  import opened ToolTransactions

  // ----- Projections -----

  function NonTools(items: seq<Item>): seq<Item> {
    if items == [] then []
    else
      var before, item := NonTools(items[..|items| - 1]), items[|items| - 1];
      if IsTool(item) then before else before + [item]
  }

  /** The regular items that are not empty assistant messages. */
  function KeptRegulars(items: seq<Item>): seq<Item> {
    if items == [] then []
    else
      var before, item := KeptRegulars(items[..|items| - 1]), items[|items| - 1];
      if IsTool(item) || IsEmptyAssistantMessage(item) then before else before + [item]
  }

  function CallsIn(items: seq<Item>): seq<Item> {
    if items == [] then []
    else
      var before, item := CallsIn(items[..|items| - 1]), items[|items| - 1];
      if item.FunctionCall? then before + [item] else before
  }

  function OutputsIn(items: seq<Item>): seq<Item> {
    if items == [] then []
    else
      var before, item := OutputsIn(items[..|items| - 1]), items[|items| - 1];
      if item.FunctionCallOutput? then before + [item] else before
  }

  lemma {:induction false} ProjectionsAppend(left: seq<Item>, right: seq<Item>)
    ensures NonTools(left + right) == NonTools(left) + NonTools(right)
    ensures CallsIn(left + right) == CallsIn(left) + CallsIn(right)
    ensures OutputsIn(left + right) == OutputsIn(left) + OutputsIn(right)
  {
    if right == [] {
      assert left + right == left;
    } else {
      var before, last := right[..|right| - 1], right[|right| - 1];
      ProjectionsAppend(left, before);
      AddLast(left, right);
      ProjectionsOneMore(left + before, last);
      ProjectionsOneMore(before, last);
      assert right == before + [last];
    }
  }

  lemma ProjectionsOneMore(items: seq<Item>, item: Item)
    ensures NonTools(items + [item]) == NonTools(items) + (if IsTool(item) then [] else [item])
    ensures CallsIn(items + [item]) == CallsIn(items) + (if item.FunctionCall? then [item] else [])
    ensures OutputsIn(items + [item]) == OutputsIn(items) + (if item.FunctionCallOutput? then [item] else [])
  {
    PrefixOfLonger(items, item);
  }

  lemma {:induction false} ProjectionsOfRegulars(items: seq<Item>)
    requires forall i :: 0 <= i < |items| ==> !IsTool(items[i])
    ensures NonTools(items) == items && CallsIn(items) == [] && OutputsIn(items) == []
  {
    if items != [] {
      var before, last := items[..|items| - 1], items[|items| - 1];
      ProjectionsOfRegulars(before);
      ProjectionsOneMore(before, last);
      assert items == before + [last];
    }
  }

  lemma {:induction false} ProjectionsOfCalls(items: seq<Item>)
    requires forall i :: 0 <= i < |items| ==> items[i].FunctionCall?
    ensures NonTools(items) == [] && CallsIn(items) == items && OutputsIn(items) == []
  {
    if items != [] {
      var before, last := items[..|items| - 1], items[|items| - 1];
      ProjectionsOfCalls(before);
      ProjectionsOneMore(before, last);
      assert items == before + [last];
    }
  }

  lemma {:induction false} ProjectionsOfOutputs(items: seq<Item>)
    requires forall i :: 0 <= i < |items| ==> items[i].FunctionCallOutput?
    ensures NonTools(items) == [] && CallsIn(items) == [] && OutputsIn(items) == items
  {
    if items != [] {
      var before, last := items[..|items| - 1], items[|items| - 1];
      ProjectionsOfOutputs(before);
      ProjectionsOneMore(before, last);
      assert items == before + [last];
    }
  }

  lemma ProjectionsOfTail(calls: seq<Item>, outputs: seq<Item>, deferred: seq<Item>, tail: seq<Item>)
    requires forall i :: 0 <= i < |calls| ==> calls[i].FunctionCall?
    requires forall i :: 0 <= i < |outputs| ==> outputs[i].FunctionCallOutput?
    requires forall i :: 0 <= i < |deferred| ==> !IsTool(deferred[i])
    requires tail == calls + outputs + deferred
    ensures NonTools(tail) == deferred && CallsIn(tail) == calls && OutputsIn(tail) == outputs
  {
    ProjectionsOfCalls(calls);
    ProjectionsOfOutputs(outputs);
    ProjectionsOfRegulars(deferred);
    ProjectionsAppend(calls, outputs);
    ProjectionsAppend(calls + outputs, deferred);
  }

  /** What flushing a complete transaction adds to each projection. */
  lemma FlushProjections(s: State)
    requires StateOk(s) && Complete(s.open)
    ensures NonTools(Flush(s).normalized) == NonTools(s.normalized) + s.open.deferred
    ensures CallsIn(Flush(s).normalized) == CallsIn(s.normalized) + s.open.calls
    ensures OutputsIn(Flush(s).normalized) == OutputsIn(s.normalized) + OutputsOf(s.open.outputs, s.open.callIds)
  {
    var t := s.open;
    CompleteIsBlock(t);
    ProjectionsOfTail(t.calls, OutputsOf(t.outputs, t.callIds), t.deferred, OrderedItems(t));
    ProjectionsAppend(s.normalized, OrderedItems(t));
  }

  lemma DiscardProjections(s: State)
    requires StateOk(s)
    ensures NonTools(Discard(s).normalized) ==
        NonTools(s.normalized) + (if s.open.calls == [] then [] else s.open.deferred)
    ensures CallsIn(Discard(s).normalized) == CallsIn(s.normalized)
    ensures OutputsIn(Discard(s).normalized) == OutputsIn(s.normalized)
  {
    ProjectionsOfRegulars(s.open.deferred);
    ProjectionsAppend(s.normalized, s.open.deferred);
  }

  // ----- Regular items keep their order -----

  /** Regular items out, including those waiting behind an open transaction. */
  function RegularsOut(s: State): seq<Item> {
    NonTools(s.normalized) + s.open.deferred
  }

  lemma FlushKeepsRegulars(s: State)
    requires StateOk(s)
    ensures RegularsOut(Flush(s)) == RegularsOut(s)
  {
    if Complete(s.open) { FlushProjections(s); }
  }

  lemma DiscardKeepsRegulars(s: State)
    requires StateOk(s)
    ensures RegularsOut(Discard(s)) == RegularsOut(s)
  {
    DiscardProjections(s);
  }

  lemma CallKeepsRegulars(s: State, item: Item)
    requires StateOk(s) && item.FunctionCall?
    ensures RegularsOut(HandleCall(s, item)) == RegularsOut(s)
  {
    FlushKeepsRegulars(s);
    FlushOk(s);
    DiscardKeepsRegulars(Flush(s));
  }

  lemma OutputKeepsRegulars(s: State, item: Item)
    requires StateOk(s) && item.FunctionCallOutput?
    ensures RegularsOut(HandleOutput(s, item)) == RegularsOut(s)
  {
    if Answers(s.open, item.callId) {
      FlushKeepsRegulars(s.(open := s.open.(outputs := s.open.outputs[item.callId := item])));
    }
  }

  lemma {:induction false} RegularsSoFar(items: seq<Item>)
    ensures RegularsOut(HandleAll(START, items)) == KeptRegulars(items)
  {
    if items != [] {
      var before := items[..|items| - 1];
      RegularsSoFar(before);
      HandleAllOk(before);
      var s, item := HandleAll(START, before), items[|items| - 1];
      if item.FunctionCall? { CallKeepsRegulars(s, item); }
      else if item.FunctionCallOutput? { OutputKeepsRegulars(s, item); }
    }
  }

  /** The non-tool items of the output are the non-empty regular items of the input, in order. */
  lemma RegularsKeepTheirOrder(items: seq<Item>)
    ensures NonTools(Normalized(items)) == KeptRegulars(items)
  {
    var s := HandleAll(START, items);
    RegularsSoFar(items);
    HandleAllOk(items);
    FlushOk(s);
    FlushKeepsRegulars(s);
    DiscardKeepsRegulars(Flush(s));
    DiscardOk(Flush(s));
  }

  // ----- No tool item is invented or duplicated -----

  /** `small` is obtained from `big` by deleting items. */
  predicate Subsequence(small: seq<Item>, big: seq<Item>) {
    small == [] ||
    (big != [] &&
     ((small[|small| - 1] == big[|big| - 1] && Subsequence(small[..|small| - 1], big[..|big| - 1]))
      || Subsequence(small, big[..|big| - 1])))
  }

  lemma {:induction false} SubsequenceShorter(small: seq<Item>, big: seq<Item>, n: nat)
    requires Subsequence(small, big) && n <= |small|
    ensures Subsequence(small[..n], big)
  {
    if n < |small| && big != [] {
      var big' := big[..|big| - 1];
      if small[|small| - 1] == big[|big| - 1] && Subsequence(small[..|small| - 1], big') {
        SubsequenceShorter(small[..|small| - 1], big', n);
        assert small[..|small| - 1][..n] == small[..n];
      } else {
        SubsequenceShorter(small, big', n);
      }
    } else {
      assert small[..n] == small || small == [];
    }
  }

  lemma SubsequenceSnoc(small: seq<Item>, big: seq<Item>, item: Item)
    requires Subsequence(small, big)
    ensures Subsequence(small + [item], big + [item])
    ensures Subsequence(small, big + [item])
  {
    PrefixOfLonger(small, item);
    PrefixOfLonger(big, item);
  }

  lemma {:induction false} SubsequenceLength(small: seq<Item>, big: seq<Item>)
    requires Subsequence(small, big)
    ensures |small| <= |big|
    ensures |small| == |big| ==> small == big
  {
    if small != [] {
      var big' := big[..|big| - 1];
      if small[|small| - 1] == big[|big| - 1] && Subsequence(small[..|small| - 1], big') {
        SubsequenceLength(small[..|small| - 1], big');
        assert small == small[..|small| - 1] + [small[|small| - 1]];
        assert big == big' + [big[|big| - 1]];
      } else {
        SubsequenceLength(small, big');
      }
    }
  }

  /** The outputs held by an open transaction, in call order. */
  function Held(outputs: map<string, Item>, callIds: seq<string>): multiset<Item> {
    if callIds == [] then multiset{}
    else
      var id := callIds[|callIds| - 1];
      Held(outputs, callIds[..|callIds| - 1]) + (if id in outputs then multiset{outputs[id]} else multiset{})
  }

  lemma {:induction false} HeldUnchanged(outputs: map<string, Item>, callIds: seq<string>, id: string, item: Item)
    requires id !in callIds
    ensures Held(outputs[id := item], callIds) == Held(outputs, callIds)
  {
    if callIds != [] { HeldUnchanged(outputs, callIds[..|callIds| - 1], id, item); }
  }

  lemma {:induction false} HeldOneMore(outputs: map<string, Item>, callIds: seq<string>, id: string, item: Item)
    requires forall i, j :: 0 <= i < j < |callIds| ==> callIds[i] != callIds[j]
    requires id in callIds && id !in outputs
    ensures Held(outputs[id := item], callIds) == Held(outputs, callIds) + multiset{item}
  {
    var before := callIds[..|callIds| - 1];
    if id == callIds[|callIds| - 1] {
      HeldUnchanged(outputs, before, id, item);
    } else {
      assert id in before;
      HeldOneMore(outputs, before, id, item);
    }
  }

  lemma {:induction false} HeldComplete(outputs: map<string, Item>, callIds: seq<string>)
    requires forall id :: id in callIds ==> id in outputs
    ensures Held(outputs, callIds) == multiset(OutputsOf(outputs, callIds))
    ensures |Held(outputs, callIds)| == |callIds|
  {
    if callIds != [] {
      HeldComplete(outputs, callIds[..|callIds| - 1]);
    }
  }

  /** All calls and outputs the state still carries. */
  function CallsOut(s: State): seq<Item> {
    CallsIn(s.normalized) + s.open.calls
  }

  function OutputsOut(s: State): multiset<Item> {
    multiset(OutputsIn(s.normalized)) + Held(s.open.outputs, s.open.callIds)
  }

  lemma FlushKeepsTools(s: State)
    requires StateOk(s)
    ensures CallsOut(Flush(s)) == CallsOut(s)
    ensures OutputsOut(Flush(s)) == OutputsOut(s)
  {
    if Complete(s.open) {
      FlushProjections(s);
      HeldComplete(s.open.outputs, s.open.callIds);
    }
  }

  lemma DiscardDropsTools(s: State)
    requires StateOk(s)
    ensures CallsOut(Discard(s)) == CallsIn(s.normalized)
    ensures OutputsOut(Discard(s)) == multiset(OutputsIn(s.normalized))
    ensures CallsIn(s.normalized) == CallsOut(s)[..|CallsIn(s.normalized)|]
  {
    DiscardProjections(s);
  }

  /** Nothing but deletions relative to the input. */
  ghost predicate Conserves(s: State, items: seq<Item>) {
    && Subsequence(CallsOut(s), CallsIn(items))
    && OutputsOut(s) <= multiset(OutputsIn(items))
  }

  lemma AddCallOut(s: State, item: Item)
    requires item.FunctionCall? && TransactionOk(s.open)
    ensures CallsOut(AddCall(s, item)) == CallsOut(s) + (if Accepts(s.open, item.callId) then [item] else [])
    ensures OutputsOut(AddCall(s, item)) == OutputsOut(s)
  {
    if Accepts(s.open, item.callId) {
      var ids := s.open.callIds;
      assert (ids + [item.callId])[..|ids|] == ids;
      assert s.open.calls + [item] == AddCall(s, item).open.calls;
    }
  }

  lemma HandleCallConserves(s: State, items: seq<Item>, item: Item)
    requires StateOk(s) && Conserves(s, items) && item.FunctionCall?
    ensures Conserves(HandleCall(s, item), items + [item])
  {
    PrefixOfLonger(items, item);
    FlushOk(s);
    FlushKeepsTools(s);
    var f := Flush(s);
    SubsequenceSnoc(CallsOut(f), CallsIn(items), item);
    AddCallOut(f, item);
    DiscardOk(f);
    DiscardDropsTools(f);
    AddCallOut(Discard(f), item);
    SubsequenceShorter(CallsOut(f), CallsIn(items), |CallsIn(f.normalized)|);
    SubsequenceSnoc(CallsIn(f.normalized), CallsIn(items), item);
  }

  lemma AnswerKeepsTools(s: State, item: Item)
    requires StateOk(s) && item.FunctionCallOutput? && Answers(s.open, item.callId)
    ensures CallsOut(HandleOutput(s, item)) == CallsOut(s)
    ensures OutputsOut(HandleOutput(s, item)) == OutputsOut(s) + multiset{item}
    ensures !Complete(HandleOutput(s, item).open)
  {
    HeldOneMore(s.open.outputs, s.open.callIds, item.callId, item);
    FlushKeepsTools(s.(open := s.open.(outputs := s.open.outputs[item.callId := item])));
  }

  lemma HandleOutputConserves(s: State, items: seq<Item>, item: Item)
    requires StateOk(s) && Conserves(s, items) && item.FunctionCallOutput?
    ensures Conserves(HandleOutput(s, item), items + [item])
  {
    PrefixOfLonger(items, item);
    if Answers(s.open, item.callId) { AnswerKeepsTools(s, item); }
  }

  lemma {:induction false} HandleAllConserves(items: seq<Item>)
    ensures Conserves(HandleAll(START, items), items)
  {
    if items == [] {
    } else {
      var before, item := items[..|items| - 1], items[|items| - 1];
      HandleAllConserves(before);
      HandleAllOk(before);
      var s := HandleAll(START, before);
      assert before + [item] == items;
      if item.FunctionCall? { HandleCallConserves(s, before, item); }
      else if item.FunctionCallOutput? { HandleOutputConserves(s, before, item); }
    }
  }

  /** The calls of the output are calls of the input in the same order, and no output item
      appears more often than in the input. */
  lemma NothingInvented(items: seq<Item>)
    ensures Subsequence(CallsIn(Normalized(items)), CallsIn(items))
    ensures multiset(OutputsIn(Normalized(items))) <= multiset(OutputsIn(items))
  {
    var s := HandleAll(START, items);
    HandleAllConserves(items);
    HandleAllOk(items);
    FlushOk(s);
    FlushKeepsTools(s);
    DiscardProjections(Flush(s));
    DiscardDropsTools(Flush(s));
    SubsequenceShorter(CallsOut(Flush(s)), CallsIn(items), |CallsIn(Flush(s).normalized)|);
  }

  // ----- Exactly when nothing is lost -----

  /** A ledger of call ids: `pending` and `answered` ids of the running group of calls, and
      whether every tool item so far could be placed. */
  datatype Ledger = Ledger(pending: set<string>, answered: set<string>, placed: bool)

  function Entered(l: Ledger, item: Item): Ledger {
    match item
    case FunctionCall(id, _) =>
      Ledger(l.pending + {id}, l.answered, l.placed && id != "" && id !in l.pending && id !in l.answered)
    case FunctionCallOutput(id, _) =>
      if l.pending - {id} == {} then Ledger({}, {}, l.placed && id in l.pending)
      else Ledger(l.pending - {id}, l.answered + {id}, l.placed && id in l.pending)
    case _ => l
  }

  function LedgerOf(items: seq<Item>): Ledger {
    if items == [] then Ledger({}, {}, true)
    else Entered(LedgerOf(items[..|items| - 1]), items[|items| - 1])
  }

  /** Every call id is usable and fresh in its group, every output answers a pending call,
      and no call stays unanswered. */
  predicate Serviceable(items: seq<Item>) {
    LedgerOf(items).placed && LedgerOf(items).pending == {}
  }

  /** While everything was placed, the ledger mirrors the open transaction. */
  ghost predicate Mirrors(l: Ledger, t: Transaction) {
    && (forall id :: id in l.pending <==> id in t.callIds && id !in t.outputs)
    && (forall id :: id in l.answered <==> id in t.outputs)
  }

  /** The number of tool items the state still carries. */
  function ToolsOut(s: State): nat {
    |CallsOut(s)| + |OutputsOut(s)|
  }

  function ToolsIn(items: seq<Item>): nat {
    |CallsIn(items)| + |OutputsIn(items)|
  }

  ghost predicate Balanced(s: State, items: seq<Item>) {
    && !Complete(s.open)
    && ToolsOut(s) <= ToolsIn(items)
    && (ToolsOut(s) == ToolsIn(items) <==> LedgerOf(items).placed)
    && (LedgerOf(items).placed ==> Mirrors(LedgerOf(items), s.open))
  }

  lemma HandleCallBalanced(s: State, items: seq<Item>, item: Item)
    requires StateOk(s) && Balanced(s, items) && item.FunctionCall?
    ensures Balanced(HandleCall(s, item), items + [item])
  {
    assert Flush(s) == s;
    if Accepts(s.open, item.callId) {
      AcceptedCallBalanced(s, items, item);
    } else {
      DiscardOk(s);
      RefusedCallBalanced(s, items, item);
    }
  }

  lemma AcceptedCallBalanced(s: State, items: seq<Item>, item: Item)
    requires StateOk(s) && Balanced(s, items) && item.FunctionCall? && Accepts(s.open, item.callId)
    ensures Balanced(AddCall(s, item), items + [item])
  {
    PrefixOfLonger(items, item);
    ProjectionsOneMore(items, item);
    AddCallOut(s, item);
    assert AddCall(s, item).open.callIds[|s.open.callIds|] == item.callId;
  }

  /** The id is unusable or belongs to the open group already: something is lost. */
  lemma RefusedCallBalanced(s: State, items: seq<Item>, item: Item)
    requires StateOk(s) && Balanced(s, items) && item.FunctionCall? && !Accepts(s.open, item.callId)
    requires StateOk(Discard(s))
    ensures Balanced(AddCall(Discard(s), item), items + [item])
  {
    ProjectionsOneMore(items, item);
    CannotAddLoses(s, item);
  }

  lemma CannotAddLoses(s: State, item: Item)
    requires StateOk(s) && item.FunctionCall? && !Complete(s.open) && !Accepts(s.open, item.callId)
    ensures ToolsOut(AddCall(Discard(s), item)) <= ToolsOut(s)
  {
    DiscardOk(s);
    DiscardDropsTools(s);
    AddCallOut(Discard(s), item);
    if s.open.calls == [] {
      assert item.callId == "";
    }
  }

  lemma HandleOutputBalanced(s: State, items: seq<Item>, item: Item)
    requires StateOk(s) && Balanced(s, items) && item.FunctionCallOutput?
    ensures Balanced(HandleOutput(s, item), items + [item])
  {
    PrefixOfLonger(items, item);
    var l := LedgerOf(items);
    if Answers(s.open, item.callId) {
      AnswerKeepsTools(s, item);
      if l.placed { AnswerMirrors(l, s.open, item); }
    } else if l.placed {
      assert item.callId !in l.pending;
    }
  }

  lemma AnswerMirrors(l: Ledger, t: Transaction, item: Item)
    requires TransactionOk(t) && Mirrors(l, t) && item.FunctionCallOutput? && Answers(t, item.callId)
    ensures item.callId in l.pending
    ensures var t' := t.(outputs := t.outputs[item.callId := item]);
            Mirrors(Entered(l, item), if Complete(t') then NO_TRANSACTION else t')
  {
    var t' := t.(outputs := t.outputs[item.callId := item]);
    var left := l.pending - {item.callId};
    if left == {} {
      forall id | id in t'.callIds ensures id in t'.outputs {
        assert id !in left;
      }
    } else {
      var id :| id in left;
      assert id in t'.callIds && id !in t'.outputs;
    }
  }

  lemma HandleRegularBalanced(s: State, items: seq<Item>, item: Item)
    requires StateOk(s) && Balanced(s, items) && !IsTool(item)
    ensures Balanced(HandleRegular(s, item), items + [item])
  {
    PrefixOfLonger(items, item);
    PrefixOfLonger(s.normalized, item);
  }

  lemma {:induction false} HandleAllBalanced(items: seq<Item>)
    ensures Balanced(HandleAll(START, items), items)
  {
    if items != [] {
      var before, item := items[..|items| - 1], items[|items| - 1];
      HandleAllBalanced(before);
      HandleAllOk(before);
      var s := HandleAll(START, before);
      assert before + [item] == items;
      if item.FunctionCall? { HandleCallBalanced(s, before, item); }
      else if item.FunctionCallOutput? { HandleOutputBalanced(s, before, item); }
      else { HandleRegularBalanced(s, before, item); }
    }
  }

  /** No tool item is lost, and the call order is kept, exactly for serviceable inputs. */
  lemma LosslessIff(items: seq<Item>)
    ensures CallsIn(Normalized(items)) == CallsIn(items)
            && multiset(OutputsIn(Normalized(items))) == multiset(OutputsIn(items))
            <==> Serviceable(items)
  {
    var s := HandleAll(START, items);
    var out := Normalized(items);
    HandleAllBalanced(items);
    HandleAllOk(items);
    HandleAllConserves(items);
    DiscardDropsTools(s);
    DiscardProjections(s);
    assert Flush(s) == s && out == Discard(s).normalized;
    NothingInvented(items);
    if Serviceable(items) {
      forall id | id in s.open.callIds ensures id in s.open.outputs {
        assert id !in LedgerOf(items).pending;
      }
      SubsequenceLength(CallsIn(out), CallsIn(items));
      SubmultisetOfSameSize(multiset(OutputsIn(out)), multiset(OutputsIn(items)));
    } else if LedgerOf(items).placed {
      assert s.open.calls != [];
    }
  }

  /** An unanswered call takes a completed pair of its group with it: of two calls and the
      output of the first, nothing is left. */
  lemma PairIsDropped(first: Item, second: Item, output: Item)
    requires first.FunctionCall? && second.FunctionCall? && output.FunctionCallOutput?
    requires first.callId != "" && second.callId != "" && first.callId != second.callId
    requires output.callId == first.callId
    ensures Normalized([first, second, output]) == []
    ensures !Serviceable([first, second, output])
  {
    var items := [first, second, output];
    assert items[..2] == [first, second] && [first, second][..1] == [first] && [first][..0] == [];
    var both := HandleAll(START, [first, second]);
    assert both == State([], Transaction([first, second], [first.callId, second.callId], map[], [])) by {
      assert HandleAll(START, [first]) == State([], Transaction([first], [first.callId], map[], []));
      assert !Complete(HandleAll(START, [first]).open) by { assert first.callId in [first.callId]; }
    }
    var s := HandleAll(START, items);
    assert s.normalized == [] && s.open.deferred == [] && s.open.calls == [first, second];
    assert !Complete(s.open) by { assert second.callId in s.open.callIds && second.callId !in s.open.outputs; }
    LosslessIff(items);
  }

  lemma SubmultisetOfSameSize(a: multiset<Item>, b: multiset<Item>)
    requires a <= b
    ensures |a| <= |b| && (|a| == |b| ==> a == b)
  {
    assert b == a + (b - a);
  }

  // ----- Well-paired inputs -----

  predicate IsCall(items: seq<Item>, i: int, id: string) {
    0 <= i < |items| && items[i].FunctionCall? && items[i].callId == id
  }

  predicate IsOutput(items: seq<Item>, i: int, id: string) {
    0 <= i < |items| && items[i].FunctionCallOutput? && items[i].callId == id
  }

  /** Call ids are usable and distinct, and calls and later outputs match one to one. */
  ghost predicate WellPaired(items: seq<Item>) {
    && (forall i :: !IsCall(items, i, ""))
    && (forall i, j, id :: IsCall(items, i, id) && IsCall(items, j, id) ==> i == j)
    && (forall i, j, id :: IsOutput(items, i, id) && IsOutput(items, j, id) ==> i == j)
    && (forall i, id :: IsCall(items, i, id) ==> exists j :: i < j && IsOutput(items, j, id))
    && (forall j, id :: IsOutput(items, j, id) ==> exists i :: i < j && IsCall(items, i, id))
  }

  /** The ledger after `n` items of a well-paired input. */
  ghost predicate Tallies(items: seq<Item>, n: nat, l: Ledger) {
    && l.placed
    && (forall id :: id in l.pending <==>
          (exists i :: i < n && IsCall(items, i, id)) && !(exists j :: j < n && IsOutput(items, j, id)))
    && (forall id :: id in l.answered ==> exists i :: i < n && IsCall(items, i, id))
  }

  lemma TallyOne(items: seq<Item>, n: nat, l: Ledger)
    requires WellPaired(items) && n < |items| && Tallies(items, n, l)
    ensures Tallies(items, n + 1, Entered(l, items[n]))
  {
    var item := items[n];
    var l' := Entered(l, item);
    if IsTool(item) {
      var id := item.callId;
      assert item.FunctionCall? ==> IsCall(items, n, id);
      assert item.FunctionCallOutput? ==> IsOutput(items, n, id);
    }
    forall id
      ensures (exists i :: i < n + 1 && IsCall(items, i, id))
          <==> (exists i :: i < n && IsCall(items, i, id)) || IsCall(items, n, id)
      ensures (exists j :: j < n + 1 && IsOutput(items, j, id))
          <==> (exists j :: j < n && IsOutput(items, j, id)) || IsOutput(items, n, id)
    {}
  }

  lemma {:induction false} TallyAll(items: seq<Item>, n: nat)
    requires WellPaired(items) && n <= |items|
    ensures Tallies(items, n, LedgerOf(items[..n]))
  {
    if n > 0 {
      TallyAll(items, n - 1);
      TallyOne(items, n - 1, LedgerOf(items[..n - 1]));
      assert items[..n][..n - 1] == items[..n - 1];
    } else {
      forall i, id ensures !(i < 0 && IsCall(items, i, id)) {}
    }
  }

  /** Well-paired inputs lose no tool item, however calls, outputs and other items interleave. */
  lemma WellPairedIsLossless(items: seq<Item>)
    requires WellPaired(items)
    ensures Serviceable(items)
    ensures CallsIn(Normalized(items)) == CallsIn(items)
    ensures multiset(OutputsIn(Normalized(items))) == multiset(OutputsIn(items))
  {
    TallyAll(items, |items|);
    assert items[..|items|] == items;
    forall id ensures id !in LedgerOf(items).pending {
      if i :| i < |items| && IsCall(items, i, id) {
        var j :| i < j && IsOutput(items, j, id);
        assert j < |items| && IsOutput(items, j, id);
      }
    }
    LosslessIff(items);
  }

  // ----- Adapting twice -----

  lemma {:induction false} InOneProjection(items: seq<Item>, item: Item)
    ensures item in items <==> item in NonTools(items) || item in CallsIn(items) || item in OutputsIn(items)
  {
    if items != [] {
      InOneProjection(items[..|items| - 1], item);
      assert items == items[..|items| - 1] + [items[|items| - 1]];
    }
  }

  lemma {:induction false} KeptIsInput(items: seq<Item>, item: Item)
    requires item in KeptRegulars(items)
    ensures item in items
  {
    if item != items[|items| - 1] { KeptIsInput(items[..|items| - 1], item); }
  }

  lemma {:induction false} SubsequenceIsInput(small: seq<Item>, big: seq<Item>, item: Item)
    requires Subsequence(small, big) && item in small
    ensures item in big
  {
    var big' := big[..|big| - 1];
    if Subsequence(small, big') {
      SubsequenceIsInput(small, big', item);
    } else if item != small[|small| - 1] {
      SubsequenceIsInput(small[..|small| - 1], big', item);
    }
  }

  /** Every item of the output is an item of the input. */
  lemma OutputIsInput(items: seq<Item>, item: Item)
    requires item in Normalized(items)
    ensures item in items
  {
    var out := Normalized(items);
    InOneProjection(out, item);
    InOneProjection(items, item);
    RegularsKeepTheirOrder(items);
    NothingInvented(items);
    if item in NonTools(out) { KeptIsInput(items, item); }
    else if item in CallsIn(out) { SubsequenceIsInput(CallsIn(out), CallsIn(items), item); }
    else { assert item in multiset(OutputsIn(out)); assert item in multiset(OutputsIn(items)); }
  }

  /** Adapting adapted items changes nothing: ids stay stripped and blocks stay grouped. */
  lemma AdaptingIsIdempotent(items: seq<Item>)
    ensures Adapted(Adapted(items)) == Adapted(items)
    ensures NonTools(Adapted(items)) == KeptRegulars(StripAll(items))
  {
    var out := Adapted(items);
    forall i | 0 <= i < |out| ensures Strip(out[i]) == out[i] {
      OutputIsInput(StripAll(items), out[i]);
    }
    assert StripAll(out) == out;
    NormalizingIsIdempotent(StripAll(items));
    RegularsKeepTheirOrder(StripAll(items));
  }
}
