/**
 Where the normalizer puts things: a tool transaction with everything that arrives while it
 is open becomes its calls, their outputs in call order, and then the deferred items.
 */
module ToolLayout {
  import opened Sequences
  import opened ToolTransactions
  import opened ToolConservation
  import opened CompactionBoundary

  /** Items that open one transaction and complete it with the last one: usable and distinct
      call ids, each output after its call, and some call unanswered until the end. */
  ghost predicate OneTransaction(items: seq<Item>) {
    && items != [] && items[0].FunctionCall?
    && OutputsFollowCalls(items)
    && (forall k :: 0 < k < |items| ==> OpenCalls(items[..k]) != {})
    && OpenCalls(items) == {}
  }

  function IdsOf(calls: seq<Item>): seq<string>
    requires forall i :: 0 <= i < |calls| ==> calls[i].FunctionCall?
  {
    seq(|calls|, i requires 0 <= i < |calls| => calls[i].callId)
  }

  lemma {:induction false} CallsAreCalls(items: seq<Item>)
    ensures forall i :: 0 <= i < |CallsIn(items)| ==> CallsIn(items)[i].FunctionCall?
  {
    if items != [] { CallsAreCalls(items[..|items| - 1]); }
  }

  /** The transaction that is open after the first `k` items. */
  ghost predicate IsOpen(items: seq<Item>, k: nat, t: Transaction)
    requires k <= |items|
  {
    && t.calls == CallsIn(items[..k]) && |t.callIds| == |t.calls|
    && (forall i :: 0 <= i < |t.calls| ==> t.calls[i].FunctionCall? && t.callIds[i] == t.calls[i].callId)
    && t.deferred == KeptRegulars(items[..k])
    && (forall id :: id in t.callIds <==> exists i :: i < k && IsCall(items, i, id))
    && (forall id :: id in t.outputs <==> exists i :: i < k && IsOutput(items, i, id))
    && (forall id :: id in t.outputs ==> IsOutputItem(items, t.outputs[id], id))
  }

  predicate IsOutputItem(items: seq<Item>, item: Item, id: string) {
    item in items && item.FunctionCallOutput? && item.callId == id
  }

  /** An id is open in a prefix when it is called there and not answered there. */
  lemma OpenInPrefixIff(items: seq<Item>, k: nat, id: string)
    requires OutputsFollowCalls(items) && k <= |items|
    ensures id in OpenCalls(items[..k]) <==>
            (exists i :: i < k && IsCall(items, i, id)) && !(exists j :: j < k && IsOutput(items, j, id))
  {
    var before := items[..k];
    OpenCallsIff(before, id);
    forall i ensures IsCall(before, i, id) <==> i < k && IsCall(items, i, id) {}
    forall i ensures IsOutput(before, i, id) <==> i < k && IsOutput(items, i, id) {}
    if i :| i < k && IsCall(items, i, id) {
      assert IsCall(before, i, id) && !IsCall(items, i, "");
      forall j | j < k && IsOutput(items, j, id) ensures i < j {
        var c :| c < j && IsCall(items, c, id);
      }
    }
  }

  lemma CompleteIff(items: seq<Item>, k: nat, t: Transaction)
    requires OutputsFollowCalls(items) && 0 < k <= |items| && IsOpen(items, k, t) && t.calls != []
    ensures Complete(t) <==> OpenCalls(items[..k]) == {}
  {
    forall id ensures id in OpenCalls(items[..k]) <==> id in t.callIds && id !in t.outputs {
      OpenInPrefixIff(items, k, id);
    }
    if Complete(t) {
      forall id ensures id !in OpenCalls(items[..k]) {}
    } else {
      assert t.callIds != [];
      var id :| id in t.callIds && id !in t.outputs;
      assert id in OpenCalls(items[..k]);
    }
  }

  // ----- One more item -----

  /** One step of the normalizer inside a transaction, before it looks for completion. */
  function Taken(t: Transaction, item: Item): Transaction {
    if item.FunctionCall? then t.(calls := t.calls + [item], callIds := t.callIds + [item.callId])
    else if item.FunctionCallOutput? then t.(outputs := t.outputs[item.callId := item])
    else if IsEmptyAssistantMessage(item) then t
    else t.(deferred := t.deferred + [item])
  }

  lemma OneMoreProjections(items: seq<Item>, k: nat)
    requires k < |items|
    ensures CallsIn(items[..k + 1]) == CallsIn(items[..k]) + (if items[k].FunctionCall? then [items[k]] else [])
    ensures KeptRegulars(items[..k + 1]) ==
            KeptRegulars(items[..k]) +
            (if IsTool(items[k]) || IsEmptyAssistantMessage(items[k]) then [] else [items[k]])
  {
    assert items[..k + 1][..k] == items[..k];
  }

  lemma OutputsComeLater(items: seq<Item>, k: nat, id: string)
    requires OutputsFollowCalls(items) && IsCall(items, k, id)
    ensures forall j :: IsOutput(items, j, id) ==> k < j
  {
    forall j | IsOutput(items, j, id) ensures k < j {
      var c :| c < j && IsCall(items, c, id);
    }
  }

  lemma CallOpens(items: seq<Item>, k: nat, t: Transaction)
    requires OutputsFollowCalls(items) && k < |items| && IsOpen(items, k, t) && items[k].FunctionCall?
    ensures Accepts(t, items[k].callId)
    ensures IsOpen(items, k + 1, t.(calls := t.calls + [items[k]], callIds := t.callIds + [items[k].callId]))
  {
    var id := items[k].callId;
    OneMoreProjections(items, k);
    assert IsCall(items, k, id);
    assert !IsCall(items, k, "");
    OutputsComeLater(items, k, id);
    var longer := t.callIds + [id];
    forall other ensures other in longer <==> exists i :: i < k + 1 && IsCall(items, i, other) {
      assert other in longer <==> other in t.callIds || other == id;
    }
    forall other ensures other in t.outputs <==> exists i :: i < k + 1 && IsOutput(items, i, other) {
      assert !IsOutput(items, k, other);
    }
  }

  lemma OutputAnswers(items: seq<Item>, k: nat, t: Transaction)
    requires OutputsFollowCalls(items) && k < |items| && IsOpen(items, k, t) && items[k].FunctionCallOutput?
    ensures Answers(t, items[k].callId)
    ensures IsOpen(items, k + 1, t.(outputs := t.outputs[items[k].callId := items[k]]))
  {
    var id := items[k].callId;
    OneMoreProjections(items, k);
    assert IsOutput(items, k, id);
    var c :| c < k && IsCall(items, c, id);
    forall other ensures other in t.callIds <==> exists i :: i < k + 1 && IsCall(items, i, other) {
      assert !IsCall(items, k, other);
    }
  }

  lemma RegularWaits(items: seq<Item>, k: nat, t: Transaction)
    requires k < |items| && IsOpen(items, k, t) && !IsTool(items[k])
    ensures IsOpen(items, k + 1, Taken(t, items[k]))
  {
    OneMoreProjections(items, k);
    forall other ensures !IsCall(items, k, other) && !IsOutput(items, k, other) {}
  }

  // ----- The whole transaction -----

  lemma NothingOpen(items: seq<Item>)
    ensures IsOpen(items, 0, NO_TRANSACTION)
  {
    assert items[..0] == [];
  }

  lemma TakenIsOpen(items: seq<Item>, k: nat, t: Transaction)
    requires OutputsFollowCalls(items) && k < |items| && IsOpen(items, k, t)
    ensures IsOpen(items, k + 1, Taken(t, items[k]))
    ensures items[k].FunctionCall? ==> Accepts(t, items[k].callId)
    ensures items[k].FunctionCallOutput? ==> Answers(t, items[k].callId)
  {
    if items[k].FunctionCall? { CallOpens(items, k, t); }
    else if items[k].FunctionCallOutput? { OutputAnswers(items, k, t); }
    else { RegularWaits(items, k, t); }
  }

  lemma HandleTakes(normalized: seq<Item>, items: seq<Item>, k: nat, t: Transaction)
    requires OutputsFollowCalls(items) && k < |items| && IsOpen(items, k, t) && !Complete(t)
    requires k == 0 ==> t == NO_TRANSACTION && items[0].FunctionCall?
    requires k > 0 ==> t.calls != []
    ensures Taken(t, items[k]).calls != []
    ensures Handle(State(normalized, t), items[k]) ==
            if items[k].FunctionCallOutput? then Flush(State(normalized, Taken(t, items[k])))
            else State(normalized, Taken(t, items[k]))
  {
    TakenIsOpen(items, k, t);
  }

  /** While the transaction is open nothing is emitted. */
  lemma {:induction false} StaysOpen(normalized: seq<Item>, items: seq<Item>, k: nat) returns (t: Transaction)
    requires OneTransaction(items) && 0 < k < |items|
    ensures HandleAll(State(normalized, NO_TRANSACTION), items[..k]) == State(normalized, t)
    ensures IsOpen(items, k, t) && t.calls != [] && !Complete(t)
  {
    var before := NO_TRANSACTION;
    if k == 1 {
      NothingOpen(items);
      assert items[..0] == [];
    } else {
      before := StaysOpen(normalized, items, k - 1);
    }
    assert items[..k][..k - 1] == items[..k - 1];
    TakenIsOpen(items, k - 1, before);
    HandleTakes(normalized, items, k - 1, before);
    t := Taken(before, items[k - 1]);
    CompleteIff(items, k, t);
  }

  lemma {:induction false} OutputsInCallOrder(outputs: map<string, Item>, callIds: seq<string>)
    requires forall id :: id in callIds ==> id in outputs
    ensures |OutputsOf(outputs, callIds)| == |callIds|
    ensures forall i :: 0 <= i < |callIds| ==> OutputsOf(outputs, callIds)[i] == outputs[callIds[i]]
  {
    if callIds != [] { OutputsInCallOrder(outputs, callIds[..|callIds| - 1]); }
  }

  /** `outputs` are the answers to the calls, one for each and in their order. */
  predicate Answer(items: seq<Item>, calls: seq<Item>, outputs: seq<Item>) {
    && |outputs| == |calls|
    && forall i :: 0 <= i < |calls| ==>
         calls[i].FunctionCall? && IsOutputItem(items, outputs[i], calls[i].callId)
  }

  lemma LastAnswers(items: seq<Item>)
    requires OneTransaction(items) && |items| > 1
    ensures items[|items| - 1].FunctionCallOutput?
  {
    var n := |items| - 1;
    assert items[..n + 1] == items;
    var id :| id in OpenCalls(items[..n]);
    OpenInPrefixIff(items, n, id);
    OpenInPrefixIff(items, n + 1, id);
    var j :| j < n + 1 && IsOutput(items, j, id);
    assert j == n;
  }

  lemma CompletedItems(items: seq<Item>, done: Transaction) returns (outputs: seq<Item>)
    requires OneTransaction(items) && IsOpen(items, |items|, done)
    ensures Complete(done) && Answer(items, CallsIn(items), outputs)
    ensures OrderedItems(done) == CallsIn(items) + outputs + KeptRegulars(items)
  {
    assert items[..|items|] == items;
    assert IsCall(items, 0, items[0].callId);
    assert items[0].callId in done.callIds;
    CompleteIff(items, |items|, done);
    outputs := OutputsOf(done.outputs, done.callIds);
    OutputsInCallOrder(done.outputs, done.callIds);
    forall i | 0 <= i < |done.calls| ensures IsOutputItem(items, outputs[i], done.calls[i].callId) {
      assert done.callIds[i] in done.callIds;
    }
  }

  /** The last item completes the transaction. */
  lemma LastCloses(normalized: seq<Item>, items: seq<Item>) returns (done: Transaction)
    requires OneTransaction(items)
    ensures IsOpen(items, |items|, done)
    ensures HandleAll(State(normalized, NO_TRANSACTION), items) == Flush(State(normalized, done))
  {
    var n := |items| - 1;
    if n == 0 { OpenSingle(items); }
    var t := StaysOpen(normalized, items, n);
    LastAnswers(items);
    TakenIsOpen(items, n, t);
    HandleTakes(normalized, items, n, t);
    done := Taken(t, items[n]);
  }

  /** Between transactions, the items of one transaction are emitted as its calls, the outputs
      in call order, and then whatever else came in between, in its own order. */
  lemma TransactionInPlace(normalized: seq<Item>, items: seq<Item>) returns (outputs: seq<Item>)
    requires OneTransaction(items)
    ensures Answer(items, CallsIn(items), outputs)
    ensures HandleAll(State(normalized, NO_TRANSACTION), items) ==
            State(normalized + (CallsIn(items) + outputs + KeptRegulars(items)), NO_TRANSACTION)
  {
    var done := LastCloses(normalized, items);
    outputs := CompletedItems(items, done);
  }

  lemma OpenSingle(items: seq<Item>)
    requires |items| == 1 && items[0].FunctionCall? && OutputsFollowCalls(items)
    ensures OpenCalls(items) != {}
  {
    assert IsCall(items, 0, items[0].callId) && !IsCall(items, 0, "");
    assert items[0].callId in OpenCalls(items);
  }

  // ----- Calls that end a transaction -----

  lemma NothingWithoutCalls(before: seq<Item>)
    ensures var s := HandleAll(START, before); s.open.calls == [] ==> s.open == NO_TRANSACTION
    ensures Normalized(before) == Discard(Flush(HandleAll(START, before))).normalized
    ensures Discard(Flush(HandleAll(START, before))).open == NO_TRANSACTION
  {
    HandleAllOk(before);
  }

  /** A call that an open transaction refuses, because its id is used or unusable, is handled
      as if everything before it had been normalized. */
  lemma RefusedCall(before: seq<Item>, call: Item)
    requires call.FunctionCall?
    requires HandleAll(START, before).open == NO_TRANSACTION || !Accepts(HandleAll(START, before).open, call.callId)
    ensures HandleAll(START, before + [call]) == HandleAll(State(Normalized(before), NO_TRANSACTION), [call])
  {
    var s := HandleAll(START, before);
    NothingWithoutCalls(before);
    PrefixOfLonger(before, call);
    PrefixOfLonger([], call);
    assert [] + [call] == [call];
  }

  /** A call without a usable id ends the transaction that is open and begins none. */
  lemma UselessCallEnds(before: seq<Item>, call: Item)
    requires call.FunctionCall? && call.callId == ""
    ensures HandleAll(START, before + [call]) == State(Normalized(before), NO_TRANSACTION)
  {
    RefusedCall(before, call);
    PrefixOfLonger([], call);
    assert [] + [call] == [call];
  }

  lemma {:induction false} EmittedStays(s: State, items: seq<Item>)
    ensures s.normalized <= HandleAll(s, items).normalized
  {
    if items != [] { EmittedStays(s, items[..|items| - 1]); }
  }

  lemma {:induction false} GoesOn(s: State, left: seq<Item>, s': State, left': seq<Item>, rest: seq<Item>)
    requires HandleAll(s, left) == HandleAll(s', left')
    ensures HandleAll(s, left + rest) == HandleAll(s', left' + rest)
  {
    HandleAppended(s, left, rest);
    HandleAppended(s', left', rest);
  }

  lemma {:induction false} StartsAnew(before: seq<Item>, items: seq<Item>)
    requires items != [] && items[0].FunctionCall?
    requires HandleAll(START, before).open == NO_TRANSACTION || !Accepts(HandleAll(START, before).open, items[0].callId)
    ensures HandleAll(START, before + items) == HandleAll(State(Normalized(before), NO_TRANSACTION), items)
  {
    RefusedCall(before, items[0]);
    GoesOn(START, before + [items[0]], State(Normalized(before), NO_TRANSACTION), [items[0]], items[1..]);
    FirstAndRest(before, items);
  }

  lemma {:induction false} FirstAndRest(before: seq<Item>, items: seq<Item>)
    requires items != []
    ensures [items[0]] + items[1..] == items && before + [items[0]] + items[1..] == before + items
  {}

  /** The same in the middle of any input: what stands before is normalized first and comes
      first, and whatever follows comes later. Either nothing is open there, or the first call
      repeats an id of the transaction that is, which is thereby given up. */
  lemma TransactionInTheMiddle(before: seq<Item>, items: seq<Item>, after: seq<Item>) returns (outputs: seq<Item>)
    requires OneTransaction(items)
    requires HandleAll(START, before).open == NO_TRANSACTION || !Accepts(HandleAll(START, before).open, items[0].callId)
    ensures Answer(items, CallsIn(items), outputs)
    ensures Normalized(before + items) == Normalized(before) + (CallsIn(items) + outputs + KeptRegulars(items))
    ensures Normalized(before + items) <= Normalized(before + items + after)
  {
    outputs := TransactionInPlace(Normalized(before), items);
    StartsAnew(before, items);
    EmittedFirst(before + items, after);
  }

  lemma EmittedFirst(before: seq<Item>, after: seq<Item>)
    requires HandleAll(START, before).open == NO_TRANSACTION
    ensures Normalized(before) <= Normalized(before + after)
  {
    HandleAppended(START, before, after);
    EmittedStays(HandleAll(START, before), after);
  }

  /** An unfinished transaction leaves only its regular items behind. */
  lemma UnfinishedLeavesRegulars(before: seq<Item>, items: seq<Item>, k: nat) returns (t: Transaction)
    requires OneTransaction(items) && 0 < k < |items| && HandleAll(START, before).open == NO_TRANSACTION
    ensures HandleAll(START, before + items[..k]) == State(Normalized(before), t) && IsOpen(items, k, t)
    ensures Normalized(before + items[..k]) == Normalized(before) + KeptRegulars(items[..k])
  {
    HandleAppended(START, before, items[..k]);
    t := StaysOpen(Normalized(before), items, k);
  }

  /** A call that repeats an id of an unfinished transaction gives that transaction up: its
      tool items are lost, and the new transaction is kept whole. */
  lemma RepeatedIdRestarts(before: seq<Item>, items: seq<Item>, k: nat, again: seq<Item>) returns (outputs: seq<Item>)
    requires OneTransaction(items) && 0 < k < |items| && HandleAll(START, before).open == NO_TRANSACTION
    requires OneTransaction(again) && exists i :: i < k && IsCall(items, i, again[0].callId)
    ensures Answer(again, CallsIn(again), outputs)
    ensures Normalized(before + items[..k] + again) ==
            Normalized(before) + KeptRegulars(items[..k]) + (CallsIn(again) + outputs + KeptRegulars(again))
  {
    var t := UnfinishedLeavesRegulars(before, items, k);
    assert again[0].callId in t.callIds;
    outputs := TransactionInTheMiddle(before + items[..k], again, []);
  }
}
