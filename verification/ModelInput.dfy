/**
 The model-input adapter: the mutable transaction and normalizer objects, each method
 tied to the corresponding function of `ToolTransactions`.
 */
module ModelInput {
  import opened ToolTransactions

  class ToolTransaction {
    var calls: seq<Item>
    var callIds: seq<string>
    var outputsByCallId: map<string, Item>
    var deferredItems: seq<Item>

    ghost function Value(): Transaction
      reads this
    {
      Transaction(calls, callIds, outputsByCallId, deferredItems)
    }

    constructor ()
      ensures Value() == NO_TRANSACTION
    {
      calls, callIds, outputsByCallId, deferredItems := [], [], map[], [];
    }

    method AddCall(item: Item, callId: string) returns (added: bool)
      modifies this
      ensures added == Accepts(old(Value()), callId)
      ensures Value() == if added
                         then old(Value()).(calls := old(calls) + [item], callIds := old(callIds) + [callId])
                         else old(Value())
    {
      if callId == "" || callId in outputsByCallId || callId in callIds {
        return false;
      }
      calls := calls + [item];
      callIds := callIds + [callId];
      return true;
    }

    method AddOutput(item: Item, callId: string) returns (added: bool)
      modifies this
      ensures added == Answers(old(Value()), callId)
      ensures Value() == if added
                         then old(Value()).(outputs := old(outputsByCallId)[callId := item])
                         else old(Value())
    {
      if callId !in callIds || callId in outputsByCallId {
        return false;
      }
      outputsByCallId := outputsByCallId[callId := item];
      return true;
    }

    method IsComplete() returns (complete: bool)
      ensures complete == Complete(Value())
    {
      if callIds == [] {
        return false;
      }
      for i := 0 to |callIds|
        invariant forall id :: id in callIds[..i] ==> id in outputsByCallId
      {
        if callIds[i] !in outputsByCallId {
          assert callIds[i] in callIds;
          return false;
        }
      }
      assert callIds[..|callIds|] == callIds;
      return true;
    }

    /** Calls, then outputs in call order, then whatever was deferred. */
    method Ordered() returns (items: seq<Item>)
      requires Complete(Value())
      ensures items == OrderedItems(Value())
    {
      var outputs := [];
      assert callIds[..0] == [];
      for i := 0 to |callIds|
        invariant outputs == OutputsOf(outputsByCallId, callIds[..i])
      {
        assert callIds[..i + 1][..i] == callIds[..i];
        assert callIds[i] in callIds;
        outputs := outputs + [outputsByCallId[callIds[i]]];
      }
      assert callIds[..|callIds|] == callIds;
      items := calls + outputs + deferredItems;
    }
  }

  class ToolTransactionNormalizer {
    const items: seq<Item>
    var normalized: seq<Item>
    var transaction: ToolTransaction

    ghost function Value(): State
      reads this, transaction
    {
      State(normalized, transaction.Value())
    }

    constructor (items: seq<Item>)
      ensures this.items == items && Value() == START && fresh(transaction)
    {
      this.items := items;
      normalized := [];
      transaction := new ToolTransaction();
    }

    method Normalize() returns (result: seq<Item>)
      requires Value() == START
      modifies this, transaction
      ensures result == Normalized(items)
    {
      assert items[..0] == [];
      for i := 0 to |items|
        invariant Value() == HandleAll(START, items[..i])
        invariant transaction == old(transaction) || fresh(transaction)
      {
        assert items[..i + 1][..i] == items[..i];
        var entry := items[i];
        if entry.FunctionCall? {
          DoHandleCall(entry);
        } else if entry.FunctionCallOutput? {
          DoHandleOutput(entry);
        } else {
          DoHandleRegularItem(entry);
        }
      }
      assert items[..|items|] == items;
      FlushIfComplete();
      DiscardIncompleteTransaction();
      result := normalized;
    }

    method DoHandleCall(entry: Item)
      requires entry.FunctionCall?
      modifies this, transaction
      ensures Value() == HandleCall(old(Value()), entry)
      ensures transaction == old(transaction) || fresh(transaction)
    {
      FlushIfComplete();
      var added := transaction.AddCall(entry, entry.callId);
      if !added {
        DiscardIncompleteTransaction();
        added := transaction.AddCall(entry, entry.callId);
      }
    }

    method DoHandleOutput(entry: Item)
      requires entry.FunctionCallOutput?
      modifies this, transaction
      ensures Value() == HandleOutput(old(Value()), entry)
      ensures transaction == old(transaction) || fresh(transaction)
    {
      var added := transaction.AddOutput(entry, entry.callId);
      if !added {
        return;
      }
      FlushIfComplete();
    }

    method DoHandleRegularItem(entry: Item)
      modifies this, transaction
      ensures Value() == HandleRegular(old(Value()), entry)
      ensures transaction == old(transaction)
    {
      if IsEmptyAssistantMessage(entry) {
        return;
      }
      if transaction.calls != [] {
        transaction.deferredItems := transaction.deferredItems + [entry];
        return;
      }
      normalized := normalized + [entry];
    }

    method FlushIfComplete()
      modifies this
      ensures Value() == Flush(old(Value()))
      ensures transaction == old(transaction) || fresh(transaction)
    {
      var complete := transaction.IsComplete();
      if !complete {
        return;
      }
      var ordered := transaction.Ordered();
      normalized := normalized + ordered;
      DropTransaction();
    }

    method DiscardIncompleteTransaction()
      modifies this
      ensures Value() == Discard(old(Value()))
      ensures transaction == old(transaction) || fresh(transaction)
    {
      if transaction.calls == [] {
        return;
      }
      normalized := normalized + transaction.deferredItems;
      DropTransaction();
    }

    method DropTransaction()
      modifies this`transaction
      ensures transaction.Value() == NO_TRANSACTION && fresh(transaction)
    {
      transaction := new ToolTransaction();
    }
  }

  /** `ModelInputAdapter.adapt` on an item list. */
  method Adapt(input: seq<Item>) returns (result: seq<Item>)
    ensures result == Adapted(input)
  {
    var normalizer := new ToolTransactionNormalizer(StripAll(input));
    result := normalizer.Normalize();
  }
}
