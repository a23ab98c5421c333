/**
 What the tool-transaction normalizer computes, as a function of the input items, and
 the shape its output has.
 */
module ToolTransactions {
  import opened Options
  import opened Sequences

  // ----- Items -----

  /** Model input items. `callId` is "" when the item carries no usable id; `blank` says
      that a message has no text; `tag` stands for everything else in the item. */
  datatype Item =
    | FunctionCall(callId: string, tag: int)
    | FunctionCallOutput(callId: string, tag: int)
    | Message(id: Option<string>, role: string, blank: bool, tag: int)
    | Other(tag: int)

  predicate IsTool(item: Item) {
    item.FunctionCall? || item.FunctionCallOutput?
  }

  predicate IsEmptyAssistantMessage(item: Item) {
    item.Message? && item.role == "assistant" && item.blank
  }

  const FOREIGN_PREFIX := "foreign_"

  predicate IsInternalId(id: string) {
    id == "context_summary" || id == "task_resumption_context" || FOREIGN_PREFIX <= id
  }

  /** `strip_internal_context_item_id`. */
  function Strip(item: Item): Item {
    if item.Message? && item.id.Some? && IsInternalId(item.id.value) then item.(id := None) else item
  }

  /** Exactly the messages that carry an id of the application's own lose it, and nothing else
      of them changes. */
  lemma StripsExactly(item: Item)
    ensures var internal := item.Message? && item.id.Some? &&
              (item.id == Some("context_summary") || item.id == Some("task_resumption_context")
               || (|item.id.value| >= 8 && item.id.value[..8] == "foreign_"));
            Strip(item) == if internal then Message(None, item.role, item.blank, item.tag) else item
  {}

  function StripAll(items: seq<Item>): (stripped: seq<Item>)
    ensures |stripped| == |items|
    ensures forall i :: 0 <= i < |items| ==> stripped[i] == Strip(items[i])
  {
    seq(|items|, i requires 0 <= i < |items| => Strip(items[i]))
  }

  // ----- Transactions -----

  datatype Transaction = Transaction(
    calls: seq<Item>, callIds: seq<string>, outputs: map<string, Item>, deferred: seq<Item>)

  const NO_TRANSACTION := Transaction([], [], map[], [])

  predicate Accepts(t: Transaction, callId: string) {
    callId != "" && callId !in t.outputs && callId !in t.callIds
  }

  predicate Answers(t: Transaction, callId: string) {
    callId in t.callIds && callId !in t.outputs
  }

  predicate Complete(t: Transaction) {
    t.callIds != [] && forall id :: id in t.callIds ==> id in t.outputs
  }

  /** The outputs of the given calls, in call order. */
  function OutputsOf(outputs: map<string, Item>, callIds: seq<string>): seq<Item>
    requires forall id :: id in callIds ==> id in outputs
  {
    if callIds == [] then [] else OutputsOf(outputs, callIds[..|callIds| - 1]) + [outputs[callIds[|callIds| - 1]]]
  }

  function OrderedItems(t: Transaction): seq<Item>
    requires Complete(t)
  {
    t.calls + OutputsOf(t.outputs, t.callIds) + t.deferred
  }

  // ----- The normalizer's state -----

  datatype State = State(normalized: seq<Item>, open: Transaction)

  const START := State([], NO_TRANSACTION)

  function Flush(s: State): State {
    if Complete(s.open) then State(s.normalized + OrderedItems(s.open), NO_TRANSACTION) else s
  }

  function Discard(s: State): State {
    if s.open.calls == [] then s else State(s.normalized + s.open.deferred, NO_TRANSACTION)
  }

  function AddCall(s: State, item: Item): State
    requires item.FunctionCall?
  {
    if Accepts(s.open, item.callId) then
      s.(open := s.open.(calls := s.open.calls + [item], callIds := s.open.callIds + [item.callId]))
    else s
  }

  function HandleCall(s: State, item: Item): State
    requires item.FunctionCall?
  {
    var flushed := Flush(s);
    if Accepts(flushed.open, item.callId) then AddCall(flushed, item) else AddCall(Discard(flushed), item)
  }

  function HandleOutput(s: State, item: Item): State
    requires item.FunctionCallOutput?
  {
    if Answers(s.open, item.callId)
    then Flush(s.(open := s.open.(outputs := s.open.outputs[item.callId := item]))) else s
  }

  function HandleRegular(s: State, item: Item): State {
    if IsEmptyAssistantMessage(item) then s
    else if s.open.calls != [] then s.(open := s.open.(deferred := s.open.deferred + [item]))
    else s.(normalized := s.normalized + [item])
  }

  function Handle(s: State, item: Item): State {
    if item.FunctionCall? then HandleCall(s, item)
    else if item.FunctionCallOutput? then HandleOutput(s, item)
    else HandleRegular(s, item)
  }

  function HandleAll(s: State, items: seq<Item>): State {
    if items == [] then s else Handle(HandleAll(s, items[..|items| - 1]), items[|items| - 1])
  }

  function Normalized(items: seq<Item>): seq<Item> {
    Discard(Flush(HandleAll(START, items))).normalized
  }

  function Adapted(items: seq<Item>): seq<Item> {
    Normalized(StripAll(items))
  }

  // ----- Output shape -----

  /** A regular item, or calls followed by their outputs in the same order. */
  datatype Segment = Regular(item: Item) | Block(calls: seq<Item>, outputs: seq<Item>)

  function SegmentItems(segment: Segment): seq<Item> {
    match segment
    case Regular(item) => [item]
    case Block(calls, outputs) => calls + outputs
  }

  function Flatten(segments: seq<Segment>): seq<Item> {
    if segments == [] then [] else Flatten(segments[..|segments| - 1]) + SegmentItems(segments[|segments| - 1])
  }

  predicate ValidSegment(segment: Segment) {
    match segment
    case Regular(item) => !IsTool(item) && !IsEmptyAssistantMessage(item)
    case Block(calls, outputs) =>
      && calls != []
      && |calls| == |outputs|
      && (forall i :: 0 <= i < |calls| ==> calls[i].FunctionCall? && calls[i].callId != "")
      && (forall i, j :: 0 <= i < j < |calls| ==> calls[i].callId != calls[j].callId)
      && (forall i :: 0 <= i < |calls| ==> outputs[i].FunctionCallOutput? && outputs[i].callId == calls[i].callId)
  }

  predicate ValidSegments(segments: seq<Segment>) {
    forall i :: 0 <= i < |segments| ==> ValidSegment(segments[i])
  }

  /** Regular items and complete call blocks, nothing else. */
  ghost predicate WellFormed(items: seq<Item>) {
    exists segments :: ValidSegments(segments) && Flatten(segments) == items
  }

  // ----- Invariant of the open transaction -----

  predicate TransactionOk(t: Transaction) {
    && |t.calls| == |t.callIds|
    && (forall i :: 0 <= i < |t.calls| ==>
        t.calls[i] == FunctionCall(t.callIds[i], t.calls[i].tag) && t.callIds[i] != "")
    && (forall i, j :: 0 <= i < j < |t.callIds| ==> t.callIds[i] != t.callIds[j])
    && (forall id :: id in t.outputs ==>
        id in t.callIds && t.outputs[id].FunctionCallOutput? && t.outputs[id].callId == id)
    && (forall i :: 0 <= i < |t.deferred| ==> !IsTool(t.deferred[i]) && !IsEmptyAssistantMessage(t.deferred[i]))
    && (t.calls == [] ==> t == NO_TRANSACTION)
  }

  ghost predicate StateOk(s: State) {
    TransactionOk(s.open) && WellFormed(s.normalized)
  }

  lemma WellFormedExtends(items: seq<Item>, segment: Segment)
    requires WellFormed(items) && ValidSegment(segment)
    ensures WellFormed(items + SegmentItems(segment))
  {
    var segments :| ValidSegments(segments) && Flatten(segments) == items;
    assert ValidSegments(segments + [segment]);
  }

  lemma {:induction false} WellFormedWithRegulars(items: seq<Item>, regulars: seq<Item>)
    requires WellFormed(items)
    requires forall i :: 0 <= i < |regulars| ==> !IsTool(regulars[i]) && !IsEmptyAssistantMessage(regulars[i])
    ensures WellFormed(items + regulars)
  {
    if regulars == [] {
      assert items + regulars == items;
    } else {
      var before, last := regulars[..|regulars| - 1], regulars[|regulars| - 1];
      WellFormedWithRegulars(items, before);
      WellFormedExtends(items + before, Regular(last));
      AddLast(items, regulars);
    }
  }

  lemma {:induction false} OutputsOfShape(outputs: map<string, Item>, callIds: seq<string>)
    requires forall id :: id in callIds ==> id in outputs
    ensures |OutputsOf(outputs, callIds)| == |callIds|
    ensures forall i :: 0 <= i < |callIds| ==> OutputsOf(outputs, callIds)[i] == outputs[callIds[i]]
  {
    if callIds != [] { OutputsOfShape(outputs, callIds[..|callIds| - 1]); }
  }

  lemma CompleteIsBlock(t: Transaction)
    requires TransactionOk(t) && Complete(t)
    ensures ValidSegment(Block(t.calls, OutputsOf(t.outputs, t.callIds)))
  {
    OutputsOfShape(t.outputs, t.callIds);
    forall i | 0 <= i < |t.calls|
      ensures OutputsOf(t.outputs, t.callIds)[i].FunctionCallOutput?
      ensures OutputsOf(t.outputs, t.callIds)[i].callId == t.calls[i].callId
    {
      assert t.callIds[i] in t.outputs;
    }
  }

  lemma WellFormedWithBlock(items: seq<Item>, block: Segment, deferred: seq<Item>)
    requires WellFormed(items) && block.Block? && ValidSegment(block)
    requires forall i :: 0 <= i < |deferred| ==> !IsTool(deferred[i]) && !IsEmptyAssistantMessage(deferred[i])
    ensures WellFormed(items + (block.calls + block.outputs + deferred))
  {
    WellFormedExtends(items, block);
    WellFormedWithRegulars(items + SegmentItems(block), deferred);
    Regroup(items, block.calls, block.outputs, deferred);
  }

  lemma Regroup(a: seq<Item>, b: seq<Item>, c: seq<Item>, d: seq<Item>)
    ensures a + (b + c + d) == a + (b + c) + d
  {}

  lemma FlushOk(s: State)
    requires StateOk(s)
    ensures StateOk(Flush(s))
  {
    var t := s.open;
    if Complete(t) {
      CompleteIsBlock(t);
      WellFormedWithBlock(s.normalized, Block(t.calls, OutputsOf(t.outputs, t.callIds)), t.deferred);
    }
  }

  lemma DiscardOk(s: State)
    requires StateOk(s)
    ensures StateOk(Discard(s))
  {
    WellFormedWithRegulars(s.normalized, s.open.deferred);
  }

  lemma HandleCallOk(s: State, item: Item)
    requires StateOk(s) && item.FunctionCall?
    ensures StateOk(Handle(s, item))
  {
    FlushOk(s);
    DiscardOk(Flush(s));
  }

  lemma HandleOutputOk(s: State, item: Item)
    requires StateOk(s) && item.FunctionCallOutput?
    ensures StateOk(Handle(s, item))
  {
    if Answers(s.open, item.callId) {
      FlushOk(s.(open := s.open.(outputs := s.open.outputs[item.callId := item])));
    }
  }

  lemma HandleOk(s: State, item: Item)
    requires StateOk(s)
    ensures StateOk(Handle(s, item))
  {
    if item.FunctionCall? {
      HandleCallOk(s, item);
    } else if item.FunctionCallOutput? {
      HandleOutputOk(s, item);
    } else if !IsEmptyAssistantMessage(item) {
      WellFormedExtends(s.normalized, Regular(item));
    }
  }

  lemma {:induction false} HandleAllOk(items: seq<Item>)
    ensures StateOk(HandleAll(START, items))
  {
    if items == [] {
      assert ValidSegments([]) && Flatten([]) == [];
    } else {
      HandleAllOk(items[..|items| - 1]);
      HandleOk(HandleAll(START, items[..|items| - 1]), items[|items| - 1]);
    }
  }

  /** Whatever the input, the output is regular items and complete call blocks. */
  lemma OutputIsWellFormed(items: seq<Item>)
    ensures WellFormed(Normalized(items))
  {
    HandleAllOk(items);
    var s := HandleAll(START, items);
    FlushOk(s);
    DiscardOk(Flush(s));
  }

  // ----- Normalizing again changes nothing -----

  lemma {:induction false} HandleAppended(s: State, left: seq<Item>, right: seq<Item>)
    ensures HandleAll(s, left + right) == HandleAll(HandleAll(s, left), right)
  {
    if right == [] {
      assert left + right == left;
    } else {
      var before, last := right[..|right| - 1], right[|right| - 1];
      HandleAppended(s, left, before);
      assert left + right == (left + before) + [last];
    }
  }

  /** The transaction after the first `n` calls of a block. */
  function Opened(calls: seq<Item>, n: nat): Transaction
    requires n <= |calls| && forall i :: 0 <= i < |calls| ==> calls[i].FunctionCall?
  {
    Transaction(calls[..n], seq(n, i requires 0 <= i < n => calls[i].callId), map[], [])
  }

  lemma NextCallOfBlock(normalized: seq<Item>, block: Segment, n: nat)
    requires block.Block? && ValidSegment(block) && n < |block.calls|
    ensures HandleCall(State(normalized, Opened(block.calls, n)), block.calls[n]) ==
        State(normalized, Opened(block.calls, n + 1))
  {
    var calls, t := block.calls, Opened(block.calls, n);
    assert !Complete(t) by { if n > 0 { assert t.callIds[0] in t.callIds; } }
    assert Accepts(t, calls[n].callId);
    assert t.calls + [calls[n]] == calls[..n + 1];
    assert t.callIds + [calls[n].callId] == Opened(calls, n + 1).callIds;
  }

  lemma {:induction false} CallsOfBlock(normalized: seq<Item>, block: Segment, n: nat)
    requires block.Block? && ValidSegment(block) && n <= |block.calls|
    ensures HandleAll(State(normalized, NO_TRANSACTION), block.calls[..n]) == State(normalized, Opened(block.calls, n))
  {
    if n == 0 {
      assert Opened(block.calls, 0) == NO_TRANSACTION;
    } else {
      CallsOfBlock(normalized, block, n - 1);
      NextCallOfBlock(normalized, block, n - 1);
      assert block.calls[..n][..n - 1] == block.calls[..n - 1];
    }
  }

  /** The transaction after all calls and the first `n` outputs of a block. */
  function Answered(block: Segment, n: nat): Transaction
    requires block.Block? && ValidSegment(block) && n <= |block.calls|
  {
    var start := Opened(block.calls, |block.calls|);
    if n == 0 then start
    else
      var before := Answered(block, n - 1);
      before.(outputs := before.outputs[block.calls[n - 1].callId := block.outputs[n - 1]])
  }

  lemma {:induction false} AnsweredOutputs(block: Segment, n: nat)
    requires block.Block? && ValidSegment(block) && n <= |block.calls|
    ensures var t := Answered(block, n);
            && t == Opened(block.calls, |block.calls|).(outputs := t.outputs)
            && (forall i :: 0 <= i < |block.calls| ==>
                  (block.calls[i].callId in t.outputs <==> i < n)
                  && (i < n ==> t.outputs[block.calls[i].callId] == block.outputs[i]))
  {
    if n > 0 { AnsweredOutputs(block, n - 1); }
  }

  lemma {:induction false} OutputsOfBlock(normalized: seq<Item>, block: Segment, n: nat)
    requires block.Block? && ValidSegment(block) && n < |block.calls|
    ensures HandleAll(State(normalized, Opened(block.calls, |block.calls|)), block.outputs[..n])
            == State(normalized, Answered(block, n))
  {
    if n == 0 {
      assert block.outputs[..0] == [];
    } else {
      OutputsOfBlock(normalized, block, n - 1);
      assert block.outputs[..n][..n - 1] == block.outputs[..n - 1];
      AnsweredOutputs(block, n - 1);
      AnsweredOutputs(block, n);
      var t, id := Answered(block, n - 1), block.calls[n - 1].callId;
      assert t.callIds[n - 1] == id;
      assert !Complete(Answered(block, n)) by { assert Answered(block, n).callIds[n] == block.calls[n].callId; }
    }
  }

  lemma AnsweredIsBlock(block: Segment)
    requires block.Block? && ValidSegment(block)
    ensures var t := Answered(block, |block.calls|); Complete(t) && OrderedItems(t) == SegmentItems(block)
  {
    var k := |block.calls|;
    var t := Answered(block, k);
    AnsweredOutputs(block, k);
    OutputsOfShape(t.outputs, t.callIds);
    assert OutputsOf(t.outputs, t.callIds) == block.outputs;
  }

  lemma LastOutputOfBlock(normalized: seq<Item>, block: Segment)
    requires block.Block? && ValidSegment(block)
    ensures var k := |block.calls|;
            HandleOutput(State(normalized, Answered(block, k - 1)), block.outputs[k - 1])
            == State(normalized + SegmentItems(block), NO_TRANSACTION)
  {
    var k := |block.calls|;
    var t := Answered(block, k - 1);
    AnsweredOutputs(block, k - 1);
    AnsweredIsBlock(block);
    assert t.callIds[k - 1] == block.calls[k - 1].callId;
  }

  lemma AllOutputsOfBlock(normalized: seq<Item>, block: Segment)
    requires block.Block? && ValidSegment(block)
    ensures HandleAll(State(normalized, Opened(block.calls, |block.calls|)), block.outputs)
            == State(normalized + SegmentItems(block), NO_TRANSACTION)
  {
    var k := |block.calls|;
    OutputsOfBlock(normalized, block, k - 1);
    LastOutputOfBlock(normalized, block);
    assert block.outputs == block.outputs[..k - 1] + [block.outputs[k - 1]];
  }

  /** Between transactions, a block passes through unchanged. */
  lemma BlockPasses(normalized: seq<Item>, block: Segment)
    requires block.Block? && ValidSegment(block)
    ensures HandleAll(State(normalized, NO_TRANSACTION), SegmentItems(block))
            == State(normalized + SegmentItems(block), NO_TRANSACTION)
  {
    HandleAppended(State(normalized, NO_TRANSACTION), block.calls, block.outputs);
    CallsOfBlock(normalized, block, |block.calls|);
    assert block.calls[..|block.calls|] == block.calls;
    AllOutputsOfBlock(normalized, block);
  }

  lemma {:induction false} SegmentsPass(segments: seq<Segment>)
    requires ValidSegments(segments)
    ensures HandleAll(START, Flatten(segments)) == State(Flatten(segments), NO_TRANSACTION)
  {
    if segments != [] {
      var before, last := segments[..|segments| - 1], segments[|segments| - 1];
      SegmentsPass(before);
      HandleAppended(START, Flatten(before), SegmentItems(last));
      if last.Block? {
        BlockPasses(Flatten(before), last);
      } else {
        assert [last.item] == [] + [last.item];
      }
    }
  }

  /** A well-formed item list is left exactly as it is. */
  lemma WellFormedIsFixed(items: seq<Item>)
    requires WellFormed(items)
    ensures Normalized(items) == items
  {
    var segments :| ValidSegments(segments) && Flatten(segments) == items;
    SegmentsPass(segments);
  }

  /** The lists left alone are exactly the well-formed ones, and one pass reaches them. */
  lemma NormalizingIsIdempotent(items: seq<Item>)
    ensures Normalized(Normalized(items)) == Normalized(items)
    ensures Normalized(items) == items <==> WellFormed(items)
  {
    OutputIsWellFormed(items);
    WellFormedIsFixed(Normalized(items));
    if WellFormed(items) { WellFormedIsFixed(items); }
  }
}
