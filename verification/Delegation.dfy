/**
 Parent and child Agent Runs: delegation, durable waits and the delivery of child results.
 Every step is one database transaction.
 */
module Delegation {
  import opened Options
  import opened Sequences

  datatype Status = Queued | Running | AwaitingResult | Succeeded | Errored | Canceled

  datatype WaitReason = ChildRun | SandboxCommand | ToolRecovery

  datatype Disposition = Delivered | Discarded

  /** `captured` is the child run noted in the runtime context of the current attempt;
      `resumptions` counts the times sandbox or recovery waits were resumed. */
  datatype Run = Run(
    parent: Option<int>, status: Status,
    waitReason: Option<WaitReason>, waitReference: Option<int>,
    triggerRevision: int, disposition: Option<Disposition>,
    captured: Option<int>, resumptions: int)

  type Runs = map<int, Run>

  function NewRun(parent: Option<int>): Run {
    Run(parent, Queued, None, None, 1, None, None, 0)
  }

  predicate Terminal(status: Status) {
    status.Succeeded? || status.Errored? || status.Canceled?
  }

  function Settled(run: Run, status: Status): Run {
    run.(status := status, waitReason := None, waitReference := None)
  }

  function Suspended(run: Run, reason: WaitReason, reference: int): Run {
    run.(status := AwaitingResult, waitReason := Some(reason), waitReference := Some(reference))
  }

  // ----- Queries -----

  predicate IsUndelivered(runs: Runs, parent: int, child: int) {
    child in runs && runs[child].parent == Some(parent) && runs[child].disposition.None?
  }

  function Undelivered(runs: Runs, parent: int): set<int> {
    set c | c in runs && IsUndelivered(runs, parent, c)
  }

  /** `get_undelivered_child_run_id`: more than one is an error. */
  ghost function UndeliveredChild(runs: Runs, parent: int): Result<Option<int>, string> {
    var children := Undelivered(runs, parent);
    if |children| > 1 then Failure("parent Agent Run has multiple undelivered Child Runs")
    else if children == {} then Success(None)
    else Success(Some(Pick(children)))
  }

  ghost function Pick<T>(members: set<T>): (member: T)
    requires members != {}
    ensures member in members
  {
    var member :| member in members; member
  }

  predicate WaitsOn(run: Run, child: int) {
    run.status.AwaitingResult? && run.waitReason == Some(ChildRun) && run.waitReference == Some(child)
  }

  // ----- Transactions of delegation.py -----

  datatype CreateError = ParentInactive | ContextOrSandboxBusy | PreviousUndelivered | NotAdmitted

  /** What the checks on other tables say: `free` that the context matches and no sandbox
      command is pending, `admitted` that admission and scope are granted. */
  datatype Checks = Checks(free: bool, admitted: bool)

  /** `create_child_run`. */
  function CreateChild(runs: Runs, parent: int, child: int, checks: Checks): Result<Runs, CreateError>
  {
    if parent !in runs || !runs[parent].status.Running? then Failure(ParentInactive)
    else if !checks.free then Failure(ContextOrSandboxBusy)
    else if Undelivered(runs, parent) != {} then Failure(PreviousUndelivered)
    else if !checks.admitted then Failure(NotAdmitted)
    else Success(runs[child := NewRun(Some(parent))][parent := runs[parent].(captured := Some(child))])
  }

  /** `queue_parent_continuation`. */
  function QueueParent(runs: Runs, child: int): Runs
    requires child in runs
  {
    var row := runs[child];
    if row.parent.None? || row.disposition.Some? || row.parent.value !in runs then runs
    else
      var parent := runs[row.parent.value];
      if !WaitsOn(parent, child) then runs
      else runs[row.parent.value := Settled(parent, Queued).(triggerRevision := parent.triggerRevision + 1)]
               [child := row.(disposition := Some(Delivered))]
  }

  /** `queue_parent_from_finished_wait_reference`. */
  function QueueFromFinished(runs: Runs, parent: int): Runs {
    if parent !in runs || !runs[parent].status.AwaitingResult? || runs[parent].waitReason != Some(ChildRun)
       || runs[parent].waitReference.None? then runs
    else
      var child := runs[parent].waitReference.value;
      if IsUndelivered(runs, parent, child) && Terminal(runs[child].status) then QueueParent(runs, child) else runs
  }

  /** `discard_pending_child_continuations`. */
  function DiscardChildren(runs: Runs, parent: int): Runs {
    map r | r in runs :: if IsUndelivered(runs, parent, r) then runs[r].(disposition := Some(Discarded)) else runs[r]
  }

  // ----- Transactions of the supervisor -----

  /** A run ends: its children are discarded, then its own parent is woken if asked. */
  function Ended(runs: Runs, run: int, status: Status, resumeParent: bool): Runs
    requires run in runs
  {
    var discarded := DiscardChildren(runs, run);
    var settled := discarded[run := Settled(discarded[run], status)];
    if resumeParent then QueueParent(settled, run) else settled
  }

  datatype Step =
    | CreateRoot(run: int)
    | Delegate(run: int, child: int, checks: Checks)
    | Claim(run: int)
    | BuildContext(run: int)
    | WaitForChild(run: int)
    | WaitForSandbox(run: int, reference: int)
    | WaitForRecovery(run: int, reference: int)
    | Resume(run: int)                       // a sandbox or recovery wait is over
    | Finish(run: int)
    | Fail(run: int)
    | Cancel(run: int, resumeParent: bool)
    | Requeue(run: int)                      // an interrupted attempt

  predicate Enabled(runs: Runs, step: Step) {
    match step
    case CreateRoot(r) => r !in runs
    case Delegate(r, c, _) => c !in runs && c != r
    case Claim(r) => r in runs && runs[r].status.Queued?
    case WaitForChild(r) => r in runs && runs[r].status.Running? && runs[r].captured.Some?
    case Resume(r) => r in runs && runs[r].status.AwaitingResult? && runs[r].waitReason != Some(ChildRun)
    case Cancel(r, _) => r in runs && !Terminal(runs[r].status)
    case _ => step.run in runs && runs[step.run].status.Running?
  }

  ghost function Next(runs: Runs, step: Step): Runs {
    if !Enabled(runs, step) then runs
    else
      match step
      case CreateRoot(r) => runs[r := NewRun(None)]
      case Delegate(r, c, checks) =>
        var created := CreateChild(runs, r, c, checks);
        if created.Success? then created.value else runs
      case Claim(r) => runs[r := Settled(runs[r], Running).(captured := None)]
      case BuildContext(r) =>
        var child := UndeliveredChild(runs, r);
        if child.Failure? || child.value.None? then runs else runs[r := runs[r].(captured := child.value)]
      case WaitForChild(r) =>
        QueueFromFinished(runs[r := Suspended(runs[r], ChildRun, runs[r].captured.value)], r)
      case WaitForSandbox(r, reference) => runs[r := Suspended(runs[r], SandboxCommand, reference)]
      case WaitForRecovery(r, reference) =>
        DiscardChildren(runs, r)[r := Suspended(runs[r], ToolRecovery, reference)]
      case Resume(r) =>
        runs[r := Settled(runs[r], Queued).(triggerRevision := runs[r].triggerRevision + 1,
                                            resumptions := runs[r].resumptions + 1)]
      case Finish(r) => Ended(runs, r, Succeeded, true)
      case Fail(r) => Ended(runs, r, Errored, true)
      case Cancel(r, resumeParent) => Ended(runs, r, Canceled, resumeParent)
      case Requeue(r) => runs[r := Settled(runs[r], Queued)]
  }

  ghost function Execute(runs: Runs, steps: seq<Step>): Runs {
    if steps == [] then runs else Next(Execute(runs, steps[..|steps| - 1]), steps[|steps| - 1])
  }

  // ----- Invariant -----

  function DeliveredTo(runs: Runs, parent: int): set<int> {
    set c | c in runs && runs[c].parent == Some(parent) && runs[c].disposition == Some(Delivered)
  }

  /** Wait fields are set exactly while waiting. */
  predicate WaitFieldsOk(run: Run) {
    && (run.status.AwaitingResult? <==> run.waitReason.Some?)
    && (run.status.AwaitingResult? <==> run.waitReference.Some?)
  }

  predicate RunOk(runs: Runs, r: int)
    requires r in runs
  {
    var run := runs[r];
    && WaitFieldsOk(run)
    && (run.parent.Some? ==> run.parent.value in runs && run.parent.value != r)
    && (run.disposition.Some? ==> run.parent.Some?)
    && (run.disposition == Some(Delivered) ==> Terminal(run.status))
    && (run.status.Running? && run.captured.Some? ==> IsUndelivered(runs, r, run.captured.value))
    && (run.waitReason == Some(ChildRun) ==> IsUndelivered(runs, r, run.waitReference.value))
    && (run.parent.Some? && Terminal(runs[run.parent.value].status) ==> run.disposition.Some?)
  }

  ghost predicate AtMostOneUndelivered(runs: Runs) {
    forall p, c, d :: IsUndelivered(runs, p, c) && IsUndelivered(runs, p, d) ==> c == d
  }

  /** The trigger revision is 1 plus the delivered children and the other resumptions. */
  predicate RevisionOk(runs: Runs, r: int)
    requires r in runs
  {
    runs[r].triggerRevision == 1 + |DeliveredTo(runs, r)| + runs[r].resumptions
  }

  ghost predicate Base(runs: Runs) {
    && (forall r :: r in runs ==> RunOk(runs, r))
    && (forall r :: r in runs ==> RevisionOk(runs, r))
    && AtMostOneUndelivered(runs)
  }

  /** `p` is not waiting on a child that has ended. */
  predicate NotStranded(runs: Runs, p: int)
    requires p in runs
  {
    runs[p].waitReason == Some(ChildRun) && runs[p].waitReference.Some? && runs[p].waitReference.value in runs
    ==> !Terminal(runs[runs[p].waitReference.value].status)
  }

  predicate NoLostWakeUp(runs: Runs) {
    forall p :: p in runs ==> NotStranded(runs, p)
  }

  ghost predicate Inv(runs: Runs) {
    Base(runs) && NoLostWakeUp(runs)
  }

  // ----- Revisions -----

  predicate DeliveredChild(runs: Runs, parent: int, c: int) {
    c in runs && runs[c].parent == Some(parent) && runs[c].disposition == Some(Delivered)
  }

  lemma SameDelivered(runs: Runs, after: Runs, q: int)
    requires forall c :: DeliveredChild(runs, q, c) <==> DeliveredChild(after, q, c)
    ensures DeliveredTo(after, q) == DeliveredTo(runs, q)
  {
    forall c ensures c in DeliveredTo(after, q) <==> c in DeliveredTo(runs, q) {
      assert DeliveredChild(runs, q, c) <==> DeliveredChild(after, q, c);
    }
  }

  lemma FewerUndelivered(runs: Runs, after: Runs)
    requires AtMostOneUndelivered(runs)
    requires forall p, c :: IsUndelivered(after, p, c) ==> IsUndelivered(runs, p, c)
    ensures AtMostOneUndelivered(after)
  {}

  lemma NoChildrenOfMissing(runs: Runs, q: int)
    requires Base(runs) && q !in runs
    ensures DeliveredTo(runs, q) == {}
  {
    forall c | c in runs ensures runs[c].parent != Some(q) { assert RunOk(runs, c); }
  }

  // ----- Steps that change one row and no disposition -----

  /** `after` differs from `runs` in row `r` only, in nothing that its parent refers to. */
  predicate RowChange(runs: Runs, r: int, after: Runs) {
    && r in runs && r in after && after == runs[r := after[r]]
    && after[r].parent == runs[r].parent && after[r].disposition == runs[r].disposition
    && after[r].triggerRevision - after[r].resumptions == runs[r].triggerRevision - runs[r].resumptions
    && WaitFieldsOk(after[r])
    && !Terminal(after[r].status) && !Terminal(runs[r].status)
    && (after[r].status.Running? && after[r].captured.Some? ==> IsUndelivered(runs, r, after[r].captured.value))
    && (after[r].waitReason == Some(ChildRun) ==> IsUndelivered(runs, r, after[r].waitReference.value))
  }

  lemma RowChangeKeepsBase(runs: Runs, r: int, after: Runs)
    requires Base(runs) && RowChange(runs, r, after)
    ensures Base(after)
  {
    assert RunOk(runs, r);
    FewerUndelivered(runs, after);
    forall q | q in after ensures RunOk(after, q) {
      assert RunOk(runs, q);
    }
    forall q | q in after ensures RevisionOk(after, q) {
      SameDelivered(runs, after, q);
      assert RevisionOk(runs, q);
    }
  }

  // ----- Discarding -----

  /** A run leaves its attempt or its wait: its row becomes `after` and its children are discarded. */
  function Left(runs: Runs, r: int, after: Run): Runs {
    DiscardChildren(runs, r)[r := after]
  }

  predicate Leaves(runs: Runs, r: int, after: Run) {
    && r in runs
    && after == runs[r].(status := after.status, waitReason := after.waitReason, waitReference := after.waitReference)
    && WaitFieldsOk(after) && !after.status.Running? && after.waitReason != Some(ChildRun)
    && !Terminal(runs[r].status)
  }

  lemma LeftRowOk(runs: Runs, r: int, after: Run, q: int)
    requires Base(runs) && Leaves(runs, r, after) && q in runs
    ensures q in Left(runs, r, after) && RunOk(Left(runs, r, after), q)
  {
    assert RunOk(runs, q) && RunOk(runs, r);
    if q == r { LeavingRowOk(runs, r, after); } else { OtherRowOk(runs, r, after, q); }
  }

  lemma LeavingRowOk(runs: Runs, r: int, after: Run)
    requires Leaves(runs, r, after) && RunOk(runs, r)
    ensures r in Left(runs, r, after) && RunOk(Left(runs, r, after), r)
  {
  }

  lemma OtherRowOk(runs: Runs, r: int, after: Run, q: int)
    requires Leaves(runs, r, after) && q in runs && q != r && RunOk(runs, q) && RunOk(runs, r)
    ensures q in Left(runs, r, after) && RunOk(Left(runs, r, after), q)
  {
    forall c | IsUndelivered(runs, q, c) ensures IsUndelivered(Left(runs, r, after), q, c) {
      assert c in runs;
    }
  }

  lemma LeftRevisionOk(runs: Runs, r: int, after: Run, q: int)
    requires Base(runs) && Leaves(runs, r, after) && q in runs
    ensures q in Left(runs, r, after) && RevisionOk(Left(runs, r, after), q)
  {
    SameDelivered(runs, Left(runs, r, after), q);
    assert RevisionOk(runs, q);
  }

  lemma LeftRows(runs: Runs, r: int, after: Run)
    requires r in runs && after.parent == runs[r].parent && after.disposition == runs[r].disposition
    ensures Left(runs, r, after).Keys == runs.Keys
    ensures forall q :: q in runs && q != r ==>
              (Left(runs, r, after)[q] == runs[q].(disposition := Left(runs, r, after)[q].disposition))
    ensures forall p, c :: IsUndelivered(Left(runs, r, after), p, c) ==> IsUndelivered(runs, p, c)
  {
  }

  lemma LeftKeepsBase(runs: Runs, r: int, after: Run)
    requires Base(runs) && Leaves(runs, r, after)
    ensures Base(Left(runs, r, after))
  {
    var runs' := Left(runs, r, after);
    LeftRows(runs, r, after);
    forall q | q in runs' ensures RunOk(runs', q) { LeftRowOk(runs, r, after, q); }
    forall q | q in runs' ensures RevisionOk(runs', q) { LeftRevisionOk(runs, r, after, q); }
  }

  // ----- Delivering -----

  lemma QueueParentKeepsBase(runs: Runs, child: int)
    requires Base(runs) && child in runs && Terminal(runs[child].status)
    ensures Base(QueueParent(runs, child))
  {
    var runs' := QueueParent(runs, child);
    if runs' != runs {
      var parent := runs[child].parent.value;
      assert RunOk(runs, child) && RunOk(runs, parent);
      FewerUndelivered(runs, runs');
      forall q | q in runs' ensures RunOk(runs', q) {
        assert RunOk(runs, q);
      }
      forall q | q in runs' ensures RevisionOk(runs', q) {
        assert RevisionOk(runs, q);
        QueueParentRevision(runs, child, q);
      }
    }
  }

  lemma QueueParentRevision(runs: Runs, child: int, q: int)
    requires child in runs && q in runs && RunOk(runs, child) && RevisionOk(runs, q)
    ensures q in QueueParent(runs, child) && RevisionOk(QueueParent(runs, child), q)
  {
    var runs' := QueueParent(runs, child);
    if runs' != runs && q == runs[child].parent.value {
      assert DeliveredTo(runs', q) == DeliveredTo(runs, q) + {child};
      assert child !in DeliveredTo(runs, q);
    } else {
      SameDelivered(runs, runs', q);
    }
  }

  /** Delivery strands nobody, and a parent that waits on the delivered child is queued with
      its wait cleared and its revision one higher. */
  lemma QueueParentWakes(runs: Runs, child: int, p: int)
    requires Base(runs) && child in runs && Terminal(runs[child].status) && p in runs
    ensures p in QueueParent(runs, child)
    ensures !NotStranded(QueueParent(runs, child), p) ==> !NotStranded(runs, p) && !WaitsOn(runs[p], child)
    ensures WaitsOn(runs[p], child) ==>
              QueueParent(runs, child)[p] == runs[p].(status := Queued, waitReason := None, waitReference := None,
                                                      triggerRevision := runs[p].triggerRevision + 1)
  {
    assert RunOk(runs, p) && RunOk(runs, child);
  }

  lemma EndedIsLeft(runs: Runs, r: int, status: Status)
    requires Base(runs) && r in runs
    ensures var left := Left(runs, r, Settled(runs[r], status));
            && Ended(runs, r, status, false) == left
            && Ended(runs, r, status, true) == QueueParent(left, r)
  {
    assert RunOk(runs, r);
  }

  lemma EndedKeepsBase(runs: Runs, r: int, status: Status, resumeParent: bool)
    requires Base(runs) && r in runs && !Terminal(runs[r].status) && Terminal(status)
    ensures Base(Ended(runs, r, status, resumeParent))
  {
    EndedIsLeft(runs, r, status);
    LeftKeepsBase(runs, r, Settled(runs[r], status));
    if resumeParent { QueueParentKeepsBase(Left(runs, r, Settled(runs[r], status)), r); }
  }

  /** Ending a run strands at most a parent that waits on it and is not woken. */
  lemma EndedStrandsOnly(runs: Runs, r: int, status: Status, resumeParent: bool, p: int)
    requires Base(runs) && r in runs && !Terminal(runs[r].status) && Terminal(status) && p in runs
    ensures p in Ended(runs, r, status, resumeParent)
    ensures !NotStranded(Ended(runs, r, status, resumeParent), p) ==>
              !NotStranded(runs, p) || (!resumeParent && WaitsOn(runs[p], r))
  {
    var left := Left(runs, r, Settled(runs[r], status));
    EndedIsLeft(runs, r, status);
    LeftKeepsBase(runs, r, Settled(runs[r], status));
    if resumeParent {
      LeftRows(runs, r, Settled(runs[r], status));
      QueueParentWakes(left, r, p);
    }
  }

  lemma EndedKeepsInv(runs: Runs, r: int, status: Status, resumeParent: bool)
    requires Inv(runs) && r in runs && !Terminal(runs[r].status) && Terminal(status)
    requires resumeParent || !ParentWaitsOn(runs, r)
    ensures Inv(Ended(runs, r, status, resumeParent))
  {
    EndedKeepsBase(runs, r, status, resumeParent);
    forall p | p in runs ensures NotStranded(Ended(runs, r, status, resumeParent), p) {
      EndedStrandsOnly(runs, r, status, resumeParent, p);
      assert RunOk(runs, p);
    }
  }

  // ----- Delegating and waiting -----

  lemma DelegateKeepsBase(runs: Runs, r: int, child: int, checks: Checks)
    requires Base(runs) && child !in runs && CreateChild(runs, r, child, checks).Success?
    ensures Base(CreateChild(runs, r, child, checks).value)
  {
    var added := runs[child := NewRun(Some(r))];
    NoUndelivered(runs, r);
    assert RunOk(runs, r);
    forall q | q in added ensures RunOk(added, q) {
      if q in runs { assert RunOk(runs, q); }
    }
    forall q | q in added ensures RevisionOk(added, q) {
      SameDelivered(runs, added, q);
      if q in runs { assert RevisionOk(runs, q); } else { NoChildrenOfMissing(runs, q); }
    }
    forall p, c, d | IsUndelivered(added, p, c) && IsUndelivered(added, p, d) ensures c == d {
      assert c != child ==> IsUndelivered(runs, p, c);
      assert d != child ==> IsUndelivered(runs, p, d);
    }
    RowChangeKeepsBase(added, r, CreateChild(runs, r, child, checks).value);
  }

  lemma NoUndelivered(runs: Runs, r: int)
    requires Undelivered(runs, r) == {}
    ensures forall c :: !IsUndelivered(runs, r, c)
  {
    forall c ensures !IsUndelivered(runs, r, c) { assert c !in Undelivered(runs, r); }
  }

  lemma RootKeepsBase(runs: Runs, r: int)
    requires Base(runs) && r !in runs
    ensures Base(runs[r := NewRun(None)])
  {
    var runs' := runs[r := NewRun(None)];
    FewerUndelivered(runs, runs');
    forall q | q in runs' ensures RunOk(runs', q) {
      if q in runs { assert RunOk(runs, q); }
    }
    forall q | q in runs' ensures RevisionOk(runs', q) {
      SameDelivered(runs, runs', q);
      if q in runs { assert RevisionOk(runs, q); } else { NoChildrenOfMissing(runs, q); }
    }
  }

  /** Starting to wait on a child: if it has ended already, the wait ends with it. */
  lemma WaitIsDelivered(runs: Runs, r: int)
    requires Base(runs) && Enabled(runs, WaitForChild(r))
    ensures var child := runs[r].captured.value;
            var waiting := runs[r := Suspended(runs[r], ChildRun, child)];
            && Base(waiting) && child in waiting
            && Next(runs, WaitForChild(r)) == if Terminal(waiting[child].status) then QueueParent(waiting, child)
                else waiting
  {
    var child := runs[r].captured.value;
    assert RunOk(runs, r) && RunOk(runs, child);
    RowChangeKeepsBase(runs, r, runs[r := Suspended(runs[r], ChildRun, child)]);
  }

  lemma WaitStrandsNobody(runs: Runs, r: int, p: int)
    requires Base(runs) && Enabled(runs, WaitForChild(r)) && p in runs
    ensures p in Next(runs, WaitForChild(r))
    ensures !NotStranded(Next(runs, WaitForChild(r)), p) ==> !NotStranded(runs, p)
  {
    var child := runs[r].captured.value;
    WaitIsDelivered(runs, r);
    if Terminal(runs[child].status) {
      QueueParentWakes(runs[r := Suspended(runs[r], ChildRun, child)], child, p);
    }
  }

  /** Claim, context building, sandbox waits, resumption and requeueing change one row. */
  predicate OneRow(step: Step) {
    step.Claim? || step.BuildContext? || step.WaitForSandbox? || step.Resume? || step.Requeue?
  }

  lemma RowOfStep(runs: Runs, step: Step)
    requires Base(runs) && Enabled(runs, step) && OneRow(step)
    ensures Base(Next(runs, step))
  {
    assert RunOk(runs, step.run) && RevisionOk(runs, step.run);
    var runs' := Next(runs, step);
    if runs' != runs { RowChangeKeepsBase(runs, step.run, runs'); }
  }

  // ----- Every run -----

  /** Every step keeps all constraints other than the wake-ups. */
  lemma NextKeepsBase(runs: Runs, step: Step)
    requires Base(runs)
    ensures Base(Next(runs, step))
  {
    if Enabled(runs, step) {
      match step
      case CreateRoot(r) => RootKeepsBase(runs, r);
      case Delegate(r, c, checks) =>
        if CreateChild(runs, r, c, checks).Success? { DelegateKeepsBase(runs, r, c, checks); }
      case WaitForChild(r) =>
        WaitIsDelivered(runs, r);
        var child := runs[r].captured.value;
        if Terminal(runs[child].status) { QueueParentKeepsBase(runs[r := Suspended(runs[r], ChildRun, child)], child); }
      case WaitForRecovery(r, reference) => LeftKeepsBase(runs, r, Suspended(runs[r], ToolRecovery, reference));
      case Finish(r) => EndedKeepsBase(runs, r, Succeeded, true);
      case Fail(r) => EndedKeepsBase(runs, r, Errored, true);
      case Cancel(r, resumeParent) => EndedKeepsBase(runs, r, Canceled, resumeParent);
      case _ => RowOfStep(runs, step);
    }
  }

  /** Over every run of the protocol, silent cancellations included: at most one undelivered
      child per parent, wait fields exactly while waiting, and the trigger revision counts
      the delivered children and the other resumptions. */
  lemma {:induction false} RunKeepsBase(steps: seq<Step>)
    ensures Base(Execute(map[], steps))
  {
    if steps != [] {
      RunKeepsBase(steps[..|steps| - 1]);
      NextKeepsBase(Execute(map[], steps[..|steps| - 1]), steps[|steps| - 1]);
    }
  }

  /** A cancellation that does not wake the waiting parent. */
  predicate Silent(step: Step) {
    step.Cancel? && !step.resumeParent
  }

  /** Whatever the step, a parent is stranded after it only if it was before, or if the step
      silently cancels the very child it waits on. */
  lemma OnlySilentCancelStrands(runs: Runs, step: Step, p: int)
    requires Base(runs) && p in Next(runs, step) && !NotStranded(Next(runs, step), p)
    ensures p in runs
    ensures !NotStranded(runs, p) || (Silent(step) && WaitsOn(runs[p], step.run))
  {
    if Enabled(runs, step) {
      match step
      case CreateRoot(_) => if p in runs { assert RunOk(runs, p); }
      case Delegate(_, _, _) => if p in runs { assert RunOk(runs, p); }
      case WaitForChild(r) => WaitStrandsNobody(runs, r, p);
      case WaitForRecovery(r, reference) => 
      case Finish(r) => EndedStrandsOnly(runs, r, Succeeded, true, p);
      case Fail(r) => EndedStrandsOnly(runs, r, Errored, true, p);
      case Cancel(r, resumeParent) => EndedStrandsOnly(runs, r, Canceled, resumeParent, p);
      case _ =>
    }
  }

  lemma NextKeepsInv(runs: Runs, step: Step)
    requires Inv(runs) && !Silent(step)
    ensures Inv(Next(runs, step))
  {
    NextKeepsBase(runs, step);
    forall p | p in Next(runs, step) ensures NotStranded(Next(runs, step), p) {
      if !NotStranded(Next(runs, step), p) { OnlySilentCancelStrands(runs, step, p); }
    }
  }

  /** Over every run without silent cancellations there is, in addition, no lost wake-up: no
      parent waits on a child that has ended, whichever of the two came first. */
  lemma {:induction false} ProtocolIsSafe(steps: seq<Step>)
    requires forall i :: 0 <= i < |steps| ==> !Silent(steps[i])
    ensures Inv(Execute(map[], steps))
  {
    if steps != [] {
      ProtocolIsSafe(steps[..|steps| - 1]);
      NextKeepsInv(Execute(map[], steps[..|steps| - 1]), steps[|steps| - 1]);
    }
  }

  /** The "multiple undelivered Child Runs" error is unreachable. */
  lemma NeverMultipleUndelivered(steps: seq<Step>, parent: int)
    ensures UndeliveredChild(Execute(map[], steps), parent).Success?
  {
    RunKeepsBase(steps);
    var children := Undelivered(Execute(map[], steps), parent);
    if children != {} {
      var c := Pick(children);
      assert children == {c};
    }
  }

  /** `child` is resolved, and `after` neither forgets nor changes that. */
  predicate KeepsResolved(runs: Runs, after: Runs, child: int) {
    child in runs && runs[child].disposition.Some? ==>
      child in after && after[child].disposition == runs[child].disposition && after[child].parent == runs[child].parent
  }

  lemma EndedKeepsResolved(runs: Runs, r: int, status: Status, resumeParent: bool, child: int)
    requires r in runs
    ensures KeepsResolved(runs, Ended(runs, r, status, resumeParent), child)
  {
    var settled := DiscardChildren(runs, r)[r := Settled(DiscardChildren(runs, r)[r], status)];
    assert KeepsResolved(runs, settled, child);
  }

  lemma DispositionIsKept(runs: Runs, step: Step, child: int)
    requires Base(runs)
    ensures KeepsResolved(runs, Next(runs, step), child)
  {
    if Enabled(runs, step) {
      match step
      case WaitForChild(r) => 
      case Finish(r) => EndedKeepsResolved(runs, r, Succeeded, true, child);
      case Fail(r) => EndedKeepsResolved(runs, r, Errored, true, child);
      case Cancel(r, resumeParent) => EndedKeepsResolved(runs, r, Canceled, resumeParent, child);
      case _ =>
    }
  }

  /** A resolved child stays resolved the same way for the rest of every run: it is delivered
      at most once, and a discarded one never. */
  lemma {:induction false} DispositionIsFinal(steps: seq<Step>, more: seq<Step>, child: int)
    requires var runs := Execute(map[], steps); child in runs && runs[child].disposition.Some?
    ensures var runs, later := Execute(map[], steps), Execute(map[], steps + more);
            && child in later
            && later[child].disposition == runs[child].disposition
            && later[child].parent == runs[child].parent
  {
    if more == [] {
      assert steps + more == steps;
    } else {
      var before, last := more[..|more| - 1], more[|more| - 1];
      DispositionIsFinal(steps, before, child);
      AddLast(steps, more);
      PrefixOfLonger(steps + before, last);
      RunKeepsBase(steps + before);
      DispositionIsKept(Execute(map[], steps + before), last, child);
    }
  }

  // ----- Silent cancellation -----

  predicate ParentWaitsOn(runs: Runs, child: int)
    requires child in runs
  {
    runs[child].parent.Some? && runs[child].parent.value in runs && WaitsOn(runs[runs[child].parent.value], child)
  }

  /** Cancelling without waking the parent is harmless exactly when the parent is not
      waiting on the canceled run. */
  lemma SilentCancelIsHarmlessIff(runs: Runs, r: int)
    requires Inv(runs) && Enabled(runs, Cancel(r, false))
    ensures Inv(Next(runs, Cancel(r, false))) <==> !ParentWaitsOn(runs, r)
  {
    var runs' := Next(runs, Cancel(r, false));
    NextKeepsBase(runs, Cancel(r, false));
    assert RunOk(runs, r);
    if ParentWaitsOn(runs, r) {
      var p := runs[r].parent.value;
      EndedIsLeft(runs, r, Canceled);
      LeftRows(runs, r, Settled(runs[r], Canceled));
      assert WaitsOn(runs'[p], r) && !NotStranded(runs', p);
    } else {
      forall p | p in runs' ensures NotStranded(runs', p) {
        if p in runs { assert RunOk(runs, p); }
        if !NotStranded(runs', p) { OnlySilentCancelStrands(runs, Cancel(r, false), p); }
      }
    }
  }

  lemma OneMore(before: seq<Step>, step: Step)
    ensures Execute(map[], before + [step]) == Next(Execute(map[], before), step)
  {
    PrefixOfLonger(before, step);
  }

  const DELEGATING: seq<Step> := [] + [CreateRoot(0)] + [Claim(0)] + [Delegate(0, 1, Checks(true, true))]

  lemma AfterDelegating()
    ensures var runs := Execute(map[], DELEGATING);
            && runs.Keys == {0, 1} && runs[1] == NewRun(Some(0))
            && runs[0] == NewRun(None).(status := Running, captured := Some(1))
  {
    OneMore([], CreateRoot(0));
    OneMore([] + [CreateRoot(0)], Claim(0));
    OneMore([] + [CreateRoot(0)] + [Claim(0)], Delegate(0, 1, Checks(true, true)));
    assert Execute(map[], [] + [CreateRoot(0)] + [Claim(0)]).Keys == {0};
  }

  /** The failing case happens: a run delegates, waits, and its child is canceled silently. */
  lemma SilentCancelStrands()
    ensures var runs := Execute(map[], DELEGATING + [WaitForChild(0)] + [Cancel(1, false)]);
            0 in runs && !NotStranded(runs, 0)
  {
    var runs := Execute(map[], DELEGATING);
    AfterDelegating();
    OneMore(DELEGATING, WaitForChild(0));
    OneMore(DELEGATING + [WaitForChild(0)], Cancel(1, false));
    var waiting := Next(runs, WaitForChild(0));
    assert waiting == runs[0 := Suspended(runs[0], ChildRun, 1)];
    assert Next(waiting, Cancel(1, false)) == DiscardChildren(waiting, 1)[1 := Settled(waiting[1], Canceled)];
  }

  predicate KeepsWait(runs: Runs, after: Runs, p: int) {
    p in runs && p in after
    && after[p].waitReason == runs[p].waitReason && after[p].waitReference == runs[p].waitReference
  }

  /** The end of another run leaves the wait of a parent on a third one. */
  lemma EndedKeepsWait(runs: Runs, r: int, status: Status, resumeParent: bool, p: int)
    requires r in runs && p in runs && p != r && !WaitsOn(runs[p], r)
    ensures KeepsWait(runs, Ended(runs, r, status, resumeParent), p)
  {
    var settled := DiscardChildren(runs, r)[r := Settled(DiscardChildren(runs, r)[r], status)];
    assert KeepsWait(runs, settled, p) && !WaitsOn(settled[p], r);
  }

  lemma WaitKeepsWait(runs: Runs, r: int, p: int)
    requires Base(runs) && Enabled(runs, WaitForChild(r)) && p in runs && runs[p].status.AwaitingResult?
    ensures KeepsWait(runs, Next(runs, WaitForChild(r)), p)
  {
    var child := runs[r].captured.value;
    WaitIsDelivered(runs, r);
    assert RunOk(runs, r);
    var waiting := runs[r := Suspended(runs[r], ChildRun, child)];
    assert KeepsWait(runs, waiting, p) && waiting[child].parent == Some(r);
  }

  lemma StrandedKeepsWait(runs: Runs, step: Step, p: int)
    requires Base(runs) && p in runs && !NotStranded(runs, p)
    requires !(step.Cancel? && step.run == p)
    ensures KeepsWait(runs, Next(runs, step), p)
  {
    assert RunOk(runs, p);
    if Enabled(runs, step) {
      match step
      case WaitForChild(r) => WaitKeepsWait(runs, r, p);
      case WaitForRecovery(r, reference) => LeftRows(runs, r, Suspended(runs[r], ToolRecovery, reference));
      case Finish(r) => EndedKeepsWait(runs, r, Succeeded, true, p);
      case Fail(r) => EndedKeepsWait(runs, r, Errored, true, p);
      case Cancel(r, resumeParent) => EndedKeepsWait(runs, r, Canceled, resumeParent, p);
      case _ =>
    }
  }

  /** No later step but its own cancellation helps a stranded parent. */
  lemma StrandedStays(runs: Runs, step: Step, p: int)
    requires Base(runs) && p in runs && !NotStranded(runs, p)
    requires !(step.Cancel? && step.run == p)
    ensures p in Next(runs, step) && !NotStranded(Next(runs, step), p)
  {
    StrandedKeepsWait(runs, step, p);
    NextStaysEnded(runs, step);
  }

  lemma {:induction false} StrandedForGood(steps: seq<Step>, more: seq<Step>, p: int)
    requires var runs := Execute(map[], steps); p in runs && !NotStranded(runs, p)
    requires forall i :: 0 <= i < |more| && more[i].Cancel? ==> more[i].run != p
    ensures var runs := Execute(map[], steps + more); p in runs && !NotStranded(runs, p)
  {
    if more == [] {
      assert steps + more == steps;
    } else {
      var before, last := more[..|more| - 1], more[|more| - 1];
      StrandedForGood(steps, before, p);
      AddLast(steps, more);
      OneMore(steps + before, last);
      RunKeepsBase(steps + before);
      StrandedStays(Execute(map[], steps + before), last, p);
    }
  }

  // ----- Cancelling a session -----

  /** Runs that have ended stay ended, and no run changes its parent. */
  predicate StaysEnded(runs: Runs, after: Runs) {
    forall r :: r in runs ==> r in after && after[r].parent == runs[r].parent
                              && (Terminal(runs[r].status) ==> Terminal(after[r].status))
  }

  lemma EndedStaysEnded(runs: Runs, r: int, status: Status, resumeParent: bool)
    requires r in runs && Terminal(status)
    ensures StaysEnded(runs, Ended(runs, r, status, resumeParent))
    ensures resumeParent || Terminal(Ended(runs, r, status, resumeParent)[r].status)
  {
    var settled := DiscardChildren(runs, r)[r := Settled(DiscardChildren(runs, r)[r], status)];
    assert StaysEnded(runs, settled);
  }

  lemma NextStaysEnded(runs: Runs, step: Step)
    requires Base(runs)
    ensures StaysEnded(runs, Next(runs, step))
  {
    if Enabled(runs, step) {
      match step
      case WaitForChild(r) => WaitStaysEnded(runs, r);
      case Finish(r) => EndedStaysEnded(runs, r, Succeeded, true);
      case Fail(r) => EndedStaysEnded(runs, r, Errored, true);
      case Cancel(r, resumeParent) => EndedStaysEnded(runs, r, Canceled, resumeParent);
      case WaitForRecovery(r, reference) => LeftRows(runs, r, Suspended(runs[r], ToolRecovery, reference));
      case _ => OneRowStaysEnded(runs, step);
    }
  }

  lemma WaitStaysEnded(runs: Runs, r: int)
    requires Base(runs) && Enabled(runs, WaitForChild(r))
    ensures StaysEnded(runs, Next(runs, WaitForChild(r)))
  {
    WaitIsDelivered(runs, r);
  }

  lemma OneRowStaysEnded(runs: Runs, step: Step)
    requires Enabled(runs, step) && (OneRow(step) || step.CreateRoot? || step.Delegate?)
    ensures StaysEnded(runs, Next(runs, step))
  {}

  /** The runs of one session: parents and children belong to the same one. */
  predicate IsSession(runs: Runs, session: set<int>) {
    session <= runs.Keys && forall r :: r in runs && runs[r].parent.Some? ==>
        (r in session <==> runs[r].parent.value in session)
  }

  /** Silent cancellations concern only the runs the session had at the start. */
  predicate CancelsOnly(steps: seq<Step>, session: set<int>) {
    forall i :: 0 <= i < |steps| && Silent(steps[i]) ==> steps[i].run in session
  }

  /** Outside the session nobody is stranded, and each run of it that was silently canceled
      or had ended at the start has ended. */
  ghost predicate Cancelling(start: Runs, steps: seq<Step>, session: set<int>, runs: Runs) {
    && Base(runs) && StaysEnded(start, runs)
    && (forall p :: p in runs && p !in session ==> NotStranded(runs, p))
    && (forall r :: r in session && Cancel(r, false) in steps ==> r in runs && Terminal(runs[r].status))
  }

  lemma {:induction false} CancellingGoesOn(start: Runs, steps: seq<Step>, session: set<int>)
    requires Base(start) && IsSession(start, session) && CancelsOnly(steps, session)
    requires forall p :: p in start && p !in session ==> NotStranded(start, p)
    ensures Cancelling(start, steps, session, Execute(start, steps))
  {
    if steps != [] {
      var before, step := steps[..|steps| - 1], steps[|steps| - 1];
      CancellingGoesOn(start, before, session);
      var runs := Execute(start, before);
      assert steps == before + [step];
      CancellingStep(start, before, session, runs, step);
    }
  }

  lemma CancellingStep(start: Runs, before: seq<Step>, session: set<int>, runs: Runs, step: Step)
    requires IsSession(start, session) && Cancelling(start, before, session, runs)
    requires Silent(step) ==> step.run in session
    ensures Cancelling(start, before + [step], session, Next(runs, step))
  {
    var after := Next(runs, step);
    NextKeepsBase(runs, step);
    NextStaysEnded(runs, step);
    forall p | p in after && p !in session ensures NotStranded(after, p) {
      if !NotStranded(after, p) { StrangersWait(start, session, runs, step, p); }
    }
    forall r | r in session && Cancel(r, false) in before + [step] ensures r in after && Terminal(after[r].status) {}
  }

  /** A run outside the session never waits on a run of it. */
  lemma StrangersWait(start: Runs, session: set<int>, runs: Runs, step: Step, p: int)
    requires IsSession(start, session) && Base(runs) && StaysEnded(start, runs)
    requires Silent(step) ==> step.run in session
    requires p in Next(runs, step) && p !in session && !NotStranded(Next(runs, step), p)
    ensures p in runs && !NotStranded(runs, p)
  {
    OnlySilentCancelStrands(runs, step, p);
    assert RunOk(runs, p);
    if Silent(step) && WaitsOn(runs[p], step.run) {
      assert runs[step.run].parent == Some(p) && start[step.run].parent == Some(p);
    }
  }

  /** Cancelling the open runs of a session silently, each in its own transaction and with any
      other steps in between, may pass through states with a lost wake-up, but once each of
      them was canceled the invariant holds again, new runs and other sessions included. */
  lemma SessionCancelRestoresInv(runs: Runs, steps: seq<Step>, session: set<int>)
    requires Base(runs) && IsSession(runs, session) && CancelsOnly(steps, session)
    requires forall p :: p in runs && p !in session ==> NotStranded(runs, p)
    requires forall r :: r in session && !Terminal(runs[r].status) ==> Cancel(r, false) in steps
    ensures Inv(Execute(runs, steps))
  {
    CancellingGoesOn(runs, steps, session);
    var after := Execute(runs, steps);
    forall p | p in after ensures NotStranded(after, p) {
      if p in session {
        assert Terminal(after[p].status) && RunOk(after, p);
      }
    }
  }
}
