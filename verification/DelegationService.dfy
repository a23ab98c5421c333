/**
 The delegation service over the run table, updated in place row by row.
 */
module DelegationService {
  import opened Options
  import opened Delegation
  import opened DelegationProgress

  class RunTable {
    var runs: Runs

    constructor ()
      ensures runs == map[] && Inv(runs)
    {
      runs := map[];
    }

    /** `create_child_run`: an error leaves the table alone. */
    method CreateChildRun(parent: int, child: int, checks: Checks) returns (r: Result<int, CreateError>)
      requires child !in runs && child != parent
      modifies this
      ensures match CreateChild(old(runs), parent, child, checks)
              case Success(after) => r == Success(child) && runs == after
              case Failure(e) => r == Failure(e) && runs == old(runs)
      ensures old(Inv(runs)) ==> Inv(runs)
    {
      if parent !in runs || !runs[parent].status.Running? {
        return Failure(ParentInactive);
      }
      if !checks.free {
        return Failure(ContextOrSandboxBusy);
      }
      if Undelivered(runs, parent) != {} {
        return Failure(PreviousUndelivered);
      }
      if !checks.admitted {
        return Failure(NotAdmitted);
      }
      if Inv(runs) { NextKeepsInv(runs, Delegate(parent, child, checks)); }
      runs := runs[child := NewRun(Some(parent))];
      runs := runs[parent := runs[parent].(captured := Some(child))];
      return Success(child);
    }

    /** `discard_pending_child_continuations`. */
    method DiscardPendingChildContinuations(parent: int) returns (count: nat)
      modifies this
      ensures runs == DiscardChildren(old(runs), parent)
      ensures count == |Undelivered(old(runs), parent)|
    {
      var children := Undelivered(runs, parent);
      var rest := children;
      count := 0;
      while rest != {}
        invariant rest <= children && count == |children| - |rest|
        invariant runs == PartlyDiscarded(old(runs), children - rest)
        decreases rest
      {
        var child := TakeOne(rest);
        runs := runs[child := runs[child].(disposition := Some(Discarded))];
        rest := rest - {child};
        count := count + 1;
      }
    }

    /** `queue_parent_continuation`. */
    method QueueParentContinuation(child: int)
      requires child in runs
      modifies this
      ensures runs == QueueParent(old(runs), child)
      ensures var row := old(runs)[child];
              row.parent.Some? && row.disposition.None? && row.parent.value in old(runs) && row.parent.value != child
              && WaitsOn(old(runs)[row.parent.value], child) ==>
                && Woken(old(runs)[row.parent.value], runs[row.parent.value])
                && runs[child] == row.(disposition := Some(Delivered))
    {
      var row := runs[child];
      if row.parent.None? || row.disposition.Some? {
        return;
      }
      var id := row.parent.value;
      if id !in runs || !WaitsOn(runs[id], child) {
        return;
      }
      var parent := runs[id];
      runs := runs[id := parent.(status := Queued, triggerRevision := parent.triggerRevision + 1,
                                 waitReason := None, waitReference := None)];
      runs := runs[child := row.(disposition := Some(Delivered))];
    }

    /** `queue_parent_from_finished_wait_reference`. */
    method QueueParentFromFinishedWaitReference(parent: int)
      modifies this
      ensures runs == QueueFromFinished(old(runs), parent)
      ensures forall child ::
                && parent in old(runs) && child != parent && WaitsOn(old(runs)[parent], child)
                && IsUndelivered(old(runs), parent, child) && Terminal(old(runs)[child].status)
                ==> Woken(old(runs)[parent], runs[parent])
    {
      if parent !in runs || !runs[parent].status.AwaitingResult? || runs[parent].waitReason != Some(ChildRun)
         || runs[parent].waitReference.None? {
        return;
      }
      var child := runs[parent].waitReference.value;
      if !IsUndelivered(runs, parent, child) || !Terminal(runs[child].status) {
        return;
      }
      QueueParentContinuation(child);
    }

    /** `_finish_run`, `_fail_run` and `_cancel_persisted_run`: children are discarded, the
        row ends, and the waiting parent is woken in the same transaction. */
    method EndRun(run: int, status: Status, resumeParent: bool)
      requires run in runs && !Terminal(runs[run].status) && Terminal(status)
      modifies this
      ensures runs == Ended(old(runs), run, status, resumeParent)
      ensures old(Inv(runs)) && (resumeParent || !ParentWaitsOn(old(runs), run)) ==> Inv(runs)
    {
      if Inv(runs) && (resumeParent || !ParentWaitsOn(runs, run)) { EndedKeepsInv(runs, run, status, resumeParent); }
      var discarded := DiscardPendingChildContinuations(run);
      runs := runs[run := runs[run].(status := status, waitReason := None, waitReference := None)];
      if resumeParent {
        QueueParentContinuation(run);
      }
    }

    /** `_finish_run` of an attempt that waits for the child noted in its context. */
    method SuspendOnChild(run: int)
      requires Enabled(runs, WaitForChild(run))
      modifies this
      ensures runs == Next(old(runs), WaitForChild(run))
      ensures old(Inv(runs)) ==> Inv(runs)
    {
      if Inv(runs) { NextKeepsInv(runs, WaitForChild(run)); }
      runs := runs[run := runs[run].(status := AwaitingResult, waitReason := Some(ChildRun),
                                     waitReference := runs[run].captured)];
      QueueParentFromFinishedWaitReference(run);
    }
  }

  /** The rows after discarding some of the children. */
  function PartlyDiscarded(runs: Runs, children: set<int>): Runs {
    map r | r in runs :: if r in children then runs[r].(disposition := Some(Discarded)) else runs[r]
  }

  method TakeOne<T(==)>(members: set<T>) returns (member: T)
    requires members != {}
    ensures member in members
  {
    member :| member in members;
  }
}
