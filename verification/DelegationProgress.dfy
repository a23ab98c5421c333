/**
 What the delegation protocol gets done: a delivery makes the parent claimable, which step
 brings a run into which status, and every open run can still succeed.
 */
module DelegationProgress {
  import opened Options
  import opened Sequences
  import opened Delegation

  // ----- Waking a parent -----

  /** The row of a woken parent: queued, no longer waiting, its revision one higher, and
      otherwise as before. */
  predicate Woken(before: Run, after: Run) {
    after == before.(status := Queued, waitReason := None, waitReference := None,
                     triggerRevision := before.triggerRevision + 1)
  }

  /** The steps that end a run and wake its parent. */
  predicate EndsAndWakes(step: Step) {
    step.Finish? || step.Fail? || (step.Cancel? && step.resumeParent)
  }

  function EndStatus(step: Step): Status
    requires EndsAndWakes(step)
  {
    if step.Finish? then Succeeded else if step.Fail? then Errored else Canceled
  }

  /** No run is the child of its own child. */
  predicate NoTwoCycle(runs: Runs) {
    forall p, c :: p in runs && c in runs && runs[c].parent == Some(p) ==> runs[p].parent != Some(c)
  }

  /** A child ends on which its parent waits. */
  lemma EndWakesParent(runs: Runs, step: Step, p: int)
    requires Base(runs) && NoTwoCycle(runs) && EndsAndWakes(step) && Enabled(runs, step)
    requires p in runs && WaitsOn(runs[p], step.run)
    ensures var after := Next(runs, step);
            && p in after && Woken(runs[p], after[p]) && Enabled(after, Claim(p))
            && step.run in after && after[step.run].disposition == Some(Delivered)
            && after[step.run].status == EndStatus(step)
  {
    var c := step.run;
    assert RunOk(runs, p) && RunOk(runs, c);
    EndedIsLeft(runs, c, EndStatus(step));
    LeftRows(runs, c, Settled(runs[c], EndStatus(step)));
    var left := Left(runs, c, Settled(runs[c], EndStatus(step)));
    assert left[p] == runs[p];
    assert Next(runs, step) == QueueParent(left, c);
  }

  /** A parent starts to wait: on an ended child it is woken at once, on an open one it waits. */
  lemma WaitOrWake(runs: Runs, p: int)
    requires Base(runs) && Enabled(runs, WaitForChild(p))
    ensures var child, after := runs[p].captured.value, Next(runs, WaitForChild(p));
            && child in runs && p in after && child in after
            && if Terminal(runs[child].status)
               then Woken(runs[p], after[p]) && Enabled(after, Claim(p)) && after[child].disposition == Some(Delivered)
               else WaitsOn(after[p], child) && after[child] == runs[child]
                    && after[p] == runs[p].(status := AwaitingResult, waitReason := Some(ChildRun),
                                            waitReference := runs[p].captured)
  {
    WaitIsDelivered(runs, p);
    assert RunOk(runs, p);
  }

  // ----- New runs -----

  /** A new run: it waits for nothing, owes nothing, and can be claimed. */
  predicate Newborn(run: Run, parent: Option<int>) {
    && run.parent == parent && run.status.Queued? && run.waitReason.None? && run.waitReference.None?
    && run.triggerRevision == 1 && run.disposition.None? && run.captured.None? && run.resumptions == 0
  }

  lemma RootIsClaimable(runs: Runs, r: int)
    requires r !in runs
    ensures var after := Next(runs, CreateRoot(r));
            r in after && after == runs[r := after[r]] && Newborn(after[r], None) && Enabled(after, Claim(r))
  {}

  /** A child is created exactly when its parent is running in its context with no sandbox
      command pending, owes no result of an earlier child, and admission is granted; the first
      condition that fails is the error. The child can be claimed, the parent notes it, and
      nothing else changes. */
  lemma DelegatesIff(runs: Runs, p: int, c: int, checks: Checks)
    requires c !in runs && c != p
    ensures var owes := exists d :: IsUndelivered(runs, p, d);
            CreateChild(runs, p, c, checks) ==
            if p !in runs || runs[p].status != Running then Failure(ParentInactive)
            else if !checks.free then Failure(ContextOrSandboxBusy)
            else if owes then Failure(PreviousUndelivered)
            else if !checks.admitted then Failure(NotAdmitted)
            else Success(Next(runs, Delegate(p, c, checks)))
    ensures CreateChild(runs, p, c, checks).Success? ==>
              var after := Next(runs, Delegate(p, c, checks));
              && p in after && c in after && after == runs[p := after[p]][c := after[c]]
              && after[p] == runs[p].(captured := Some(c)) && Newborn(after[c], Some(p)) && Enabled(after, Claim(c))
    ensures CreateChild(runs, p, c, checks).Failure? ==> Next(runs, Delegate(p, c, checks)) == runs
  {
    if Undelivered(runs, p) != {} {
      var d :| d in Undelivered(runs, p);
      assert IsUndelivered(runs, p, d);
    } else {
      NoUndelivered(runs, p);
    }
  }

  // ----- Creation order -----

  /** Every run was created after its parent. */
  predicate Ranked(runs: Runs, rank: map<int, nat>) {
    && rank.Keys == runs.Keys
    && (forall r :: r in runs ==> rank[r] < |runs|)
    && (forall r :: r in runs && runs[r].parent.Some? ==>
          runs[r].parent.value in runs && rank[runs[r].parent.value] < rank[r])
  }

  lemma RankedHasNoCycle(runs: Runs, rank: map<int, nat>)
    requires Ranked(runs, rank)
    ensures NoTwoCycle(runs)
  {}

  lemma SameKeys(runs: Runs, step: Step)
    requires Base(runs) && !step.CreateRoot? && !step.Delegate?
    ensures Next(runs, step).Keys == runs.Keys
  {
    if Enabled(runs, step) {
      match step
      case WaitForChild(r) => WaitIsDelivered(runs, r);
      case Finish(r) => EndedIsLeft(runs, r, Succeeded);
      case Fail(r) => EndedIsLeft(runs, r, Errored);
      case Cancel(r, _) => EndedIsLeft(runs, r, Canceled);
      case _ =>
    }
  }

  lemma RankedNew(runs: Runs, rank: map<int, nat>, r: int, after: Runs)
    requires Ranked(runs, rank) && r !in runs && after.Keys == runs.Keys + {r}
    requires forall q :: q in runs ==> after[q].parent == runs[q].parent
    requires after[r].parent.Some? ==> after[r].parent.value in runs
    ensures Ranked(after, rank[r := |runs|])
  {
    var rank' := rank[r := |runs|];
    assert |after.Keys| == |runs.Keys| + 1 && |after| == |after.Keys| && |runs| == |runs.Keys|;
    assert rank'.Keys == after.Keys;
    forall q | q in after && after[q].parent.Some?
      ensures after[q].parent.value in after && rank'[after[q].parent.value] < rank'[q]
    {
      var p := after[q].parent.value;
      if q == r {
        assert p in runs && rank[p] < |runs|;
      } else {
        assert runs[q].parent == Some(p) && rank[p] < rank[q];
      }
    }
  }

  lemma RankedSame(runs: Runs, rank: map<int, nat>, after: Runs)
    requires Ranked(runs, rank) && after.Keys == runs.Keys
    requires forall q :: q in runs ==> after[q].parent == runs[q].parent
    ensures Ranked(after, rank)
  {
    assert |after| == |after.Keys| && |runs| == |runs.Keys|;
  }

  lemma DelegateIsRanked(runs: Runs, rank: map<int, nat>, step: Step)
    requires Ranked(runs, rank) && step.Delegate? && Enabled(runs, step)
    requires CreateChild(runs, step.run, step.child, step.checks).Success?
    ensures Ranked(Next(runs, step), rank[step.child := |runs|])
  {
    RankedNew(runs, rank, step.child, Next(runs, step));
  }

  lemma RootIsRanked(runs: Runs, rank: map<int, nat>, r: int)
    requires Ranked(runs, rank) && Enabled(runs, CreateRoot(r))
    ensures Ranked(Next(runs, CreateRoot(r)), rank[r := |runs|])
  {
    RankedNew(runs, rank, r, Next(runs, CreateRoot(r)));
  }

  lemma OtherIsRanked(runs: Runs, rank: map<int, nat>, step: Step)
    requires Base(runs) && Ranked(runs, rank) && !step.CreateRoot? && !step.Delegate?
    ensures Ranked(Next(runs, step), rank)
  {
    SameKeys(runs, step);
    NextStaysEnded(runs, step);
    RankedSame(runs, rank, Next(runs, step));
  }

  lemma NextIsRanked(runs: Runs, rank: map<int, nat>, step: Step) returns (rank': map<int, nat>)
    requires Base(runs) && Ranked(runs, rank)
    ensures Ranked(Next(runs, step), rank')
    ensures !step.CreateRoot? && !step.Delegate? ==> rank' == rank
  {
    rank' := rank;
    if !Enabled(runs, step) {
    } else if step.CreateRoot? {
      RootIsRanked(runs, rank, step.run);
      rank' := rank[step.run := |runs|];
    } else if !step.Delegate? {
      OtherIsRanked(runs, rank, step);
    } else if CreateChild(runs, step.run, step.child, step.checks).Success? {
      DelegateIsRanked(runs, rank, step);
      rank' := rank[step.child := |runs|];
    }
  }

  lemma {:induction false} RunIsRanked(steps: seq<Step>) returns (rank: map<int, nat>)
    ensures Ranked(Execute(map[], steps), rank)
  {
    if steps == [] {
      rank := map[];
    } else {
      var before := steps[..|steps| - 1];
      var earlier := RunIsRanked(before);
      RunKeepsBase(before);
      rank := NextIsRanked(Execute(map[], before), earlier, steps[|steps| - 1]);
    }
  }

  /** After any run of the protocol: when a child ends on which its parent waits, and likewise
      when a parent starts to wait on a child that has ended, the parent is queued with its
      wait cleared and its revision one higher, nothing else of it changed, and it can be
      claimed; the child counts as delivered. */
  lemma DeliveryWakes(steps: seq<Step>, step: Step, p: int, child: int)
    requires var runs := Execute(map[], steps);
             && Enabled(runs, step) && p in runs && child in runs
             && ((EndsAndWakes(step) && step.run == child && WaitsOn(runs[p], child))
                 || (step == WaitForChild(p) && runs[p].captured == Some(child) && Terminal(runs[child].status)))
    ensures var runs, after := Execute(map[], steps), Execute(map[], steps + [step]);
            && p in after && Woken(runs[p], after[p]) && Enabled(after, Claim(p))
            && child in after && after[child].disposition == Some(Delivered) && Terminal(after[child].status)
  {
    var runs := Execute(map[], steps);
    RunKeepsBase(steps);
    OneMore(steps, step);
    if EndsAndWakes(step) {
      var rank := RunIsRanked(steps);
      RankedHasNoCycle(runs, rank);
      EndWakesParent(runs, step, p);
    } else {
      WaitOrWake(runs, p);
      NextStaysEnded(runs, step);
    }
  }

  // ----- Every open run can succeed -----

  /** The steps of ordinary work: attempts are claimed and finish, waits are resumed. */
  predicate Orderly(steps: seq<Step>) {
    forall i :: 0 <= i < |steps| ==> steps[i].Claim? || steps[i].Resume? || steps[i].Finish?
  }

  /** The rows of runs created before `r` are the same. */
  predicate SameOlder(runs: Runs, rank: map<int, nat>, r: int, after: Runs)
    requires Ranked(runs, rank) && r in runs
  {
    forall q :: q in runs && rank[q] < rank[r] ==> q in after && after[q] == runs[q]
  }

  lemma ExecuteMore(runs: Runs, steps: seq<Step>, step: Step)
    ensures Execute(runs, steps + [step]) == Next(Execute(runs, steps), step)
  {
    PrefixOfLonger(steps, step);
  }

  /** One more step of ordinary work. */
  lemma WorkOn(runs: Runs, rank: map<int, nat>, steps: seq<Step>, step: Step)
    requires Orderly(steps) && (step.Claim? || step.Resume? || step.Finish?)
    requires Inv(Execute(runs, steps)) && Ranked(Execute(runs, steps), rank)
    ensures Orderly(steps + [step])
    ensures var after := Execute(runs, steps + [step]);
            after == Next(Execute(runs, steps), step) && Inv(after) && Ranked(after, rank)
  {
    ExecuteMore(runs, steps, step);
    NextKeepsInv(Execute(runs, steps), step);
    var rank' := NextIsRanked(Execute(runs, steps), rank, step);
  }

  /** The end of a run concerns itself, its children, and the parent that waits on it. */
  lemma EndLeavesRow(runs: Runs, c: int, status: Status, resumeParent: bool, q: int)
    requires Base(runs) && c in runs && q in runs && q != c && runs[q].parent != Some(c)
    requires resumeParent ==> runs[c].parent != Some(q) || !WaitsOn(runs[q], c)
    ensures q in Ended(runs, c, status, resumeParent) && Ended(runs, c, status, resumeParent)[q] == runs[q]
  {
    var left := Left(runs, c, Settled(runs[c], status));
    EndedIsLeft(runs, c, status);
    assert left[q] == runs[q];
  }

  lemma FinishLeavesOlder(runs: Runs, rank: map<int, nat>, p: int, c: int)
    requires Base(runs) && Ranked(runs, rank) && p in runs && c in runs && runs[c].parent == Some(p)
    requires Enabled(runs, Finish(c))
    ensures SameOlder(runs, rank, p, Next(runs, Finish(c)))
  {
    var after := Next(runs, Finish(c));
    forall q | q in runs && rank[q] < rank[p] ensures q in after && after[q] == runs[q] {
      EndLeavesRow(runs, c, Succeeded, true, q);
    }
  }

  lemma ClaimRuns(runs: Runs, r: int)
    requires Enabled(runs, Claim(r))
    ensures var after := Next(runs, Claim(r));
            after == runs[r := after[r]] && after[r].status.Running? && after[r].captured.None?
  {}

  lemma ResumeQueues(runs: Runs, r: int)
    requires Enabled(runs, Resume(r))
    ensures var after := Next(runs, Resume(r));
            after == runs[r := after[r]] && Woken(runs[r].(resumptions := runs[r].resumptions + 1), after[r])
  {}

  lemma FinishQueues(runs: Runs, rank: map<int, nat>, p: int, c: int)
    requires Base(runs) && Ranked(runs, rank) && p in runs && c in runs && WaitsOn(runs[p], c)
    requires runs[c].status.Running?
    ensures var after := Next(runs, Finish(c));
            p in after && after[p].status.Queued? && SameOlder(runs, rank, p, after)
  {
    assert RunOk(runs, p);
    RankedHasNoCycle(runs, rank);
    EndWakesParent(runs, Finish(c), p);
    FinishLeavesOlder(runs, rank, p, c);
  }

  /** A child that is running finishes, and its waiting parent is claimed. */
  lemma FinishAndClaim(runs: Runs, rank: map<int, nat>, steps: seq<Step>, p: int, c: int) returns (more: seq<Step>)
    requires Orderly(steps) && Inv(Execute(runs, steps)) && Ranked(Execute(runs, steps), rank)
    requires var mid := Execute(runs, steps);
             p in mid && c in mid && WaitsOn(mid[p], c) && mid[c].status.Running?
    ensures Orderly(more)
    ensures var mid, after := Execute(runs, steps), Execute(runs, more);
            && Inv(after) && Ranked(after, rank) && p in after && after[p].status.Running?
            && SameOlder(mid, rank, p, after)
  {
    var mid := Execute(runs, steps);
    FinishQueues(mid, rank, p, c);
    WorkOn(runs, rank, steps, Finish(c));
    more := ClaimNext(runs, rank, steps + [Finish(c)], p);
  }

  lemma ClaimNext(runs: Runs, rank: map<int, nat>, steps: seq<Step>, p: int) returns (more: seq<Step>)
    requires Orderly(steps) && Inv(Execute(runs, steps)) && Ranked(Execute(runs, steps), rank)
    requires p in Execute(runs, steps) && Execute(runs, steps)[p].status.Queued?
    ensures Orderly(more)
    ensures var mid, after := Execute(runs, steps), Execute(runs, more);
            && Inv(after) && Ranked(after, rank) && p in after && after[p].status.Running?
            && after == mid[p := after[p]]
  {
    ClaimRuns(Execute(runs, steps), p);
    WorkOn(runs, rank, steps, Claim(p));
    more := steps + [Claim(p)];
  }

  /** From every sound state an open run gets to run by ordinary work alone, without touching
      the runs created before it. */
  lemma {:induction false} CanRun(runs: Runs, rank: map<int, nat>, r: int) returns (steps: seq<Step>)
    requires Inv(runs) && Ranked(runs, rank) && r in runs && !Terminal(runs[r].status)
    ensures Orderly(steps)
    ensures var after := Execute(runs, steps);
            && Inv(after) && Ranked(after, rank) && r in after && after[r].status.Running?
            && SameOlder(runs, rank, r, after)
    decreases |runs| - rank[r]
  {
    assert RunOk(runs, r);
    steps := [];
    match runs[r].status
    case Running =>
    case Queued =>
      ClaimRuns(runs, r);
      WorkOn(runs, rank, [], Claim(r));
      steps := [] + [Claim(r)];
    case AwaitingResult =>
      if runs[r].waitReason == Some(ChildRun) {
        var c := runs[r].waitReference.value;
        assert NotStranded(runs, r);
        var working := CanRun(runs, rank, c);
        steps := FinishAndClaim(runs, rank, working, r, c);
      } else {
        ResumeQueues(runs, r);
        WorkOn(runs, rank, [], Resume(r));
        ClaimRuns(Next(runs, Resume(r)), r);
        WorkOn(runs, rank, [] + [Resume(r)], Claim(r));
        steps := [] + [Resume(r)] + [Claim(r)];
      }
  }

  lemma {:induction false} ExecuteJoins(steps: seq<Step>, more: seq<Step>)
    ensures Execute(map[], steps + more) == Execute(Execute(map[], steps), more)
  {
    if more == [] {
      assert steps + more == steps;
    } else {
      ExecuteJoins(steps, more[..|more| - 1]);
      AddLast(steps, more);
      OneMore(steps + more[..|more| - 1], more[|more| - 1]);
    }
  }

  /** The protocol never gets stuck: after every run without silent cancellations, each open
      run can still succeed, by claims, resumptions and finishing attempts alone. */
  lemma EveryRunCanSucceed(steps: seq<Step>, r: int) returns (more: seq<Step>)
    requires forall i :: 0 <= i < |steps| ==> !Silent(steps[i])
    requires r in Execute(map[], steps) && !Terminal(Execute(map[], steps)[r].status)
    ensures Orderly(more)
    ensures var after := Execute(map[], steps + more); r in after && after[r].status.Succeeded?
  {
    var runs := Execute(map[], steps);
    ProtocolIsSafe(steps);
    var rank := RunIsRanked(steps);
    var working := CanRun(runs, rank, r);
    WorkOn(runs, rank, working, Finish(r));
    FinishSucceeds(Execute(runs, working), r);
    more := working + [Finish(r)];
    ExecuteJoins(steps, more);
  }

  lemma FinishSucceeds(runs: Runs, r: int)
    requires Base(runs) && Enabled(runs, Finish(r))
    ensures r in Next(runs, Finish(r)) && Next(runs, Finish(r))[r].status.Succeeded?
  {
    OwnEnd(runs, r, Succeeded, true);
  }

  // ----- Who changes a status -----

  /** A wait of `r` begins: on a child that has not ended, on a sandbox command, or on a
      recovery. */
  predicate Suspends(runs: Runs, step: Step, r: int) {
    && Enabled(runs, step)
    && ((step.WaitForChild? && step.run == r && runs[r].captured.value in runs
         && !Terminal(runs[runs[r].captured.value].status))
        || (step.WaitForSandbox? && step.run == r) || (step.WaitForRecovery? && step.run == r))
  }

  /** `r` becomes claimable: its wait is over, its attempt was interrupted, or its child ends. */
  predicate Queues(runs: Runs, step: Step, r: int)
    requires r in runs
  {
    && Enabled(runs, step)
    && (step == Resume(r) || step == Requeue(r)
        || (step == WaitForChild(r) && runs[r].captured.value in runs
            && Terminal(runs[runs[r].captured.value].status))
        || (EndsAndWakes(step) && WaitsOn(runs[r], step.run)))
  }

  predicate Ends(runs: Runs, step: Step, r: int) {
    Enabled(runs, step) && (step == Finish(r) || step == Fail(r) || step == Cancel(r, true) || step == Cancel(r, false))
  }

  /** What a step makes of the status of a run. */
  predicate StatusFollows(runs: Runs, step: Step, r: int, after: Status)
    requires r in runs
  {
    var before := runs[r].status;
    after == if step == Claim(r) && before.Queued? then Running
             else if Suspends(runs, step, r) then AwaitingResult
             else if Queues(runs, step, r) then Queued
             else if Ends(runs, step, r) then
               if step.Finish? then Succeeded else if step.Fail? then Errored else Canceled
             else before
  }

  lemma EndedStatus(runs: Runs, step: Step, r: int)
    requires Base(runs) && NoTwoCycle(runs) && r in runs && Enabled(runs, step)
    requires step.Finish? || step.Fail? || step.Cancel?
    ensures r in Next(runs, step) && StatusFollows(runs, step, r, Next(runs, step)[r].status)
  {
    var status := if step.Finish? then Succeeded else if step.Fail? then Errored else Canceled;
    if EndsAndWakes(step) && WaitsOn(runs[r], step.run) {
      assert RunOk(runs, r);
      EndWakesParent(runs, step, r);
    } else if r == step.run {
      OwnEnd(runs, r, status, EndsAndWakes(step));
    } else {
      EndKeepsStatus(runs, step.run, status, EndsAndWakes(step), r);
    }
  }

  lemma OwnEnd(runs: Runs, r: int, status: Status, resumeParent: bool)
    requires Base(runs) && r in runs
    ensures r in Ended(runs, r, status, resumeParent) && Ended(runs, r, status, resumeParent)[r].status == status
  {
    EndedIsLeft(runs, r, status);
    assert RunOk(runs, r);
  }

  lemma EndKeepsStatus(runs: Runs, c: int, status: Status, resumeParent: bool, q: int)
    requires Base(runs) && c in runs && q in runs && q != c && !(resumeParent && WaitsOn(runs[q], c))
    ensures q in Ended(runs, c, status, resumeParent)
    ensures Ended(runs, c, status, resumeParent)[q].status == runs[q].status
  {
    var left := Left(runs, c, Settled(runs[c], status));
    EndedIsLeft(runs, c, status);
    assert left[q] == runs[q].(disposition := left[q].disposition);
  }

  lemma WaitStatus(runs: Runs, p: int, r: int)
    requires Base(runs) && r in runs && Enabled(runs, WaitForChild(p))
    ensures var step, after := WaitForChild(p), Next(runs, WaitForChild(p));
            r in after && StatusFollows(runs, step, r, after[r].status)
  {
    WaitOrWake(runs, p);
    WaitIsDelivered(runs, p);
    assert RunOk(runs, p);
  }

  lemma OtherStatus(runs: Runs, step: Step, r: int)
    requires r in runs && !step.WaitForChild? && !step.Finish? && !step.Fail? && !step.Cancel?
    ensures r in Next(runs, step) && StatusFollows(runs, step, r, Next(runs, step)[r].status)
  {}

  /** After any run of the protocol, each step changes exactly the statuses it should: a claim
      alone makes a queued run run, only waits suspend one, only resumptions, interruptions
      and deliveries queue one, and only its own end makes it terminal. */
  lemma StatusesFollow(steps: seq<Step>, step: Step, r: int)
    requires r in Execute(map[], steps)
    ensures var runs, after := Execute(map[], steps), Execute(map[], steps + [step]);
            r in after && StatusFollows(runs, step, r, after[r].status)
  {
    var runs := Execute(map[], steps);
    RunKeepsBase(steps);
    OneMore(steps, step);
    var rank := RunIsRanked(steps);
    RankedHasNoCycle(runs, rank);
    if Enabled(runs, step) {
      match step
      case WaitForChild(p) => WaitStatus(runs, p, r);
      case Finish(_) => EndedStatus(runs, step, r);
      case Fail(_) => EndedStatus(runs, step, r);
      case Cancel(_, _) => EndedStatus(runs, step, r);
      case _ => OtherStatus(runs, step, r);
    }
  }

  /** A sandbox wait records its command and touches nothing else; a recovery wait records its
      reference and leaves no child undelivered. */
  lemma WaitsAreRecorded(runs: Runs, r: int, reference: int)
    requires Base(runs) && r in runs && runs[r].status.Running?
    ensures var after := Next(runs, WaitForSandbox(r, reference));
            after == runs[r := runs[r].(status := AwaitingResult, waitReason := Some(SandboxCommand),
                                        waitReference := Some(reference))]
    ensures var after := Next(runs, WaitForRecovery(r, reference));
            && r in after && after[r] == runs[r].(status := AwaitingResult, waitReason := Some(ToolRecovery),
                                                  waitReference := Some(reference))
            && forall c :: !IsUndelivered(after, r, c)
  {
    assert RunOk(runs, r);
  }

  /** Building the context of an attempt finds the undelivered child, if there is one. */
  lemma ContextHasChild(runs: Runs, r: int, c: int)
    requires Base(runs) && Enabled(runs, BuildContext(r)) && IsUndelivered(runs, r, c)
    ensures var after := Next(runs, BuildContext(r)); after == runs[r := runs[r].(captured := Some(c))]
  {
    assert c in Undelivered(runs, r);
    assert forall d :: d in Undelivered(runs, r) ==> d == c;
    assert Undelivered(runs, r) == {c};
  }
}
