/**
 What a transition of the LightRAG lifecycle comes to: which attempts it makes, and which
 instance is current when it ends.
 */
module LightRagOutcomes {
  import opened Options
  import opened Sequences
  import opened LightRagLifecycle

  // ----- What a task has done -----

  /** What happened to a task since it began: whether it found an instance, and how the
      finalization, the initialization and the rollback it attempted went. Instances from
      `first` on are initialized after it entered. */
  datatype Record = Record(
    op: Operation, found: bool,
    finalized: Option<bool>, initialized: Option<bool>, rolledBack: Option<bool>, first: int)

  function Begun(op: Operation): Record {
    Record(op, false, None, None, None, 0)
  }

  /** The record after one step of the task in state `s`. */
  function Recorded(s: State, r: Record, step: Step): Record {
    match step
    case Begin(_, op) => Begun(op)
    case Enter(_) => r.(found := s.rag.Some?, first := s.nextInstance)
    case Drained(_) => r.(found := s.rag.Some?)
    case FinalizeEnds(_, ok) => r.(finalized := Some(ok))
    case InitializeEnds(_, ok) =>
      if r.initialized.None? && r.finalized != Some(false) then r.(initialized := Some(ok))
      else r.(rolledBack := Some(ok))
    case _ => r
  }

  /** What a run says about a task. */
  function RecordOf(steps: seq<Step>, t: int): Record {
    if steps == [] then Begun(Client)
    else
      var s, r, step := Run(INITIAL, steps[..|steps| - 1]), RecordOf(steps[..|steps| - 1], t), steps[|steps| - 1];
      if step.task == t && Enabled(s, step) then Recorded(s, r, step) else r
  }

  // ----- The outcome -----

  /** The transition has put a new instance in place. */
  predicate Replaced(r: Record) {
    match r.op
    case Start => r.initialized == Some(true)
    case Restart(_) => r.initialized == Some(true) || r.rolledBack == Some(true)
    case _ => false
  }

  /** The attempts that an operation makes: a start initializes if it found no instance; a stop
      finalizes the instance it found; a restart finalizes it and, unless that failed,
      initializes a new one, and if either failed it attempts the rollback it was given. */
  predicate Attempts(r: Record) {
    match r.op
    case Start => !r.found && r.finalized.None? && r.initialized.Some? && r.rolledBack.None?
    case Stop => (r.finalized.Some? <==> r.found) && r.initialized.None? && r.rolledBack.None?
    case Restart(rollback) =>
      && (r.finalized.Some? <==> r.found)
      && (r.initialized.Some? <==> r.finalized != Some(false))
      && (r.rolledBack.Some? <==> rollback && r.initialized != Some(true))
    case Client => false
  }

  /** An instance is current exactly if the transition put one in place, and then it is live
      and was initialized during the transition. */
  predicate Outcome(s: State, r: Record) {
    && Attempts(r)
    && (s.rag.Some? <==> Replaced(r))
    && (s.rag.Some? ==> s.rag.value >= r.first && s.live == {s.rag.value})
  }

  // ----- On the way -----

  /** Nothing is finalized or initialized yet. */
  predicate Fresh(r: Record) {
    r.finalized.None? && r.initialized.None? && r.rolledBack.None?
  }

  /** The instance that was found, if any, is finalized. */
  predicate Cleared(r: Record) {
    r.finalized == if r.found then Some(true) else None
  }

  predicate OnTheWay(s: State, r: Record, pc: Pc) {
    match pc
    case Waiting(op) => r.op == op && Fresh(r)
    case Draining(op) => r.op == op && (op.Stop? || op.Restart?) && Fresh(r) && r.first <= s.nextInstance
    case Finalizing(op) =>
      r.op == op && (op.Stop? || op.Restart?) && r.found && Fresh(r) && r.first <= s.nextInstance
    case Initializing(op) =>
      && r.op == op && (op.Start? || op.Restart?) && (op.Start? ==> !r.found) && Cleared(r)
      && r.initialized.None? && r.rolledBack.None? && r.first <= s.nextInstance
    case RollingBack =>
      && r.op == Restart(true) && r.rolledBack.None? && r.first <= s.nextInstance
      && ((r.found && r.finalized == Some(false) && r.initialized.None?)
          || (Cleared(r) && r.initialized == Some(false)))
    case Publishing(i) => Attempts(r) && Replaced(r) && r.first <= i
    case Closing => Outcome(s, r)
    case _ => true
  }

  /** Steps of other tasks leave alone what a task in transition relies on. */
  lemma OthersLeaveIt(s: State, step: Step, t: int)
    requires Inv(s) && InTransition(PcOf(s, t)) && step.task != t
    ensures var s' := Next(s, step);
            && PcOf(s', t) == PcOf(s, t) && s'.rag == s.rag && s'.live == s.live && s'.nextInstance == s.nextInstance
  {
    assert t in s.tasks;
    if step.task in s.tasks { assert !InTransition(s.tasks[step.task]); }
  }

  lemma OthersLeavePc(s: State, step: Step, t: int)
    requires step.task != t
    ensures PcOf(Next(s, step), t) == PcOf(s, t)
  {}

  lemma OwnEntry(s: State, r: Record, t: int, step: Step)
    requires Inv(s) && OnTheWay(s, r, PcOf(s, t)) && Enabled(s, step) && step.task == t
    requires step.Begin? || step.CancelWait? || step.Enter? || step.Drained? || step.CancelDrain? || step.FinalizeEnds?
    ensures OnTheWay(Next(s, step), Recorded(s, r, step), PcOf(Next(s, step), t))
  {}

  lemma OwnInitialization(s: State, r: Record, t: int, ok: bool)
    requires Inv(s) && OnTheWay(s, r, PcOf(s, t)) && Enabled(s, InitializeEnds(t, ok))
    ensures var step := InitializeEnds(t, ok); OnTheWay(Next(s, step), Recorded(s, r, step), PcOf(Next(s, step), t))
  {
    assert t in s.tasks && HoldsInstance(s.tasks[t]);
  }

  lemma OwnEnd(s: State, r: Record, t: int, step: Step)
    requires Inv(s) && OnTheWay(s, r, PcOf(s, t)) && Enabled(s, step) && step.task == t
    requires step.Publish? || step.Close? || step.Release? || step.Park?
    ensures OnTheWay(Next(s, step), Recorded(s, r, step), PcOf(Next(s, step), t))
  {
    if step.Publish? { assert t in s.tasks && HoldsInstance(s.tasks[t]); }
  }

  lemma StepOnTheWay(s: State, r: Record, t: int, step: Step)
    requires Inv(s) && OnTheWay(s, r, PcOf(s, t))
    ensures var r' := if step.task == t && Enabled(s, step) then Recorded(s, r, step) else r;
            OnTheWay(Next(s, step), r', PcOf(Next(s, step), t))
  {
    if Enabled(s, step) {
      if step.task != t {
        OthersLeavePc(s, step, t);
        if InTransition(PcOf(s, t)) { OthersLeaveIt(s, step, t); }
      } else if step.InitializeEnds? {
        OwnInitialization(s, r, t, step.ok);
      } else if step.Publish? || step.Close? || step.Release? || step.Park? {
        OwnEnd(s, r, t, step);
      } else {
        OwnEntry(s, r, t, step);
      }
    }
  }

  lemma {:induction false} RunOnTheWay(steps: seq<Step>, t: int)
    ensures OnTheWay(Run(INITIAL, steps), RecordOf(steps, t), PcOf(Run(INITIAL, steps), t))
  {
    if steps != [] {
      var before := steps[..|steps| - 1];
      RunOnTheWay(before, t);
      RunKeepsInv(before);
      StepOnTheWay(Run(INITIAL, before), RecordOf(before, t), t, steps[|steps| - 1]);
    }
  }

  // ----- Theorems -----

  /** In every interleaving, a start, stop or restart that ends has made exactly the attempts
      it should; an instance is then current if and only if its initialization or its rollback
      succeeded, it was initialized during this transition, and the flag is clear. */
  lemma TransitionOutcome(steps: seq<Step>, t: int)
    requires Enabled(Run(INITIAL, steps), Close(t))
    ensures var s := Run(INITIAL, steps + [Close(t)]);
            && Outcome(s, RecordOf(steps, t)) && !s.transitioning && PcOf(s, t).Done?
            && s.rag == Run(INITIAL, steps).rag
  {
    RunOnTheWay(steps, t);
    PrefixOfLonger(steps, Close(t));
  }

  /** How many steps at most a task in transition still has to make. */
  function StepsLeft(pc: Pc): nat {
    match pc
    case Draining(_) => 6
    case Finalizing(_) => 5
    case Initializing(_) => 4
    case RollingBack => 3
    case Publishing(_) => 2
    case Closing => 1
    case _ => 0
  }

  /** A transition ends: each step of its task brings it closer to its end, no step of another
      task moves it. */
  lemma TransitionEnds(steps: seq<Step>, step: Step, t: int)
    requires var s := Run(INITIAL, steps); InTransition(PcOf(s, t)) && Enabled(s, step) && !step.Park?
    ensures var s, s' := Run(INITIAL, steps), Run(INITIAL, steps + [step]);
            if step.task == t then StepsLeft(PcOf(s', t)) < StepsLeft(PcOf(s, t)) else PcOf(s', t) == PcOf(s, t)
  {
    PrefixOfLonger(steps, step);
  }

  /** A start that finds no instance claims the transition and initializes; a stop or a restart
      claims it and drains. */
  lemma EntryClaims(s: State, t: int)
    requires Enabled(s, Enter(t)) && !PcOf(s, t).op.Client?
    ensures var op, s' := PcOf(s, t).op, Next(s, Enter(t));
            if op.Start? then s.rag.None? ==> PcOf(s', t) == Initializing(Start) && s'.transitioning
            else PcOf(s', t) == Draining(op) && s'.transitioning
    ensures Next(s, Enter(t)).rag == s.rag && Next(s, Enter(t)).live == s.live
  {}

  /** A task that finds its condition false sleeps and cannot go on before it is notified; one
      that gives up its wait is gone. */
  lemma SleepersSleep(s: State, t: int)
    ensures Enabled(s, Park(t)) ==>
              var s' := Next(s, Park(t));
              s' == s.(parked := s.parked + {t}) && !Enabled(s', Enter(t)) && !Enabled(s', Drained(t))
    ensures Enabled(s, CancelWait(t)) ==>
              var s' := Next(s, CancelWait(t));
              PcOf(s', t).Done? && t !in s'.parked && s'.rag == s.rag && s'.transitioning == s.transitioning
  {}

  /** A drain that is canceled, and a start that finds an instance, leave everything in place. */
  lemma NothingHappens(s: State, t: int)
    ensures Enabled(s, CancelDrain(t)) ==>
              var s' := Next(s, CancelDrain(t));
              s'.rag == s.rag && s'.live == s.live && s'.active == s.active && !s'.transitioning && PcOf(s', t).Done?
    ensures Enabled(s, Enter(t)) && PcOf(s, t).op.Start? && s.rag.Some? ==>
              Next(s, Enter(t)) == s.(tasks := s.tasks[t := Done])
  {}

  /** A client enters with the current instance, or with the error when there is none; its
      entry and its exit count. */
  lemma ClientsCount(s: State, t: int)
    requires Enabled(s, Enter(t)) && PcOf(s, t).op.Client?
    ensures var s' := Next(s, Enter(t));
            && s'.rag == s.rag && s'.transitioning == s.transitioning
            && if s.rag.Some? then PcOf(s', t) == Using(s.rag.value) && s'.active == s.active + 1
               else PcOf(s', t).Done? && s'.active == s.active
  {}
}
