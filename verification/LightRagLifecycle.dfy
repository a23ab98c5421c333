/**
 The LightRAG lifecycle: clients share one instance, and start, stop and restart replace
 it exclusively. Tasks interleave at their awaits; a critical section is one step.
 */
module LightRagLifecycle {
  import opened Options

  datatype Operation = Start | Stop | Restart(rollback: bool) | Client

  /** Where a task stands. Everything between `Draining` and `Closing` runs with the
      transition flag set. */
  datatype Pc =
    | Waiting(op: Operation)        // for the transition flag to clear
    | Draining(op: Operation)       // for the active operations to end
    | Finalizing(op: Operation)     // the instance it took is being finalized
    | Initializing(op: Operation)   // a new instance is being initialized
    | RollingBack                   // the rollback instance is being initialized
    | Publishing(instance: int)     // initialized, not yet visible
    | Closing                       // about to clear the flag
    | Using(instance: int)          // a client inside its block
    | Done

  /** `parked` are the tasks that sleep in the condition variable: they found their condition
      false and were not notified since. */
  datatype State = State(
    rag: Option<int>, active: int, transitioning: bool,
    tasks: map<int, Pc>, parked: set<int>,
    live: set<int>,                 // initialized, finalization not begun
    nextInstance: int)

  const INITIAL := State(None, 0, false, map[], {}, {}, 0)

  datatype Step =
    | Begin(task: int, op: Operation)
    | Park(task: int)                 // the condition is false: sleep until notified
    | CancelWait(task: int)           // cancelled while it waits for the flag
    | Enter(task: int)
    | Drained(task: int)
    | CancelDrain(task: int)
    | FinalizeEnds(task: int, ok: bool)
    | InitializeEnds(task: int, ok: bool)
    | Publish(task: int)
    | Close(task: int)
    | Release(task: int)

  function PcOf(s: State, task: int): Pc {
    if task in s.tasks then s.tasks[task] else Done
  }

  /** A task in one of the two waits. */
  predicate InWait(s: State, task: int) {
    PcOf(s, task).Waiting? || PcOf(s, task).Draining?
  }

  /** The condition of the wait it is in. */
  predicate MayProceed(s: State, task: int) {
    if PcOf(s, task).Waiting? then !s.transitioning else s.active == 0
  }

  predicate Enabled(s: State, step: Step) {
    match step
    case Begin(t, _) => PcOf(s, t).Done?
    case Park(t) => InWait(s, t) && t !in s.parked && !MayProceed(s, t)
    case CancelWait(t) => PcOf(s, t).Waiting?
    case Enter(t) => PcOf(s, t).Waiting? && t !in s.parked && MayProceed(s, t)
    case Drained(t) => PcOf(s, t).Draining? && t !in s.parked && MayProceed(s, t)
    case CancelDrain(t) => PcOf(s, t).Draining?
    case FinalizeEnds(t, _) => PcOf(s, t).Finalizing?
    case InitializeEnds(t, _) => PcOf(s, t).Initializing? || PcOf(s, t).RollingBack?
    case Publish(t) => PcOf(s, t).Publishing?
    case Close(t) => PcOf(s, t).Closing?
    case Release(t) => PcOf(s, t).Using?
  }

  function Move(s: State, task: int, pc: Pc): State {
    s.(tasks := s.tasks[task := pc])
  }

  /** `notify_all`. */
  function Notified(s: State): State {
    s.(parked := {})
  }

  function Entered(s: State, t: int, op: Operation): State {
    match op
    case Start =>
      if s.rag.Some? then Move(s, t, Done) else Move(s, t, Initializing(op)).(transitioning := true)
    case Client =>
      if s.rag.None? then Move(s, t, Done) else Move(s, t, Using(s.rag.value)).(active := s.active + 1)
    case _ => Move(s, t, Draining(op)).(transitioning := true)
  }

  /** Taking the instance away begins its finalization. */
  function Taken(s: State, t: int, op: Operation): State {
    if s.rag.Some? then Move(s, t, Finalizing(op)).(rag := None, live := s.live - {s.rag.value})
    else Move(s, t, if op.Stop? then Closing else Initializing(op))
  }

  /** After a failed finalize or initialize. */
  function Failed(op: Operation): Pc {
    if op.Restart? && op.rollback then RollingBack else Closing
  }

  function Next(s: State, step: Step): State {
    if !Enabled(s, step) then s
    else
      match step
      case Begin(t, op) => Move(s, t, Waiting(op))
      case Park(t) => s.(parked := s.parked + {t})
      case CancelWait(t) => Move(s, t, Done).(parked := s.parked - {t})
      case Enter(t) => Entered(s, t, PcOf(s, t).op)
      case Drained(t) => Taken(s, t, PcOf(s, t).op)
      case CancelDrain(t) => Notified(Move(s, t, Done).(transitioning := false))
      case FinalizeEnds(t, ok) =>
        var op := PcOf(s, t).op;
        Move(s, t, if op.Stop? then Closing else if ok then Initializing(op) else Failed(op))
      case InitializeEnds(t, ok) =>
        if ok then
          Move(s, t, Publishing(s.nextInstance)).(live := s.live + {s.nextInstance}, nextInstance := s.nextInstance + 1)
        else Move(s, t, if PcOf(s, t).RollingBack? then Closing else Failed(PcOf(s, t).op))
      case Publish(t) => Move(s, t, Closing).(rag := Some(PcOf(s, t).instance))
      case Close(t) => Notified(Move(s, t, Done).(transitioning := false))
      case Release(t) =>
        var left := Move(s, t, Done).(active := s.active - 1);
        if left.active == 0 then Notified(left) else left
  }

  function Run(s: State, steps: seq<Step>): State {
    if steps == [] then s else Next(Run(s, steps[..|steps| - 1]), steps[|steps| - 1])
  }

  // ----- Invariant -----

  predicate InTransition(pc: Pc) {
    pc.Draining? || HoldsInstance(pc) || pc.Closing?
  }

  /** The phases in which no instance is current. */
  predicate HoldsInstance(pc: Pc) {
    pc.Finalizing? || pc.Initializing? || pc.RollingBack? || pc.Publishing?
  }

  function Users(tasks: map<int, Pc>): set<int> {
    set t | t in tasks && tasks[t].Using?
  }

  predicate Exclusive(s: State) {
    forall t, u :: t in s.tasks && u in s.tasks && InTransition(s.tasks[t]) && InTransition(s.tasks[u]) ==> t == u
  }

  predicate FlagOk(s: State) {
    s.transitioning <==> exists t :: t in s.tasks && InTransition(s.tasks[t])
  }

  predicate ClientsOk(s: State) {
    && s.active == |Users(s.tasks)|
    && forall t :: t in s.tasks && s.tasks[t].Using? ==> s.rag == Some(s.tasks[t].instance)
  }

  predicate LiveOk(s: State) {
    && (forall i :: i in s.live ==> i < s.nextInstance)
    && (s.rag.Some? ==> s.live == {s.rag.value})
    && (forall t :: t in s.tasks && HoldsInstance(s.tasks[t]) ==>
          s.rag.None? && s.live == if s.tasks[t].Publishing? then {s.tasks[t].instance} else {})
    && (s.rag.None? && (forall t :: t in s.tasks ==> !HoldsInstance(s.tasks[t])) ==> s.live == {})
    && (forall t :: t in s.tasks && (s.tasks[t].Draining? || s.tasks[t].Finalizing? || s.tasks[t].Initializing?)
          ==> !s.tasks[t].op.Client?)
  }

  /** Whoever sleeps waits for something that has not happened yet. */
  predicate ParkedOk(s: State) {
    forall t :: t in s.parked ==> InWait(s, t) && !MayProceed(s, t)
  }

  predicate Inv(s: State) {
    Exclusive(s) && FlagOk(s) && ClientsOk(s) && LiveOk(s) && ParkedOk(s)
  }

  lemma UsersMove(tasks: map<int, Pc>, t: int, pc: Pc)
    ensures Users(tasks[t := pc]) == if pc.Using? then Users(tasks) + {t} else Users(tasks) - {t}
  {}

  lemma ClientsMove(s: State, t: int, pc: Pc)
    requires ClientsOk(s)
    ensures |Users(s.tasks[t := pc])| == s.active
            + (if pc.Using? && t !in Users(s.tasks) then 1 else 0)
            - (if !pc.Using? && t in Users(s.tasks) then 1 else 0)
  {
    UsersMove(s.tasks, t, pc);
    var users := Users(s.tasks);
    assert t in users ==> |users - {t}| == |users| - 1;
    assert t in users ==> users + {t} == users;
    assert t !in users ==> users - {t} == users;
  }

  /** Nobody sleeps while the flag is clear. */
  lemma NobodyParked(s: State)
    requires FlagOk(s) && ParkedOk(s) && !s.transitioning
    ensures s.parked == {}
  {
    forall t ensures t !in s.parked {
      if t in s.parked && PcOf(s, t).Draining? { assert t in s.tasks && InTransition(s.tasks[t]); }
    }
  }

  lemma EnterKeepsInv(s: State, t: int)
    requires Inv(s) && Enabled(s, Enter(t))
    ensures Inv(Next(s, Enter(t)))
  {
    NobodyParked(s);
    var s' := Next(s, Enter(t));
    ClientsMove(s, t, s'.tasks[t]);
    assert t in s'.tasks;
    if InTransition(s'.tasks[t]) { assert s'.transitioning; }
  }

  lemma DrainedKeepsInv(s: State, t: int)
    requires Inv(s) && Enabled(s, Drained(t))
    ensures Inv(Next(s, Drained(t)))
  {
    var s' := Next(s, Drained(t));
    assert Users(s.tasks) == {};
    ClientsMove(s, t, s'.tasks[t]);
    assert t in s'.tasks && InTransition(s'.tasks[t]);
    forall u | u in s'.tasks ensures !s'.tasks[u].Using? { assert u !in Users(s.tasks); }
  }

  /** Steps that move a task within its transition. */
  lemma PhaseKeepsInv(s: State, step: Step)
    requires Inv(s) && Enabled(s, step) && (step.FinalizeEnds? || step.InitializeEnds? || step.Publish?)
    ensures Inv(Next(s, step))
  {
    var s', t := Next(s, step), step.task;
    ClientsMove(s, t, s'.tasks[t]);
    assert t in s.tasks && InTransition(s.tasks[t]);
    forall u | u in s'.tasks && u != t ensures !InTransition(s'.tasks[u]) {}
    assert t in s'.tasks && InTransition(s'.tasks[t]);
  }

  /** Steps that clear the flag and notify. */
  lemma EndKeepsInv(s: State, step: Step)
    requires Inv(s) && Enabled(s, step) && (step.CancelDrain? || step.Close?)
    ensures Inv(Next(s, step))
  {
    var s', t := Next(s, step), step.task;
    ClientsMove(s, t, s'.tasks[t]);
    assert t in s.tasks && InTransition(s.tasks[t]);
    forall u | u in s'.tasks && u != t ensures !InTransition(s'.tasks[u]) {}
  }

  lemma BeginKeepsInv(s: State, step: Step)
    requires Inv(s) && Enabled(s, step) && (step.Begin? || step.CancelWait?)
    ensures Inv(Next(s, step))
  {
    var s', t := Next(s, step), step.task;
    ClientsMove(s, t, s'.tasks[t]);
    StillInTransition(s, t, s'.tasks);
  }

  lemma ReleaseKeepsInv(s: State, t: int)
    requires Inv(s) && Enabled(s, Release(t))
    ensures Inv(Next(s, Release(t)))
  {
    var s' := Next(s, Release(t));
    ClientsMove(s, t, s'.tasks[t]);
    assert t in Users(s.tasks);
    StillInTransition(s, t, s'.tasks);
  }

  lemma StillInTransition(s: State, t: int, tasks: map<int, Pc>)
    requires FlagOk(s) && !InTransition(PcOf(s, t))
    requires t in tasks && tasks == s.tasks[t := tasks[t]]
    ensures s.transitioning ==> exists u :: u in tasks && InTransition(tasks[u])
  {
    if s.transitioning {
      var u :| u in s.tasks && InTransition(s.tasks[u]);
      assert u in tasks && InTransition(tasks[u]);
    }
  }

  lemma NextKeepsInv(s: State, step: Step)
    requires Inv(s)
    ensures Inv(Next(s, step))
  {
    if Enabled(s, step) {
      match step
      case Begin(_, _) => BeginKeepsInv(s, step);
      case CancelWait(_) => BeginKeepsInv(s, step);
      case Enter(t) => EnterKeepsInv(s, t);
      case Drained(t) => DrainedKeepsInv(s, t);
      case Release(t) => ReleaseKeepsInv(s, t);
      case Park(_) =>
      case CancelDrain(_) => EndKeepsInv(s, step);
      case Close(_) => EndKeepsInv(s, step);
      case _ => PhaseKeepsInv(s, step);
    }
  }

  lemma {:induction false} RunKeepsInv(steps: seq<Step>)
    ensures Inv(Run(INITIAL, steps))
  {
    if steps != [] {
      RunKeepsInv(steps[..|steps| - 1]);
      NextKeepsInv(Run(INITIAL, steps[..|steps| - 1]), steps[|steps| - 1]);
    }
  }

  // ----- Safety -----

  /** One task in transition, one live instance, and every client's instance is current
      and not being finalized. */
  predicate Safe(s: State) {
    && Exclusive(s)
    && (forall i, j :: i in s.live && j in s.live ==> i == j)
    && (forall t :: t in s.tasks && s.tasks[t].Using? ==>
          s.rag == Some(s.tasks[t].instance) && s.tasks[t].instance in s.live)
  }

  /** Every state of every interleaving is safe. A client keeps one instance throughout its
      block, so that instance stays current and un-finalized until the client leaves. */
  lemma LifecycleIsSafe(steps: seq<Step>, step: Step, client: int)
    ensures var s := Run(INITIAL, steps);
            && Safe(s)
            && (PcOf(s, client).Using? ==>
                  PcOf(Next(s, step), client) == PcOf(s, client) || step == Release(client))
  {
    RunKeepsInv(steps);
    var s := Run(INITIAL, steps);
    forall i, j | i in s.live && j in s.live ensures i == j {
      if s.rag.None? {
        var t :| t in s.tasks && HoldsInstance(s.tasks[t]);
      }
    }
  }

  lemma SomeMember<T>(members: set<T>) returns (member: T)
    requires members != {}
    ensures member in members
  {
    member :| member in members;
  }

  /** A transition is never stuck: its owner can move, or it drains and a client can leave. */
  lemma TransitionCanMove(steps: seq<Step>)
    requires Run(INITIAL, steps).transitioning
    ensures var s := Run(INITIAL, steps);
            exists step :: Enabled(s, step) && !step.Begin? && !step.CancelDrain? && !step.Park?
                           && (step.Release? || InTransition(PcOf(s, step.task)))
  {
    RunKeepsInv(steps);
    var s := Run(INITIAL, steps);
    var t :| t in s.tasks && InTransition(s.tasks[t]);
    match s.tasks[t]
    case Draining(_) =>
      if s.active == 0 { assert Enabled(s, Drained(t)); }
      else {
        var u := SomeMember(Users(s.tasks));
        assert Enabled(s, Release(u));
      }
    case Finalizing(_) => assert Enabled(s, FinalizeEnds(t, true));
    case Initializing(_) => assert Enabled(s, InitializeEnds(t, true));
    case RollingBack => assert Enabled(s, InitializeEnds(t, true));
    case Publishing(_) => assert Enabled(s, Publish(t));
    case Closing => assert Enabled(s, Close(t));
  }

  /** No notification is lost: in every interleaving a task whose condition holds is awake
      and can go on at once. */
  lemma NoLostNotification(steps: seq<Step>, task: int)
    requires var s := Run(INITIAL, steps); InWait(s, task) && MayProceed(s, task)
    ensures var s := Run(INITIAL, steps);
            task !in s.parked && (Enabled(s, Enter(task)) || Enabled(s, Drained(task)))
  {
    RunKeepsInv(steps);
  }

  // ----- The module globals -----

  /** The critical sections over `_rag`, `_rag_active_operations` and `_rag_transitioning`;
      `waiters` is the queue of the condition variable, the ghost fields record the tasks. */
  class LightRagRuntime {
    var rag: Option<int>
    var activeOperations: int
    var transitioning: bool
    var waiters: set<int>
    ghost var tasks: map<int, Pc>
    ghost var live: set<int>
    ghost var nextInstance: int

    ghost function Value(): State
      reads this
    {
      State(rag, activeOperations, transitioning, tasks, waiters, live, nextInstance)
    }

    constructor ()
      ensures Value() == INITIAL
    {
      rag, activeOperations, transitioning, waiters := None, 0, false, {};
      tasks, live, nextInstance := map[], {}, 0;
    }

    /** One round of `wait_for(not _rag_transitioning)`: a task that finds the flag set sleeps. */
    method WaitForFlag(task: int) returns (proceed: bool)
      requires Inv(Value()) && PcOf(Value(), task).Waiting? && task !in waiters
      modifies this
      ensures proceed == MayProceed(old(Value()), task)
      ensures Value() == if proceed then old(Value()) else Next(old(Value()), Park(task))
      ensures Inv(Value())
    {
      NextKeepsInv(Value(), Park(task));
      proceed := !transitioning;
      if !proceed {
        waiters := waiters + {task};
      }
    }

    /** One round of `wait_for(_rag_active_operations == 0)`. */
    method WaitForDrain(task: int) returns (proceed: bool)
      requires Inv(Value()) && PcOf(Value(), task).Draining? && task !in waiters
      modifies this
      ensures proceed == MayProceed(old(Value()), task)
      ensures Value() == if proceed then old(Value()) else Next(old(Value()), Park(task))
      ensures Inv(Value())
    {
      NextKeepsInv(Value(), Park(task));
      proceed := activeOperations == 0;
      if !proceed {
        waiters := waiters + {task};
      }
    }

    /** `start_lightrag`, first section: false when an instance already runs. */
    method EnterStart(task: int) returns (initialize: bool)
      requires Inv(Value()) && PcOf(Value(), task) == Waiting(Start) && !transitioning
      modifies this
      ensures Value() == Next(old(Value()), Enter(task)) && Inv(Value())
      ensures initialize == old(rag).None?
    {
      NextKeepsInv(Value(), Enter(task));
      initialize := rag.None?;
      if initialize {
        transitioning := true;
      }
      tasks := tasks[task := if initialize then Initializing(Start) else Done];
    }

    /** `stop_lightrag` and `restart_lightrag`: claim the transition, then drain. */
    method EnterTransition(task: int, ghost op: Operation)
      requires Inv(Value()) && PcOf(Value(), task) == Waiting(op) && !transitioning && (op.Stop? || op.Restart?)
      modifies this
      ensures Value() == Next(old(Value()), Enter(task)) && Inv(Value())
    {
      NextKeepsInv(Value(), Enter(task));
      transitioning := true;
      tasks := tasks[task := Draining(op)];
    }

    /** Drained: `previous, _rag = _rag, None`. */
    method TakeInstance(task: int) returns (previous: Option<int>)
      requires Inv(Value()) && PcOf(Value(), task).Draining? && activeOperations == 0
      modifies this
      ensures Value() == Next(old(Value()), Drained(task)) && Inv(Value())
      ensures previous == old(rag) && rag == None
      ensures previous.Some? ==> previous.value !in live
    {
      NextKeepsInv(Value(), Drained(task));
      previous, rag := rag, None;
      ghost var op := tasks[task].op;
      if previous.Some? {
        live := live - {previous.value};
        tasks := tasks[task := Finalizing(op)];
      } else {
        tasks := tasks[task := if op.Stop? then Closing else Initializing(op)];
      }
    }

    /** The drain wait was cancelled. */
    method AbandonDrain(task: int)
      requires Inv(Value()) && PcOf(Value(), task).Draining?
      modifies this
      ensures Value() == Next(old(Value()), CancelDrain(task)) && Inv(Value())
    {
      NextKeepsInv(Value(), CancelDrain(task));
      transitioning, waiters := false, {};
      tasks := tasks[task := Done];
    }

    /** `_rag = rag` (or the replacement, or the rollback instance). */
    method PublishInstance(task: int, instance: int)
      requires Inv(Value()) && PcOf(Value(), task) == Publishing(instance)
      modifies this
      ensures Value() == Next(old(Value()), Publish(task)) && Inv(Value())
      ensures old(rag) == None && rag == Some(instance)
    {
      NextKeepsInv(Value(), Publish(task));
      rag := Some(instance);
      tasks := tasks[task := Closing];
    }

    /** The `finally` block of a transition. */
    method EndTransition(task: int)
      requires Inv(Value()) && PcOf(Value(), task).Closing?
      modifies this
      ensures Value() == Next(old(Value()), Close(task)) && Inv(Value())
    {
      NextKeepsInv(Value(), Close(task));
      transitioning, waiters := false, {};
      tasks := tasks[task := Done];
    }

    /** `lightrag_client`, entry: `None` is the "not initialized" error. */
    method EnterClient(task: int) returns (instance: Option<int>)
      requires Inv(Value()) && PcOf(Value(), task) == Waiting(Client) && !transitioning
      modifies this
      ensures Value() == Next(old(Value()), Enter(task)) && Inv(Value())
      ensures instance == rag == old(rag)
    {
      NextKeepsInv(Value(), Enter(task));
      instance := rag;
      if instance.None? {
        tasks := tasks[task := Done];
        return;
      }
      activeOperations := activeOperations + 1;
      tasks := tasks[task := Using(instance.value)];
    }

    method LeaveClient(task: int)
      requires Inv(Value()) && PcOf(Value(), task).Using?
      modifies this
      ensures Value() == Next(old(Value()), Release(task)) && Inv(Value())
    {
      NextKeepsInv(Value(), Release(task));
      activeOperations := activeOperations - 1;
      if activeOperations == 0 {
        waiters := {};
      }
      tasks := tasks[task := Done];
    }
  }
}
