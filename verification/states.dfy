/** The state objects the machine is built from: the two super-states
    (toplevel_states.hpp), the acting states that run work on entry
    (acting_state.hpp) and the wait states that leave only on a command
    (wait_state.hpp). Each is a record; a factory is a function returning one. */
module States {

  import opened Basics
  import opened Common

  /** An opaque handle for a bound `std::function<int()>`. */
  datatype WorkFn = WorkFn(id: nat)

  /** What kind of state object this is, with the fields only that kind has. */
  datatype Role =
    | SuperRole(command: TransitionCmd)
      /** `delayMs` is None when the constructor taking a work function leaves it unset. */
    | ActingRole(delayMs: Option<int>, work: Option<WorkFn>)
    | WaitRole(exitCmd: TransitionCmd)

  /** A `PackmlState`: its state value, its name and the super-state it is nested in. */
  datatype PackmlState = PackmlState(value: State, name: string, parent: Option<SuperState>, role: Role)

  const DefaultDelayMs: int := 200

  // ---- super-states (toplevel_states.hpp) ----

  function SuperStateObject(s: SuperState, command: TransitionCmd, parent: Option<SuperState>): PackmlState {
    PackmlState(Undefined, SuperStateName(s), parent, SuperRole(command))
  }

  function AbortableState(): PackmlState {
    SuperStateObject(Abortable, Abort, None)
  }

  function StoppableState(superstate: SuperState): PackmlState {
    SuperStateObject(Stoppable, Stop, Some(superstate))
  }

  /** ABORTABLE is a root carrying ABORT; STOPPABLE hangs below the scope it is
      given and carries STOP; both report UNDEFINED and are named after the super-state. */
  lemma SuperStateFactories(parent: SuperState)
    ensures AbortableState().parent == None && AbortableState().role == SuperRole(Abort)
    ensures StoppableState(parent).parent == Some(parent) && StoppableState(parent).role == SuperRole(Stop)
    ensures AbortableState().value == Undefined && StoppableState(parent).value == Undefined
    ensures AbortableState().name == "ABORTABLE" && StoppableState(parent).name == "STOPPABLE"
    ensures AbortableState().name != StoppableState(parent).name
  {
  }

  // ---- acting states (acting_state.hpp) ----

  /** The constructor that names the state after its value and records a delay. */
  function ActingState(value: State, parent: Option<SuperState>, delayMs: int): PackmlState {
    PackmlState(value, StateName(value), parent, ActingRole(Some(delayMs), None))
  }

  function ResettingState(stoppable: SuperState, delayMs: int := DefaultDelayMs): PackmlState {
    ActingState(Resetting, Some(stoppable), delayMs)
  }

  function StartingState(stoppable: SuperState, delayMs: int := DefaultDelayMs): PackmlState {
    ActingState(Starting, Some(stoppable), delayMs)
  }

  function UnholdingState(stoppable: SuperState, delayMs: int := DefaultDelayMs): PackmlState {
    ActingState(Unholding, Some(stoppable), delayMs)
  }

  function UnsuspendingState(stoppable: SuperState, delayMs: int := DefaultDelayMs): PackmlState {
    ActingState(Unsuspending, Some(stoppable), delayMs)
  }

  function HoldingState(stoppable: SuperState, delayMs: int := DefaultDelayMs): PackmlState {
    ActingState(Holding, Some(stoppable), delayMs)
  }

  function SuspendingState(stoppable: SuperState, delayMs: int := DefaultDelayMs): PackmlState {
    ActingState(Suspending, Some(stoppable), delayMs)
  }

  function ExecuteState(stoppable: SuperState, delayMs: int := DefaultDelayMs): PackmlState {
    ActingState(Execute, Some(stoppable), delayMs)
  }

  /** The EXECUTE factory that binds a work function; it leaves the delay unset. */
  function ExecuteStateWith(stoppable: SuperState, work: WorkFn): PackmlState {
    PackmlState(Execute, StateName(Execute), Some(stoppable), ActingRole(None, Some(work)))
  }

  function CompletingState(stoppable: SuperState, delayMs: int := DefaultDelayMs): PackmlState {
    ActingState(Completing, Some(stoppable), delayMs)
  }

  function AbortingState(delayMs: int := DefaultDelayMs): PackmlState {
    ActingState(Aborting, None, delayMs)
  }

  function ClearingState(abortable: SuperState, delayMs: int := DefaultDelayMs): PackmlState {
    ActingState(Clearing, Some(abortable), delayMs)
  }

  function StoppingState(abortable: SuperState, delayMs: int := DefaultDelayMs): PackmlState {
    ActingState(Stopping, Some(abortable), delayMs)
  }

  /** The eleven delay-taking acting factories, called with their default delay. */
  function DefaultActingStates(p: SuperState): seq<PackmlState> {
    [ ResettingState(p), StartingState(p), UnholdingState(p), UnsuspendingState(p),
      HoldingState(p), SuspendingState(p), ExecuteState(p), CompletingState(p),
      AbortingState(), ClearingState(p), StoppingState(p) ]
  }

  /** Every acting factory is named after its state, waits 200 ms by default and
      binds no work yet; only ABORTING is created without a parent. */
  lemma ActingFactoryDefaults(p: SuperState)
    ensures |DefaultActingStates(p)| == 11
    ensures forall i :: 0 <= i < 11 ==>
      && DefaultActingStates(p)[i].name == StateName(DefaultActingStates(p)[i].value)
      && DefaultActingStates(p)[i].role == ActingRole(Some(200), None)
      && (DefaultActingStates(p)[i].parent == None <==> DefaultActingStates(p)[i].value == Aborting)
      && (DefaultActingStates(p)[i].parent != None ==> DefaultActingStates(p)[i].parent == Some(p))
  {
    var xs := DefaultActingStates(p);
    forall i | 0 <= i < 11
      ensures xs[i].name == StateName(xs[i].value) && xs[i].role == ActingRole(Some(200), None)
      ensures xs[i].parent == None <==> xs[i].value == Aborting
      ensures xs[i].parent != None ==> xs[i].parent == Some(p)
    {
    }
  }

  /** `setOperationMethod`: rebinds the work of an acting state and reports success. */
  function SetOperationMethod(st: PackmlState, work: WorkFn): (r: (bool, PackmlState))
    requires st.role.ActingRole?
    ensures r.0
    ensures r.1.role.ActingRole? && r.1.role.work == Some(work)
    ensures r.1.role.delayMs == st.role.delayMs
    ensures r.1.value == st.value && r.1.name == st.name && r.1.parent == st.parent
  {
    (true, st.(role := st.role.(work := Some(work))))
  }

  // ---- wait states (wait_state.hpp) ----

  function WaitState(value: State, exitCmd: TransitionCmd, parent: Option<SuperState>): PackmlState {
    PackmlState(value, StateName(value), parent, WaitRole(exitCmd))
  }

  function IdleState(stoppable: SuperState): PackmlState {
    WaitState(Idle, Start, Some(stoppable))
  }

  function HeldState(stoppable: SuperState): PackmlState {
    WaitState(Held, Unhold, Some(stoppable))
  }

  function CompleteState(stoppable: SuperState): PackmlState {
    WaitState(Complete, Reset, Some(stoppable))
  }

  function SuspendedState(stoppable: SuperState): PackmlState {
    WaitState(Suspended, Unsuspend, Some(stoppable))
  }

  function StoppedState(abortable: SuperState): PackmlState {
    WaitState(Stopped, Reset, Some(abortable))
  }

  function AbortedState(): PackmlState {
    WaitState(Aborted, Clear, None)
  }

  /** The command each wait state waits for, as its factory records it. */
  function ExitCommandOf(st: PackmlState): Option<TransitionCmd> {
    if st.role.WaitRole? then Some(st.role.exitCmd) else None
  }

  /** The six wait factories record the exit commands IDLE-START, HELD-UNHOLD,
      COMPLETE-RESET, SUSPENDED-UNSUSPEND, STOPPED-RESET, ABORTED-CLEAR; ABORTED
      alone has no parent; each is named after its state. */
  lemma WaitFactories(p: SuperState)
    ensures ExitCommandOf(IdleState(p)) == Some(Start)
    ensures ExitCommandOf(HeldState(p)) == Some(Unhold)
    ensures ExitCommandOf(CompleteState(p)) == Some(Reset)
    ensures ExitCommandOf(SuspendedState(p)) == Some(Unsuspend)
    ensures ExitCommandOf(StoppedState(p)) == Some(Reset)
    ensures ExitCommandOf(AbortedState()) == Some(Clear)
    ensures AbortedState().parent == None
    ensures forall st :: st in [IdleState(p), HeldState(p), CompleteState(p), SuspendedState(p), StoppedState(p)] ==>
      st.parent == Some(p) && st.name == StateName(st.value)
  {
  }
}
