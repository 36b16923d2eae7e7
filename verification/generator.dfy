/** The states generator (states_generator.hpp): the fixed wiring of the PackML
    graph, the label chosen for a generated command edge, the registry of
    states by name and the mode switcher that installs "Available" masks. */
module Generator {

  import opened Basics
  import opened Common
  import opened States
  import opened Transitions

  // ---- the generated state objects ----

  /** The object `generate_all_packml_states` creates for each machine state,
      with ABORTABLE and STOPPABLE (nested in ABORTABLE) as the super-states. */
  function GeneratedState(s: State): Option<PackmlState> {
    match s
    case Undefined => None
    case Aborting => Some(AbortingState())
    case Aborted => Some(AbortedState())
    case Clearing => Some(ClearingState(Abortable))
    case Stopping => Some(StoppingState(Abortable))
    case Stopped => Some(StoppedState(Abortable))
    case Resetting => Some(ResettingState(Stoppable))
    case Idle => Some(IdleState(Stoppable))
    case Starting => Some(StartingState(Stoppable))
    case Execute => Some(ExecuteState(Stoppable))
    case Holding => Some(HoldingState(Stoppable))
    case Held => Some(HeldState(Stoppable))
    case Unholding => Some(UnholdingState(Stoppable))
    case Suspending => Some(SuspendingState(Stoppable))
    case Suspended => Some(SuspendedState(Stoppable))
    case Unsuspending => Some(UnsuspendingState(Stoppable))
    case Completing => Some(CompletingState(Stoppable))
    case Complete => Some(CompleteState(Stoppable))
  }

  /** The super-state a machine state is nested in, as its factory set it. */
  function Parent(s: State): Option<SuperState> {
    match GeneratedState(s)
    case Some(st) => st.parent
    case None => None
  }

  /** The super-state a super-state is nested in: STOPPABLE sits in ABORTABLE. */
  function SuperParent(p: SuperState): Option<SuperState> {
    match p
    case Abortable => AbortableState().parent
    case Stoppable => StoppableState(Abortable).parent
  }

  /** Every machine state but UNDEFINED gets an object of that state, named after it. */
  lemma GeneratedStatesMatch(s: State)
    ensures GeneratedState(s).Some? <==> s != Undefined
    ensures GeneratedState(s).Some? ==>
      GeneratedState(s).value.value == s && GeneratedState(s).value.name == StateName(s)
  {
  }

  /** Containment: ABORTING and ABORTED are top-level; CLEARING, STOPPING and
      STOPPED sit directly in ABORTABLE; the other twelve in STOPPABLE, which
      sits in ABORTABLE. */
  lemma Containment(s: State)
    ensures Parent(s) == None <==> s in {Undefined, Aborting, Aborted}
    ensures Parent(s) == Some(Abortable) <==> s in {Clearing, Stopping, Stopped}
    ensures Parent(s) == Some(Stoppable) <==>
      s in {Resetting, Idle, Starting, Execute, Holding, Held, Unholding,
            Suspending, Suspended, Unsuspending, Completing, Complete}
    ensures SuperParent(Stoppable) == Some(Abortable) && SuperParent(Abortable) == None
  {
  }

  /** The initial sub-state entered when a super-state itself is targeted. */
  function InitialSubstate(p: SuperState): State {
    match p
    case Abortable => Clearing
    case Stoppable => Resetting
  }

  /** Each super-state's initial sub-state is one of its own direct children. */
  lemma InitialSubstateIsChild(p: SuperState)
    ensures Parent(InitialSubstate(p)) == Some(p)
  {
  }

  // ---- generate_transition ----

  datatype TransitionType = ErrorType | StateCompleted | Command

  /** The `-ING` state a command leads to, read off the PackML command table. */
  function CommandTarget(c: TransitionCmd): Option<State> {
    match c
    case NoCommand => None
    case Clear => Some(Clearing)
    case Start => Some(Starting)
    case Stop => Some(Stopping)
    case Abort => Some(Aborting)
    case Hold => Some(Holding)
    case Unhold => Some(Unholding)
    case Suspend => Some(Suspending)
    case Unsuspend => Some(Unsuspending)
    case Reset => Some(Resetting)
  }

  /** The transition `generate_transition` makes for a command edge into `target`:
      the label is chosen by the target, and a target no command leads to gets
      a NO_COMMAND transition named "No_Command". */
  function CommandLabelFor(target: State): CmdTransition {
    match target
    case Clearing => ClearTransition()
    case Starting => StartTransition()
    case Stopping => StopTransition()
    case Aborting => AbortTransition()
    case Holding => HoldTransition()
    case Unholding => UnholdTransition()
    case Suspending => SuspendTransition()
    case Unsuspending => UnsuspendTransition()
    case Resetting => ResetTransition()
    case _ => CmdTransition(NoCommand, "No_Command")
  }

  function GenerateTransition(target: State, kind: TransitionType): Trigger {
    match kind
    case ErrorType => OnError
    case StateCompleted => OnComplete
    case Command => OnCmd(CommandLabelFor(target))
  }

  /** The nine command edges' labels, target by target. */
  lemma CommandLabels()
    ensures CommandLabelFor(Clearing) == CmdTransition(Clear, CmdName(Clear))
    ensures CommandLabelFor(Starting) == CmdTransition(Start, CmdName(Start))
    ensures CommandLabelFor(Stopping) == CmdTransition(Stop, CmdName(Stop))
    ensures CommandLabelFor(Aborting) == CmdTransition(Abort, CmdName(Abort))
    ensures CommandLabelFor(Holding) == CmdTransition(Hold, CmdName(Hold))
    ensures CommandLabelFor(Unholding) == CmdTransition(Unhold, CmdName(Unhold))
    ensures CommandLabelFor(Suspending) == CmdTransition(Suspend, CmdName(Suspend))
    ensures CommandLabelFor(Unsuspending) == CmdTransition(Unsuspend, CmdName(Unsuspend))
    ensures CommandLabelFor(Resetting) == CmdTransition(Reset, CmdName(Reset))
  {
  }

  /** A command that leads to `target` is the label of a generated command edge
      into `target`, under that command's own name. */
  lemma LabelOfTarget(target: State, c: TransitionCmd)
    requires CommandTarget(c) == Some(target)
    ensures CommandLabelFor(target) == CmdTransition(c, CmdName(c))
  {
    CommandLabels();
    match c
    case Clear =>
    case Start =>
    case Stop =>
    case Abort =>
    case Hold =>
    case Unhold =>
    case Suspend =>
    case Unsuspend =>
    case Reset =>
  }

  /** Conversely, a generated command edge's label is either a real command that
      leads to its target, named after it, or NO_COMMAND named "No_Command". */
  lemma TargetOfLabel(target: State)
    ensures CommandLabelFor(target).cmd != NoCommand ==>
      && CommandTarget(CommandLabelFor(target).cmd) == Some(target)
      && CommandLabelFor(target).name == CmdName(CommandLabelFor(target).cmd)
    ensures CommandLabelFor(target).cmd == NoCommand ==>
      CommandLabelFor(target) == CmdTransition(NoCommand, "No_Command")
  {
  }

  // ---- generate_all_packml_states ----

  /** `generate_transition(to, kind)` followed by `from->addTransition`. */
  function Wire(from: Scope, to: State, kind: TransitionType): Edge {
    Edge(from, GenerateTransition(to, kind), to)
  }

  /** The transitions `generate_all_packml_states` hangs on each scope, in the
      order it adds them (a Qt state keeps its own list of outgoing transitions). */
  function OwnEdges(from: Scope): seq<Edge> {
    match from
    case InSuper(Abortable) => [Wire(from, Aborting, Command), Wire(from, Aborting, ErrorType)]
    case InSuper(Stoppable) => [Wire(from, Stopping, Command)]
    case InState(Aborting) => [Wire(from, Aborted, StateCompleted)]
    case InState(Aborted) => [Wire(from, Clearing, Command)]
    case InState(Clearing) => [Wire(from, Stopped, StateCompleted)]
    case InState(Stopping) => [Wire(from, Stopped, StateCompleted)]
    case InState(Stopped) => [Wire(from, Resetting, Command)]
    case InState(Resetting) => [Wire(from, Idle, StateCompleted)]
    case InState(Idle) => [Wire(from, Starting, Command)]
    case InState(Starting) => [Wire(from, Execute, StateCompleted)]
    case InState(Execute) =>
      [Wire(from, Holding, Command), Wire(from, Suspending, Command), Wire(from, Completing, StateCompleted)]
    case InState(Holding) => [Wire(from, Held, StateCompleted)]
    case InState(Held) => [Wire(from, Unholding, Command)]
    case InState(Unholding) => [Wire(from, Execute, StateCompleted)]
    case InState(Suspending) => [Wire(from, Suspended, StateCompleted)]
    case InState(Suspended) => [Wire(from, Unsuspending, Command)]
    case InState(Unsuspending) => [Wire(from, Execute, StateCompleted)]
    case InState(Completing) => [Wire(from, Complete, StateCompleted)]
    case InState(Complete) => [Wire(from, Resetting, Command)]
    case InState(Undefined) => []
  }

  function CommandEdge(from: Scope, c: TransitionCmd, to: State): Edge {
    Edge(from, OnCmd(CmdTransition(c, CmdName(c))), to)
  }

  /** The PackML graph with every label written out: the command edges
      ABORTABLE-ABORT-ABORTING, ABORTED-CLEAR-CLEARING, STOPPABLE-STOP-STOPPING,
      STOPPED-RESET-RESETTING, IDLE-START-STARTING, EXECUTE-HOLD-HOLDING,
      HELD-UNHOLD-UNHOLDING, EXECUTE-SUSPEND-SUSPENDING,
      SUSPENDED-UNSUSPEND-UNSUSPENDING and COMPLETE-RESET-RESETTING; the error
      edge ABORTABLE-ABORTING; and a completion edge out of every acting state. */
  function LabelledEdges(from: Scope): seq<Edge> {
    match from
    case InSuper(Abortable) => [CommandEdge(from, Abort, Aborting), Edge(from, OnError, Aborting)]
    case InSuper(Stoppable) => [CommandEdge(from, Stop, Stopping)]
    case InState(Aborting) => [Edge(from, OnComplete, Aborted)]
    case InState(Aborted) => [CommandEdge(from, Clear, Clearing)]
    case InState(Clearing) => [Edge(from, OnComplete, Stopped)]
    case InState(Stopping) => [Edge(from, OnComplete, Stopped)]
    case InState(Stopped) => [CommandEdge(from, Reset, Resetting)]
    case InState(Resetting) => [Edge(from, OnComplete, Idle)]
    case InState(Idle) => [CommandEdge(from, Start, Starting)]
    case InState(Starting) => [Edge(from, OnComplete, Execute)]
    case InState(Execute) =>
      [CommandEdge(from, Hold, Holding), CommandEdge(from, Suspend, Suspending), Edge(from, OnComplete, Completing)]
    case InState(Holding) => [Edge(from, OnComplete, Held)]
    case InState(Held) => [CommandEdge(from, Unhold, Unholding)]
    case InState(Unholding) => [Edge(from, OnComplete, Execute)]
    case InState(Suspending) => [Edge(from, OnComplete, Suspended)]
    case InState(Suspended) => [CommandEdge(from, Unsuspend, Unsuspending)]
    case InState(Unsuspending) => [Edge(from, OnComplete, Execute)]
    case InState(Completing) => [Edge(from, OnComplete, Complete)]
    case InState(Complete) => [CommandEdge(from, Reset, Resetting)]
    case InState(Undefined) => []
  }

  /** Choosing each command edge's label by its target, as `generate_transition`
      does, yields exactly the labelled PackML graph. */
  lemma GeneratedEdgesAreLabelled(from: Scope)
    ensures OwnEdges(from) == LabelledEdges(from)
  {
    match from {
      case InState(s) => StateEdgesAreLabelled(s);
      case InSuper(p) => SuperEdgesAreLabelled(p);
    }
  }

  /** A command edge wired towards the target of command `c` carries `c`'s label. */
  lemma WireCommand(from: Scope, c: TransitionCmd, t: State)
    requires CommandTarget(c) == Some(t)
    ensures Wire(from, t, Command) == CommandEdge(from, c, t)
  {
    LabelOfTarget(t, c);
  }

  /** The labelled edges of the waiting states on the way up to IDLE. */
  lemma StartupWaitEdges()
    ensures OwnEdges(InState(Undefined)) == LabelledEdges(InState(Undefined))
    ensures OwnEdges(InState(Aborted)) == LabelledEdges(InState(Aborted))
    ensures OwnEdges(InState(Stopped)) == LabelledEdges(InState(Stopped))
    ensures OwnEdges(InState(Idle)) == LabelledEdges(InState(Idle))
  {
    WireCommand(InState(Aborted), Clear, Clearing);
    WireCommand(InState(Stopped), Reset, Resetting);
    WireCommand(InState(Idle), Start, Starting);
  }

  /** The labelled edges of the waiting states from EXECUTE on. */
  lemma RunningWaitEdges()
    ensures OwnEdges(InState(Execute)) == LabelledEdges(InState(Execute))
    ensures OwnEdges(InState(Held)) == LabelledEdges(InState(Held))
    ensures OwnEdges(InState(Suspended)) == LabelledEdges(InState(Suspended))
    ensures OwnEdges(InState(Complete)) == LabelledEdges(InState(Complete))
  {
    WireCommand(InState(Execute), Hold, Holding);
    WireCommand(InState(Execute), Suspend, Suspending);
    WireCommand(InState(Held), Unhold, Unholding);
    WireCommand(InState(Suspended), Unsuspend, Unsuspending);
    WireCommand(InState(Complete), Reset, Resetting);
  }

  /** The completion edges of the acting states that stop, abort, clear or reset. */
  lemma ShutdownActingEdges()
    ensures OwnEdges(InState(Clearing)) == LabelledEdges(InState(Clearing))
    ensures OwnEdges(InState(Stopping)) == LabelledEdges(InState(Stopping))
    ensures OwnEdges(InState(Aborting)) == LabelledEdges(InState(Aborting))
    ensures OwnEdges(InState(Resetting)) == LabelledEdges(InState(Resetting))
  {
  }

  /** The completion edges of STARTING, HOLDING and UNHOLDING. */
  lemma RunningActingEdges()
    ensures OwnEdges(InState(Starting)) == LabelledEdges(InState(Starting))
    ensures OwnEdges(InState(Holding)) == LabelledEdges(InState(Holding))
    ensures OwnEdges(InState(Unholding)) == LabelledEdges(InState(Unholding))
  {
  }

  /** The completion edges of SUSPENDING, UNSUSPENDING and COMPLETING. */
  lemma ReturningActingEdges()
    ensures OwnEdges(InState(Suspending)) == LabelledEdges(InState(Suspending))
    ensures OwnEdges(InState(Unsuspending)) == LabelledEdges(InState(Unsuspending))
    ensures OwnEdges(InState(Completing)) == LabelledEdges(InState(Completing))
  {
  }

  lemma StateEdgesAreLabelled(s: State)
    ensures OwnEdges(InState(s)) == LabelledEdges(InState(s))
  {
    StartupWaitEdges();
    RunningWaitEdges();
    ShutdownActingEdges();
    RunningActingEdges();
    ReturningActingEdges();
    match s
    case Undefined =>
    case Clearing =>
    case Stopped =>
    case Starting =>
    case Idle =>
    case Suspended =>
    case Execute =>
    case Stopping =>
    case Aborting =>
    case Aborted =>
    case Holding =>
    case Held =>
    case Unholding =>
    case Suspending =>
    case Unsuspending =>
    case Resetting =>
    case Completing =>
    case Complete =>
  }

  lemma SuperEdgesAreLabelled(p: SuperState)
    ensures OwnEdges(InSuper(p)) == LabelledEdges(InSuper(p))
  {
  }

  /** A wait state carries exactly one edge of its own: the command edge
      labelled with the exit command its factory recorded. */
  lemma WaitStateExitMatchesEdge(s: State)
    requires GeneratedState(s).Some? && GeneratedState(s).value.role.WaitRole?
    ensures CommandTarget(GeneratedState(s).value.role.exitCmd).Some?
    ensures OwnEdges(InState(s)) ==
      [CommandEdge(InState(s), GeneratedState(s).value.role.exitCmd,
                   CommandTarget(GeneratedState(s).value.role.exitCmd).value)]
  {
    StateEdgesAreLabelled(s);
    WaitStateExits(s);
  }

  /** The six wait states and the exit command each factory records. */
  lemma WaitStateExits(s: State)
    ensures GeneratedState(s).Some? && GeneratedState(s).value.role.WaitRole? ==>
      && s in {Aborted, Stopped, Idle, Held, Suspended, Complete}
      && GeneratedState(s).value.role.exitCmd ==
           match s
           case Aborted => Clear
           case Idle => Start
           case Held => Unhold
           case Suspended => Unsuspend
           case _ => Reset
  {
  }

  // ---- add_state: the registry of states by name ----

  /** The generator's `states` map, and the names whose entry signal is
      connected to the machine's `setState`. */
  datatype Registry = Registry(states: map<string, PackmlState>, connected: set<string>)

  /** Every connected name is registered, and belongs to a real machine state. */
  predicate RegistryValid(r: Registry) {
    forall n :: n in r.connected ==> n in r.states && r.states[n].value != Undefined
  }

  function AddState(r: Registry, st: PackmlState): (r': Registry)
    ensures st.name in r.states ==> r' == r
    ensures st.name in r'.states && r'.states[st.name] == (if st.name in r.states then r.states[st.name] else st)
    ensures forall n :: n in r.states ==> n in r'.states && r'.states[n] == r.states[n]
    ensures r'.states.Keys == r.states.Keys + {st.name}
    ensures st.name in r'.connected <==> st.name in r.connected || (st.name !in r.states && st.value != Undefined)
    ensures RegistryValid(r) ==> RegistryValid(r')
  {
    if st.name in r.states then r
    else
      Registry(r.states[st.name := st],
               if st.value != Undefined then r.connected + {st.name} else r.connected)
  }

  function AddAll(r: Registry, sts: seq<PackmlState>): Registry
    decreases |sts|
  {
    if |sts| == 0 then r else AddAll(AddState(r, sts[0]), sts[1..])
  }

  /** The objects `generate_all_packml_states` registers, in order: ABORTABLE,
      then the seventeen machine states. STOPPABLE is never registered. */
  function RegisteredObjects(): seq<PackmlState> {
    [ AbortableState(),
      AbortingState(), AbortedState(), ClearingState(Abortable), StoppingState(Abortable),
      StoppedState(Abortable), ResettingState(Stoppable), IdleState(Stoppable),
      StartingState(Stoppable), ExecuteState(Stoppable), HoldingState(Stoppable),
      HeldState(Stoppable), UnholdingState(Stoppable), SuspendingState(Stoppable),
      SuspendedState(Stoppable), UnsuspendingState(Stoppable), CompletingState(Stoppable),
      CompleteState(Stoppable) ]
  }

  /** Registering objects one by one never loses or replaces an entry, and keeps
      the registry valid. */
  lemma {:induction false} AddAllKeeps(r: Registry, sts: seq<PackmlState>)
    requires RegistryValid(r)
    ensures RegistryValid(AddAll(r, sts))
    ensures forall n :: n in r.states ==> n in AddAll(r, sts).states && AddAll(r, sts).states[n] == r.states[n]
    ensures forall i :: 0 <= i < |sts| ==> sts[i].name in AddAll(r, sts).states
    decreases |sts|
  {
    if |sts| > 0 {
      var r1 := AddState(r, sts[0]);
      AddAllKeeps(r1, sts[1..]);
      forall i | 0 <= i < |sts|
        ensures sts[i].name in AddAll(r, sts).states
      {
        if i > 0 {
          assert sts[i] == sts[1..][i - 1];
        }
      }
    }
  }

  // ---- mode_switcher ----

  /** A mode: its printed name and the "Available" value it gives each state it lists. */
  datatype Mode = Mode(name: string, available: map<State, bool>)

  /** The part of the generator `mode_switcher` works on: the "Available"
      property each state object carries (a state without one is absent) and
      the mode installed last. */
  datatype Switcher = Switcher(available: map<State, bool>, currentMode: Mode)

  /** The generator as constructed: no mode installed, no property set. */
  const FreshSwitcher: Switcher := Switcher(map[], Mode("", map[]))

  /** The states a mode may be switched in. */
  const SwitchStates: set<State> := {Idle}

  /** The "Available" property of a state object: unset unless a mode listed it. */
  function AvailableProperty(sw: Switcher, s: State): Option<bool> {
    if s in sw.available then Some(sw.available[s]) else None
  }

  /** What a state's property becomes when `mode` is installed over `sw`. */
  function ListedOr(mode: Mode, sw: Switcher, s: State): Option<bool> {
    if s in mode.available then Some(mode.available[s]) else AvailableProperty(sw, s)
  }

  /** `mode_switcher`: in IDLE, or while no mode has been installed, every state
      the mode lists gets that value and the mode becomes current; otherwise an
      error names the current state and nothing changes. The source looks each
      listed state up by name among the registered objects, which only succeeds
      for the seventeen machine states. */
  function ModeSwitcher(sw: Switcher, current: State, mode: Mode): (r: (Expected<bool>, Switcher))
    requires Undefined !in mode.available
    ensures r.0.Value? <==> current in SwitchStates || sw.currentMode.name == ""
    ensures r.0.Value? ==> r.0.value && r.1.currentMode == mode
    ensures r.0.Value? ==> (forall s :: AvailableProperty(r.1, s) == ListedOr(mode, sw, s))
    ensures r.0.Unexpected? ==> r.0.error == "Cannot switch mode in state: " + StateName(current) && r.1 == sw
  {
    if current in SwitchStates || sw.currentMode.name == "" then
      (Value(true), Switcher(sw.available + mode.available, mode))
    else
      (Unexpected("Cannot switch mode in state: " + StateName(current)), sw)
  }
}
