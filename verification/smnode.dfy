/** The stand-alone state-machine node (`SMNode`, packml_ros.hpp): it owns a
    single-cycle machine with its own EXECUTE work bound, and serves a
    ModeChange request, a StateChange request that calls the same-named command
    method of the machine, and an AllStatus request that reports the current
    state as one flag out of seventeen. */
module SmNode {

  import opened Basics
  import opened Common
  import opened States
  import opened Events
  import opened Generator
  import opened Engine
  import opened Manager
  import Decimal

  /** `myExecuteMethod`: the work the node binds to EXECUTE, returning the
      non-failure code. */
  function MyExecuteMethod(): (r: int)
    ensures r == 0
  {
    0
  }

  /** The node's machine after its constructor: single cycle, started in
      ABORTED, no mode installed. `setExecute` hands the node's own work to the
      constructor's unused EXECUTE object, so the EXECUTE state the machine
      runs keeps the start-up sleeper. */
  function NewSmNode(policy: MaskPolicy, sleeper: WorkFn, myExecute: WorkFn): (m: Machine)
    ensures MachineValid(m) && m.variant == SingleCycle
    ensures GetCurrentState(m) == Aborted && m.switcher == FreshSwitcher
    ensures m.running.execute == Some(sleeper) && m.unused.execute == Some(myExecute)
  {
    SetExecuteAsWritten(Init(SingleCycle, policy, sleeper), myExecute).1
  }

  /** `modeRequest`. */
  function ModeRequest(m: Machine, mode: ModeType): (r: (Response, Machine))
    ensures r.0.success <==> m.stateValue == Idle || m.switcher.currentMode.name == ""
    ensures r.0.success ==> r.0 == Response(true, SuccessCode, "Succes!") && r.1 == ChangeMode(m, mode).machine
    ensures !r.0.success ==>
      r == (Response(false, InvalidModeRequest, "Cannot switch mode in state: " + StateName(m.stateValue)), m)
  {
    var out := ChangeMode(m, mode);
    if out.result.HasValue() then (Response(true, SuccessCode, "Succes!"), out.machine)
    else (Response(false, InvalidModeRequest, out.result.error), out.machine)
  }

  /** A StateChange request served: the reply, the machine after it, and the
      command method called on the machine, if any. */
  datatype TransOutcome = TransOutcome(response: Response, machine: Machine, called: Option<TransitionCmd>)

  /** `transRequest`: the request code picks a command method, whose result
      decides the reply; an unknown code calls nothing. */
  function TransRequest(m: Machine, codes: RequestCodes, code: int): (r: TransOutcome)
    ensures r.called.Some? <==> exists c :: CodeOf(codes, c) == Some(code)
    ensures r.called.Some? ==> CodeOf(codes, r.called.value) == Some(code)
    ensures r.called.None? ==>
      && r.machine == m
      && r.response == Response(false, UnrecognizedRequest, "Unrecognized transition request command: " + Decimal.IntToDecimal(code))
    ensures r.called.Some? ==>
      && (r.response.success <==>
            Engine.Expected(m.variant, m.stateValue, CmdEvent(r.called.value), m.switcher, m.policy).Some?)
      && r.machine == Step(m, CmdEvent(r.called.value)).machine
    ensures r.called.Some? && r.response.success ==>
      r.response == Response(true, SuccessCode, "Successful transition request command: " + Decimal.IntToDecimal(code))
    ensures r.called.Some? && !r.response.success ==>
      r.response == Response(false, InvalidTransitionRequest, "Invalid transition request command: " + Decimal.IntToDecimal(code))
  {
    var cmd := ToTransitionCmd(codes, code);
    if cmd == NoCommand then
      TransOutcome(Response(false, UnrecognizedRequest, "Unrecognized transition request command: " + Decimal.IntToDecimal(code)), m, None)
    else
      CallCommand(m, cmd, code)
  }

  /** The command method for a recognised code called, and its result replied. */
  function CallCommand(m: Machine, cmd: TransitionCmd, code: int): (r: TransOutcome)
    requires cmd != NoCommand
    ensures r.called == Some(cmd)
    ensures r.response.success <==> Engine.Expected(m.variant, m.stateValue, CmdEvent(cmd), m.switcher, m.policy).Some?
    ensures r.machine == Step(m, CmdEvent(cmd)).machine
    ensures r.response.success ==>
      r.response == Response(true, SuccessCode, "Successful transition request command: " + Decimal.IntToDecimal(code))
    ensures !r.response.success ==>
      r.response == Response(false, InvalidTransitionRequest, "Invalid transition request command: " + Decimal.IntToDecimal(code))
  {
    var (accepted, step) := PostCommand(m, cmd);
    var response :=
      if accepted then Response(true, SuccessCode, "Successful transition request command: " + Decimal.IntToDecimal(code))
      else Response(false, InvalidTransitionRequest, "Invalid transition request command: " + Decimal.IntToDecimal(code));
    TransOutcome(response, step.machine, Some(cmd))
  }

  /** Each command's own code calls exactly that command's method. */
  lemma SameNamedMethodCalled(m: Machine, codes: RequestCodes, c: TransitionCmd)
    requires CodesDistinct(codes) && c != NoCommand
    ensures TransRequest(m, codes, CodeOf(codes, c).value).called == Some(c)
  {
    ToTransitionCmdRoundTrip(codes, c);
  }

  /** Before any mode request a new node has no "Available" property set, so
      when command edges are masked it refuses every command. */
  lemma NewNodeRefusesMaskedCommands(sleeper: WorkFn, myExecute: WorkFn, codes: RequestCodes, code: int, errorsMasked: bool)
    ensures var r := TransRequest(NewSmNode(MaskPolicy(true, errorsMasked), sleeper, myExecute), codes, code);
      !r.response.success && r.machine.stateValue == Aborted
  {
    var m := NewSmNode(MaskPolicy(true, errorsMasked), sleeper, myExecute);
    var r := TransRequest(m, codes, code);
    if r.called.Some? {
      var ev := CmdEvent(r.called.value);
      var t := TableTarget(m.variant, m.stateValue, ev);
      if t.Some? {
        assert AvailableProperty(m.switcher, t.value) == None;
        assert !Admits(ev, t.value, m.switcher, m.policy);
      }
      assert Engine.Expected(m.variant, m.stateValue, ev, m.switcher, m.policy) == None;
      assert Step(m, ev).machine == m;
    }
  }

  // ---- the AllStatus reply ----

  /** The seventeen state flags of an AllStatus reply. */
  datatype AllStatus = AllStatus(
    stopped: bool, idle: bool, starting: bool, execute: bool, completing: bool,
    complete: bool, clearing: bool, suspended: bool, aborting: bool, aborted: bool,
    holding: bool, held: bool, unholding: bool, suspending: bool, unsuspending: bool,
    resetting: bool, stopping: bool)

  /** The flag that reports a state; UNDEFINED has none. */
  function Flag(st: AllStatus, s: State): bool {
    match s
    case Undefined => false
    case Stopped => st.stopped
    case Idle => st.idle
    case Starting => st.starting
    case Execute => st.execute
    case Completing => st.completing
    case Complete => st.complete
    case Clearing => st.clearing
    case Suspended => st.suspended
    case Aborting => st.aborting
    case Aborted => st.aborted
    case Holding => st.holding
    case Held => st.held
    case Unholding => st.unholding
    case Suspending => st.suspending
    case Unsuspending => st.unsuspending
    case Resetting => st.resetting
    case Stopping => st.stopping
  }

  const NoFlags: AllStatus :=
    AllStatus(false, false, false, false, false, false, false, false, false,
              false, false, false, false, false, false, false, false)

  /** `statusRequest`: clear all seventeen flags, then raise the one of the
      current state. */
  function StatusRequest(m: Machine): (r: AllStatus)
    ensures forall s :: s != Undefined ==> (Flag(r, s) <==> s == GetCurrentState(m))
  {
    var f := NoFlags;
    match GetCurrentState(m)
    case Stopped => f.(stopped := true)
    case Starting => f.(starting := true)
    case Idle => f.(idle := true)
    case Suspended => f.(suspended := true)
    case Execute => f.(execute := true)
    case Stopping => f.(stopping := true)
    case Aborting => f.(aborting := true)
    case Aborted => f.(aborted := true)
    case Holding => f.(holding := true)
    case Held => f.(held := true)
    case Resetting => f.(resetting := true)
    case Suspending => f.(suspending := true)
    case Unsuspending => f.(unsuspending := true)
    case Clearing => f.(clearing := true)
    case Unholding => f.(unholding := true)
    case Completing => f.(completing := true)
    case Complete => f.(complete := true)
    case Undefined => f
  }

  /** At most one flag is raised, and none while the state is UNDEFINED. */
  lemma StatusFlagsOneHot(m: Machine, s: State, t: State)
    ensures Flag(StatusRequest(m), s) && Flag(StatusRequest(m), t) ==> s == t
    ensures GetCurrentState(m) == Undefined ==> StatusRequest(m) == NoFlags
    ensures GetCurrentState(m) != Undefined ==> Flag(StatusRequest(m), GetCurrentState(m))
  {
    UndefinedHasNoFlag(StatusRequest(m));
    if GetCurrentState(m) == Undefined {
      assert StatusRequest(m) == NoFlags;
    }
  }

  lemma UndefinedHasNoFlag(st: AllStatus)
    ensures !Flag(st, Undefined)
  {
  }
}
