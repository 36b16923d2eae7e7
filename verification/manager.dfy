/** The coordinator (`PackmlManagerInterface`, packml_interface.hpp, with the
    callbacks `SMNode_new` installs, packml_ros-new.hpp): it owns the state
    machine, serves ModeChange and StateChange requests, fans every entered
    state and every mode change out to its client nodes, and publishes the
    Status message. A call's `clients` is the registry, in name order, with how
    each client answers that call's fan-out. */
module Manager {

  import opened Basics
  import opened Common
  import opened States
  import opened Events
  import opened Generator
  import opened Engine
  import opened StdMap
  import opened Fanout
  import opened Wire
  import opened NodeMirror

  // ---- request codes ----

  /** The StateChange request's command codes; the service definition that
      fixes their values is not part of this model. */
  datatype RequestCodes = RequestCodes(
    abort: int, stop: int, clear: int, hold: int, reset: int,
    start: int, suspend: int, unhold: int, unsuspend: int)

  /** The request code of a command; NO_COMMAND has none. */
  function CodeOf(codes: RequestCodes, c: TransitionCmd): Option<int> {
    match c
    case NoCommand => None
    case Abort => Some(codes.abort)
    case Stop => Some(codes.stop)
    case Clear => Some(codes.clear)
    case Hold => Some(codes.hold)
    case Reset => Some(codes.reset)
    case Start => Some(codes.start)
    case Suspend => Some(codes.suspend)
    case Unhold => Some(codes.unhold)
    case Unsuspend => Some(codes.unsuspend)
  }

  /** The nine codes are different (a `switch` with two equal labels does not compile). */
  predicate CodesDistinct(codes: RequestCodes) {
    forall c, d :: CodeOf(codes, c).Some? && CodeOf(codes, c) == CodeOf(codes, d) ==> c == d
  }

  /** `to_transition_cmd`: the command whose code the request carries, else NO_COMMAND. */
  function ToTransitionCmd(codes: RequestCodes, code: int): (c: TransitionCmd)
    ensures c != NoCommand ==> CodeOf(codes, c) == Some(code)
    ensures c == NoCommand <==> forall d :: CodeOf(codes, d) != Some(code)
  {
    if code == codes.abort then Abort
    else if code == codes.stop then Stop
    else if code == codes.clear then Clear
    else if code == codes.hold then Hold
    else if code == codes.reset then Reset
    else if code == codes.start then Start
    else if code == codes.suspend then Suspend
    else if code == codes.unhold then Unhold
    else if code == codes.unsuspend then Unsuspend
    else NoCommand
  }

  /** With distinct codes, each command's code maps back to that command. */
  lemma ToTransitionCmdRoundTrip(codes: RequestCodes, c: TransitionCmd)
    requires CodesDistinct(codes) && c != NoCommand
    ensures ToTransitionCmd(codes, CodeOf(codes, c).value) == c
  {
    var d := ToTransitionCmd(codes, CodeOf(codes, c).value);
    assert CodeOf(codes, d) == CodeOf(codes, c);
  }

  // ---- the coordinator ----

  /** A request the coordinator fans out to its clients: a StateTransition
      request carrying a state's value, or a ModeTransition request carrying a
      mode's value. */
  datatype Request = StateTransition(state: int) | ModeTransition(mode: int)

  /** The coordinator's fields: the machine it owns, `current_mode`,
      `switching_mode`, `current_state`, the Status messages it has published
      so far, and the requests it has fanned out so far. */
  datatype Coordinator = Coordinator(
    machine: Machine,
    currentMode: int,
    switchingMode: int,
    currentState: State,
    published: seq<Status>,
    asked: seq<Request>)

  /** The StateTransition request `on_state_changed` sends: `(int)value` in
      the request's signed-byte state field, which names the entered state. */
  function StateRequest(value: State): (r: Request)
    ensures r.StateTransition? && -128 <= r.state < 128
    ensures StateOfValue(r.state) == Some(value)
  {
    Int8Identity(StateValue(value));
    StateValueRoundTrip(value);
    StateTransition(ToInt8(StateValue(value)))
  }

  /** The ModeTransition request `on_change_mode` sends: the request's own mode
      field, forwarded unchanged, whose signed byte is the requested mode. */
  function ModeRequest(requested: int): (r: Request)
    ensures r.ModeTransition? && -128 <= r.mode < 128 && (r.mode - requested) % 256 == 0
    ensures -128 <= requested < 128 ==> r.mode == requested
  {
    ModeTransition(ToInt8(requested))
  }

  /** The coordinator once it has sent `q` to its clients. */
  function Ask(c: Coordinator, q: Request): Coordinator {
    c.(asked := c.asked + [q])
  }

  /** `publish_status`: the current state and mode, each cast to a signed byte. */
  function PublishStatus(c: Coordinator): (r: Coordinator)
    ensures r.(published := c.published) == c
    ensures |r.published| == |c.published| + 1 && r.published[..|c.published|] == c.published
    ensures StateOfValue(r.published[|c.published|].state) == Some(c.currentState)
    ensures -128 <= c.currentMode < 128 ==> r.published[|c.published|].mode == c.currentMode
  {
    var status := Status(ToInt8(StateValue(c.currentState)), ToInt8(c.currentMode));
    Int8Identity(StateValue(c.currentState));
    StateValueRoundTrip(c.currentState);
    c.(published := c.published + [status])
  }

  /** The fan-out's verdict: `wait_all_futures`, as written, over the futures
      `call_all_clients` returns. */
  predicate FanoutAccepted(clients: seq<Entry<NodeReply>>)
    requires Sorted(clients)
  {
    GatherAsWritten(|clients|, CallAllClients(clients))
  }

  /** Every client reachable and accepting. */
  predicate AllAccept(clients: seq<Entry<NodeReply>>) {
    |clients| > 0 && forall i :: 0 <= i < |clients| ==> clients[i].value.reachable && clients[i].value.verdict
  }

  /** What the fan-out's verdict tells: every client reachable and accepting is
      enough for a success; a success needs a non-empty registry of reachable
      clients; and when no two replies arrive in the same polling pass, a
      success means every client accepted. */
  lemma FanoutAcceptedCases(clients: seq<Entry<NodeReply>>)
    requires Sorted(clients)
    ensures AllAccept(clients) ==> FanoutAccepted(clients)
    ensures FanoutAccepted(clients) ==>
      |clients| > 0 && forall i :: 0 <= i < |clients| ==> clients[i].value.reachable
    ensures ReadyPassesDistinct(clients) ==> (FanoutAccepted(clients) <==> AllAccept(clients))
  {
    if AllAccept(clients) {
      AllAcceptSucceeds(clients);
    }
    if FanoutAccepted(clients) {
      SuccessNeedsReachable(clients);
      if ReadyPassesDistinct(clients) {
        SuccessMeansAllAccept(clients);
      }
    }
  }

  /** Every client reachable and accepting makes the fan-out succeed. */
  lemma AllAcceptSucceeds(clients: seq<Entry<NodeReply>>)
    requires Sorted(clients) && AllAccept(clients)
    ensures FanoutAccepted(clients)
  {
    GatherAllMeansEveryClientAccepts(clients);
    GatherAllAccepted(|clients|, CallAllClients(clients));
  }

  /** A successful fan-out had a future from every client. */
  lemma SuccessNeedsReachable(clients: seq<Entry<NodeReply>>)
    requires Sorted(clients) && FanoutAccepted(clients)
    ensures |clients| > 0 && forall i :: 0 <= i < |clients| ==> clients[i].value.reachable
  {
    CallAllClientsKeys(clients, "");
  }

  /** With replies in distinct passes, a successful fan-out means every client accepted. */
  lemma SuccessMeansAllAccept(clients: seq<Entry<NodeReply>>)
    requires Sorted(clients) && FanoutAccepted(clients) && ReadyPassesDistinct(clients)
    ensures AllAccept(clients)
  {
    SuccessNeedsReachable(clients);
    FilterAllKept(clients, Reachable);
    AsWrittenAgreesWhenReadyPassesDistinct(|clients|, clients);
  }

  /** `on_state_changed`: ask every client to follow the entered state, whose
      value the request carries; `clients` is how they answer that request.
      Only if the fan-out succeeds, record the state as `current_state` and
      publish. */
  function OnStateChanged(c: Coordinator, value: State, clients: seq<Entry<NodeReply>>): (r: Coordinator)
    requires Sorted(clients)
    ensures r.asked == c.asked + [StateRequest(value)]
    ensures FanoutAccepted(clients) ==> r == PublishStatus(Ask(c, StateRequest(value)).(currentState := value))
    ensures FanoutAccepted(clients) ==>
      r.published == c.published + [Status(StateRequest(value).state, ToInt8(c.currentMode))]
    ensures !FanoutAccepted(clients) ==> r == Ask(c, StateRequest(value))
    ensures AllAccept(clients) ==> r.currentState == value && |r.published| == |c.published| + 1
    ensures r.machine == c.machine && r.currentMode == c.currentMode
  {
    FanoutAcceptedCases(clients);
    var c1 := Ask(c, StateRequest(value));
    if FanoutAccepted(clients) then PublishStatus(c1.(currentState := value)) else c1
  }

  /** `on_mode_changed`: record the mode and publish at once, before any client
      is asked: one Status message, carrying the current state and the new mode. */
  function OnModeChanged(c: Coordinator, mode: int): (r: Coordinator)
    ensures r.currentMode == mode && r.machine == c.machine && r.currentState == c.currentState
    ensures r.published == c.published + [Status(ToInt8(StateValue(c.currentState)), ToInt8(mode))]
    ensures r.asked == c.asked && r.switchingMode == c.switchingMode
  {
    PublishStatus(c.(currentMode := mode))
  }

  /** Every node adopts what `on_mode_changed` publishes: a node given that
      Status ends in the coordinator's state and, when it fits a signed byte,
      in the new mode. */
  lemma NodeAdoptsModeChange(c: Coordinator, mode: int, m: Mirror)
    requires -128 <= mode < 128
    ensures var r := OnModeChanged(c, mode);
      var (m', calls) := OnStatusChanged(m, r.published[|c.published|]);
      && StateOfValue(m'.currentState) == Some(c.currentState)
      && m'.currentMode == mode
      && (calls == 0 <==> StateOfValue(m.currentState) == Some(c.currentState) && m.currentMode == mode)
  {
    var r := OnModeChanged(c, mode);
    Int8Identity(mode);
    Int8Identity(StateValue(c.currentState));
    StateValueRoundTrip(c.currentState);
    assert r.published[|c.published|] == Status(StateValue(c.currentState), mode);
    if StateOfValue(m.currentState) == Some(c.currentState) {
      StateValueRoundTrip(c.currentState);
    }
  }

  /** A node that approves the request `on_state_changed` sends it records the
      entered state as the one it is switching to. */
  lemma NodeAskedForEnteredState(c: Coordinator, value: State, clients: seq<Entry<NodeReply>>, m: Mirror)
    requires Sorted(clients)
    ensures var r := OnStateChanged(c, value, clients);
      var (reply, m') := OnStateTransReq(m, r.asked[|c.asked|].state, true);
      && reply.success && m'.waitingForNewState
      && StateOfValue(m'.switchingState) == Some(value)
  {
    var r := OnStateChanged(c, value, clients);
    assert r.asked[|c.asked|] == StateRequest(value);
  }

  /** The `error_code` of a ModeChange or StateChange reply. The service
      definition is not part of this model, so the named codes stay symbolic;
      `RawCode` is a literal the source writes instead of a name. */
  datatype ErrorCode = SuccessCode | InvalidTransitionRequest | UnrecognizedRequest | InvalidModeRequest | RawCode(n: int)

  datatype Response = Response(success: bool, errorCode: ErrorCode, message: string)

  /** `on_change_mode`: switch the machine first; only when that succeeded ask the
      clients, forwarding the requested mode (`clients` is how they answer);
      only when they all accept record the mode again and publish. */
  function OnChangeMode(c: Coordinator, requested: int, clients: seq<Entry<NodeReply>>): (r: (Response, Coordinator))
    requires Sorted(clients)
    ensures var local := ChangeMode(c.machine, requested);
      var announced := Status(ToInt8(StateValue(c.currentState)), ToInt8(requested));
      && (r.0.success <==> local.result.Value? && FanoutAccepted(clients))
      && (local.result.Value? && AllAccept(clients) ==> r.0.success)
      && r.1.machine == local.machine
      && r.1.switchingMode == requested && r.1.currentState == c.currentState
      && (local.result.Unexpected? ==>
            r == (Response(false, RawCode(1), local.result.error), c.(switchingMode := requested)))
      && (local.result.Value? ==>
            && r.1.currentMode == requested
            && r.1.asked == c.asked + [ModeRequest(requested)])
      && (local.result.Value? && !FanoutAccepted(clients) ==>
            && r.0 == Response(false, RawCode(1), "Error in one of the packml clients")
            && r.1.published == c.published + [announced])
      && (r.0.success ==>
            && r.0 == Response(true, SuccessCode, "")
            && r.1.published == c.published + [announced, announced])
  {
    FanoutAcceptedCases(clients);
    var c1 := c.(switchingMode := requested);
    var local := ChangeMode(c1.machine, requested);
    var c2 := c1.(machine := local.machine);
    var c3 := if local.modeChanged.Some? then OnModeChanged(c2, local.modeChanged.value) else c2;
    if local.result.Unexpected? then
      (Response(false, RawCode(1), local.result.error), c3)
    else
      var c4 := Ask(c3, ModeRequest(requested));
      if !FanoutAccepted(clients) then
        (Response(false, RawCode(1), "Error in one of the packml clients"), c4)
      else
        (Response(true, SuccessCode, ""), PublishStatus(c4.(currentMode := c4.switchingMode)))
  }

  /** `on_change_state`: an unrecognised code is refused without touching the
      machine; otherwise the command goes to the machine, whose entry into a new
      state runs `on_state_changed`. */
  function OnChangeState(c: Coordinator, codes: RequestCodes, code: int, clients: seq<Entry<NodeReply>>): (r: (Response, Coordinator))
    requires Sorted(clients)
    ensures var cmd := ToTransitionCmd(codes, code);
      && (cmd == NoCommand ==>
            r == (Response(false, UnrecognizedRequest, "Unrecognized transition request command: NO_COMMAND"), c))
      && (cmd != NoCommand ==>
            var target := Engine.Expected(c.machine.variant, c.machine.stateValue, CmdEvent(cmd), c.machine.switcher, c.machine.policy);
            && (r.0.success <==> target.Some?)
            && (target.None? ==>
                  r == (Response(false, InvalidTransitionRequest, "Transition command failed: " + CmdName(cmd)), c))
            && (target.Some? ==>
                  && r.0 == Response(true, SuccessCode, "")
                  && r.1.machine.stateValue == target.value
                  && r.1.currentMode == c.currentMode
                  && (r.1.currentState == target.value || r.1 == c.(machine := r.1.machine, asked := r.1.asked))))
  {
    var cmd := ToTransitionCmd(codes, code);
    if cmd == NoCommand then
      assert "Unrecognized transition request command: " + CmdName(cmd) ==
             "Unrecognized transition request command: NO_COMMAND";
      (Response(false, UnrecognizedRequest, "Unrecognized transition request command: " + CmdName(cmd)), c)
    else
      RunCommand(c, cmd, clients)
  }

  /** A recognised command sent to the machine: the reply says whether the
      machine took it, and an entered state is fanned out. */
  function RunCommand(c: Coordinator, cmd: TransitionCmd, clients: seq<Entry<NodeReply>>): (r: (Response, Coordinator))
    requires Sorted(clients) && cmd != NoCommand
    ensures var target := Engine.Expected(c.machine.variant, c.machine.stateValue, CmdEvent(cmd), c.machine.switcher, c.machine.policy);
      && (r.0.success <==> target.Some?)
      && (target.None? ==>
            r == (Response(false, InvalidTransitionRequest, "Transition command failed: " + CmdName(cmd)), c))
      && (target.Some? ==>
            && r.0 == Response(true, SuccessCode, "")
            && r.1.machine.stateValue == target.value
            && r.1.currentMode == c.currentMode
            && (r.1.currentState == target.value || r.1 == c.(machine := r.1.machine, asked := r.1.asked)))
  {
    var out := ChangeState(c.machine, cmd);
    var c1 := c.(machine := out.machine);
    var c2 := AfterEntry(c1, out.entered, clients);
    if out.result.Unexpected? then
      (Response(false, InvalidTransitionRequest, out.result.error), c2)
    else
      (Response(true, SuccessCode, ""), c2)
  }

  /** `on_state_changed` run for the state a step entered, if it entered one. */
  function AfterEntry(c: Coordinator, entered: Option<State>, clients: seq<Entry<NodeReply>>): (r: Coordinator)
    requires Sorted(clients)
    ensures r.machine == c.machine && r.currentMode == c.currentMode
    ensures entered.None? ==> r == c
    ensures entered.Some? ==> r == OnStateChanged(c, entered.value, clients)
    ensures entered.Some? ==> r.currentState == entered.value || r == c.(asked := r.asked)
  {
    if entered.Some? then OnStateChanged(c, entered.value, clients) else c
  }

  /** Any other event the machine processes (an acting state's completion, an
      error): the state it enters is fanned out the same way. */
  function OnMachineEvent(c: Coordinator, ev: Event, clients: seq<Entry<NodeReply>>): (r: Coordinator)
    requires Sorted(clients)
    ensures r.machine == Step(c.machine, ev).machine
  {
    var step := Step(c.machine, ev);
    var c1 := c.(machine := step.machine);
    AfterEntry(c1, step.entered, clients)
  }

  /** The coordinator agrees with its machine about the current state. */
  predicate InSync(c: Coordinator) {
    c.currentState == c.machine.stateValue
  }

  /** While every client follows, the coordinator stays in step with its
      machine through commands and through other events. */
  lemma InSyncPreserved(c: Coordinator, codes: RequestCodes, code: int, ev: Event, clients: seq<Entry<NodeReply>>)
    requires Sorted(clients) && AllAccept(clients) && InSync(c)
    ensures InSync(OnChangeState(c, codes, code, clients).1)
    ensures InSync(OnMachineEvent(c, ev, clients))
  {
    FanoutAcceptedCases(clients);
  }

  /** When no two replies arrive in the same polling pass, a client that
      refuses or cannot be reached leaves `current_state` behind the machine. */
  lemma RefusalLeavesStateStale(c: Coordinator, ev: Event, clients: seq<Entry<NodeReply>>)
    requires Sorted(clients) && ReadyPassesDistinct(clients) && !AllAccept(clients)
    ensures OnMachineEvent(c, ev, clients).currentState == c.currentState
    ensures OnMachineEvent(c, ev, clients).published == c.published
  {
    FanoutAcceptedCases(clients);
  }

  /** A client that cannot be reached fails every fan-out, whenever the
      replies arrive. */
  lemma UnreachableLeavesStateStale(c: Coordinator, ev: Event, clients: seq<Entry<NodeReply>>, i: int)
    requires Sorted(clients) && 0 <= i < |clients| && !clients[i].value.reachable
    ensures OnMachineEvent(c, ev, clients).currentState == c.currentState
    ensures OnMachineEvent(c, ev, clients).published == c.published
  {
    FanoutAcceptedCases(clients);
  }

  /** As written, a refusal read in the same polling pass as a later client's
      acceptance is lost: the entered state is recorded and published although
      the client named "a" refused it. */
  lemma SamePassRefusalRecordsState(c: Coordinator, value: State)
    ensures var clients := [Entry("a", NodeReply(true, false, 0)), Entry("b", NodeReply(true, true, 0))];
      && Sorted(clients) && !AllAccept(clients)
      && OnStateChanged(c, value, clients) == PublishStatus(Ask(c, StateRequest(value)).(currentState := value))
  {
    var clients := [Entry("a", NodeReply(true, false, 0)), Entry("b", NodeReply(true, true, 0))];
    LaterAcceptMasksRejection();
    FilterAllKept(clients, Reachable);
  }

  /** The coordinator `SMNode_new` builds: `init` leaves state UNDEFINED and mode
      0; switching to MANUAL succeeds, since no mode is installed yet, and
      `on_mode_changed` publishes (UNDEFINED, MANUAL) at once; activation then
      enters ABORTED, which is fanned out and, on success, published as
      (ABORTED, MANUAL). The machine here is activated before the switch; the
      two orders agree (`Engine.FirstSwitchCommutesWithEntry`). */
  function NewCoordinator(policy: MaskPolicy, sleeper: WorkFn, clients: seq<Entry<NodeReply>>): (r: Coordinator)
    requires Sorted(clients)
    ensures r.currentMode == ModeManual && r.machine.stateValue == Aborted
    ensures r.machine.switcher.currentMode.name == "MANUAL"
    ensures r.currentState == (if FanoutAccepted(clients) then Aborted else Undefined)
    ensures AllAccept(clients) ==> r.currentState == Aborted
    ensures r.asked == [StateRequest(Aborted)]
    ensures r.published ==
      [Status(StateValue(Undefined), ModeManual)] +
      (if FanoutAccepted(clients) then [Status(StateValue(Aborted), ModeManual)] else [])
  {
    FanoutAcceptedCases(clients);
    Int8Identity(ModeManual);
    Int8Identity(StateValue(Undefined));
    var machine := Init(SingleCycle, policy, sleeper);
    var c0 := Coordinator(machine, ModeUndefined, ModeUndefined, Undefined, [], []);
    var local := ChangeMode(c0.machine, ModeManual);
    var c1 := c0.(machine := local.machine);
    var c2 := if local.modeChanged.Some? then OnModeChanged(c1, local.modeChanged.value) else c1;
    OnStateChanged(c2, Aborted, clients)
  }

  /** A node fresh from `init` that receives the start-up Status messages in
      order adopts MANUAL from the first, and ABORTED from the second exactly
      when the start-up fan-out succeeded; each message calls its hook once. */
  lemma FreshNodeFollowsStartup(policy: MaskPolicy, sleeper: WorkFn, clients: seq<Entry<NodeReply>>,
                                waitingForNewMode: bool, waitingForNewState: bool)
    requires Sorted(clients)
    ensures var r := NewCoordinator(policy, sleeper, clients);
      var (m, calls) := OnStatuses(InitMirror(waitingForNewMode, waitingForNewState), r.published);
      && m.currentMode == ModeManual && !m.waitingForNewMode
      && StateOfValue(m.currentState) == Some(r.currentState)
      && calls == |r.published|
  {
    var r := NewCoordinator(policy, sleeper, clients);
    var m0 := InitMirror(waitingForNewMode, waitingForNewState);
    FreshNodeAdoptsStartupStatus(waitingForNewMode, waitingForNewState);
    var first := Status(StateValue(Undefined), ModeManual);
    var (m1, n1) := OnStatusChanged(m0, first);
    OnStatusesCons(m0, first, r.published[1..]);
    assert r.published == [first] + r.published[1..];
    if FanoutAccepted(clients) {
      var second := Status(StateValue(Aborted), ModeManual);
      assert r.published[1..] == [second] + [];
      OnStatusesCons(m1, second, []);
      StateValueRoundTrip(Aborted);
    } else {
      assert r.published[1..] == [];
      StateValueRoundTrip(Undefined);
    }
  }
}
