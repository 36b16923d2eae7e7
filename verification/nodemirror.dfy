/** The node side of the protocol (`PackmlNodeInterface`, packml_interface.hpp):
    a node keeps a mirror of the coordinator's state and mode, approves or
    refuses the coordinator's transition requests through its own hooks, and
    adopts whatever the coordinator's Status messages announce. */
module NodeMirror {

  import opened Basics
  import opened Common
  import opened Wire

  /** The mirror's fields. State and mode are the raw values the messages carry:
      a `static_cast` of a signed byte, which need not name an enumerator. */
  datatype Mirror = Mirror(
    currentMode: int,
    switchingMode: int,
    currentState: int,
    switchingState: int,
    waitingForNewMode: bool,
    waitingForNewState: bool)

  /** The mirror after `init`: UNDEFINED state and mode 0, current and switching.
      `init` never sets the two waiting flags, so they are whatever they were. */
  function InitMirror(waitingForNewMode: bool, waitingForNewState: bool): (m: Mirror)
    ensures StateOfValue(m.currentState) == Some(Undefined) && m.switchingState == m.currentState
    ensures ModeName(m.currentMode) == "UNDEFINED" && m.switchingMode == m.currentMode
    ensures m.waitingForNewMode == waitingForNewMode && m.waitingForNewState == waitingForNewState
  {
    Mirror(ModeUndefined, ModeUndefined, StateValue(Undefined), StateValue(Undefined),
           waitingForNewMode, waitingForNewState)
  }

  /** A node fresh from `init` receiving the coordinator's start-up Status
      messages: the first, sent by `on_mode_changed` before activation,
      carries (UNDEFINED, MANUAL), so only the mode changes and the hook runs
      once; the second, sent once the fan-out of ABORTED succeeded, carries
      (ABORTED, MANUAL), so only the state changes and the hook runs once more. */
  lemma FreshNodeAdoptsStartupStatus(waitingForNewMode: bool, waitingForNewState: bool)
    ensures var m0 := InitMirror(waitingForNewMode, waitingForNewState);
      var (m1, calls1) := OnStatusChanged(m0, Status(StateValue(Undefined), ModeManual));
      var (m2, calls2) := OnStatusChanged(m1, Status(StateValue(Aborted), ModeManual));
      && m1 == m0.(currentMode := ModeManual, waitingForNewMode := false) && calls1 == 1
      && StateOfValue(m2.currentState) == Some(Aborted) && m2.currentMode == ModeManual
      && !m2.waitingForNewState && !m2.waitingForNewMode && calls2 == 1
  {
  }

  /** The message a request made while another switch is pending would get. */
  function PendingMessage(m: Mirror): string {
    if m.waitingForNewState then "Changing state but already waiting on new state"
    else if m.waitingForNewMode then "Changing state but mode change is still active"
    else ""
  }

  /** `onStateTranseReq`, given the verdict of the node's `on_state_trans_req`
      hook: an approval records the requested state as the one being switched
      to; the reply carries a message only when it refuses. */
  function OnStateTransReq(m: Mirror, state: int, approves: bool): (r: (Reply, Mirror))
    ensures r.0.success == approves
    ensures approves ==>
      && r.1.waitingForNewState && r.1.switchingState == state
      && r.1.(waitingForNewState := m.waitingForNewState, switchingState := m.switchingState) == m
      && r.0.message == ""
    ensures !approves ==> r.1 == m && r.0.message == "Node did not approve state switch"
  {
    var pending := PendingMessage(m);
    var (success, error, m') :=
      if approves then (true, pending, m.(waitingForNewState := true, switchingState := state))
      else (false, "Node did not approve state switch", m);
    (Reply(success, if !success then error else ""), m')
  }

  /** `onModeTransReq`, the same for a mode, given the verdict of the node's
      `on_mode_trans_req` hook. */
  function OnModeTransReq(m: Mirror, mode: int, approves: bool): (r: (Reply, Mirror))
    ensures r.0.success == approves
    ensures approves ==>
      && r.1.waitingForNewMode && r.1.switchingMode == mode
      && r.1.(waitingForNewMode := m.waitingForNewMode, switchingMode := m.switchingMode) == m
      && r.0.message == ""
    ensures !approves ==> r.1 == m && r.0.message == "Node did not approve mode switch"
  {
    var pending := PendingMessage(m);
    var (success, error, m') :=
      if approves then (true, pending, m.(waitingForNewMode := true, switchingMode := mode))
      else (false, "Node did not approve mode switch", m);
    (Reply(success, if !success then error else ""), m')
  }

  /** A pending switch never changes a reply: the message it sets is either
      overwritten by the refusal or dropped with the approval. */
  lemma PendingFlagsNeverReachTheReply(m: Mirror, wm: bool, ws: bool, value: int, approves: bool)
    ensures OnStateTransReq(m, value, approves).0 ==
            OnStateTransReq(m.(waitingForNewMode := wm, waitingForNewState := ws), value, approves).0
    ensures OnModeTransReq(m, value, approves).0 ==
            OnModeTransReq(m.(waitingForNewMode := wm, waitingForNewState := ws), value, approves).0
  {
  }

  /** `onStatusChanged`: adopt a state that differs from the current one and stop
      waiting, even when it is not the state being switched to; then the same
      for the mode. Also returns how often the `on_status_changed` hook is called. */
  function OnStatusChanged(m: Mirror, status: Status): (r: (Mirror, nat))
    ensures r.0.currentState == status.state && r.0.currentMode == status.mode
    ensures r.0.switchingState == m.switchingState && r.0.switchingMode == m.switchingMode
    ensures r.0.waitingForNewState <==> m.waitingForNewState && status.state == m.currentState
    ensures r.0.waitingForNewMode <==> m.waitingForNewMode && status.mode == m.currentMode
    ensures r.1 <= 2
    ensures r.1 == 0 <==> r.0 == m
    ensures r.1 == 2 <==> status.state != m.currentState && status.mode != m.currentMode
  {
    var (m1, n1) :=
      if m.currentState != status.state then (m.(currentState := status.state, waitingForNewState := false), 1)
      else (m, 0);
    var (m2, n2) :=
      if m1.currentMode != status.mode then (m1.(currentMode := status.mode, waitingForNewMode := false), 1)
      else (m1, 0);
    (m2, n1 + n2)
  }

  /** Status messages received one after another, with the hook calls they make in all. */
  function OnStatuses(m: Mirror, statuses: seq<Status>): (r: (Mirror, nat))
    decreases |statuses|
  {
    if |statuses| == 0 then (m, 0)
    else
      var (m1, n1) := OnStatusChanged(m, statuses[0]);
      var (m2, n2) := OnStatuses(m1, statuses[1..]);
      (m2, n1 + n2)
  }

  lemma OnStatusesCons(m: Mirror, status: Status, rest: seq<Status>)
    ensures OnStatuses(m, [status] + rest) ==
      (OnStatuses(OnStatusChanged(m, status).0, rest).0,
       OnStatusChanged(m, status).1 + OnStatuses(OnStatusChanged(m, status).0, rest).1)
  {
    assert ([status] + rest)[1..] == rest;
  }

  /** A repeated Status message changes nothing and calls back nobody. */
  lemma StatusUpdateIdempotent(m: Mirror, status: Status)
    ensures OnStatusChanged(OnStatusChanged(m, status).0, status) == (OnStatusChanged(m, status).0, 0)
  {
  }

  /** An approved state request followed by the Status message announcing that
      state leaves the node settled in it, after exactly one callback. */
  lemma ApprovedRequestThenStatus(m: Mirror, state: int)
    requires state != m.currentState
    ensures var (reply, m1) := OnStateTransReq(m, state, true);
      var (m2, calls) := OnStatusChanged(m1, Status(state, m.currentMode));
      && reply.success
      && m2.currentState == state && m2.switchingState == state
      && !m2.waitingForNewState && m2.waitingForNewMode == m.waitingForNewMode
      && calls == 1
  {
  }
}
