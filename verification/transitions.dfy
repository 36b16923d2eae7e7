/** The edges of the machine: command transitions (cmd_transition.hpp), the
    availability-gated transition (packml_transitions.hpp) and the
    state-complete transition (sc_transition.cpp). An edge is data: where it
    hangs, what fires it and where it leads. */
module Transitions {

  import opened Basics
  import opened Common
  import opened Events

  /** A `CmdTransition`: the command that fires it and its name. */
  datatype CmdTransition = CmdTransition(cmd: TransitionCmd, name: string)

  // ---- the zero-argument factories, named after their command ----

  function ClearTransition(): CmdTransition { CmdTransition(Clear, CmdName(Clear)) }
  function StartTransition(): CmdTransition { CmdTransition(Start, CmdName(Start)) }
  function StopTransition(): CmdTransition { CmdTransition(Stop, CmdName(Stop)) }
  function HoldTransition(): CmdTransition { CmdTransition(Hold, CmdName(Hold)) }
  function UnholdTransition(): CmdTransition { CmdTransition(Unhold, CmdName(Unhold)) }
  function AbortTransition(): CmdTransition { CmdTransition(Abort, CmdName(Abort)) }
  function ResetTransition(): CmdTransition { CmdTransition(Reset, CmdName(Reset)) }
  function SuspendTransition(): CmdTransition { CmdTransition(Suspend, CmdName(Suspend)) }
  function UnsuspendTransition(): CmdTransition { CmdTransition(Unsuspend, CmdName(Unsuspend)) }

  /** The zero-argument factory for a command; NO_COMMAND has none. */
  function CmdTransitionFactory(c: TransitionCmd): Option<CmdTransition> {
    match c
    case NoCommand => None
    case Reset => Some(ResetTransition())
    case Start => Some(StartTransition())
    case Stop => Some(StopTransition())
    case Hold => Some(HoldTransition())
    case Unhold => Some(UnholdTransition())
    case Suspend => Some(SuspendTransition())
    case Unsuspend => Some(UnsuspendTransition())
    case Abort => Some(AbortTransition())
    case Clear => Some(ClearTransition())
  }

  /** Every command but NO_COMMAND has a factory, whose transition carries that
      command and is named by `to_string` of it. */
  lemma CmdTransitionFactories(c: TransitionCmd)
    ensures CmdTransitionFactory(c).Some? <==> c != NoCommand
    ensures CmdTransitionFactory(c).Some? ==>
      CmdTransitionFactory(c).value == CmdTransition(c, CmdName(c))
  {
  }

  function AsciiLower(c: char): char {
    if 'A' <= c <= 'Z' then (c as int + 32) as char else c
  }

  /** `std::tolower` applied to every character. */
  function ToLower(s: string): string {
    if |s| == 0 then [] else [AsciiLower(s[0])] + ToLower(s[1..])
  }

  /** Lowering keeps the length and lowers each character in place. */
  lemma {:induction false} ToLowerChars(s: string)
    ensures |ToLower(s)| == |s|
    ensures forall i :: 0 <= i < |s| ==> ToLower(s)[i] == AsciiLower(s[i])
  {
    if |s| > 0 {
      ToLowerChars(s[1..]);
      forall i | 0 < i < |s|
        ensures ToLower(s)[i] == AsciiLower(s[i])
      {
        assert ToLower(s)[i] == ToLower(s[1..])[i - 1];
      }
    }
  }

  /** The name the two-argument (from, to) factories give their transition. */
  function BetweenName(c: TransitionCmd): string {
    match c
    case NoCommand => ""
    case Reset => "reset"
    case Start => "start"
    case Stop => "stop"
    case Hold => "hold"
    case Unhold => "unhold"
    case Suspend => "suspend"
    case Unsuspend => "unsuspend"
    case Abort => "abort"
    case Clear => "clear"
  }

  /** Character by character, the two-argument name is the zero-argument one
      lowered, and the first characters already differ. */
  lemma BetweenNameChars(c: TransitionCmd)
    requires c != NoCommand
    ensures |BetweenName(c)| == |CmdName(c)|
    ensures forall i :: 0 <= i < |CmdName(c)| ==> BetweenName(c)[i] == AsciiLower(CmdName(c)[i])
    ensures BetweenName(c)[0] != CmdName(c)[0]
  {
  }

  /** The two-argument factories name their transition by the lower-case spelling
      of the name the zero-argument factory uses, so the two never coincide. */
  lemma BetweenNamesAreLowercase(c: TransitionCmd)
    requires c != NoCommand
    ensures BetweenName(c) == ToLower(CmdName(c))
    ensures BetweenName(c) != CmdName(c)
  {
    BetweenNameChars(c);
    ToLowerChars(CmdName(c));
  }

  // ---- the availability-gated transition (PackmlTransition) ----

  /** The result of an `eventTest`: whether the edge fires, and whether the event
      was marked ignored. */
  datatype TestOutcome = TestOutcome(fires: bool, ignored: bool)

  /** `QVariant::toBool` on a state's "Available" property: unset reads false. */
  function AvailableValue(property: Option<bool>): bool {
    property.Some? && property.value
  }

  /** `PackmlTransition::eventTest`, given the target's "Available" property. */
  function PackmlEventTest(e: Event, targetAvailable: Option<bool>): (r: TestOutcome)
    ensures r.fires <==> targetAvailable == Some(true)
    ensures r.ignored <==> !r.fires
  {
    if AvailableValue(targetAvailable) then TestOutcome(true, false) else TestOutcome(false, true)
  }

  /** The gated test never looks at the event: two events give the same outcome. */
  lemma PackmlEventTestIgnoresEvent(e: Event, f: Event, targetAvailable: Option<bool>)
    ensures PackmlEventTest(e, targetAvailable) == PackmlEventTest(f, targetAvailable)
  {
  }

  // ---- the state-complete transition ----

  /** `StateCompleteTransition::eventTest`: fires exactly on the state-complete type. */
  function StateCompleteEventTest(e: Event): (fires: bool)
    ensures fires <==> e == StateCompleteEvent || e == OtherEvent(StateCompleteEventType)
  {
    EventType(e) == StateCompleteEventType
  }

  /** Command and error events never fire a completion edge. */
  lemma CompletionIgnoresCommandsAndErrors(c: TransitionCmd, code: int)
    ensures !StateCompleteEventTest(CmdEvent(c))
    ensures !StateCompleteEventTest(ErrorEvent(code))
    ensures StateCompleteEventTest(StateCompleteEvent)
  {
  }

  // ---- edges ----

  /** Where an edge hangs: on a machine state, or on a super-state (and so on
      everything nested in it). */
  datatype Scope = InState(state: State) | InSuper(super: SuperState)

  /** What fires an edge: a command transition's label, an error, or completion. */
  datatype Trigger = OnCmd(transition: CmdTransition) | OnError | OnComplete

  datatype Edge = Edge(from: Scope, trigger: Trigger, to: State)
}
