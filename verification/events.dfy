/** The events posted to the machine: command events (cmd_event.hpp), error
    events (error_event.hpp) and state-complete events, each tagged with a
    `QEvent` type number. */
module Events {

  import opened Basics
  import opened Common

  /** `QEvent::User`, the first type number Qt leaves to applications. */
  const QEventUser: int := 1000

  const CmdEventType: int := QEventUser + 1
  /** The state-complete type number; sc_event.hpp is not part of this model,
      the value here only has to differ from the other two. */
  const StateCompleteEventType: int := QEventUser + 2
  const ErrorEventType: int := QEventUser + 3

  datatype Event =
    | CmdEvent(cmd: TransitionCmd)
    | ErrorEvent(code: int)
    | StateCompleteEvent
      /** Any other event Qt may hand the machine, with its own type number. */
    | OtherEvent(typeNumber: int)

  function EventType(e: Event): int {
    match e
    case CmdEvent(_) => CmdEventType
    case ErrorEvent(_) => ErrorEventType
    case StateCompleteEvent => StateCompleteEventType
    case OtherEvent(t) => t
  }

  /** The three application event types are pairwise distinct. */
  lemma EventTypesDistinct(e: Event, f: Event)
    requires !e.OtherEvent? && !f.OtherEvent?
    ensures EventType(e) == EventType(f) <==> e.CmdEvent? == f.CmdEvent? && e.ErrorEvent? == f.ErrorEvent?
  {
  }

  // ---- the command-event factories ----

  function ClearEvent(): Event { CmdEvent(Clear) }
  function StartEvent(): Event { CmdEvent(Start) }
  function StopEvent(): Event { CmdEvent(Stop) }
  function HoldEvent(): Event { CmdEvent(Hold) }
  function AbortEvent(): Event { CmdEvent(Abort) }
  function ResetEvent(): Event { CmdEvent(Reset) }
  function SuspendEvent(): Event { CmdEvent(Suspend) }
  function UnsuspendEvent(): Event { CmdEvent(Unsuspend) }
  function UnholdEvent(): Event { CmdEvent(Unhold) }

  /** The factory for a command, if there is one: every command but NO_COMMAND has one. */
  function CmdEventFactory(c: TransitionCmd): Option<Event> {
    match c
    case NoCommand => None
    case Reset => Some(ResetEvent())
    case Start => Some(StartEvent())
    case Stop => Some(StopEvent())
    case Hold => Some(HoldEvent())
    case Unhold => Some(UnholdEvent())
    case Suspend => Some(SuspendEvent())
    case Unsuspend => Some(UnsuspendEvent())
    case Abort => Some(AbortEvent())
    case Clear => Some(ClearEvent())
  }

  /** Each factory makes a command event of type `QEvent::User + 1` carrying the
      command it is named after; no factory makes NO_COMMAND. */
  lemma CmdEventFactories(c: TransitionCmd)
    ensures CmdEventFactory(c).Some? <==> c != NoCommand
    ensures CmdEventFactory(c).Some? ==>
      && CmdEventFactory(c).value == CmdEvent(c)
      && EventType(CmdEventFactory(c).value) == CmdEventType
  {
  }
}
