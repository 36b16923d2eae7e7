/** The shared vocabulary of the PackML state machine (common.hpp): the
    eighteen machine states, the two super-states, the operating modes and the
    ten transition commands, with their numeric values and printed names. */
module Common {

  import opened Basics
  import Decimal

  /** A PackML state, numbered as in the State message (0 .. 17). */
  datatype State =
    | Undefined | Clearing | Stopped | Starting | Idle | Suspended
    | Execute | Stopping | Aborting | Aborted | Holding | Held
    | Unholding | Suspending | Unsuspending | Resetting | Completing | Complete

  const StateCount: nat := 18

  function StateValue(s: State): (v: int)
    ensures 0 <= v < StateCount
  {
    match s
    case Undefined => 0
    case Clearing => 1
    case Stopped => 2
    case Starting => 3
    case Idle => 4
    case Suspended => 5
    case Execute => 6
    case Stopping => 7
    case Aborting => 8
    case Aborted => 9
    case Holding => 10
    case Held => 11
    case Unholding => 12
    case Suspending => 13
    case Unsuspending => 14
    case Resetting => 15
    case Completing => 16
    case Complete => 17
  }

  /** The enumerator a raw value names, if any (a `static_cast<State>` that lands on one). */
  function StateOfValue(v: int): (r: Option<State>)
    ensures r.Some? <==> 0 <= v < StateCount
    ensures r.Some? ==> StateValue(r.value) == v
  {
    if v == 0 then Some(Undefined)
    else if v == 1 then Some(Clearing)
    else if v == 2 then Some(Stopped)
    else if v == 3 then Some(Starting)
    else if v == 4 then Some(Idle)
    else if v == 5 then Some(Suspended)
    else if v == 6 then Some(Execute)
    else if v == 7 then Some(Stopping)
    else if v == 8 then Some(Aborting)
    else if v == 9 then Some(Aborted)
    else if v == 10 then Some(Holding)
    else if v == 11 then Some(Held)
    else if v == 12 then Some(Unholding)
    else if v == 13 then Some(Suspending)
    else if v == 14 then Some(Unsuspending)
    else if v == 15 then Some(Resetting)
    else if v == 16 then Some(Completing)
    else if v == 17 then Some(Complete)
    else None
  }

  /** The value numbering is a bijection between the states and 0 .. 17. */
  lemma StateValueRoundTrip(s: State)
    ensures StateOfValue(StateValue(s)) == Some(s)
  {
  }

  predicate IsNameChar(c: char) {
    'A' <= c <= 'Z' || c == '_'
  }

  /** `to_string(State)` on one of the eighteen enumerators. */
  function StateName(s: State): string {
    match s
    case Undefined => "UNDEFINED"
    case Clearing => "CLEARING"
    case Stopped => "STOPPED"
    case Starting => "STARTING"
    case Idle => "IDLE"
    case Suspended => "SUSPENDED"
    case Execute => "EXECUTE"
    case Stopping => "STOPPING"
    case Aborting => "ABORTING"
    case Aborted => "ABORTED"
    case Holding => "HOLDING"
    case Held => "HELD"
    case Unholding => "UNHOLDING"
    case Suspending => "SUSPENDING"
    case Unsuspending => "UNSUSPENDING"
    case Resetting => "RESETTING"
    case Completing => "COMPLETING"
    case Complete => "COMPLETE"
  }

  /** The seventeen machine states' names, spelled out. */
  lemma StateNameSpelling()
    ensures StateName(Undefined) == "UNDEFINED"
    ensures StateName(Aborting) == "ABORTING"
    ensures StateName(Aborted) == "ABORTED"
    ensures StateName(Clearing) == "CLEARING"
    ensures StateName(Stopping) == "STOPPING"
    ensures StateName(Stopped) == "STOPPED"
    ensures StateName(Resetting) == "RESETTING"
    ensures StateName(Idle) == "IDLE"
    ensures StateName(Starting) == "STARTING"
    ensures StateName(Execute) == "EXECUTE"
    ensures StateName(Holding) == "HOLDING"
    ensures StateName(Held) == "HELD"
    ensures StateName(Unholding) == "UNHOLDING"
    ensures StateName(Suspending) == "SUSPENDING"
    ensures StateName(Suspended) == "SUSPENDED"
    ensures StateName(Unsuspending) == "UNSUSPENDING"
    ensures StateName(Completing) == "COMPLETING"
    ensures StateName(Complete) == "COMPLETE"
  {
  }

  /** `to_string(State)` on a raw value: a value outside the enumerators prints as its number. */
  function StateValueName(v: int): string {
    match StateOfValue(v)
    case Some(s) => StateName(s)
    case None => Decimal.IntToDecimal(v)
  }

  /** A decimal rendering starts with a sign or a digit, which no enumerator
      name starts with. */
  lemma DecimalIsNoName(v: int, name: string)
    requires |name| > 0 && IsNameChar(name[0])
    ensures Decimal.IntToDecimal(v) != name
  {
    var d := Decimal.IntToDecimal(v);
    assert !IsNameChar(d[0]);
  }

  /** The eighteen names are pairwise distinct, and a raw value outside 0 .. 17
      prints as its decimal number, which is no state's name. */
  lemma StateNamesDistinct(v: int, w: int)
    ensures StateValueName(v) == StateValueName(w) ==> v == w
    ensures StateOfValue(v).None? ==> StateValueName(v) == Decimal.IntToDecimal(v)
  {
    match (StateOfValue(v), StateOfValue(w))
    case (Some(s), Some(t)) =>
      StateNameInjective(s, t);
    case (Some(s), None) =>
      StateNameStartsWithLetter(s);
      DecimalIsNoName(w, StateName(s));
    case (None, Some(t)) =>
      StateNameStartsWithLetter(t);
      DecimalIsNoName(v, StateName(t));
    case (None, None) =>
      DecimalInjective(v, w);
  }

  lemma StateNameStartsWithLetter(s: State)
    ensures |StateName(s)| > 0 && IsNameChar(StateName(s)[0])
  {
  }

  lemma StateNameInjective(s: State, t: State)
    ensures StateName(s) == StateName(t) ==> s == t
  {
  }

  lemma DecimalInjective(v: int, w: int)
    ensures Decimal.IntToDecimal(v) == Decimal.IntToDecimal(w) ==> v == w
  {
    if Decimal.IntToDecimal(v) == Decimal.IntToDecimal(w) {
      var a: nat := if v < 0 then -v else v;
      var b: nat := if w < 0 then -w else w;
      Decimal.DigitsValueOfDecimal(a);
      Decimal.DigitsValueOfDecimal(b);
      if v < 0 {
        assert Decimal.NatToDecimal(a) == Decimal.IntToDecimal(v)[1..];
        assert Decimal.NatToDecimal(b) == Decimal.IntToDecimal(w)[1..];
      }
    }
  }

  /** The two containment scopes that are not themselves machine states. */
  datatype SuperState = Abortable | Stoppable

  function SuperStateValue(s: SuperState): int {
    match s
    case Abortable => 0
    case Stoppable => 1
  }

  function SuperStateName(s: SuperState): string {
    match s
    case Abortable => "ABORTABLE"
    case Stoppable => "STOPPABLE"
  }

  /** The super-state numbering and naming are both one-to-one. */
  lemma SuperStateNamesDistinct(s: SuperState, t: SuperState)
    ensures SuperStateValue(s) == SuperStateValue(t) ==> s == t
    ensures SuperStateName(s) == SuperStateName(t) ==> s == t
    ensures SuperStateName(s) != StateName(Undefined)
  {
  }

  /** Operating modes are open-ended integers: 0 .. 3 are named, larger values are user defined. */
  type ModeType = int

  const ModeUndefined: ModeType := 0
  const ModeProduction: ModeType := 1
  const ModeMaintenance: ModeType := 2
  const ModeManual: ModeType := 3

  /** `to_string(ModeType)`. */
  function ModeName(m: ModeType): string {
    if m == ModeUndefined then "UNDEFINED"
    else if m == ModeProduction then "PRODUCTION"
    else if m == ModeMaintenance then "MAINTENANCE"
    else if m == ModeManual then "MANUAL"
    else if m > ModeManual then "USER_DEFINED"
    else Decimal.IntToDecimal(m)
  }

  /** Every mode above MANUAL shares one name; a negative mode prints its number;
      the four named modes and "USER_DEFINED" are five different strings. */
  lemma ModeNameCases(m: ModeType, n: ModeType)
    ensures m > ModeManual ==> ModeName(m) == "USER_DEFINED"
    ensures m < 0 ==> ModeName(m) == Decimal.IntToDecimal(m) && ModeName(m)[0] == '-'
    ensures 0 <= m <= ModeManual && 0 <= n && ModeName(m) == ModeName(n) ==> m == n
    ensures ModeName(m) != ""
  {
  }

  /** A transition command, numbered as in the Transition service (0 .. 9). */
  datatype TransitionCmd =
    | NoCommand | Reset | Start | Stop | Hold | Unhold | Suspend | Unsuspend | Abort | Clear

  function CmdValue(c: TransitionCmd): int {
    match c
    case NoCommand => 0
    case Reset => 1
    case Start => 2
    case Stop => 3
    case Hold => 4
    case Unhold => 5
    case Suspend => 6
    case Unsuspend => 7
    case Abort => 8
    case Clear => 9
  }

  function CmdName(c: TransitionCmd): string {
    match c
    case NoCommand => "NO_COMMAND"
    case Reset => "RESET"
    case Start => "START"
    case Stop => "STOP"
    case Hold => "HOLD"
    case Unhold => "UNHOLD"
    case Suspend => "SUSPEND"
    case Unsuspend => "UNSUSPEND"
    case Abort => "ABORT"
    case Clear => "CLEAR"
  }

  /** Commands are numbered 0 .. 9 with NO_COMMAND first, and both the numbering
      and the names are one-to-one. */
  lemma CmdNumberingAndNames(c: TransitionCmd, d: TransitionCmd)
    ensures 0 <= CmdValue(c) <= 9
    ensures CmdValue(c) == 0 <==> c == NoCommand
    ensures CmdValue(c) == CmdValue(d) ==> c == d
    ensures CmdName(c) == CmdName(d) ==> c == d
  {
  }
}
