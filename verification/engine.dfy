/** The PackML state machine (state_machine.hpp, state_machine.cpp) as a pure
    transition system over the graph the generator builds: which edge an event
    fires, the state entered, the promise a command resolves, `changeState`,
    `changeMode`, `setState` and the two cycle variants. */
module Engine {

  import opened Basics
  import opened Common
  import opened States
  import opened Events
  import opened Transitions
  import opened Generator

  /** SINGLE CYCLE ends EXECUTE in COMPLETING; CONTINUOUS CYCLE loops EXECUTE on itself. */
  datatype Variant = SingleCycle | ContinuousCycle

  /** Whether command edges, and the error edge, consult their target's
      "Available" property the way `PackmlTransition::eventTest` does. The
      command and error tests' bodies are not part of this model, so the choice
      is a parameter; completion edges never consult it. */
  datatype MaskPolicy = MaskPolicy(commandsMasked: bool, errorsMasked: bool)

  // ---- the edges of each variant ----

  /** The edges of `es` that do not lead to `t`, in order. */
  function KeepNotTo(es: seq<Edge>, t: State): (r: seq<Edge>)
    ensures forall i :: 0 <= i < |r| ==> r[i].to != t && r[i] in es
    ensures |r| + CountTo(es, t) == |es|
  {
    if |es| == 0 then []
    else if es[0].to == t then KeepNotTo(es[1..], t)
    else [es[0]] + KeepNotTo(es[1..], t)
  }

  function CountTo(es: seq<Edge>, t: State): nat {
    if |es| == 0 then 0 else (if es[0].to == t then 1 else 0) + CountTo(es[1..], t)
  }

  /** `n` completion edges from `s` back to itself. */
  function SelfCompletions(s: State, n: nat): (r: seq<Edge>)
    ensures |r| == n
    ensures forall i :: 0 <= i < n ==> r[i] == Wire(InState(s), s, StateCompleted)
  {
    if n == 0 then [] else SelfCompletions(s, n - 1) + [Wire(InState(s), s, StateCompleted)]
  }

  /** The edges hanging on a scope once the variant's `init` has run. CONTINUOUS
      CYCLE removes each EXECUTE edge into COMPLETING and appends, for each, a
      completion edge from EXECUTE to itself. */
  function EdgesOf(variant: Variant, from: Scope): seq<Edge> {
    if variant == ContinuousCycle && from == InState(Execute) then
      KeepNotTo(OwnEdges(from), Completing) + SelfCompletions(Execute, CountTo(OwnEdges(from), Completing))
    else OwnEdges(from)
  }

  /** Only EXECUTE's edges differ between the variants: SINGLE CYCLE keeps the
      completion edge into COMPLETING, CONTINUOUS CYCLE turns it into one back
      into EXECUTE and keeps HOLD and SUSPEND. */
  lemma VariantEdges(from: Scope)
    ensures from != InState(Execute) ==> EdgesOf(ContinuousCycle, from) == EdgesOf(SingleCycle, from)
    ensures EdgesOf(SingleCycle, InState(Execute)) ==
      [CommandEdge(InState(Execute), Hold, Holding), CommandEdge(InState(Execute), Suspend, Suspending),
       Edge(InState(Execute), OnComplete, Completing)]
    ensures EdgesOf(ContinuousCycle, InState(Execute)) ==
      [CommandEdge(InState(Execute), Hold, Holding), CommandEdge(InState(Execute), Suspend, Suspending),
       Edge(InState(Execute), OnComplete, Execute)]
  {
    StateEdgesAreLabelled(Execute);
    var es := OwnEdges(InState(Execute));
    assert es[1..][1..][1..] == [];
    assert KeepNotTo(es, Completing) == es[..2];
    assert CountTo(es, Completing) == 1;
  }

  // ---- firing ----

  /** Whether an edge fires on an event, given the state objects' "Available"
      properties. */
  predicate Fires(e: Edge, ev: Event, sw: Switcher, policy: MaskPolicy) {
    match e.trigger
    case OnCmd(t) =>
      ev.CmdEvent? && ev.cmd == t.cmd &&
      (!policy.commandsMasked || PackmlEventTest(ev, AvailableProperty(sw, e.to)).fires)
    case OnError =>
      ev.ErrorEvent? &&
      (!policy.errorsMasked || PackmlEventTest(ev, AvailableProperty(sw, e.to)).fires)
    case OnComplete => StateCompleteEventTest(ev)
  }

  /** The target of the first edge in `es` that fires, if any. */
  function Select(es: seq<Edge>, ev: Event, sw: Switcher, policy: MaskPolicy): (r: Option<State>)
    ensures r.None? <==> forall i :: 0 <= i < |es| ==> !Fires(es[i], ev, sw, policy)
    ensures r.Some? ==> exists i :: 0 <= i < |es| && Fires(es[i], ev, sw, policy) && es[i].to == r.value
  {
    if |es| == 0 then None
    else if Fires(es[0], ev, sw, policy) then Some(es[0].to)
    else
      var r := Select(es[1..], ev, sw, policy);
      assert forall i :: 1 <= i < |es| ==> es[i] == es[1..][i - 1];
      r
  }

  /** A super-state and the super-states enclosing it, innermost first. */
  function SuperChain(p: Option<SuperState>): seq<Scope>
    decreases if p.Some? then SuperStateValue(p.value) + 1 else 0
  {
    match p
    case None => []
    case Some(q) => [InSuper(q)] + SuperChain(SuperParent(q))
  }

  /** The scopes whose edges apply in state `s`: the state itself, then its ancestors. */
  function Chain(s: State): seq<Scope> {
    [InState(s)] + SuperChain(Parent(s))
  }

  /** The first scope along the chain that has an edge firing decides. */
  function SelectChain(variant: Variant, chain: seq<Scope>, ev: Event, sw: Switcher, policy: MaskPolicy): Option<State> {
    if |chain| == 0 then None
    else
      match Select(EdgesOf(variant, chain[0]), ev, sw, policy)
      case Some(t) => Some(t)
      case None => SelectChain(variant, chain[1..], ev, sw, policy)
  }

  /** The state the machine moves to when `ev` is processed in `s`, if any edge fires. */
  function NextState(variant: Variant, s: State, ev: Event, sw: Switcher, policy: MaskPolicy): Option<State> {
    SelectChain(variant, Chain(s), ev, sw, policy)
  }

  // ---- the PackML table, written out independently ----

  /** The command edges states carry themselves. */
  function OwnCommandTarget(s: State, c: TransitionCmd): Option<State> {
    if s == Aborted && c == Clear then Some(Clearing)
    else if s == Stopped && c == Reset then Some(Resetting)
    else if s == Idle && c == Start then Some(Starting)
    else if s == Execute && c == Hold then Some(Holding)
    else if s == Execute && c == Suspend then Some(Suspending)
    else if s == Held && c == Unhold then Some(Unholding)
    else if s == Suspended && c == Unsuspend then Some(Unsuspending)
    else if s == Complete && c == Reset then Some(Resetting)
    else None
  }

  /** The states STOP applies in: those nested in STOPPABLE. */
  predicate InStoppable(s: State) {
    s in {Resetting, Idle, Starting, Execute, Holding, Held, Unholding,
          Suspending, Suspended, Unsuspending, Completing, Complete}
  }

  /** The states ABORT and errors apply in: every machine state but ABORTING and ABORTED. */
  predicate InAbortable(s: State) {
    s !in {Undefined, Aborting, Aborted}
  }

  /** Where the completion of an acting state leads. */
  function CompletionTarget(variant: Variant, s: State): Option<State> {
    match s
    case Aborting => Some(Aborted)
    case Clearing => Some(Stopped)
    case Stopping => Some(Stopped)
    case Resetting => Some(Idle)
    case Starting => Some(Execute)
    case Execute => if variant == SingleCycle then Some(Completing) else Some(Execute)
    case Holding => Some(Held)
    case Unholding => Some(Execute)
    case Suspending => Some(Suspended)
    case Unsuspending => Some(Execute)
    case Completing => Some(Complete)
    case _ => None
  }

  /** The state an event leads to by the PackML table, before any mask. */
  function TableTarget(variant: Variant, s: State, ev: Event): Option<State> {
    match ev
    case CmdEvent(c) =>
      if OwnCommandTarget(s, c).Some? then OwnCommandTarget(s, c)
      else if c == Stop && InStoppable(s) then Some(Stopping)
      else if c == Abort && InAbortable(s) then Some(Aborting)
      else None
    case ErrorEvent(_) => if InAbortable(s) then Some(Aborting) else None
    case _ => if StateCompleteEventTest(ev) then CompletionTarget(variant, s) else None
  }

  /** Whether the mask lets the event into `t`: completion is never masked. */
  predicate Admits(ev: Event, t: State, sw: Switcher, policy: MaskPolicy) {
    if ev.CmdEvent? then !policy.commandsMasked || AvailableProperty(sw, t) == Some(true)
    else if ev.ErrorEvent? then !policy.errorsMasked || AvailableProperty(sw, t) == Some(true)
    else true
  }

  /** The reference behaviour: the table's target, if the mask admits it. */
  function Expected(variant: Variant, s: State, ev: Event, sw: Switcher, policy: MaskPolicy): Option<State> {
    var t := TableTarget(variant, s, ev);
    if t.Some? && Admits(ev, t.value, sw, policy) then t else None
  }

  // ---- the generated graph behaves as the table says ----

  /** What each scope's own edges do with an event. */
  lemma SuperSelect(variant: Variant, ev: Event, sw: Switcher, policy: MaskPolicy)
    ensures Select(EdgesOf(variant, InSuper(Stoppable)), ev, sw, policy) ==
      (if ev == CmdEvent(Stop) && Admits(ev, Stopping, sw, policy) then Some(Stopping) else None)
    ensures Select(EdgesOf(variant, InSuper(Abortable)), ev, sw, policy) ==
      (if (ev == CmdEvent(Abort) || ev.ErrorEvent?) && Admits(ev, Aborting, sw, policy) then Some(Aborting) else None)
  {
    SuperEdgesAreLabelled(Stoppable);
    SuperEdgesAreLabelled(Abortable);
  }

  lemma SelectCompletion(from: Scope, t: State, ev: Event, sw: Switcher, policy: MaskPolicy)
    ensures Select([Edge(from, OnComplete, t)], ev, sw, policy) ==
      (if StateCompleteEventTest(ev) then Some(t) else None)
  {
  }

  lemma SelectCommand(from: Scope, c: TransitionCmd, t: State, ev: Event, sw: Switcher, policy: MaskPolicy)
    ensures Select([CommandEdge(from, c, t)], ev, sw, policy) ==
      (if ev == CmdEvent(c) && Admits(ev, t, sw, policy) then Some(t) else None)
  {
  }

  /** A state's own edges fire exactly on its own command edges and its completion. */
  lemma StateSelect(variant: Variant, s: State, ev: Event, sw: Switcher, policy: MaskPolicy)
    ensures Select(EdgesOf(variant, InState(s)), ev, sw, policy) == OwnExpected(variant, s, ev, sw, policy)
  {
    StateEdgesAreLabelled(s);
    match s
    case Undefined =>
    case Execute => ExecuteSelect(variant, ev, sw, policy);
    case Aborted => WaitSelect(variant, Aborted, Clear, Clearing, ev, sw, policy);
    case Stopped => WaitSelect(variant, Stopped, Reset, Resetting, ev, sw, policy);
    case Idle => WaitSelect(variant, Idle, Start, Starting, ev, sw, policy);
    case Held => WaitSelect(variant, Held, Unhold, Unholding, ev, sw, policy);
    case Suspended => WaitSelect(variant, Suspended, Unsuspend, Unsuspending, ev, sw, policy);
    case Complete => WaitSelect(variant, Complete, Reset, Resetting, ev, sw, policy);
    case Aborting => ActingSelect(variant, Aborting, Aborted, ev, sw, policy);
    case Clearing => ActingSelect(variant, Clearing, Stopped, ev, sw, policy);
    case Stopping => ActingSelect(variant, Stopping, Stopped, ev, sw, policy);
    case Resetting => ActingSelect(variant, Resetting, Idle, ev, sw, policy);
    case Starting => ActingSelect(variant, Starting, Execute, ev, sw, policy);
    case Holding => ActingSelect(variant, Holding, Held, ev, sw, policy);
    case Unholding => ActingSelect(variant, Unholding, Execute, ev, sw, policy);
    case Suspending => ActingSelect(variant, Suspending, Suspended, ev, sw, policy);
    case Unsuspending => ActingSelect(variant, Unsuspending, Execute, ev, sw, policy);
    case Completing => ActingSelect(variant, Completing, Complete, ev, sw, policy);
  }

  /** A wait state's single command edge fires on its command alone. */
  lemma WaitSelect(variant: Variant, s: State, c: TransitionCmd, t: State, ev: Event, sw: Switcher, policy: MaskPolicy)
    requires s != Execute && OwnEdges(InState(s)) == [CommandEdge(InState(s), c, t)]
    requires forall d :: OwnCommandTarget(s, d) == (if d == c then Some(t) else None)
    requires CompletionTarget(variant, s) == None
    ensures Select(EdgesOf(variant, InState(s)), ev, sw, policy) == OwnExpected(variant, s, ev, sw, policy)
  {
    VariantEdges(InState(s));
    SelectCommand(InState(s), c, t, ev, sw, policy);
  }

  /** An acting state's single completion edge fires on completion alone. */
  lemma ActingSelect(variant: Variant, s: State, t: State, ev: Event, sw: Switcher, policy: MaskPolicy)
    requires s != Execute && OwnEdges(InState(s)) == [Edge(InState(s), OnComplete, t)]
    requires forall d :: OwnCommandTarget(s, d) == None
    requires CompletionTarget(variant, s) == Some(t)
    ensures Select(EdgesOf(variant, InState(s)), ev, sw, policy) == OwnExpected(variant, s, ev, sw, policy)
  {
    VariantEdges(InState(s));
    SelectCompletion(InState(s), t, ev, sw, policy);
  }

  lemma ExecuteSelect(variant: Variant, ev: Event, sw: Switcher, policy: MaskPolicy)
    ensures Select(EdgesOf(variant, InState(Execute)), ev, sw, policy) == OwnExpected(variant, Execute, ev, sw, policy)
  {
    ExecuteFirstFiring(variant, ev, sw, policy);
    ExecuteOwnExpected(variant, ev, sw, policy);
  }

  /** EXECUTE tries HOLD, then SUSPEND, then its completion. */
  lemma ExecuteFirstFiring(variant: Variant, ev: Event, sw: Switcher, policy: MaskPolicy)
    ensures Select(EdgesOf(variant, InState(Execute)), ev, sw, policy) ==
      (if ev == CmdEvent(Hold) && Admits(ev, Holding, sw, policy) then Some(Holding)
       else if ev == CmdEvent(Suspend) && Admits(ev, Suspending, sw, policy) then Some(Suspending)
       else if StateCompleteEventTest(ev) then CompletionTarget(variant, Execute)
       else None)
  {
    var hold := CommandEdge(InState(Execute), Hold, Holding);
    var suspend := CommandEdge(InState(Execute), Suspend, Suspending);
    var done := Edge(InState(Execute), OnComplete, CompletionTarget(variant, Execute).value);
    ExecuteEdges(variant);
    ThreeEdgeSelect(hold, suspend, done, ev, sw, policy);
    FiresCommandEdge(InState(Execute), Hold, Holding, ev, sw, policy);
    FiresCommandEdge(InState(Execute), Suspend, Suspending, ev, sw, policy);
    assert hold.to == Holding && suspend.to == Suspending;
    assert Fires(done, ev, sw, policy) <==> StateCompleteEventTest(ev);
    assert CompletionTarget(variant, Execute) == Some(done.to);
  }

  /** The reference's answer in EXECUTE, edge by edge. */
  lemma ExecuteOwnExpected(variant: Variant, ev: Event, sw: Switcher, policy: MaskPolicy)
    ensures OwnExpected(variant, Execute, ev, sw, policy) ==
      (if ev == CmdEvent(Hold) && Admits(ev, Holding, sw, policy) then Some(Holding)
       else if ev == CmdEvent(Suspend) && Admits(ev, Suspending, sw, policy) then Some(Suspending)
       else if StateCompleteEventTest(ev) then CompletionTarget(variant, Execute)
       else None)
  {
    if ev.CmdEvent? {
      ExecuteOwnCommands(ev.cmd);
    }
  }

  /** EXECUTE's own command edges are HOLD and SUSPEND. */
  lemma ExecuteOwnCommands(c: TransitionCmd)
    ensures OwnCommandTarget(Execute, c) ==
      (if c == Hold then Some(Holding) else if c == Suspend then Some(Suspending) else None)
  {
  }

  lemma ExecuteEdges(variant: Variant)
    ensures EdgesOf(variant, InState(Execute)) ==
      [CommandEdge(InState(Execute), Hold, Holding), CommandEdge(InState(Execute), Suspend, Suspending),
       Edge(InState(Execute), OnComplete, CompletionTarget(variant, Execute).value)]
  {
    VariantEdges(InState(Execute));
    if variant == SingleCycle {
      assert CompletionTarget(variant, Execute).value == Completing;
    } else {
      assert CompletionTarget(variant, Execute).value == Execute;
    }
  }

  lemma FiresCommandEdge(from: Scope, c: TransitionCmd, t: State, ev: Event, sw: Switcher, policy: MaskPolicy)
    ensures Fires(CommandEdge(from, c, t), ev, sw, policy) <==> ev == CmdEvent(c) && Admits(ev, t, sw, policy)
  {
  }

  lemma ThreeEdgeSelect(a: Edge, b: Edge, c: Edge, ev: Event, sw: Switcher, policy: MaskPolicy)
    ensures Select([a, b, c], ev, sw, policy) ==
      (if Fires(a, ev, sw, policy) then Some(a.to)
       else if Fires(b, ev, sw, policy) then Some(b.to)
       else if Fires(c, ev, sw, policy) then Some(c.to)
       else None)
  {
    SelectCons(a, [b, c], ev, sw, policy);
    SelectCons(b, [c], ev, sw, policy);
    SelectCons(c, [], ev, sw, policy);
    assert [a, b, c] == [a] + [b, c] && [b, c] == [b] + [c] && [c] == [c] + [];
  }

  lemma SelectCons(e: Edge, rest: seq<Edge>, ev: Event, sw: Switcher, policy: MaskPolicy)
    ensures Select([e] + rest, ev, sw, policy) ==
      (if Fires(e, ev, sw, policy) then Some(e.to) else Select(rest, ev, sw, policy))
  {
    assert ([e] + rest)[1..] == rest;
  }

  /** The part of the reference decided by a state's own edges. */
  function OwnExpected(variant: Variant, s: State, ev: Event, sw: Switcher, policy: MaskPolicy): Option<State> {
    match ev
    case CmdEvent(c) =>
      if OwnCommandTarget(s, c).Some? && Admits(ev, OwnCommandTarget(s, c).value, sw, policy)
      then OwnCommandTarget(s, c) else None
    case ErrorEvent(_) => None
    case _ => if StateCompleteEventTest(ev) then CompletionTarget(variant, s) else None
  }

  /** The first of two answers that has one. */
  function Either(a: Option<State>, b: Option<State>): Option<State> {
    if a.Some? then a else b
  }

  /** What the super-state edges above a state do with an event. */
  function EnclosingExpected(p: Option<SuperState>, ev: Event, sw: Switcher, policy: MaskPolicy): Option<State> {
    var abort := if (ev == CmdEvent(Abort) || ev.ErrorEvent?) && Admits(ev, Aborting, sw, policy) then Some(Aborting) else None;
    var stop := if ev == CmdEvent(Stop) && Admits(ev, Stopping, sw, policy) then Some(Stopping) else None;
    match p
    case None => None
    case Some(Abortable) => abort
    case Some(Stoppable) => Either(stop, abort)
  }

  lemma SelectChainCons(variant: Variant, sc: Scope, rest: seq<Scope>, ev: Event, sw: Switcher, policy: MaskPolicy)
    ensures SelectChain(variant, [sc] + rest, ev, sw, policy) ==
      Either(Select(EdgesOf(variant, sc), ev, sw, policy), SelectChain(variant, rest, ev, sw, policy))
  {
    assert ([sc] + rest)[1..] == rest;
  }

  /** The chain is tried scope by scope: the state's own edges, then its enclosing super-states'. */
  lemma ChainDecomposition(variant: Variant, s: State, ev: Event, sw: Switcher, policy: MaskPolicy)
    ensures NextState(variant, s, ev, sw, policy) ==
      Either(OwnExpected(variant, s, ev, sw, policy), EnclosingExpected(Parent(s), ev, sw, policy))
  {
    StateSelect(variant, s, ev, sw, policy);
    EnclosingChain(variant, InState(s), Parent(s), ev, sw, policy);
  }

  lemma EnclosingChain(variant: Variant, own: Scope, p: Option<SuperState>, ev: Event, sw: Switcher, policy: MaskPolicy)
    ensures SelectChain(variant, [own] + SuperChain(p), ev, sw, policy) ==
      Either(Select(EdgesOf(variant, own), ev, sw, policy), EnclosingExpected(p, ev, sw, policy))
  {
    SuperSelect(variant, ev, sw, policy);
    var abortable: seq<Scope> := [InSuper(Abortable)];
    SelectChainCons(variant, InSuper(Abortable), [], ev, sw, policy);
    match p {
      case Some(Stoppable) =>
        assert [own] + SuperChain(p) == [own] + ([InSuper(Stoppable)] + abortable);
        SelectChainCons(variant, own, [InSuper(Stoppable)] + abortable, ev, sw, policy);
        SelectChainCons(variant, InSuper(Stoppable), abortable, ev, sw, policy);
      case Some(Abortable) =>
        assert [own] + SuperChain(p) == [own] + abortable;
        SelectChainCons(variant, own, abortable, ev, sw, policy);
      case None =>
        assert [own] + SuperChain(p) == [own] + [];
        SelectChainCons(variant, own, [], ev, sw, policy);
    }
  }

  /** The PackML table splits the same way, because no command label repeats along a chain. */
  lemma TableDecomposition(variant: Variant, s: State, ev: Event, sw: Switcher, policy: MaskPolicy)
    ensures Expected(variant, s, ev, sw, policy) ==
      Either(OwnExpected(variant, s, ev, sw, policy), EnclosingExpected(Parent(s), ev, sw, policy))
  {
    Containment(s);
    TableSplit(variant, s, Parent(s), ev, sw, policy);
  }

  lemma TableSplit(variant: Variant, s: State, p: Option<SuperState>, ev: Event, sw: Switcher, policy: MaskPolicy)
    requires p == None <==> s in {Undefined, Aborting, Aborted}
    requires p == Some(Stoppable) <==> InStoppable(s)
    ensures Expected(variant, s, ev, sw, policy) ==
      Either(OwnExpected(variant, s, ev, sw, policy), EnclosingExpected(p, ev, sw, policy))
  {
  }

  /** The generated machine, with inner edges tried before outer ones, moves
      exactly where the PackML table says, unless the mask refuses the target. */
  lemma NextStateMatchesTable(variant: Variant, s: State, ev: Event, sw: Switcher, policy: MaskPolicy)
    ensures NextState(variant, s, ev, sw, policy) == Expected(variant, s, ev, sw, policy)
  {
    ChainDecomposition(variant, s, ev, sw, policy);
    TableDecomposition(variant, s, ev, sw, policy);
  }

  // ---- corollaries of the table ----

  /** STOP moves the machine only inside STOPPABLE, and there always to STOPPING
      when the mask admits it. */
  lemma StopOnlyInsideStoppable(variant: Variant, s: State, sw: Switcher, policy: MaskPolicy)
    ensures NextState(variant, s, CmdEvent(Stop), sw, policy) ==
      (if Parent(s) == Some(Stoppable) && Admits(CmdEvent(Stop), Stopping, sw, policy) then Some(Stopping) else None)
  {
    NextStateMatchesTable(variant, s, CmdEvent(Stop), sw, policy);
    TableOnStopAndAbort(variant, s);
    StoppableIsParent(s);
  }

  /** No state carries a STOP or ABORT edge of its own. */
  lemma TableOnStopAndAbort(variant: Variant, s: State)
    ensures TableTarget(variant, s, CmdEvent(Stop)) == if InStoppable(s) then Some(Stopping) else None
    ensures TableTarget(variant, s, CmdEvent(Abort)) == if InAbortable(s) then Some(Aborting) else None
  {
    assert OwnCommandTarget(s, Stop) == None && OwnCommandTarget(s, Abort) == None;
  }

  /** STOPPABLE is the parent of exactly the states STOP applies in. */
  lemma StoppableIsParent(s: State)
    ensures Parent(s) == Some(Stoppable) <==> InStoppable(s)
  {
    Containment(s);
  }

  /** ABORT moves every machine state but ABORTING and ABORTED to ABORTING when
      the mask admits it, and does nothing in those two. */
  lemma AbortEverywhereButAborting(variant: Variant, s: State, sw: Switcher, policy: MaskPolicy)
    ensures NextState(variant, s, CmdEvent(Abort), sw, policy) ==
      (if s !in {Undefined, Aborting, Aborted} && Admits(CmdEvent(Abort), Aborting, sw, policy) then Some(Aborting) else None)
  {
    NextStateMatchesTable(variant, s, CmdEvent(Abort), sw, policy);
    TableOnStopAndAbort(variant, s);
  }

  /** An error event behaves like ABORT: only the ABORTABLE error edge reacts to it. */
  lemma ErrorEverywhereButAborting(variant: Variant, s: State, code: int, sw: Switcher, policy: MaskPolicy)
    ensures NextState(variant, s, ErrorEvent(code), sw, policy) ==
      (if s !in {Undefined, Aborting, Aborted} && Admits(ErrorEvent(code), Aborting, sw, policy) then Some(Aborting) else None)
  {
    NextStateMatchesTable(variant, s, ErrorEvent(code), sw, policy);
  }

  /** Under masking, no command ever leads into a state whose "Available"
      property is not true. */
  lemma MaskedCommandRefused(variant: Variant, s: State, c: TransitionCmd, t: State, sw: Switcher, policy: MaskPolicy)
    requires policy.commandsMasked && AvailableProperty(sw, t) != Some(true)
    ensures NextState(variant, s, CmdEvent(c), sw, policy) != Some(t)
  {
    NextStateMatchesTable(variant, s, CmdEvent(c), sw, policy);
  }

  /** Completion ignores the masks: it leads wherever the table says, whatever
      the properties and the policy, even into a state marked unavailable. */
  lemma CompletionIgnoresMasks(variant: Variant, s: State, sw: Switcher, policy: MaskPolicy)
    ensures NextState(variant, s, StateCompleteEvent, sw, policy) == CompletionTarget(variant, s)
  {
    NextStateMatchesTable(variant, s, StateCompleteEvent, sw, policy);
    assert TableTarget(variant, s, StateCompleteEvent) == CompletionTarget(variant, s);
  }

  /** No command or error edge leads into COMPLETING, so two sets of properties
      that differ only there make the machine behave alike: the MAINTENANCE
      profile, which marks COMPLETING unavailable, changes nothing. */
  lemma CompletingMaskInert(variant: Variant, s: State, ev: Event, sw: Switcher, sw': Switcher, policy: MaskPolicy)
    requires forall t :: t != Completing ==> AvailableProperty(sw, t) == AvailableProperty(sw', t)
    ensures NextState(variant, s, ev, sw, policy) == NextState(variant, s, ev, sw', policy)
  {
    NextStateMatchesTable(variant, s, ev, sw, policy);
    NextStateMatchesTable(variant, s, ev, sw', policy);
    var t := TableTarget(variant, s, ev);
    if t.Some? {
      NothingMaskedLeadsToCompleting(variant, s, ev);
      assert Admits(ev, t.value, sw, policy) == Admits(ev, t.value, sw', policy);
    }
  }

  /** Only completion leads into COMPLETING. */
  lemma NothingMaskedLeadsToCompleting(variant: Variant, s: State, ev: Event)
    ensures (ev.CmdEvent? || ev.ErrorEvent?) && TableTarget(variant, s, ev).Some? ==>
      TableTarget(variant, s, ev).value != Completing
  {
  }

  // ---- the machine ----

  /** The work functions bound to the EXECUTE and RESETTING state objects. */
  datatype Work = Work(execute: Option<WorkFn>, resetting: Option<WorkFn>)

  /** A `StateMachine`: its variant, `state_value_` and `state_name_`, the
      generator's mode switcher, the work bound to the generated objects the
      machine runs, and the work bound to the state objects its constructor
      makes, which are never wired to any edge. */
  datatype Machine = Machine(
    variant: Variant,
    policy: MaskPolicy,
    stateValue: State,
    stateName: string,
    switcher: Switcher,
    running: Work,
    unused: Work)

  /** What every machine keeps: a real current state under its own name, and
      no "Available" property on UNDEFINED. */
  predicate MachineValid(m: Machine) {
    m.stateValue != Undefined && m.stateName == StateName(m.stateValue) && Undefined !in m.switcher.available
  }

  /** `getCurrentState`. */
  function GetCurrentState(m: Machine): State {
    m.stateValue
  }

  /** `setState`: record the entered state's value and name. */
  function SetState(m: Machine, value: State, name: string): (r: Machine)
    ensures r.stateValue == value && r.stateName == name
    ensures r.(stateValue := m.stateValue, stateName := m.stateName) == m
  {
    m.(stateValue := value, stateName := name)
  }

  /** `getCurrentState` returns what `setState` stored last. */
  lemma SetStateRoundTrip(m: Machine, value: State, name: string, value': State, name': string)
    ensures GetCurrentState(SetState(m, value, name)) == value
    ensures GetCurrentState(SetState(SetState(m, value, name), value', name')) == value'
  {
  }

  /** Entering a generated state object: its entry signal reaches `setState`
      with the object's value and name. */
  function Enter(m: Machine, t: State): (r: Machine)
    ensures t != Undefined ==> r == SetState(m, t, StateName(t))
  {
    GeneratedStatesMatch(t);
    match GeneratedState(t)
    case Some(st) => SetState(m, st.value, st.name)
    case None => m
  }

  /** `endSelectTransitions`: a command event resolves the pending promise with
      whether it was accepted; other events leave it alone. */
  function EndSelectTransitions(ev: Event, accepted: bool): (promise: Option<bool>)
    ensures promise.Some? <==> EventType(ev) == CmdEventType
    ensures promise.Some? ==> promise.value == accepted
  {
    if EventType(ev) == CmdEventType then Some(accepted) else None
  }

  /** One event processed: the state entered (whose entry called `setState` and
      `on_state_changed`), and how the pending promise was resolved. */
  datatype StepResult = StepResult(machine: Machine, entered: Option<State>, promise: Option<bool>)

  /** The machine processes one event. An event is accepted exactly when an edge fires. */
  function Step(m: Machine, ev: Event): (r: StepResult)
    ensures r.entered == Expected(m.variant, m.stateValue, ev, m.switcher, m.policy)
    ensures r.promise == (if EventType(ev) == CmdEventType then Some(r.entered.Some?) else None)
    ensures r.entered.Some? ==> r.machine == SetState(m, r.entered.value, StateName(r.entered.value))
    ensures r.entered.None? ==> r.machine == m
    ensures MachineValid(m) ==> MachineValid(r.machine)
  {
    NextStateMatchesTable(m.variant, m.stateValue, ev, m.switcher, m.policy);
    NoTableTargetIsUndefined(m.variant, m.stateValue, ev);
    var next := NextState(m.variant, m.stateValue, ev, m.switcher, m.policy);
    var m' := if next.Some? then Enter(m, next.value) else m;
    StepResult(m', next, EndSelectTransitions(ev, next.Some?))
  }

  lemma NoTableTargetIsUndefined(variant: Variant, s: State, ev: Event)
    ensures TableTarget(variant, s, ev) != Some(Undefined)
  {
  }

  /** `_start` .. `_abort`: install a fresh promise, post the command's event and
      return the value that resolves that promise. */
  function PostCommand(m: Machine, c: TransitionCmd): (r: (bool, StepResult))
    requires c != NoCommand
    ensures r.1.promise == Some(r.0)
    ensures r.0 <==> Expected(m.variant, m.stateValue, CmdEvent(c), m.switcher, m.policy).Some?
    ensures r.1.machine == Step(m, CmdEvent(c)).machine
  {
    CmdEventFactories(c);
    var result := Step(m, CmdEventFactory(c).value);
    (result.promise.value, result)
  }

  /** The result of `changeState`, with the machine after it and the state entered. */
  datatype Outcome = Outcome(result: Expected<bool>, machine: Machine, entered: Option<State>)

  /** `changeState`: NO_COMMAND is refused without posting anything; any other
      command is posted, and fails when no edge accepts it. */
  function ChangeState(m: Machine, c: TransitionCmd): (r: Outcome)
    ensures c == NoCommand ==>
      r == Outcome(Unexpected("Invalid transition request command: NO_COMMAND"), m, None)
    ensures c != NoCommand ==>
      (r.result.Value? <==> Expected(m.variant, m.stateValue, CmdEvent(c), m.switcher, m.policy).Some?)
    ensures r.result.Value? ==> r.result.value && r.entered.Some? && r.machine.stateValue == r.entered.value
    ensures c != NoCommand && r.result.Unexpected? ==>
      r.result.error == "Transition command failed: " + CmdName(c) && r.machine == m && r.entered.None?
    ensures MachineValid(m) ==> MachineValid(r.machine)
  {
    if c == NoCommand then
      assert "Invalid transition request command: " + CmdName(c) == "Invalid transition request command: NO_COMMAND";
      Outcome(Unexpected("Invalid transition request command: " + CmdName(c)), m, None)
    else
      var (accepted, step) := PostCommand(m, c);
      if !accepted then
        Outcome(Unexpected("Transition command failed: " + CmdName(c)), step.machine, step.entered)
      else
        Outcome(Value(true), step.machine, step.entered)
  }

  /** The seventeen states a machine can be in. */
  const MachineStates: set<State> :=
    {Aborting, Aborted, Clearing, Stopping, Stopped, Resetting, Idle, Starting, Execute,
     Holding, Held, Unholding, Suspending, Suspended, Unsuspending, Completing, Complete}

  lemma MachineStatesAllButUndefined(s: State)
    ensures s in MachineStates <==> s != Undefined
  {
  }

  /** The availability profile `changeMode` builds: all seventeen machine
      states, each available except COMPLETING in MAINTENANCE. */
  function Profile(mode: ModeType): (r: map<State, bool>)
    ensures r.Keys == MachineStates
    ensures forall s :: s in r ==> (r[s] <==> !(mode == ModeMaintenance && s == Completing))
  {
    var all := map s | s in MachineStates :: true;
    if mode == ModeMaintenance then all[Completing := false] else all
  }

  /** Installing a profile sets every machine state's property, and no other. */
  lemma ProfileInstalled(sw: Switcher, mode: ModeType)
    ensures forall s :: s != Undefined ==>
      ListedOr(Mode(ModeName(mode), Profile(mode)), sw, s) == Some(!(mode == ModeMaintenance && s == Completing))
    ensures forall s :: s == Undefined ==> ListedOr(Mode(ModeName(mode), Profile(mode)), sw, s) == AvailableProperty(sw, s)
  {
    forall s | true
      ensures s in Profile(mode) <==> s != Undefined
    {
      MachineStatesAllButUndefined(s);
    }
  }

  /** The result of `changeMode`, with the machine after it and the mode passed
      to `on_mode_changed`, if it was called. */
  datatype ModeOutcome = ModeOutcome(result: Expected<bool>, machine: Machine, modeChanged: Option<ModeType>)

  /** `changeMode`: install the mode's profile through `mode_switcher`, and call
      `on_mode_changed` exactly when that succeeded. */
  function ChangeMode(m: Machine, mode: ModeType): (r: ModeOutcome)
    ensures r.result.Value? <==> m.stateValue == Idle || m.switcher.currentMode.name == ""
    ensures r.modeChanged == (if r.result.Value? then Some(mode) else None)
    ensures r.result.Value? ==>
      && r.result.value
      && r.machine.switcher.currentMode == Mode(ModeName(mode), Profile(mode))
      && (forall s :: s != Undefined ==>
            AvailableProperty(r.machine.switcher, s) == Some(!(mode == ModeMaintenance && s == Completing)))
    ensures r.result.Unexpected? ==>
      r.machine == m && r.result.error == "Cannot switch mode in state: " + StateName(m.stateValue)
    ensures r.machine.stateValue == m.stateValue
    ensures MachineValid(m) ==> MachineValid(r.machine)
  {
    var (result, sw) := ModeSwitcher(m.switcher, m.stateValue, Mode(ModeName(mode), Profile(mode)));
    ProfileInstalled(m.switcher, mode);
    var m' := m.(switcher := sw);
    ModeOutcome(result, m', if result.Value? then Some(mode) else None)
  }

  /** The machine once its variant's `init` has run and activation has entered
      ABORTED: no mode installed, and the generated EXECUTE bound to `sleeper`. */
  function Init(variant: Variant, policy: MaskPolicy, sleeper: WorkFn): (r: Machine)
    ensures MachineValid(r) && GetCurrentState(r) == Aborted
    ensures r.switcher == FreshSwitcher && r.running.execute == Some(sleeper)
  {
    Enter(Machine(variant, policy, Aborted, "", FreshSwitcher, Work(Some(sleeper), None), Work(None, None)), Aborted)
  }

  /** Switching to MAINTENANCE or to PRODUCTION leaves the machine reacting to
      every event in every state alike: the one state MAINTENANCE masks is only
      ever entered by completion. */
  lemma MaintenanceBehavesLikeProduction(m: Machine, s: State, ev: Event)
    requires MachineValid(m) && ChangeMode(m, ModeMaintenance).result.Value?
    ensures NextState(m.variant, s, ev, ChangeMode(m, ModeMaintenance).machine.switcher, m.policy) ==
            NextState(m.variant, s, ev, ChangeMode(m, ModeProduction).machine.switcher, m.policy)
  {
    var sw := ChangeMode(m, ModeMaintenance).machine.switcher;
    var sw' := ChangeMode(m, ModeProduction).machine.switcher;
    ProfilesAgreeButCompleting(m);
    CompletingMaskInert(m.variant, s, ev, sw, sw', m.policy);
  }

  /** The MAINTENANCE and PRODUCTION switches set the same flag on every state but COMPLETING. */
  lemma ProfilesAgreeButCompleting(m: Machine)
    requires MachineValid(m) && ChangeMode(m, ModeMaintenance).result.Value?
    ensures forall t :: t != Completing ==>
      AvailableProperty(ChangeMode(m, ModeMaintenance).machine.switcher, t) ==
      AvailableProperty(ChangeMode(m, ModeProduction).machine.switcher, t)
  {
    var r1 := ChangeMode(m, ModeMaintenance);
    var r2 := ChangeMode(m, ModeProduction);
    var sw := r1.machine.switcher;
    var sw' := r2.machine.switcher;
    assert r2.result.Value? && MachineValid(r1.machine) && MachineValid(r2.machine);
    forall t | t != Completing
      ensures AvailableProperty(sw, t) == AvailableProperty(sw', t)
    {
      if t != Undefined {
        assert AvailableProperty(sw, t) == Some(true);
        assert AvailableProperty(sw', t) == Some(true);
      }
    }
  }

  /** Events processed one after another. */
  function Run(m: Machine, evs: seq<Event>): Machine
    decreases |evs|
  {
    if |evs| == 0 then m else Run(Step(m, evs[0]).machine, evs[1..])
  }

  /** A command whose own edge leads to an available state enters it. */
  lemma CommandStep(m: Machine, c: TransitionCmd, t: State)
    requires OwnCommandTarget(m.stateValue, c) == Some(t) && AvailableProperty(m.switcher, t) == Some(true)
    ensures Step(m, CmdEvent(c)).machine.stateValue == t
    ensures Step(m, CmdEvent(c)).machine.switcher == m.switcher && Step(m, CmdEvent(c)).machine.variant == m.variant
  {
  }

  /** Completion of an acting state enters its successor. */
  lemma CompletionStep(m: Machine, t: State)
    requires CompletionTarget(m.variant, m.stateValue) == Some(t)
    ensures Step(m, StateCompleteEvent).machine.stateValue == t
    ensures Step(m, StateCompleteEvent).machine.switcher == m.switcher && Step(m, StateCompleteEvent).machine.variant == m.variant
  {
  }

  lemma RunCons(m: Machine, ev: Event, rest: seq<Event>)
    ensures Run(m, [ev] + rest) == Run(Step(m, ev).machine, rest)
  {
    assert ([ev] + rest)[1..] == rest;
  }

  /** From start-up, after switching to MANUAL, the commands CLEAR, RESET and
      START, each followed by the completion of the acting state it entered,
      bring the machine to EXECUTE. */
  lemma StartupReachesExecute(variant: Variant, policy: MaskPolicy, sleeper: WorkFn)
    ensures Run(ChangeMode(Init(variant, policy, sleeper), ModeManual).machine,
                [ClearEvent(), StateCompleteEvent, ResetEvent(), StateCompleteEvent,
                 StartEvent(), StateCompleteEvent]).stateValue == Execute
  {
    StartupSwitchesToManual(variant, policy, sleeper);
    ClearResetStartFromAborted(ChangeMode(Init(variant, policy, sleeper), ModeManual).machine);
  }

  /** While no mode is installed, a mode switch succeeds whatever the current
      state, so it commutes with entering a state: switching before activation
      enters ABORTED, as the start-up sequence does, ends where switching after
      it does. */
  lemma FirstSwitchCommutesWithEntry(m: Machine, t: State, mode: ModeType)
    requires m.switcher.currentMode.name == "" && t != Undefined
    ensures ChangeMode(m, mode).result.Value?
    ensures ChangeMode(Enter(m, t), mode).result == ChangeMode(m, mode).result
    ensures ChangeMode(Enter(m, t), mode).modeChanged == ChangeMode(m, mode).modeChanged
    ensures ChangeMode(Enter(m, t), mode).machine == Enter(ChangeMode(m, mode).machine, t)
  {
  }

  /** The first mode switch after start-up succeeds through the empty mode
      name, leaves the machine in ABORTED and makes every state available. */
  lemma StartupSwitchesToManual(variant: Variant, policy: MaskPolicy, sleeper: WorkFn)
    ensures Init(variant, policy, sleeper).switcher.currentMode.name == ""
    ensures ChangeMode(Init(variant, policy, sleeper), ModeManual).result.Value?
    ensures ChangeMode(Init(variant, policy, sleeper), ModeManual).machine.stateValue == Aborted
    ensures forall t :: t != Undefined ==>
      AvailableProperty(ChangeMode(Init(variant, policy, sleeper), ModeManual).machine.switcher, t) == Some(true)
  {
    var init := Init(variant, policy, sleeper);
    assert init.switcher.currentMode.name == "";
  }

  lemma ClearResetStartFromAborted(m0: Machine)
    requires m0.stateValue == Aborted
    requires forall t :: t != Undefined ==> AvailableProperty(m0.switcher, t) == Some(true)
    ensures Run(m0, [ClearEvent(), StateCompleteEvent, ResetEvent(), StateCompleteEvent,
                     StartEvent(), StateCompleteEvent]).stateValue == Execute
  {
    var tail := [ResetEvent(), StateCompleteEvent, StartEvent(), StateCompleteEvent];
    assert [ClearEvent(), StateCompleteEvent] + tail ==
      [ClearEvent(), StateCompleteEvent, ResetEvent(), StateCompleteEvent, StartEvent(), StateCompleteEvent];
    var m2 := ClearAndComplete(m0, tail);
    assert AvailableProperty(m2.switcher, Resetting) == Some(true) && AvailableProperty(m2.switcher, Starting) == Some(true);
    ResetStartAndComplete(m2);
  }

  lemma ClearAndComplete(m0: Machine, rest: seq<Event>) returns (m2: Machine)
    requires m0.stateValue == Aborted && AvailableProperty(m0.switcher, Clearing) == Some(true)
    ensures Run(m0, [ClearEvent(), StateCompleteEvent] + rest) == Run(m2, rest)
    ensures m2.stateValue == Stopped && m2.switcher == m0.switcher
  {
    CommandStep(m0, Clear, Clearing);
    var m1 := Step(m0, ClearEvent()).machine;
    CompletionStep(m1, Stopped);
    m2 := Step(m1, StateCompleteEvent).machine;
    RunCons(m0, ClearEvent(), [StateCompleteEvent] + rest);
    RunCons(m1, StateCompleteEvent, rest);
    assert [ClearEvent(), StateCompleteEvent] + rest == [ClearEvent()] + ([StateCompleteEvent] + rest);
  }

  lemma ResetStartAndComplete(m2: Machine)
    requires m2.stateValue == Stopped
    requires AvailableProperty(m2.switcher, Resetting) == Some(true) && AvailableProperty(m2.switcher, Starting) == Some(true)
    ensures Run(m2, [ResetEvent(), StateCompleteEvent, StartEvent(), StateCompleteEvent]).stateValue == Execute
  {
    TwoRounds(m2, Reset, Resetting, Idle, Start, Starting, Execute);
  }

  lemma TwoRounds(m: Machine, c: TransitionCmd, acting: State, next: State, c': TransitionCmd, acting': State, next': State)
    requires OwnCommandTarget(m.stateValue, c) == Some(acting) && AvailableProperty(m.switcher, acting) == Some(true)
    requires CompletionTarget(m.variant, acting) == Some(next)
    requires OwnCommandTarget(next, c') == Some(acting') && AvailableProperty(m.switcher, acting') == Some(true)
    requires CompletionTarget(m.variant, acting') == Some(next')
    ensures Run(m, [CmdEvent(c), StateCompleteEvent, CmdEvent(c'), StateCompleteEvent]).stateValue == next'
  {
    var last := [CmdEvent(c'), StateCompleteEvent];
    var m1 := CommandThenComplete(m, c, acting, next, last);
    var m2 := CommandThenComplete(m1, c', acting', next', []);
    SplitFour(CmdEvent(c), StateCompleteEvent, CmdEvent(c'), StateCompleteEvent);
  }

  lemma SplitFour(a: Event, b: Event, c: Event, d: Event)
    ensures [a, b, c, d] == [a, b] + [c, d] && [c, d] == [c, d] + []
  {
  }

  /** A command into an acting state, then that state's completion. */
  lemma CommandThenComplete(m: Machine, c: TransitionCmd, acting: State, next: State, rest: seq<Event>) returns (m': Machine)
    requires OwnCommandTarget(m.stateValue, c) == Some(acting) && AvailableProperty(m.switcher, acting) == Some(true)
    requires CompletionTarget(m.variant, acting) == Some(next)
    ensures Run(m, [CmdEvent(c), StateCompleteEvent] + rest) == Run(m', rest)
    ensures m'.stateValue == next && m'.switcher == m.switcher && m'.variant == m.variant
  {
    CommandStep(m, c, acting);
    var m1 := Step(m, CmdEvent(c)).machine;
    CompletionStep(m1, next);
    m' := Step(m1, StateCompleteEvent).machine;
    RunCons(m, CmdEvent(c), [StateCompleteEvent] + rest);
    RunCons(m1, StateCompleteEvent, rest);
    assert [CmdEvent(c), StateCompleteEvent] + rest == [CmdEvent(c)] + ([StateCompleteEvent] + rest);
  }

  // ---- binding work functions ----

  /** `setExecute` as written: it rebinds the EXECUTE object the constructor
      made, which no edge leads to; the EXECUTE the machine runs keeps its work. */
  function SetExecuteAsWritten(m: Machine, work: WorkFn): (r: (bool, Machine))
    ensures r.0 && r.1.unused.execute == Some(work) && r.1.unused.resetting == m.unused.resetting
    ensures r.1.running == m.running
    ensures r.1.(unused := m.unused) == m
  {
    (true, m.(unused := m.unused.(execute := Some(work))))
  }

  /** `setResetting` as written: likewise on the constructor's RESETTING object. */
  function SetResettingAsWritten(m: Machine, work: WorkFn): (r: (bool, Machine))
    ensures r.0 && r.1.unused.resetting == Some(work) && r.1.unused.execute == m.unused.execute
    ensures r.1.running == m.running
    ensures r.1.(unused := m.unused) == m
  {
    (true, m.(unused := m.unused.(resetting := Some(work))))
  }

  /** After start-up, binding an EXECUTE method as written leaves the EXECUTE
      state the machine enters running the one-second sleep `init` bound. */
  lemma SetExecuteMissesRunningState(variant: Variant, policy: MaskPolicy, sleeper: WorkFn, work: WorkFn)
    requires work != sleeper
    ensures SetExecuteAsWritten(Init(variant, policy, sleeper), work).1.running.execute == Some(sleeper)
    ensures SetExecuteAsWritten(Init(variant, policy, sleeper), work).1.running.execute != Some(work)
  {
  }

  /** `setExecute` as intended: rebind the EXECUTE object the machine runs. */
  function SetExecute(m: Machine, work: WorkFn): (r: (bool, Machine))
    ensures r.0 && r.1.running.execute == Some(work) && r.1.running.resetting == m.running.resetting
    ensures r.1.stateValue == m.stateValue && r.1.switcher == m.switcher
    ensures r.1.(running := m.running) == m
  {
    var (ok, st) := SetOperationMethod(ExecuteStateWith(Stoppable, WorkFn(0)), work);
    (ok, m.(running := m.running.(execute := st.role.work)))
  }

  /** `setResetting` as intended: rebind the RESETTING object the machine runs. */
  function SetResetting(m: Machine, work: WorkFn): (r: (bool, Machine))
    ensures r.0 && r.1.running.resetting == Some(work) && r.1.running.execute == m.running.execute
    ensures r.1.stateValue == m.stateValue && r.1.switcher == m.switcher
    ensures r.1.(running := m.running) == m
  {
    var (ok, st) := SetOperationMethod(ResettingState(Stoppable), work);
    (ok, m.(running := m.running.(resetting := st.role.work)))
  }

  /** Once corrected, the work bound is the work the entered EXECUTE runs. */
  lemma SetExecuteReachesRunningState(m: Machine, work: WorkFn)
    ensures SetExecute(m, work).1.running.execute == Some(work)
    ensures SetExecute(m, work).1.unused == m.unused
  {
  }
}
