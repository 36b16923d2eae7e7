# PackML state machine and node synchronisation, in Dafny

This project models the core of `packml_ros2`, a ROS 2 implementation of the
PackML machine-state model (ANSI/ISA-TR88.00.02). It has five parts.

- **The state machine** (`packml_sm`). It has eighteen states, ten transition
  commands and two super-states that are containment scopes only:
  ABORTABLE, with STOPPABLE nested inside it.
  - The generator wires a fixed graph of command, error and completion edges.
  - The machine comes in two variants. SINGLE CYCLE ends EXECUTE in
    COMPLETING. CONTINUOUS CYCLE rewires EXECUTE's completion back onto
    EXECUTE.
  - Each operating mode installs an "Available" flag on every state object.
    `changeState` posts a command event and reports whether the machine
    accepted it. `changeMode` switches modes only in IDLE, or while no mode has
    been installed yet.
- **The coordinator** (`PackmlManagerInterface` with the callbacks of
  `SMNode_new`). It owns a machine and serves ModeChange and StateChange
  requests. It sends every entered state and every mode change to all of its
  client nodes, and gathers their verdicts with `wait_all_futures` as it is
  written. It records and publishes an entered state only when that gather
  reports success, which happens when every client follows but also in one
  case where a client refuses (see "## Findings").
- **The node side** (`PackmlNodeInterface`). Each node keeps a mirror of the
  coordinator's state and mode. It approves or refuses transition requests
  through its own hooks, and adopts what the Status messages announce.
- **The stand-alone node** (`SMNode`). It serves ModeChange, StateChange and
  AllStatus requests directly against its own machine.
  - `SMNode` derives from `PackmlManagerInterface` (packml_ros.hpp:39) and
    calls `init(node, sm)` (packml_ros.hpp:158), so it also serves the
    coordinator's services for its machine.
  - It never installs `on_state_changed` or `on_mode_changed`. What the
    machine's calls to them then do is stated under "## Assumptions". The
    coordinator model (`Manager`) is the `SMNode_new` variant, which does
    install them.
  - Its constructor calls `setExecute`, which as written leaves the EXECUTE
    state the machine runs with the start-up sleeper (see "## Findings").
- **The modes configuration reader** (`parse_modes_config`). It reads a small
  YAML subset into one "Available" mask per mode value.

Modules follow the program's structure:

| module | what it covers |
|---|---|
| `Common` | the enums and their `to_string` |
| `Decimal` | `std::to_string` and `std::stoi` on integers |
| `Wire` | the signed-byte cast on the Status message |
| `Events` | the events posted to the machine |
| `States` | the factories of the state objects |
| `Transitions` | the edge tests |
| `Generator` | `generate_all_packml_states`, `add_state` and `mode_switcher` |
| `Engine` | the machine as a pure transition system, plus `changeState`, `changeMode`, `init` and `setExecute` |
| `StdMap` | `std::map<std::string, _>` as an ordered entry list |
| `Fanout` | `call_all_clients` and `wait_all_futures` |
| `Manager` | the coordinator |
| `NodeMirror` | the node side |
| `SmNode` | the stand-alone node |
| `ModesConfig` | the modes configuration reader |

The central result is `Engine.NextStateMatchesTable`. The generated graph is
tried the way Qt tries it: the state's own edges first, then those of each
enclosing super-state. Under that rule, every state, event and mask setting
gives exactly the target of an independently written PackML table, filtered by
the mask.

## Assumptions

These are stated explicitly because the code they depend on is not available:

- **Edge order.** A state's own edges are tried before its ancestors' edges, in
  the order they were added. The first edge whose test passes fires. No command
  label repeats along a chain, so this order never decides between two
  candidates.
- **Accepted events.** A command event is taken to resolve the `changeState`
  promise with true exactly when some edge fired.
  - `endSelectTransitions` (state_machine.hpp:55-76) resolves the promise
    from the event's accept flag. A Qt event starts out accepted.
  - The only `eventTest` body available, `PackmlTransition::eventTest`
    (packml_transitions.hpp:54-72), clears the flag when its target is
    unavailable and never sets it.
  - So the assumption is a condition on the unseen
    `CmdTransition::eventTest` (declared at cmd_transition.hpp:203): it must
    leave the flag set exactly when its edge fires. With only the code that
    is available, a command that matches no edge would leave the flag set
    and resolve the promise with true.
- **Masking.** `CmdTransition` derives from `QAbstractTransition`
  (cmd_transition.hpp:31) and declares its own `eventTest`
  (cmd_transition.hpp:203). `ErrorTransition` derives from `PackmlTransition`
  (error_transition.hpp:31) and overrides `eventTest`
  (error_transition.hpp:56). Neither body is available. So whether command
  edges and the error edge check their target's "Available" flag is a
  parameter, `Engine.MaskPolicy(commandsMasked, errorsMasked)`.
  - When a flag of the policy is set, those edges use the test of
    `PackmlTransition::eventTest`. An unset property reads false.
  - Completion edges never check the flag, as `sc_transition.cpp` shows.
- **Event type numbers.** `QEvent::User` is 1000. The command event type is
  `QEvent::User + 1` and the error event type is `QEvent::User + 3`. The
  state-complete event type is taken to be `QEvent::User + 2`, because
  `sc_event.hpp` is not part of this model.
- **Completion.** The work of an acting state runs outside the model. Its end
  is the explicit event `StateCompleteEvent`.
- **Atomic commands.** Qt resolves the promise in `endSelectTransitions`,
  after the edge is selected and before the target state is entered. The
  model treats post, select, resolve and enter as one atomic step, so no
  other event can come between the reply and the entry.
- **Unassigned hooks.** `setState` calls `on_state_changed` on every entry
  (state_machine.cpp:330), and `changeMode` calls `on_mode_changed` after
  every successful switch (state_machine.cpp:458). Their declarations are not
  part of this model. `SMNode` never assigns them, and the model of `SMNode`
  takes an unassigned hook to do nothing.
  - If they are `std::function` members, calling an empty one throws
    `std::bad_function_call`. `SMNode` would then throw on its activation,
    at the entry into ABORTED, and on its first successful mode switch.
  - `SMNode` also inherits the coordinator's StateChange service. After an
    admitted command, that service blocks on the future of `changed_prom_`
    (packml_interface.hpp:511). Only `SMNode_new`'s `on_state_changed` sets
    that promise (packml_ros-new.hpp:175-176), so in `SMNode` that reply
    never comes. The model of `SMNode` covers only its own services.
- **Start-up order.** `SMNode_new` calls `changeMode(MANUAL)`
  (packml_ros-new.hpp:237) before `activate` (packml_ros-new.hpp:244). At
  that point `state_value_` (state_machine.hpp:376) has never been set. The
  switch succeeds through the empty-mode-name branch of `mode_switcher`
  (states_generator.hpp:105), whatever the state reads. The model activates
  first and switches second. `Engine.FirstSwitchCommutesWithEntry` shows
  that the two orders end in the same machine, because a switch with no mode
  installed does not read the state.
- **Service codes.** The StateChange request codes and the reply error codes
  come from service definitions that are not part of this model.
  - The request codes are a parameter, `Manager.RequestCodes`.
  - The named error codes stay symbolic, in `Manager.ErrorCode`.

## Behaviour worth noting

- **Unreachable clients.** A client whose service is unreachable fails the
  whole fan-out. `wait_all_futures` refuses when it has fewer futures than the
  registry has clients: `Manager.UnreachableLeavesStateStale`.
- **Failure message.** A failed fan-out always reports the fixed text "Error
  in one of the packml clients".
- **StateChange reply.** The coordinator's reply to StateChange reports only
  whether its own machine accepted the command. A failed fan-out of the
  resulting state leaves `current_state` stale, and the reply does not show
  it.
- **Pending switches.** The pending flags only set a message, which the reply
  never carries. A node answers a request the same way whether or not another
  switch is pending.
- **MAINTENANCE.** The MAINTENANCE profile marks COMPLETING unavailable. Only
  a completion edge leads into COMPLETING, and completion ignores the flags.
  So MAINTENANCE behaves exactly like PRODUCTION:
  `Engine.MaintenanceBehavesLikeProduction`.
- **Mode before fan-out.** `on_mode_changed` records and publishes the new mode
  before any client is asked. A mode change the clients refuse therefore still
  changes `current_mode`.

## Model

| member | source | states |
|---|---|---|
| Common.StateValue | packml_sm/include/packml_sm/common.hpp:66-86 | every state's enumerator value lies in 0 .. 17 |
| Common.StateOfValue | packml_sm/include/packml_sm/common.hpp:66-86 | a raw value names a state exactly when it lies in 0 .. 17, and the state it names has that value |
| Common.StateValueRoundTrip | packml_sm/include/packml_sm/common.hpp:66-86 | reading back a state's value gives the state: the numbering is one-to-one |
| Common.StateName | packml_sm/include/packml_sm/common.hpp:88-111 | `to_string(State)` on an enumerator: its upper-case name; `Common.StateNameSpelling` lists them and `Common.StateNameInjective` shows no two states share one |
| Common.StateNameSpelling | packml_sm/include/packml_sm/common.hpp:88-110 | the eighteen names `to_string(State)` returns, spelled out |
| Common.StateNamesDistinct | packml_sm/include/packml_sm/common.hpp:88-111 | `to_string` on raw state values is one-to-one, and a value outside 0 .. 17 prints as its decimal number |
| Common.StateNameInjective | packml_sm/include/packml_sm/common.hpp:88-110 | two states with the same name are the same state |
| Common.DecimalIsNoName | packml_sm/include/packml_sm/common.hpp:111 | the decimal fallback never spells a name that starts with an upper-case letter or underscore |
| Common.DecimalInjective | packml_sm/include/packml_sm/common.hpp:111 | two values with the same decimal rendering are equal |
| Common.SuperStateNamesDistinct | packml_sm/include/packml_sm/common.hpp:45-57 | ABORTABLE = 0 and STOPPABLE = 1 are told apart by value and by name, and neither is named UNDEFINED |
| Common.ModeName | packml_sm/include/packml_sm/common.hpp:128-140 | `to_string(ModeType)`: the four named modes, "USER_DEFINED" above MANUAL, the decimal number below 0; `Common.ModeNameCases` states these cases |
| Common.ModeNameCases | packml_sm/include/packml_sm/common.hpp:128-140 | every mode above MANUAL is "USER_DEFINED"; a negative mode prints its number with a minus sign; 0 .. 3 have distinct names; no name is empty |
| Common.CmdName | packml_sm/include/packml_sm/common.hpp:148-178 | `to_string(TransitionCmd)`: one upper-case name per command; `Common.CmdNumberingAndNames` shows the names are one-to-one |
| Common.CmdNumberingAndNames | packml_sm/include/packml_sm/common.hpp:148-178 | commands are numbered 0 .. 9, 0 only for NO_COMMAND, and both the numbering and the names are one-to-one |
| Decimal.NatToDecimal | packml_sm/include/packml_sm/common.hpp:111 | `std::to_string` of a non-negative value is a non-empty digit string with no leading zero |
| Decimal.IntToDecimal | packml_sm/include/packml_sm/common.hpp:139 | `std::to_string` of any value starts with '-' exactly when the value is negative |
| Decimal.DigitsValueOfDecimal | packml_sm/include/packml_sm/common.hpp:111 | the digits `std::to_string` writes read back as the value |
| Decimal.Stoi | packml_ros/include/packml_ros/modes_config.hpp:137-142 | `std::stoi` yields a value only inside the 32-bit range; anything else is the caught failure |
| Decimal.StoiOfDecimal | packml_ros/include/packml_ros/modes_config.hpp:137-142 | `std::stoi` reads every 32-bit value written by `std::to_string` back to the value |
| Decimal.StoiNeedsDigit | packml_ros/include/packml_ros/modes_config.hpp:137-142 | a value without any digit never parses |
| Wire.ToInt8 | packml_ros/include/packml_ros/interface/packml_interface.hpp:406 | the signed-byte cast lands in -128 .. 127 and agrees with its input modulo 256 |
| Wire.Int8Identity | packml_ros/include/packml_ros/interface/packml_interface.hpp:414 | a value that fits a signed byte crosses the cast unchanged |
| Events.EventTypesDistinct | packml_sm/include/packml_sm/events/cmd_event.hpp:23 | the command, state-complete and error event types are pairwise distinct |
| Events.CmdEventFactories | packml_sm/include/packml_sm/events/cmd_event.hpp:26-40 | every command but NO_COMMAND has a factory; its event carries that command and has type `QEvent::User + 1` |
| States.SuperStateFactories | packml_sm/include/packml_sm/states/toplevel_states.hpp:27-37 | ABORTABLE has no parent and carries ABORT; STOPPABLE sits in the scope it is given and carries STOP; both report UNDEFINED and are named after their super-state |
| States.ActingFactoryDefaults | packml_sm/include/packml_sm/states/acting_state.hpp:30-107 | each delay-taking acting factory is named after its own state, waits 200 ms by default, and has a parent unless it is ABORTING |
| States.SetOperationMethod | packml_sm/include/packml_sm/states/acting_state.hpp:109-113 | rebinding an acting state's work always succeeds, stores the new work and changes nothing else |
| States.WaitFactories | packml_sm/include/packml_sm/states/wait_state.hpp:28-57 | the exit commands IDLE-START, HELD-UNHOLD, COMPLETE-RESET, SUSPENDED-UNSUSPEND, STOPPED-RESET, ABORTED-CLEAR; ABORTED has no parent; each wait state is named after its state |
| Transitions.CmdTransitionFactories | packml_sm/include/packml_sm/transitions/cmd_transition.hpp:43-176 | every command but NO_COMMAND has a zero-argument factory, labelled with that command and named by its `to_string` |
| Transitions.BetweenNameChars | packml_sm/include/packml_sm/transitions/cmd_transition.hpp:39-42 | the two-argument factories' names are the upper-case names lowered character by character |
| Transitions.BetweenNamesAreLowercase | packml_sm/include/packml_sm/transitions/cmd_transition.hpp:39-46 | a two-argument factory's name is the lower-case form of the zero-argument factory's name, and never equal to it |
| Transitions.PackmlEventTest | packml_sm/include/packml_sm/transitions/packml_transitions.hpp:54-72 | the availability test fires exactly when the target's "Available" property is true, and marks the event ignored exactly when it does not fire |
| Transitions.PackmlEventTestIgnoresEvent | packml_sm/include/packml_sm/transitions/packml_transitions.hpp:54-72 | the availability test gives the same outcome for every event |
| Transitions.StateCompleteEventTest | packml_sm/src/transitions/sc_transition.cpp:32-37 | a completion edge fires exactly on events of the state-complete type |
| Transitions.CompletionIgnoresCommandsAndErrors | packml_sm/src/transitions/sc_transition.cpp:33-35 | command and error events never fire a completion edge |
| Generator.GeneratedStatesMatch | packml_sm/include/packml_sm/states_generator.hpp:134-155 | exactly the machine states other than UNDEFINED get a state object, carrying that state's value and named after it |
| Generator.Containment | packml_sm/include/packml_sm/states_generator.hpp:134-155 | ABORTING and ABORTED are top-level; CLEARING, STOPPING and STOPPED sit in ABORTABLE; the other twelve sit in STOPPABLE, which sits in ABORTABLE |
| Generator.InitialSubstateIsChild | packml_sm/include/packml_sm/states_generator.hpp:269-270 | each super-state's initial sub-state (CLEARING, RESETTING) is one of its direct children |
| Generator.CommandLabels | packml_sm/include/packml_sm/states_generator.hpp:286-322 | the label `generate_transition` gives a command edge into each of the nine `-ING` targets |
| Generator.GenerateTransition | packml_sm/include/packml_sm/states_generator.hpp:277-346 | `generate_transition`: an error edge, a completion edge, or a command edge labelled after its target; `Generator.LabelOfTarget`, `Generator.TargetOfLabel` and `Generator.WireCommand` state what the labels are |
| Generator.LabelOfTarget | packml_sm/include/packml_sm/states_generator.hpp:286-337 | a command edge into the target of command c is labelled c |
| Generator.TargetOfLabel | packml_sm/include/packml_sm/states_generator.hpp:286-339 | conversely, a generated label is either the command that leads to the edge's target, or NO_COMMAND for a target no command leads to |
| Generator.WireCommand | packml_sm/include/packml_sm/states_generator.hpp:277-346 | a command edge wired towards a command's target carries that command's label |
| Generator.StartupWaitEdges | packml_sm/include/packml_sm/states_generator.hpp:193-218 | ABORTED, STOPPED and IDLE carry exactly the CLEAR, RESET and START edges of the PackML table, and UNDEFINED carries none |
| Generator.RunningWaitEdges | packml_sm/include/packml_sm/states_generator.hpp:224-266 | EXECUTE, HELD, SUSPENDED and COMPLETE carry exactly their PackML edges, in the order they are added |
| Generator.ShutdownActingEdges | packml_sm/include/packml_sm/states_generator.hpp:189-215 | ABORTING, CLEARING, STOPPING and RESETTING carry exactly their completion edge |
| Generator.RunningActingEdges | packml_sm/include/packml_sm/states_generator.hpp:220-238 | STARTING, HOLDING and UNHOLDING carry exactly their completion edge |
| Generator.ReturningActingEdges | packml_sm/include/packml_sm/states_generator.hpp:244-262 | SUSPENDING, UNSUSPENDING and COMPLETING carry exactly their completion edge |
| Generator.StateEdgesAreLabelled | packml_sm/include/packml_sm/states_generator.hpp:189-266 | every machine state's generated edges are the PackML table's edges with the commands' labels |
| Generator.SuperEdgesAreLabelled | packml_sm/include/packml_sm/states_generator.hpp:181-203 | ABORTABLE carries ABORT and the error edge, STOPPABLE carries STOP, both into their `-ING` state |
| Generator.GeneratedEdgesAreLabelled | packml_sm/include/packml_sm/states_generator.hpp:181-266 | on every scope, choosing labels by target yields exactly the labelled PackML graph |
| Generator.WaitStateExitMatchesEdge | packml_sm/include/packml_sm/states/wait_state.hpp:28-51 | a wait state's recorded exit command is the label of the one edge of its own the generator adds |
| Generator.WaitStateExits | packml_sm/include/packml_sm/states/wait_state.hpp:28-51 | the six wait states and the exit command each one records |
| Generator.AddState | packml_sm/include/packml_sm/states_generator.hpp:354-371 | a duplicate name changes nothing; a new name is registered with its object; only a new object of a real state is connected to `setState`; the registry stays valid |
| Generator.AddAll | packml_sm/include/packml_sm/states_generator.hpp:159-177 | the `add_state` calls of `generate_all_packml_states`, one object after another; `Generator.AddAllKeeps` states what the registry then holds |
| Generator.AddAllKeeps | packml_sm/include/packml_sm/states_generator.hpp:159-177 | registering objects one after another never loses or replaces an entry and registers every name |
| Generator.ModeSwitcher | packml_sm/include/packml_sm/states_generator.hpp:103-127 | succeeds exactly in IDLE or while no mode is installed. Success sets the listed states' flags, leaves the others alone and installs the mode. Failure reports the state and changes nothing |
| Engine.KeepNotTo | packml_sm/src/state_machine.cpp:537-549 | removing the edges into a target keeps every other edge and only those |
| Engine.SelfCompletions | packml_sm/src/state_machine.cpp:545-546 | the edges the rewiring adds are completions from EXECUTE back to EXECUTE |
| Engine.VariantEdges | packml_sm/src/state_machine.cpp:537-549 | the variants differ only on EXECUTE: SINGLE CYCLE completes into COMPLETING, CONTINUOUS CYCLE into EXECUTE |
| Engine.Select | packml_sm/include/packml_sm/state_machine.hpp:55-76 | an event selects no edge exactly when none of the scope's edges fires, and otherwise the target of one that fires |
| Engine.SuperSelect | packml_sm/include/packml_sm/states_generator.hpp:181-203 | STOPPABLE answers STOP with STOPPING and ABORTABLE answers ABORT or an error with ABORTING, each when the mask admits it |
| Engine.StateSelect | packml_sm/include/packml_sm/states_generator.hpp:189-266 | a state's own edges answer an event exactly as the table's own-edge part does |
| Engine.ExecuteFirstFiring | packml_sm/include/packml_sm/states_generator.hpp:224-258 | EXECUTE tries HOLD, then SUSPEND, then its completion |
| Engine.ChainDecomposition | packml_sm/include/packml_sm/states_generator.hpp:134-155 | the machine tries the state's own edges first and then its enclosing super-states' |
| Engine.TableDecomposition | packml_sm/include/packml_sm/states_generator.hpp:181-266 | the PackML table splits the same way, because no label repeats along a chain |
| Engine.NextState | packml_sm/include/packml_sm/states_generator.hpp:134-155 | the state the machine moves to: the first edge that fires, trying the state's own edges and then its enclosing super-states'; `Engine.NextStateMatchesTable` equates it with the PackML table |
| Engine.NextStateMatchesTable | packml_sm/include/packml_sm/states_generator.hpp:181-266 | for every variant, state, event, mask and policy, the generated machine moves exactly where the PackML table says, when the mask admits it |
| Engine.StopOnlyInsideStoppable | packml_sm/include/packml_sm/states_generator.hpp:201-203 | STOP moves the machine only inside STOPPABLE, and there to STOPPING |
| Engine.TableOnStopAndAbort | packml_sm/include/packml_sm/states_generator.hpp:181-203 | STOP leads to STOPPING exactly inside STOPPABLE, ABORT to ABORTING exactly inside ABORTABLE |
| Engine.StoppableIsParent | packml_sm/include/packml_sm/states_generator.hpp:143-155 | STOPPABLE is the parent of exactly the states STOP applies in |
| Engine.AbortEverywhereButAborting | packml_sm/include/packml_sm/states_generator.hpp:181-187 | ABORT leads every state but UNDEFINED, ABORTING and ABORTED to ABORTING when admitted, and nowhere else |
| Engine.ErrorEverywhereButAborting | packml_sm/include/packml_sm/states_generator.hpp:183-187 | an error event behaves like ABORT |
| Engine.MaskedCommandRefused | packml_sm/include/packml_sm/transitions/packml_transitions.hpp:58-68 | with masked commands, no command leads into a state whose flag is not true |
| Engine.CompletionIgnoresMasks | packml_sm/src/transitions/sc_transition.cpp:32-37 | completion leads where the table says, whatever the flags and the policy |
| Engine.CompletingMaskInert | packml_sm/src/state_machine.cpp:427-450 | two flag settings that differ only on COMPLETING give the same machine behaviour |
| Engine.NothingMaskedLeadsToCompleting | packml_sm/include/packml_sm/states_generator.hpp:256-262 | no command or error leads into COMPLETING |
| Engine.NoTableTargetIsUndefined | packml_sm/include/packml_sm/states_generator.hpp:181-266 | no edge leads into UNDEFINED |
| Engine.SetState | packml_sm/src/state_machine.cpp:324-331 | `setState` records the value and the name, and changes nothing else |
| Engine.SetStateRoundTrip | packml_sm/include/packml_sm/state_machine.hpp:298-301 | `getCurrentState` returns the value recorded by the last `setState` |
| Engine.Enter | packml_sm/src/states/state.cpp:26-31 | entering a state object passes its value and name to `setState` |
| Engine.EndSelectTransitions | packml_sm/include/packml_sm/state_machine.hpp:55-76 | a command event resolves the promise with whether it was accepted; other events leave it alone |
| Engine.Step | packml_sm/include/packml_sm/state_machine.hpp:55-76 | one processed event enters the table's target, resolves the promise for a command event with whether a state was entered, records the entered state, changes nothing when none is entered, and keeps the machine valid |
| Engine.PostCommand | packml_sm/src/state_machine.cpp:463-471 | a command method returns the value its promise is resolved with, which is true exactly when the table admits the command |
| Engine.ChangeState | packml_sm/src/state_machine.cpp:346-401 | NO_COMMAND is refused as invalid without posting; another command succeeds exactly when accepted, and its failure reports "Transition command failed: " and the command name |
| Engine.MachineStatesAllButUndefined | packml_sm/src/state_machine.cpp:407-425 | the profiles list all seventeen states but UNDEFINED |
| Engine.Profile | packml_sm/src/state_machine.cpp:407-450 | every profile lists the seventeen states, all true except COMPLETING under MAINTENANCE |
| Engine.ProfileInstalled | packml_sm/include/packml_sm/states_generator.hpp:108-114 | installing a profile sets every machine state's flag from it and leaves UNDEFINED's alone |
| Engine.ChangeMode | packml_sm/src/state_machine.cpp:404-461 | succeeds exactly when the switcher does; only then is the mode reported to `on_mode_changed`; the current state never changes |
| Engine.Init | packml_sm/src/state_machine.cpp:526-639 | after `init` and activation the machine of either variant is valid and in ABORTED, with no mode installed and the one-second sleeper bound to the EXECUTE state it runs |
| Engine.MaintenanceBehavesLikeProduction | packml_sm/src/state_machine.cpp:427-450 | after a switch to MAINTENANCE the machine reacts to every event as it does after a switch to PRODUCTION |
| Engine.ProfilesAgreeButCompleting | packml_sm/src/state_machine.cpp:407-450 | the MAINTENANCE and PRODUCTION switches set the same flag on every state but COMPLETING |
| Engine.CommandStep | packml_sm/include/packml_sm/states_generator.hpp:189-266 | a command whose own edge leads to an available state enters it, with the mode unchanged |
| Engine.CompletionStep | packml_sm/include/packml_sm/states_generator.hpp:189-262 | completion of an acting state enters its successor |
| Engine.FirstSwitchCommutesWithEntry | packml_sm/include/packml_sm/states_generator.hpp:103-127 | while no mode is installed a switch succeeds in any state, and switching then entering a state gives the same result, the same `on_mode_changed` call and the same machine as entering then switching |
| Engine.StartupSwitchesToManual | packml_ros/include/packml_ros/packml_ros-new.hpp:237 | the start-up switch to MANUAL finds no mode installed, so it succeeds through the empty-mode-name branch whatever the state; it makes every state available and leaves the machine in ABORTED once activated |
| Engine.StartupReachesExecute | packml_sm/include/packml_sm/states_generator.hpp:193-222 | from start-up, after switching to MANUAL, CLEAR, RESET and START each followed by completion reach EXECUTE |
| Engine.ClearResetStartFromAborted | packml_sm/include/packml_sm/states_generator.hpp:193-222 | from ABORTED with every state available, that sequence reaches EXECUTE |
| Engine.TwoRounds | packml_sm/include/packml_sm/states_generator.hpp:189-266 | two command-and-completion rounds reach the second round's successor |
| Engine.SetExecuteAsWritten | packml_sm/src/state_machine.cpp:334-337 | as written, `setExecute` rebinds the constructor's EXECUTE object, which the running machine never enters; nothing else about the machine changes |
| Engine.SetResettingAsWritten | packml_sm/src/state_machine.cpp:339-342 | as written, `setResetting` rebinds the constructor's RESETTING object likewise, and nothing else changes |
| Engine.SetExecuteMissesRunningState | packml_sm/src/state_machine.cpp:334-337 | after start-up, binding work as written leaves the one-second sleeper on the EXECUTE state the machine runs |
| Engine.SetExecute | packml_sm/src/state_machine.cpp:334-337 | corrected: the work is bound to the EXECUTE state the machine runs; RESETTING's work and every other part of the machine stay as they were |
| Engine.SetResetting | packml_sm/src/state_machine.cpp:339-342 | corrected: the work is bound to the RESETTING state the machine runs; EXECUTE's work and every other part of the machine stay as they were |
| Engine.SetExecuteReachesRunningState | packml_sm/src/state_machine.cpp:334-337 | once corrected, the bound work is the work the EXECUTE the machine enters runs, and the constructor's unused objects are left alone |
| StdMap.LessIrreflexive | packml_ros/include/packml_ros/interface/packml_interface.hpp:281 | no client name sorts before itself |
| StdMap.LessTotal | packml_ros/include/packml_ros/interface/packml_interface.hpp:281 | of two different names, one sorts first |
| StdMap.LessTransitive | packml_ros/include/packml_ros/interface/packml_interface.hpp:281 | the name order is transitive |
| StdMap.LessAsymmetric | packml_ros/include/packml_ros/interface/packml_interface.hpp:281 | the name order is asymmetric |
| StdMap.KeysAt | packml_ros/include/packml_ros/interface/packml_interface.hpp:281 | a name is in the map exactly when some entry carries it |
| StdMap.GetFound | packml_ros/include/packml_ros/interface/packml_interface.hpp:281 | `find` succeeds exactly for the names present and returns an entry's value |
| StdMap.GetAt | packml_ros/include/packml_ros/interface/packml_interface.hpp:281 | in a sorted map, `find` on an entry's name returns that entry's value |
| StdMap.PutSorted | packml_ros/include/packml_ros/modes_config.hpp:138 | `m[k] = v` keeps the map sorted, adds exactly `k` to its keys, and grows it only for a new key |
| StdMap.GetPut | packml_ros/include/packml_ros/modes_config.hpp:138 | what `m[k] = v` stores is what `find` returns, and no other key changes |
| StdMap.Filter | packml_ros/include/packml_ros/interface/packml_interface.hpp:323-346 | filtering keeps only entries passing the test, taken from the map, in order |
| StdMap.FilterKeeps | packml_ros/include/packml_ros/interface/packml_interface.hpp:323-346 | filtering drops exactly the entries that fail the test, and drops none exactly when all pass |
| StdMap.FilterAllKept | packml_ros/include/packml_ros/interface/packml_interface.hpp:323-346 | when every entry passes the test, filtering gives the map back unchanged |
| Fanout.CallAllClients | packml_ros/include/packml_ros/interface/packml_interface.hpp:316-349 | the futures are sorted, no more than the clients, and each belongs to a reachable client |
| Fanout.CallAllClientsKeys | packml_ros/include/packml_ros/interface/packml_interface.hpp:323-346 | there is a future exactly for each reachable client, carrying that client's reply, and as many futures as clients exactly when all are reachable |
| Fanout.GatherAsWritten | packml_ros/include/packml_ros/interface/packml_interface.hpp:351-396 | what `wait_all_futures` returns as written; `Fanout.GatherAllAccepted`, `Fanout.LaterAcceptMasksRejection` and `Fanout.AsWrittenAgreesWhenReadyPassesDistinct` relate it to the corrected verdict |
| Fanout.GatherAll | packml_ros/include/packml_ros/interface/packml_interface.hpp:351-396 | the corrected verdict: a future from every client and every reply an acceptance; `Fanout.WaitAllFutures` computes it |
| Fanout.WaitAllFuturesAsWritten | packml_ros/include/packml_ros/interface/packml_interface.hpp:351-396 | the polling loop as written computes the as-written gather: refusal without futures or with fewer futures than clients, otherwise the last verdict read when the loop stops |
| Fanout.PassAsWritten | packml_ros/include/packml_ros/interface/packml_interface.hpp:379-391 | one as-written pass reads each future ready in it, lets each verdict overwrite `success`, reports whether any is still waiting, and invalidates what it read |
| Fanout.WaitAllFutures | packml_ros/include/packml_ros/interface/packml_interface.hpp:351-396 | the corrected loop succeeds exactly when every client gave a future and every reply is an acceptance |
| Fanout.Pass | packml_ros/include/packml_ros/interface/packml_interface.hpp:379-391 | one corrected pass conjoins the verdicts read so far |
| Fanout.GatherAllAccepted | packml_ros/include/packml_ros/interface/packml_interface.hpp:364-395 | whatever the corrected gather accepts, the as-written gather accepts too |
| Fanout.LaterAcceptMasksRejection | packml_ros/include/packml_ros/interface/packml_interface.hpp:384 | two clients ready in the same pass, the first refusing and the second accepting: the as-written gather reports success |
| Fanout.AsWrittenAgreesWhenReadyPassesDistinct | packml_ros/include/packml_ros/interface/packml_interface.hpp:364-395 | when no two replies become ready in the same pass, the as-written gather and the corrected one agree |
| Fanout.GatherAllMeansEveryClientAccepts | packml_ros/include/packml_ros/interface/packml_interface.hpp:316-396 | after a fan-out, the corrected gather succeeds exactly when the registry is non-empty and every client is reachable and accepts |
| Manager.ToTransitionCmd | packml_ros/include/packml_ros/interface/packml_interface.hpp:54-78 | a code maps to the command whose code it is, and to NO_COMMAND exactly when it is no command's code |
| Manager.ToTransitionCmdRoundTrip | packml_ros/include/packml_ros/interface/packml_interface.hpp:54-78 | with distinct codes, each command's code maps back to that command |
| Manager.PublishStatus | packml_ros/include/packml_ros/interface/packml_interface.hpp:399-421 | publishing appends one Status message naming the current state, with the mode carried unchanged when it fits a signed byte, and changes nothing else |
| Manager.FanoutAccepted | packml_ros/include/packml_ros/packml_ros-new.hpp:180-198 | the verdict of a fan-out: `wait_all_futures` as written over the futures `call_all_clients` returns; `Manager.FanoutAcceptedCases` states what it tells |
| Manager.FanoutAcceptedCases | packml_ros/include/packml_ros/interface/packml_interface.hpp:316-396 | a fan-out succeeds when every client is reachable and accepts; a success needs a non-empty registry of reachable clients; when no two replies arrive in the same polling pass, it succeeds exactly when every client accepts |
| Manager.StateRequest | packml_ros/include/packml_ros/packml_ros-new.hpp:191-193 | the StateTransition request carries a signed byte that names the entered state |
| Manager.ModeRequest | packml_ros/include/packml_ros/interface/packml_interface.hpp:453-454 | the ModeTransition request forwards the requested mode's signed byte unchanged |
| Manager.OnStateChanged | packml_ros/include/packml_ros/packml_ros-new.hpp:174-224 | every client is sent the request naming the entered state; the state is recorded and published as (entered state, current mode) exactly when the fan-out succeeds, which it does whenever every client follows; otherwise only the request was sent |
| Manager.OnModeChanged | packml_ros/include/packml_ros/packml_ros-new.hpp:226-231 | the mode is recorded and one Status message is published at once, carrying the current state and the new mode; no client is asked |
| Manager.NodeAdoptsModeChange | packml_ros/include/packml_ros/packml_ros-new.hpp:226-231 | a node given the Status `on_mode_changed` publishes ends in the coordinator's state and the new mode, and its hook runs unless it was there already |
| Manager.NodeAskedForEnteredState | packml_ros/include/packml_ros/packml_ros-new.hpp:191-196 | a node that approves the request `on_state_changed` sends records the entered state as the one it is switching to |
| Manager.OnChangeMode | packml_ros/include/packml_ros/interface/packml_interface.hpp:424-482 | a local refusal returns its error without a fan-out; otherwise every client is sent the requested mode; a failed fan-out returns "Error in one of the packml clients" after one Status (current state, requested mode) was already published; the reply succeeds, and publishes that Status again, exactly when the local switch and the fan-out both succeed, so always when every client follows |
| Manager.OnChangeState | packml_ros/include/packml_ros/interface/packml_interface.hpp:484-517 | an unrecognised code is refused without touching the machine; otherwise the reply succeeds exactly when the machine admits the command, which then enters the table's target |
| Manager.RunCommand | packml_ros/include/packml_ros/interface/packml_interface.hpp:500-516 | a recognised command: the reply succeeds exactly when the machine admits it; a refusal changes nothing and names the command; an admitted command enters the table's target, and the coordinator either records it or changes nothing but its machine |
| Manager.AfterEntry | packml_ros/include/packml_ros/packml_ros-new.hpp:174-224 | `on_state_changed` runs exactly when a state was entered; the machine and the mode are untouched, and the recorded state becomes the entered one or stays as it was |
| Manager.OnMachineEvent | packml_ros/include/packml_ros/packml_ros-new.hpp:174-224 | any other event moves the coordinator's machine as one step |
| Manager.InSyncPreserved | packml_ros/include/packml_ros/packml_ros-new.hpp:202-217 | while every client follows, the recorded state stays equal to the machine's state |
| Manager.RefusalLeavesStateStale | packml_ros/include/packml_ros/packml_ros-new.hpp:202-208 | when no two replies arrive in the same polling pass, a refusing or unreachable client leaves the recorded state and the published messages as they were |
| Manager.UnreachableLeavesStateStale | packml_ros/include/packml_ros/interface/packml_interface.hpp:351-362 | an unreachable client leaves the recorded state and the published messages as they were, however the replies arrive |
| Manager.SamePassRefusalRecordsState | packml_ros/include/packml_ros/interface/packml_interface.hpp:379-391 | as written, a refusal read in the same pass as a later acceptance is lost: the entered state is recorded and published |
| Manager.NewCoordinator | packml_ros/include/packml_ros/packml_ros-new.hpp:172-244 | after construction the machine is in ABORTED under MANUAL; the clients were asked about ABORTED; the first Status published is (UNDEFINED, MANUAL), and (ABORTED, MANUAL) follows, with ABORTED recorded, exactly when the fan-out succeeds, so always when every client follows |
| Manager.FreshNodeFollowsStartup | packml_ros/include/packml_ros/packml_ros-new.hpp:226-244 | a node fresh from `init` that receives the start-up Status messages in order ends under MANUAL, in the state the coordinator recorded, after one hook call per message |
| NodeMirror.InitMirror | packml_ros/include/packml_ros/interface/packml_interface.hpp:242-245 | after `init` the node mirrors state UNDEFINED and mode UNDEFINED, current and switching, and the waiting flags are left as they were |
| NodeMirror.FreshNodeAdoptsStartupStatus | packml_ros/include/packml_ros/interface/packml_interface.hpp:196-245 | a node fresh from `init` adopts only the mode from (UNDEFINED, MANUAL), then only the state from (ABORTED, MANUAL), one hook call each, and in the end awaits neither component |
| NodeMirror.OnStateTransReq | packml_ros/include/packml_ros/interface/packml_interface.hpp:125-158 | the reply's success is the hook's verdict; approval records the switching state and the waiting flag; refusal changes nothing and says so |
| NodeMirror.OnModeTransReq | packml_ros/include/packml_ros/interface/packml_interface.hpp:160-194 | the same for a mode request |
| NodeMirror.PendingFlagsNeverReachTheReply | packml_ros/include/packml_ros/interface/packml_interface.hpp:134-157 | the reply is the same whatever the waiting flags are |
| NodeMirror.OnStatusChanged | packml_ros/include/packml_ros/interface/packml_interface.hpp:196-234 | a status is adopted; a component's waiting flag is cleared exactly when that component changed; the callback runs once per changed component |
| NodeMirror.StatusUpdateIdempotent | packml_ros/include/packml_ros/interface/packml_interface.hpp:203-233 | a repeated status changes nothing and calls nobody |
| NodeMirror.ApprovedRequestThenStatus | packml_ros/include/packml_ros/interface/packml_interface.hpp:125-234 | an approved state request followed by the status announcing that state ends with the state adopted and no longer awaited |
| SmNode.MyExecuteMethod | packml_ros/include/packml_ros/packml_ros.hpp:403-411 | the node's work returns 0 |
| SmNode.NewSmNode | packml_ros/include/packml_ros/packml_ros.hpp:150-175 | a new node's machine is a valid SINGLE CYCLE machine in ABORTED with no mode installed; as written, the node's work lands on the unused EXECUTE object and the EXECUTE it runs keeps the start-up sleeper |
| SmNode.ModeRequest | packml_ros/include/packml_ros/packml_ros.hpp:180-200 | succeeds exactly when the machine's switch does, with "Succes!"; otherwise INVALID_MODE_REQUEST with the machine's error |
| SmNode.TransRequest | packml_ros/include/packml_ros/packml_ros.hpp:207-268 | a command method is called exactly for a recognised code; an unrecognised code is refused with its number; the reply otherwise reports the method's result |
| SmNode.CallCommand | packml_ros/include/packml_ros/packml_ros.hpp:250-261 | the reply succeeds exactly when the machine admits the command, and its message carries the request code |
| SmNode.SameNamedMethodCalled | packml_ros/include/packml_ros/packml_ros.hpp:215-245 | each command's code calls exactly that command's method |
| SmNode.NewNodeRefusesMaskedCommands | packml_ros/include/packml_ros/packml_ros.hpp:150-175 | with masked commands, a new node refuses every StateChange until a mode is installed |
| SmNode.StatusRequest | packml_ros/include/packml_ros/packml_ros.hpp:275-368 | the flag of a real state is raised exactly when it is the current state |
| SmNode.StatusFlagsOneHot | packml_ros/include/packml_ros/packml_ros.hpp:279-368 | at most one flag is raised, the current state's; none in UNDEFINED |
| SmNode.UndefinedHasNoFlag | packml_ros/include/packml_ros/packml_ros.hpp:366-367 | UNDEFINED has no flag of its own |
| ModesConfig.FirstNotSpace | packml_ros/include/packml_ros/modes_config.hpp:87 | the first position not in " \t\r\n", or the end |
| ModesConfig.LastNotSpace | packml_ros/include/packml_ros/modes_config.hpp:89 | the last position not in " \t\r\n", or -1 |
| ModesConfig.Trim | packml_ros/include/packml_ros/modes_config.hpp:86-91 | the result is the string without its leading and trailing blanks, empty exactly for an all-blank string |
| ModesConfig.TrimPadded | packml_ros/include/packml_ros/modes_config.hpp:86-91 | trimming recovers a string with non-blank ends from any blank padding |
| ModesConfig.TrimIdempotent | packml_ros/include/packml_ros/modes_config.hpp:86-91 | trimming twice is trimming once |
| ModesConfig.IndentOf | packml_ros/include/packml_ros/modes_config.hpp:93-101 | the loop counts one per leading space and two per leading tab, stopping at the first other character |
| ModesConfig.IndentOfPrefixed | packml_ros/include/packml_ros/modes_config.hpp:93-101 | a leading space adds one, a tab two, anything else ends the count |
| ModesConfig.Find | packml_ros/include/packml_ros/modes_config.hpp:106 | `find` returns the first position of the character, or none exactly when it is absent |
| ModesConfig.StripComment | packml_ros/include/packml_ros/modes_config.hpp:106-109 | the line up to its first '#', which no longer holds one |
| ModesConfig.ParseBool | packml_ros/include/packml_ros/modes_config.hpp:158-167 | a value reads false exactly when it is "false", "0" or "no" |
| ModesConfig.StateOfName | packml_ros/include/packml_ros/modes_config.hpp:46-64 | a name found in the table is one of the seventeen machine states |
| ModesConfig.StateOfNameInvertsStateName | packml_ros/include/packml_ros/modes_config.hpp:46-64 | the table finds every state but UNDEFINED under its `to_string` name, and not UNDEFINED |
| ModesConfig.StateOfNameOnlyNames | packml_ros/include/packml_ros/modes_config.hpp:46-64 | a name is found only if it is the found state's name |
| ModesConfig.AllTrueIsProductionProfile | packml_ros/include/packml_ros/modes_config.hpp:66-70 | the default mask equals the profile the machine installs for PRODUCTION |
| ModesConfig.SplitLine | packml_ros/include/packml_ros/modes_config.hpp:116-120 | a line splits exactly when it holds a colon, and its key holds none |
| ModesConfig.AtTop | packml_ros/include/packml_ros/modes_config.hpp:122-131 | a top-level key picks the section it names, or none, and forgets the current mode |
| ModesConfig.AtMode | packml_ros/include/packml_ros/modes_config.hpp:134-152 | an indent-2 line keeps the section and the reader valid |
| ModesConfig.AtState | packml_ros/include/packml_ros/modes_config.hpp:154-171 | an indent-4 line keeps the section, the current mode and the mode values; only the masks can change |
| ModesConfig.Dispatch | packml_ros/include/packml_ros/modes_config.hpp:122-171 | any line, at any indentation, keeps the reader valid |
| ModesConfig.ReadLine | packml_ros/include/packml_ros/modes_config.hpp:104-172 | one line keeps the maps sorted, every mask complete and the current mode backed by a mask |
| ModesConfig.ReadContent | packml_ros/include/packml_ros/modes_config.hpp:110-120 | the content of any line, whatever its indentation, keeps the reader valid |
| ModesConfig.ReadLines | packml_ros/include/packml_ros/modes_config.hpp:104-172 | the reader over the file keeps its invariant |
| ModesConfig.CombineDomain | packml_ros/include/packml_ros/modes_config.hpp:175-180 | a value is in the result exactly when some mask's mode name has that value |
| ModesConfig.CombineLast | packml_ros/include/packml_ros/modes_config.hpp:175-180 | the mask stored under a value is the last one, in name order, whose mode has that value |
| ModesConfig.Read | packml_ros/include/packml_ros/modes_config.hpp:104-172 | the reader's state after the whole file is valid |
| ModesConfig.ParseModesConfig | packml_ros/include/packml_ros/modes_config.hpp:34-183 | every mask in the result covers exactly the seventeen machine states |
| ModesConfig.CombinedModes | packml_ros/include/packml_ros/modes_config.hpp:175-180 | a value has a mask exactly when some mode name has both that value and a mask |
| ModesConfig.CombinedMask | packml_ros/include/packml_ros/modes_config.hpp:175-180 | that mask is the mode's own when no other masked mode shares the value |
| ModesConfig.ParsedModes | packml_ros/include/packml_ros/modes_config.hpp:174-182 | a mode value is in the result exactly when a name was given it under `modes` and appeared under `state_masks` |
| ModesConfig.ParsedMask | packml_ros/include/packml_ros/modes_config.hpp:174-182 | the result's mask for that value is the name's mask, unless another masked name shares the value |
| ModesConfig.ReadLineOfLine | packml_ros/include/packml_ros/modes_config.hpp:104-120 | a line written as indentation, key, colon and value is taken apart into exactly those |
| ModesConfig.IndentOfLine | packml_ros/include/packml_ros/modes_config.hpp:112 | the indentation read back is the one written |
| ModesConfig.NoCommentInLine | packml_ros/include/packml_ros/modes_config.hpp:106-109 | such a line has nothing stripped |
| ModesConfig.TrimLine | packml_ros/include/packml_ros/modes_config.hpp:113 | trimming such a line leaves its content |
| ModesConfig.SplitContent | packml_ros/include/packml_ros/modes_config.hpp:116-120 | the content splits into the written key and value |
| ModesConfig.ReadHeader | packml_ros/include/packml_ros/modes_config.hpp:122-131 | a section header is read as one |
| ModesConfig.ReadModeValue | packml_ros/include/packml_ros/modes_config.hpp:134-143 | a mode's decimal value under `modes` is stored as written |
| ModesConfig.ReadMaskStart | packml_ros/include/packml_ros/modes_config.hpp:144-150 | a mode name under `state_masks` becomes current, with an all-true mask unless it already has one |
| ModesConfig.ReadMaskEntry | packml_ros/include/packml_ros/modes_config.hpp:154-169 | a state's entry sets that state's flag of the current mask and nothing else |
| ModesConfig.StateNameIsPlainKey | packml_ros/include/packml_ros/modes_config.hpp:46-64 | every state name can be written as a key and read back |
| ModesConfig.CommentAndBlankLinesIgnored | packml_ros/include/packml_ros/modes_config.hpp:106-110 | a blank line, or one whose first non-blank character opens a comment, changes nothing |
| ModesConfig.OneMaskRead | packml_ros/include/packml_ros/modes_config.hpp:104-172 | a five-line file that gives one mode a value and turns one state off reads into that mode's value and mask |
| ModesConfig.OneMaskFile | packml_ros/include/packml_ros/modes_config.hpp:34-183 | such a file parses to that one value, with every state available but the one turned off |
| ModesConfig.MaintenanceFile | packml_ros/include/packml_ros/modes_config.hpp:34-183 | a file giving MAINTENANCE the value 2 and turning COMPLETING off parses to the profile the machine installs for MAINTENANCE |

## Left out

- The Qt runtime is left out: `QCoreApplication`, threads, `activate`, `deactivate` and `isActive`. A command is one atomic step, and activation is folded into `Engine.Init` as the entry into ABORTED.
- Engine.Init: activation comes first in the model. In `SMNode_new` the switch to MANUAL precedes it. The two orders commute, because a switch with no mode installed succeeds without reading the state (`Engine.FirstSwitchCommutesWithEntry`).
- Generator.ModeSwitcher: requires that the profile does not list UNDEFINED. Every profile `changeMode` builds meets this. For a profile that listed UNDEFINED, `states[to_string(...)]` (states_generator.hpp:110-111) would insert a null pointer and dereference it. That undefined behaviour is not modelled.
- Client behaviour on a request is given data. `clients` is how the registry answers the one request a fan-out sends. The model records that request in `Coordinator.asked`, but it does not derive a client's answer from it.
- Promises and blocking waits are left out, and so is the shared `changed_prom_` in the coordinator. The value a command's promise resolves to is returned directly.
- The work of acting states is left out. `ActingState::onEntry` and `operation` are not part of this model, and their completion is the explicit `StateCompleteEvent`.
- `CmdTransition::eventTest` and `ErrorTransition::eventTest` are not part of this model. Whether they check availability is the `MaskPolicy` parameter.
- `onTransition` only logs, and is not modelled.
- Timing is left out: the chrono bookkeeping in `PackmlState::onExit`, and the float per-state timers of `SMNode` and its AllStatus reply.
- The ROS transport is left out: services, clients, executors, `spin_once`, the `wait_for_service` timeout and the publisher. A client's behaviour on one request is given data: whether it is reachable, its verdict, and the poll pass in which its reply becomes ready.
- Node parameters and the client registry's construction are left out. The registry is given as a sorted list of clients.
- The service code values are not part of this model. Request codes are the `RequestCodes` parameter, and named error codes are symbolic.
- The `ifstream` in `parse_modes_config` is left out. The reader works on the file's lines.
- `generate_modes_header.py` is a build-time generator and is not modelled.
- `utest.cpp` holds transport-level tests and is not modelled.
- `PackmlNodeInterface`'s `on_all_status` hook has an empty body and is not modelled.
- The unused state objects the `StateMachine` constructor wires are not modelled, beyond the EXECUTE and RESETTING objects that `setExecute` and `setResetting` touch.
- Logging to standard output is left out everywhere.
- Engine.MaskedCommandRefused: stated only for a command policy that masks. Without masking, commands follow the table unfiltered; `Engine.NextStateMatchesTable` covers that case.
- Manager.PublishStatus: the mode is carried unchanged only when it fits a signed byte. The state always fits.
- SmNode.StatusRequest: the seventeen timer fields of the reply are not modelled.
- ModesConfig.ParseModesConfig: its own contract states only the shape of the result. `ParsedModes` and `ParsedMask` state what it contains.
- Fanout.NodeReply: every reachable client's reply is taken to become ready in some polling pass, since `readyAt` is a number. A client that takes the request but never answers would keep the loop at packml_interface.hpp:369 polling forever; the TODO at line 368 notes the missing timeout. That case is not modelled.
- Fanout.WaitAllFuturesAsWritten: terminates because of the assumption above; its contract says nothing about a reply that never arrives.
- Manager.RefusalLeavesStateStale: stated only when no two replies become ready in the same polling pass. Otherwise a refusal followed in that pass by an acceptance is lost and the state is recorded anyway, as `Manager.SamePassRefusalRecordsState` shows. An unreachable client always leaves the state stale: `Manager.UnreachableLeavesStateStale`.
- Decimal.Stoi: `std::stoi` accepts only what the C locale's `isspace` skips, an optional sign and digits. Its exact treatment of values beyond 32 bits is only its failure: no value is produced.

## Findings

| source | as written | input that shows it | evidently intended | confidence | as-written member | corrected member |
|---|---|---|---|---|---|---|
| packml_sm/src/state_machine.cpp:334-342 | `setExecute` and `setResetting` rebind the `execute_` and `resetting_` objects the constructor creates at lines 269 and 275. The running machine is built by the generator, whose objects those are not, and `init` binds a one-second sleeper to the generated EXECUTE at lines 551 and 635. | `SMNode` at packml_ros/include/packml_ros/packml_ros.hpp:174 binds `myExecuteMethod`; the EXECUTE the machine enters still runs the sleeper (`SmNode.NewSmNode`) | bind the work to the EXECUTE (RESETTING) state the machine actually enters | high, not executed | Engine.SetExecuteAsWritten, Engine.SetResettingAsWritten, Engine.SetExecuteMissesRunningState, SmNode.NewSmNode | Engine.SetExecute, Engine.SetResetting, Engine.SetExecuteReachesRunningState |
| packml_ros/include/packml_ros/interface/packml_interface.hpp:384 | `success = on_value(...)` overwrites the verdict of every reply read earlier in the same pass | two reachable clients "a" (refuses) and "b" (accepts), both ready in the first pass: the gather reports success, and the coordinator records and publishes a state "a" refused (`Manager.SamePassRefusalRecordsState`) | `success = success && on_value(...)`: succeed only when every client accepts, as the comment at line 364 says | high, not executed | Fanout.GatherAsWritten, Fanout.WaitAllFuturesAsWritten, Fanout.LaterAcceptMasksRejection, Manager.SamePassRefusalRecordsState | Fanout.GatherAll, Fanout.WaitAllFutures, Fanout.GatherAllMeansEveryClientAccepts |

The rest of the model uses the as-written members. `SmNode.NewSmNode` binds
its work with `Engine.SetExecuteAsWritten`. `Manager` judges every fan-out
with `Fanout.GatherAsWritten`, through `Manager.FanoutAccepted`, and
`Manager.FanoutAcceptedCases` says when that verdict agrees with the
corrected one. The corrected members stand alongside, with their intended
properties proved.
