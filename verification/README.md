# Ibuki: verified model of the path controller

Ibuki is an event-driven path controller. For every *intent* (a traffic selector, a way of choosing a path, and a
transition policy) it observes candidate paths, selects one, and moves traffic to it in phases: bring the tunnels up,
validate, switch forwarding, confirm, clean up. The first four phases are retried; a failure is compensated. Around that
core sit a forwarding backend driven through callbacks, a plan of shell-free commands with undo commands, telemetry
records that are merged as they arrive, a state file, and a configuration that is normalised and validated.

`dafny verify dfyconfig.toml` checks the whole project.

## How it is modelled

* **Records** (`Model.dfy`) are datatypes; a counted fixed-size array is a `seq` with the `EN_MAX_*` capacities as
  constants; identifiers are strings; doubles are reals, since NaN and infinity are rejected where they enter
  (src/telemetry.c:140, src/yaml_config.c:457-464). A missing health reading compares as the worst value (`DBL_MAX`).
* **State that the program updates in place** is held by classes: `VppMockAdapter.VppMock` and
  `ControllerState.AppliedTable` keep the parallel arrays of the source and relate them to a ghost map;
  `ControllerState.Controller`, `Telemetry.Store`, `Agent.Counters`, `ApplyPlan.Plan`, `ApplyPlan.Host`,
  `VppApi.Backend` and `Backends.Network` hold the rest. Loops of the source are loops here.
* **The outside world** is `Backends.Network`: each adapter call may fail whenever its fault flag allows, a failed call
  leaves the backend as it was, and every call is appended to a ghost trace. Waiting is a trace entry.
* **The clock** is read anew for every candidate of a selection (src/path_selection.c:143-150), so a selection is given a
  `PathSelection.Clock`: any function from the position of a candidate to what the clock reads then. All other time
  stamps are arbitrary.
* **A switch** is judged by folding its trace into a `Traces.Progress`. Its field `legal` says that each call was allowed
  when it was made; `Traces.MakeBeforeBreak` says what that means for the bare trace, without the fold. `Rounds` reads the
  retry discipline off the same trace: a phase that succeeds ran failed rounds, each followed by its backoff, and then one
  good round; a phase that gives up ran exactly one round more than it has retries (`Rounds.Ran`), and the whole trace of a
  switch is such phases in their order, a clean-up or a rollback (`Rounds.Conducted`). Reading the clock after an install
  is a trace entry too, and is what the applied table records.
* **Selection** has two readings: the loops of the source (`PathSelection.SelectPath`) and a declarative one
  (`PathSelection.Choose`: the first usable candidate, or the least one under the comparison, with hysteresis). The loops
  are proved against it and every law is proved about it. What both decide is stated a third time over the records alone:
  ten rules a candidate has to meet (`PathSelection.Meets`), and what it means to prefer one to another
  (`Preference.Prefers`).
* **Plan commands** are values with a rendered text and an effect on tunnels, interfaces, policies and routes. What runs is
  the text: `ApplyPlan.Host` tokenises it and does what `Argv.Read` makes of the words, which knows nothing of the
  renderers; `ApplyPlan.CommandReadsBack` and `ApplyPlan.AllSaidIsEffects` connect the two. A built plan is proved equal to
  `PlanBuilder.PlanSteps` and `PlanBuilder.PlanRollbacks`, the laws are proved about these, and `Deployment.IsWanted` says
  over the configuration what a deployed path consists of.

## Where the code and its natural reading differ

These are results about the code as it is; each has an exact condition below.

* Selection reads the clock once per candidate. As long as no two readings lie on different sides of the hold-down of the
  active path, it behaves as if the clock had been read once: priority mode takes the first path usable at one moment, the
  order of evaluated candidates is free, and selection does not flap. Each of these holds if and only if no two readings do
  (`HoldDownLaws.OnceIsEnoughExactly` and the three laws beside it). `HoldDownLaws.BoundaryExample` is a selection that
  flaps, `Flapping.Flaps` a whole run that does, for every hold-down that two readings straddle.
* The applied table and forwarding agree after every submission on backends that never fail to remove and answer
  truthfully. In general they part exactly when the backend installed the target and withdrew it, and did not put the
  previous path back (`Runs.AgreementExactly`). `Runs.AgreementCanFail` is an execution: the first path of a new
  controller, on a backend that does everything it is told but never answers which path it serves.
* A restored controller records a path that forwarding may not serve. A submission that keeps the path does not look; one
  that completes or undoes a switch repairs the key (`Restart.SubmitOver`).
* Storing an applied path in a full table is silently dropped, exactly for a new key without room
  (`ControllerState.StoredTakesEffect`).
* Cleanup looks at the two paths of the switch only: another traffic key keeps its tunnels exactly if it shares none that
  only the previous path used (`Runs.OtherKeysTunnels`).
* After a rollback the restored path is READY, not ACTIVE (`Transition.TransitionPath`).
* A VLAN that an edge of the path forbids makes an install fail without undoing the sub-interfaces created for earlier
  edges; nothing is left exactly if no edge of the path precedes the forbidding one, or a creation failed; everything else
  is all or nothing (`VppApi.ApplyPathOperations`, `VppApi.ForbiddenVlanExample`).
* A rollback list cut short leaves no route of the plan without its interface exactly if it does not misname one through an
  interface of the plan (`PlanOrder.NoRouteDangles`).
* Undoing a plan goes on past undo commands that fail. A route then stays without its interface exactly if the undo command
  of the interface worked and none of the route did (`PlanLaws.RoutesKeepTheirInterface`, `PlanLaws.OrphanExample`).
* The rollback list takes a completed plan back exactly if it names the route the plan added and no other
  (`PlanLaws.RollbackListRestores`). Without a route list it may name another next hop, exactly when the tunnel is GRE and
  the path names a next hop other than the GRE peer; and over a tunnel that is not GRE it deletes by prefix, and takes any
  other route of that prefix in the default table along. Normalised configurations cannot reach either
  (`ConfigLaws.NormalisedPlansAreExact`). Running a plan is not affected: that command comes last and is never undone.
* The builder does not look at the file name of the load command; the runner takes the command exactly if the
  blank-separated parts of the name are plan tokens (`ApplyPlan.LoadRunsExactly`).
* The two-step checksum fold is the one's-complement sum exactly if the second partial sum fits 16 bits, for any data
  shorter than 2 to the 44th words (`Checksum.FoldExactlyFits`), hence always below 2 to the 32nd;
  `Checksum.FoldCanFail` is data for which it is not.
* A written state line is accepted again exactly if both traffic endpoints consist of state characters
  (`StateFile.StateLineRestorable`); validation guarantees that only when the configuration lists nodes
  (`ConfigLaws.AcceptedEndpointsAreTokens`).

## Model

| member | source | states |
|---|---|---|
| `Transition.TransitionPath` | src/transition.c:35-90 | The outcome theorem, for adapters that fail at will: done (table and forwarding hold the target, its tunnels up, operational states ACTIVE and STANDBY), undone (the previous path applied, served, READY and on tunnels that are up), or stopped half way and FAILED; every call legal, calls and waiting bounded by the policy. The trace is exactly that of four retried phases and a clean-up, up to the first phase that gave up after all its retries, and the error is that of what broke; the recorded time is the clock reading after the install. If nothing stands in the way the target gets installed, and on truthful backends that remove when told to the switch is done; on a backend that never answers it is not |
| `Transition.Attempt` | src/transition.c:50-84 | The phases in order up to the first failure change the world exactly if the target was installed, lose no previous tunnel before confirmation, and fail only for a phase that gave up after all its retries or a failed clean-up |
| `Transition.TransitionPrepare` | src/transition.c:145-181 | Brings up every tunnel of the path, one call per segment, stores the observations, and touches no other operational state; cannot fail if tunnels come up and the table has room for them |
| `ControllerState.Controller.DesiredIsConfigured` | src/transition.c:145-181 | The tunnel a segment asks for is the configured one of that name, the first if there were several, or one between the ends of the segment |
| `Transition.TransitionPrepareRetry` | src/transition.c:101-110 | Rounds of segments with the linear backoff after each failed one: gives up after exactly retries + 1 failed rounds and with the error of the last, succeeds at the first good one, and then all tunnels are up |
| `Transition.RetryWait` | src/transition.c:92-99 | The wait after a failed round is backoff times attempt + 1, at most what an int holds, and the product never overflows 64 bits |
| `Transition.TransitionReady` | src/transition.c:183-206 | Succeeds only for a path just validated as usable, whose reading is then stored, and always if the probe says so |
| `Transition.TransitionReadyRetry` | src/transition.c:112-121 | One validation per round: gives up after exactly retries + 1 bad readings, with the backoff after each but the last, and otherwise ends at the first usable one |
| `Transition.TransitionCommit` | src/transition.c:208-239 | Installs and records the target together or changes neither; flow-preserve is refused |
| `Transition.TransitionCommitRetry` | src/transition.c:123-132 | In every round the pauses of the policy and then one install: gives up after exactly retries + 1 failed ones; all or nothing over all attempts |
| `Transition.Pause` | src/transition.c:211-221 | A graceful commit waits exactly the pause and then the drain of the policy |
| `Transition.TransitionConfirm` | src/transition.c:257-270 | Confirms exactly when the backend reports the target, or cannot be asked; never on one that does not answer |
| `Transition.TransitionConfirmRetry` | src/transition.c:134-143 | One question per round: gives up after exactly retries + 1 other answers; cannot fail on a truthful backend that serves the target |
| `Transition.RemoveUnsharedTunnels` | src/transition.c:310-331 | Takes down only tunnels the kept path does not use, and on success all of those observed |
| `Transition.TransitionCleanupPrevious` | src/transition.c:241-255 | Breaks the previous path only, after confirmation; the target keeps serving and shared tunnels stay |
| `Transition.Reinstall` | src/transition.c:297-306 | Brings the previous path back on tunnels that are up, or leaves table and forwarding alone; cannot fail if the path can be reinstalled |
| `Transition.UndoTarget` | src/transition.c:272-291 | Takes down what was built for the target alone and withdraws it at most once; cannot fail on a backend that removes when told |
| `Transition.Rollback` | src/transition.c:272-308 | IDLE exactly if the previous path is applied, served and READY again with its tunnels up; otherwise FAILED with the table unchanged. IDLE for certain if the backend removes when told and the previous path can be reinstalled |
| `Traces.MakeBeforeBreak` | src/transition.c:65-84 | On every legal trace nothing of the previous path is removed before the target was installed and, where it can be asked, reported active; a shared tunnel is never removed |
| `Traces.InstalledOnReadyPath` | src/transition.c:50-75 | A path is installed only after all its tunnels came up and, for the target, after it was validated usable |
| `Traces.ProgressIsCalls` | src/transition.c:35-90 | In a legal trace the target was installed, was withdrawn, or the previous path was put back exactly if the successful call is there |
| `Traces.BackoffsClosedForm` | src/transition.c:92-99 | The waits of n retries add up to backoff * n * (n + 1) / 2 |
| `Rounds.RetriesSuffice` | src/transition.c:92-143 | A switch in which no phase met more failures than it has retries, and no call of the clean-up failed, is done |
| `Rounds.GivingUpCounts` | src/transition.c:101-143 | A phase gives up only after more failed calls than it has retries |
| `Rounds.BrokenMeans` | src/transition.c:50-84 | An attempt breaks only for a phase with more failures than retries or that could not succeed at all, or for a failed call of the clean-up |
| `Runs.SwitchDespiteFailures` | src/transition.c:35-143 | On adapters that fail at will: as long as no phase meets more failures than it has retries and the clean-up goes through, the switch ends IDLE with the target recorded and served |
| `Runs.AgreementExactly` | src/transition.c:35-90 | From agreement, a switch keeps table and forwarding in agreement if and only if it is not the case that the backend installed the target, withdrew it, and did not install the previous path |
| `Runs.AgreementCanFail` | src/transition.c:236-296 | An execution, for any path and any valid policy but flow-preserve: the first switch of a new controller on a backend that never answers ends FAILED with the target recorded and nothing served |
| `Runs.FirstPathUnconfirmed` | src/transition.c:236-296 | The same from any state that agrees, for a key without an applied path: the table gains the target, forwarding is as before |
| `Runs.KeyAgreementExactly` | src/transition.c:35-90 | Whatever table and forwarding said before of a key with an applied path: they agree after a switch exactly if it was done or undone, or the target was installed and kept, or it was never installed and they agreed before |
| `Runs.OtherKeysUntouched` | src/transition.c:35-90 | In every outcome other traffic keys keep their applied and served path, and tunnels of neither path alone stay up |
| `Runs.OtherKeysTunnels` | src/transition.c:319-331 | After a completed switch another key has all its tunnels if and only if it shares none that only the previous path used |
| `Runs.SubmitKeepsAgreement` | src/controller.c:80-154 | One submission keeps agreement whatever call fails and however full the tables are |
| `Runs.Run` | src/controller.c:80-154 | Over every run, with telemetry changing in between: agreement on every key and a transition state of IDLE or FAILED |
| `Runs.RunOnMocks` | src/controller.c:32-73 | A fresh controller on the mock adapters starts every such run |
| `Runs.Resubmit` | src/controller.c:134-144 | No flapping end to end: after a completed switch whose clock readings did not straddle the hold-down, submitting again any number of times, whatever the clock reads, keeps the path and calls nothing but the health probe |
| `Flapping.Flaps` | src/path_selection.c:55-81 | The condition is needed: for every hold-down that two readings straddle, a run on faultless mocks switches to one path and, resubmitted with nothing changed, on to another |
| `ControllerLoop.SubmitIntent` | src/controller.c:80-154 | Quiescence on every path; a refused, unselected or maintained submission changes nothing outside, and asks the probe once per observed path; a switched one has the outcome, the rounds and the recorded time of the transition; the selection follows the declarative choice on the view of the moment, by one clock reading per candidate, chooses a path that meets all rules, and names for every excluded one the first rule it breaks |
| `ControllerLoop.Decide` | src/controller.c:89-125 | Observation and selection touch nothing but stored intents and readings, and NOT_FOUND means an unknown path was asked for |
| `ControllerLoop.Reconcile` | src/controller.c:126-153 | The path is kept exactly if it is the applied one |
| `ControllerLoop.ObserveCandidateHealth` | src/controller.c:183-205 | Asks the probe about every candidate in order, or the one explicit path, or all paths; every observed path exists, and observing again under the same telemetry would change nothing |
| `ControllerLoop.RecordIntent` | src/controller.c:95-109 | Replaces the stored intent of the same identifier or appends; refuses exactly a new one without room |
| `ControllerLoop.NotFoundMeansUnknown` | src/path_selection.c:33-87 | A selection rejected with NOT_FOUND asked for a path that does not exist |
| `PathSelection.SelectPath` | src/path_selection.c:16-131 | The loops compute the declarative choice in all three modes, each candidate judged by its own clock reading. Over the records: the selected path is enabled, on enabled nodes, out of its hold-down, healthy, recovered, fast and lossless enough, avoids and visits what it must and has capable ends; every path reported as excluded breaks the reported rule, and no earlier one |
| `PathSelection.ReasonIsFirstBroken` | src/path_selection.c:133-188 | A candidate has no exclusion reason exactly if it meets all ten rules, and otherwise the reason is that of the first rule it breaks |
| `PathSelection.ChosenSuits` | src/path_selection.c:33-128 | What the declarative choice selects meets all rules, in every mode and also when hysteresis retained it |
| `PathSelection.SelectByPriority` | src/path_selection.c:59-77 | The first candidate usable at its own reading, with exactly the preceding ones listed as excluded |
| `PathSelection.SelectByEvaluation` | src/path_selection.c:79-127 | The unique least of the candidates eligible at their own readings, or the active one where hysteresis retains it |
| `PathSelection.CompareIsTotalOrder` | src/path_selection.c:248-287 | For every key list the comparison is antisymmetric, transitive and zero only between equal identifiers |
| `PathSelection.CompareTransitive` | src/path_selection.c:248-270 | Lexicographic comparison is transitive through ties and missing metrics |
| `PathSelection.LeastIsUnique` | src/path_selection.c:248-270 | At most one candidate is least |
| `PathSelection.LeastExists` | src/path_selection.c:79-107 | Every non-empty set of candidates has a least one |
| `Preference.BeforeIsPrefers` | src/path_selection.c:248-287 | The comparison is the preference by the first key on which the records differ: less loss, lower round-trip time, fewer hops, smaller priority value, or the active path, and else the name |
| `Preference.BestIsPreferred` | src/path_selection.c:79-107 | Without hysteresis the chosen path is preferred to every other candidate that meets all rules |
| `Preference.NothingBetter` | src/path_selection.c:79-107 | By the primary key nothing that meets all rules is better than what is chosen without hysteresis: no lower round-trip time, loss or hop count |
| `SelectionLaws.ChosenIsSound` | src/path_selection.c:33-128 | A selected path is requested and has no exclusion reason, even when retained |
| `SelectionLaws.PriorityIsFirstUsable` | src/path_selection.c:59-77 | All three results of priority selection, each if and only if, over the candidates' own readings |
| `SelectionLaws.EvaluatedNoCandidate` | src/path_selection.c:79-107 | NO_CANDIDATE in evaluated mode means exactly that every candidate is known and excluded |
| `SelectionLaws.EvaluatedIgnoresOrder` | src/path_selection.c:79-127 | Path and error code are invariant under permuting or repeating the candidates, unless the readings lie on both sides of an effective hold-down |
| `SelectionLaws.HysteresisMargin` | src/path_selection.c:108-127 | The active path is left exactly if the best improves the primary metric by the configured share of max(abs(active), 1) |
| `SelectionLaws.EligibleShrinks` | src/path_selection.c:133-188 | A path eligible after a move to b was eligible before it at every reading outside the hold-down, and b still is at every reading |
| `SelectionLaws.NoFlapping` | src/path_selection.c:59-188 | Having moved to b by readings on one side, selection picks b again whatever the clock reads later, under unchanged telemetry |
| `SelectionLaws.OneReadingSuffices` | src/path_selection.c:59-150 | While the readings lie on one side, selection is as if the clock had been read once, at any of them |
| `HoldDownLaws.OnceIsEnoughExactly` | src/path_selection.c:143-150 | Over all controllers: selection by many readings is selection by any one of them if and only if no two lie on different sides of the hold-down |
| `HoldDownLaws.FirstUsableExactly` | src/path_selection.c:59-77 | Priority mode takes the first path usable at one moment, under the same condition |
| `HoldDownLaws.OrderIsFreeExactly` | src/path_selection.c:79-107 | The order of evaluated candidates is free, under the same condition |
| `HoldDownLaws.NeverFlapsExactly` | src/path_selection.c:59-150 | No selection flaps, under the same condition |
| `HoldDownLaws.BoundaryExample` | src/path_selection.c:143-150 | A selection at the boundary that flaps, and takes what is not the first usable path at any one moment |
| `ControllerState.AppliedTable.Set` | src/state.c:188-206 | The parallel arrays stand for a map that is overwritten, extended while there is room, and left alone when full |
| `ControllerState.AppliedTable.Get` | src/state.c:166-186 | Path and time stamp of a key, or nothing |
| `ControllerState.StoredTakesEffect` | src/state.c:188-206 | Storing takes effect if and only if the key is known or there is room; other keys never change |
| `TrafficKeys.KeyNeverTruncated` | src/state.c:223-237 | The traffic key always fits its buffer |
| `TrafficKeys.KeyInjective` | src/state.c:223-237 | The key determines source, destination and VLAN of token-valid selectors |
| `TrafficKeys.KeyExamples` | src/state.c:223-237 | The text of a key with and without a VLAN |
| `Text.StrCmpTransitive` | src/path_selection.c:248-270 | The order of identifiers is transitive |
| `VppMockAdapter.VppMock.InstallPath` | src/vpp_adapter_mock.c:6-30 | Installs unless told to fail or full, and then changes nothing |
| `VppMockAdapter.VppMock.RemovePath` | src/vpp_adapter_mock.c:46-62 | Removes the key exactly if the given path serves it |
| `VppMockAdapter.VppMock.CloseGap` | src/vpp_adapter_mock.c:50-57 | The shift in place removes one position from both arrays and keeps the order of the rest |
| `VppMockAdapter.VppMock.ActivePath` | src/vpp_adapter_mock.c:32-44 | The path served for a key |
| `Tables.RepresentsRemove` | src/vpp_adapter_mock.c:50-57 | Shifting both lists removes exactly that key from the map they stand for |
| `VppApi.ApplyPathOperations` | src/vpp_api_adapter.c:135-275 | Install is all or nothing with the undo calls the exact reverse of the successful additions; with a forbidden VLAN it leaves exactly the sub-interfaces before the forbidding edge, bindings as they were, or nothing if a creation failed; success adds or removes exactly the routes and sub-interfaces of the path, every table made before the first route into it, and with a VLAN every route into a table at an edge whose sub-interface looks that table up; only the tables of such routes are bound |
| `VppApi.ForbiddenVlanExample` | src/vpp_api_adapter.c:186-200 | The operation on a fresh faultless backend with two edges of which the second forbids the VLAN fails and leaves the first's sub-interface |
| `VppApi.InstallRoutes` | src/vpp_api_adapter.c:201-267 | Each table is made before the first route into it and bound at the edge of the route; any failure takes the routes and sub-interfaces back in reverse |
| `VppApi.PrepareTable` | src/vpp_api_adapter.c:205-246 | Makes the table of a route unless an earlier route did, and binds it at the matching edge unless it is bound there |
| `VppApi.TableExample` | src/vpp_api_adapter.c:201-250 | A VLAN, an edge and a route into table 10 on a fresh faultless backend: the table is made, the sub-interface looks it up, and then the route is added |
| `VppApi.CreateVlans` | src/vpp_api_adapter.c:186-200 | Sub-interfaces for the path's edges in order, undone on a failed creation |
| `VppApi.RollbackInstall` | src/vpp_api_adapter.c:116-133 | The undo calls of a trace, last addition first |
| `VppApi.RemoveAll` | src/vpp_api_adapter.c:244-275 | Removal takes away exactly the routes and sub-interfaces of the path |
| `VppApi.InstallThenRemove` | src/vpp_api_adapter.c:184-275 | Installing a fresh path and removing it is the identity on routes and sub-interfaces |
| `VppApi.UndoRestores` | src/vpp_api_adapter.c:116-133 | Replaying any additions and then their undo restores tables that held none of them |
| `VppApi.TableForNodeIsAgreed` | src/vpp_api_adapter.c:84-97 | The table of a node is the one all its routes agree on, unset if none asks, a conflict exactly if two differ |
| `ApplyPlan.Run` | src/apply_plan.c:392-439 | The texts of the commands in order, each doing what its words say; at the first failure the undo texts of those that ran, last first, and the error says whether any of them failed; a dry run does nothing |
| `ApplyPlan.CommandReadsBack` | src/render_commands.c:32-375 | The words of every rendered command, read by a reader that knows only the words, say verb and operands of what is meant: tunnels, GRE interfaces and their settings, policies, routes |
| `ApplyPlan.AllSaidIsEffects` | src/apply_plan.c:46-57 | Running the texts of readable commands does what the commands are meant to do |
| `ApplyPlan.Undo` | src/apply_plan.c:412-434 | Every undo command is tried, in reverse, past failures |
| `ApplyPlan.ForwardAdds` | src/apply_plan.c:392-411 | Running clean steps adds exactly what they make and leaves the rest as it was |
| `ApplyPlan.BackwardRestores` | src/apply_plan.c:412-422 | Undoing reversible steps in reverse removes exactly what they made, also where steps repeat |
| `ApplyPlan.BackwardKeeps` | src/apply_plan.c:412-434 | Whichever undo commands work, nothing of before is lost and nothing foreign appears |
| `ApplyPlan.SagaRestores` | src/apply_plan.c:392-439 | Failure at any command followed by the undo commands restores every resource |
| `ApplyPlan.RenderedCommandsRun` | src/apply_plan.c:46-57 | Whatever the renderers write, the tokeniser accepts; for the load command, of a file name that is a plan token |
| `ApplyPlan.LoadRunsExactly` | src/apply_plan.c:135-137 | For any file name: the load command is accepted exactly if the blank-separated parts of the name are plan tokens and few enough, and loads that one file exactly if the whole name is one |
| `PlanBuilder.Build` | src/apply_plan.c:81-305 | A plan is built exactly if every command can be rendered and the connection text fits; its commands and rollback list are exactly those of the path; NOT_FOUND only for an unknown tunnel; 73 commands and 48 rollbacks at most, so it never runs out of room |
| `PlanBuilder.AppendGres` | src/apply_plan.c:151-176 | Each GRE tunnel once, at the first segment that uses it |
| `PlanBuilder.AppendRoutes` | src/apply_plan.c:199-219 | Each route through the first GRE tunnel of the path, with the delete command of the same route |
| `PlanBuilder.RollbackGres` | src/apply_plan.c:264-278 | Each GRE tunnel deleted once, at the last segment that uses it |
| `PlanBuilder.GreInPlan` | src/apply_plan.c:151-176 | Every GRE tunnel of the path is created by the plan |
| `PlanLaws.Deploy` | src/apply_plan.c:81-439 | Building a plan and running its texts on a system without its resources: exactly what its commands mean, and all of them afterwards; or after a failure exactly what was there before |
| `Deployment.DeployPath` | src/apply_plan.c:81-439 | The same over the configuration: on success the connection file is loaded, what was there is untouched, and what was added is exactly the path's tunnels, GRE interfaces with address and MTU and up, policies in both directions if asked for, and routes; a failure leaves nothing, or an undo command failed too |
| `Deployment.CreatedIsWanted` | src/apply_plan.c:139-232 | A plan makes a resource if and only if the configuration wants it for the path |
| `Deployment.PlanSetsUp` | src/apply_plan.c:151-176 | After a plan every GRE interface has the address and MTU of its tunnel and is up |
| `Deployment.ConnectionsFirst` | src/apply_plan.c:134-150 | The connection file is loaded before anything else is done, and no other file is |
| `PlanOrder.BuiltUpInOrder` | src/apply_plan.c:134-232 | At every point of a run of a plan: no GRE interface of it without all its tunnels, no policy without all tunnels and interfaces, and no route before everything else is there |
| `PlanLaws.PlanIsClean` | src/apply_plan.c:139-232 | No step of a built plan touches what was there, and all but the last can be undone |
| `PlanLaws.PlanIsExecutable` | src/apply_plan.c:46-57 | No command or undo command of a built plan is refused by the tokeniser, for a file name that is a plan token, which the builder does not check |
| `PlanLaws.RoutesKeepTheirInterface` | src/apply_plan.c:392-434 | At every point of every run, forward or backward, whichever undo commands work: a route lacks the GRE interface the plan made for it exactly if that was taken away and no undo command of the route worked; never while no undo command of a route has failed |
| `PlanLaws.OrphanExample` | src/apply_plan.c:412-424 | One GRE tunnel and one route whose undo command fails: the route stays and its interface is gone |
| `PlanLaws.RollbackListRestores` | src/apply_plan.c:233-304 | The rollback list takes a completed plan back if and only if it names the route the plan added and no route of before |
| `PlanOrder.NoRouteDangles` | src/apply_plan.c:233-304 | Wherever the rollback list is cut short: no route of the plan points at an interface of the plan already taken away, if and only if the list does not misname a route through such an interface |
| `PlanOrder.NoTunnelUnprotected` | src/apply_plan.c:233-304 | Wherever the rollback list is cut short: as long as a tunnel of the path is up, the policies that block what would bypass it are in place |
| `PlanOrder.ListSaysWhatItMeans` | src/apply_plan.c:233-304 | The texts of the rollback list of a built plan, read as words, do what its commands are meant to do |
| `PlanLaws.LegacyNamesAgree` | src/apply_plan.c:220-261 | The add and delete commands of a route without a list name the same entry exactly if the tunnel is not GRE or the path's next hop is empty or the GRE peer |
| `PlanLaws.MisnamedExample` | src/apply_plan.c:220-261 | A concrete path whose delete command names another next hop |
| `Render.RenderedAddReadsBack` | src/render_commands.c:194-239 | The add command is rendered, accepted by the tokeniser, and its words say prefix, table, metric, next hop and interface exactly |
| `Render.RenderAddInjective` | src/render_commands.c:194-239 | Routes with the same add command agree on all it says |
| `Render.RenderedDeleteReadsBack` | src/render_commands.c:289-312 | The delete command names the entry of the add command of the same route |
| `Render.Tokenise` | src/apply_plan.c:46-57 | The loop returns the blank-separated words, and refuses exactly too long, too many or invalid ones |
| `Tokens.SplitAtBlank` | src/apply_plan.c:46-57 | With `Tokens.SplitWhole` this determines the words of every text: a blank separates, and the words are those before and after it |
| `Tokens.SplitWhole` | src/apply_plan.c:46-57 | A text without blanks is one word, or none |
| `Tokens.NothingForTheShell` | src/apply_plan.c:36-57 | No command the runner takes contains a quote, an escape or another character with a meaning to a shell |
| `Tokens.Examples` | src/apply_plan.c:46-57 | Three words with mixed blanks between them are taken, and refused with a separator among them |
| `Render.SplitJoin` | src/apply_plan.c:46-57 | Splitting what was joined by blanks returns the words |
| `Text.DecimalRoundTrip` | src/render_commands.c:209-216 | A printed number reads back |
| `Telemetry.Store.Set` | src/health_probe.c:47-118 | One record changes at most the entry of its own path, entries stay unique, and the entry becomes the merge |
| `Telemetry.MergeIsFold` | src/health_probe.c:47-112 | The stored time is the newest offered and each observation that of the last accepted record bearing it |
| `Telemetry.MeasurementsAreLatest` | src/health_probe.c:47-112 | Round-trip time, loss, jitter, counters, source and sequence are those of the last accepted record that measures, of the first one if none did; state and loss those of the last accepted record if it measures |
| `Telemetry.StaleExactly` | src/health_probe.c:47-81 | A record is turned away exactly if it is older than the newest offered, or as old but earlier in the numbering of the source that measured last |
| `Telemetry.ObservationDecidesState` | src/health_probe.c:82-112 | After any sequence of records whose last accepted one bears an observation, the state is FAILED exactly if the last accepted route or interface observation is |
| `Telemetry.Feed` | src/health_probe.c:47-118 | Any interleaving of records leaves each path with the fold of its own records, whether it was stored before or comes in on the way, and drops a path only when the store is full |
| `Telemetry.LoadHealth` | examples/eventnetd.c:136-148 | With every path first marked unknown, each ends with the fold of its records over that placeholder |
| `Agent.Counters.Sample` | examples/eventnet_agent.c:466-502 | The counters of a probe are the streaks at the end of its history, and the record carries the measured time, loss, and the distance to the last time as jitter |
| `Agent.StreakMeans` | examples/eventnet_agent.c:488-496 | A count of at least k means exactly that the last k samples agree |
| `Agent.Probe` | examples/eventnet_agent.c:466-502 | A run of the probe loop writes records that carry the streaks of the history so far |
| `Agent.StoredIsLatest` | src/health_probe.c:47-112 | Over any older first record, in-order agent records replace each other in the store, measurements and all |
| `Agent.ExcludedActiveFailedRepeatedly` | src/path_selection.c:151-162 | An active path excluded for its health under failure threshold k had its last k probes all fail |
| `Agent.EligibleStandbyRecovered` | src/path_selection.c:151-162 | A standby path eligible beside another active one under recovery threshold r had its last r probes all succeed |
| `Debounce.SampleAndSubmit` | examples/eventnetd.c:136-148 | Debounce end to end: sample, store, probe, observe and select in one run, which is served the round-trip time and loss of the last ping. An active path excluded for its health had its last k probes all fail; a standby path that is selected beside another active one had its last k all succeed |
| `StateFile.RestoreState` | examples/eventnetd.c:348-401 | Any file changes at most the entry of the intent's own key, and is accepted exactly if empty or one restorable line |
| `StateFile.RestoreAppliedPath` | src/state.c:208-221 | Refuses unknown, disabled or unusable paths without a change, otherwise records and activates the path |
| `StateFile.RestorableMeans` | examples/eventnetd.c:365-385 | Over the text and the records: a line is restorable if and only if it is one complete line of the intent's own key, the only tab, and the name of an enabled path on enabled nodes that the intent asks for, and its characters may be in a state file |
| `StateFile.StateLineParses` | examples/eventnetd.c:365-385 | A written line splits into exactly its key and path |
| `StateFile.StateLineRestorable` | examples/eventnetd.c:337-401 | A written line is restorable if and only if the endpoints consist of state characters |
| `StateFile.PersistThenRestore` | examples/eventnetd.c:348-446 | What is written after a selection makes a fresh controller apply the same path |
| `Restart.PersistAcrossRestart` | examples/eventnetd.c:348-446 | Validation, submission and restoring composed: a successful submission of an accepted configuration's intent, to a controller in any state, is read back by a new one over the same backends, which records for the key what the old one did, and agrees with forwarding if the old one had |
| `Restart.SubmitOver` | src/controller.c:126-153 | Over a forwarding backend that may say anything: a kept path is served exactly if it was; the exact condition for agreement on the key after every submission |
| `Checksum.Compute` | scripts/paper-runtime.py:22-28 | The loop computes the complement of the folded sum, and of the one's-complement sum for up to 65536 words |
| `Checksum.OnesSumIsResidue` | scripts/paper-runtime.py:22-28 | The one's-complement sum is the residue of the total modulo 65535 |
| `Checksum.FoldExactly` | scripts/paper-runtime.py:26-27 | The two-step fold equals the one's-complement sum if and only if the second partial sum fits a word, or what is cut off is a multiple of 65535 and something is left |
| `Checksum.FoldExactlyFits` | scripts/paper-runtime.py:22-28 | For any data shorter than 2 to the 44th words: if and only if the second partial sum fits a word |
| `Checksum.FoldCanFail` | scripts/paper-runtime.py:22-28 | 262152 bytes for which the fold gives 1 and the one's-complement sum is 2 |
| `Checksum.FoldIsOnesSum` | scripts/paper-runtime.py:22-28 | For at most 65536 words the fold is the one's-complement sum |
| `Checksum.ChecksumVerifies` | scripts/paper-runtime.py:22-28 | With the checksum in a zero field the checksum of the whole is zero (section 1 of RFC 1071) |
| `Checksum.WriteAndCheck` | scripts/paper-runtime.py:22-28 | The same over bytes: even length, even offset |
| `Checksum.StandardExample` | scripts/paper-runtime.py:22-28 | The data of section 3 of RFC 1071 sum to ddf2 |
| `ConfigCheck.Validate` | src/yaml_config.c:179-565 | Accepts exactly the configurations whose records are well formed and whose references resolve; NOT_FOUND only if a reference does not, INVALID_ARGUMENT only if a record is not well formed |
| `Acceptance.OrdinaryIsAccepted` | src/yaml_config.c:179-565 | A configuration with a shared key, certificates over GRE, listed and unlisted routes, constraints and an edge with VLANs is accepted |
| `Acceptance.AcceptedLookups` | src/yaml_config.c:179-422 | Every accepted path and tunnel is the one that a lookup of its name finds |
| `Acceptance.AcceptedSecretsStayQuoted` | src/yaml_config.c:286-305 | No accepted secret or certificate name can end its string or its line |
| `Acceptance.AcceptedRoutesRendered` | src/render_commands.c:194-312 | The add and delete commands of an accepted listed route can be rendered |
| `Acceptance.AcceptedEdgesDiffer` | src/yaml_config.c:527-563 | Sub-interfaces of different accepted edges are different for every VLAN |
| `Acceptance.AcceptedPrecheck` | src/vpp_api_adapter.c:135-185 | On a backend that offers all calls, installing an accepted path with listed routes passes the checks beforehand, unless the traffic has a VLAN and two routes at the node of an edge on the path ask for different tables; and then it does not |
| `Acceptance.RunTakesAll` | src/controller.c:80-125 | In no run of an accepted configuration's intents is one turned away, and each gets a result of its own: the counts, the policy, the room and the paths are all as needed |
| `ConfigCheck.CheckPath` | src/yaml_config.c:313-422 | The same for one path with its segments, routes and waypoints |
| `ConfigCheck.CheckIntent` | src/yaml_config.c:423-526 | The same for one intent |
| `ConfigCheck.CheckEdge` | src/yaml_config.c:527-563 | Accepts exactly edges that cannot be confused with a later one and whose VLANs are valid and distinct |
| `ConfigLaws.Normalize` | src/yaml_config.c:1421-1471 | Every path and edge becomes its normal form, in place |
| `ConfigLaws.NormalisingIsIdempotent` | src/yaml_config.c:1421-1471 | Normalising twice is normalising once |
| `ConfigLaws.NormalisingKeeps` | src/yaml_config.c:1421-1471 | Only empty fields are filled, and a path left without routes has no prefix |
| `Filling.NormalisingFills` | src/yaml_config.c:1421-1471 | Where egress, prefix or next hop is missing it is the first segment's tunnel, what that configured tunnel leads to, or what the first route says; a path without routes gets one default route exactly if it has a prefix |
| `Filling.NormalisingNames` | src/yaml_config.c:1460-1470 | An edge without an interface is named after the host interface and the name fits its field; one without a next hop gets the address up to the slash |
| `ConfigLaws.NormalisedPlansAreExact` | src/apply_plan.c:220-261 | The plan of a normalised path always lists its routes, so its rollback list names them and no other |
| `ConfigLaws.RunAccepted` | src/controller.c:80-154 | Validation closure: no run of an accepted configuration's own intents on the mock adapters ever returns NOT_FOUND |
| `ConfigLaws.PlanAccepted` | src/apply_plan.c:97-114 | Planning any path of an accepted configuration never returns NOT_FOUND |
| `ConfigLaws.AcceptedEndpointsAreTokens` | src/yaml_config.c:423-448 | With nodes configured, intents of an accepted configuration have storable, injective traffic keys |

## Left out

- Runs.Run: agreement is stated for backends that never fail to remove and answer truthfully, as the mocks do; on others `Runs.AgreementExactly` says exactly when it breaks.
- Runs.Resubmit: not for an explicit path missing from a candidate list of the same intent, since only the candidates are observed first and the target's stored reading may change between selection and validation.
- Flapping.Flaps: straddling readings in the order inside, then outside; the other order is covered on selections, by `HoldDownLaws.NeverFlapsExactly`.
- Debounce.SampleAndSubmit: one path's records, from the agent and in order; a path for which the controller has no room has no reading to judge.
- PlanLaws.Deploy: loaded connection definitions stay loaded, as nothing in a plan unloads them.
- PlanBuilder.Build: the connection text, its secrets and its 8192-byte buffer are one nondeterministic acceptance; only the commands are modelled in full.
- VppApi.ApplyPathOperations: tables (VRFs) that were made stay made, as in the source; table bindings are restored for routes on the path's own nodes.
- Failed adapter calls and failed plan commands are taken to leave the backend unchanged; a command that half succeeds is not modelled.
- Restart.PersistAcrossRestart: configurations that list nodes; without, endpoints need not be storable (`StateFile.StateLineRestorable`).
- `timeout_ms` of a transition policy, which the transition never reads.
- Audit events and error logs, which nothing reads back into a decision.
- Path identifiers are non-empty, as validation demands (src/yaml_config.c:315); the operational state of a path is kept beside its record.
- Observed tunnels and stored health readings are capacity-bounded maps; their order in the arrays is never observed.
- The YAML line parser, the JSON readers and writers, command-line handling, sockets, signals, processes and file permissions.
- The strongSwan and VPP clients and their output scraping, `src/command_adapters.c`, topology printing, scenario and demo programs.
