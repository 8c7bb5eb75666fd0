# devme in Dafny

devme starts the services of a project, keeps several working copies of it apart on one
machine, and composes projects from recipes. This project models the parts of it that have
to be right in every interleaving, after every crash and for every input, and proves what
they promise.

- **Composing projects** (`Composition`, `Checks`, `StepLog`, `Composer`, `Overlay`, `LockedLists`,
  `Runs`, `Planner`, with `Reachability`). A project is its files, the composition lock, the backups each feature
  keeps of what it covered, and the operation journal. `Composer.Project` performs add, remove,
  update, abort and continue step by step and records every step in a ghost trace; each is
  proved to end in the disk a function of `Composition` gives, and to pass only through crash
  states from which an abort restores the earlier disk exactly. `Checks` says what is let through, with which
  error the rest is refused, and what the operations undo of each other. `Overlay` shows that the owners
  of each path form a stack under transitive dependency; `LockedLists` shows the same where recipes
  change their dependency lists and the lock keeps the old ones; `Runs` carries this over all runs
  with stops, aborts and resumptions, whatever the backups hold; `Planner` shows exactly when the
  cheap rule of `create` and the full rule of the install decide alike.
- **The dependency graph and the executor** (`DependencyGraph`, `CycleCheck`, `Layers`,
  `TaskCheck`, `Descendants`, `ExecutorModel`, `Executor`, `ExecutorRuns`, `ExecutorLog`,
  `ExecutorProgress`).
  The three-colour search and the layering are proved exact and shown to agree. The executor
  object is proved to take the steps of a state machine; over all its runs nothing waits without
  a cause, nothing starts on an unconfirmed dependency, nothing starts twice, every emitted action is
  accounted for by what was reported, and a targeted start on a validated stack is carried to its end
  whatever the order of the answers and however often a check fails that a provision mends.
- **Leases** (`Leases`, `LeaseSearch`, `LeaseProgress`, `LeaseClient`). Attempts of any number of processes
  take file locks one at a time. Every interleaving excludes, never grants a unit over a living
  child, and cannot leave everybody blocked; an attempt passes over a unit only if that is taken. `LeaseClient` is the acquiring code, with the rest
  of the world moving between any two of its steps.
- **Slots and ports** (`Slots`). Claims, releases and process deaths in any order.
- **Log history** (`LogStore`). What the two files say about everything ever appended, and what a
  reader can be sure of who sees nothing else.
- **Text** (`Interpolate`, `Text`, `Surgical`, `EnvFile`). Interpolation against its grammar,
  section edits and the env file as round trips, each with its exact condition.

`dafny verify dfyconfig.toml` checks everything.

## How things are modelled

Digests stand for the content they identify. A journal appears and disappears in one step, and
so does a written file. Trees, backups and registries are maps and sequences held in fields that
methods update. Who is alive is decided outside: a lease process is its number together with its
start time and never comes back, and each slot call is told which process numbers are alive.
Strings in `Interpolate` are bytes, so offsets are byte offsets. A graph is `Formed` when step and
service names are distinct, as `check_name_collisions` in `validate.rs` sees to.

## Where the code does less than it seems to promise

Each of these has a lemma with a concrete input, and beside it the condition under which the
promise holds.

- A feature may be called "base". The overlay rule takes it for the template, so anyone may cover
  its files. The stack of owners breaks under an add (`Runs.BaseNameBreaksTheStack`, exactly when in
  `Overlay.AddKeepsStacksIff`) and under an update (`Runs.UpdateBreaksTheStack`, exactly when in
  `Overlay.UpdateKeepsStacksIff`). And the plan of `create` accepts what the install refuses
  (`Planner.PlanTrustsTheNameBase`, exactly when in `Planner.InstallAcceptsIff`).
- The checks ask the recipe in hand what a feature depends on, and the lock keeps the lists of earlier
  versions. An update may drop an entry that two other features' overlay rests on; then the lower one
  can be removed from under the upper one and takes the upper one's file along
  (`Runs.ListsBreakTheStack`, exactly when in `LockedLists.AddKeepsByListIff` and
  `LockedLists.UpdateKeepsByListIff`). A run is recoverable throughout exactly if no operation in it
  breaks a stack in one of these ways (`Runs.RunIsRecoverableIff`), and it never is broken where no
  feature is called "base" and all recipes list the same (`Runs.PlainRunsRespect`).
- A stopped removal or update is to be undone by an abort. If a backup was changed from outside, the
  abort takes what the operation itself wrote for an outside edit and refuses
  (`Runs.SpoiltBackupBlocksAbort`, exactly when in `Runs.StopsAreUndoneIff`); no run from a created
  project comes there by itself (`Runs.CreatedIsSound`, `Runs.RunsRollBack`).
- Conflicts are looked up on one side only: a feature is refused while one that it lists is installed,
  but not while one is installed that lists it (`Checks.OneSidedConflict`, exactly when in
  `Checks.ConflictFreeIff`). Recipes that list each conflict on both sides are safe
  (`Runs.NoConflictsMeet`).
- The documentation of the log reader says that `truncated` is set when older history was rotated
  away below the window. The code compares `since` with the earliest record on disk only: it warns
  where nothing was lost, never warns of a loss on a read without `since`, and misses records as old
  as the earliest one kept (`LogStore.FlagIsNotLoss`, `LogStore.EqualTimesAreMissed`). What the files
  alone allow a reader to be sure of is in `LogStore.SureIff`, and where the flag says just that in
  `LogStore.FlagIsRightIff`.
- Setting a configuration key twice is not always idempotent: lines that end in two carriage
  returns lose one at each edit (`Surgical.ReturnsAreEatenOneByOne`, exactly when in
  `Surgical.UpsertIsIdempotentIff`).
- A configuration key with a tab before its "=" is not seen, and set a second time
  (`Surgical.TabsAreNotSeen`, exactly when in `Surgical.AssignmentsAreSeen`).
- An env value that needs no quotes but comes in single quotes is read back without them, and
  `''` is appended anew at every set (`EnvFile.QuotesAreLost`, exactly when in `EnvFile.SetRoundTripIff`).
- A variable may be declared under a name with "=" in it; to set it then changes another one, even one
  that is set (`EnvFile.OtherNamesOverride`, exactly when in `EnvFile.SetKeepsIff`).
- A slot belongs to the first process that claimed it for a worktree. A second process given the
  same slot loses it when the first one dies (`Slots.SharedWorktreeLosesItsSlot`; which call drops
  which claim is in `Slots.CallDropsIff`).

## Model

| member | source | states |
|---|---|---|
| Reachability.DependsOn | crates/project-composer/src/lib.rs:1186-1204 | the worklist with its visited set terminates and finds a dependency exactly if a path of one or more edges leads to it |
| Composition.RollbackRestores | crates/project-composer/src/lib.rs:1573-1711 | whatever crash state an operation leaves, nothing reads as an outside edit and rolling back gives exactly the disk it began on |
| Composition.RollbackIsInFlight | crates/project-composer/src/lib.rs:1666-1711 | every state an abort accepts is a crash state of the disk it restores, so an abort that stops can be run again |
| Composition.ContinueEqualsNoStop | crates/project-composer/src/lib.rs:799-825 | with the same recipe, rolling back and performing the journaled operation ends where the uninterrupted operation ends |
| Composition.VerdictsAreClear | crates/project-composer/src/lib.rs:433-470 | an operation is let through exactly if it has no conflicting path, no missing or unknown dependency, no conflicting feature, no dependent and no pending journal, and for an update its recipe may follow the locked one |
| Composition.SoundIsWritten | crates/project-composer/src/lib.rs:1726-1754 | where the backups hold what the lock says, what an operation writes is what its journal says, and the operation does not fail |
| Checks.AddProceedsIff | crates/project-composer/src/lib.rs:827-895 | an add is let through exactly for a known feature that is not installed, with its dependencies known and installed and its conflicts not, over unedited files (or generated and managed ones) of features it reaches, while no journal is pending |
| Checks.RemoveProceedsIff | crates/project-composer/src/lib.rs:405-470 | a removal exactly for an installed feature that no other lists and whose files hold what it installed or are generated |
| Checks.UpdateProceedsIff | crates/project-composer/src/lib.rs:593-680 | an update exactly for an installed, known feature of a recipe that may follow, under the conditions of an add for new files and of a removal for old ones, either version telling what is generated |
| Checks.ListsRefuse | crates/project-composer/src/lib.rs:1132-1184 | a missing dependency comes before an installed conflict, and that before an unknown dependency |
| Checks.AddRefusals | crates/project-composer/src/lib.rs:835-895 | the order of the errors of an add: installed already, unknown, its lists, exactly its conflicting paths, a pending journal |
| Checks.RemoveRefusals | crates/project-composer/src/lib.rs:405-470 | the order of the errors of a removal: not installed, depended upon, exactly its edited paths, a pending journal |
| Checks.UpdateRefusals | crates/project-composer/src/lib.rs:593-680 | the order of the errors of an update: the recipe may not follow, not installed or unknown, its lists, exactly its conflicting paths, a pending journal |
| Checks.IdentityFollows | crates/project-composer/src/lib.rs:1021-1040 | an accepted add or update locks the identity of its recipe; then exactly the same contents or another version of that name may follow |
| Checks.ConflictsStayOut | crates/project-composer/src/lib.rs:1161-1175 | after an accepted add or update nothing is installed that the feature lists as a conflict |
| Checks.ConflictFreeIff | crates/project-composer/src/lib.rs:1161-1175 | no two installed features come to be in conflict exactly if no installed one lists the new one |
| Checks.OneSidedConflict | crates/project-composer/src/lib.rs:1161-1175 | two features, one of which lists the other: refused in one order, installed together in the other |
| Checks.RemoveUndoesAdd | crates/project-composer/src/lib.rs:405-541 | removing a feature just added gives back files, digests, backups and features as they were |
| Checks.UpdateReplacesAdd | crates/project-composer/src/lib.rs:593-777 | updating a feature just added leaves exactly what adding the later version in the first place leaves |
| Checks.RemovalAfterAdd | crates/project-composer/src/lib.rs:446-470 | after an add and any changes to files a removal is refused exactly for a changed file that the recipe does not call generated, or a dependent |
| StepLog.OperationSafe | crates/project-composer/src/lib.rs:895-942 | journal, logged steps, lock and cleared journal together leave only the disk with the journal and some of the files written, or the result |
| StepLog.RollbackSafe | crates/project-composer/src/lib.rs:1684-1710 | a logged rollback of a complete journal leaves only crash states of the disk it restores, or that disk |
| Composer.Project.BeginJournal | crates/project-composer/src/lib.rs:1573-1645 | refuses while a journal is pending and changes nothing; otherwise one step captures old and new content of each path, the lock and the feature's backups |
| Composer.Project.CanOverlayOwned | crates/project-composer/src/lib.rs:1206-1214 | true exactly if the feature reaches every owner other than the template |
| Composer.Project.AddConflicts | crates/project-composer/src/lib.rs:851-881 | exactly the payload paths that were edited or whose owners may not be covered |
| Composer.Project.RemoveConflicts | crates/project-composer/src/lib.rs:446-459 | exactly the owned paths that no longer hold what was installed, generated ones excepted |
| Composer.Project.UpdateConflicts | crates/project-composer/src/lib.rs:635-669 | exactly the old and new paths that were edited or whose other owners may not be covered |
| Composer.Project.AddLoadedFeature | crates/project-composer/src/lib.rs:827-960 | refused with the verdict's error and nothing changed, or the disk of an add, passing only through crash states |
| Composer.Project.AddFeature | crates/project-composer/src/lib.rs:389-403 | the same behind the recipe transition check |
| Composer.Project.RemoveFeature | crates/project-composer/src/lib.rs:405-541 | refused with the verdict's error and nothing changed; else at every step the disk it began on with the journal and some files already what the backups hold, or the result: each path as its backup has it, or, where a covered file has no backup or digest, an error with the journal pending and the lock as it was; crash-safe throughout where the backups hold what the lock says |
| Composer.Project.UpdateFeature | crates/project-composer/src/lib.rs:593-777 | refused with the verdict's error and nothing changed; else at every step the disk it began on with the journal and some files already new or given back, or the result: the disk of an update with what it drops as the backups have it, or, where one of those is missing, an error with the journal pending and the lock as it was; crash-safe throughout where the backups hold what the lock says |
| Composer.Project.RestorePrevious | crates/project-composer/src/lib.rs:1726-1754 | the path holds the backup again, the managed digest is what was covered and the backup is gone; without a backup an error and nothing changed; without a digest an error after the file is back |
| Composer.Project.AbortJournal | crates/project-composer/src/lib.rs:1666-1711 | with outside edits refuses, names the paths and changes nothing; with a saved copy missing fails with the journal pending; otherwise puts back files, lock and backups; at every step only files of the journal have moved, and only to their copies, so that for a complete journal a further abort restores the same disk |
| Composer.Project.Perform | crates/project-composer/src/lib.rs:806-824 | refused as the operation is, or its disk and its answer, with whatever its backups hold, and the states on the way |
| Composer.Project.ContinueOperation | crates/project-composer/src/lib.rs:799-825 | refuses and fails as the abort does; otherwise refused as the journaled operation would be on the restored disk, or the disk and the answer of that operation with whatever its backups hold; every state on the way is one of the abort or of that operation, and crash-safe where the journal is complete and the backups hold what the lock says |
| Overlay.AddKeepsStacks | crates/project-composer/src/lib.rs:827-960 | an accepted add puts the feature on top of the owners of each path it covers, all of which it depends on, and saves what they showed |
| Overlay.RemoveKeepsStacks | crates/project-composer/src/lib.rs:405-541 | an accepted removal takes the feature off the top of its stacks, and what shows is what the owner below installed |
| Overlay.UpdateKeepsStacks | crates/project-composer/src/lib.rs:593-777 | an accepted update replaces, drops or adds the top of the stacks and leaves the rest of them |
| Overlay.AddKeepsStacksIff | crates/project-composer/src/lib.rs:1206-1214 | an accepted add leaves some sound stacking exactly if it does not cover a feature called "base" that it does not depend on |
| Overlay.UpdateKeepsStacksIff | crates/project-composer/src/lib.rs:593-777 | an accepted update leaves some sound stacking exactly if, on each path of the old or new payload that a feature called "base" owns and the updated one does not reach, the file stays as it is and "base" has saved what it will cover |
| Overlay.StackInWords | crates/project-composer/src/lib.rs:827-960 | the top owner's file is the managed digest and the disk; each owner's backup is the file of the owner below, the base at the bottom; each owner reaches the one below |
| Overlay.SomeFeatureIsRemovable | crates/project-composer/src/lib.rs:405-541 | with features installed there is always one whose removal is accepted |
| Overlay.NoFeaturesIsBase | crates/project-composer/src/lib.rs:405-541 | with no feature left the tree is the base to the file and no backup is left |
| Overlay.StackedIsSound | crates/project-composer/src/lib.rs:1726-1754 | in a sound stacking every installed feature's backups hold what its lock entries say they cover |
| LockedLists.AddKeepsByListIff | crates/project-composer/src/lib.rs:827-960 | an accepted add leaves some sound stacking by the locked lists exactly if by those the feature reaches every owner of what it covers, whatever the recipe says |
| LockedLists.UpdateKeepsByListIff | crates/project-composer/src/lib.rs:593-777 | an accepted update leaves some sound stacking by the locked lists exactly if its new list makes no cycle, of two owners of a path one still reaches the other, and it respects a feature called "base" |
| LockedLists.RemoveKeepsByList | crates/project-composer/src/lib.rs:405-541 | an accepted removal leaves the stacks sound by the locked lists, whatever recipes came before |
| LockedLists.UnchangedListsRespect | crates/project-composer/src/lib.rs:1186-1214 | a recipe that lists for each installed feature what the lock lists decides an update as the lock does |
| Runs.PerformedIsSound | crates/project-composer/src/lib.rs:389-777 | no operation spoils the backups of any feature: where all hold what the lock says, all do afterwards, whatever the features are called and list |
| Runs.StopsAreUndoneIff | crates/project-composer/src/lib.rs:1666-1711 | wherever an operation stops the abort is accepted and gives back the disk it began on, exactly if each file it writes becomes what the journal says or stays as it was; so it is where its backups hold what the lock says |
| Runs.SpoiltBackupBlocksAbort | crates/project-composer/src/lib.rs:1666-1682 | a backup changed from outside, an accepted removal and a stop after which the abort refuses |
| Runs.RunStaysRecoverable | crates/project-composer/src/lib.rs:389-960 | over every run of operations, refusals, stops, aborts and resumptions that respects the stacks the disk is soundly stacked or one rollback away from it |
| Runs.RunsRollBack | crates/project-composer/src/lib.rs:389-960 | in every run from a settled disk whose backups hold, whatever the features are called and the recipes list: whenever the run is settled all backups hold, and wherever it is left a pending abort is accepted and gives back exactly a settled disk the run has been at |
| Runs.RunsSettle | crates/project-composer/src/lib.rs:779-825 | however such a run ends, the pending abort is accepted and leaves a soundly stacked disk |
| Runs.NeverStuck | crates/project-composer/src/lib.rs:405-541 | after any such run, once settled, some installed feature can be removed and its backups hold |
| Runs.RemovingAllGivesBase | crates/project-composer/src/lib.rs:405-541 | such a run that ends with no feature installed, in whatever order they were removed, ends in the base tree |
| Runs.BaseUnused | crates/project-composer/src/lib.rs:1206-1214 | where no feature is called "base" and the recipe lists what the lock lists, an operation respects the stacks |
| Runs.PlainRunsRespect | crates/project-composer/src/lib.rs:389-960 | where no feature is called "base" and all recipes list the same, every run from a created project meets the conditions of the run theorems |
| Runs.SameListsAreKept | crates/project-composer/src/lib.rs:389-960 | where all recipes of a run list the same, every update in it is decided as the lock would decide it |
| Runs.PerformKeepsStacksIff | crates/project-composer/src/lib.rs:389-960 | an operation leaves some sound stacking exactly if it is refused, or removes, or adds over owners it reaches by the locked lists, or updates with the owners of each path still related and without disturbing a feature called "base" |
| Runs.RunIsRecoverableIff | crates/project-composer/src/lib.rs:389-960 | every disk of a run is soundly stacked or one rollback away from it exactly if every operation that ran to its end respected the stacks in that sense |
| Runs.BaseNameBreaksTheStack | crates/project-composer/src/lib.rs:1206-1214 | two accepted adds over a feature called "base" after which no stacking is sound |
| Runs.UpdateBreaksTheStack | crates/project-composer/src/lib.rs:593-669 | two accepted adds and an accepted update that moves a file onto one of a feature called "base", after which no stacking is sound |
| Runs.ListsBreakTheStack | crates/project-composer/src/lib.rs:593-777 | three accepted adds and an accepted update that drops a list entry, after which no stacking is sound and the removal of the lower owner is accepted and takes the file of the upper one |
| Runs.NoConflictsMeet | crates/project-composer/src/lib.rs:1132-1184 | where the recipes of a run list the same conflicts, each on both sides, no two features in conflict are ever installed together |
| Planner.PlanFeatures | crates/project-composer/src/lib.rs:302-342 | the loop computes the plan: the first error, or the planned files |
| Planner.PlanAcceptsIff | crates/project-composer/src/lib.rs:302-342 | the plan accepts exactly the lists in which each feature is known, comes after its dependencies and after none of its conflicts, and takes no file from a last owner it does not reach; each path then holds what was written last; else the first feature that does not fit gives the error |
| Planner.RulesDifferIff | crates/project-composer/src/lib.rs:310-325 | asking the latest owner of a path is asking all of them, except where the latest is called "base" above an earlier one that is not reached |
| Planner.InstallAcceptsIff | crates/project-composer/src/lib.rs:302-376 | for distinct features the install accepts exactly if the plan does and no feature covers a path whose latest owner is the feature "base" above an earlier owner it does not reach |
| Planner.NobodyHidesWithoutBase | crates/project-composer/src/lib.rs:307-325 | there is no such path where no feature called "base" is known or asked for |
| Planner.PlanAgreesWithInstall | crates/project-composer/src/lib.rs:302-376 | for distinct features none of which covers a path so, plan and install accept alike, with the same error otherwise and the same files |
| Planner.LeftIsInstalled | crates/project-composer/src/lib.rs:344-376 | the install leaves exactly the features before the first refused one |
| Planner.RepeatsAreRefused | crates/project-composer/src/lib.rs:835-840 | a feature asked for twice is refused by the install, whatever the plan says |
| Planner.Create | crates/project-composer/src/lib.rs:280-387 | nothing is written where the plan refuses; otherwise the template and each feature up to the one the install refuses, whose error is the result; on success the planned files |
| Planner.PlanTrustsTheNameBase | crates/project-composer/src/lib.rs:307-325 | with a feature called "base" the plan accepts three features of which the install refuses the last |
| DependencyGraph.UnboundedIffMeetsCycle | crates/config/src/graph.rs:138-209 | chains of every length start exactly at the nodes that lead into a cycle |
| DependencyGraph.LevelsDescend | crates/config/src/graph.rs:138-209 | a dependency lies in a strictly earlier layer than what requires it |
| CycleCheck.CheckNoCycles | crates/config/src/validate.rs:556-602 | no error exactly on an acyclic graph; each error is a closed walk with distinct interior, and no two are rotations of one another |
| CycleCheck.Search.Dfs | crates/config/src/validate.rs:604-643 | blackens the node and everything white below it, keeps the path and the reports, and terminates |
| CycleCheck.RotationsShareCanonical | crates/config/src/validate.rs:645-661 | the canonical form of a cycle does not depend on where it is entered |
| TaskCheck.CheckTaskCycles | crates/config/src/validate.rs:345-377 | no error exactly on an acyclic task graph, unknown tasks included, and only real cycles are reported |
| TaskCheck.TaskDependencyClosure | crates/config/src/validate.rs:379-396 | exactly the tasks reached by one or more dependencies |
| TaskCheck.CheckDependencyTargetsExist | crates/config/src/validate.rs:512-537 | exactly the unknown targets of each node are reported, and so nothing exactly if every target exists |
| Layers.ComputeLayers | crates/config/src/graph.rs:138-209 | succeeds exactly if the required edges are acyclic; layer k is the nodes with a longest chain of k, in declaration order; on failure exactly the nodes whose chains reach a cycle |
| Layers.TopoSort | crates/config/src/graph.rs:127-133 | succeeds exactly if the required edges are acyclic, with every node once and after its dependencies |
| Layers.AcyclicStackHasLayers | crates/config/src/graph.rs:138-209 | a graph without cycles over all edges has none over the required ones |
| Layers.ValidatedLayers | crates/config/src/validate.rs:556-602 | where the cycle check finds nothing the layering does not fail |
| Descendants.Descendants | crates/config/src/graph.rs:241-273 | exactly the nodes from which the given one is reached along any dependency, in declaration order |
| Executor.DepsSatisfied | crates/config/src/graph.rs:214-238 | failed if a required dependency failed, else ready exactly if all are satisfied, else waiting; optional ones and the order do not matter |
| Executor.CollectRequired | crates/executor/src/lib.rs:280-292 | adds the name and exactly what it requires, transitively, to what was collected |
| Executor.CollectAll | crates/executor/src/lib.rs:130-143 | the collected set is the reflexive and transitive closure of the targets under required dependencies |
| Executor.Executor.Advance | crates/executor/src/lib.rs:237-278 | the pass starts every startable node of the old state and no other, in declaration order |
| Executor.Executor.Handle | crates/executor/src/lib.rs:117-235 | the object and its answer follow the state machine for every event |
| Executor.Executor.Forget | crates/executor/src/lib.rs:112-115 | a reset untracks the node and lets the pass start it again |
| Executor.Executor.BlockedBy | crates/executor/src/lib.rs:334-347 | the first listed unsatisfied requirement of an unreached node, nothing on an idle run, and always one while the run is in flight and the node waits in a settled state |
| ExecutorModel.AdvancedIsSettled | crates/executor/src/lib.rs:237-278 | one pass is a fixpoint |
| ExecutorModel.StartingIsNeutral | crates/executor/src/lib.rs:301-315 | starting nodes changes what no other node can count on |
| ExecutorRuns.SettledAfterStart | crates/executor/src/lib.rs:117-278 | from the first start event on a further pass would emit nothing, whatever happens |
| ExecutorRuns.WaitingHasCause | crates/executor/src/lib.rs:237-278 | in a settled state every waiting node has an unsatisfied required dependency |
| ExecutorRuns.WaitingIsShort | crates/executor/src/lib.rs:301-315 | a walk along unsatisfied requirements of waiting nodes is bounded by what lies below its start |
| ExecutorRuns.WaitingEnds | crates/executor/src/lib.rs:301-347 | every such walk, however chosen, leads on to a node that is tracked, inactive or unknown |
| ExecutorRuns.SatisfiedIffConfirmed | crates/executor/src/lib.rs:301-315 | in every run a node counts as satisfied exactly while its last change was a passed check, an override, a healthy service or a healthy external |
| ExecutorRuns.StartsAreSafe | crates/executor/src/lib.rs:237-299 | whatever a pass emits starts a node all of whose required dependencies were confirmed by their last change |
| ExecutorRuns.StartServiceIsStart | crates/executor/src/lib.rs:117-278 | a service start or probe is emitted only by a pass that starts that very service |
| ExecutorRuns.StartsAreSeparated | crates/executor/src/lib.rs:112-163 | two starts of a node are separated by a reset of it or a session start that removed it as an ended session service |
| ExecutorLog.ProvisionsAreFailedChecks | crates/executor/src/lib.rs:158-170 | over every run a provision is emitted once for each failed check of a step that has one, and never otherwise |
| ExecutorLog.ChecksAreStartsAndProvisions | crates/executor/src/lib.rs:219-235 | a check is emitted once for each start of a step and each provision that succeeded, and never otherwise |
| ExecutorLog.SpawnsAreStarts | crates/executor/src/lib.rs:237-278 | a service is spawned, or probed if external, once for each start of it, and never otherwise |
| ExecutorLog.StopsAreAsked | crates/executor/src/lib.rs:171-175 | a service is stopped once for each time the user asks, and never otherwise |
| ExecutorLog.LastStartDecides | crates/executor/src/lib.rs:119-157 | after any run the active nodes are those of the last start event: all not bound to a session, or the named ones and what they require |
| ExecutorLog.StartsAreInScope | crates/executor/src/lib.rs:119-157 | whoever is started is in the scope of the last start event |
| ExecutorLog.StartsKeepStatus | crates/executor/src/lib.rs:138-157 | a start event keeps every status, save that a session start forgets exactly the ended session services in its scope |
| ExecutorLog.FailedIffFailedLast | crates/executor/src/lib.rs:158-235 | in every run a node counts as failed exactly while its last change was a failed check without a provision, a failed provision, an exit or a crash loop |
| ExecutorLog.StatusIsLastReport | crates/executor/src/lib.rs:158-235 | in every run a node has a status other than a fresh one exactly while its last change was the report of that very status, counts, codes and reasons included; nothing is ever skipped, waiting, restarting or degraded |
| ExecutorLog.OverIffEndedLast | crates/executor/src/lib.rs:143-157 | in every run a service has ended exactly while its last change was a stop, an exit or a crash loop |
| ExecutorLog.InFlightIffBegunLast | crates/executor/src/lib.rs:320-332 | in every run a node is in flight exactly while its last change was a start, a provision that succeeded or a failed check that a provision is to mend |
| ExecutorProgress.IsValidated | crates/config/src/validate.rs:512-602 | the target and cycle checks pass exactly on the stacks the progress theorem is about |
| ExecutorProgress.StartRunsToCompletion | crates/executor/src/lib.rs:117-315 | after a targeted start, with answers in any order, each of the kind of an action that is owed one, where checks may fail as often as a provision mends them: only wanted nodes are acted on and each is started once; the satisfied nodes are those reported up; while one is missing some action is owed an answer; after one answer for each wanted node and two for each failed check all are up and nothing is owed |
| Leases.InOrderAscends | crates/resource-lease/src/lib.rs:117-119 | the requested names are taken in strictly ascending order, each once |
| Leases.MoveKeepsInvariant | crates/resource-lease/src/lib.rs:110-287 | each step of each attempt, each recorded child, exit and reaped lock keeps locks, stages and records in agreement |
| Leases.LeasesExclude | crates/resource-lease/src/lib.rs:120-149 | in every interleaving acquired leases are complete, hold units below the capacity, and no two hold one unit of a pool |
| Leases.EndedHoldsNothing | crates/resource-lease/src/lib.rs:138-143 | an attempt that ended blocked, failed or dropped has left no lock |
| Leases.GrantsNeedDeadChildren | crates/resource-lease/src/lib.rs:203-287 | a unit is granted only when every child ever recorded under it is dead, whatever became of the leases that recorded it |
| Leases.OnlyGrantsAdd | crates/resource-lease/src/lib.rs:138-148 | what an attempt holds grows by grants only |
| LeaseSearch.PassesOnlyRefused | crates/resource-lease/src/lib.rs:203-239 | an attempt goes on from a unit only if another has it locked at that very step, or it has locked it itself and finds a recorded child alive |
| LeaseSearch.BlockedFoundAllTaken | crates/resource-lease/src/lib.rs:203-240 | an attempt that ends blocked on a resource was refused every unit of it, each at some step of its search |
| LeaseSearch.GrantedIsFirst | crates/resource-lease/src/lib.rs:203-240 | an attempt that has its units was refused every lower unit of each resource |
| LeaseSearch.AloneTakesLowest | crates/resource-lease/src/lib.rs:203-240 | with nobody else moving it takes the lowest free unit of each resource, and ends blocked only on one without any |
| LeaseSearch.RecordsNameHolders | crates/resource-lease/src/lib.rs:213-226 | the record of an acquired unit names the process that holds it |
| LeaseProgress.NotAllBlocked | crates/resource-lease/src/lib.rs:110-150 | attempts that interleave from a state with nothing locked and no orphan alive cannot all end blocked |
| LeaseProgress.SomeoneAcquires | crates/resource-lease/src/lib.rs:110-150 | if nobody dies and all resources are configured, someone has had its whole set once all have ended |
| LeaseProgress.AttemptsNeverWait | crates/resource-lease/src/lib.rs:203-240 | an attempt underway can always take a step of its own, and each leaves it less to do |
| LeaseProgress.OthersCostNothing | crates/resource-lease/src/lib.rs:110-150 | what others do leaves an attempt where it stands, or ends it with its process |
| LeaseProgress.AttemptsEnd | crates/resource-lease/src/lib.rs:110-240 | in every interleaving an attempt takes at most two steps at each unit of each resource it asks for, two more for each resource, and three; until it has ended or died it has steps left and can take one |
| LeaseClient.World.TryPool | crates/resource-lease/src/lib.rs:203-240 | with others moving at every step, the first unit that was not taken when the search came to it, or none where each unit was |
| LeaseClient.World.TryAcquire | crates/resource-lease/src/lib.rs:110-150 | all requested units, each the first that was not taken, or none of them locked and the resource that was unknown or of which every unit was taken; with some unit of each pool open throughout it succeeds, and with nobody else moving it takes the lowest free ones |
| Slots.AnswerIsLowest | crates/slot-allocator/src/allocator.rs:70-92 | a claim returns the live slot of the instance or else the lowest slot without a live holder, and fails exactly if every slot has one |
| Slots.ClaimWritesIff | crates/slot-allocator/src/allocator.rs:70-91 | a claim sweeps and writes exactly if its instance has no live claim and some slot no live holder |
| Slots.ClaimRecords | crates/slot-allocator/src/allocator.rs:70-91 | a claim that finds a live claim or no slot changes nothing; any other leaves exactly the live claims and one record of the slot, instance, process and time |
| Slots.GrantedIsRecorded | crates/slot-allocator/src/allocator.rs:70-91 | who is given a slot holds it: the registry has a record of it, alive if the caller is |
| Slots.GrantsStayApart | crates/slot-allocator/src/allocator.rs:70-108 | while the holder of a granted slot lives and nobody releases the worktree, the same worktree is answered with the same slot and every other one with another |
| Slots.RunIsConsistent | crates/slot-allocator/src/allocator.rs:70-108 | over any claims, releases and deaths slots and instances stay distinct and in range |
| Slots.CallDropsIff | crates/slot-allocator/src/allocator.rs:70-108 | a call drops a claim exactly if it releases its instance, or it claims for an instance without a live claim while the process of the dropped one is dead and some slot has no live holder, and does not write that very claim again |
| Slots.SparedClaimsStay | crates/slot-allocator/src/allocator.rs:70-108 | a claim lasts while its process lives and nobody releases its instance |
| Slots.SweptIsThinned | crates/slot-allocator/src/allocator.rs:180-182 | sweeping keeps exactly the claims of living processes, in order |
| Slots.SlotAllocator.Claim | crates/slot-allocator/src/allocator.rs:70-91 | answers and rewrites the registry as specified; a slot given to a living process is recorded as its |
| Slots.SlotAllocator.Release | crates/slot-allocator/src/allocator.rs:93-102 | exactly the claim of the instance goes |
| Slots.SlotAllocator.List | crates/slot-allocator/src/allocator.rs:104-111 | the claims of living processes, in order; the registry stays |
| Slots.SlotAllocator.FirstFreeSlot | crates/slot-allocator/src/allocator.rs:184-194 | the lowest slot without a claim, or exhaustion exactly if there is none |
| Slots.FindByInstanceMeans | crates/slot-allocator/src/record.rs:50-52 | a claim of the instance is found exactly if there is one |
| Slots.RemovedIsThinned | crates/slot-allocator/src/record.rs:58-65 | removing an instance keeps exactly the claims of the others |
| Slots.ResolveMeans | crates/core/src/port.rs:20-30 | the port is the base plus an offset for each slot below while that is a port, the largest port after that, and a fixed port in every slot |
| Slots.PortsDifferIff | crates/core/src/port.rs:20-30 | two slots get different ports exactly if there is an offset and the lower one does not saturate |
| Slots.WorktreesGetTheirOwnPorts | crates/core/src/port.rs:20-30 | standing claims have distinct ports wherever the ports fit in 16 bits |
| Slots.SharedWorktreeLosesItsSlot | crates/slot-allocator/src/allocator.rs:70-92 | a second process of a worktree loses the slot it was given when the first one dies |
| LogStore.DiskIsSuffix | crates/supervisor/src/logstore.rs:210-256 | the disk is always a suffix of everything appended and holds the last line, across rotations and restarts |
| LogStore.FilesStaySmall | crates/supervisor/src/logstore.rs:210-232 | the active file stays below the limit, both together below twice the limit plus one line |
| LogStore.NoLimitKeepsOneLine | crates/supervisor/src/logstore.rs:67-71 | with a limit of zero the last line appended is all there is, in the rotated file |
| LogStore.LossNeedsAFullFile | crates/supervisor/src/logstore.rs:210-232 | nothing is lost before at least the limit of what came after it is kept |
| LogStore.ReadIsWholeIff | crates/supervisor/src/logstore.rs:92-130 | whatever the timestamps and the flag, a read is everything from `since` on exactly if its tail was long enough and nothing that recent was rotated away, and is the tail asked for exactly if that is all on disk or nothing that recent was rotated away |
| LogStore.SureIff | crates/supervisor/src/logstore.rs:85-130 | with a clock that never goes back, a read is so under every history of writers with fixed limits that leaves these files exactly if there is no rotated file or it begins before `since` (or, for a tail, all of it is on disk) |
| LogStore.SureAtAnyTimeIff | crates/supervisor/src/logstore.rs:85-130 | where the clock may go back a reader can be sure of everything exactly without a rotated file, whether the limit of the writers is known or not |
| LogStore.FlagIsRightIff | crates/supervisor/src/logstore.rs:85-119 | the flag is set exactly where some possible history that leaves these files has more to return, if and only if the tail was too short, or there is no rotated file and no time before the first record was asked for, or there is one and a time other than that of its first record was |
| LogStore.NothingNeedBeLost | crates/supervisor/src/logstore.rs:85-119 | no flag proves a loss: the same files are left by a history, under the same limits, of which nothing was lost |
| LogStore.RecordMayBeLost | crates/supervisor/src/logstore.rs:210-232 | once a file was rotated, the same files are left by a history, under the same limits, that lost a record of any given time |
| LogStore.UnflaggedIsComplete | crates/supervisor/src/logstore.rs:92-130 | with strictly increasing timestamps an unflagged read since a time returns every record ever appended from then on |
| LogStore.UnflaggedOnEqualTimes | crates/supervisor/src/logstore.rs:111-119 | with timestamps that never decrease it is complete exactly if the last lost record is older than the time asked for |
| LogStore.EqualTimesAreMissed | crates/supervisor/src/logstore.rs:115-119 | under any limit, an unflagged read that misses a record of the very time asked for |
| LogStore.FlagIsNotLoss | crates/supervisor/src/logstore.rs:115-119 | under any limit the code takes, a flag with nothing lost, and a loss without a flag |
| LogStore.LogStore.Append | crates/supervisor/src/logstore.rs:76-87 | one service's log grows by the line as specified; the others stay |
| LogStore.LogStore.Reopen | crates/supervisor/src/logstore.rs:191-208 | a new process, with a limit of its own but not below the least one, finds every file as it was |
| LogStore.LogStore.Read | crates/supervisor/src/logstore.rs:92-130 | the records since a time, at most the last of them, and the flag as specified |
| Interpolate.InterpolationIsGrammar | crates/config/src/interpolate.rs:10-18 | interpolation succeeds exactly on the texts the documented syntax writes, with the meaning of their tokens, inserted values untouched |
| Interpolate.FailureIsWhereItBreaks | crates/config/src/interpolate.rs:69-133 | it fails exactly where a template is read up to a part that cannot be; the error says whether that is a single closing brace, an unclosed brace or shell variable, an empty or an unknown variable, at the offset where the part begins |
| Interpolate.ReadingIsUnique | crates/config/src/interpolate.rs:10-18 | no template can be read in two ways |
| Interpolate.InterpolationSplits | crates/config/src/interpolate.rs:69-133 | it splits over concatenation where the left part succeeds, unless a dollar sign meets a brace; errors move by the length |
| Interpolate.SeamGoesRight | crates/config/src/interpolate.rs:77-95 | at such a seam the dollar sign goes with the right part |
| Interpolate.SeamMatters | crates/config/src/interpolate.rs:77-95 | a dollar sign and a variable that mean something else together |
| Interpolate.DoublingEscapesIff | crates/config/src/interpolate.rs:96-104 | doubling the braces escapes a string under every context exactly if it holds no `${` |
| Interpolate.Interpolate | crates/config/src/interpolate.rs:69-133 | the index loop terminates with the recursive reading: the value, or the first error at its offset |
| Surgical.UpsertLaws | crates/config/src/surgical.rs:14-67 | all other lines stay in order; the key is assigned to the value everywhere in the section and at least once; a second edit changes nothing |
| Surgical.UpsertInPlace | crates/config/src/surgical.rs:14-67 | assignments are replaced where they stand; a missing one is put at the end of the first stretch of the section, a missing section behind everything |
| Surgical.UpsertIsIdempotentIff | crates/config/src/surgical.rs:14-67 | a second edit of the file changes nothing exactly if none of the lines it is to keep ends in a carriage return |
| Surgical.UpsertKeepsTheRest | crates/config/src/surgical.rs:14-67 | the same laws for the file as it is read back |
| Surgical.RemoveUndoesUpsertIff | crates/config/src/surgical.rs:72-92 | removing a key that was newly set gives back the original lines exactly if none ends in a carriage return |
| Surgical.ReturnsAreEatenOneByOne | crates/config/src/surgical.rs:14-67 | a file on which a second edit changes something |
| Surgical.AssignmentIsAssignment | crates/config/src/surgical.rs:115-118 | the written line is recognised as an assignment to its key, whatever the value |
| Surgical.HeaderLinesAre | crates/config/src/surgical.rs:35-36 | a line is a header exactly if it is some name in brackets, in white space |
| Surgical.AssignmentsAreSeen | crates/config/src/surgical.rs:115-118 | of bare keys a line assigns to the one before its "=", exactly if that or a blank comes right behind it |
| Surgical.TabsAreNotSeen | crates/config/src/surgical.rs:115-118 | a key with a tab behind it that is assigned a second time |
| Surgical.EndsIsInSection | crates/config/src/surgical.rs:24-52 | the passes are in the section exactly behind its header and before the next header |
| Surgical.RemovedIsKept | crates/config/src/surgical.rs:72-92 | a removal keeps, in order, all lines but the assignments to the key in the section |
| Surgical.UpsertSectionValue | crates/config/src/surgical.rs:14-67 | the nested loops compute the edit the laws are about |
| Surgical.RemoveSectionKey | crates/config/src/surgical.rs:72-92 | the loop drops exactly the assignments to the key in the section |
| EnvFile.UnquotesQuotedIff | crates/supervisor/src/env_resolve.rs:661-679 | unquoting undoes quoting exactly unless a value that needs no quotes comes in single quotes |
| EnvFile.StaysBareIff | crates/supervisor/src/env_resolve.rs:724-730 | a value is written as it is exactly without white space, double quotes and hashes, and else in double quotes |
| EnvFile.AssignmentIsRead | crates/supervisor/src/env_resolve.rs:52-58 | with any white space around key and value, the line assigns the unquoted value to its key and does nothing else |
| EnvFile.CommentIsRead | crates/supervisor/src/env_resolve.rs:43-51 | a commented-out assignment, whatever its value, marks its key as skipped if that is a name, and does nothing else |
| EnvFile.OtherLinesMeanNothing | crates/supervisor/src/env_resolve.rs:38-58 | a line without "=" changes nothing |
| EnvFile.AppendedIsRead | crates/supervisor/src/env_resolve.rs:34-61 | after an append the parser sees the old contents and the new assignment and nothing else, ended last line or not |
| EnvFile.SetSucceedsIff | crates/supervisor/src/env_resolve.rs:153-221 | a set succeeds exactly if the variable is declared, the value can be stored, and the variable is missing, blank or has that value; what is set leaves the file as it is; each error has its one cause |
| EnvFile.SetAdds | crates/supervisor/src/env_resolve.rs:153-221 | for every file, name and value a set adds to what is read just what its own line reads as, or nothing |
| EnvFile.SetKeepsIff | crates/supervisor/src/env_resolve.rs:195-221 | a set never changes what a set variable reads as, whatever the file, exactly if its line is read as no other variable |
| EnvFile.PlainNamesKeep | crates/supervisor/src/env_resolve.rs:195-221 | so it is for every name without line feeds, "=" and white space around it |
| EnvFile.OtherNamesOverride | crates/supervisor/src/env_resolve.rs:195-221 | a name with "=" in it whose set changes a variable that is set |
| EnvFile.SetRoundTripIff | crates/supervisor/src/env_resolve.rs:153-221 | setting a missing or blank variable touches no other; it reads back exactly, and a second set writes nothing, exactly under that condition |
| EnvFile.QuotesAreLost | crates/supervisor/src/env_resolve.rs:724-730 | a value that is appended again at every set |
| EnvFile.ParseEnvContents | crates/supervisor/src/env_resolve.rs:34-61 | the loop computes the parse, a later assignment winning |
| EnvFile.AppendedAllIsRead | crates/supervisor/src/env_resolve.rs:681-722 | after an append of values and skipped names the parser sees the last value of each variable, every skipped name, and the old contents otherwise |
| EnvFile.File.SetEnvValue | crates/supervisor/src/env_resolve.rs:153-221 | the file after a set, or the error with the file untouched; success exactly where a set succeeds, and a set variable leaves the file alone |
| EnvFile.File.WriteEnvVar | crates/supervisor/src/env_resolve.rs:724-730 | one line with the quoted value is appended |
| EnvFile.File.AppendToEnvFile | crates/supervisor/src/env_resolve.rs:681-722 | the loops append one line for each value and each skipped name behind an ended last line |

## Left out

- Overlay.AddKeepsStacks: where the add covers a feature called "base" only if it depends on it; `Overlay.AddKeepsStacksIff` shows that this is exactly needed.
- Overlay.UpdateKeepsStacks: the same for an update; `Overlay.UpdateKeepsStacksIff`.
- LockedLists.UpdateKeepsByListIff: for updates that the locked lists would let through too, and that do not lose a feature called "base" that owns a path of theirs.
- Runs.PerformKeepsStacksIff: the same for updates; `Runs.SameListsAreKept` and `LockedLists.UnchangedListsRespect` say where that is sure.
- Runs.RunIsRecoverableIff: for runs of such updates.
- Runs.RunStaysRecoverable: for the same runs, in which every finished operation respects the stacks; `Runs.RunIsRecoverableIff` shows that this is exactly needed, and `Runs.PlainRunsRespect` that runs with unchanged lists and no feature called "base" do.
- Runs.RunsSettle: for the same runs.
- Runs.NeverStuck: for the same runs.
- Runs.RemovingAllGivesBase: for the same runs.
- Planner.PlanAgreesWithInstall: where no owner is hidden by a feature called "base"; `Planner.InstallAcceptsIff` shows that the install refuses all other lists.
- Planner.PlanFeatures: payload paths that differ in letter case only are not compared.
- Planner.Create: the same, and the check of the target directory comes before.
- Composer.Project.AddConflicts: conflicts between paths that differ in letter case only are left out.
- Composer.Project.UpdateConflicts: the same.
- Composer.Project.AddLoadedFeature: refusals for such conflicts and for unsafe paths are left out.
- Composer.Project.AddFeature: the same.
- Composer.Project.UpdateFeature: the same; where a backup that is to be given back is missing, which files were written before the error is open.
- Composer.Project.RemoveFeature: where a backup or its digest is missing, which files were written before the error is open.
- Composer.Project.AbortJournal: for a journal with backups of a feature other than its own the states on the way are open; no journal this code writes has them.
- Composer.Project.Perform: where the operation fails for want of a backup, which files were written before is open.
- Composer.Project.ContinueOperation: both of these.
- LogStore.LogStore.Append: the length of the serialised line is given with the line and only bounded from below by its fields, and redaction has happened before; services are told apart by name, so two names that become one file name are not covered.
- LeaseProgress.NotAllBlocked: resource names that become one directory name are not covered.
- Surgical.UpsertIsIdempotentIff: for names and values of one line and keys that do not begin with white space or an opening bracket, as bare TOML keys do not.
- The composer's dry runs, locators, git revisions, reserved and unsafe paths, symbolic links, case collisions on disk, regeneration of generated files, and the partial deletion of a journal directory.
- `remove_section` in `surgical.rs`: no inverse.
- `purge`, failed renames and failed appends of the log store.
- The environment variables a lease exports, lock inheritance by children (a dead owner's lock may last any time, which covers it), and the killing of orphans (a process may exit at any time, which covers it).
- Pass-through of descriptors, process lookup, sockets, tasks, sessions, health probes, prompts and everything shown to the user.
- TOML, JSON, regular expressions and hashing.
