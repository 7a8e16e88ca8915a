# Iskele: a verified model of its protocols

Iskele is a panel for a container host: it deploys compose stacks, redeploys single
containers, streams statistics, and guards all of that with accounts, limiters and a path
whitelist. This project models those protocols in Dafny and proves what they are meant to
guarantee over every input, every run and every failure pattern. Where the code does not
meet a guarantee, the code is modelled as it is, a witness shows the failure, and the exact
condition for the guarantee is proved. `dafny verify dfyconfig.toml` checks everything.

## How it is modelled

- **Engine and stacks** (`Engine`, `Compose`, `Stack`, `Reconcile`, `Upkeep`, `Fleet`,
  `Naming`, `Status`, `Deploy`, `Order`, `Redeploy`). The container engine is a class whose
  calls may each fail without effect, a restart also half way; it refuses a name in use.
  Deploying is a set of methods over it, with `Engine.trail` recording every state passed
  through and `Engine.faults` counting the calls that failed although they could be done. An
  engine (and likewise the store and the disk) may be *reliable*: it then refuses only what
  cannot be done, and the contracts say that the operations succeed. Everything else holds for
  every pattern of failures. A container keeps the definition it was created from, so that
  what runs can be compared with what the file asks for.
- **Concurrency** (`Tasks`, `Guard`, `StatsMux`). Each locked section is one step of a state
  machine; theorems are about all interleavings. The classes `TaskRegistry` and `Mux` carry
  out the locked sections with the loops of the source and are proved to take those steps.
- **Limiters and credentials** (`Lockout`, `RateLimit`, `Tickets`, `Records`, `Sweeping`,
  `Accounts`). Histories are inductive values, latest event outermost, so a theorem about a history is a
  theorem about every run. Store writes may each fail and end the operation where it stands.
- **Checks on text and trees** (`Paths`, `Links`, `BuildContext`, `Mask`).
- `Text`, `Sorting` and `Durations` hold the parts of Go's library the rest relies on.

Assumptions, all of them visible in contracts:

- Time is an integer number of nanoseconds. The store keeps RFC3339Nano text, which drops
  trailing zeros, so text order can differ from time order inside one second.
- `Check` and `RecordFailure`, `Refresh`, `Bootstrap` and the last-administrator check each
  read and write in separate statements. Theorems about them are about operations taken one
  at a time; `Accounts.InterleavedDemotions` and `Guard.TwoStepClaimClashes` show two places
  where that matters.
- Deploying starts from a plan whose service names differ, whose pinned container names are
  used by nobody else in the stack, and whose pinned services run once (`Fleet.Deployable`);
  and from a stack in which no container carries one service's name with another's label or a
  plan's hash the plan could not have stamped (`Fleet.Sound`). Both stack conditions are
  proved to be kept by every deploy, complete or not. They follow for any deployable plan from
  two rules that name no plan: every container of the stack is named by the rule for its own
  service and replica labels, or is the one replica of a service that pins its name
  (`Naming.Ruled`), and carries the hash of the definition it was created from
  (`Fleet.Honest`). Every deploy keeps both, so one version of the file can follow another.
- The digest behind the configuration hash is a parameter. That equal hashes mean equal
  definitions is said only of a digest that does not collide (`Compose.Injective`).
- While a deploy or an action on a stack is at work nobody else changes the engine.
- Random tokens never repeat; ids are never reused.

## What does not hold, and when it does

- **Redeploy by name.** Every engine call resolves the reference afresh, so a caller that
  passes a name has the *replacement* removed by the last call. A success leaves the new
  container running under the old name exactly when the caller passed an id or that last
  removal failed (`Redeploy.Success`), so by name on a reliable engine it never does.
- **A working container after a failed redeploy.** A failure leaves one exactly when the
  original was rolled back, or was running, was never stopped and has its name; a stop that
  works before a rename that fails leaves nothing running, and by name no rollback ever works
  (`Redeploy.Failure`, `Redeploy.FailureWorksIff`). Past that rename, by id, a redeploy survives
  any single fault: it takes two for the original not to be restored.
- **The whitelist and paths that do not exist yet.** Links are resolved for a path that exists
  as a whole; for any other the text is tested as written, although the engine creates it
  beneath whatever the links on the way point to. The comment at
  internal/service/paths.go:78-82 promises otherwise. `Links.MissingPathEscapes` shows a path
  that is accepted and lies outside; whatever directories are listed, the answer is about the
  place the path will have if and only if the path exists or its deepest existing ancestor
  resolves to itself (`Links.HonestIff`).
- **Pinning a running service** leaves its old container aside for good: the status is never
  clean again (`Deploy.PinningLeavesStray`). The report after a deploy is clean exactly when
  no such stray was there before.
- **Networks beyond the first** are joined only when a container is created, and neither the
  hash nor the status looks at them. A replica whose second attachment failed is started as it
  is by the next deploy and counts as up to date from then on (`Upkeep.HalfJoinedIsSettled`); so
  does one created before the file gained a network (`Upkeep.AddedNetworkIsUnseen`). After a
  complete deploy a service is on its networks exactly when the containers that were kept
  were, on a reliable engine exactly when those found up to date were, and always after
  recreating (`Upkeep.JoinedIff`).
- **Pinned names** need two things for one deploy to follow another: a pinned name must not be
  of the form replicas get (`Naming.PinnedToReplica` shows a service that loses its container),
  and whoever bears it must carry no other planned service's label. The second is exactly what
  a ruled stack needs (`Naming.RuledIsSoundIff`), and holds for good when every pinned name
  keeps its owner (`Naming.RuledIsSound`).
- **Scaling a pinned service past one** succeeds with one container
  (`Status.PinnedCannotScale`), and the status, which goes by the file, shows it clean.
- **The status after a scale** goes by the file, which a scale does not change: a service
  without a pinned name is clean exactly at the scale the file asks for, a pinned one at every
  scale but zero (`Deploy.ScaledReport`).
- **The busy guard** needs `claim` to be one step and running stack operations not to be
  cancelled (`Guard.TwoStepClaimClashes`, `Guard.CancelClashes`).
- **The lockout bound** needs a lockout no shorter than the window and an interval open at
  one end. A lock also ends with the window, not with the lockout, unless the failures that
  caused it stay inside the window (`Lockout.LockLastsIff`).
- **Cleaning up idle buckets** is invisible exactly when a bucket idle one nanosecond longer
  than the limit is full again (`RateLimit.Patient`), and breaks the rate bound exactly
  otherwise (`RateLimit.ImpatientCleanupBreaksBound`).
- **A disabled account without open sessions**: over a whole run this holds exactly when no
  update stopped between disabling an account that holds one and revoking it
  (`Accounts.RunAll`).
- **Disabling an account** a second time, after the first try failed to revoke its sessions,
  succeeds without revoking them (`Accounts.DisableEndsSessionsIff`,
  `Accounts.RetriedDisableKeepsSession`).
- **The Dockerfile check** looks for `../` in the text. It lets `..` through and refuses
  `a../b` (`BuildContext.ClimbCheckMisses`); an accepted name leaves the context exactly when
  it cleans to `..`.
- **The context size limit** holds exactly when the total that first exceeds it fits in 64
  bits (`BuildContext.LimitHoldsIff`); a one-byte file followed by one of the largest possible
  size slips through any limit (`BuildContext.OverflowSlipsThrough`).

The branch for patterns with a trailing slash in internal/service/context.go:286-291 can only
meet the pattern `/`, because patterns are cleaned when they are read; the model keeps it.

## Model

| member | source | states |
|---|---|---|
| Text.AtoiItoa | internal/service/stackup.go:857-868 | a number written into a label reads back as itself exactly when it fits 64 bits, also behind a sign |
| Text.LessIs | internal/service/stackup.go:744-761 | names are ordered as in a dictionary: at the first difference the smaller character, or the end, comes first |
| Text.TrimAround | internal/service/paths.go:46-72 | white space around a text is cut off, and nothing else |
| Engine.Engine.List | internal/service/stack.go:526-531 | a listing holds exactly the containers carrying the label value, each once, in any order |
| Compose.ContainerNameInjective | internal/compose/convert.go:831-833 | within one stack a container name determines its service and replica, whatever dashes and digits the names hold |
| Compose.NamesApart | internal/compose/convert.go:831-833 | two services of a stack never claim the same container name |
| Compose.HashIgnoresReplica | internal/service/stack.go:596-630 | the hash of what createReplica creates equals the hash of its plan, whatever name, number and earlier hash it carries |
| Compose.HashSees | internal/service/stack.go:588-613 | two definitions that agree on image, body and every label but the derived ones have the same hash, and unless the digest collides only those do |
| Compose.SortedServiceNames | internal/compose/parse.go:167-174 | every service once, in the order of names |
| Compose.Convert | internal/compose/convert.go:124-160 | one plan per declared service in the given order, or by name when none is given; nothing exactly when some service has neither image nor build or an unsupported volume type |
| Compose.WalkKeepsOrder | internal/compose/convert.go:146-157 | dropping undeclared names keeps the order distinct, dependencies first, and complete |
| Compose.ConvertedService | internal/compose/convert.go:163-304 | a service has a plan exactly when it has an image or a build and only supported volumes; replicas, image, networks, dependencies, name and labels are those of the file, the deploy section before scale, an image before a build, the stack's labels before the file's |
| Compose.ConvertedOk | internal/compose/convert.go:163-246 | a converted project is deployable: labels in place, names distinct, dependencies first, pinned services single |
| Stack.StampedIsMine | internal/service/stackup.go:273-311 | a container as createReplica makes it is recognised by its definition, service, replica number, hash and name |
| Stack.CreateAndStart | internal/service/stackup.go:280-310 | creates on the first network, joins the rest, starts; a failure leaves at most that container, labelled and not running |
| Stack.RemoveContainer | internal/service/stackup.go:767-773 | success, also for a container already gone, leaves the table without it; failure changes nothing |
| Stack.CreateReplica | internal/service/stackup.go:273-311 | success adds one running container made from the plan's definition, on all networks; failure leaves at most that container, stamped and not running; with the name free only a failing engine fails |
| Reconcile.Replace | internal/service/stackup.go:247-264 | whatever fails, only containers of the stack under the replica's own name are touched and what is new carries the plan's stamp; success serves the replica |
| Reconcile.UpReplica | internal/service/stackup.go:220-265 | an up-to-date running container is left alone, a stopped one started or replaced, an outdated one replaced; a container outside the stack is never touched, also under the replica's name; what is new is on every network; a reliable engine keeps what is up to date |
| Reconcile.IndexByName | internal/service/stackup.go:215-218 | the listing as a map from names loses and adds nothing |
| Reconcile.NextRound | internal/service/stackup.go:220-265 | one round keeps the loop invariant: earlier replicas stay served, later names untouched, outdated holders gone |
| Reconcile.RoundYields | internal/service/stackup.go:220-226 | when nobody outside the stack holds a replica name, each round finds its name free or held by the container the listing shows |
| Reconcile.RoundOutcome | internal/service/stackup.go:220-265 | from what a round did to the table: the loop invariant advances, or only claimed containers changed and up-to-date running ones did not |
| Reconcile.Round | internal/service/stackup.go:220-265 | a round extends the loop invariant, or stops with only claimed containers changed; a replica seen up is not touched |
| Reconcile.RemoveSurplus | internal/service/stackup.go:314-335 | success removes exactly the containers numbered above the scale; a failure removes some of them and nothing else |
| Reconcile.Finished | internal/service/stackup.go:203-270 | after all rounds and the surplus removal the service is settled and only claimed containers changed |
| Reconcile.FinishedTreats | internal/service/stackup.go:203-270 | after all rounds and the surplus removal: running up-to-date containers untouched, outdated ones gone, kept ones the same but for their phase, new ones on every network |
| Reconcile.UpService | internal/service/stackup.go:203-270 | success settles the service and treats what it found as stated for FinishedTreats; in every case only containers of the stack it claims change and up-to-date running ones do not; a settled service is not touched; on a reliable engine with clear names it succeeds |
| Upkeep.FromStart | internal/service/stackup.go:171-183 | what a service did to the table it found, it did to the table of the listing |
| Upkeep.ToEnd | internal/service/stackup.go:176-183 | and that stays true while other services are deployed |
| Upkeep.CompletedRunsPlan | internal/service/stackup.go:226-264 | after a complete deploy whoever holds a name of the service runs and was made from the file's definition; over honest hashes what was made from another one is gone, and what was made from this one and ran is untouched |
| Upkeep.CompletedJoins | internal/service/stackup.go:291-302 | after a complete deploy a service is on its networks exactly when the kept containers were; on a reliable engine exactly when those found up to date were; always after recreating |
| Upkeep.AddedNetworkIsUnseen | internal/service/stack.go:596-613 | a settled service stays settled when the file gives it one more network, and is not on it |
| Upkeep.HalfJoinedIsSettled | internal/service/stackup.go:226-243 | a replica left half attached and then started is settled, and not on all its networks |
| Fleet.SoundIsTrusted | internal/service/stackup.go:226-233 | a container found under a plan's name and hash is one this plan stamped, at any scale |
| Fleet.HonestIff | internal/service/stackup.go:226-233 | the test by which a deploy leaves a container alone tells exactly whether the container was made from the definition the plan asks for |
| Fleet.MineIsHonest | internal/service/stack.go:588-613 | what createReplica made carries the hash of what it was made from, taken by itself |
| Fleet.OthersUnmoved | internal/service/stackup.go:171-183 | the listing taken before the loop stays right for every other service, because names are injective |
| Fleet.StaysSound | internal/service/stackup.go:203-270 | both conditions on the stack for the plan at hand survive a deploy of one service, complete or not |
| Naming.StaysRuled | internal/service/stackup.go:203-270 | so does the naming rule that names no plan |
| Naming.RuledIsSoundIff | internal/service/stackup.go:226-233 | over a ruled stack with honest hashes the precondition of deploying any plan holds exactly when its pinned names match their bearers |
| Naming.RuledIsWellNamedIff | internal/service/stackup.go:314-335 | and the stack is well named for exactly the plans that rename no service |
| Naming.RuledIsSound | internal/service/stackup.go:226-233 | with pinned names that keep their owner every later plan can be deployed on a ruled stack with honest hashes |
| Naming.PinnedToReplica | internal/service/stackup.go:226-335 | pinned to the name of its own second replica, a service finds that container up to date and surplus at once |
| Status.StatusFor | internal/service/stack.go:485-523 | one report per service, in the order of names: its containers, how many run, and drift exactly when a hash or the count differs |
| Status.ReportIsOf | internal/service/stack.go:485-523 | with distinct service names the report under a name is the one of that service |
| Status.CountsMean | internal/service/stack.go:504-516 | the report counts each container with the service's labels once, and as running exactly those that run |
| Status.ReportMeans | internal/service/stack.go:485-523 | over honest hashes a report shows drift exactly when there are not as many containers as asked for or one was made from another definition, and is clean exactly when all of them also run |
| Status.CleanIffNoStrays | internal/service/stack.go:485-523 | for a settled service the report shows no drift and Running equal to Replicas exactly when it has no stray |
| Status.PinnedCannotScale | internal/service/stackup.go:220-226 | a pinned service settled at any scale from one up has one container, strays aside |
| Status.SettledCounts | internal/service/stack.go:485-523 | how many containers a service settled at a scale has |
| Deploy.Ensure | internal/service/stackup.go:776-833 | creates exactly missing, non-external networks or volumes; nothing when all are there; other resources untouched |
| Deploy.SelectServices | internal/service/stackup.go:836-854 | refuses exactly when a name is unknown; otherwise the named plans in deployment order |
| Deploy.ChosenIs | internal/service/stackup.go:836-854 | the selection holds exactly the plans asked for, each once |
| Deploy.ChosenInOrder | internal/service/stackup.go:836-854 | picking services by name keeps dependencies first |
| Deploy.Admit | internal/service/stackup.go:134-162 | passes exactly when the plan converts, every name is known and no selected plan has a problem |
| Deploy.NextService | internal/service/stackup.go:176-183 | after one more service, earlier ones stay settled, later and unselected ones see what they saw at the start |
| Deploy.UpNext | internal/service/stackup.go:176-183 | one more selected service: settled or begun, the others as before, the names still clear |
| Deploy.NextUpkeep | internal/service/stackup.go:176-183 | one more service: up-to-date running containers of every selected service stay untouched, and the finished services stay treated as stated |
| Deploy.UpServices | internal/service/stackup.go:171-183 | an error in the k-th service leaves the earlier ones settled and the later ones untouched; in every case up-to-date running containers and containers outside the stack are untouched; everything settled means nothing is done |
| Deploy.DependenciesAreUp | internal/service/stackup.go:171-183 | wherever a deploy stops, no service is touched before the selected services it depends on are up |
| Deploy.Provision | internal/service/stackup.go:164-169 | no network or volume is removed, and what is new is a non-external one of the plan |
| Deploy.Up | internal/service/stackup.go:129-187 | refused exactly when inadmissible, changing nothing; failure stops at a service boundary; success settles every selected service, with every replica running the file's definition; over honest hashes it replaces what was made from another definition and leaves alone what runs this one; says which services are on their networks; in every case up-to-date running containers, other services, containers outside the stack and existing networks and volumes are untouched and the naming rule and honest hashes are kept; an up-to-date stack is not changed; nothing but a failing engine prevents success |
| Deploy.ConfinedKeepsRule | internal/service/stackup.go:129-187 | the naming rule survives a deploy, however it ends |
| Deploy.ConfinedKeepsHonest | internal/service/stackup.go:129-187 | so do honest hashes |
| Deploy.UpEach | internal/service/stackup.go:129-187 | version after version of the file, whole or in part, can be deployed on whatever the one before left; the services of the last one that succeeds are settled and run as that version defines them; containers outside the stack are untouched throughout |
| Deploy.UpTwice | internal/service/stackup.go:129-187 | after a successful deploy a second one makes no change of any kind, in any failure pattern |
| Deploy.StraysStay | internal/service/stackup.go:314-335 | a deploy neither adds nor removes containers it sets aside |
| Deploy.DeployedIsClean | internal/service/stack.go:485-523 | after a complete deploy the report of a selected service is clean exactly when no stray was there; a well-named stack has none |
| Deploy.UpThenReport | internal/service/stackup.go:129-187 | deploy, then status: every service has a report, and that of a selected one is clean exactly when it had no stray before; from a well-named stack always; on a reliable engine this is always reached |
| Deploy.PinningLeavesStray | internal/service/stackup.go:314-335 | giving a running service a container_name leaves its first container a stray |
| Deploy.Scale | internal/service/stackup.go:655-700 | refusals change nothing; success settles the service at the new scale with every replica running the file's definition and treats what it found as a deploy does; other services and containers outside the stack see no change; the naming rule is kept unless a pinned service is scaled past one |
| Deploy.ScaledReport | internal/service/stack.go:455-523 | the report after a scale, by the file's plan: without a pinned name clean exactly at the file's scale, with one at every scale but zero |
| Deploy.ScaledHasNoStrays | internal/service/stackup.go:655-700 | a scale of a well-named stack leaves no stray, however it ends |
| Deploy.ScaleThenReport | internal/service/stackup.go:655-700 | scale, then status, from a well-named stack: the container count and exactly when the report is clean |
| Redeploy.Rollback | internal/service/stream.go:350-358 | reports success only if the original runs under its own name again, and touches nothing else |
| Redeploy.Park | internal/service/stream.go:304-313 | stops and renames the original, tolerating one already stopped; success frees its name and leaves it under the parked name |
| Redeploy.GiveUp | internal/service/stream.go:316-333 | the half-built replacement goes if it can; what the failure leaves, in every pattern of further failures; by id the original is restored unless there is a further fault |
| Redeploy.Launch | internal/service/stream.go:322-346 | starting the replacement: a success drops what the reference means by then, a failure gives up |
| Redeploy.Replace | internal/service/stream.go:315-347 | from the parked original on: every state is covered, and the outcome is as stated for each failure; the replacement has the image, labels, networks and all else of the original as it was read; by id it takes two faults not to restore the original |
| Redeploy.FailureWorksIff | internal/service/stream.go:276-278 | a failure leaves a working container exactly when the original was rolled back, or was running, never stopped and has its name |
| Redeploy.Redeploy | internal/service/stream.go:279-347 | at every step the original exists or a running container has its name; success by id means the new one runs, equal to the original as it was read in all but its id; a failure leaves the original running under its name exactly as FailureWorksIff says, and never by a rollback if referred to by name; by id one fault is survived unless the stop or the rename met it; a reliable engine gives success |
| Order.OrderContainers | internal/service/stackup.go:726-764 | the ranks built in the loop give the sorted order; an unreadable file keeps the listing's order |
| Order.ComparisonIsWeak | internal/service/stackup.go:744-761 | the comparator is a strict weak order on all containers |
| Order.ComparisonIsTotal | internal/service/stackup.go:744-761 | containers of different names are never tied |
| Order.OrderPermutes | internal/service/stackup.go:726-764 | ordering loses and adds no container |
| Order.OrderIgnoresListing | internal/service/stackup.go:726-764 | however the engine lists the stack, the order is the same |
| Order.PlanOrder | internal/service/stackup.go:726-764 | containers stand by the plan, forwards on start and backwards otherwise, unknown services last both ways, and by name where the plan does not tell |
| Order.DependenciesInOrder | internal/service/stackup.go:726-764 | direct and indirect dependencies come first on start and last on stop and restart |
| Order.ActedAt | internal/service/stackup.go:535-565 | a container is what its own call made of it, whatever the others did |
| Order.ActedLeaves | internal/service/stackup.go:544-562 | started or restarted a container runs, stopped it does not, refused it is as it was, halted it is stopped, and nothing else about it or any container outside the stack changes |
| Order.TellsAll | internal/service/stackup.go:544-562 | every container's name is told once, among the done ones exactly when its call worked |
| Order.WalkInTurn | internal/service/stackup.go:544-562 | once a later container of the list has changed in any state, the earlier one is as it ends and stays so |
| Order.OutOfTurn | internal/service/stackup.go:544-562 | and on a restart never the other way round: of two containers restarted, the later one was not dealt with first |
| Order.CallOne | internal/service/stackup.go:545-555 | one call: started or restarted the container runs, stopped it does not, refused it is as it was, nothing else changes; with the states passed through, a restart stopping the container first |
| Order.ActOn | internal/service/stackup.go:544-562 | one call per container, the states passed through following the list in order; done and failed names partition the list in order |
| Order.ActsInOrder | internal/service/stackup.go:535-565 | once a dependent's container has changed on start, its dependency's is done for good; on stop and restart, also of a running stack, the other way round |
| Order.Act | internal/service/stackup.go:535-565 | acts on exactly the stack's containers, in dependency order as ActsInOrder states; each is left as ActedLeaves states and told as TellsAll states; an error or unknown action changes nothing; on a reliable engine every call succeeds |
| Tasks.NextKeepsInv | internal/service/tasks.go:101-247 | every locked step keeps: finished, not cancelable and context cancelled go together |
| Tasks.RunKeepsInv | internal/service/tasks.go:101-247 | the invariant holds after every step of every run |
| Tasks.FinishedIsFinal | internal/service/tasks.go:127-186 | until its id is started again a finished entry never changes, and a dropped one does not come back |
| Tasks.RunningStays | internal/service/tasks.go:216-247 | a running entry is never swept or evicted |
| Tasks.RunningShows | internal/service/tasks.go:101-137 | in every run, while it runs an entry shows what it was started with and the latest progress |
| Tasks.ClosedShows | internal/service/tasks.go:142-186 | in every run a closed entry shows success, cancellation, or failure with its error, exactly as it was closed, for as long as it is kept |
| Tasks.TaskRegistry.StartWithID | internal/service/tasks.go:101-123 | one Start step: at most 200 remain or none is finished; evicted ones finished no later than any finished one kept |
| Tasks.TaskRegistry.EvictLocked | internal/service/tasks.go:226-247 | only finished entries go, oldest first, no more than the cap asks for |
| Tasks.TaskRegistry.Progress | internal/service/tasks.go:127-137 | one Progress step: a running entry is updated, a finished one is not |
| Tasks.TaskRegistry.Finish | internal/service/tasks.go:142-166 | one Finish step: a running entry ends once, its context is cancelled |
| Tasks.TaskRegistry.Cancel | internal/service/tasks.go:169-186 | one Cancel step, telling unknown and already finished ids apart |
| Tasks.TaskRegistry.SweepLocked | internal/service/tasks.go:216-222 | drops exactly the entries finished more than ten minutes ago |
| Guard.StepKeepsGuard | internal/service/stackup.go:109-127 | when claims are one step and nothing running is cancelled, every live operation holds its stack's running entry |
| Guard.OnePerStack | internal/service/stackup.go:109-127 | in every such run at most one operation is live per stack, at every state |
| Guard.DoneEndsItsOwn | internal/service/stackup.go:109-127 | in every such run each done ends its own operation's entry and context |
| Guard.TwoStepClaimClashes | internal/service/stackup.go:109-127 | a run with the look and the registration apart has two live operations on one stack |
| Guard.CancelClashes | internal/service/tasks.go:169-186 | a run with a cancel has two live operations, and the first one's done ends the second's entry |
| StatsMux.StepKeepsInv | internal/service/statsall.go:35-182 | every step of owner, followers and caller keeps the lock's invariant |
| StatsMux.FanInIsSafe | internal/service/statsall.go:35-182 | in every interleaving: no send after the close, one close at most and only with no follower left, one uncancelled follower per container |
| StatsMux.ForgetCancels | internal/service/statsall.go:133-172 | a follower that gives up its stream is cancelled, so that the next scan starts another |
| StatsMux.ScanWatchesTheRunning | internal/service/statsall.go:95-130 | right after a scan the watched containers are exactly the running ones, each by its own follower, which while the caller is there is at its stream or about to give it up |
| StatsMux.WaitCanEnd | internal/service/statsall.go:42-50 | once stopped, the owner's wait always has an end in reach |
| StatsMux.Mux.Rescan | internal/service/statsall.go:95-130 | the two loops take the rescan step and keep the invariant |
| StatsMux.Mux.Forget | internal/service/statsall.go:165-172 | drops whatever stream the container has now, also for a late call by an old follower |
| StatsMux.Mux.StopAll | internal/service/statsall.go:175-182 | cancels and drops every stream |
| Durations.RoundsToSeconds | internal/auth/bruteforce.go:79-109 | rounding yields whole seconds and moves a duration by half a second at most |
| Lockout.NewLimiter | internal/auth/bruteforce.go:43-61 | positive values are taken as given; otherwise ten failures and a quarter of an hour |
| Lockout.StatusMeans | internal/auth/bruteforce.go:79-109 | an address is locked exactly when its failures in the window that no later success forgives reach the limit and the lockout since some failure has not passed; what is counted and what is left is told right |
| Lockout.WaitUnlocks | internal/auth/bruteforce.go:104-108 | whoever waits as long as told, and half a second more, without failing is let in again; half a second sooner the lockout has not passed |
| Lockout.SuccessClears | internal/store/logins.go:32-57 | after a success nothing counts until the address fails again |
| Lockout.LoginRecords | internal/service/auth.go:222-263 | a login that was let in and came to an end leaves one row that says how; any other none |
| Lockout.LockedIffFull | internal/auth/bruteforce.go:79-109 | with a lockout no shorter than the window an address is locked exactly while its counted failures reach the limit |
| Lockout.LockoutBound | internal/service/auth.go:222-263 | any interval of one window's length without a success holds at most maxFailures recorded failures, in every history |
| Lockout.ShortLockoutBreaksBound | internal/auth/bruteforce.go:79-109 | for every shorter lockout there is a history that exceeds the bound |
| Lockout.ClosedIntervalHoldsTwice | internal/auth/bruteforce.go:79-109 | an interval closed at both ends can hold twice the limit |
| Lockout.LockLastsIff | internal/auth/bruteforce.go:79-109 | an address left alone stays locked for the whole lockout exactly when its failures still fill the window at the end |
| Lockout.LongLockoutIsCutShort | internal/auth/bruteforce.go:79-109 | a lockout longer than the window is never served in full |
| Lockout.PruningIsInvisible | internal/auth/bruteforce.go:129-132 | with or without pruning every login of a history gets the same answer |
| Lockout.Limiter.Check | internal/auth/bruteforce.go:79-109 | computes the status from the attempt log |
| Lockout.Limiter.Login | internal/service/auth.go:222-263 | checks, then records; a locked login records nothing |
| Lockout.Limiter.Prune | internal/auth/bruteforce.go:128-132 | every attempt inside window plus lockout remains as often as it was there, no other does, and no address is answered differently from now on |
| RateLimit.NewRateLimiter | internal/server/middleware/ratelimit.go:46-59 | the rate is the given number a minute, 120 by default, and the burst as given, by default a minute's worth |
| RateLimit.RateBound | internal/server/middleware/ratelimit.go:70-96 | per client, requests admitted from s to t never exceed burst plus rate times t minus s, in every history whose cleanups are patient |
| RateLimit.WaitIsEnough | internal/server/middleware/ratelimit.go:70-96 | the rounded wait is never shorter than the refill takes, nor longer by more than a second and a half |
| RateLimit.WaitingWorks | internal/server/middleware/ratelimit.go:70-96 | a client that waits as told gets its next request through, whatever others and cleanups do |
| RateLimit.CleanupIsInvisible | internal/server/middleware/ratelimit.go:100-113 | patient cleanups change no answer of any history |
| RateLimit.ImpatientCleanupShows | internal/server/middleware/ratelimit.go:100-113 | for every impatient cleanup some history is answered differently |
| RateLimit.ImpatientCleanupBreaksBound | internal/server/middleware/ratelimit.go:100-113 | and in some history a client gets more than the rate bound allows |
| RateLimit.RateLimiter.Allow | internal/server/middleware/ratelimit.go:70-96 | admits exactly when a whole token is there, takes it, and otherwise returns the wait |
| RateLimit.RateLimiter.Cleanup | internal/server/middleware/ratelimit.go:100-113 | drops exactly the buckets idle longer than the limit |
| Tickets.NewTicketStore | internal/auth/ticket.go:46-55 | a positive ttl is taken as given, otherwise a minute |
| Tickets.SingleUse | internal/auth/ticket.go:65-104 | a value is redeemed no more often than it was issued |
| Tickets.RedeemIff | internal/auth/ticket.go:85-104 | redeeming works exactly for a value issued, not tried since, within its ttl, and yields whom it was issued to |
| Tickets.PruningIsInvisible | internal/auth/ticket.go:114-121 | redeeming gives the same with and without pruning |
| Tickets.TicketStore.Issue | internal/auth/ticket.go:65-82 | the map follows the history after an issue and its pruning |
| Tickets.TicketStore.Redeem | internal/auth/ticket.go:85-104 | the answer and the map follow the history, the empty value included |
| Records.AdminSurvives | internal/store/users.go:32-124 | a write that does not demote an account leaves it an enabled administrator |
| Records.DeadForever | internal/store/sessions.go:52-72 | a session once revoked or gone never comes back, whatever is written later |
| Sweeping.RefreshSteps | internal/service/auth.go:351-401 | a refresh as an operation on the tables, written out for each answer and each number of writes made |
| Sweeping.SweepingIsInvisible | internal/store/sessions.go:109-121 | in every history of operations, each doing what it finds, every caller learns the same with and without sweeps |
| Accounts.RefuseIfLastAdmin | internal/service/users.go:389-400 | passes exactly when another enabled administrator exists |
| Accounts.ChangeRole | internal/service/users.go:147-161 | the role stage of Update, with each refusal's exact reason; an administrator remains after the write |
| Accounts.ChangeDisabled | internal/service/users.go:163-182 | the disable stage: two writes when disabling, refused exactly for the last administrator; it exposes an account exactly when it stops between them with a session open |
| Accounts.ChangeAccess | internal/service/users.go:147-182 | the role and disable stages in turn: what each leaves, each refusal's exact reason, and an administrator after every write |
| Accounts.ChangePassword | internal/service/users.go:184-199 | the password stage: success leaves the account with the new hash and otherwise what it was, every other account as it was, and all its sessions ended |
| Accounts.EditedInTurn | internal/service/users.go:139-207 | the three stages in turn leave the account with each thing asked for and otherwise what it had |
| Accounts.Update | internal/service/users.go:139-207 | success leaves the account with the role, state and password hash asked for and otherwise what it had, every other account as it was, and its sessions ended exactly when a password was set or it was newly disabled; every write keeps an enabled administrator, also when it stops half way; it leaves a disabled account with an open session exactly when cut off between disabling and revoking |
| Accounts.Delete | internal/service/users.go:210-236 | success leaves exactly the other accounts and their sessions; never oneself, never the last administrator |
| Accounts.ResetTOTP | internal/service/users.go:361-381 | success clears the second factor and nothing else of the account, and ends its sessions; never for oneself |
| Accounts.Create | internal/service/users.go:86-123 | success adds exactly the account asked for: trimmed name, role, hash, enabled, without second factor; bad input and a name in use, whatever its case, are told apart; anything but success changes nothing |
| Accounts.Bootstrap | internal/service/auth.go:135-163 | works only with no account, and leaves exactly the enabled administrator asked for, with one session |
| Accounts.Store.IssuePair | internal/service/auth.go:518-556 | a session under a token never used before |
| Accounts.NamesAreUnique | internal/store/users.go:32-54 | in every history lower-cased names are unique |
| Accounts.SpelledIsLowered | internal/store/users.go:40-45 | and every account carries its own name lower-cased |
| Accounts.Login | internal/service/auth.go:211-292 | success exactly with proven credentials of an enabled account of that name, trimmed and whatever its case, store failures aside; nothing else changes the tables |
| Accounts.Exchange | internal/service/auth.go:383-400 | the token is revoked before a new one is issued; the tables are those before, after the first or after both writes |
| Accounts.Refresh | internal/service/auth.go:351-401 | succeeds exactly for a session neither ended nor expired of an enabled account, store failures aside; ends it and adds one of the same account, every other session untouched; a token of a disabled account ends all its sessions; tells each refusal, and leaves the tables of the operation with some of its writes made |
| Accounts.Logout | internal/service/auth.go:407-431 | success ends the session, if there is one that was not ended before; accounts and other sessions stay as they were |
| Accounts.Sweep | internal/store/sessions.go:109-121 | removes exactly the sessions that expired or were ended before the cutoff |
| Accounts.ResetEndsSessions | internal/service/users.go:184-199 | a password reset that succeeds ends every session of the account |
| Accounts.DisableEndsSessionsIff | internal/service/users.go:163-182 | a disable that succeeds ends every session exactly when the account was enabled or they were ended before |
| Accounts.RetriedDisableKeepsSession | internal/service/users.go:163-182 | after a failed revoke, a repeated disable and an enable, the old session can be refreshed |
| Accounts.DeleteEndsSessions | internal/service/users.go:210-236 | a deletion or a TOTP reset that succeeds ends every session of the account |
| Accounts.InterleavedDemotions | internal/service/users.go:389-400 | two demotions checked on the same table leave nobody |
| Accounts.StepKeeps | internal/service/auth.go:351-431 | one operation keeps the invariant of a run |
| Accounts.ExposedIff | internal/service/users.go:163-182 | over a run, no disabled account ever holds an open session exactly when no update was cut off between disabling and revoking |
| Accounts.RunAll | internal/service/users.go:139-236 | every run: a refresh token is exchanged at most once and never after its session ended; an enabled administrator after every write; Bootstrap at most once; disabled accounts never exposed exactly when no update was cut off, so always on a reliable store |
| Paths.SplitJoin | internal/service/paths.go:109-119 | joining elements without slashes and splitting again gives the elements |
| Paths.CleanAbsolute | internal/service/paths.go:76 | a cleaned absolute path is its elements, none special, and cleaning again changes nothing |
| Paths.CleanStep | internal/service/paths.go:76 | an absolute path followed by a name leads there, followed by `..` to the parent directory, the root being its own, and a dot or a second slash changes nothing: from the root on this determines every cleaned path |
| Paths.CleanRelativeStep | internal/service/context.go:230-233 | the same for relative paths, which may climb above where they start |
| Paths.CleanWord | internal/service/context.go:230-233 | a single word is clean as it is, the empty one becomes a dot |
| Paths.ClimbsIffFirst | internal/service/paths.go:117-118 | the test on the relative path's text sees exactly whether its first element is `..` |
| Paths.WithinIffUnder | internal/service/paths.go:109-119 | for clean paths withinRoot holds exactly when the root's elements are a prefix of the path's |
| Paths.RootCovers | internal/service/paths.go:109-119 | a root given as relative covers nothing |
| Paths.NewPathGuard | internal/service/paths.go:46-56 | keeps the non-blank roots, trimmed and cleaned, in order |
| Paths.Check | internal/service/paths.go:67-93 | accepts exactly the absolute paths whose resolved form, or the text where nothing can be resolved, is or lies beneath a configured directory |
| Paths.ClimbIsRefused | internal/service/paths.go:76-92 | a path that climbs out of the only configured directory to a sibling is refused unless that sibling resolves to something beneath the directory |
| Links.HonestIff | internal/service/paths.go:76-85 | whatever directories are listed, the answer is about the place the path will have exactly when the path exists or its deepest existing ancestor resolves to itself |
| Links.CheckPlace | internal/service/paths.go:67-93 | under that condition Check accepts exactly the paths whose place is or lies beneath a configured directory |
| Links.MissingPathEscapes | internal/service/paths.go:76-85 | beneath a link out of the root, a path that does not exist yet is accepted and lies outside |
| Links.AnchorIs | internal/service/paths.go:78-82 | the deepest ancestor that exists |
| Paths.CheckAll | internal/service/paths.go:96-103 | returns the first refused path |
| Paths.RefusedIff | internal/service/paths.go:96-103 | a list passes exactly when every path in it is permitted |
| Paths.EmptyListRefuses | internal/service/paths.go:42-56 | no configured directory, no mount |
| Paths.SharedPrefixIsOutside | internal/service/paths.go:105-119 | a sibling whose name extends the root's is outside |
| Paths.DottedNameIsInside | internal/service/paths.go:105-119 | a name that begins with two dots is inside |
| BuildContext.MatchesDockerignore | internal/service/context.go:251-261 | an entry is excluded exactly when the last pattern that matches it is not negated |
| BuildContext.MatchMeans | internal/service/context.go:264-294 | element by element: a relative pattern covers a path that it matches as a whole, that lies beneath the directory it names, or, starting with `**`, whose last element the rest matches or which ends with the rest |
| BuildContext.ReadDockerignore | internal/service/context.go:204-239 | the patterns of the lines that are neither blank nor comments, trimmed and cleaned, in order |
| BuildContext.LineMeans | internal/service/context.go:217-234 | whatever white space is around it: a comment and an empty line say nothing, a line with `!` takes back what its pattern covers, any other excludes it |
| BuildContext.ParseAppend | internal/service/context.go:217-234 | patterns come in the order of their lines |
| BuildContext.AllAre | internal/service/context.go:83-96 | the walk comes past everything in the tree and nothing else |
| BuildContext.CleanHasNoTrailingSlash | internal/service/context.go:286-291 | a cleaned pattern ends in a slash only if it is the root |
| BuildContext.NothingBelow | internal/service/context.go:97-103 | nothing below an excluded directory belongs, whatever its own patterns say |
| BuildContext.ItemAdds | internal/service/context.go:83-129 | what one entry adds to the context and to the excluded count, with everything in it |
| BuildContext.Packer.WriteEntry | internal/service/context.go:105-123 | writes and counts one entry in 64 bits; a file the size check refuses is not written |
| BuildContext.Packer.PackItem | internal/service/context.go:83-129 | one entry with everything in it: exactly what belongs, counted, or exactly what comes before the file the size check refuses |
| BuildContext.Packer.Pack | internal/service/context.go:83-129 | the rest of a directory: exactly what belongs, counted, or exactly what comes before the file the size check refuses |
| BuildContext.LimitHoldsIff | internal/service/context.go:109-119 | nothing past the limit is ever written exactly when the total that first exceeds it fits in 64 bits; then all is packed exactly when the total is within the limit |
| BuildContext.OverflowSlipsThrough | internal/service/context.go:109-119 | a one-byte file and one of the largest size pass any limit and leave the counter negative |
| BuildContext.PackTree | internal/service/context.go:81-141 | the walk from the root: exactly what belongs or the part before the refused file, and where the limit can be counted the answer by real sizes |
| BuildContext.WriteBuildContext | internal/service/context.go:54-141 | refused exactly for a climbing name; a completed pack holds exactly the entries with neither they nor an ancestor excluded, counted; a stopped one exactly what comes before the refused file; both by real sizes where the limit can be counted |
| BuildContext.ContainsIff | internal/service/context.go:67-71 | the test on the Dockerfile's name sees exactly whether `../` is somewhere in it |
| BuildContext.ChosenAre | internal/service/context.go:97-103 | an entry is packed exactly when the tree holds it and neither it nor a directory above it is excluded |
| BuildContext.CountsFiles | internal/service/context.go:117-119 | the file count is the number of regular files packed |
| BuildContext.AcceptedNameClimbs | internal/service/context.go:67-71 | an accepted Dockerfile name leaves the context exactly when it cleans to `..` |
| BuildContext.ClimbCheckMisses | internal/service/context.go:67-71 | `..` is accepted and `a../b` refused |
| Mask.MaskMap | internal/audit/mask.go:34-47 | the same keys; a value under a secret-looking key is `***` unless empty, every other is kept |
| Mask.MaskEnv | internal/audit/mask.go:53-72 | the loop over the lines gives the masked lines, cut at the first equals sign |
| Mask.LineMeans | internal/audit/mask.go:53-72 | an entry keeps its key, and its value unless the key looks secret; then it is `***` unless empty |
| Mask.MaskLeaf | internal/audit/mask.go:109-124 | a value under a secret-looking key is reduced to its trace |
| Mask.MaskAny | internal/audit/mask.go:76-105 | the recursion with its loops gives the masked value |
| Mask.LineShows | internal/audit/mask.go:53-72 | two lines mask alike exactly when equal or equal up to the value of a secret-looking key, agreeing on emptiness |
| Mask.MaskHides | internal/audit/mask.go:76-124 | two details mask to the same record exactly when they differ only under secret-looking keys and agree there on unset, empty and list length |
| Mask.MaskTwice | internal/audit/mask.go:76-124 | masking a record again changes nothing |
| Mask.MaskKeepsPaths | internal/audit/mask.go:76-105 | along paths without secret-looking keys the same keys and indices exist and the values are the masked ones |
| Mask.PlainIsKept | internal/audit/mask.go:76-105 | a detail without secret-looking keys and nil maps or lists is recorded as it is |
| Mask.SecretAtAnyDepth | internal/audit/mask.go:76-124 | at the first secret-looking key of any path a record holds null or empty text if that was there, a list of as many `***`, or `***` |

## Left out

- Deploy.Up: image pulls, builds and event emission are not modelled; they fail or change no container.
- Deploy.Admit: the individual checks of a plan (internal/service/stack.go:207-248) are one predicate given by the caller.
- Accounts.Login: the rehash of old password hashes, the last-login time and audit records are not modelled; password and TOTP verification is one given answer.
- Redeploy.Redeploy: a container without a name is not modelled, since the engine gives every container one; the image pull before it changes no container.
- Accounts.RunAll: operations are taken one at a time.
- Sweeping.SweepingIsInvisible: the last-used time of a session is not modelled.
- StatsMux.WaitCanEnd: that the wait ends needs a fair scheduler; the lemma states that an end stays in reach.
- RateLimit.RateBound: over the reals, not over 64-bit floating point.
- Links.HonestIff: a link whose target is missing counts as a name that does not exist.
- Paths.WithinIffUnder: for slash-separated paths; symbolic links are resolved by a parameter that keeps paths absolute and clean.
- Mask.MaskAny: which keys look secret is a parameter instead of the regular expression.
- Shell patterns (path.Match), lower-casing (strings.ToLower), hashing, random tokens, JSON and SQL text are parameters or left out.
- compose-go's parsing and dependency graph: its order is assumed to put dependencies first.
- The Docker client, HTTP routing, the web interface, configuration, backups, template catalog and log decoding, which would add easy members or wrap libraries.
- Down, Pull and the restart sweep of interrupted deploys in internal/service/stackup.go:425-516, 568-622 and 706-720, simpler users of the same calls.
