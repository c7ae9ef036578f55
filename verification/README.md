# robotkernel, modelled and proved in Dafny

robotkernel runs hardware modules. It takes them up and down a ladder of states (init, preop, safeop,
op, with boot and error beside it), respecting what a module depends on and what it excludes, and it
moves process data between modules, prints their logs and triggers them. This project models the parts
of it in which state is changed step by step, by recursion, by interleaved threads or by wrapped
indices, and proves what these parts keep, over every input and every run.

`dafny verify dfyconfig.toml` checks everything.

## How it is built

**State orchestration.** `Ladder` says what one request does to one module as a walk over the rungs,
where user hooks may throw at any call; `Modules` holds `module_base` and `module` as classes whose
fall-through switches are proved to be that walk. `KernelModel` is `kernel::set_state` as a function on
worlds (states, hook calls, every state change made), with the list of callers passed by value;
`Kernel` is the class with the loops, proved equal to it over a heap of modules. The theorems are about
that function: `KernelInit` (requests for init only lower), `KernelMutex` (mutual exclusion),
`KernelRaise` and `KernelPowerUp` (raising, and power-up as a least fixed point), `KernelLower` and
`KernelRuns` (lowering, exactly, and whole runs), `KernelBoot` (requests for boot, with the detour over
init), `KernelReport` (whom power-up reports, whatever happens), `KernelAnswers` (what a request does to
dependencies, unregistered names and a second time), `KernelHidden` (what the list of callers hides),
`KernelResult`, `KernelErrors`, `KernelFence` and
`KernelReturns` (what a normal return means, told from the states before the call), `KernelAsked`,
`KernelBlocked` and `KernelClimbs` (raising with modules in error around). Graphs are as modules
configure them: no module depends on itself, because its constructor refuses that
(src/module.cpp:170-182); where a theorem needs it, it says so (`KernelGraph.NoneOnItself`). The
recursion terminates on every graph, cyclic ones included: `KernelModel.SetState` decreases the tuple
(target is not init, registered modules not among the callers, current module is among the callers).

**Process data.** `Injection` has the layout of a process data definition and the pass of injected
values before a push. `TripleBuffer` is the lock-free buffer as a step system: each load, each
compare-and-swap and each byte stored or copied is a step, a compare-and-swap may fail without cause,
and the index byte may return to an earlier value between a load and its compare-and-swap. Its runs
are proved to be runs of an atomic register that holds everything published. `ProcessData` has the
calls one at a time, with the checks and the retry loops.

**Ring, log, references, triggers.** `CharRingbuffer` is the byte ring in place, against the stream of
all bytes written. `LogPool` is the log pool and its thread as a step system, `LogThread` the object.
`RkTypes` is the shared table of reference counts, and `RkTypesRuns` shows that sharing cannot be
noticed. `TriggerCollector` and `TriggerRegistry` are the collector's rounds and the trigger lists.

## What the code does where one might expect otherwise

- Lowering a module drops only the first dependent that stands above the target, because the caller
  list grows inside the loop (src/kernel.cpp:179) and hides the later ones (src/kernel.cpp:171).
  `KernelRuns.LoweringKeepsDependenciesIff` says exactly when dependencies survive this, for all
  acyclic graphs; `KernelRuns.LoweringLeavesASibling` has two modules sharing a dependency, of which
  one stays in op. If no two modules share a dependency, nothing is ever left standing
  (`KernelRuns.RunKeepsDependencies`).
- `set_state` may return normally without having reached the target: a dependency in error ends it
  early (src/kernel.cpp:145-151), as `KernelReturns.BlockedReturnsAtOnce` shows for every request whose
  first dependency is in error. Whatever the graph, the states and the hooks, a request comes back short
  only if a dependency was in error before the call (`KernelErrors.ShortMeansBlocked`). The converse
  fails: raising one dependency can drop another, which is in error and depends on it, to init and out
  of error (`KernelReturns.ResetOnTheWay`). It holds wherever a dependency in error is out of
  reach of the requests for init that the request sets off, told from the graph and the states before it
  (`KernelReturns.ShortOnlyIfBlocked`, `KernelReturns.ReturnsShortIffBlocked`); in particular where
  nothing healthy stands on the modules in error that a raise may reset
  (`KernelClimbs.AsideStaysBlocked`), and where all dependencies of modules in error are in error and
  none of them is excluded (`KernelReturns.SettledStaysBlocked`).
- The nested request's early return is ignored (src/kernel.cpp:158), so a module can climb above a
  dependency that stayed below because of an error further down (`KernelClimbs.ClimbsOverBlocked`).
  `KernelClimbs.RaisingKeepsDependenciesIff` says which modules a request takes up, which it may reset,
  and exactly when it breaks a dependency that way. It is about acyclic graphs without excludes, and
  about states in which modules that are not in error stand no higher than their dependencies, and
  nothing stands on a module in error that the request may reset but others in error and modules in
  init that it does not ask for.
- Being asked hides what stands on a module: raising a module whose dependency is in init leaves the failed
  module on top of it in error; the same with the dependency already in op drops the failed one to init and
  out of error (`KernelHidden.AskingSparesErrors`, `KernelHidden.NotAskingResetsErrors`).
- The log thread's destructor clears the run flag without the mutex, so it can come between the thread's
  test of that flag and its wait (src/log_thread.cpp:79-80, 154-159). Then its notification is lost and the
  thread ends by the time-out only; `LogPool.StopNeedsNoTimeoutIff` shows that there is no other such case.
- The ring does not always keep as many bytes as fit: a write that passes the end of an exactly full
  ring, whose start is not 0, without filling all of it keeps only its own bytes
  (src/char_ringbuffer.cpp:89). `CharRingbufferRuns.KeepsAllThatFitsIff` shows that this is the only
  such case.
- The state diagram in the repository's README lets boot go to preop directly and has no step from
  safeop to preop. The code has that step (src/module.cpp:335-342), and takes boot to preop through
  init (src/module.cpp:355-371). The model follows the code.
- The message for a refused `pop` or popping `read` reads the consumer's hash even if there is no
  consumer (include/robotkernel/process_data.h:240-242, 281-283). The model gives that case an answer
  of its own, `NoConsumer`, and claims nothing of what happens after it.
- A ring of size 0 can be made, but the loop of a write on it takes nothing and does not end
  (src/char_ringbuffer.cpp:81); `CharRingbuffer.LoopEndsIff` shows that it ends exactly on rings that
  have a size. The ring's only user makes none of size 0 (src/dump_log.cpp:81-86).
- A collector for no slaves leaves its deadline as it was (include/robotkernel/trigger_collector.h:79-83).

## Model

| member | source | states |
|---|---|---|
| Modules.ModuleBase.SetState | src/module_base.cpp:50-144 | the hook ladder, fall-through and exceptions included, does the walk from the state's rung to the target's: hooks, states and result |
| Modules.ModuleBase.RunDown | src/module_base.cpp:64-97 | the downward cases complete the walk to the target, or stop at the rung where a hook threw |
| Modules.ModuleBase.RunUp | src/module_base.cpp:99-133 | the upward cases likewise; leaving boot calls no hook before init_2_preop |
| Modules.ModuleBase.Try | src/module_base.cpp:55-61 | one hook call: the state moves to the hook's end, or stays if the hook throws |
| Modules.Module.SetState | src/module.cpp:293-396 | the request ladder over the hook ladder is one walk; 0 exactly if the target is reached, otherwise -1 |
| Modules.Module.Check | src/module.cpp:307-318 | one checked request is one leg of the walk; a leg that falls short ends it |
| Modules.Module.Lower | src/module.cpp:326-351 | the lowering requests from a regular state make up the whole walk down |
| Modules.Module.Raise | src/module.cpp:364-383 | the raising requests from a regular state make up the whole walk up |
| Modules.Module.FromRegular | src/module.cpp:325-389 | every accepted request from init, preop, safeop or op, boot as a target included |
| LadderProofs.WalkIsPrefix | src/module_base.cpp:50-144 | what a request completes is a prefix of the straight walk; it stops short only because the last hook called threw |
| LadderProofs.StraightVisitsOnce | src/module_base.cpp:63-133 | the straight walk is monotone and has each hook at most once |
| LadderProofs.WalkInLegs | src/module.cpp:325-389 | driving a module in several requests does the same as one request for the last of them |
| LadderProofs.DriveWalks | src/module.cpp:293-396 | an accepted request completes a prefix of the straight walk, all of it exactly if it succeeds |
| LadderProofs.DriveLands | src/module.cpp:293-396 | the hooks completed lead from the old rung to the one the state names; success means being at the target |
| LadderProofs.DriveEnds | src/module.cpp:293-396 | success exactly if the module ends at the target; a failure ends on a rung of the ladder |
| LadderProofs.RunIsOneWalk | src/module.cpp:293-396 | over any run of requests with any hooks throwing, the completed hooks form one continuous walk that ends at the state's rung |
| KernelModel.GrownMeasure | src/kernel.cpp:157-158 | pushing the module onto the callers leaves the measure's second part alone or shrinks it |
| KernelModel.PushMeasure | src/kernel.cpp:157-180 | the nested request for a module not yet called is smaller in the measure, on any graph |
| Kernel.Kernel.SetState | src/kernel.cpp:121-212 | the recursive method terminates on any graph and is the function KernelModel.SetState on the modules' states, hook calls and steps |
| Kernel.Kernel.Finish | src/kernel.cpp:136-211 | the three loops in order, ended early by a return or an exception |
| Kernel.Kernel.RaiseDepends | src/kernel.cpp:137-160 | the loop over the dependencies, with its growing list of callers |
| Kernel.Kernel.DropDependents | src/kernel.cpp:163-186 | the loop over the module map |
| Kernel.Kernel.Depends | src/kernel.cpp:169-185 | the inner loop finds out whether a module depends on the one moved and stands above the target |
| Kernel.Kernel.DropExcludes | src/kernel.cpp:188-201 | the loop over the excludes |
| Kernel.Kernel.Move | src/kernel.cpp:203-211 | the module's own request, and an exception exactly if it answers -1 |
| Kernel.Kernel.PowerUp | src/kernel.cpp:711-757 | power_up over the map, with the modules it reports as failed |
| Kernel.Kernel.PowerUpModule | src/kernel.cpp:719-742 | one module's turn: reported in error, skipped, or requested |
| Kernel.Kernel.PowerDown | src/kernel.cpp:760-774 | power_down over the map, exceptions swallowed |
| KernelResult.ReturnMeansReachedOrBlocked | src/kernel.cpp:121-212 | any graph, any states, any hooks: a normal return means the target is reached or a dependency is in error afterwards |
| KernelErrors.SetStateNoNewErrors | src/kernel.cpp:121-212 | no request takes a module into error: any graph, states, hooks, target and callers, failing requests included |
| KernelErrors.ShortMeansBlocked | src/kernel.cpp:139-151 | a request that returns short of its target was not one for init, and a dependency was in error before the call; no hypothesis on the graph, the states or the hooks |
| KernelErrors.ReachesWithoutErrors | src/kernel.cpp:121-212 | without a dependency in error, a request that returns has reached its target; where nobody is in error, nobody gets there |
| KernelFence.SetStateKeeps | src/kernel.cpp:121-212 | how far a request spreads, at every step, failing or not: two sets of modules, to raise and to lower, closed under the rules by which it asks for others, are all it moves; where it has come back, each is where it was, in init, or, unless a dependency in error is in its way, at the target |
| KernelFence.RaiseKeeps | src/kernel.cpp:137-160 | the same for the dependency loop, which does not get past a dependency in error that is not to be lowered |
| KernelReturns.SetStateRests | src/kernel.cpp:137-201 | a request that returns leaves its callers where they were or in init |
| KernelReturns.SetStateCompletes | src/kernel.cpp:121-212 | on any graph as configured, with all names registered, only a throwing hook makes a request throw, unless the module is itself in error |
| KernelReturns.ShortOnlyIfBlocked | src/kernel.cpp:137-160 | any graph, hooks and states: a dependency in error out of the request's reach keeps it from its target, and a request is short of it only if a dependency was in error before the call |
| KernelReturns.ReturnsShortIffBlocked | src/kernel.cpp:145-151 | where that is so whenever the module is blocked: a request that returns is short of its target if and only if a dependency was in error before the call; and it returns if nothing throws |
| KernelReturns.SettledStaysBlocked | src/kernel.cpp:139-186 | it is so, on any graph, where the dependencies of modules in error are in error and none of them is excluded |
| KernelReturns.SettledErrorsStay | src/kernel.cpp:121-212 | there, a request for a module not in error takes nobody into error and nobody out of it |
| KernelReturns.BlockedReturnsAtOnce | src/kernel.cpp:145-151 | the failing inputs: with the first dependency in error the request returns at once, having changed nothing |
| KernelReturns.ResetOnTheWay | src/kernel.cpp:137-186 | a module with a dependency in error that reaches its target all the same, because raising its other dependency resets the one in error |
| KernelBlocked.SetStateRisen | src/kernel.cpp:137-211 | with modules in error around, every step takes up a module that was asked for and is not blocked, after everything further down, or resets one in error on top of such; a request that returns has done all the raising |
| KernelBlocked.DropRisen | src/kernel.cpp:163-186 | raising drops nobody but modules in error on top of what goes up, and does no more to them than reset them |
| KernelClimbs.RaisingKeepsDependenciesIff | src/kernel.cpp:137-211 | a request that returns has taken to the target exactly the modules asked for and not blocked, and at most reset modules in error on top of them; dependencies are kept if and only if none that goes up depends on a blocked one that would have to; if so, they are kept at every step, through any failure |
| KernelClimbs.RaisingStaysConsistentIff | src/kernel.cpp:137-211 | the same where modules in error stand above nothing else: nothing is reset, and no module whatever stands above a dependency, if and only if |
| KernelClimbs.AsideStaysBlocked | src/kernel.cpp:139-186 | on any graph without excludes and for such states: a blocked module's request is short of its target |
| KernelClimbs.FailedInTheMiddle | src/kernel.cpp:145-151 | a failed module between one in init and one in any state of the ladder meets these conditions and stays in the way |
| KernelClimbs.ClimbsOverBlocked | src/kernel.cpp:158-158 | three modules in a row, the last in error: the first ends in op above the second in init |
| KernelResult.MoveReaches | src/kernel.cpp:206-211 | a module's own request returns exactly if it was accepted and ends at the target |
| KernelInit.SetStateInitLowers | src/kernel.cpp:121-212 | a request for init, nested ones included, moves modules only down, on any graph; it fails only by a hook or an unregistered name |
| KernelInit.PowerDownReachesInit | src/kernel.cpp:760-774 | power_down only lowers, and leaves every module in init if no hook throws and all names are registered, also on cyclic graphs |
| KernelInit.PowerDownAsksAll | src/kernel.cpp:760-774 | whatever was thrown for others before, every module is asked, and whoever's own request does not throw then ends in init |
| KernelInit.DropDependentsLowers | src/kernel.cpp:163-186 | dropping dependents only lowers modules |
| KernelMutex.SetStateExclusive | src/kernel.cpp:121-212 | no step of a request, failing ones included, puts two mutually excluding modules outside init, on any dependency graph |
| KernelMutex.RaiseDependsExclusive | src/kernel.cpp:137-160 | the same for raising dependencies |
| KernelMutex.DropExcludesClears | src/kernel.cpp:188-201 | once the loop is through, everything the module excludes is in init |
| KernelRuns.RunKeepsExclusion | src/kernel.cpp:121-212 | mutual exclusion at every step of every run of requests |
| KernelRaise.SetStateRaises | src/kernel.cpp:137-211 | raising keeps every module at or below its dependencies at each step, through any failure; the module itself moves last |
| KernelRaise.RaiseDependsReady | src/kernel.cpp:137-160 | after the loop every registered dependency is at the target or above |
| KernelRaise.DropNobody | src/kernel.cpp:163-186 | raising in a consistent state drops nobody |
| KernelPowerUp.RaiseIsExact | src/kernel.cpp:137-211 | a successful raise lifts exactly the module and its transitive dependencies below the target, to the target |
| KernelPowerUp.PowerUpClimbs | src/kernel.cpp:711-757 | whatever fails, power_up keeps dependencies at each step, raises nothing more than needed, and meets the target of every module it does not report |
| KernelPowerUp.PowerUpIsLeast | src/kernel.cpp:711-757 | with all hooks passing it ends in the least state vector above start and targets that breaks no dependency |
| KernelPowerUp.PowerUpIgnoresOrder | src/kernel.cpp:716-742 | the order of the module map does not matter to where it ends |
| KernelReport.ReportsExactly | src/kernel.cpp:711-757 | any graph, states and hooks: power_up reports exactly the modules in error at their turn and those whose request throws, each once, and nobody ends in error unreported |
| KernelReport.TurnIs | src/kernel.cpp:719-742 | a module in error is reported and its turn changes nothing; one that is not reported met its target at its turn or had a dependency in error |
| KernelLower.DropsFirstAbove | src/kernel.cpp:163-186 | the loop drops the first dependent above the target and no other |
| KernelLower.RaiseNobody | src/kernel.cpp:137-160 | lowering in a consistent state raises nobody |
| KernelLower.SetStateDrops | src/kernel.cpp:121-212 | lowering takes down one chain of dependents, farthest first, each link after all links further out; success means all of it |
| KernelRuns.LoweringKeepsDependenciesIff | src/kernel.cpp:163-211 | a successful lowering request moves exactly the chain, and dependencies hold afterwards if and only if the chain is all that had to go down |
| KernelRuns.SingleFile | src/kernel.cpp:163-186 | if no two modules share a dependency, the chain is all that has to go down |
| KernelRuns.RequestStaysGood | src/kernel.cpp:121-212 | then any one request keeps dependencies at every step |
| KernelRuns.RunKeepsDependencies | src/kernel.cpp:121-212 | and so does every run of requests, with any hooks throwing |
| KernelRuns.LoweringLeavesASibling | src/kernel.cpp:171-180 | with a shared dependency a successful request leaves a dependent in op above it |
| KernelBoot.BootDropsTheChain | src/kernel.cpp:132-211 | a request for boot in a consistent state, on an acyclic graph without excludes: at every step, through any failure, the module has not moved or the chain of dependents above it is in init; if it returns, the module is in boot over a chain in init; only a hook or an unregistered name makes it throw |
| KernelBoot.BootLeavesNobodyAbove | src/kernel.cpp:132-186 | where the chain is all that stands above, in particular where no two modules share a dependency: the module has not moved, or nobody who depends on it, directly or not, is outside init |
| KernelAnswers.DependenciesAnswer | src/kernel.cpp:137-160 | any graph, any hooks: when a request returns that no error was in the way of, each dependency that was below the target or in boot has been taken to the target, unless it was dropped to init since or an error further down kept it back |
| KernelAnswers.UnregisteredThrows | src/kernel.cpp:141-193 | an unregistered name among the dependencies, or among the excludes for targets other than init, makes the request throw, unless a dependency in error ends it before |
| KernelAnswers.AskedAgain | src/kernel.cpp:129-130 | a request that was met changes nothing when it is repeated |
| KernelHidden.AskingSparesErrors | src/kernel.cpp:157-176 | a failed module on top of one that has asked for a dependency stays in error |
| KernelHidden.NotAskingResetsErrors | src/kernel.cpp:153-180 | with the dependency in op already, the failed module is dropped to init |
| KernelHidden.CallersAreNotExcluded | src/kernel.cpp:188-191 | a module on whose behalf another is raised is not dropped by that one's exclusion |
| KernelHidden.DropsInOrder | src/kernel.cpp:162-211 | dependents go down first, then what is excluded, and the module moves last |
| Injection.FindOffsetAndType | src/process_data.cpp:163-195 | the loop computes the offset and type of a field, or the error it throws |
| Injection.FindIff | src/process_data.cpp:172-191 | a field is found exactly if its first occurrence follows sized fields only, at the sum of their sizes |
| Injection.MissesIff | src/process_data.cpp:164-193 | exactly when the walk throws which error: no definition, an unlisted type on the way, or no such field |
| Injection.OffsetsInBytes | src/process_data.cpp:34-53 | a definition with one field of each type: every field's offset in bytes and its type, literally; a field behind an unlisted type is not found |
| Injection.FieldsApart | src/process_data.cpp:174-191 | fields found under different names do not overlap |
| Injection.FieldInBounds | src/process_data.cpp:174-191 | and lie within the size of the definition |
| Injection.Injections.AddInjection | include/robotkernel/process_data.h:170-173 | a new injection replaces an older one to the same field |
| Injection.Injections.InjectVal | src/process_data.cpp:251-270 | one typed store writes the value's bytes at the offset and nothing else |
| Injection.Injections.InjectAll | src/process_data.cpp:110-122 | the loop initialises and stores the injections up to the first that cannot be resolved, whose error it throws |
| Injection.SmallDefinitionFits | src/process_data.cpp:172-191 | if the whole definition fits into the buffer, so does every field that is injected into |
| Injection.PatchesApart | src/process_data.cpp:163-195 | the injected intervals are pairwise disjoint and in bounds |
| Injection.StoresOverlay | src/process_data.cpp:251-270 | byte stores of disjoint values, in any order, make one simultaneous overlay |
| Injection.PatchesOverlay | src/process_data.cpp:110-122 | the pass over the injections is that overlay |
| Injection.OrderIsIrrelevant | src/process_data.cpp:110-122 | the order of the injection map does not matter to the bytes |
| TripleBuffer.SwapFrontExchanges | src/process_data.cpp:529-532 | the bit formula exchanges front and flip, keeps back, clears the flag and keeps a permutation |
| TripleBuffer.SwapBackExchanges | src/process_data.cpp:542-546 | the bit formula exchanges back and flip, keeps front, sets the flag and keeps a permutation |
| TripleBuffer.StartSimulates | src/process_data.cpp:374-383 | the initial buffer is a register that holds zeros |
| TripleBuffer.CasBackSimulates | src/process_data.cpp:538-549 | a compare-and-swap of swap_back publishes the back buffer or does nothing, after any interference |
| TripleBuffer.CasFrontSimulates | src/process_data.cpp:522-535 | a compare-and-swap of swap_front takes the newest version or does nothing |
| TripleBuffer.StepSimulates | src/process_data.cpp:409-549 | every atomic step of either thread is a step of the register or none |
| TripleBufferRuns.RunRefinesRegister | src/process_data.cpp:409-549 | every interleaving, with spurious failures and reused index values, is a run of the atomic register |
| TripleBufferRuns.ReadsAreNotTorn | src/process_data.cpp:472-492 | what is copied out equals a slice of one published content, the newest at the last take |
| TripleBufferRuns.SwapTakes | src/process_data.cpp:522-535 | the loop of swap_front is left only by taking |
| TripleBufferRuns.PopYieldsNewest | src/process_data.cpp:472-492 | within every popping read there is a moment at which it takes; it delivers the bytes asked for of the version newest at that moment, no older than the newest at its start |
| TripleBufferRuns.PlainReadYieldsHeld | src/process_data.cpp:472-492 | a read without pop delivers the version held when it began, whatever is published meanwhile |
| TripleBufferRuns.PushPublishesOnce | src/process_data.cpp:427-430 | a push that is not given up publishes exactly once before it ends: its patches over what the back buffer held when it began |
| TripleBufferRuns.VersionsNeverGoBack | src/process_data.cpp:522-535 | the version the consumer holds never goes backwards and nothing published changes |
| TripleBufferRuns.HoldsWhatItTook | src/process_data.cpp:505-508 | between takes the consumer stays with the version it took |
| TripleBufferRuns.EachToItsOwn | src/process_data.cpp:505-549 | only the consumer turns front, only the producer turns back, and they never work on one buffer |
| TripleBufferRuns.SwapBackRetriesOnce | src/process_data.cpp:538-549 | swap_back is retried for cause at most once, however the consumer is scheduled |
| TripleBufferRuns.FullWriteIsPushed | src/process_data.cpp:445-463 | a full write followed by a push pushes exactly the bytes written, with the consumer in between |
| TripleBufferRuns.PublishedIsOverlay | src/process_data.cpp:427-430 | published content is the back buffer with the patches laid over it |
| TripleBufferRuns.InjectionsArePublished | src/process_data.cpp:103-128 | it carries every registered injection, and otherwise exactly the provider's bytes |
| ProcessData.TripleBufferData.constructor | src/process_data.cpp:373-383 | a new buffer holds zeros and nothing new |
| ProcessData.TripleBufferData.SetProvider | src/process_data.cpp:206-214 | a provider is registered unless there is another one |
| ProcessData.TripleBufferData.SetConsumer | src/process_data.cpp:227-234 | a consumer is registered unless there is another one |
| ProcessData.TripleBufferData.CompareExchangeWeak | src/process_data.cpp:533-534 | stores the new indices exactly if the expected ones are there and it does not fail spuriously; always reports what it saw |
| ProcessData.TripleBufferData.SwapToFront | src/process_data.cpp:522-535 | after any number of spurious failures the consumer holds the newest version |
| ProcessData.TripleBufferData.SwapToBack | src/process_data.cpp:538-549 | the back buffer's content becomes the newest version |
| ProcessData.TripleBufferData.Push | src/process_data.cpp:427-430 | refused, or ended by a failing injection with nothing published, or published with all injections laid over the back buffer |
| ProcessData.TripleBufferData.Write | src/process_data.cpp:445-463 | refused or out of range with nothing changed, else the bytes are in the back buffer, and pushed if asked, with what the push does to the injections and the cookie |
| ProcessData.TripleBufferData.Pop | src/process_data.cpp:409-421 | refused, or the consumer's buffer is the newest version |
| ProcessData.TripleBufferData.Read | src/process_data.cpp:472-492 | refused or out of range, else bytes of the newest version or of the one held |
| ProcessData.TripleBufferData.NewData | src/process_data.cpp:495-502 | the flag is set exactly if something was published that was not taken |
| ProcessData.WriteThenRead | src/process_data.cpp:445-492 | a write that pushes, followed by a read that pops, gives back the bytes written, whatever was published before and however often the compare-and-swaps fail |
| ProcessData.LaidIs | src/process_data.cpp:453-455 | the bytes written can be read back at their offset, and all others are as they were |
| CharRingbuffer.CharRingbuffer.constructor | src/char_ringbuffer.cpp:38-49 | a new ring of any size is empty |
| CharRingbuffer.CharRingbuffer.SetSize | src/char_ringbuffer.cpp:61-73 | resizing empties the ring, or changes nothing if there is no memory |
| CharRingbuffer.CharRingbuffer.Write | src/char_ringbuffer.cpp:75-107 | a write of any length, over any number of wraps, terminates and leaves the last bytes of what was held and written, as many as Kept says |
| CharRingbuffer.CharRingbuffer.WriteRest | src/char_ringbuffer.cpp:95-106 | the part after the loop moves the read position only as far as bytes were overwritten |
| CharRingbuffer.CharRingbuffer.Get | src/char_ringbuffer.cpp:121-140 | returns what is held, oldest first, and empties the ring unless told to keep |
| CharRingbuffer.CharRingbuffer.HasData | src/char_ringbuffer.cpp:142-144 | true exactly if something is held |
| CharRingbuffer.CharRingbuffer.GetDataLen | src/char_ringbuffer.cpp:146-155 | the length of what is held |
| CharRingbuffer.LoopEndsIff | src/char_ringbuffer.cpp:81-94 | the wrap loop ends, after some number of turns, if and only if the ring has a size |
| CharRingbuffer.TurnKeeps | src/char_ringbuffer.cpp:81-94 | one turn of the wrap loop, and the one case in which it drops too much |
| CharRingbuffer.WriteKeeps | src/char_ringbuffer.cpp:81-106 | all turns together leave the last bytes of what was held and written |
| CharRingbufferRuns.GetsTheEndOfTheStream | src/char_ringbuffer.cpp:75-140 | over any calls, get returns a suffix of what was written since the ring was last emptied, and all of it while it fits |
| CharRingbufferRuns.LastWriteIsKept | src/char_ringbuffer.cpp:81-155 | at every moment at least the last write, as far as it fits, is held, and never more than the size |
| CharRingbufferRuns.KeepsAllThatFitsIff | src/char_ringbuffer.cpp:81-106 | a write leaves as many bytes as fit if and only if it is not of the kind that drops too much; then it leaves its own |
| CharRingbufferRuns.HoldsAllThatFits | src/char_ringbuffer.cpp:75-140 | without such writes the ring always holds as much of the stream as fits |
| CharRingbufferRuns.AlwaysHoldsAllIff | src/char_ringbuffer.cpp:75-140 | over any calls: the ring holds as much as fits after every one of them if and only if no such write is among them |
| CharRingbufferRuns.TwoOfFourRemain | src/char_ringbuffer.cpp:89-94 | a run of two writes after which a ring of 4 holds 2 |
| LogPool.StepConserves | src/log_thread.cpp:101-134 | every step keeps every object in exactly one place |
| LogPool.StepStrandsNone | src/log_thread.cpp:126-134 | every step keeps the flag set for a waiting thread with messages queued |
| LogPool.StepOrders | src/log_thread.cpp:162-237 | every step keeps printed plus pending texts equal to the texts logged |
| LogPool.LogsInOrderAndStrandsNone | src/log_thread.cpp:101-239 | over all interleavings: objects conserved, texts printed in the order and as logged, no message stranded |
| LogPool.PrintsEverything | src/log_thread.cpp:147-239 | left alone in any reachable state the thread prints all that was logged, without needing a timeout, within a bound |
| LogPool.NoCallLosesItsText | src/log_thread.cpp:120-135 | over all interleavings, told from the calls alone: the texts handed to log in synchronous mode are what log has printed itself, in order and as they stood then; all others are printed by the thread or pending, in order; no call is missing |
| LogPool.PoolIsFifo | src/log_thread.cpp:101-237 | over all interleavings the pool of empty objects is first in, first out |
| LogPool.ComesToRest | src/log_thread.cpp:154-239 | left alone, the thread waits after a stated number of steps, its flag down and everything logged printed |
| LogPool.StartedThreadPrints | src/log_thread.cpp:147-239 | over all interleavings: a thread started, and not stopped since, will have printed everything logged |
| LogPool.StoppedThreadFinishes | src/log_thread.cpp:154-239 | a stopped thread finishes within a stated number of steps, and what is printed and still queued is all that was logged |
| LogPool.StopNeedsNoTimeoutIff | src/log_thread.cpp:79-159 | a stopped thread ends up in a wait that only the time-out ends if and only if it was stopped between its two tests with its flag down |
| LogThread.LogThread.constructor | src/log_thread.cpp:61-74 | a new pool has all objects empty |
| LogThread.LogThread.GetPoolObject | src/log_thread.cpp:101-112 | takes the first empty object, or none if there is none |
| LogThread.LogThread.ReturnPoolObject | src/log_thread.h:75-77 | puts an object back unprinted |
| LogThread.LogThread.Log | src/log_thread.cpp:120-134 | prints at once in synchronous mode, else queues the object and raises the flag, notifying if it was down |
| LogThread.LogThread.Check | src/log_thread.cpp:154-154 | the thread finishes, or goes on to the test of the wake-up flag |
| LogThread.LogThread.Test | src/log_thread.cpp:157-163 | the thread waits, or takes the flag down and drains |
| LogThread.LogThread.Drain | src/log_thread.cpp:165-168 | takes the first queued object, or ends the drain |
| LogThread.LogThread.PutBack | src/log_thread.cpp:236-237 | returns the printed object |
| LogThread.LogThread.PrintOne | src/log_thread.cpp:165-238 | the message at the head of the queue, and no other, is printed as it was when queued, whatever other threads do while the mutex is free |
| LogThread.LogThread.TurnAmongLoggers | src/log_thread.cpp:154-238 | one turn with other threads doing anything at every unlock: with the flag set it ends with the queue empty and everything printed that was logged until then |
| LogThread.LogThread.Turn | src/log_thread.cpp:154-238 | with nobody else at the pools: the whole queue printed in order and its objects returned in order; without the flag the thread waits |
| RkTypes.DestroyGood | include/robotkernel/rk_type.h:54-74 | letting go of a handle keeps the counts and deletes a payload with its last handle only |
| RkTypes.CopyGood | include/robotkernel/rk_type.h:135-138 | copying keeps the counts |
| RkTypes.BuildGood | include/robotkernel/rk_type.h:124-129 | a new payload, at a new or reused address, keeps the counts |
| RkTypes.AssignIs | include/robotkernel/rk_type.h:144-149 | assignment by value is a copy, a release, a gain and a release; self-assignment included |
| RkTypes.AssignGood | include/robotkernel/rk_type.h:144-149 | assignment keeps the counts |
| RkTypes.StepGood | include/robotkernel/rk_type.h:54-149 | every operation keeps: counts equal live handles, types and deleters match, each payload deleted at most once, the branch that should not happen not taken |
| RkTypesRuns.StepIsByValue | include/robotkernel/rk_type.h:102-149 | every operation acts on what handles read as if nothing were shared |
| RkTypesRuns.ProgramIsByValue | include/robotkernel/rk_type.h:102-149 | so does every program |
| RkTypesRuns.BooksBalance | include/robotkernel/rk_type.h:54-149 | over any program from nothing: counts, single deletion by the payload's own deleter, values as built, and no payload left without a handle |
| RkTypesRuns.CastsAnswerWhatWasGiven | include/robotkernel/rk_type.h:102-163 | over any program, told from its operations alone: a cast of a handle that last came from a value answers its content for its type and refuses all others; one from the default constructor has nothing to give for int and refuses all others |
| RkTypesRuns.RkHeap.DecreaseReference | include/robotkernel/rk_type.h:54-74 | the method is the function Decrease on the heap |
| RkTypesRuns.RkHeap.IncreaseReference | include/robotkernel/rk_type.h:76-89 | the method is the function Increase on the heap |
| RkTypesRuns.RkHeap.SetHandleValue | include/robotkernel/rk_type.h:91-98 | releases the old payload, then gains the new one, unless they are the same |
| RkTypesRuns.RkHeap.ConstructDefault | include/robotkernel/rk_type.h:102-103 | a null handle |
| RkTypesRuns.RkHeap.Construct | include/robotkernel/rk_type.h:124-129 | a handle to a new payload |
| RkTypesRuns.RkHeap.CopyConstruct | include/robotkernel/rk_type.h:135-138 | a handle to the same payload |
| RkTypesRuns.RkHeap.AssignFrom | include/robotkernel/rk_type.h:144-149 | assignment through the by-value parameter, which is destroyed at the end |
| RkTypesRuns.RkHeap.Destruct | include/robotkernel/rk_type.h:106-111 | releases the handle's payload |
| RkTypesRuns.RkHeap.CastHandle | include/robotkernel/rk_type.h:155-163 | wrong type, no value, or the payload's content |
| TriggerCollector.TriggerCollector.constructor | include/robotkernel/trigger_collector.h:66-67 | all slaves active, no round running |
| TriggerCollector.TriggerCollector.Reinit | include/robotkernel/trigger_collector.h:71-84 | starts over with another number of slaves |
| TriggerCollector.TriggerCollector.SetActiveMask | include/robotkernel/trigger_collector.h:86-90 | sets as many entries as are given and exist |
| TriggerCollector.TriggerCollector.TriggerCollect | include/robotkernel/trigger_collector.h:92-113 | the callback fires exactly if every active slave has reported in the running round, stated over the history of calls |
| TriggerCollector.TriggerCollector.CheckAll | include/robotkernel/trigger_collector.h:105-109 | the loop finds out whether every active slave has a time stamp |
| TriggerCollector.FiresOncePerRound | include/robotkernel/trigger_collector.h:111-112 | no call before the last of a round fired in it |
| TriggerCollector.RoundsAreDisjoint | include/robotkernel/trigger_collector.h:94-112 | a later round starts after every earlier callback, so no report is used twice |
| TriggerCollector.ReportsAreClose | include/robotkernel/trigger_collector.h:94-101 | all reports of a round lie within the timeout of each other |
| TriggerRegistry.KeysAreOrdered | src/trigger_worker.cpp:36-53 | by priority, then affinity, then divisor; strict and total, and equivalent keys are equal |
| TriggerRegistry.AddValid | src/trigger.cpp:63-82 | adding keeps every worker non-empty, at its key's divisor and once in the list |
| TriggerRegistry.AddAdds | src/trigger.cpp:63-82 | afterwards the trigger is once more in the device's list, or once in the list of its key's worker, behind what was there; nothing else moves; a second registration with the worker throws and changes nothing |
| TriggerRegistry.RemoveUndoesAdd | src/trigger.cpp:63-104 | removing undoes adding, down to the worker created for the trigger |
| TriggerRegistry.RemoveValid | src/trigger.cpp:87-104 | removing keeps that too |
| TriggerRegistry.RemoveRemoves | src/trigger.cpp:87-104 | the trigger is gone from everywhere, exactly the workers left with nothing are gone, all else is as often listed as before |
| TriggerRegistry.RegistryStaysValid | src/trigger.cpp:63-104 | the registry is in order over any adds and removes |
| TriggerRegistry.TicksOfOne | src/trigger.cpp:136-142 | an entry listed once is counted once in a round |
| TriggerRegistry.TicksEveryDivisor | src/trigger.cpp:133-143 | an entry with divisor d and counter c ticks floor((c + n) / d) times in n rounds |
| TriggerRegistry.TicksAfterAdd | src/trigger.cpp:63-143 | n rounds after a trigger with divisor d was added tick its new worker n / d times; a direct trigger, or a worker that was there, goes on from its counter |
| TriggerRegistry.OthersTickAsBefore | src/trigger.cpp:63-143 | whoever was listed once ticks on in the same way |
| TriggerRegistry.NoTicksAfterRemove | src/trigger.cpp:87-143 | a removed trigger does not tick, nor does a worker it left with nothing |
| TriggerRegistry.CountersStay | src/trigger.cpp:63-104 | no run of adds and removes touches the counter of an object that was there before |
| TriggerRegistry.TicksInOrder | src/trigger.cpp:133-143 | one round ticks those that come round, in the order of the list |
| TriggerRegistry.TriggerDevice.AddTrigger | src/trigger.cpp:63-82 | direct, to an existing worker, or to a new one; a second registration with a worker throws and changes nothing |
| TriggerRegistry.TriggerDevice.RemoveTrigger | src/trigger.cpp:87-104 | the loop over the workers, in any order, removes what Remove says |
| TriggerRegistry.TriggerDevice.DoTrigger | src/trigger.cpp:133-143 | the loop counts and ticks every entry of the list |

## Left out

- Modules that change state on their own (error detected), `add_depends` and `remove_depends` at run time, and modules whose shared object is missing or lacks a function: the graph is fixed and every module runs the hook ladder.
- Threads calling `set_state` at the same time: `set_state` itself takes no lock on the module map.
- Modules.ModuleBase.SetState: requests for error made directly on a `module_base` assign the state without hooks; the model does the same and claims nothing more for them.
- KernelRuns.RunKeepsDependencies: assumes that no two modules share a dependency, because the property is false otherwise; `LoweringKeepsDependenciesIff` has the exact condition.
- KernelPowerUp.PowerUpIsLeast: for acyclic graphs without excludes and for states on the operational ladder; boot and error have no place in that order.
- Weak memory orders: loads and compare-and-swaps are sequentially consistent, although the code asks for consume, release and relaxed order.
- `triple_buffer::peek`, which hands out the flip buffer, and `read` without pop by anybody but the consumer: neither is protected against the producer.
- Single and pointer buffers, `reset_provider`, `reset_consumer`, the two hash fields of provider and consumer objects, and the trigger devices fired after a push or pop.
- `del_injection`, which erases nothing that is there (include/robotkernel/process_data.h:180).
- Number parsing in injected values is a parameter; so are the type and offset that a failed conversion leaves in an entry that is still uninitialised.
- Injections into fields beyond the end of the buffer, negative offsets, and 32-bit overflow of write positions and string lengths are excluded by preconditions; so is a write on a ring of size 0.
- The locks of the ring: its calls are taken one at a time; `has_data` and `get_data_len` read without the lock.
- `return_pool_object` changes a list without the mutex; it is one step here. Printing (time stamp, level, colours, padding), what the destructor of the log thread prints itself and the tracing outputs are left out.
- Payloads that contain handles themselves, such as a vector of `rk_type`: deleting one would release the handles in it.
- KernelReturns.ReturnsShortIffBlocked: for modules whose dependency in error the request cannot reset; where it can, `ShortOnlyIfBlocked` has one direction, and whether a request is short depends on the order of the module map and of the lists of dependencies.
- KernelClimbs.RaisingKeepsDependenciesIff: for states in which nothing that is above init or asked for stands on a module in error that the request may reset; elsewhere the reset lowers what stands on it, by the loop that `KernelRuns` is about, and leaves siblings as that does.
- LogThread.LogThread.Turn: takes the turn without other threads; `TurnAmongLoggers` has them act at every unlock.
- `rk_type_cast`, `to_string` and the default `std::function` of a null handle.
- A collector that was default-constructed and not yet initialised: it has a count of -1 and no deadline.
- Rounding of time stamps: the collector's clock is real and positive; only the bound on the distance of reports needs it not to go back.
- The worker threads behind `trigger_worker::tick`: a notification may come while the worker is busy, so only calls of `tick` are counted. `trigger::wait` and `set_rate` are left out.
- Bridges, services, the device and listener registry, dynamic loading, YAML and template handling, configuration, thread priorities and affinities, tracing, `main` and the C wrapper: input and output, foreign code or bookkeeping.
