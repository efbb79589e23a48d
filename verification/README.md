# Verification of toph

toph translates Go programs into networks of Uppaal automata, so that Uppaal can check channels, mutexes and wait
groups for misuse and deadlocks. This project models the parts of toph on which the meaning of these networks rests,
and proves what they are for.

- **Resource automata** (`ChannelAutomaton`, `ChannelNetwork`, `ChannelInvariant`, `ChannelSafety`, `ChannelTheorems`,
  `ChannelLedger`, `ChannelProgress`, `ChannelExample`, `GoChannels`, `ChannelRefinement`, `ChannelCompleteness`, `Mutexes`,
  `WaitGroups`). Channels, mutexes and wait groups are transition systems over any number of resources and goroutines. One
  inductive invariant ties the single counter of a channel to buffered values, blocked senders and blocked receivers. Every
  stretch between two configurations without committed locations performs the statement that its first step starts, as the
  Go Programming Language Specification has it, and every statement that Go allows can be started and performed in this way.
- **State elimination** (`UppaalGraphs`, `ReducerSteps`, `ReducerForward`, `ReducerBackward`, `ReducerPass`,
  `ReducerConditions`, `ReducerContexts`, `ReducerExample`, `TranslatedGraphs`, `OptimizedNetworks`; on the heap
  `UppaalProcess`, `StateReducer`, `ProcessReducers`, `Decimals`). A network of processes with handshakes and committed
  locations has an explicit step semantics. Removing a location is compared with keeping it: what is never lost, what may
  be gained, and exactly when nothing is.
- **Call graph analysis** (`FuncGraphs`, `SccInvariant`, `SccSearches`, `CallGraphs`, `PanicAnalysis`, `CallTrees`,
  `CallCounts`, `BodyCounts`, `Saturation`, `CallsInfos`, `ProgramCounts`, `CostsReached`, `Allocators`). Strongly connected
  components, panic propagation and saturating counts, down to the statement that tables sized by the counts never overflow; and
  where nothing leaves a function early, its counts are reached by some run.
- **Structured statements** (`IrBodies`, `TraceLaws`, `ControlFlow`, `ControlFlowFacts`, `ControlFlowSound`,
  `ControlFlowComplete`, `FunctionPaths`, `Translator`). The translation of if, switch, select, loops, branch statements and
  returns into a flat automaton has exactly the traces of the statements, and `TraceLaws` says for each kind of statement what
  these traces are in terms of its parts.
- **Deferred calls and panics** (`DeferredCalls`), **dead code elimination** (`DeadCode`, `EarlyReturns`,
  `DeadCodeEliminator`) and the **topological order of types** (`TypeGraphs`).

Objects that the program updates in place are classes here, and each of their methods is proved against a function of
the old state; the properties are then proved about these functions. Protocols are state machines over steps, and their
properties hold for all runs. Committed locations follow Uppaal: while any process is at one, the next step has to
involve a process that is. A handshake evaluates both guards first, then the update of the emitting side, then that of
the receiving side.

`dafny verify dfyconfig.toml` checks the whole project.

## Findings

- **The state reducer can add reachable configurations** (uppaal/optimizer/states_reducer.go:40-153). It removes a
  location between two edges without asking whether a partner is committed in between. `ReducerExample.RemovalCanAddConfigurations`
  gives a network in which the reducer removes a location `m` and a configuration at rest becomes reachable that was not:
  process 0 is `a -x?-> m -> b -y?-> d`, process 1 is `s -x!-> t -y!-> u` with `t` committed. Nothing is ever lost
  (`ReducerForward.NothingLost`), and for one network nothing is gained if no handshake right behind the removed location
  is offered by a committed location elsewhere (`ReducerBackward.RemovalPreservesReachability`).
  Over all networks that a process may be part of, the exact condition on its graph is `Hurriable`: a removal is harmless
  in every network if and only if the removed location does not lie between two handshakes in this way
  (`ReducerContexts.HarmlessExactly`). Harmless means an equivalence of reachability for all configurations in which the other
  processes are not committed. The equivalence is stated where the handshakes can be told apart, that is where no other edge of
  the same location takes part in the handshake of the composed edge. Some such proviso is needed: `ReducerExample.SomeHurriesAreHarmless`
  gives a graph in which another edge makes up for the gained step, and whether one does depends on everything that
  the process can do after it, in other words on reachability itself. The direction that a graph without such a location is
  harmless needs no proviso (`ReducerContexts.NeverHurried`), and neither does a removal whose composed edges were all there
  before (`ReducerContexts.NothingNewIsKept`).
  The networks that toph builds meet a condition that can be checked before the pass, `Patient`: a handshake that a
  committed location may offer leaves a location whose incoming edges all have a sync or use globals. Each removal
  keeps it, so the whole optimisation is harmless for them (`TranslatedGraphs.ReductionOfTranslated`).
- **A select that sends to a closed channel never takes back what it added to other counters**
  (translator/channel_stmts.go:283-360, translator/channel.go:196-200). The channel turns bad and never confirms, so the
  select stays where it is and the counters of its other channels stay off. The damage spreads: such a counter
  misleads other selects, which then leave the counters of their own channels off. `ChannelExample.DamageSpreads` is a run
  after which a healthy channel that occurs in no stuck select counts a sender where nobody is blocked.
  A select is stuck exactly if some step before was a select that chose to send to a closed channel
  (`ChannelTheorems.StuckExactly`), and a step breaks the invariant of the network exactly if it is such a choice
  (`ChannelSafety.StepKeepsInv`). In any run, whatever has happened in it, the counter of an open channel accounts for its
  stored values and those who are blocked exactly if as many selects hold back a send on it, without having chosen it, as hold
  back a receive (`ChannelLedger.AccountExactly`). `ChannelTheorems.CounterMeansWaiters`, which reads both numbers off the
  counter, speaks of every channel that is itself not bad, in configurations in which no select is stuck; other bad
  channels do no harm.
- **After a channel has turned bad, a committed location can stop the whole network** (translator/channel_stmts.go:283-350,
  translator/channel.go:98-204), in two ways. The buffer of a bad channel is marked as closed, so that the guard of a case at it
  holds, and a select that polls it can take neither its default nor the second pass, but the channel has no edge to answer with:
  `ChannelExample.PollingStopsAll` is a run after which no step is enabled although the select has a default. And a counter that
  a stuck select holds off makes a healthy channel await somebody who is not there: `ChannelExample.ConfirmingStopsAll` is a run
  that a send on such a channel stops. There is no third way: in every run, something committed leaves no step enabled exactly
  if some select is cornered like the first or some channel is forsaken like the second (`ChannelProgress.CommittedStuckExactly`).
- **An empty loop may be dropped exactly if it can end** (ir/optimizer/dead_code_eliminator.go:43-50). A loop with a
  positive minimum and no maximum, or with a minimum above its maximum, cannot be left in the automaton; dropping it makes
  what follows reachable (`DeadCode.EmptyLoopExactly`). Loops that do not become empty are kept, whatever their bounds
  (`DeadCode.SimplifyBodySame`).
- **A loop with a positive minimum and no maximum never ends at its test** (translator/branch_stmts.go:184-218): the
  counter of the loop advances only if there is a maximum (`IrBodies.UncountedNeverEnds`).
- **A bare return in the middle of a function body must not be dropped if what follows it shows**
  (ir/optimizer/dead_code_eliminator.go:51-54). Nothing behind a bare return matters as long as it is there
  (`EarlyReturns.ReturnEnds`). Dropped, it changes what can be observed unless it is never reached, or what then runs
  behind it comes to an end without showing anything, or never ends where the function could also have been left before.
  This is an equivalence for the statement (`EarlyReturns.DropExactly`), the pass over a body (`EarlyReturns.StripExactly`)
  and every function that the eliminator has rewritten (`DeadCodeEliminator.EliminatedExactly`), stated for labels behind the
  return that do not occur before it. With basic statements behind it, a return that is reached may be dropped exactly if all
  their labels are hidden (`EarlyReturns.DropBasicsExactly`).
- **Every function gets a component number of at least 1** (`CallGraphs.FuncCallGraph.UpdateSCCs`). The comment on `FuncNotCalled`
  (ir/analyzer/call_graph.go:19-21) says that functions that are not reached from the entry have number 0; the code numbers them
  all, and the model follows the code.
- **Components with a cycle count as called MaxCallCounts times even if nothing calls them**
  (ir/analyzer/call_graph_builder.go:140-150). `CallCounts.AddCallCounts` says that every function of such a component is at the
  cap, that counts are upper bounds in any case, and that they are exact for full runs where no component has a cycle.
  `CallCounts.UnreachedCycle` is a program whose entry calls nothing and whose other function, which calls itself, is at the
  cap without ever being activated.

## Model

| member | source | states |
|---|---|---|
| ChannelTheorems.CounterMeansWaiters | translator/channel.go:94-147 | At rest in every run, where no select is stuck, for every channel that is not bad: blocked senders are the part of the counter above the buffer, blocked receivers its negative part, stored values the rest; senders and receivers never wait together |
| ChannelLedger.AccountExactly | translator/channel_stmts.go:283-360 | In every run, with no condition on it, the counter of an open channel is its stored values plus blocked senders minus blocked receivers if and only if as many selects have registered a send on it without having chosen it as have registered a receive |
| ChannelLedger.StepKeepsLedger | translator/channel_stmts.go:283-360 | Every step keeps the conservation law of all open channels: what is stored, waiting and held back adds up to the counter, whatever else is stuck or bad |
| ChannelTheorems.StuckExactly | translator/channel_stmts.go:313-323 | In every run, some select is stuck at a bad channel if and only if some step before was a select that chose to send to a closed channel |
| ChannelTheorems.CommittedNeverStuck | translator/channel.go:98-171 | In every run without a bad channel, whatever is committed has an enabled step, with the partner that its guard implies |
| ChannelProgress.CommittedStuckExactly | translator/channel_stmts.go:283-350 | In every run, with no condition on it, something committed leaves the network without any enabled step if and only if a select polls whose possible cases are all at bad channels, or a channel has to be confirmed by the other side and nobody waits there |
| ChannelProgress.StepKeepsSerial | translator/channel_stmts.go:163-365 | Every step keeps that at most one channel serves or one select polls, never both, and that whom a channel has just accepted waits there, whatever is stuck or bad |
| ChannelTheorems.PartnerCanConfirm | translator/channel_stmts.go:67-85 | If the account shows somebody blocked at a channel, some goroutine can take the confirming handshake there |
| ChannelTheorems.BadExactly | translator/channel.go:149-204 | A channel turns bad if and only if it is closed twice, closed while senders are blocked, or sent to after it was closed |
| ChannelTheorems.StuckStays | translator/channel_stmts.go:296-331 | A select that has chosen a case of a bad channel is never released again |
| ChannelTheorems.RunIsValid | translator/channel.go:218-231 | No run of the network comes to a channel id that is not in the table |
| ChannelSafety.StepKeepsInv | translator/channel.go:94-204 | Of the edges of the channel automaton and the moves of goroutines, exactly the choice of a select to send to a closed channel breaks the account of stored values, blocked senders and blocked receivers of all channels; and the account stands exactly as long as no select is stuck |
| ChannelSafety.ChosenIsStuck | translator/channel.go:196-200 | A select that triggers a case which turns its channel bad is stuck from then on |
| ChannelExample.DamageSpreads | translator/channel_stmts.go:313-323 | A run in which a select is stuck at a closed channel, and after which a channel that the select does not use counts a sender where nobody is blocked |
| ChannelExample.PollingStopsAll | translator/channel_stmts.go:283-350 | A run in which a channel is closed twice, and after which a select with a default that polls it leaves no step enabled |
| ChannelExample.ConfirmingStopsAll | translator/channel.go:98-127 | A run in which a select is stuck, and after which a send on another, healthy channel leaves no step enabled |
| ChannelRefinement.StatementsAreAtomic | translator/channel_stmts.go:163-365 | From one configuration without committed locations to the next, the network performs exactly the Go statement that its first step starts, with its cases and its default: one ready case is entered, the default only if none is ready, every other counter is as if never bumped, close releases all receivers without a value, a range loop enters its body with a value and exits when drained; or some step of it turns a channel bad, the one that the statement closes or chooses to send to, and the statement panics in Go |
| ChannelRefinement.NextStage | translator/channel_stmts.go:283-360 | While a statement is under way, every step of the network leads to another stage of the same statement, the one that was started |
| ChannelCompleteness.StatementsArePerformed | translator/channel_stmts.go:51-365 | The other way round: every statement that Go allows, with every outcome that Go allows it, is one that the network can start, as a plain operation or as a select, and perform through committed configurations to the next one without |
| ChannelCompleteness.PanicsArePerformed | translator/channel.go:149-204 | Every statement that panics in Go, closing a closed channel or one with blocked senders or choosing to send to a closed one, can be started and performed up to the step in which its goroutine turns that channel bad with that case |
| Mutexes.MutualExclusion | translator/mutex.go:79-184 | In every run, a mutex that was not misused has at most one writer and never a writer and a reader; active_readers is the number of read locks and the pending counters are the numbers of registered waiters |
| Mutexes.BadExactly | translator/mutex.go:161-184 | A mutex turns bad if and only if it is unlocked without an outstanding lock of that kind |
| Mutexes.UnlockAlwaysPossible | translator/mutex.go:86-90 | With nothing committed, every unlock of a mutex that is not bad has an enabled edge |
| Mutexes.CommittedNeverStuck | translator/mutex.go:100-159 | read_locking and read_locked_to_write_locked can always be left |
| Mutexes.WriterPreference | translator/mutex.go:113-159 | Once a writer is registered while readers hold the mutex, no reader acquires it in any continuation before a writer does |
| Mutexes.StepKeepsInv | translator/mutex_stmts.go:21-91 | Registering, completing, unlocking and the edges of the automaton keep the accounts of all mutexes that are not bad, and at most one of them is committed |
| Mutexes.GrantedExactly | translator/mutex.go:79-145 | In every run, with nothing committed, whoever waits for the write lock can acquire it if and only if nobody holds the mutex, and whoever waits for the read lock if and only if there is no writer, and no reader or no waiting writer |
| Mutexes.LockBegins | translator/mutex_stmts.go:21-91 | With nothing committed, a lock of a mutex that is not bad can always begin, and it then acquires at once if and only if the mutex was free for it |
| Mutexes.CommittedGrants | translator/mutex.go:100-159 | While a mutex takes in readers each waiting reader can enter, while it is handed over each waiting writer can take it, and nobody else acquires anything |
| Mutexes.ReadersTogether | translator/mutex.go:93-111 | The first reader takes all readers that wait along before anything else happens |
| Mutexes.HandedToWriter | translator/mutex.go:146-159 | When the last reader leaves while writers wait, the next step gives the lock to one of them |
| WaitGroups.CounterMeansTasks | translator/wait_group.go:66-114 | In every run the counter is the sum of all deltas; outside adding and bad a group is idle if and only if it is 0, and active if and only if it is positive |
| WaitGroups.AddingLeftOneWay | translator/wait_group.go:85-114 | At adding exactly one of the three guarded edges is enabled |
| WaitGroups.WaitCompletesAtZero | translator/wait_group_stmts.go:38-79 | A registered wait can complete if and only if all added tasks are done |
| WaitGroups.BadExactly | translator/wait_group.go:66-114 | A group turns bad if and only if its counter has become negative, or a task is added at 0 while somebody waits |
| WaitGroups.AddAlwaysPossible | translator/wait_group.go:66-114 | With nothing committed, every add to a group that is not bad has an enabled edge |
| WaitGroups.WaitBegins | translator/wait_group_stmts.go:38-79 | With nothing committed, a wait for a group that is not bad can always begin, and it then completes at once if and only if all added tasks are done |
| UppaalGraphs.ReachableNext | uppaal/state.go:9-11 | What is reachable stays reachable after one more step of the network, where committed locations go first |
| ReducerForward.NothingLost | uppaal/optimizer/states_reducer.go:40-153 | Every reachable configuration with the process elsewhere stays reachable, and one with the process at the removed location has a counterpart that differs in this process alone |
| ReducerForward.StepSimulated | uppaal/optimizer/states_reducer.go:88-100 | The conditions of the reducer are what makes each step of the original network a step, a stutter or a composed step of the reduced one |
| ReducerBackward.RemovalPreservesReachability | uppaal/optimizer/states_reducer.go:40-153 | Without committed partners right behind the location, a configuration with nobody else committed is reachable before the removal if and only if it is reachable after it |
| ReducerBackward.NothingGained | uppaal/optimizer/states_reducer.go:40-153 | Even while something is committed, what the reduced network reaches differs from what the original reaches in this process alone, and not at all where the edges into the location are local |
| ReducerExample.RemovalCanAddConfigurations | uppaal/optimizer/states_reducer.go:40-153 | The reducer accepts a location whose removal makes an unreachable configuration at rest reachable |
| ReducerContexts.HarmlessExactly | uppaal/optimizer/states_reducer.go:40-153 | Where handshakes can be told apart, a removal keeps reachability in all networks if and only if it lets no handshake happen one location earlier, or directly after another one |
| ReducerContexts.HandshakesInARow | uppaal/optimizer/states_reducer.go:88-100 | If the location separates a handshake into it from one behind it, some committed partner separates the two networks |
| ReducerContexts.HandshakeComesEarly | uppaal/optimizer/states_reducer.go:88-100 | If a handshake leaves the location and the edges into it are local, some committed partner separates the two networks |
| ReducerContexts.NeverHurried | uppaal/optimizer/states_reducer.go:88-100 | A graph without such handshakes meets the condition of the removal in every network, told apart or not |
| ReducerContexts.NothingNewIsKept | uppaal/optimizer/states_reducer.go:102-153 | A removal that adds no edge that was not there keeps reachability in all networks, even where the location lies between two handshakes |
| ReducerExample.SomeHurriesAreHarmless | uppaal/optimizer/states_reducer.go:42-100 | A graph that shows why handshakes have to be told apart for the exact condition |
| ReducerConditions.PatientUnhurried | uppaal/optimizer/states_reducer.go:42-100 | The condition on the whole network, that handshakes with committed partners are reached by global edges only, answers the question of each single removal |
| ReducerConditions.StaysPatient | uppaal/optimizer/states_reducer.go:102-153 | A removal keeps this condition |
| ReducerConditions.PatientPass | uppaal/optimizer/states_reducer.go:15-38 | Whatever sequence of locations the reducer removes from a template with patient instances, no removal meets a committed partner |
| ReducerConditions.ReductionKeepsReachability | uppaal/optimizer/states_reducer.go:9-13 | After the passes over all templates of a patient network the same configurations at rest are reachable |
| ReducerPass.FlagsStayAccurate | uppaal/optimizer/states_reducer.go:112-142 | If the flags of edges without a sync told the truth about globals, those of the composed edges do, so that further locations may be removed |
| ReducerPass.StaysWellFormed | uppaal/optimizer/states_reducer.go:102-110 | A removal leaves the initial location and all ends of edges among the locations |
| UppaalGraphs.RemovableExactly | uppaal/optimizer/states_reducer.go:42-98 | A normal location between normal ones is removed if and only if each edge into it may be merged with each edge out of it |
| UppaalGraphs.ComposedTouches | uppaal/optimizer/states_reducer.go:108-142 | A composed edge counts as using globals if and only if the guard, sync or update of one of its parts does |
| UppaalGraphs.ComposeAssociative | uppaal/optimizer/states_reducer.go:104-142 | Of two locations in a row it does not matter for the edges which one is removed first |
| ReducerPass.PassPreservesReachability | uppaal/optimizer/states_reducer.go:15-38 | After several removals from a template all its instances have the reduced graph, other processes theirs, and the same configurations at rest are reachable |
| ReducerPass.EliminateOneMore | uppaal/optimizer/states_reducer.go:35-37 | Trying one more location at the end extends the sequence of removals |
| ReducerPass.DuplicatesDoNotMatter | uppaal/optimizer/trans_reducer.go:14-36 | Networks whose edges differ only in flags and repetitions have the same steps |
| TranslatedGraphs.ReductionOfTranslated | uppaal/optimizer/states_reducer.go:9-38 | For a network of translated graphs, reducing any templates changes nothing about which configurations at rest are reachable |
| TranslatedGraphs.TranslatedPatient | uppaal/optimizer/states_reducer.go:88-100 | A network of translated graphs is patient |
| TranslatedGraphs.ChannelTranslated | translator/channel.go:31-205 | The channel automaton, with its names, guards and flags, is a translated graph |
| TranslatedGraphs.MutexTranslated | translator/mutex.go:31-184 | The mutex automaton is a translated graph |
| TranslatedGraphs.WaitGroupTranslated | translator/wait_group.go:31-115 | The wait group automaton is a translated graph |
| TranslatedGraphs.FunctionTranslated | translator/funcs.go:123-291 | A graph put together from pieces that each wait globally, and whose own locations are private, is a translated graph |
| TranslatedGraphs.ChanOpOk | translator/channel_stmts.go:36-98 | A send or receive statement comes to its confirmation by a handshake |
| TranslatedGraphs.CloseChanOk | translator/channel_stmts.go:100-119 | A close statement makes no handshake that a committed location offers |
| TranslatedGraphs.SelectStatementOk | translator/channel_stmts.go:163-365 | A select statement comes to all its triggers and confirmations by handshakes or global updates |
| TranslatedGraphs.RangeChanOk | translator/branch_stmts.go:228-296 | A range loop over a channel comes to its confirmation by a handshake, whatever flags its handle has |
| TranslatedGraphs.LockMutexOk | translator/mutex_stmts.go:21-91 | A lock statement comes to its completion by a global update |
| TranslatedGraphs.UnlockMutexOk | translator/mutex_stmts.go:21-91 | An unlock statement makes no handshake that a committed location offers |
| TranslatedGraphs.GroupStatementsOk | translator/wait_group_stmts.go:21-79 | Statements on wait groups make no handshake that a committed location offers |
| OptimizedNetworks.OptimizeProcess | uppaal/optimizer/states_reducer.go:15-38 | After both passes over the object graph, every network in which patient instances had the old graph reaches the same configurations at rest with the new one; no label occurs twice between two states |
| OptimizedNetworks.PassesKeepReachability | uppaal/optimizer/trans_reducer.go:14-36 | The removal of locations followed by that of duplicate edges keeps reachability at rest |
| StateReducer.RemoveStateIfPossible | uppaal/optimizer/states_reducer.go:40-153 | On the object graph, a state is replaced by the compositions of its incoming with its outgoing transitions exactly if the conditions hold, and everything stays as it was otherwise |
| StateReducer.Decide | uppaal/optimizer/states_reducer.go:42-100 | The tests on the objects around a state hold if and only if the location may be eliminated from the graph |
| StateReducer.Bypass | uppaal/optimizer/states_reducer.go:102-153 | Removing the transitions and the state and adding all compositions is the elimination of the location |
| ProcessReducers.CollectStates | uppaal/optimizer/states_reducer.go:16-33 | Breadth-first search yields exactly the states reachable from the initial one, each once |
| ProcessReducers.SortStates | uppaal/optimizer/states_reducer.go:16-33 | The names in this order are those that the initial state leads to in the graph of the process |
| ProcessReducers.ReduceStatesInProcess | uppaal/optimizer/states_reducer.go:15-38 | Tries every state that the initial one leads to, each once and in breadth-first order, and removes it exactly if it may be eliminated from the graph as it then is; it adds no state |
| ProcessReducers.ReduceTransitionsInProcess | uppaal/optimizer/trans_reducer.go:14-36 | Of transitions with the same label between two states exactly one remains; the edges up to flags stay the same |
| ProcessReducers.MarkDuplicates | uppaal/optimizer/trans_reducer.go:17-31 | The two loops over a slice leave one transition of each label unmarked |
| UppaalProcess.Process.AddState | uppaal/process.go:112-137 | Adds a state under a name that no state has, with the first number that makes it new where it may be renamed, and nothing else |
| UppaalProcess.Process.RemoveState | uppaal/process.go:140-154 | Removes a state without transitions, and the initial mark if it had it |
| UppaalProcess.Process.AddTransition | uppaal/process.go:164-182 | Adds one transition with an empty label to the process, its slice and both states |
| UppaalProcess.Process.RemoveTransition | uppaal/process.go:185-205 | Removes exactly this transition from the process, its slice and both states, once where they are the same |
| UppaalProcess.Process.SetInitialState | uppaal/process.go:75-87 | Exactly the initial state carries the initial mark |
| UppaalProcess.Process.ChooseName | uppaal/process.go:112-127 | With renaming, the name gets the first number that makes it new |
| UppaalProcess.CandidatesRunOut | uppaal/process.go:117-127 | The search for a free number ends, because different numbers give different names |
| UppaalProcess.State.IncomingTransitions | uppaal/state.go:82-90 | Exactly the transitions of the state that end in it |
| UppaalProcess.State.OutgoingTransitions | uppaal/state.go:93-101 | Exactly the transitions of the state that start in it |
| UppaalProcess.Trans.AddUpdate | uppaal/transition.go:102-109 | Appends an update; the flag stays set once it was set |
| UppaalProcess.Trans.SetGuard | uppaal/transition.go:74-77 | Replaces the guard and its flag |
| Decimals.DecimalInjective | uppaal/process.go:117-127 | Different numbers have different numerals |
| SccSearches.SccSearch.StrongConnect | ir/analyzer/call_graph.go:362-406 | Visits everything a function leads to, with the low link of depth-first search, and numbers every component whose root it leaves |
| SccSearches.SccSearch.PopComponent | ir/analyzer/call_graph.go:392-404 | What comes off the stack down to a root is one component and gets the next number |
| SccInvariant.LeaveWithComponent | ir/analyzer/call_graph.go:390-405 | If the low link of a function is its own index, what is above it on the stack is a whole component, and the invariant of the search holds without it |
| SccInvariant.LeaveOnStack | ir/analyzer/call_graph.go:369-391 | Otherwise the function stays on the stack and reaches an active one below it |
| CallGraphs.FuncCallGraph.UpdateSCCs | ir/analyzer/call_graph.go:345-413 | Every function gets one number from 1; two share a number if and only if each reaches the other; calls between components lead from higher to lower numbers |
| CallGraphs.FuncCallGraph.AddFunc | ir/analyzer/call_graph.go:215-227 | Adds a function without calls if it is new |
| CallGraphs.FuncCallGraph.AddStaticCall | ir/analyzer/call_graph.go:229-236 | Adds one call to both tables |
| CallGraphs.FuncCallGraph.AddDynamicCaller | ir/analyzer/call_graph.go:238-260 | A caller of a signature gets calls to all its functions so far and no others |
| CallGraphs.FuncCallGraph.AddDynamicCallee | ir/analyzer/call_graph.go:262-285 | All callers of a signature so far get a call to the new function; together with the previous row, the calls do not depend on the order |
| CallGraphs.FuncCallGraph.ZeroCalleeCounts | ir/analyzer/call_graph.go:287-301 | Forgets all calls of a function and its place among dynamic callees |
| PanicAnalysis.AnalyzePanics | ir/analyzer/call_graph_builder.go:186-215 | One pass over the components, callees first: a function can panic if and only if a function that it leads to, or itself, contains a panic |
| PanicAnalysis.CallsPanic | ir/analyzer/call_graph_builder.go:195-202 | The inner loop finds a callee that can panic if and only if there is one |
| CallTrees.ActsByCaller | ir/analyzer/call_graph_builder.go:139-174 | Activations of a function are those by its callers, and one more if it is the entry |
| CallTrees.UnderOne | ir/analyzer/call_graph_builder.go:155-161 | All activations of a caller together activate a callee at most the product of the two counts |
| CallCounts.AddCallCounts | ir/analyzer/call_graph_builder.go:134-174 | In every run whose activations stay within the counts of their bodies, every function is activated and every operation performed at most as often as counted, unless the count is at the cap; functions of components with a cycle are at the cap; without cycles the counts of full runs are exact |
| CallCounts.CountComponent | ir/analyzer/call_graph_builder.go:139-173 | After the work on one component the account covers its functions as callers, too, for all runs and exactly for full runs without recursion |
| CallCounts.CycleExactly | ir/analyzer/call_graph_builder.go:140-150 | A component counts as having a cycle if and only if a function of it was found to call itself, or another function leads to it and back |
| CallCounts.NeverActivated | ir/analyzer/call_graph_builder.go:134-174 | A function that the entry does not lead to over calls is activated in no run |
| CallCounts.UnreachedCycle | ir/analyzer/call_graph_builder.go:140-150 | A program in which a function that calls itself is counted as called as often as can be told apart, though no run activates it |
| BodyCounts.CostIsBound | ir/analyzer/call_graph_builder.go:348-423 | Whatever a body does in a run, finished or not, is within the count found from its structure, over branches, fallthrough, early exits and bounded loops |
| BodyCounts.StmtWithin | ir/analyzer/call_graph_builder.go:553-661 | The same for each kind of statement |
| CostsReached.CostIsReached | ir/analyzer/call_graph_builder.go:348-661 | For a function that nothing leaves before its end the count of its structure is exact: some run reaches it |
| CostsReached.ActivationReached | ir/analyzer/call_graph_builder.go:348-423 | Some activation of such a function performs each operation, and some activation calls each function, exactly as often as was found, up to the cap |
| Saturation.BodySaturates | ir/analyzer/call_graph_builder.go:299-346 | Saturating at every step gives what saturating the exact count, possibly infinite, once at the end would give |
| Saturation.SumSaturates | ir/analyzer/call_graph_builder.go:313-325 | Saturation commutes with sums of possibly infinite counts |
| Saturation.TimesSaturates | ir/analyzer/call_graph_builder.go:299-311 | Saturation commutes with products, and any factor of at least the cap stands for an infinite one |
| Saturation.MostSaturates | ir/analyzer/call_graph_builder.go:327-346 | Saturation commutes with the greater of two counts |
| CallsInfos.InfoForBody | ir/analyzer/call_graph_builder.go:348-423 | The tables that are added, multiplied and merged for a body hold the saturated count of each callee and operation |
| CallsInfos.InfoForSwitch | ir/analyzer/call_graph_builder.go:560-615 | The greatest count over the cases, each with the conditions tested up to it and the bodies it falls through to |
| CallsInfos.ExecuteCase | ir/analyzer/call_graph_builder.go:585-596 | The bodies from one case on, as long as they fall through |
| CallsInfos.InfoForFor | ir/analyzer/call_graph_builder.go:628-641 | Condition and body as often as the loop can go round, or the cap without a bound |
| CallsInfos.InfoForSelect | ir/analyzer/call_graph_builder.go:617-626 | The greatest count over the cases |
| CallsInfos.CallsInfo.Multiply | ir/analyzer/call_graph_builder.go:299-311 | Every count is multiplied and capped |
| CallsInfos.CallsInfo.Add | ir/analyzer/call_graph_builder.go:313-325 | Counts are added entry by entry and capped |
| CallsInfos.CallsInfo.MergeFrom | ir/analyzer/call_graph_builder.go:327-346 | The greater count of each entry; missing entries are 0 |
| ProgramCounts.AddCallCountsToFuncCallGraph | ir/analyzer/call_graph_builder.go:120-174 | From bodies to counts: in every run of the program, finished or not, activations and operations are within the counts; without recursion the counts are those of runs in which each activation does all that was found for it, and at the cap where functions call each other |
| ProgramCounts.RemoveCallsToClosuresInsideUncalledFunctions | ir/analyzer/call_graph_builder.go:176-184 | Functions inside one that has count 0 when they are looked at get count 0, and no other counts change; the counts still bound all runs in which a closure runs only after its function |
| ProgramCounts.BuildCounts | ir/analyzer/call_graph_builder.go:14-38 | The counts that the translator reads bound the activations and operations of all runs; they are those of the analysis, cleared inside uncalled functions |
| Allocators.ChannelTable.MakeChan | translator/channel.go:218-231 | Takes the next entry and clears it; beyond the last entry sets out_of_resources, returns 0 and writes nothing |
| Allocators.MakeChans | translator/channel.go:218-231 | After any number of requests the flag is set if and only if there were more than entries; otherwise each channel has its own entry with its buffer |
| Allocators.DistinctExactly | translator/channel.go:218-231 | The ids of the requests are distinct entries if and only if there are no more requests than entries |
| Allocators.RunMakes | translator/channel.go:218-231 | In every run of the channel network the flag is set if and only if more channels were made than there are entries, and the ids are those of the allocator |
| Allocators.FlagExactly | translator/funcs.go:86-112 | Whatever the order in which processes of all functions are requested, the flag is set if and only if some function has more requests than entries |
| Allocators.EntriesApart | translator/funcs.go:86-112 | As long as a function has entries left, each of its requests gets an entry of its own, in which its parent stays through all later requests |
| Allocators.SizeTables | translator/channel.go:11-19 | Tables sized by the counts of the analysis suffice: no run of the program makes the requests for channels, or for processes of its functions in any order, set out_of_resources or get an entry twice, unless a count is at the cap or cut off |
| Allocators.DefersFit | translator/funcs.go:28-34 | No run of a body defers more calls than its process has entries for, unless their count is at the cap or cut off |
| ControlFlowComplete.PathsAreTraces | translator/branch_stmts.go:10-226 | The label sequences of paths from start to end of the automaton of a function are exactly the traces of the runs of its body, with switch order, default, fallthrough, labelled branches, returns and nested bounded loops |
| FunctionPaths.SwitchPaths | translator/branch_stmts.go:54-162 | The paths through a compiled switch pass conditions in order and then the bodies from the case of the last one, or from the last default after all of them, or end behind all of them where no case is a default |
| FunctionPaths.SelectPaths | translator/channel_stmts.go:163-365 | The paths through a compiled select enter, trigger and confirm a case and pass its body; or take a default; or, only where no case is a default, await a confirmation in a second pass |
| FunctionPaths.PathsHave | translator/translator.go:94-108 | The paths of a function pass exactly what its body passes, however it ends |
| TraceLaws.SwitchHas | translator/branch_stmts.go:54-162 | What a switch passes and how it ends, in terms of its conditions and bodies: a condition leaves it, or a case is entered and falls through, or none is |
| TraceLaws.SwitchChooses | translator/branch_stmts.go:115-158 | Every run of a switch enters a case because its last condition tested belongs to it, or because all were tested and it is the last default, and no case only where there is no default |
| TraceLaws.DefaultRuns | translator/branch_stmts.go:126-158 | Once all conditions have ended normally, the default and the bodies it falls through to can be run |
| TraceLaws.CondsInOrder | translator/branch_stmts.go:115-142 | Condition j of case i is tested right after those of the cases before and those before it in its case; conditions of a default are not tested |
| TraceLaws.SelectHas | translator/channel_stmts.go:163-365 | What a select passes and how it ends: one of the ways to one of its bodies, and this body |
| TraceLaws.SelectRuns | translator/channel_stmts.go:333-360 | With a default no run awaits a confirmation in a second pass; without one each case can be taken in both passes |
| TraceLaws.IfHas | translator/branch_stmts.go:10-52 | An if passes what one of its branches passes |
| TraceLaws.ForHas | translator/branch_stmts.go:164-226 | A loop makes passes of condition and body, no more than its maximum, and ends at its condition, with the minimum reached where passes are counted, or in a pass that leaves it |
| TraceLaws.RangeHas | translator/branch_stmts.go:228-296 | A loop over a channel receives before each pass and once more to find that it is over, unless a pass leaves it |
| TraceLaws.ConsHas | translator/translator.go:94-108 | A statement that ends normally is followed by the rest of the body, any other outcome ends the body |
| ControlFlowSound.BodySound | translator/translator.go:94-108 | Every path through the automaton of a body is a run of the body up to a prefix that leads to its exit, a branch target or the end of the function |
| ControlFlowSound.StmtSound | translator/branch_stmts.go:10-226 | The same for each statement |
| ControlFlowComplete.BodyComplete | translator/translator.go:94-108 | Every run of a body is a path to the state that its outcome names, and leaves the counters of outer loops alone |
| ControlFlowComplete.StmtComplete | translator/branch_stmts.go:10-226 | The same for each statement |
| IrBodies.PassesBounded | translator/branch_stmts.go:184-218 | A loop with a maximum makes never more than that many passes, and at least the minimum where it ends at its test |
| IrBodies.UncountedNeverEnds | translator/branch_stmts.go:184-218 | A loop with a positive minimum and no maximum never ends at its test |
| IrBodies.OutStmtIn | translator/context.go:61-87 | A statement can only be left towards enclosing statements that its branch statements name |
| Translator.TranslateBody | translator/translator.go:94-108 | The loop over the statements adds exactly the states and edges of the compiled body, and stops after a statement that leaves it |
| Translator.TranslateStmt | translator/stmts.go:10-59 | Adds exactly the states and edges of the compiled statement and ends in its exit state |
| Translator.TranslateIfStmt | translator/branch_stmts.go:10-52 | Adds both branches between new states |
| Translator.TranslateSwitchStmt | translator/branch_stmts.go:54-162 | Adds conditions in order, bodies, fallthrough and default edges |
| Translator.AddSwitchEdges | translator/branch_stmts.go:115-158 | The edges that the loops add are those between conditions and bodies of the compiled switch |
| Translator.TranslateForStmt | translator/branch_stmts.go:164-226 | Adds condition and body, and the edges that reset, test and advance the counter |
| Translator.TranslateLoopBody | translator/branch_stmts.go:428-452 | Adds the body with its break and continue targets |
| Translator.TranslateRangeStmt | translator/branch_stmts.go:228-296 | Adds the states in which the loop triggers a receive and awaits its confirmation, the edges that then go on or leave, and the body with its targets |
| Translator.TranslateSelectStmt | translator/channel_stmts.go:163-365 | Adds the first pass with a triggered state for each case, the second pass or the default, the confirming edges, and the bodies between them and the exit |
| DeferredCalls.DeferredInReverse | translator/func_stmts.go:230-265 | Every deferred call runs exactly once, in reverse order, whoever panics or recovers |
| DeferredCalls.PanicsExactly | translator/func_stmts.go:230-265 | An activation ends with a panic if and only if some panic, its own or of a deferred call, is followed by no deferred call that recovers |
| DeferredCalls.EventsRun | translator/func_stmts.go:104-228 | The events of an activation run up to the first that panics or calls a function that ends with a panic, and the activation panics if and only if there is one; what is passed, deferred and recovered is what stands before |
| DeferredCalls.ActivationRuns | translator/func_stmts.go:104-265 | What a whole activation passes, and that it ends with a panic if and only if some panic, its own, of a callee or of a deferred call, is followed by no deferred call that recovers |
| DeferredCalls.Processes.Run | translator/funcs.go:220-232 | Running a process with the deferred arrays and the two panic flags passes the labels of the Go semantics, and its external flag then says whether the caller panics, over arbitrary call trees |
| DeferredCalls.Processes.RunAll | translator/func_stmts.go:104-228 | The body up to its end or first panic leaves the deferred calls on the stack and the panic in the internal flag |
| DeferredCalls.Processes.RunDeferredCalls | translator/func_stmts.go:230-265 | Popping the arrays makes the deferred calls last first and leaves the final panicking state in the internal flag |
| DeferredCalls.Process.Push | translator/func_stmts.go:209-228 | A deferred call goes on top of both arrays |
| DeadCode.SimplifyBodySame | ir/optimizer/dead_code_eliminator.go:30-60 | Dropping empty branches and loops keeps exactly the traces and outcomes of a body whose loops can end where they are dropped |
| DeadCode.SimplifyTidy | ir/optimizer/dead_code_eliminator.go:30-60 | Afterwards no if has two empty branches and no finite loop an empty condition and body, at any depth the pass enters |
| DeadCode.NothingLeftExactly | ir/optimizer/dead_code_eliminator.go:30-60 | A body disappears if and only if it is built from such statements alone |
| DeadCode.EmptyLoopExactly | ir/optimizer/dead_code_eliminator.go:43-50 | An empty loop may be dropped if and only if its bounds let it end |
| EarlyReturns.ReturnEnds | ir/optimizer/dead_code_eliminator.go:51-54 | Whatever stands behind a bare return, the body shows what it shows without the return and what follows |
| EarlyReturns.DropExactly | ir/optimizer/dead_code_eliminator.go:51-54 | A bare return may be dropped if and only if it is never reached, or what then runs behind it shows nothing and ends, or never ends where the body could have been left before |
| EarlyReturns.DropBasicsExactly | ir/optimizer/dead_code_eliminator.go:51-54 | With basic statements behind it, a bare return that is reached may be dropped if and only if all their labels are hidden |
| EarlyReturns.StripExactly | ir/optimizer/dead_code_eliminator.go:51-54 | Dropping all bare returns of a body keeps what can be observed if and only if this holds for what then runs behind the first of them |
| EarlyReturns.CleanedExactly | ir/optimizer/dead_code_eliminator.go:13-28 | Both steps together, with calls of idle functions dropped, keep what can be observed under exactly this condition on the simplified body |
| DeadCodeEliminator.EliminateDeadCodeInBody | ir/optimizer/dead_code_eliminator.go:30-60 | The loop over statements yields the simplified body |
| DeadCodeEliminator.EliminateFuncCallsInBody | ir/optimizer/dead_code_eliminator.go:62-93 | Exactly the top-level calls all of whose callees are empty disappear |
| DeadCodeEliminator.EliminateDeadCode | ir/optimizer/dead_code_eliminator.go:13-28 | All functions, callees first: every body is rewritten with exactly the functions that are empty in components before its own, and in the end exactly the functions of which nothing is left are noted as empty |
| DeadCodeEliminator.EliminatedExactly | ir/optimizer/dead_code_eliminator.go:13-60 | A rewritten function shows what it showed, but for bare returns and calls of empty functions, if and only if what now runs behind its first bare return may run |
| DeadCodeEliminator.EliminatedSame | ir/optimizer/dead_code_eliminator.go:13-60 | It does where bare returns stand last |
| DeadCodeEliminator.CallsLeft | ir/optimizer/dead_code_eliminator.go:62-93 | A call at the top of a rewritten body remains only if it may call a function that is not empty, or not in a component before |
| DeadCodeEliminator.EliminatedTidy | ir/optimizer/dead_code_eliminator.go:13-60 | Every rewritten function is without empty branches and loops at every depth that is entered, and without bare returns at its top |
| DeadCodeEliminator.FoundExactly | ir/optimizer/dead_code_eliminator.go:13-28 | A function is noted as empty if and only if its original body has only statements that are empty at every depth, bare returns, and calls of functions noted as empty in components before |
| DeadCodeEliminator.CleanedAway | ir/optimizer/dead_code_eliminator.go:22-26 | A body of which nothing is left passed only bare returns and calls of idle functions in all its runs |
| DeadCodeEliminator.EmptyDoesNothing | ir/optimizer/dead_code_eliminator.go:22-26 | In the original program, whatever its loops and returns, a whole call of a function that was found empty performs no operation and activates only such functions |
| TypeGraphs.TypeGraph.UpdateTopologicalOrder | ir/analyzer/type_graph.go:133-169 | Ends for every graph; the order has each type once, after all it depends on, and fails if and only if there is a cycle |
| TypeGraphs.TypeGraph.AddRound | ir/analyzer/type_graph.go:150-167 | One round appends types whose dependees are there; if it appends none, every type left depends on one that is left |
| TypeGraphs.StuckHasCycle | ir/analyzer/type_graph.go:164-167 | If no type can be appended and some are left, there is a cycle |
| TypeGraphs.TypeGraph.AllTransitiveDependees | ir/analyzer/type_graph.go:48-70 | Exactly the types that the type depends on over one or more steps, each once |
| TypeGraphs.TypeGraph.AllTransitiveDependants | ir/analyzer/type_graph.go:82-104 | Exactly the types that depend on the type over one or more steps, each once |
| TypeGraphs.TypeGraph.AddDependency | ir/analyzer/type_graph.go:124-131 | Adds one dependency to both tables |

## Left out

- ChannelTheorems.CounterMeansWaiters: where no select is stuck, since two numbers cannot be read off one counter that a stuck select holds back from; `AccountExactly` says what holds in all configurations.
- ChannelTheorems.CommittedNeverStuck: in configurations without a bad channel; `ChannelProgress.CommittedStuckExactly` has the condition for all.
- ReducerBackward.RemovalPreservesReachability: at configurations in which nobody else is committed; `NothingGained` says what holds at the others.
- ReducerPass.PassPreservesReachability: at configurations without committed locations.
- ReducerContexts.HarmlessExactly: for graphs in which handshakes can be told apart; see Findings.
- ChannelCompleteness.StatementsArePerformed: for the statements that the translator makes, on channels that exist and are different from each other, where no select is stuck and the channel that is chosen is not bad.
- ChannelCompleteness.PanicsArePerformed: the first time for each channel, because a bad channel has no edges left.
- Allocators.SizeTables: says nothing where a count is at the cap or above the configured maximum.
- CostsReached.CostIsReached: for functions without break, continue and early returns whose loops can make all their passes and end; behind a statement that leaves early the count is only a bound.
- DeferredCalls.Processes.Run: one goroutine, and one pool of process ids for all functions instead of one for each; panic flags of the generation without OptimizeIR.
- DeadCodeEliminator.EliminatedExactly: for functions whose dropped loops can end, and whose labels behind the first bare return do not occur before it; calls through nil function variables are not told apart from calls without effect.
- IrBodies.PassesBounded: for loops with a maximum, because without one passes are not counted.
- UppaalProcess.Process.AddState: state names are not checked for invalid characters, and the panics of the builder are preconditions.
- Deadlock freedom of reduced networks: the reducer is compared by reachability.
- Whether the translator sets every flag about globals as it should; the flags of edges without a sync are taken to tell the truth.
- The automata of channels, mutexes and wait groups are tables of edges, and the statements on them are sets of edges; their construction by AddState and AddTransition calls is not repeated here. Control flow and the optimisers are modelled on objects.
- Goroutines in the resource automata may do any statement at any time; the control flow of a program restricts them further.
- The observers for capacities, sent and received values, readers, writers and totals are additions of the model that no guard reads.
- Nil channels, the same channel twice in one select, negative buffer sizes, and the values that are sent.
- Guards and updates are sequences of opaque atoms with a meaning as a parameter; selections of random values are taken as a value given to the edge.
- Range loops over containers. Basic statements are one labelled edge in the control flow; guards, syncs and updates of a label are modelled with the channels.
- States of a switch are numbered with conditions first, where the program takes turns; names and positions are not modelled there.
- Iteration over Go maps is an arbitrary choice.
- sync.Once, whose allocations the analysis does not count, and types that are initialised or copied inside other types.
- Overflow of machine integers in products of counts.
- XTA, UGI and XML output, locations, nails, comments and queries; helper text for slices, maps and structures.
- The builder, its packages and the command line.
