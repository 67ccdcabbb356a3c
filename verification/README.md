# COLT core: what its concurrency, caches and parsers guarantee

COLT is a live-coding tool: a Java core that compiles, launches and watches programs, with a
user interface that carries its own copy of jQuery. This project models the parts of it whose
correctness is not visible in any one function, and proves what they guarantee. It is checked
with `dafny verify dfyconfig.toml`.

* `SelectorModel`, `SelectorCache`, `SelectorCompiler`: the selector engine. A selector has a
  declarative reading, a compiled matcher chain and a matcher that remembers verdicts in slots
  shared by all combinators of a direction. The three are proved to agree.
* `ChildPositions`: the positional pseudo-classes, which find a child's position by going on
  from the one remembered last.
* `CallbackLists`, `Deferreds`, `Deliveries`, `DeferredObjects`: callback lists that are changed
  while they are fired, the promises built from three of them, and what each handler of a promise
  is called with.
* `WaitSemaphore`, `ProcessLifecycle`, `OutputReading`, `ProcessOutput`, `TaskScheduling`: the
  process handler with its deferred tasks and waiters, the threads that read a process's output,
  and the single-worker scheduler. Each protocol is a transition system over any number of
  threads, one atomic step per read, compare-and-set or synchronized block; a theorem about it
  holds in every interleaving. Objects that one thread updates in place are classes whose
  methods are proved against the functions of the protocol.
* `PathTokens`, `CommandLine`, `SocketFraming`, `RemoteSecurity`, `SourcesTracking`,
  `Ellipsis`: path tokens and their expansion, the command-line splitter against its quoting,
  message framing, the persisted token list with its cache and short codes, the polled source
  tree with its cached listing, and the binary search that shortens a text.
* `Options`, `Sequences`, `Strings`: shared vocabulary.

Seven results are about what the code does not do. A `destroyProcessImpl` or `detachProcessImpl`
that throws while deferred tasks are being run takes the tasks behind it along
(`ProcessLifecycle.ThrowingTaskLosesTheNextOne`; `LostByThrow` says that no other task is lost).
`TasksManager.dispose` can leave its executor waiting until new work comes
(`TaskScheduling.StopCanBeMissed`). Whether it does depends on where the executor stands:
`StopCanBeSeenExactlyWhen` says when it can still stop, `StopIsSeenExactlyWhen` when it is sure
to. Quoting and splitting a command line, and storing and reading a token list, are inverse for
exactly the lists that `CommandLine.SplittingUndoesQuoting` and `RemoteSecurity.ParseUndoesJoin`
describe; `CommandLine.DirectoryDoesNotComeBack` and `RemoteSecurity.BadTokensDoNotComeBack` are
inputs outside. The scheduled rescans of the source tree are at polls 101, 201 and so on, so
that the first one is a poll later than the distance of a hundred between the others suggests
(`SourcesTracking.ScansExactlyWhen`). The ellipsis search falls back to letters only for a text
with a place where it may be cut, and never for a single word
(`Ellipsis.FallbackNeedsACut`, `SingleWordIsNotShortened`). The stripping of last characters
does not end on some texts if the empty string is among those to remove
(`Ellipsis.StrippingEndsExactlyWhen`, `StrippingCanGoOnForGood`). And making a path relative can
leave the directory in it if the directory could begin inside its token
(`PathTokens.DirectoryAlwaysGoes`, `SomeDirectoriesTouch`).

Outside influences are parameters: the reads and their sizes, the interleaving, the random
codes and tokens (generated tokens are eight hexadecimal digits of a UUID, and so always good:
not blank and without the separator), whether preferences can be written back, the two base directories, the
platform's path separator and line terminator, the height of a laid-out text, and for each poll
of the source tree the time, the files with their time stamps, the scan results, the files a
factory wraps and those whose checksum differs.

## Model

| member | source | states |
|---|---|---|
| `SelectorCache.Engine.Match` | src/main/resources/codeOrchestra/colt/core/ui/components/shared/jquery.js:2475-2537 | With the shared per-element slots, a compiled matcher gives the verdict it would give with nothing remembered, for every document, context, nesting of combinators and content of the slots that the invariant allows; and it leaves the slots so that the next test may rely on them. |
| `SelectorCache.Engine.MatchAll` | src/main/resources/codeOrchestra/colt/core/ui/components/shared/jquery.js:2525-2537 | The matchers of a compound, tried from the last to the first, accept exactly when all of them do. |
| `SelectorCache.Engine.MatchClosest` | src/main/resources/codeOrchestra/colt/core/ui/components/shared/jquery.js:2480-2488 | A `first` combinator asks the closest node that counts, and no other. |
| `SelectorCache.Engine.MatchCached` | src/main/resources/codeOrchestra/colt/core/ui/components/shared/jquery.js:2490-2522 | The memoised walk returns what the unmemoised walk returns, although inner walks take over slots and fill cells that were replaced meanwhile. |
| `SelectorCache.Engine.MatchUncached` | src/main/resources/codeOrchestra/colt/core/ui/components/shared/jquery.js:2496-2503 | The walk used for XML returns the plain verdict. |
| `SelectorCache.Engine.SuperMatcher` | src/main/resources/codeOrchestra/colt/core/ui/components/shared/jquery.js:2713-2746 | An outermost run returns exactly the seed elements that some group accepts, in seed order, whatever earlier runs left in the slots; the run counters move as the slots' keys need it. |
| `SelectorCache.Engine.MatchGroups` | src/main/resources/codeOrchestra/colt/core/ui/components/shared/jquery.js:2734-2741 | Comma-separated groups share the slots without disturbing each other's verdicts. |
| `SelectorCache.Visited` | src/main/resources/codeOrchestra/colt/core/ui/components/shared/jquery.js:2512-2518 | A first visit (install a cell, ask the inner matcher, fill the cell) keeps every slot of the combinator truthful, even when the inner matcher takes the slot over in between. |
| `SelectorCache.Framed` | src/main/resources/codeOrchestra/colt/core/ui/components/shared/jquery.js:2507-2512 | Slots overwritten by another combinator only lose information: what is claimed of the others stays true. |
| `SelectorCache.NextElement` | src/main/resources/codeOrchestra/colt/core/ui/components/shared/jquery.js:2742-2745 | When the element counter moves on, a number in a slot no longer promises that nothing further along matches, and every other claim survives. |
| `SelectorCompiler.WalkAny` | src/main/resources/codeOrchestra/colt/core/ui/components/shared/jquery.js:2496-2503 | The walk over all nodes of a direction succeeds exactly if some node there that counts is accepted. |
| `SelectorCompiler.WalkFirst` | src/main/resources/codeOrchestra/colt/core/ui/components/shared/jquery.js:2480-2488 | The walk of a `first` combinator succeeds exactly if the closest node that counts is accepted. |
| `SelectorCompiler.ReachesMeansLeads` | src/main/resources/codeOrchestra/colt/core/ui/components/shared/jquery.js:2480-2505 | A walk in a direction comes by exactly the nodes to which a chain of the document's own links leads: through `parentNode` the ancestors, through `previousSibling` every earlier sibling. |
| `SelectorCompiler.ClosestIsRelated` | src/main/resources/codeOrchestra/colt/core/ui/components/shared/jquery.js:2475-2488 | The closest counted node in a direction is the one that the child and the adjacent combinator name (section 8 of W3C Selectors Level 3): the parent, or the earlier sibling with no element on the links between. |
| `SelectorCompiler.CombinatorMeaning` | src/main/resources/codeOrchestra/colt/core/ui/components/shared/jquery.js:2475-2523 | A combinator asks exactly the nodes that its relation names, child, descendant, adjacent or general sibling, each stated as a chain of the document's links. |
| `SelectorCompiler.SiblingsAreFound` | src/main/resources/codeOrchestra/colt/core/ui/components/shared/jquery.js:2475-2523 | On a concrete page `a + b` and `a ~ b` find an element with a text node before it, and `a > b` does not. |
| `SelectorCompiler.FoundationMeans` | src/main/resources/codeOrchestra/colt/core/ui/components/shared/jquery.js:2655-2672 | The foundational matcher ties the leftmost compound to the context by the leading relation, or by descent if there is none and the context is the outermost one. |
| `SelectorCompiler.RelationMeans` | src/main/resources/codeOrchestra/colt/core/ui/components/shared/jquery.js:2675-2676 | Wrapping the chain in a combinator means the selector extended by that relation. |
| `SelectorCompiler.SimpleMeans` | src/main/resources/codeOrchestra/colt/core/ui/components/shared/jquery.js:2677-2702 | Pushing a base filter means the compound extended by that simple selector. |
| `SelectorCompiler.Compiler.MatcherFromTokens` | src/main/resources/codeOrchestra/colt/core/ui/components/shared/jquery.js:2653-2706 | For every token list without positional pseudo-classes the compiled chain accepts an element, in every document and context, exactly when the declarative reading of the selector selects it; done-names never repeat along a chain. |
| `SelectorCompiler.Compiler.Compile` | src/main/resources/codeOrchestra/colt/core/ui/components/shared/jquery.js:2809-2834 | One matcher per group, each meaning its group, with names that no two groups share. |
| `SelectorCompiler.Sizzle.Compile` | src/main/resources/codeOrchestra/colt/core/ui/components/shared/jquery.js:1298-1310 | A selector compiled before comes back as it was, with the counter its runs have reached; otherwise it is compiled. At most fifty are remembered, the oldest goes first, and the others stay as they were. |
| `SelectorCompiler.Sizzle.Select` | src/main/resources/codeOrchestra/colt/core/ui/components/shared/jquery.js:2708-2834 | With a cached or a new matcher, and the slots and counters that earlier runs left, a query selects from its seed what the comma-separated selector declares. |
| `SelectorCompiler.SelectionKeepsOrder` | src/main/resources/codeOrchestra/colt/core/ui/components/shared/jquery.js:2732-2746 | What is selected from a seed is, node by node and in its order, what some group selects. |
| `SelectorCompiler.Session` | src/main/resources/codeOrchestra/colt/core/ui/components/shared/jquery.js:2475-2834 | Any number of queries in a row, over documents that may change in between, with one set of slots and one cache of compiled matchers: each returns exactly the seed elements that its selector declares. |
| `ChildPositions.CycleMeaning` | src/main/resources/codeOrchestra/colt/core/ui/components/shared/jquery.js:2139-2141 | The final test holds exactly if some n >= 0 gives position = first*n + last, for all integers first and last, zero and negative included (section 6.6.5.2 of W3C Selectors Level 3). |
| `ChildPositions.PositionIsSize` | src/main/resources/codeOrchestra/colt/core/ui/components/shared/jquery.js:2120-2137 | The position that the filters count to is the number of siblings up to the child, or from it on, that are elements or, for the of-type forms, have its name. |
| `ChildPositions.ChildFilter.Seek` | src/main/resources/codeOrchestra/colt/core/ui/components/shared/jquery.js:2093-2114 | Seeking on from the remembered index, wrapping once to the first child, terminates and finds the element's true position; what is remembered afterwards is true as well. |
| `ChildPositions.ChildFilter.CountUpTo` | src/main/resources/codeOrchestra/colt/core/ui/components/shared/jquery.js:2120-2137 | Counting from either end finds the true position, and every position remembered on the way is the true one. |
| `ChildPositions.ChildFilter.Matches` | src/main/resources/codeOrchestra/colt/core/ui/components/shared/jquery.js:2057-2144 | The compiled `:nth-`, `:first-`, `:last-` and `:only-` filters accept exactly the children that the pseudo-class declares, with any remembered positions of the same run. |
| `ChildPositions.ChildFilter.Alone` | src/main/resources/codeOrchestra/colt/core/ui/components/shared/jquery.js:2078-2091 | The sibling loop of `:first-`, `:last-` and `:only-` with its reversal of direction accepts exactly when no counted sibling lies on the side, or sides, in question. |
| `ChildPositions.TestAll` | src/main/resources/codeOrchestra/colt/core/ui/components/shared/jquery.js:2057-2144 | Any number of tests in one run, in any order and of any kind, give the declared verdicts: what earlier tests remembered never shows. |
| `ChildPositions.TestRuns` | src/main/resources/codeOrchestra/colt/core/ui/components/shared/jquery.js:2057-2144 | The same for any number of runs over pages that may change between them, with what earlier runs left on the nodes. |
| `CallbackLists.Reached` | src/main/resources/codeOrchestra/colt/core/ui/components/shared/jquery.js:3040-3119 | In every run of one list, with any calls of add, remove and fire made by callbacks or from outside, the list, the two indices and the calls made fit together. |
| `CallbackLists.PassServesEveryRegistration` | src/main/resources/codeOrchestra/colt/core/ui/components/shared/jquery.js:3040-3119 | During a pass firingLength is the length of the list; calls are in registration order, none twice; when the pass ends every registration it serves that is still in the list was called, those added meanwhile included. |
| `CallbackLists.NextCallIsTheFirstUncalled` | src/main/resources/codeOrchestra/colt/core/ui/components/shared/jquery.js:3047-3052 | The next call goes to a registration not yet called in this pass, with nothing uncalled before it. |
| `CallbackLists.RemovedStaysSilent` | src/main/resources/codeOrchestra/colt/core/ui/components/shared/jquery.js:3100-3119 | A removed registration is never called again. |
| `CallbackLists.FiresAreServedInOrder` | src/main/resources/codeOrchestra/colt/core/ui/components/shared/jquery.js:3040-3065 | In every run the fires made by the user's code, the first one only for a list that fires once, are served in the order of the calls, each with its own value; those made during a pass wait, in order, and none waits when nothing is being fired. |
| `CallbackLists.NextFireBeginsItsPass` | src/main/resources/codeOrchestra/colt/core/ui/components/shared/jquery.js:3055-3060 | The next value has its turn only when nothing is being fired or the pass before has called all it had to call, and its pass begins with the first entry. |
| `CallbackLists.AddedAreListed` | src/main/resources/codeOrchestra/colt/core/ui/components/shared/jquery.js:3069-3098 | Functions that the user's code adds stand at the end of the list in their order; a pass under way goes on, a list that remembers and was fired begins a pass of their own with the value served last, and any other stays at rest. |
| `CallbackLists.RemovalTurn` | src/main/resources/codeOrchestra/colt/core/ui/components/shared/jquery.js:3104-3115 | One turn of the removal loop splices out the next occurrence and moves the firing index exactly if that position was reached. |
| `CallbackLists.Callbacks.Remove` | src/main/resources/codeOrchestra/colt/core/ui/components/shared/jquery.js:3100-3119 | The in-place removal with its index patches leaves the list, firingIndex and firingLength that filtering the list gives. |
| `CallbackLists.Callbacks.RemoveOne` | src/main/resources/codeOrchestra/colt/core/ui/components/shared/jquery.js:3102-3116 | All occurrences of one callback go; firingIndex becomes the number of kept entries up to it, less one. |
| `CallbackLists.Callbacks.Add` | src/main/resources/codeOrchestra/colt/core/ui/components/shared/jquery.js:3069-3098 | The given functions are pushed in order; a pass under way is extended to them, and a list that remembers fires them at once. |
| `CallbackLists.Replay` | src/main/resources/codeOrchestra/colt/core/ui/components/shared/jquery.js:3015-3177 | The object with its in-place updates goes through exactly the states of the run that the lemmas are about. |
| `Deferreds.Reached` | src/main/resources/codeOrchestra/colt/core/ui/components/shared/jquery.js:3180-3265 | In every script of registrations, resolve, reject and notify calls, made from outside or by handlers of nested passes, the three lists, the stack of passes, the state and the calls made fit together. |
| `Deferreds.SettlesOnce` | src/main/resources/codeOrchestra/colt/core/ui/components/shared/jquery.js:3187-3244 | The state leaves pending at most once, and neither it nor the settling call changes afterwards, in every script of re-entrant calls. |
| `Deferreds.OnlyTheWinnersHandlersRun` | src/main/resources/codeOrchestra/colt/core/ui/components/shared/jquery.js:3238-3252 | Done handlers run only if resolved and fail handlers only if rejected; with the settled value, in registration order, none twice. |
| `Deferreds.EveryWinningHandlerHasRun` | src/main/resources/codeOrchestra/colt/core/ui/components/shared/jquery.js:3234-3252 | Once settled and outside all passes, exactly the registered handlers of the winning kind have run, whether added before, during or after the settlement. |
| `Deferreds.OnlyTheFirstCallSettles` | src/main/resources/codeOrchestra/colt/core/ui/components/shared/jquery.js:3238-3252 | After the settlement resolve, reject and notify change nothing at all; before it, a resolve or reject settles at the next turn. What a notify does before it is stated by `Deliveries.ProgressDeliveries`. |
| `Deliveries.ProgressDeliveries` | src/main/resources/codeOrchestra/colt/core/ui/components/shared/jquery.js:3180-3265 | In every script each value notified while the deferred is pending, during a pass or not, goes in the order of the calls once to every progress handler, in the order of registration; a handler that comes later is called from the last value on. At any time the calls made are a beginning of that, and all of it when nothing is being fired; a settlement drops the values still waiting and nothing else. |
| `Deliveries.OutcomeDeliveries` | src/main/resources/codeOrchestra/colt/core/ui/components/shared/jquery.js:3180-3265 | When nothing is being fired, the state is that of the script's first resolve or reject; every handler of its kind, registered before, during or after, has been called once with its value in the order of registration, and none of the other kind. |
| `Deliveries.StepFollows` | src/main/resources/codeOrchestra/colt/core/ui/components/shared/jquery.js:3180-3265 | Every call by the user's code and every turn of a pass keeps the three lists, what waits and the calls made in agreement with what the script has asked for. |
| `Deliveries.QuietFrom` | src/main/resources/codeOrchestra/colt/core/ui/components/shared/jquery.js:3047-3060 | From every state of every script the passes come to an end if no further calls are made. |
| `Deliveries.FirstNotifyIsHeard` | src/main/resources/codeOrchestra/colt/core/ui/components/shared/jquery.js:3252 | One progress handler, one notify: when all passes are over it has been called with the value, once. |
| `DeferredObjects.DeferredObject.Perform` | src/main/resources/codeOrchestra/colt/core/ui/components/shared/jquery.js:3180-3265 | Every call on the object of three callback lists updated in place, and every turn of its passes, takes it to the next state of the script. |
| `DeferredObjects.Replay` | src/main/resources/codeOrchestra/colt/core/ui/components/shared/jquery.js:3180-3265 | The object ends any script with the state and the calls of handlers that the results about scripts speak of, and if nothing is being fired these are exactly what the script owes its done, fail and progress handlers. |
| `WaitSemaphore.EveryRunIsAtomic` | src/main/java/codeOrchestra/util/concurrency/Semaphore.java:21-43 | Under every interleaving of the compare-and-set loops the visible events are a history of a counter whose operations are single steps, and the count is downs minus effective ups. |
| `WaitSemaphore.PassedOnlyAtZero` | src/main/java/codeOrchestra/util/concurrency/Semaphore.java:22-24 | A waiter goes on only at a moment when every down has been undone. |
| `WaitSemaphore.RetryMeansProgress` | src/main/java/codeOrchestra/util/concurrency/Semaphore.java:26-42 | A compare-and-set fails only because another thread's succeeded since the read. |
| `WaitSemaphore.EveryCallHasItsEvent` | src/main/java/codeOrchestra/util/concurrency/Semaphore.java:21-43 | Of every kind, the calls made by idle threads are as many as the visible events and the threads still inside such a call. |
| `WaitSemaphore.AloneGetsThrough` | src/main/java/codeOrchestra/util/concurrency/Semaphore.java:21-43 | Left alone a thread is through with a down or an up after three steps, and with a wait after one exactly if every down has been undone. |
| `ProcessLifecycle.Reached` | src/main/java/codeOrchestra/colt/core/execution/ProcessHandler.java:48-205 | Every interleaving of any number of threads keeps the three invariants below together. |
| `ProcessLifecycle.StepConserves` | src/main/java/codeOrchestra/colt/core/execution/ProcessHandler.java:182-205 | Every atomic step of any thread keeps each submitted task in exactly one place and begun at most once. |
| `ProcessLifecycle.StepKeepsStartOrder` | src/main/java/codeOrchestra/colt/core/execution/ProcessHandler.java:55-62 | No step runs a task before the start; after the start, whatever is still pending is about to be picked up by some thread. |
| `ProcessLifecycle.StepKeepsOneWinner` | src/main/java/codeOrchestra/colt/core/execution/ProcessHandler.java:115-140 | Every step keeps at most one winner per transition, and the semaphore at one until the winner's dispatch is over; what the winner and the others do is stated by `TerminationHistory` and `LoserDoesNothing`. |
| `ProcessLifecycle.TerminationHistory` | src/main/java/codeOrchestra/colt/core/execution/ProcessHandler.java:77-140 | In a whole run one task at most wins the move to TERMINATING; it alone announces it, once, and then, being a destroy or detach, enters its implementation, once. Whoever has won has done all of this when no call is in progress. |
| `ProcessLifecycle.LoserDoesNothing` | src/main/java/codeOrchestra/colt/core/execution/ProcessHandler.java:77-93 | A destroy or detach that finds any phase but RUNNING ends at its compare-and-set; its thread goes on with the rest of its batch, and the task announces nothing and enters no implementation ever after. |
| `ProcessLifecycle.RestCanAlwaysCome` | src/main/java/codeOrchestra/colt/core/execution/ProcessHandler.java:48-205 | From every reachable state the threads can come to rest by going on: none is stuck inside start, execute or a task. |
| `ProcessLifecycle.TasksBeginOnceAfterStart` | src/main/java/codeOrchestra/colt/core/execution/ProcessHandler.java:173-205 | Under every interleaving of any number of callers no thread enters a task before the state leaves INITIAL, and no task is entered twice. |
| `ProcessLifecycle.NoTaskIsLost` | src/main/java/codeOrchestra/colt/core/execution/ProcessHandler.java:173-205 | Once started and with no call in progress the pending list is empty, and the tasks that have begun are exactly those that some call has submitted and no throw took along from behind the running task of its batch. |
| `ProcessLifecycle.LostByThrow` | src/main/java/codeOrchestra/colt/core/execution/ProcessHandler.java:182-205 | In every run, at rest or not, a submitted task is dropped, no longer held or queued by anyone and not begun, if and only if such a throw took it along. |
| `ProcessLifecycle.SubmittedByCalls` | src/main/java/codeOrchestra/colt/core/execution/ProcessHandler.java:182-195 | The tasks known to the handler are exactly those that a call by an idle thread has brought. |
| `ProcessLifecycle.StartTakesEffect` | src/main/java/codeOrchestra/colt/core/execution/ProcessHandler.java:55-62 | Once a thread that has called startNotify goes on, the state is INITIAL no more. |
| `ProcessLifecycle.BatchesAreInOrder` | src/main/java/codeOrchestra/colt/core/execution/ProcessHandler.java:182-205 | The pending tasks, and those that a thread has grabbed, stand in the order in which they were added, and a thread runs the first of its batch first. |
| `ProcessLifecycle.PhasesInOrder` | src/main/java/codeOrchestra/colt/core/execution/ProcessHandler.java:37-140 | The phases are passed in order, one at a time, and the moves to TERMINATING and TERMINATED are counted once each. |
| `ProcessLifecycle.WaitersSeeTheDispatch` | src/main/java/codeOrchestra/colt/core/execution/ProcessHandler.java:68-140 | The listeners are told of the termination at most once, by a termination task, and a waiter goes on, unless interrupted, only after they have been told. |
| `ProcessLifecycle.WaitersStay` | src/main/java/codeOrchestra/colt/core/execution/ProcessHandler.java:68-75 | A thread that calls waitFor stays in it until the listeners have been told or it is interrupted. |
| `ProcessLifecycle.TerminationReleasesWaiters` | src/main/java/codeOrchestra/colt/core/execution/ProcessHandler.java:115-140 | With no call in progress the process counts as terminated, and each waiter can go on, if and only if a termination task has begun; the dispatch is then complete. |
| `ProcessLifecycle.ThrowingTaskLosesTheNextOne` | src/main/java/codeOrchestra/colt/core/execution/ProcessHandler.java:196-205 | A run in which tasks are lost: a deferred destroy throws, and the termination notice behind it is never run. |
| `TaskScheduling.Reached` | src/main/java/codeOrchestra/colt/core/tasks/TasksManager.java:67-144 | Under every interleaving of schedules, synchronized blocks, waits, wake-ups and completion events the queue, the worker flag, the executor and the history agree; in particular queue.remove() never finds the queue empty. |
| `TaskScheduling.StartedInOrder` | src/main/java/codeOrchestra/colt/core/tasks/TasksManager.java:100-144 | The scheduled tasks, each where it was scheduled first, are the completed ones followed by the queue; they are started in that order, each once and one at a time. |
| `TaskScheduling.SubmittedAsScheduled` | src/main/java/codeOrchestra/colt/core/tasks/TasksManager.java:135-144 | Every scheduled task is queued, whatever is queued or running at the time, and no other. |
| `TaskScheduling.CompletionsMatch` | src/main/java/codeOrchestra/colt/core/tasks/TasksManager.java:67-97 | A completion takes the completed task, and no other, off the queue and calls it back; further events of the same task change nothing. |
| `TaskScheduling.ExecutorStartsTheHead` | src/main/java/codeOrchestra/colt/core/tasks/TasksManager.java:100-130 | No wake-up is lost: a waiting executor implies a running task or an empty queue, and a task that can start has been started by the executor's second step, whatever other threads do in between. |
| `TaskScheduling.StopCanBeSeenExactlyWhen` | src/main/java/codeOrchestra/colt/core/tasks/TasksManager.java:42-114 | After dispose some continuation of executor steps and completions stops the executor if and only if it did not stand between its loop test and the lock with an empty queue; if it did, none does. |
| `TaskScheduling.StopIsSeenExactlyWhen` | src/main/java/codeOrchestra/colt/core/tasks/TasksManager.java:42-114 | The stop stays possible whatever happens if and only if the executor did not stand there with no task behind the running one. |
| `TaskScheduling.StopCanBeMissed` | src/main/java/codeOrchestra/colt/core/tasks/TasksManager.java:42-112 | A run that strands the executor: an idle manager is disposed just after the loop test, and no continuation without new work or a spurious wake-up ever stops it. |
| `TaskScheduling.StopCanBeMissedByCompletion` | src/main/java/codeOrchestra/colt/core/tasks/TasksManager.java:42-114 | A run after which it depends on the order: dispose while a task runs, with that task completing before or after the executor takes the lock. |
| `OutputReading.FoldLinesIsReplace` | src/main/java/codeOrchestra/colt/core/execution/OSProcessHandler.java:253-271 | The folding of line ends is the replacement of every CR LF by LF. |
| `OutputReading.FeedKeepsFolded` | src/main/java/codeOrchestra/colt/core/execution/OSProcessHandler.java:253-271 | One character keeps the relation between the input so far, the text handed on, the token and the pending carriage return. |
| `OutputReading.ReadProcessThread.ReadAvailable` | src/main/java/codeOrchestra/colt/core/execution/OSProcessHandler.java:244-291 | One pass, in any division into reads, hands on the folded input but for a final pending CR; tokens are not empty and hold LF at most at their end; the result code and the closing of the reader follow the termination flag. |
| `OutputReading.DeliveredIsAll` | src/main/java/codeOrchestra/colt/core/execution/OSProcessHandler.java:246-251 | A pass of which every read delivers something takes all of it. |
| `OutputReading.ChunkingDoesNotMatter` | src/main/java/codeOrchestra/colt/core/execution/OSProcessHandler.java:244-291 | However the same characters are divided into reads and passes, the same text comes out and the same carriage return stays pending. |
| `OutputReading.ReadAll` | src/main/java/codeOrchestra/colt/core/execution/OSProcessHandler.java:222-291 | The reader's loop makes passes until one that finds the termination flag, set by another thread before any of them; the text handed on is what those passes read with every CR LF replaced by LF, but for one final carriage return. |
| `ProcessOutput.Reached` | src/main/java/codeOrchestra/colt/core/execution/OSProcessHandler.java:109-156 | Under every interleaving of the two readers, the thread waiting for the exit, the starter and the process itself, what each knows about the others holds. |
| `ProcessOutput.TextPrecedesTermination` | src/main/java/codeOrchestra/colt/core/execution/OSProcessHandler.java:124-156 | No text event of either stream follows processTerminated, which is dispatched once. |
| `ProcessOutput.NoOutputIsLost` | src/main/java/codeOrchestra/colt/core/execution/OSProcessHandler.java:130-148 | When processTerminated is dispatched, the process has exited and everything it wrote to either stream until then has been handed on with its line ends folded, but for one final carriage return. |
| `ProcessOutput.ProducedIsWritten` | src/main/java/codeOrchestra/colt/core/execution/OSProcessHandler.java:244-251 | What the readers have to read of a stream is what the process wrote to it before its exit, character by character. |
| `ProcessOutput.TerminationCanAlwaysCome` | src/main/java/codeOrchestra/colt/core/execution/OSProcessHandler.java:73-156 | No deadlock: from every reachable state some continuation, in which the process exits and writes no more, dispatches processTerminated. |
| `PathTokens.TokenRestoresDirectory` | src/main/java/codeOrchestra/util/PathUtils.java:44-52 | Substituting a directory by a token and the token by the directory gives the path back, for every path without the token and every directory, the empty one included. |
| `PathTokens.OtherTokenStaysAway` | src/main/java/codeOrchestra/util/PathUtils.java:67-71 | The substitution creates no occurrence of the other token: expanding that one changes nothing. |
| `PathTokens.RoundTrip` | src/main/java/codeOrchestra/util/PathUtils.java:34-76 | Expanding what makeRelative gives is the original path, in either iteration order of the tokens. |
| `PathTokens.DirectoryAlwaysGoes` | src/main/java/codeOrchestra/util/PathUtils.java:44-52 | For a directory without a dollar sign, some path keeps an occurrence of it after the substitution if and only if the directory could begin inside the token, which is when an end of the token and the directory have one as the beginning of the other. |
| `PathTokens.RelativeHasNoDirectory` | src/main/java/codeOrchestra/util/PathUtils.java:34-55 | For directories of which that is not so: a path that contains the project directory and not the application's has no occurrence of it left, and the other way round; a path that contains neither stays as it is. |
| `PathTokens.SomeDirectoriesTouch` | src/main/java/codeOrchestra/util/PathUtils.java:44-52 | An ordinary directory is of that kind, and one named by a letter of the token is not: it stays in the path. |
| `PathTokens.NormalizeTurnsSlashes` | src/main/java/codeOrchestra/util/FileUtils.java:40-45 | Normalising turns each slash of the other platform round and leaves every other character. |
| `PathTokens.MakeAbsolute` | src/main/java/codeOrchestra/util/PathUtils.java:57-76 | The loop over the tokens computes their expansion in order, then the normal form; null and the empty path are returned as they are. |
| `PathTokens.TokenIsExpanded` | src/main/java/codeOrchestra/util/PathUtils.java:57-76 | In any path and in either order of the tokens, where a token stands its directory comes, and what is in front and behind is expanded by itself, for directories without a dollar sign that do not begin with a character of a token. |
| `PathTokens.NothingExpanded` | src/main/java/codeOrchestra/util/PathUtils.java:57-76 | A path without a token is its own expansion. |
| `PathTokens.ThereAndBack` | src/main/java/codeOrchestra/util/PathUtils.java:34-76 | makeAbsolute after makeRelative is normalize, for every path containing neither token. |
| `CommandLine.SplitCommandInParts` | src/main/java/codeOrchestra/util/process/ProcessHandlerBuilder.java:68-93 | The index loop computes the character-wise scan that the lemmas are about. |
| `CommandLine.SplitAtSeparator` | src/main/java/codeOrchestra/util/process/ProcessHandlerBuilder.java:68-93 | A space with an even number of unescaped quotes before it splits any command in two that are split by themselves. |
| `CommandLine.SplitIsOneWord` | src/main/java/codeOrchestra/util/process/ProcessHandlerBuilder.java:68-93 | A command without such a space is one part: all its characters but the unescaped quotes and the backslashes in front of quotes; no part if none is left. |
| `CommandLine.SplitUndoesProtect` | src/main/java/codeOrchestra/util/process/JavaLauncher.java:116-121 | Splitting the space-joined protected arguments gives the arguments back, for all lists of arguments that survive quoting. |
| `CommandLine.SplittingUndoesQuoting` | src/main/java/codeOrchestra/util/process/ProcessHandlerBuilder.java:68-93 | And for no other lists: the round trip holds if and only if every argument is non-empty, has no double quote and, if it has a space, does not end in a backslash. |
| `CommandLine.QuoteAfterBackslashIsKept` | src/main/java/codeOrchestra/util/process/ProcessHandlerBuilder.java:74-91 | What becomes of a quoted argument that ends in a backslash: the backslash goes and the closing quote stays in the argument. |
| `CommandLine.DirectoryDoesNotComeBack` | src/main/java/codeOrchestra/util/process/ProcessHandlerBuilder.java:74-91 | The same for a Windows directory with a space in its name. |
| `CommandLine.SplitHasNoEmptyPart` | src/main/java/codeOrchestra/util/process/ProcessHandlerBuilder.java:80-91 | On any input every part has at least one character. |
| `CommandLine.BackslashesAreKept` | src/main/java/codeOrchestra/util/process/ProcessHandlerBuilder.java:84-87 | The scan drops exactly the backslashes in front of quotes, and no other. |
| `CommandLine.AppendAddsOnePart` | src/main/java/codeOrchestra/util/process/ProcessHandlerBuilder.java:22-29 | Appending one protected argument adds exactly that argument if and only if it survives the quoting and is not a blank without a space. |
| `CommandLine.ProcessHandlerBuilder.Append` | src/main/java/codeOrchestra/util/process/ProcessHandlerBuilder.java:22-29 | A command with a character above the space adds its parts in order; any other, and none, adds nothing. |
| `CommandLine.ProcessHandlerBuilder.AppendKey` | src/main/java/codeOrchestra/util/process/ProcessHandlerBuilder.java:31-36 | A key and a parameter that both have a character above the space add the parts of both, the key behind a dash; otherwise nothing changes. |
| `SocketFraming.CutLosesNothing` | src/main/java/codeOrchestra/colt/core/socket/ClientSocketHandler.java:89-104 | The closed and the open pieces of a stream contain no delimiter and, put together again, are the stream. |
| `SocketFraming.CutUndoesStream` | src/main/java/codeOrchestra/colt/core/socket/ClientSocketHandler.java:89-104 | They are the only pieces that are. |
| `SocketFraming.ClientSocketHandler.ReadOnce` | src/main/java/codeOrchestra/colt/core/socket/ClientSocketHandler.java:82-105 | One read through the buffer, its marker and soFar carries on as if its bytes had been appended to the stream. |
| `SocketFraming.ClientSocketHandler.Run` | src/main/java/codeOrchestra/colt/core/socket/ClientSocketHandler.java:72-108 | For every sequence of reads the handled messages are the delimited pieces of the bytes consumed, in order, and soFar is the open tail. |
| `SocketFraming.SentIsReceived` | src/main/java/codeOrchestra/colt/core/socket/ClientSocketHandler.java:59-62 | Decoding what socketWrite emits returns the messages, each after the first behind the line terminator, if and only if no message contains a zero byte. |
| `SocketFraming.SendAndReceive` | src/main/java/codeOrchestra/colt/core/socket/ClientSocketHandler.java:59-108 | The same for the two loops together, through any reads. |
| `SourcesTracking.ScansExactlyWhen` | src/main/java/codeOrchestra/colt/core/session/sourcetracking/SourcesTracker.java:28-41 | A poll scans the directories if and only if the poll before it reported something or a multiple of a hundred polls came before it. |
| `SourcesTracking.ScansAreNear` | src/main/java/codeOrchestra/colt/core/session/sourcetracking/SourcesTracker.java:28-41 | Of any hundred and one polls in a row one scans; after the first poll, of any hundred. |
| `SourcesTracking.NewFileIsReported` | src/main/java/codeOrchestra/colt/core/session/sourcetracking/SourcesState.java:24-58 | A file that the poll before did not look at and that is there, listed and with a wrapper, for a hundred and one polls is reported by one of them. |
| `SourcesTracking.LastingFileIsReported` | src/main/java/codeOrchestra/colt/core/session/sourcetracking/SourcesState.java:24-58 | A file that is there up to the next scan is reported no later than by that scan. |
| `SourcesTracking.CacheChangesNothing` | src/main/java/codeOrchestra/colt/core/session/sourcetracking/SourcesState.java:24-43 | As long as no file comes or goes, every poll reports what a tracker that scans at every poll would report. |
| `SourcesTracking.ReportIsExact` | src/main/java/codeOrchestra/colt/core/session/sourcetracking/SourcesState.java:69-106 | A poll reports exactly the files that it looks at, as the last scan listed them, that have a wrapper, and that it looks at for the first time, or whose time outside is another than at the poll before (zero for a missing file), or that were modified in the last 1100 ms and rewritten. |
| `SourcesTracking.DeletionIsReportedUnlessScanned` | src/main/java/codeOrchestra/colt/core/session/sourcetracking/SourcesState.java:24-106 | A wrapped file with a time other than zero that disappears is reported if and only if the poll that finds out does not scan. |
| `SourcesTracking.SourcesState.Capture` | src/main/java/codeOrchestra/colt/core/session/sourcetracking/SourcesState.java:24-67 | The loops over directories, cached entries and files give the snapshot of the listing, and fill the shared listing if it was absent. |
| `SourcesTracking.SourcesState.GetChangedFiles` | src/main/java/codeOrchestra/colt/core/session/sourcetracking/SourcesState.java:69-106 | The loop over the snapshot reports the changed wrapped files, and drops the shared listing exactly if it reports any. |
| `SourcesTracking.SourcesTracker.GetChangedFiles` | src/main/java/codeOrchestra/colt/core/session/sourcetracking/SourcesTracker.java:28-41 | One poll takes the counter, the snapshot and the shared listing to the next state of the step that the lemmas are about. |
| `SourcesTracking.SourcesTracker.Run` | src/main/java/codeOrchestra/colt/core/session/sourcetracking/SourcesTracker.java:18-41 | A tracker polled any number of times returns the reports of the specified run. |
| `RemoteSecurity.ParseUndoesJoin` | src/main/java/codeOrchestra/colt/core/rpc/security/ColtRemoteSecurityManager.java:122-142 | Storing and reading a list of tokens gives it back if and only if every token is not blank and has no separator. |
| `RemoteSecurity.BadTokensDoNotComeBack` | src/main/java/codeOrchestra/colt/core/rpc/security/ColtRemoteSecurityManager.java:122-163 | A token with a bar comes back as two, and a blank one not at all. |
| `RemoteSecurity.ParsedStand` | src/main/java/codeOrchestra/colt/core/rpc/security/ColtRemoteSecurityManager.java:152-163 | What is read from any stored string are the texts that stand in it between bars or its ends and have a character above the space. |
| `RemoteSecurity.ParseOfJoin` | src/main/java/codeOrchestra/colt/core/rpc/security/ColtRemoteSecurityManager.java:122-163 | In general each stored string is read back as the tokens that it parses to, in order. |
| `RemoteSecurity.RunKeepsInv` | src/main/java/codeOrchestra/colt/core/rpc/security/ColtRemoteSecurityManager.java:53-163 | In every run from any stored string, with write-backs that may fail, the cache is absent or equal to the parsed string, the failure counter within 0..3, and the tokens in force are good ones. |
| `RemoteSecurity.RunKeepsTidy` | src/main/java/codeOrchestra/colt/core/rpc/security/ColtRemoteSecurityManager.java:110-142 | From a tidy store, and with good tokens, as all generated ones are, every reachable store holds its list in joined form, without duplicates and at most 100 long. |
| `RemoteSecurity.AddIsFaithful` | src/main/java/codeOrchestra/colt/core/rpc/security/ColtRemoteSecurityManager.java:110-120 | Adding a token, where the preferences take the value, yields the stored list with it, without its oldest beyond a hundred, if and only if the token is good. |
| `RemoteSecurity.TokensAreTheNewest` | src/main/java/codeOrchestra/colt/core/rpc/security/ColtRemoteSecurityManager.java:110-142 | The listed tokens are the newest hundred of all additions since the last clearing: the oldest go first. |
| `RemoteSecurity.ValidAfterAdd` | src/main/java/codeOrchestra/colt/core/rpc/security/ColtRemoteSecurityManager.java:110-167 | The answer for a token right after it was stored is yes if and only if it is good and was not the first of an overlong list, which a tidy store excludes. |
| `RemoteSecurity.ValidateAnswers` | src/main/java/codeOrchestra/colt/core/rpc/security/ColtRemoteSecurityManager.java:144-167 | At any time in any run a token is answered to be valid if and only if it stands in the stored string between bars and is not blank. |
| `RemoteSecurity.ValidTokensAreTheNewest` | src/main/java/codeOrchestra/colt/core/rpc/security/ColtRemoteSecurityManager.java:110-167 | From a tidy store and with good tokens it is so if and only if it is among the newest hundred additions since the last clearing. |
| `RemoteSecurity.RedeemedIsTheIssued` | src/main/java/codeOrchestra/colt/core/rpc/security/ColtRemoteSecurityManager.java:53-74 | Asking for the token of a code hands one out if and only if the code has an issue that stands, the preferences take the list and can be written back; it is the token of that issue, and valid from then on if it is good. |
| `RemoteSecurity.CounterCountsMisses` | src/main/java/codeOrchestra/colt/core/rpc/security/ColtRemoteSecurityManager.java:53-66 | The failure counter counts the misses of the whole run, starting over at every fourth; successes do not reset it. |
| `RemoteSecurity.LockoutAtEveryFourthMiss` | src/main/java/codeOrchestra/colt/core/rpc/security/ColtRemoteSecurityManager.java:53-66 | Exactly every fourth miss is answered with too many attempts, and drops all pending codes. |
| `RemoteSecurity.PauseAfterLockout` | src/main/java/codeOrchestra/colt/core/rpc/security/ColtRemoteSecurityManager.java:58-87 | The pause is due before the next code if and only if a lockout came after the last code was made. |
| `RemoteSecurity.RedeemedAtMostAsIssued` | src/main/java/codeOrchestra/colt/core/rpc/security/ColtRemoteSecurityManager.java:53-74 | A code is redeemed at most as often as it was issued, a pending issue not counted. |
| `RemoteSecurity.CodesStandForTheirLastIssue` | src/main/java/codeOrchestra/colt/core/rpc/security/ColtRemoteSecurityManager.java:53-97 | Asking for a code finds its token if and only if the code was issued with that token and since then neither asked for, issued again nor dropped. |
| `RemoteSecurity.ColtRemoteSecurityManager.ObtainAuthToken` | src/main/java/codeOrchestra/colt/core/rpc/security/ColtRemoteSecurityManager.java:53-74 | The outcome and the new state of one redemption, on success, miss, lockout and failing write-back. |
| `RemoteSecurity.ColtRemoteSecurityManager.AddAuthToken` | src/main/java/codeOrchestra/colt/core/rpc/security/ColtRemoteSecurityManager.java:110-120 | The new state of adding a token: contained tokens are not repeated, the first goes beyond the limit. |
| `RemoteSecurity.ColtRemoteSecurityManager.StoreAuthTokens` | src/main/java/codeOrchestra/colt/core/rpc/security/ColtRemoteSecurityManager.java:122-142 | The iterator loop joins the tokens with bars; a value too long for the preferences changes nothing, a failing write-back comes after the change. |
| `RemoteSecurity.ColtRemoteSecurityManager.GetPersistedAuthTokens` | src/main/java/codeOrchestra/colt/core/rpc/security/ColtRemoteSecurityManager.java:152-163 | The loop over the split string returns the tokens that the string parses to. |
| `RemoteSecurity.RunAll` | src/main/java/codeOrchestra/colt/core/rpc/security/ColtRemoteSecurityManager.java:53-167 | Any sequence of operations on the object gives the outcomes and the whole final state of the specified run; each answer about a token is yes exactly if the token stands in the string stored at that moment. |
| `Ellipsis.Search` | src/main/resources/codeOrchestra/colt/core/ui/components/shared/dotdotdot.js:391-429 | The search terminates, also across its restarts on letters, with a part of the pieces that shows while the next one does not, or would be all; with -1 exactly if not even the first piece shows, nor a letter of it where the settings ask for letters, or there is a single piece. |
| `Ellipsis.LastPieceIsLastCut` | src/main/resources/codeOrchestra/colt/core/ui/components/shared/dotdotdot.js:399-419 | For a monotone overflow test the piece found ends at the last place of the text where it may be cut and shows. |
| `Ellipsis.LastLetterIsLongest` | src/main/resources/codeOrchestra/colt/core/ui/components/shared/dotdotdot.js:420-428 | After the restart the letters found are the longest part of the first word, short of all of it, that shows. |
| `Ellipsis.FoundLength` | src/main/resources/codeOrchestra/colt/core/ui/components/shared/dotdotdot.js:391-429 | In terms of the text alone: the longest part up to a cut that shows; if none does and letters are allowed, the longest part of the first word; nothing exactly if there is neither. |
| `Ellipsis.FallbackNeedsACut` | src/main/resources/codeOrchestra/colt/core/ui/components/shared/dotdotdot.js:400-428 | When letters are allowed and some of the first word would show, the search finds something if and only if the text has a place where it may be cut. |
| `Ellipsis.SingleWordIsNotShortened` | src/main/resources/codeOrchestra/colt/core/ui/components/shared/dotdotdot.js:400-428 | A one-word text that does not fit and of which a letter would show, for which the search finds nothing. |
| `Ellipsis.FirstOfTwoWordsIsShortened` | src/main/resources/codeOrchestra/colt/core/ui/components/shared/dotdotdot.js:400-428 | The same text with a second word, for which it finds something. |
| `Ellipsis.StrippingEndsExactlyWhen` | src/main/resources/codeOrchestra/colt/core/ui/components/shared/dotdotdot.js:477-480 | The stripping loop ends if and only if the empty string is not among the characters to remove or the text has a character that is not. |
| `Ellipsis.StrippingCanGoOnForGood` | src/main/resources/codeOrchestra/colt/core/ui/components/shared/dotdotdot.js:477-480 | A text on which it does not end, and one with the same settings on which it does. |
| `Ellipsis.AddEllipsis` | src/main/resources/codeOrchestra/colt/core/ui/components/shared/dotdotdot.js:475-486 | Where the stripping ends, the characters to remove at the end are gone, all of them and no other; the ellipsis is added unless the last character forbids it. |
| `Ellipsis.EllipsisElement` | src/main/resources/codeOrchestra/colt/core/ui/components/shared/dotdotdot.js:381-436 | The text node gets the right part of its text, and what it gets does not overflow; it goes exactly if the search finds nothing; the stripping hangs only on a part on which it does not end. |

## Left out

Selector engine:

- Tokenising by regular expressions, native query shortcuts, and `setMatcher` with positional pseudo-classes; a token is a relation or a base filter.
- `:not`, `:has` and other filters that start an inner run with a fractional run number; base filters are pure, and runs are outermost ones over given seed elements.
- Nodes are numbered in document order and the document does not change during a run; node names come in lower case, attributes and data are inside the base filters. Selectors are told apart by their tokens, which are what the source's cache key, the selector's text, is cut into.
- Whether the context differs from the outermost one is a parameter of the run, not derived from `document`.

Callback lists and deferreds:

- CallbackLists.Callbacks.Add: takes the functions that the source's recursion into nested arrays arrives at, and knows no option `unique`.
- CallbackLists.Callbacks.Next: knows no option `stopOnFalse`, whose break ends a pass early; neither the calls `empty` and `has` nor callbacks that throw are modelled.
- `then`, `always`, `promise`, `pipe` and `when`; a handler's value is an opaque number.

Threads:

- The queue of blocked threads inside AbstractQueuedSynchronizer, unfair wake-up order, and overflow of the semaphore's integer after 2^31 downs.
- Listeners as such: a listener that calls back into the handler is one more thread, and no order between the deliveries of `processWillTerminate` and `processTerminated` is claimed.
- Sequential consistency is taken for granted, also for `mustStop`, which is not volatile.
- TaskScheduling.Step: a task scheduled a second time is ignored, because a JavaFX task can run only once; cancelling a task before it is started is not modelled; the callbacks onOK and onFail, which run after the synchronized block, are recorded in the step that takes the task off the queue.
- ProcessOutput.Step: one start, no detach, no interrupt and no reader error, and a reader that is ready whenever something was written and not read.
- Output is a sequence of characters; decoding bytes into them is not modelled.

Strings, files and stored state:

- Characters stand for the code units of Java and JavaScript strings; halves of surrogate pairs get no special treatment.
- SocketFraming.ClientSocketHandler: works on bytes, because decoding a message piece by piece is not compositional when a character straddles two reads; sleeping between reads and the stop flag only decide how many reads there are.
- PathTokens.RelativeHasNoDirectory: is about directories without a dollar sign that could not begin inside a token; for the project directory `DirectoryAlwaysGoes` shows that this is needed.
- PathTokens.MakeRelative: the directories are parameters; how the application directory is found and created is not modelled.
- CommandLine.ProcessHandlerBuilder: starting the process is left out.
- SourcesTracking.Report: the comparison of MD5 checksums for recently modified files is a parameter of the poll, because it depends on the clock and on whether the factory returns the same wrapper again; a report is a set, since the iteration order of the hash map is not specified. One tracker uses the shared listing, which may be left over from an earlier one.
- RemoteSecurity.ColtRemoteSecurityManager: calls are taken one after the other, although addAuthToken and isValidToken are not synchronized; the pause of a second after a lockout and the listeners are left out; a value longer than 8192 characters is refused, as `java.util.prefs.Preferences.put` specifies.
- Ellipsis.Monotone: that a shorter text is never higher is a property of the browser's layout, assumed where the results say so; without it the search still ends, with a part that shows.
- Ellipsis.EllipsisElement: what happens to the neighbouring nodes when a text node has to go.

Not modelled at all: the user interface, application start and restart, servers and discovery, JSON-RPC, XML, file copying, the rest of jQuery and its plug-ins; `FileUtils.getRelativePath`, `AbstractColtRemoteService.executeInDisplayAndWait` and `UserDataHolderBase`.
