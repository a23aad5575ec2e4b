# Fibers, logging, configuration and locks: a verified model

This project models the hard parts of the server framework and proves what they keep. Each
module is one component; each class updates its fields step by step, as the source does, and is
proved to compute a function of the same module, about which the results are then proved.

| module | component |
|---|---|
| `Pattern`, `PatternNames` | the log pattern scanner `LogFormatter::init` and its output, the format items; names, keys and the default pattern written out |
| `Fiber`, `FiberRuntime` | the coroutine machine: any number of threads, fibers, reference counts and counters; its methods |
| `FiberHistory`, `FiberRuns`, `FiberProgress` | what a list of actions says of each fiber, what all runs show, and runs that reach the end |
| `Logging`, `LogManager` | loggers, appenders, formatter inheritance, delivery of events |
| `LogConfig` | log definitions, the reader of the "logs" variable and its change listener |
| `LogDocuments` | what YAML documents say to that reader, whatever the order of their fields |
| `ConfigLoad`, `Yaml` | flattening a YAML tree and loading it into the registered variables |
| `Listeners` | change notification of configuration variables |
| `Codec`, `ContainerTexts` | the text conversions of nested containers, and the texts themselves |
| `ContainerLoading` | loading documents into variables of container types |
| `LockOrder` | the locks of configuration and logging, their order and the data they guard, for any number of threads |
| `OperationUses` | the table of the data and locks that each operation uses |
| `CounterRace` | the counter of listener ids, which no lock guards: who races on it and when |
| `CasLock` | the test-and-set lock and its scoped guard, for any number of threads |
| `ThreadStart` | the life of a `Thread` object: the start handshake, join and detach |

Runs are sequences of actions of unbounded length, and results about runs hold for all of them.
Fields described as history record what happened and influence nothing.

## Where the code does not do what it is meant to

The model follows the code. Where it falls short of its own comments, the exact condition under
which it does its job is proved, with an input that shows the failure.

- **`%%` in a pattern** (`src/log.cpp:555-558`). The second `%` is not stepped over and starts a
  directive. Escaping literals and parsing gives the list back exactly when no literal has a `%`
  (`Pattern.EscapeSurvivesIffUnused`, `Pattern.EscapeCounterexample`). The other results about the
  scanner hold for all patterns, with `%%` read as the code reads it.
- **The change listener of "logs"** (`src/log.cpp:865-922`). An unchanged definition leaves the
  logger pointer null and is used all the same, and the test for dropped definitions compares with
  the end of the wrong set. The listener as written does its job exactly when every new definition
  is new or changed and no old one is dropped (`LogConfig.WrittenWorksIffEveryDefinitionChanged`,
  `LogConfig.WrittenCrashesOnKeptDefinition`). Over a sequence of changes it survives exactly when no
  two successive values that differ share a definition, and has done its job exactly when the last
  value also defines all that was ever defined (`LogConfig.WrittenOverChanges`). The results called
  agreement are about the listener as its comments describe it.
- **Names with a 9, and the empty name** (`src/config.cpp:26`, `src/config.cpp:52`,
  `src/config.h:558`). The registry admits them, the loader does not. The rule of the last
  conversion holds for a registered name on all trees exactly when the name is not empty and has no
  9 (`ConfigLoad.RuleHoldsIffNoNine`, `ConfigLoad.NineIsNotLoaded`,
  `ConfigLoad.EmptyNameIsNotLoaded`).
- **Strings inside containers** (`src/config.h:137-142`). Elements pass through a YAML tree, and a
  string that loads as something other than a scalar does not come back. Decoding the encoding of a
  value gives the value with each leaf replaced by what becomes of it on that trip
  (`Codec.DecodeOfEncode`). So a nesting of lists and maps comes back exactly when each of its own
  leaves survives, and a nesting with sets exactly when replacing its leaves leaves it unchanged
  (`Codec.RoundTripsIffItsLeavesSurvive`, `Codec.RoundTripsIffTripUnchanged`,
  `Codec.EmptyStringComesBackAsNull`).
- **The counter of listener ids** (`src/config.h:464-466`). All variables of a type share it, but
  each increments it under its own lock. Some interleaving of a set of programs has a data race
  exactly when the data is the counter of a type and two threads add listeners to two different
  variables of that type, directly or in visitors (`CounterRace.RaceIffListenersAddedApart`, `LockOrder.ListenerIdsRace`).
- **`swapIn` on an ended fiber** (`src/fiber.cpp:195`). The assertion admits it, and then the fiber
  runs on after its last `swapOut`; this happens for ended fibers and no others
  (`FiberRuns.SwapInRunsOffTheEndIffEnded`, `FiberRuns.ResumingAnEndedFiber`).
- **The last reference dropped while a fiber runs** (`src/fiber.cpp:288-290`). MainFunc drops its
  reference and then calls `swapOut` by a raw pointer. The fiber has been destroyed by then exactly
  when nobody outside refers to it at the end of its callback
  (`FiberRuns.UsesDestroyedIffNobodyElseRefers`, `FiberRuns.DroppedWhileRunning`).
- **An interrupted wait in the constructor of `Thread`** (`src/thread.cpp:85`,
  `src/thread.cpp:27-30`). If the semaphore's wait is interrupted before the new thread has
  notified, the constructor throws and the new thread uses an object that is gone; this is the only
  way it can happen (`ThreadStart.StraysIffInterruptedEarly`, `ThreadStart.InterruptedEarly`).

## Model

| member | source | states |
|---|---|---|
| `Pattern.ScanIsTheInverseOfPrint` | src/log.cpp:548-625 | a list of literals and directives is grammatical with this text exactly when the scanner, finding no unclosed brace, returns that list |
| `Pattern.NoUnclosedBraceIffGrammatical` | src/log.cpp:548-625 | a pattern has no unclosed brace exactly when it is the text of some grammatical list |
| `Pattern.ScanKeepsText` | src/log.cpp:548-625 | scanning loses and duplicates nothing: the texts of the tokens put together are the pattern, unknown names included, whatever has been read before |
| `Pattern.ScanIsGrammatical` | src/log.cpp:548-625 | what the scanner returns obeys the grammar: non-empty literals, never adjacent, names and formats of the right characters, bare directives that end where their name ends |
| `Pattern.ScanInvertsPrint` | src/log.cpp:548-626 | printing a grammatical list and scanning it gives the list back |
| `Pattern.ErrorFreeIffDerivable` | src/log.cpp:606-665 | the error flag stays false exactly on the patterns derivable with names among the twelve keys, and the derivation is unique |
| `Pattern.ListedRoundTrip` | src/log.cpp:548-665 | lists of `%`-free non-adjacent literals and known directives written `%name{fmt}` parse to themselves without error |
| `Pattern.EscapeSurvivesIffUnused` | src/log.cpp:544-560 | with literals written by the documented `%%` escape, parsing gives the list back exactly when no literal has a `%` |
| `Pattern.EscapeCounterexample` | src/log.cpp:554-560 | the pattern `%%` gives a literal `%`, an empty directive and an error |
| `Pattern.ItemsTellTokens` | src/log.cpp:628-665 | in a pattern without error the items, in order, tell every directive's key, the literal texts and the date format with its default |
| `Pattern.ReadOne` | src/log.cpp:562-604 | the inner loop reads the longest name, an optional brace and its format, and reports an unclosed brace |
| `Pattern.Round` | src/log.cpp:548-621 | one round of the outer loop, with its index updates, consumes exactly what the recursive scanner consumes |
| `Pattern.LogFormatter.constructor` | src/log.cpp:520-523 | a finished formatter has the items and the error flag of its pattern |
| `Pattern.LogFormatter.Init` | src/log.cpp:543-666 | the two loops together compute the items of the recursive scanner and the error flag |
| `Pattern.LogFormatter.Fill` | src/log.cpp:650-665 | the second loop turns the work list into items and marks unknown names as errors |
| `PatternNames.NameEndsAtOtherCharacter` | src/log.cpp:562-604 | a bare directive takes letters, by their codes, and closing braces, and ends before any other character, which is then read on |
| `PatternNames.FormatEndsAtClosingBrace` | src/log.cpp:562-604 | a directive with a format takes letters and closing braces up to the opening brace, and the format up to the first closing brace |
| `PatternNames.PlainPatternsAreRead` | src/log.cpp:548-625 | patterns of literals, bare directives and directives with formats are read as they are written |
| `PatternNames.EachItemHasItsKey` | src/log.cpp:628-665 | every item but the literal one is what its key stands for, with any format or none |
| `PatternNames.OtherNamesAreErrors` | src/log.cpp:650-665 | every other name sets the error flag and stands in the output as an error |
| `PatternNames.UnclosedBraceIsShown` | src/log.cpp:612-620 | an unclosed brace stands in the output as an error, and the text after its percent sign is read on as a literal |
| `PatternNames.DefaultPatternIsRead` | src/log.cpp:300 | the default pattern has no error and is read as the 22 tokens written out |
| `Fiber.StepKeepsInv` | src/fiber.cpp:99-292 | every action under the main/sub discipline keeps the invariant relating states, positions, scripts, reference counts, current and main fibers, ids and counts |
| `Fiber.RunsKeepInv` | src/fiber.cpp:99-292 | the invariant holds over every run of any number of threads and fibers |
| `FiberHistory.FibersAreAsListed` | src/fiber.cpp:99-186 | over every run each live fiber has the thread, number and callback that the list of actions names and as many outside references as the list counts, and a sub-fiber that is gone has none |
| `FiberHistory.NewFiberIsThere` | src/fiber.cpp:117-138 | a constructed fiber is there, in INIT, on its thread, with its callback and one reference |
| `FiberProgress.CallbackCanBeDone` | src/fiber.cpp:171-292 | a new fiber can be driven to its end by one swapIn more than its callback has yields, each returning to the main fiber, all of the callback being done, and can then be reset |
| `FiberRuns.OneFiberRuns` | src/fiber.cpp:193-231 | on each thread exactly the main and the current fiber are EXEC, and no thread gets past a last `swapOut` |
| `FiberRuns.FiberRecords` | src/fiber.cpp:117-164 | the live count is the number of live fibers, a fiber's callback is empty exactly in TERM, ids are positive and distinct below wrap-around |
| `FiberRuns.TraceIsPrefix` | src/fiber.cpp:171-211 | what a fiber has done since construction or reset is a prefix of the callback named by the last construction or reset in the list of actions, all of it once it has ended |
| `FiberRuns.OwnReferences` | src/fiber.cpp:237-290 | a fiber's stack holds 0 references to it in INIT, TERM and EXCEPT, 2 in HOLD and READY, 1 while its callback runs |
| `FiberRuns.DestructorAssertionHolds` | src/fiber.cpp:145-151 | if a running fiber is referred to from outside until MainFunc has its own reference, the last reference to a sub-fiber is dropped only in a state the destructor's assertion allows |
| `FiberRuns.UsesDestroyedIffNobodyElseRefers` | src/fiber.cpp:266-291 | a running sub-fiber can always go on, except that MainFunc destroys it and then uses it exactly when its callback is at its end and no outside reference is left |
| `FiberRuns.DroppedWhileRunning` | src/fiber.cpp:286-290 | dropping the only outside reference while the callback runs leads to that use |
| `FiberRuns.AbandonedForever` | src/fiber.cpp:237-253 | a suspended fiber that nobody refers to is kept alive by its own stack, is never destroyed and never runs again |
| `FiberRuns.SwapInRunsOffTheEndIffEnded` | src/fiber.cpp:193-200 | where swapIn's own assertion holds, it continues past the last swapOut exactly for ended fibers |
| `FiberRuns.ResumingAnEndedFiber` | src/fiber.cpp:193-200 | the run that constructs a fiber with an empty callback, swaps it in and runs it to its end leaves it where one more swapIn passes the last swapOut |
| `FiberRuns.EndsAfterItsYields` | src/fiber.cpp:193-290 | a callback with n yields has ended after exactly n+1 swapIns and never earlier, in TERM or EXCEPT as it returns or throws, whatever ran in between |
| `FiberRuns.SwapInRunsOneSegment` | src/fiber.cpp:193-253 | one swapIn extends what a fiber has done by exactly the segment to its next yield, return or throw, and its state says which |
| `FiberRuns.SwapInReturns` | src/fiber.cpp:193-211 | the steps of a swapped-in fiber alone bring its thread back to the main fiber exactly when its script has a yield left or somebody else refers to it, and to the use of the destroyed fiber otherwise, within a bound given by what is left of the script |
| `FiberRuntime.Runtime.GetThis` | src/fiber.cpp:221-231 | returns the current fiber, making the main fiber on first use |
| `FiberRuntime.Runtime.NewFiber` | src/fiber.cpp:117-138 | construction as an action of the machine |
| `FiberRuntime.Runtime.Reset` | src/fiber.cpp:171-186 | reset as an action of the machine |
| `FiberRuntime.Runtime.DropReference` | src/fiber.cpp:145-164 | dropping a reference destroys the fiber with the last one |
| `FiberRuntime.Runtime.SwapIn` | src/fiber.cpp:193-200 | swapIn of any fiber that is not EXEC, ended ones included |
| `FiberRuntime.Runtime.SwapOut` | src/fiber.cpp:205-211 | saves the fiber's position and takes up the main fiber's |
| `FiberRuntime.Runtime.Enter` | src/fiber.cpp:266-270 | the start of MainFunc as a step of the running fiber |
| `FiberRuntime.Runtime.DoWork` | src/fiber.cpp:270 | an operation of the callback that does not yield |
| `FiberRuntime.Runtime.LeaveYield` | src/fiber.cpp:237-253 | the return from a yield, which drops the yield's reference |
| `FiberRuntime.Runtime.YieldTo` | src/fiber.cpp:237-253 | both yields as a step of the running fiber |
| `FiberRuntime.Runtime.Finish` | src/fiber.cpp:266-292 | the end of MainFunc, returning or throwing, as a step of the running fiber |
| `Logging.PatternsAreNoOpIffErrorsOrInForce` | src/log.cpp:303-327 | patterns set one after the other leave a logger as it was exactly when all are in error or the last valid one was in force already at the logger and at every appender without its own formatter |
| `Logging.LastValidPatternWins` | src/log.cpp:303-327 | of all patterns set one after the other the last valid one counts, as if it alone had been set, and appenders with their own formatter never change |
| `Logging.FormattersKeptIffHarmless` | src/log.cpp:86-95 | an operation keeps every appender supplied with the right formatter exactly when it sets no null formatter and attaches no appender that inherited from elsewhere |
| `Logging.FormattersOverRuns` | src/log.cpp:303-391 | over every sequence of such operations every appender has a formatter, its own or its logger's current one, and only root lacks a root |
| `Logging.DeliveryReachesTarget` | src/log.cpp:393-405 | an event reaches the logger's own appenders if it has any and root's otherwise, subject to the level tests on the way, and only appenders with a formatter |
| `Logging.MatchingInOrder` | src/log.cpp:433-497 | every appender occurrence whose level admits the event takes it exactly once, in list order |
| `Logging.StartDelivers` | src/log.cpp:668-683 | at the start every event from DEBUG up goes to one standard output appender, in the default pattern |
| `Logging.NewLoggerPassesOn` | src/log.cpp:685-699 | a new logger has the default pattern and passes every event from DEBUG up on to root |
| `Logging.AddedAppenderTakesEvents` | src/log.cpp:363-373 | an added appender takes events after those that were there, with the logger's formatter if it came without one |
| `Logging.RemovedAppenderTakesNone` | src/log.cpp:375-384 | a removed appender takes no more events, and the others do as before |
| `Logging.ClearedLoggerPassesOn` | src/log.cpp:386-405 | a logger without appenders passes on to root what its level admits |
| `LogManager.LoggerManager.constructor` | src/log.cpp:668-683 | the manager starts with root and one stdout appender that has root's formatter |
| `LogManager.LoggerManager.GetLogger` | src/log.cpp:685-699 | returns the named logger, creating it with the root to fall back to, and changes no other |
| `LogManager.LoggerManager.UseFormatter` | src/log.cpp:303-314 | the loop over the appenders changes exactly those without their own formatter |
| `LogManager.LoggerManager.UsePattern` | src/log.cpp:316-327 | sets the formatter only if the parsed pattern has no error |
| `LogManager.LoggerManager.Log` | src/log.cpp:393-405 | logging ends with recursion depth at most two and reaches exactly the appenders of the delivery rule |
| `LogManager.ReadAppenderList` | src/log.cpp:758-793 | the loop over appender nodes yields the valid ones in order, skips the incomplete ones and stops at an exception |
| `LogManager.ReadDefinitions` | src/log.cpp:737-798 | whatever the document, the definitions read have distinct names, appender types 1 or 2 only and one of the six levels |
| `LogDocuments.LevelsAreRead` | src/log.cpp:30-48 | a text is read as a level exactly when it is the level's name in upper or lower case, and as level 0 otherwise |
| `LogDocuments.DocumentsAreRead` | src/log.cpp:737-798 | the document of any list of definitions is read as the set of them in name order, the first of several under one name, whatever the order of their fields, the case of their levels and the entries between them that are passed over |
| `LogDocuments.DefDocDescribes` | src/log.cpp:737-798 | the document that spells out a definition, with its level in either case, is one of these |
| `LogDocuments.MalformedIsRejected` | src/log.cpp:743-749 | an item that is a scalar, or a name that is not, makes the whole document unreadable |
| `LogConfig.RebuildMatches` | src/log.cpp:883-909 | applying a definition gives the logger its level, its formatter if usable, and exactly the defined appenders in order, each with its own formatter or the logger's |
| `LogConfig.ReconfigureAt` | src/log.cpp:862-922 | what one change of the variable does to each logger: rebuild, leave alone or silence |
| `LogConfig.ChangeRestoresAgreement` | src/log.cpp:862-922 | one change restores agreement with the new value, silences what was dropped and leaves unchanged and unmentioned loggers alone |
| `LogConfig.AgreementOverChanges` | src/log.cpp:856-923 | the same over every sequence of changes, from any manager that agrees with the present value |
| `LogConfig.AgreementFromStart` | src/log.cpp:847-923 | over every sequence of changes from the empty set the loggers agree with the current value, dropped ones have level 100 and no appenders, unmentioned ones are untouched |
| `LogConfig.SilentDeliversNothing` | src/log.cpp:912-922 | a logger that was dropped delivers no event of any level |
| `LogConfig.AgreementFromDocuments` | src/log.cpp:737-923 | whatever documents are loaded one after the other, the loggers agree with the last one that can be read, those only earlier ones define are silent, and the others are as at the start |
| `LogConfig.WrittenWorksIffEveryDefinitionChanged` | src/log.cpp:865-922 | the listener as written does its job exactly when every definition is new or changed and none is dropped |
| `LogConfig.WrittenCrashesOnKeptDefinition` | src/log.cpp:865-883 | adding a second definition while the first stays the same goes through the null pointer |
| `LogConfig.WrittenOverChanges` | src/log.cpp:858-923 | over every sequence of changes from the start the listener as written survives exactly when no two successive values that differ share a definition; each logger then is as the last definition ever made of it, so the job is done exactly when the last value also defines all that was ever defined |
| `LogManager.LoggerManager.ApplyDefinition` | src/log.cpp:883-909 | the body of the first loop for a new or changed definition |
| `LogManager.LoggerManager.OnLogsChanged` | src/log.cpp:858-923 | the listener as written, with its crash |
| `LogManager.LoggerManager.OnLogsChangedAsMeant` | src/log.cpp:862-922 | the listener as its comments describe it |
| `ConfigLoad.FlattenKeepsLegalPaths` | src/config.cpp:21-43 | an illegal path takes its whole subtree with it and nothing else is lost, in pre-order |
| `ConfigLoad.LegalPathIsLowerCase` | src/config.cpp:56 | lower-casing is the identity on every surviving key |
| `ConfigLoad.LoadFollowsTheRule` | src/config.cpp:45-71 | after a load a variable holds the conversion of the last node in pre-order at its path that converts and that none of its listeners objects to, or its old value; others are untouched |
| `ConfigLoad.RuleHoldsIffNoNine` | src/config.cpp:26 | for a registered name the rule holds on all trees exactly when the name is not empty and has no 9 |
| `ConfigLoad.NineIsNotLoaded` | src/config.cpp:26 | the registered name `port9` keeps its value when a document gives it another |
| `ConfigLoad.EmptyNameIsNotLoaded` | src/config.cpp:52 | the registered empty name keeps its value when a document is a scalar |
| `ConfigLoad.NamesAndPaths` | src/config.h:558 | the 38 characters of registered names, and the 37 of loaded paths, written out |
| `ConfigLoad.NestedNodeIsLoaded` | src/config.cpp:21-71 | loading one node under nested keys gives the variable with the dotted name a scalar's own text or the emitted text of any other node, unless it does not convert or a listener throws |
| `ConfigLoad.LaterEntriesComeLater` | src/config.cpp:34-71 | a document is as good as its first entries and then the others as a document of their own, so later nodes win |
| `ContainerLoading.EncodedContainerIsLoaded` | src/config.cpp:60-68 | loading the document of an encoded container gives the variable that container with each leaf replaced by what becomes of it |
| `ConfigLoad.ListAllMember` | src/config.cpp:21-43 | appends to the list exactly the legal paths of the tree |
| `ConfigLoad.Registry.Lookup` | src/config.h:532-567 | returns the registered variable, nothing if it has another type, registers a new one, or rejects a bad name, leaving the rest alone |
| `ConfigLoad.Registry.LoadFromYaml` | src/config.cpp:45-71 | the loop over all members, key by key |
| `Listeners.ListenersHearAChain` | src/config.h:442-454 | in every history what a listener hears while registered is a chain of unequal neighbours from the value at its registration to the present value |
| `Listeners.CalledInRegistrationOrder` | src/config.h:442-469 | ids are never reused among variables of one type below wrap-around, and the calls that a change appends tell each listener added to the variable and not removed of the old and the new value, once each, in the order of registration |
| `Listeners.VariablesAreAsTold` | src/config.h:437-498 | a variable's value is the one last given to it, and its listeners are those added to it and not removed, whatever is done to other listeners and variables |
| `Listeners.RemovedHearsNoMore` | src/config.h:475-498 | a listener removed by its id or with all of its variable is never called again, whatever is done to whichever variables of the type |
| `Listeners.AddKeepsInv` | src/config.h:463-469 | a new listener gets a fresh id and comes last in the order of calls |
| `Listeners.ConfigVars.SetValue` | src/config.h:442-454 | an equal value does nothing; another is announced to each listener and then stored |
| `Listeners.ConfigVars.AddListener` | src/config.h:463-469 | draws the id from the counter all variables of the type share |
| `Listeners.ConfigVars.DelListener` | src/config.h:475-478 | removes the listener with that id, if any |
| `Listeners.ConfigVars.ClearListener` | src/config.h:495-498 | removes all listeners of the variable |
| `Codec.DecodeOfEncode` | src/config.h:107-353 | for every nesting of containers and every order of walking them, decoding the encoding of a value gives the value with each leaf replaced by what becomes of the leaf on its way through a YAML tree, or an exception if one is lost |
| `Codec.RoundTrip` | src/config.h:107-353 | a value of any nesting comes back if the leaves in it survive, whatever becomes of other leaves of the type |
| `Codec.RoundTripsIffItsLeavesSurvive` | src/config.h:107-353 | a value of a nesting of lists and maps comes back exactly when each of the leaves in it survives |
| `Codec.RoundTripsIffTripUnchanged` | src/config.h:107-353 | a value of any nesting, sets included, comes back exactly when replacing its leaves by what becomes of them leaves it unchanged |
| `Codec.ExchangedLeavesComeBack` | src/config.h:193-270 | a set of two leaves whose trips exchange them comes back though neither survives |
| `Codec.RoundTripsIffLeavesSurvive` | src/config.h:107-353 | all values of a container type come back exactly when every leaf of the type survives |
| `Codec.EmptyStringComesBackAsNull` | src/config.h:107-144 | a list holding the empty string comes back holding the written form of the null node |
| `ContainerTexts.ContainersAreWritten` | src/config.h:129-353 | an empty container is written as the null node, others as a sequence or map with one node per element, loaded from the element's text, lists in order |
| `ContainerTexts.SequenceIsRead` | src/config.h:107-120 | a sequence is read as a list item by item in order, and fails exactly when an item does |
| `ContainerTexts.OtherNodesAreRead` | src/config.h:107-332 | the null node and scalars are read as empty containers, a sequence with items is no map, and a set is what the list would be without order and repetition |
| `ContainerTexts.MapIsReadAsList` | src/config.h:107-120 | a map read as a list has under each index the first entry whose key denotes it, or the empty text |
| `ContainerTexts.MapIsRead` | src/config.h:274-288 | of several entries under one key the first counts, and the map fails exactly when an entry does |
| `Codec.FromText` | src/config.h:89-353 | the conversion from text for every nesting, or the exception of the first element that fails |
| `Codec.FillList` | src/config.h:107-166 | the loop that fills a vector or list |
| `Codec.FillSet` | src/config.h:193-251 | the loop that fills a set |
| `Codec.FillMap` | src/config.h:274-332 | the loop that fills a map, where the first of two equal keys wins |
| `LockOrder.OperationsAreOrderly` | src/config.h:399-566 | every nested acquisition of every operation goes strictly up in the order registry, variable, manager, named logger, root logger, appender, and every access to shared data is made under its lock in the right mode |
| `LockOrder.LoggerOpsOrderly` | src/log.cpp:303-447 | the same for the operations on loggers and appenders |
| `LockOrder.LogsListenerIsOrderly` | src/log.cpp:856-923 | the listener that reconfigures the loggers keeps to the order when it runs under a variable's guard, whatever it updates |
| `OperationUses.OperationsUseTheirData` | src/config.h:399-566 | every operation makes in some step each read and write that the table lists for it |
| `OperationUses.OperationsLockFirst` | src/config.h:399-566 | the first step of every operation takes the lock that the table lists, for reading or for writing |
| `OperationUses.UpdateUsesItsData` | src/log.cpp:883-909 | an update by the listener of "logs" gets the logger, sets its formatter, clears its appenders and adds the new ones |
| `OperationUses.ReadersShare` | src/config.h:437-440 | two threads can read a variable at the same time |
| `LockOrder.ReachableInv` | src/thread.h:31-118 | in every reachable state two threads hold one lock only for reading, and what a thread holds goes strictly up and is released last in, first out |
| `LockOrder.NoDataRace` | src/config.h:437-498 | in every reachable state, if two threads are about to use the same data, neither writes, the counter of listener ids excepted |
| `LockOrder.ListenerIdsRace` | src/config.h:463-469 | two threads adding listeners to different variables of one type come to write the shared counter at the same time |
| `LockOrder.NoDeadlock` | src/log.cpp:303-447 | for any number of threads and operations and whichever waiting threads the locks prefer, unless all have finished some admitted thread can proceed |
| `LockOrder.RunsDoTheWork` | src/log.cpp:303-447 | every run is as long as the work it does, and the work is done exactly when all threads have finished |
| `LockOrder.AllFinish` | src/log.cpp:303-447 | however a run began and whichever waiting threads the locks admit, admitted threads can be scheduled until every program has been run to its end, in as many steps as there is work |
| `LockOrder.SelfRemovingListenerDeadlocks` | src/config.h:442-478 | a listener that removes itself while being called waits for its own thread: the condition on callbacks is needed |
| `CounterRace.RaceIffListenersAddedApart` | src/config.h:463-469 | some interleaving has two threads about to use the same data, one of them writing, exactly when the data is the counter of a type and two threads add listeners to two different variables of it |
| `CounterRace.RaceNeedsTwoVariables` | src/config.h:463-469 | two threads that meet at the counter each have it in their programs to add listeners, to two different variables of the type |
| `CounterRace.TwoVariablesRace` | src/config.h:463-469 | two threads that add listeners to two variables of a type, whatever else they do, can be scheduled to meet at the counter |
| `CounterRace.OperationsThatAdd` | src/config.h:399-566 | of all operations exactly addListener and the visitors that call it use the counter |
| `CasLock.MutualExclusion` | src/thread.h:213-229 | in every interleaving at most one thread owns the flag, it is set exactly when one does, guards record it rightly, and the counter is the sum of completed increments |
| `CasLock.CounterIsTheSum` | test/test_thread.cpp:15-19 | when all threads have finished, the counter is the number of increments in their programs and the lock is free |
| `CasLock.SomeThreadAdvances` | src/thread.h:221-223 | some unfinished thread always gets ahead; only a test-and-set that finds the flag set spins |
| `CasLock.AllFinish` | src/thread.h:33-56 | however a run began, threads can be scheduled until all have finished, in no more steps than are left, with every increment counted and the lock free |
| `CasLock.Shared.LockStep` | src/thread.h:33-48 | the guard's constructor and `lock`, step by step |
| `CasLock.Shared.UnlockStep` | src/thread.h:39-54 | `unlock` and the guard's destructor, step by step: what was not acquired is not released |
| `CasLock.Shared.IncrementStep` | test/test_thread.cpp:15-19 | the read and the write of an increment |
| `ThreadStart.StepKeepsInv` | src/thread.cpp:68-123 | every step of owner and new thread keeps the invariant of handshake, callback and standing |
| `ThreadStart.ThreadIsAsNamed` | src/thread.cpp:68-83 | an object has the callback it was constructed with and the system thread that was created for it |
| `ThreadStart.ConstructorReturnsAfterStart` | src/thread.cpp:68-123 | when the constructor has returned, the new thread has published its id, taken the callback of its construction, which it runs once and no other, and uses the object no more |
| `ThreadStart.JoinedOrDetachedOnce` | src/thread.cpp:88-105 | the system thread is joined or detached at most once and never both, exactly one of them by the end of a constructed object's life, and joined only after it finished |
| `ThreadStart.StraysIffInterruptedEarly` | src/thread.cpp:85-123 | the new thread uses an object that is gone exactly when the constructor's wait was interrupted before it had notified |
| `ThreadStart.ConstructorReturns` | src/thread.cpp:85-118 | the steps of the new thread alone release the constructor |
| `ThreadStart.ThreadObject.Create` | src/thread.cpp:68-83 | creating the system thread or throwing |
| `ThreadStart.ThreadObject.Wait` | src/thread.cpp:85 | the constructor's wait, or its interruption |
| `ThreadStart.ThreadObject.RunStep` | src/thread.cpp:107-123 | one step of `run` |
| `ThreadStart.ThreadObject.Join` | src/thread.cpp:95-105 | joining, joining again, or an error that leaves the object as it was |
| `ThreadStart.ThreadObject.Destroy` | src/thread.cpp:88-92 | detaching what was not joined |

## Left out

- YAML text syntax, `boost::lexical_cast`, streams and `vasprintf`: documents are trees, and leaf conversions, loading and emitting are parameters.
- The text of the format items (time, ids, file names) and the reopening of log files by clock second: input and output.
- Stacks, registers, signal masks and the contents of `ucontext_t`: a saved context is an abstract program position.
- Memory allocation failures, and failures of `getcontext` and `swapcontext`, which only reach an assertion.
- Fiber.StepKeepsInv: does not model resuming a fiber on another thread, swapping in from inside a sub-fiber or yielding on a main fiber, which the discipline at `src/fiber.cpp:37` excludes.
- FiberRuns.DestructorAssertionHolds: dropping the last outside reference of a running fiber before MainFunc has taken its own is excluded; what follows the use of a destroyed fiber is undefined and not modelled.
- FiberRuns.OwnReferences: references that a callback takes to its own fiber count as references from outside, because a script does not say which frame holds them.
- FiberRuns.FiberRecords: distinct ids are claimed below the wrap-around of the 64-bit counter, which is modelled.
- LogConfig.AgreementFromStart: is about the listener as its comments describe it; the one as written is characterised by `LogConfig.WrittenWorksIffEveryDefinitionChanged` and `LogConfig.WrittenOverChanges`.
- LogConfig.AgreementFromDocuments: likewise is about the listener as its comments describe it.
- Logging.FormattersOverRuns: an appender belongs to one logger and is kept in its list by value, so sharing an appender between loggers is not modelled.
- The text round trip of log definitions: the printer writes a logger's formatter only when it is empty (`src/log.cpp:816`) and the reader never reads an appender's level, so the printer is not modelled; `LogDocuments.DocumentsAreRead` says what the reader makes of every well-formed document.
- LogManager.ReadDefinitions: which keys of a YAML map an index finds is a parameter, because it is the library that reads keys as numbers.
- ConfigLoad.LoadFollowsTheRule: of the listeners called while a document is loaded only whether they throw is modelled, as a function of the change; notification is the subject of `Listeners`.
- ConfigLoad.Registry.Lookup: the type of a variable is a tag; the values of all types share one Dafny type.
- Listeners.ListenersHearAChain: callbacks do not change the variable they hear about, and the claim is sequential, because the source compares and stores under two separate lock periods.
- LockOrder.NoDeadlock: callbacks of users are arbitrary but must take only locks above the one they run under; the initialisation guards of static objects are not locks of the model.
- CounterRace.RaceIffListenersAddedApart: like `LockOrder.NoDeadlock` it is about callbacks that keep to the lock order; that only addListener can name the counter, a variable local to it, is built into the model.
- LockOrder.NoDataRace: excepts the counter of listener ids, which is the subject of `CounterRace`.
- The other unguarded data: the removal of an appender (`src/log.cpp:375-384`), the levels and the time of the last reopening (`src/log.cpp:437-440`) are used without the lock of their object and are not among the data of the concurrent model.
- CasLock.MutualExclusion: memory ordering is sequential consistency; the mutex, spin lock and read-write lock of the system are not modelled beyond their use in `LockOrder`.
- ThreadStart.StraysIffInterruptedEarly: posting and waiting on the semaphore are atomic, and what a callback does to the object through the thread-local pointer is not modelled.
- Thread names, backtraces, assertion macros, the null lock classes and build files: easy members.
