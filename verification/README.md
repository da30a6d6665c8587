# Verified models of the oVirt CI queue, configuration and cleanup logic

This project models four parts of the oVirt `jenkins` repository and proves what they
guarantee:

- **the change queue** that gates changes in CI (`stdci_libs/change_queue/__init__.py`):
  it hands out lists of changes to test, bisects failing lists until one culprit is left,
  holds back changes whose requirements are missing, takes dependants down with a culprit,
  and blames repeated failures of a stream on the change that started them;
- **the nested configuration parser** (`stdci_libs/nested_config.py`), which turns a tree of
  categories and options into vectors by merging all compatible pairs until nothing merges;
- **the Docker image cleanup** (`stdci_tools/docker_cleanup.py`), which keeps what a
  whitelisted image needs and removes the rest, children first;
- **the search for modified files** (`stdci_tools/usrc.py`) over layered upstream sources
  and chains of symbolic links.

`dafny verify dfyconfig.toml` checks the whole project.

## How it is organized

| files | contents |
|---|---|
| `QueueTypes`, `Bisection`, `Dependencies`, `Streams` | the queue as values: one function per operation and layer |
| `DependencyInvariants`, `Additions`, `Failures` | what each operation on the queue with dependencies keeps and returns |
| `Machines`, `QueueRuns`, `QueueTheorems`, `Draining` | runs: any interleaving of additions, requests for a test and reports |
| `DependantSearch`, `QueueLoops`, `ChangeQueues`, `JenkinsQueues` | the queue as objects with mutable fields, each method proved equal to the function of its layer |
| `CategoryTuples`, `Vectors`, `Aggregation`, `AggregationRounds`, `Aggregates` | tuples and their joins, merging two vectors, one round of aggregation, all rounds, the loops |
| `OptionPrecedence`, `InputPrecedence`, `LastRounds`, `PrecedenceExamples` | which vector gives an option its value: in one round, in terms of the inputs, over all rounds; two configurations where the more significant one loses |
| `NestedConfigs`, `ConfigPaths`, `NestedSearch`, `SearchOrder`, `ConfigVectors` | configurations and the tuples in them, the same in terms of paths, the search as functions, what it finds and in which order, the search as loops and recursive calls |
| `Graphs`, `DockerCleanup`, `UpstreamFiles` | paths in graphs, and the two graph algorithms |
| `Wrappers`, `Sequences` | optional values, filtering and regrouping of sequences |

Each of the three queue classes of the original is a class here, which holds the object of
the class it extends. The handler that the original's `on_test_success` reaches through
`self` is the one of the queue with dependencies: the stream layer replaces it by its
super-class's for the duration of the call, so `ChangeQueueWithDeps.OnTestSuccess` calls its
own failure handler and the stream layer only sees the outcome.

A run starts from the empty queue. `JenkinsChangeQueue` records its calls as the steps of a
run, and its `Valid()` says that they are one and that it reached the present state: each
method adds its step. So the theorems about runs hold for every sequence of method calls;
`JenkinsQueues.Submitting` is a client that uses them.

## Assumptions

- Keys are fresh: the identifier drawn for a new test was not used before.
- Ids, streams, options and paths are only compared for equality. A change is a value with
  an id, a set of required ids and an optional stream. Several changes may share an id.
- A requirement is missing when it is not queued *now*, even if it has passed its test
  before. `Additions.AddEntersIffRequirementsQueued` says so exactly.
- Hashes of category tuples do not collide, as far as the tuples can be joined from those
  found in one section; these are finitely many (`Aggregation.JoinsAreFinite`). A tuple's hash
  may otherwise be any integer, and so the order of sorting any order.
- Keys and values of a configuration are normalized before; the place of a category in the
  list of categories stands for its name; a mapping given as category value has one key.
- Parent links of the images to remove form no cycle, and no changed file is on a loop of
  symbolic links. Both are exactly what the loops need to end: `DockerCleanup.PassesEndIff`,
  `UpstreamFiles.CallsEndIff`.

## Where the code and its documentation differ

- The doc strings of the queue constructors say that the *last* list is the one being
  tested; the code tests the first (`stdci_libs/change_queue/__init__.py:37-38` against
  `stdci_libs/change_queue/__init__.py:71`). The model follows the code.
- A comment says that there is always a vector to fold
  (`stdci_libs/nested_config.py:328-329`). A category with an empty list of values yields
  none (`NestedConfigs.EmptyListHasNoVectors`), and `ConfigVectors.GenVectors` says exactly
  which configurations have none: some category is visited, and every choice of every visited
  one is nested over a section of the same kind. The model returns no vectors then, as
  interpreters before Python 3.7 do, to which the import of `Mapping` from `collections` is
  suited; later ones raise an error.
- Merging tests categories for `None`, ranking tests them for truth. An empty category value
  is therefore set but not significant, and merging does not commute:
  `Vectors.EmptyValueBreaksCommuting` gives the input, `Vectors.MergeCommutesIff` the exact
  condition.
- Options are meant to be overridden by the more significant vector
  (`stdci_libs/nested_config.py:185-190`). That holds for two vectors
  (`Vectors.MoreSignificantWins`), and for an aggregated vector that just two inputs make up
  (`InputPrecedence.TwoInputsDecide`). With three it can fail. The reason is that vectors with
  equal tuples are folded in the order in which their pairs were tried, without regard to
  rank: in one round, the last pair to be tried that yields the tuple and has the option
  decides its value (`OptionPrecedence.RoundOption`). There are two ways to lose.
  - Whatever the hashes: `PrecedenceExamples.DeepestOptionIsLost` has a configuration where
    the option found deepest is overridden by that of the top section, because the two
    vectors from the top are the last pair.
  - For some hashes: after the first round the pairs are tried in the order of the hashes.
    `PrecedenceExamples.HashDecides` has a configuration where the more significant value
    comes out unless a certain one of three hashes is the least.

  Exactly, for every list of inputs and every hash: rounds go on until any two of the vectors
  that the output extends make it up, and then the last two decide
  (`LastRounds.LastOnesDecide`). The options of the deepest input come through if and only if
  one of these two still has its depth (`LastRounds.DeepestWinsIff`).

  In terms of the inputs alone: an input that is deeper than all others that the output
  extends, and sets a category that none of these sets, gives the output all its options, for
  every order and every hash (`InputPrecedence.DeepestWins`; `InputPrecedence.CategoryDecides` is the same
  for several such inputs that agree). Neither condition can be dropped: in the first
  configuration above the deepest input sets no category of its own, in the second one the
  more significant input is as deep as the others. Where any two of the inputs that the output
  extends make it up, the condition is exact: the deepest one gets its options through if and
  only if it is one of the last two (`InputPrecedence.DeepestWinsIffLast`).

## Model

| member | source | states |
|---|---|---|
| `ChangeQueues.ChangeQueue.FromState` | stdci_libs/change_queue/__init__.py:40-49 | the queue has the sections and the key given, or one empty section; an error exactly if a key is given for fewer than two sections |
| `ChangeQueues.ChangeQueue.Add` | stdci_libs/change_queue/__init__.py:51-59 | the last section grows by the change, nothing else changes |
| `ChangeQueues.ChangeQueue.GetNextTest` | stdci_libs/change_queue/__init__.py:61-76 | new state, key and list are those of the plain queue's test request |
| `ChangeQueues.ChangeQueue.OnTestSuccess` | stdci_libs/change_queue/__init__.py:83-108 | new state and verdict are those of the plain queue, for matching and other keys |
| `ChangeQueues.ChangeQueue.OnTestFailure` | stdci_libs/change_queue/__init__.py:110-142 | new state and verdict are those of the plain queue, for matching and other keys |
| `ChangeQueues.ChangeQueueWithDeps.Add` | stdci_libs/change_queue/__init__.py:195-237 | the loop over dependants admits and rejects what the specification does, and leaves both queues as it does |
| `ChangeQueues.ChangeQueueWithDeps.RemoveAwaitingDepsByIds` | stdci_libs/change_queue/__init__.py:270-279 | splits the side queue by id, keeping order |
| `ChangeQueues.ChangeQueueWithDeps.OnTestSuccess` | stdci_libs/change_queue/__init__.py:83-108 | success through the handler that takes dependants down |
| `ChangeQueues.ChangeQueueWithDeps.OnTestFailure` | stdci_libs/change_queue/__init__.py:281-300 | removes from both queues, and returns, the dependants of every failed change |
| `ChangeQueues.ChangeQueueWithDeps.RemoveDepsByIds` | stdci_libs/change_queue/__init__.py:302-314 | overwrites each section by what is left of it, and returns the rest in order |
| `DependantSearch.FindDependantsOn` | stdci_libs/change_queue/__init__.py:246-268 | the worklist ends, and returns the least set of ids closed under requiring the root |
| `Dependencies.DependantsAreChainEnds` | stdci_libs/change_queue/__init__.py:246-268 | that least set is the set of ends of chains of requirements from the root |
| `JenkinsQueues.JenkinsChangeQueue.constructor` | stdci_libs/change_queue/__init__.py:40-44 | without a saved state, the queue of all layers is empty, made of new objects, and at the start of a run |
| `JenkinsQueues.Submitting` | stdci_libs/change_queue/__init__.py:195-237 | a new queue filled by additions holds every change given, queued, waiting or rejected, and each requirement of a queued change in front of it |
| `JenkinsQueues.JenkinsChangeQueue.Add` | stdci_libs/change_queue/__init__.py:195-237 | continues the run by an addition and keeps its invariant |
| `JenkinsQueues.JenkinsChangeQueue.GetNextTest` | stdci_libs/change_queue/__init__.py:61-76 | continues the run; the list returned is the one on record for the key; without a key there is nothing to test and nothing changed |
| `JenkinsQueues.JenkinsChangeQueue.OnTestSuccess` | stdci_libs/change_queue/__init__.py:384-410 | continues the run by a passed test and keeps its invariant |
| `JenkinsQueues.JenkinsChangeQueue.OnTestFailure` | stdci_libs/change_queue/__init__.py:370-382 | continues the run by a failed test and keeps its invariant |
| `JenkinsQueues.JenkinsChangeQueue.GetCauseFromStream` | stdci_libs/change_queue/__init__.py:360-368 | looks up or records the cause of a failing stream |
| `Bisection.AddKeepsShape` | stdci_libs/change_queue/__init__.py:51-59 | an addition is last in the flattened queue and joins the last section: key, number of sections and all other sections stay |
| `Bisection.NextTestKeepsShape` | stdci_libs/change_queue/__init__.py:61-76 | asking for a test moves no change; there is a key exactly when there is something to test, the live one or else the fresh one; only a single section gets an empty one behind it |
| `Bisection.FailureKeepsShape` | stdci_libs/change_queue/__init__.py:110-142 | a failure removes the one change it is about and leaves one section, or starts a search in exactly the failed list, with its smaller half first and the other sections as they are |
| `Bisection.SuccessKeepsShape` | stdci_libs/change_queue/__init__.py:83-108 | a success releases the passed list; in a search the rest of the suspects fails untested, and the sections behind them stay |
| `Bisection.ReportConserves` | stdci_libs/change_queue/__init__.py:83-142 | passed, then failed, then what stays is the queue as it was, in order |
| `Bisection.CeilLog2IsLeast` | test/test_change_queue.py:147-147 | the bound's logarithm is the least k with n at most 2 to the k |
| `Bisection.ReportAdvancesSearch` | stdci_libs/change_queue/__init__.py:83-142 | every answered test names the culprit or leaves one test less, whichever way it went |
| `Bisection.HonestReportIsSound` | stdci_libs/change_queue/__init__.py:102-104 | with tests that fail exactly for bad lists, the untested failure is justified, culprits are bad and passed lists are good |
| `Draining.FirstInFirstOut` | stdci_libs/change_queue/__init__.py:51-142 | over any run of the plain queue, all releases in order followed by the queue are the additions in order |
| `Draining.DrainSorts` | test/test_change_queue.py:116-146 | testing the plain queue until it is empty names exactly the bad changes and passes exactly the good ones, in order |
| `Draining.DrainIsCheap` | test/test_change_queue.py:116-147 | emptying a plain queue of n changes, b of them bad, takes at most b * (1 + ceil(log2 n)) + 1 tests |
| `DependencyInvariants.OrderedIsAcyclic` | stdci_libs/change_queue/__init__.py:215-226 | a side queue in which no change requires a later one has no cycle of requirements |
| `DependencyInvariants.SuppliedMeans` | stdci_libs/change_queue/__init__.py:164-166 | the recursive invariant says that each requirement is in front or in the given set |
| `Additions.AddKeepsSound` | stdci_libs/change_queue/__init__.py:195-237 | an addition keeps order and non-empty waits in the side queue, and requirements in front in the main queue |
| `Additions.RequeueingKeepsOrder` | stdci_libs/change_queue/__init__.py:215-236 | moving the dependants of an acyclic change behind it keeps the side queue ordered |
| `Additions.AddRejectsCycles` | stdci_libs/change_queue/__init__.py:215-226 | rejection exactly when a chain of waiting changes leads from the change to itself; then it and, in order, exactly what chains lead to go, all else waits as before in order, and the main queue is untouched |
| `Additions.AddInOrder` | stdci_libs/change_queue/__init__.py:215-237 | without rejection: what enters is, in order, the new change and the waiting ones that miss only what enters, behind what is queued; the waiting changes no chain leads to stay as they are in order, then come those that go on waiting, in order, each with what it still misses |
| `Additions.AddSettlesEveryone` | stdci_libs/change_queue/__init__.py:227-237 | new and waiting changes enter exactly when all they miss enters, and otherwise wait for exactly the rest |
| `Additions.AddEntersIffRequirementsQueued` | stdci_libs/change_queue/__init__.py:239-244 | a change enters at once exactly when its requirements are queued at that moment; otherwise nothing enters |
| `Additions.AddConserves` | stdci_libs/change_queue/__init__.py:195-237 | what enters is appended; entered, waiting and rejected changes together are the waiting ones before and the new one |
| `Additions.AddKeepsHead` | stdci_libs/change_queue/__init__.py:195-237 | an addition leaves the key, all sections but the last and the suspects of a search as they are |
| `Failures.ReportFactors` | stdci_libs/change_queue/__init__.py:281-314 | dependants go down only with a culprit, once the plain queue is one section again |
| `Failures.CulpritTakesDependants` | stdci_libs/change_queue/__init__.py:281-314 | failures are the culprit, then exactly the queued, then the waiting changes at the ends of chains from it, in order; all others stay in order, the waiting ones with what they missed before; nothing left requires anything that failed |
| `Failures.ReportKeepsSound` | stdci_libs/change_queue/__init__.py:83-142 | results keep the invariant, with what passed added to what is available |
| `Failures.ReportConserves` | stdci_libs/change_queue/__init__.py:281-314 | released, queued and waiting changes together are those queued and waiting before |
| `Streams.StartIsUnique` | stdci_libs/change_queue/__init__.py:324-327 | a stream fails since one event at most, so that the cause is unique |
| `Streams.RecoveryChronicled` | stdci_libs/change_queue/__init__.py:405-409 | forgetting the streams that passed keeps the map equal to what history says of failing streams |
| `Streams.BlameChronicled` | stdci_libs/change_queue/__init__.py:360-382 | the cause is the first culprit of the stream since a change of it passed, and the map goes on saying so |
| `QueueRuns.EveryRunIsGood` | stdci_libs/change_queue/__init__.py:462-464 | the invariant of all layers holds after every run of the combined queue |
| `QueueTheorems.ShapeIsKept` | stdci_libs/change_queue/__init__.py:51-142 | after every run: sections but the last are non-empty, a running test is the first section and has one behind it |
| `QueueTheorems.TestTakesAll` | stdci_libs/change_queue/__init__.py:51-76 | after every run, a test asked for while none is running takes everything queued, in one section; in a search it takes the smaller half of the suspects |
| `QueueTheorems.WaitingIsJustified` | stdci_libs/change_queue/__init__.py:227-236 | after every run each waiting change misses something, of its own requirements, that is not queued; its other requirements are queued or have passed |
| `QueueTheorems.SideQueueIsAcyclic` | stdci_libs/change_queue/__init__.py:206-207 | after every run no chain of waiting changes closes |
| `QueueTheorems.RequirementsComeFirst` | stdci_libs/change_queue/__init__.py:164-166 | after every run each requirement of a queued change is in front of it or has passed |
| `QueueTheorems.NothingIsLost` | stdci_libs/change_queue/__init__.py:195-314 | after every run the submitted changes are, with multiplicity, the queued, waiting, passed, failed and rejected ones |
| `QueueTheorems.BlameIsRight` | stdci_libs/change_queue/__init__.py:360-410 | after every run the cause reported is the first culprit of the stream since it last passed, also for a culprit found in a success |
| `QueueTheorems.StaleReportIsIgnored` | stdci_libs/change_queue/__init__.py:91-97 | a report without the running key changes nothing in any layer |
| `QueueTheorems.AskingAgainRepeats` | stdci_libs/change_queue/__init__.py:70-76 | asking during a test returns the same key and the list on record, and changes nothing |
| `QueueTheorems.RunningTestIsHeld` | stdci_libs/change_queue/__init__.py:51-76 | the list handed out stays the first section under its key through any steps but its own report |
| `QueueTheorems.AnswerCountsOnce` | stdci_libs/change_queue/__init__.py:91-97 | after its first report a key changes nothing at any later time |
| `QueueTheorems.SearchIsSound` | stdci_libs/change_queue/__init__.py:102-104 | over all runs with such tests no bad change passes and no good one is named a culprit |
| `QueueTheorems.SearchIsLogarithmic` | stdci_libs/change_queue/__init__.py:83-142 | a failed list of n changes gives its culprit at once or within the next ceil(log2 n) answered tests, whatever is added and answered meanwhile |
| `CategoryTuples.MaxJoinsAreJoinsOfMaximalFamilies` | stdci_libs/nested_config.py:269-287 | the maximal joins are the joins of maximal pairwise compatible subsets |
| `CategoryTuples.FamilyIsCovered` | stdci_libs/nested_config.py:290-316 | whatever agrees pairwise is extended together by one maximal join |
| `CategoryTuples.MaxJoinsConflict` | stdci_libs/nested_config.py:269-287 | two compatible maximal joins are equal |
| `Vectors.MergeVectors` | stdci_libs/nested_config.py:342-378 | the loop over categories computes the join, or none on a conflict |
| `Vectors.MoreSignificantWins` | stdci_libs/nested_config.py:183-230 | deeper, then more categories, then the right-most one decides, and overrides option by option |
| `Vectors.CompareDecides` | stdci_libs/nested_config.py:183-230 | a tie means equal depth and the same non-empty categories; otherwise both orders prefer the same vector |
| `Vectors.MergeCommutesIff` | stdci_libs/nested_config.py:342-378 | merging commutes exactly if the vectors conflict, differ in depth or non-empty categories, or agree in their options |
| `Vectors.MergeCommutes` | stdci_libs/nested_config.py:342-378 | without empty category values, vectors with different tuples merge alike in both orders |
| `Vectors.EmptyValueBreaksCommuting` | stdci_libs/nested_config.py:213-214 | two sections under an empty category value each, for which the order of merging decides an option |
| `Aggregation.SortIsStable` | stdci_libs/nested_config.py:283-283 | sorting by hash keeps the order of vectors with one tuple |
| `Aggregation.JoinsAreFinite` | stdci_libs/nested_config.py:278-283 | the tuples whose hashes must differ are finitely many |
| `Aggregation.LastOptionWins` | stdci_libs/nested_config.py:319-339 | folding gives a vector, of each option, the value of the last of the sorted vectors with its tuple to have it, and the depth of the last one |
| `AggregationRounds.RoundTuples` | stdci_libs/nested_config.py:277-287 | a round's tuples are the joins of compatible pairs and the tuples that conflict with all others |
| `AggregationRounds.RoundKeepsMaxJoins` | stdci_libs/nested_config.py:277-287 | a round keeps the set of maximal joins |
| `AggregationRounds.RoundRaisesFloor` | stdci_libs/nested_config.py:277-287 | with distinct tuples a round raises the least number of categories among vectors that still merge |
| `AggregationRounds.RoundComesFrom` | stdci_libs/nested_config.py:290-339 | a round takes options only from inputs whose categories the vector extends |
| `AggregationRounds.RoundKeepsNames` | stdci_libs/nested_config.py:290-339 | a round loses no option within a maximal join |
| `Aggregates.CartesianMultiplication` | stdci_libs/nested_config.py:290-316 | all ordered pairs and the unmarked rest, sorted; reports a merge exactly if some pair is compatible |
| `Aggregates.DedupVectors` | stdci_libs/nested_config.py:319-339 | folds neighbours with equal hashes from left to right |
| `Aggregates.Aggregate` | stdci_libs/nested_config.py:269-287 | ends within categories + 2 rounds, with the result of the rounds as functions; the tuples are exactly the maximal joins of the input, each once, in the order of their hashes; options come only from inputs a vector extends, and every option name of such an input is there |
| `OptionPrecedence.RoundOption` | stdci_libs/nested_config.py:290-339 | the value of an option after a round, and the depth, is that of the last pair in trying order with the tuple and the option, or of the one vector with the tuple that merged with nothing |
| `OptionPrecedence.RoundTakesLastPair` | stdci_libs/nested_config.py:290-339 | if there is a pair with the tuple and the option, the last one decides |
| `OptionPrecedence.LastTwoDecideFinally` | stdci_libs/nested_config.py:269-339 | where any two inputs within an output make it up, the last two decide what they have between them, over all rounds and for all hashes |
| `InputPrecedence.TwoInputsDecide` | stdci_libs/nested_config.py:183-230 | an output that just two inputs make up is their merge: the more significant overrides, on a tie the one earlier in the list |
| `InputPrecedence.CategoryDecides` | stdci_libs/nested_config.py:183-230 | options shared by all inputs that set a category come through, if all others that the output extends are less deep, for every order and hash |
| `InputPrecedence.DeepestWins` | stdci_libs/nested_config.py:183-230 | the deepest input within an output, with a category of its own, gives it depth and all its options, for every order and hash |
| `InputPrecedence.DeepestWinsIffLast` | stdci_libs/nested_config.py:269-339 | where any two inputs within an output make it up, the deepest one's options come through exactly if it is one of the last two |
| `LastRounds.LastOnesDecide` | stdci_libs/nested_config.py:269-339 | for all inputs: after some rounds, at most categories + 1, any two vectors within the output make it up, and the last two decide depth and options that they have between them |
| `LastRounds.DeepestWinsIff` | stdci_libs/nested_config.py:269-339 | for all inputs: the options of an input deeper than all others within the output come through exactly if one of these last two has its depth |
| `PrecedenceExamples.DeepestOptionIsLost` | stdci_libs/nested_config.py:319-339 | a configuration whose one output has the top section's option instead of the deepest one, for every hash |
| `PrecedenceExamples.HashDecides` | stdci_libs/nested_config.py:269-316 | a configuration whose one output has the less significant option exactly if one certain tuple of three has the least hash |
| `NestedConfigs.EmitsAvoidSeen` | stdci_libs/nested_config.py:138-140 | no vector of a section sets a category fixed around it |
| `NestedConfigs.EnclosingChoiceMerges` | stdci_libs/nested_config.py:164-171 | the merge with the enclosing choice always works, keeps the choice, and lets nested options override |
| `NestedConfigs.BarrenEmitsNothing` | stdci_libs/nested_config.py:79-180 | a section has no vectors exactly if it is no mapping, or some category is visited and all choices of visited ones are nested over such sections |
| `NestedConfigs.EmptyListHasNoVectors` | stdci_libs/nested_config.py:326-330 | a category with an empty list of values has none, and is no syntax error |
| `ConfigPaths.BrokenIffPath` | stdci_libs/nested_config.py:111-114 | something that should be a section is no mapping, exactly if a path of visited choices leads there |
| `ConfigPaths.EmitsMeans` | stdci_libs/nested_config.py:130-180 | a tuple is found in a section exactly if a visited choice gives it: a plain value its own, a nested section each maximal join of what is found in it, with the value |
| `ConfigPaths.EmitsTellPaths` | stdci_libs/nested_config.py:79-180 | for every path of visited choices to a plain value or to a section with nothing to visit, some tuple found extends the values chosen; every value of a tuple stands on such a path whose values it extends |
| `ConfigPaths.JoinsTellPaths` | stdci_libs/nested_config.py:46-76 | the same for the tuples of the whole configuration after aggregation |
| `SearchOrder.SearchKeepsOrder` | stdci_libs/nested_config.py:126-180 | vectors come in the order of categories and then of choices: one for a plain value with the options of the section, and the aggregation of a nested section, value and options added; one without values if nothing is visited |
| `NestedSearch.SearchFinds` | stdci_libs/nested_config.py:79-180 | every option and depth of a vector comes from a section of which it extends the enclosing choices; and for every section that is not barren, some vector extends its enclosing choices and has all its option names |
| `ConfigVectors.Dfs` | stdci_libs/nested_config.py:79-180 | a syntax error exactly if a path of visited choices leads to something that is no mapping; else the vectors of the search in order: every full path is in some vector and every value on such a path, with all options of the section, nothing but options of sections around or below each vector, and no section lost |
| `ConfigVectors.GenVectors` | stdci_libs/nested_config.py:46-76 | the aggregation of the vectors of the search, in the order of their hashes: exactly the maximal joins of the tuples in the tree, each once; every full path is in some vector and every value on such a path; all options of the top are there, and nothing but options of sections whose enclosing choices a vector extends; every section that is not barren has its option names in some vector that extends its enclosing choices; none exactly for barren configurations |
| `Graphs.StuckSetHasCycle` | stdci_tools/docker_cleanup.py:138-145 | images each of which has a child among them hold a cycle |
| `DockerCleanup.ChildMap` | stdci_tools/docker_cleanup.py:272-301 | maps every image and parent to the images built on it, and collects the whitelisted ones |
| `DockerCleanup.ExcludeWhitelistedParents` | stdci_tools/docker_cleanup.py:320-349 | keeps exactly the images from which no whitelisted image can be reached |
| `DockerCleanup.RemoveChildless` | stdci_tools/docker_cleanup.py:138-145 | one pass removes, once each and in any order, exactly the images without children among those left |
| `DockerCleanup.SafeImageCleanup` | stdci_tools/docker_cleanup.py:130-145 | on acyclic images the passes end, at most as many as there are images, having removed every image once and after its children |
| `DockerCleanup.CycleStays` | stdci_tools/docker_cleanup.py:138-145 | an image that leads back to itself still does after any number of passes |
| `DockerCleanup.PassesEndIff` | stdci_tools/docker_cleanup.py:138-145 | some number of passes leaves nothing exactly if the images form no cycle, and then at most as many as there are images |
| `DockerCleanup.Cleanup` | stdci_tools/docker_cleanup.py:130-145 | removes exactly the known images that reach no whitelisted one, children first |
| `UpstreamFiles.LsAllFiles` | stdci_tools/usrc.py:1381-1399 | layers the sources in order, the repository on top |
| `UpstreamFiles.LastLayerShows` | stdci_tools/usrc.py:1395-1399 | a path shows the last layer that has it, and is absent if none has |
| `UpstreamFiles.FilesDiff` | stdci_tools/usrc.py:1402-1418 | a path is in the difference exactly if its entries differ, absence included |
| `UpstreamFiles.GetFilesToLinksMap` | stdci_tools/usrc.py:1240-1261 | maps each path to exactly the links that point at it |
| `UpstreamFiles.GetLinksToFile` | stdci_tools/usrc.py:1215-1237 | the recursion ends and returns exactly what one or more inverted links lead to |
| `UpstreamFiles.LooplessIff` | stdci_tools/usrc.py:1215-1237 | no path that leads to the file by links is on a loop, exactly if following links from the file never comes back to it |
| `UpstreamFiles.CallsEndIff` | stdci_tools/usrc.py:1215-1237 | chains of recursive calls of every length if following links from the file comes back to it; else none longer than the number of paths that lead to it and one |
| `UpstreamFiles.GetModifiedFiles` | stdci_tools/usrc.py:1172-1212 | with links, a path is modified exactly if following links from it, zero or more times, arrives at a path whose entries differ |

## Left out

- Aggregates.Aggregate: says which inputs an option of a combined vector may come from. Which of several wins is `LastRounds.LastOnesDecide`, in terms of the list before the last round that matters. In terms of the inputs alone the exact answer is stated for two inputs and for inputs any two of which make up the output; for others there is the sufficient condition of `InputPrecedence.CategoryDecides`. From the second round on, which pair is tried last depends on the hashes of tuples that are joins of several inputs, and which of the two overrides on the depths and categories gathered so far: a condition that is both necessary and sufficient has to run through the rounds.
- JenkinsQueues.JenkinsChangeQueue.constructor: does not take a saved state, because the theorems are about runs from the empty queue. `ChangeQueues.ChangeQueue.FromState` models the saved state of the plain queue, and the error for a key without two sections; saved waiting changes and causes of streams are fields that the layers above would set likewise.
- A queue with streams but without dependencies: it is the combined queue for changes that require nothing.
- Persistence, status pages, reports, mails and job scheduling around the four queue actions; the dispatch on the action's name; the list of visible changes and build titles of a tested list.
- Attribute wrappers of changes: a change has its id, requirements and stream as fields.
- Colliding hashes of category tuples, and merge functions for options other than the update that the parser of the STDCI configuration uses.
- Normalization of keys and values, conversion of numbers to strings, category mappings with no key or several keys, and category values that are neither text, number, mapping nor list.
- Errors while an image is removed, other than that it is gone already; containers, volumes and the Docker store.
- Reading trees and links from git, normalizing the targets of links, and updating the upstream sources.
- Logging. Updating a map that the caller holds: the cleanup returns the changed map instead.
