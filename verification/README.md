# A verified model of the build engine and the filtering backend

This project models five parts of the repository and proves what they promise.

**The build engine** (`compile/scons-2.1.0/SCons/Taskmaster.py`, `Job.py`). A Taskmaster walks a
dependency graph, keeps a stack of candidates, a state, a reference count and a set of waiting parents
for each node, and a set of pending children that serves only to report dependency cycles at the end.
A serial driver or a parallel one with worker threads executes the tasks it hands out. Nodes are
numbers; the fields of node objects are maps from nodes. The class `Taskmaster` has one method for each
method of the original, and each method is proved equal to a step on values (`Scheduling`). The
invariants of those steps (`TurnLemmas`, `TaskLemmas`, `TaskSteps`), the search (`Walk`), the outcome of a
failure-free run (`Outcome`), the drivers (`Jobs`, `ParallelJobs`), and arbitrary runs with any number of
tasks in flight (`Runs`) are built on them. `Digraphs` has the graph theory, `CycleSearch` the cycle
finder, `TaskLog` the history of a run. `Stranding` is about builds in which tasks fail, whether they stop or
keep going: when their cycle report can be wrong. `KeepGoing` is a run in which it is. `Traces` ties the
history that a driver writes to a run, and has what follows for builds that stop and builds that keep going.

**Variable expansion** (`Subst.py`). `Subst` has the expander that builds a string, as recursive
functions, and the one that builds lines of words, as the class `ListSubber` over mutable lines, an
append mode and a strip state. Both work on tokens.

**Include scanning** (`cpp.py`). `Cpp` has the dispatch-table machine of the preprocessor and the
meaning of well-nested directives, next to what a compiler reads of them.

**Library aliases** (`compile/wrpManager.py`). `Aliases` has the alias table and its depth-first
expansion with a shared set and a shared list.

**The backend** (`src/modules/backend/server.cpp`, `src/modules/backendLib/dbClient.cpp`). `Broker` has
the load balancer and its workers as parties that exchange frames in any interleaving; `UrlRules` the URL
patterns, their matching and specificity, and the choice of a rule; `Filtering` the decisions and the
verdict on a request.

## What is assumed

- A node has one target per executor, its children do not change during a run, `disambiguate` is the
  identity and `alter_targets` gives no alternates. Prerequisites and children are one list, in which
  repetitions may occur; the ordering function is any permutation.
- `hasAction` says for which nodes the executor has action targets: a null executor has none
  (`compile/scons-2.1.0/SCons/Executor.py:569-603`), so that a node without a builder is not marked as
  failed when one of its children has failed (`Taskmaster.py:851-857`).
- Whether a node is up to date, and which steps of which tasks fail, are parameters of a run. A task that
  fails stops the build unless it keeps going (`compile/scons-2.1.0/SCons/Script/Main.py:196-203`).
- Python sets are iterated in an order that is left open. A white-space token holds nothing but white space.
- Worker threads take steps between any two steps of the main thread. Queues are unbounded and in order.
- Sockets are unbounded queues of frames in order, and frames for an unknown worker are dropped.
- Database queries, the categorization of a URL and the evaluation of preprocessor expressions are
  parameters. Assertions of the C++ code are switched on.

## Where the code and its documentation differ

- `Runs.FailureFreeRunEnds` holds for runs without failures. With keep-going after a failure the engine
  can report a cycle in an acyclic graph (`KeepGoing.FalseCycleReport` is such a run). The one cause is
  that a node found to have a failed child (`Taskmaster.py:851-857`) does not release the nodes that wait
  for it, or is itself left pending because it has no action: a wrong report implies that this happened, in
  builds that keep going and in builds that stop (`Stranding.FalseReportStrands`), and where it does not
  happen the report is true (`Stranding.ReportIsTrue`) and a build that is not stopped ends as it should
  (`Stranding.KeepGoingRunEnds`). It does not always lead to a wrong report, but whoever is stranded, and
  whatever depends on the node, is never built (`Stranding.StrandedNeverBuilt`,
  `Stranding.WaiterNeverBuilt`, `Stranding.InertNeverBuilt`).
- The two expanders agree on text but not on where words begin. A text after a variable goes on with the
  word before the variable, in spite of white space between them, exactly if the variable began no word and
  the word before ends with no redirection sign (`Subst.JoinsWordBeforeIff`, `Subst.WordsJoinedIff`). An empty
  variable begins none: in `a ${X}b` the list expander joins `a` and `b` (`Subst.EmptyVariableJoinsWords`).
- The grammar of subdomain patterns (`src/include/backendLib/dbClient.h:292-303`) taken literally also
  matches a URL that has `.host/` inside its path. The code does not, unless the URL matches anyway.
  `UrlRules.DocumentedMatchIff` says exactly when the two differ.
- A preprocessor group inside a dead branch is evaluated as if the branch were live, because entering a
  group starts from the default table, and definitions in dead branches are carried out. The definitions
  are those of a compiler exactly if no dead definition changes anything (`Cpp.SameDefinitionsIff`). Then
  nothing is missed, and the includes are those of a compiler exactly if no include line is live in its own
  group and dead in one around it (`Cpp.SameIncludesIff`; `Cpp.NestedInDeadBranch` has one). A dead
  definition that does change something can hide an include (`Cpp.MissedAfterDeadDefinition`).
- A client of the broker whose identity is `READY` does not get its replies, and its frames upset the
  reading of the next message (`Broker.ReplyForwardedIff`, `Broker.DecodeEncodeIff`).

## Model

| member | source | states |
|---|---|---|
| Taskmasters.Taskmaster.constructor | compile/scons-2.1.0/SCons/Taskmaster.py:566-580 | a new engine is in the initial state of the protocol, all top targets left |
| Taskmasters.Taskmaster.FindNextCandidate | compile/scons-2.1.0/SCons/Taskmaster.py:582-616 | the last candidate is popped, else the next top target, which becomes the current one; none exactly if both lists are empty |
| Taskmasters.Taskmaster.NoNextCandidate | compile/scons-2.1.0/SCons/Taskmaster.py:618-630 | after a stop no candidate is given and everything waiting for one that is left is given up; `Stranding.AbandonLost` says what that achieves |
| Taskmasters.Taskmaster.ScanChildren | compile/scons-2.1.0/SCons/Taskmaster.py:803-822 | the scan sorts the children into unvisited (in order, with repetitions), pending, unfinished and failed |
| Taskmasters.Taskmaster.AddToWaitingParents | compile/scons-2.1.0/SCons/Node/__init__.py:409-421 | returns 1 exactly if the parent is new, and registers it |
| Taskmasters.Taskmaster.WaitForChildren | compile/scons-2.1.0/SCons/Taskmaster.py:859-869 | the node waits for all unfinished children and its count grows by exactly the new registrations |
| Taskmasters.RegisteredExactly | compile/scons-2.1.0/SCons/Taskmaster.py:860-869 | registering children one after the other, repetitions included, adds the number of distinct children not waited for before |
| Taskmasters.Taskmaster.Decide | compile/scons-2.1.0/SCons/Taskmaster.py:824-907 | after the scan: failed child, not ready, or ready, with the state each verdict leaves |
| Taskmasters.Taskmaster.Examine | compile/scons-2.1.0/SCons/Taskmaster.py:774-907 | looking at one candidate is one step of the walk, handled candidates skipped |
| Taskmasters.Taskmaster.FindNextReadyNode | compile/scons-2.1.0/SCons/Taskmaster.py:746-909 | the loop ends on every graph and gives the node and the state of the search |
| TurnLemmas.TurnDecreases | compile/scons-2.1.0/SCons/Taskmaster.py:746-781 | each turn lowers the number of unvisited nodes, or keeps it and lowers candidates plus top targets left |
| TurnLemmas.TurnLive | compile/scons-2.1.0/SCons/Taskmaster.py:774-879 | a turn keeps every unvisited child of a pending node above that node on the stack, and waiting nodes wait for every unfinished child |
| TurnLemmas.TurnCounts | compile/scons-2.1.0/SCons/Taskmaster.py:859-869 | a turn keeps each reference count equal to the number of nodes waited for |
| TurnLemmas.TurnInv | compile/scons-2.1.0/SCons/Taskmaster.py:774-907 | a turn keeps the invariants of all runs; a node found ready has all its children built |
| TurnLemmas.TurnClean | compile/scons-2.1.0/SCons/Taskmaster.py:774-879 | without failures a turn forgets no pending node, keeps the pending children valid, and detects every knot it closes |
| Walk.SearchSound | compile/scons-2.1.0/SCons/Taskmaster.py:746-909 | a node is handed out only when everything it depends on is built; without a stop the search gives up only when nothing is left |
| Walk.SearchClean | compile/scons-2.1.0/SCons/Taskmaster.py:746-909 | without failures the whole search keeps the stronger invariants |
| Walk.SearchOnlyVisits | compile/scons-2.1.0/SCons/Taskmaster.py:774-857 | a search changes only unvisited or pending nodes, to pending or failed |
| Taskmasters.Taskmaster.NextTask | compile/scons-2.1.0/SCons/Taskmaster.py:911-940 | the next task is the node found, made ready unless that step fails |
| TaskLog.NextTaskSound | compile/scons-2.1.0/SCons/Taskmaster.py:911-940 | a task is issued for a node never issued before whose children all succeeded; otherwise no candidate is left or the build was stopped |
| Taskmasters.Taskmaster.WillNotBuild | compile/scons-2.1.0/SCons/Taskmaster.py:942-984 | fails, detaches and takes from the pending children exactly the closure of its nodes under the waiting parents as they were, and lowers counts accordingly |
| Taskmasters.Taskmaster.GiveUp | compile/scons-2.1.0/SCons/Taskmaster.py:960-984 | the loop terminates and visits a closed set between its nodes and their closure, each node with its parents flushed |
| Taskmasters.Taskmaster.Flush | compile/scons-2.1.0/SCons/Taskmaster.py:962-976 | one visit: mark, empty the waiting parents, lower their counts |
| TaskLemmas.DetachExact | compile/scons-2.1.0/SCons/Taskmaster.py:965-976 | giving up on any set of nodes keeps the counts equal to the number of nodes waited for |
| Taskmasters.Taskmaster.MakeReadyCurrent | compile/scons-2.1.0/SCons/Taskmaster.py:371-409 | an out-of-date node becomes executing, a current one up to date |
| Taskmasters.Taskmaster.Executed | compile/scons-2.1.0/SCons/Taskmaster.py:273-297 | only an executing node becomes executed |
| Taskmasters.Taskmaster.FailContinue | compile/scons-2.1.0/SCons/Taskmaster.py:338-352 | the node and everything waiting for it, directly or not, is failed |
| Taskmasters.Taskmaster.FailStop | compile/scons-2.1.0/SCons/Taskmaster.py:311-336 | the same, the engine is stopped, and the current top target is what will be post-processed |
| Taskmasters.Taskmaster.Postprocess | compile/scons-2.1.0/SCons/Taskmaster.py:413-474 | the waiting parents are released; exactly those that wait for nothing else become candidates, each once |
| Taskmasters.Taskmaster.ReleaseParents | compile/scons-2.1.0/SCons/Taskmaster.py:464-471 | each parent's count drops by one, and the parents whose count reaches zero are listed once |
| TaskLemmas.ReleaseExact | compile/scons-2.1.0/SCons/Taskmaster.py:440-474 | post-processing keeps each reference count equal to the number of nodes waited for |
| TaskSteps.SuccessSound | compile/scons-2.1.0/SCons/Taskmaster.py:273-474 | a task that succeeds and is post-processed keeps all invariants, the failure-free ones included |
| TaskSteps.FailContinueSound | compile/scons-2.1.0/SCons/Taskmaster.py:338-474 | a task that fails under keep-going and is post-processed keeps the invariants |
| TaskSteps.FailStopSound | compile/scons-2.1.0/SCons/Taskmaster.py:311-474 | a task that fails and stops the build keeps the invariants, the post-processing of the top target included |
| CycleSearch.FindCycle | compile/scons-2.1.0/SCons/Taskmaster.py:547-558 | the search extends its stack to a closed walk without other repetitions, or restores it and exhausts what its top leads to |
| CycleSearch.CycleThrough | compile/scons-2.1.0/SCons/Taskmaster.py:547-558 | a cycle is found if and only if the node lies on one, and what is returned is a simple cycle through it |
| Taskmasters.Taskmaster.Cleanup | compile/scons-2.1.0/SCons/Taskmaster.py:992-1019 | an error is raised exactly if some pending child is on a cycle or not executed; for each one a genuine cycle is reported, or none if there is none |
| Outcome.FinalStates | compile/scons-2.1.0/SCons/Taskmaster.py:774-909 | every drained failure-free state is the same: needed nodes that lead to no cycle are built or up to date, the others pending, the rest untouched |
| Outcome.StuckHasCycle | compile/scons-2.1.0/SCons/Taskmaster.py:640-701 | if any node is left pending, a pending child lies on a genuine dependency cycle and on one of waiting parents |
| Outcome.CycleReportExact | compile/scons-2.1.0/SCons/Taskmaster.py:992-1019 | at the end of a failure-free run the error is raised if and only if the top targets depend on a cycle; if not, no pending child is left |
| Runs.EveryStateSound | compile/scons-2.1.0/SCons/Taskmaster.py:273-990 | the invariants hold in every state of every run with any tasks in flight and failures of either kind |
| Runs.NeverBack | compile/scons-2.1.0/SCons/Taskmaster.py:774-781 | over any stretch of any run the state of a node never moves backwards |
| Runs.OneTaskPerNode | compile/scons-2.1.0/SCons/Taskmaster.py:911-940 | no node is given to two tasks in a run |
| Runs.BuildOrderSafety | compile/scons-2.1.0/SCons/Taskmaster.py:808-907 | in every state of every run, what a node that is executing, up to date or executed depends on, directly or not, is up to date or executed |
| Runs.CountsInEveryState | compile/scons-2.1.0/SCons/Taskmaster.py:433-474 | in every state of every run, failures included, a reference count is the number of nodes that have the node as waiting parent |
| Runs.PendingChildrenValidated | compile/scons-2.1.0/SCons/Taskmaster.py:703-708 | the three assertions on pending children hold in every state of a failure-free run |
| Runs.FailureFreeRunEnds | compile/scons-2.1.0/SCons/Taskmaster.py:992-1019 | all drained failure-free runs end in the same node states, and report a cycle exactly if there is one |
| Runs.TopsTakenInOrder | compile/scons-2.1.0/SCons/Taskmaster.py:569 | in every state of every run the top targets taken so far are the first ones of those given, the current one the last of them |
| Runs.FirstChildFirst | compile/scons-2.1.0/SCons/Taskmaster.py:824-833 | with the default ordering the next candidate after a visit is the node's first child not visited before |
| Runs.StopReleases | compile/scons-2.1.0/SCons/Taskmaster.py:311-336 | after a fatal failure the build is stopped, and nobody waits for the failed node or the current top target |
| Stranding.AbandonLost | compile/scons-2.1.0/SCons/Taskmaster.py:618-630 | giving up on the candidates of a stopped build keeps it so that whoever is still waited for is being executed or waits in turn |
| Stranding.ReportIsTrue | compile/scons-2.1.0/SCons/Taskmaster.py:992-1019 | with nobody stranded, at the end of any build, stopped or not: reported exactly if pending children are left, each of which leads to a genuine cycle among the needed nodes |
| Stranding.FalseReportStrands | compile/scons-2.1.0/SCons/Taskmaster.py:992-1019 | in every run, stopped or not, whatever failed: a cycle is reported without a needed one only if a scan found a failed child of a node that others waited for or that has no action |
| Stranding.KeepGoingRunEnds | compile/scons-2.1.0/SCons/Taskmaster.py:746-909 | in every run that is not stopped, in which nobody is stranded and no cycle is needed, each top target ends built or failed, no node pending, and nothing is reported |
| Stranding.StrandedNeverBuilt | compile/scons-2.1.0/SCons/Taskmaster.py:851-857 | in every later state nothing that depends on the stranded node, directly or not, is executing or built |
| Stranding.WaiterNeverBuilt | compile/scons-2.1.0/SCons/Taskmaster.py:851-857 | whoever waited for the stranded node is pending or failed in every later state |
| Stranding.InertNeverBuilt | compile/scons-2.1.0/SCons/Taskmaster.py:851-857 | the stranded node itself is pending or failed in every later state |
| Traces.NextTaskTraced | compile/scons-2.1.0/SCons/Taskmaster.py:746-940 | asking for a task goes on with the run that led here: what the history says is what a run of the engine's steps did |
| Traces.EndTraced | compile/scons-2.1.0/SCons/Job.py:203-218 | finishing a task goes on with the run, a failure stopping the build unless it keeps going |
| Traces.FirstFailureStops | compile/scons-2.1.0/SCons/Script/Main.py:196-203 | in every run: stopped if and only if it does not keep going and a task has failed; then nothing is issued after the first failure |
| Traces.EndDue | compile/scons-2.1.0/SCons/Job.py:186-219 | how every run ends: stopped or all top targets looked at, settled if nobody was stranded and no cycle is needed; a false report only if somebody was |
| KeepGoing.FalseCycleReport | compile/scons-2.1.0/SCons/Taskmaster.py:851-857 | an example: a keep-going run on an acyclic graph that ends with a cycle reported, and strands somebody on the way |
| Jobs.Succeed | compile/scons-2.1.0/SCons/Job.py:414-426 | a successful task leaves the engine sound and changes the state of its own node only |
| Jobs.Fail | compile/scons-2.1.0/SCons/Script/Main.py:196-203 | a failed task fails its own node and pending ones only, and ends as a failure that stops the build unless it keeps going |
| Jobs.Take | compile/scons-2.1.0/SCons/Job.py:192-196 | a task is issued in build order, or there is none because nothing is left or the build was stopped |
| Jobs.Complete | compile/scons-2.1.0/SCons/Job.py:203-218 | after executed or failed, and postprocess, the engine is at rest and the history well ordered |
| Jobs.Serial.RunTask | compile/scons-2.1.0/SCons/Job.py:196-218 | a task in hand goes through its steps and is finished; its outcome is recorded truly, and the run goes on |
| Jobs.Serial.RunOne | compile/scons-2.1.0/SCons/Job.py:192-218 | one task from next_task to postprocess: the unfinished nodes get fewer, and no node is left executing |
| Jobs.Serial.Start | compile/scons-2.1.0/SCons/Job.py:186-219 | the serial build ends, as the end of a run with its history; each task is issued once after its dependencies and finishes once, well exactly if its steps work; it stops at the first failure or goes on to every top target; without faults the final states and the cycle report are exact |
| ParallelJobs.PostConserves | compile/scons-2.1.0/SCons/Job.py:244-265 | posting a result keeps the tasks in flight the same |
| ParallelJobs.ThreadPool.Post | compile/scons-2.1.0/SCons/Job.py:254-265 | a worker posts its own task with its success, and is idle again |
| ParallelJobs.ThreadPool.Fetch | compile/scons-2.1.0/SCons/Job.py:245-252 | a worker takes the first request, or quits on a sentinel |
| ParallelJobs.ThreadPool.RunWorkers | compile/scons-2.1.0/SCons/Job.py:244-265 | any number of worker steps in any order keeps the tasks in flight and the results posted before |
| ParallelJobs.ThreadPool.Put | compile/scons-2.1.0/SCons/Job.py:301-303 | the task is in flight once more |
| ParallelJobs.ThreadPool.Get | compile/scons-2.1.0/SCons/Job.py:305-307 | with a task in flight the blocking get returns, with a task in flight and its true success |
| ParallelJobs.SomeCanStep | compile/scons-2.1.0/SCons/Job.py:244-265 | while a task is in flight and no result waits, some worker can take a step |
| ParallelJobs.ThreadPool.Cleanup | compile/scons-2.1.0/SCons/Job.py:312-338 | every worker takes one sentinel and quits, and both queues are left empty |
| ParallelJobs.PrepareNext | compile/scons-2.1.0/SCons/Job.py:380-401 | a task is kept for dispatch only if it was prepared and its node is out of date; any other is finished at once, well exactly if its steps work |
| ParallelJobs.FinishRun | compile/scons-2.1.0/SCons/Job.py:408-426 | the task of a result was executing, gets exactly one of executed and failed and one postprocess, and leaves flight |
| ParallelJobs.Parallel.Ask | compile/scons-2.1.0/SCons/Job.py:379-390 | the engine and the history stay in order with the tasks in flight and the one handed back; none is found only if nothing is left or the build was stopped |
| ParallelJobs.Parallel.Consult | compile/scons-2.1.0/SCons/Job.py:379-390 | asking leaves the pool alone, and the task handed back is the only one that is neither in flight nor finished |
| ParallelJobs.Parallel.Send | compile/scons-2.1.0/SCons/Job.py:392-396 | a task sent is in flight once and counted once, while the workers go on |
| ParallelJobs.Parallel.Ship | compile/scons-2.1.0/SCons/Job.py:392-396 | once the task is sent, the executing nodes are exactly those in flight |
| ParallelJobs.Parallel.Dispatch | compile/scons-2.1.0/SCons/Job.py:380-401 | jobs stays equal to tasks queued, in workers and in results, each executing node being in flight exactly once |
| ParallelJobs.Parallel.Fill | compile/scons-2.1.0/SCons/Job.py:378-401 | stops with maxjobs tasks in flight or with no candidate left, and never exceeds maxjobs |
| ParallelJobs.Parallel.Receive | compile/scons-2.1.0/SCons/Job.py:408-410 | a result leaves flight and is counted off, with its true success |
| ParallelJobs.Parallel.Conclude | compile/scons-2.1.0/SCons/Job.py:412-424 | the task of a result is finished, and the executing nodes are exactly those in flight again |
| ParallelJobs.Parallel.CollectOne | compile/scons-2.1.0/SCons/Job.py:407-423 | the get is reached with jobs above zero; one task is finished and the unfinished nodes get fewer |
| ParallelJobs.Parallel.Collect | compile/scons-2.1.0/SCons/Job.py:407-426 | one task is finished; another result is taken only if one is there, and then jobs is above zero |
| ParallelJobs.Parallel.Round | compile/scons-2.1.0/SCons/Job.py:375-426 | a turn of the main loop finishes a task, or ends the build with nothing in flight and nothing left |
| ParallelJobs.Parallel.RunTasks | compile/scons-2.1.0/SCons/Job.py:375-426 | the main loop ends, with nothing in flight and nothing left to do |
| ParallelJobs.Parallel.Start | compile/scons-2.1.0/SCons/Job.py:369-429 | every interleaving ends with the guarantees of the serial build, outcomes, stopping and keeping going included, and without faults in exactly its final states; all workers gone, both queues empty |
| Subst.BlankingDecreases | compile/scons-2.1.0/SCons/Subst.py:455-470 | blanking the expanded name lowers the set of names with a value, or the value was blank already: both expanders end on every environment |
| Subst.AgreeOnValue | compile/scons-2.1.0/SCons/Subst.py:411-522 | for every value, list context and environment, the string and the appended texts are the same without white space |
| Subst.ExpandersAgree | compile/scons-2.1.0/SCons/Subst.py:621-725 | in raw mode the string expander's text and all words of the list expander are the same without white space |
| Subst.WordsSpellTheText | compile/scons-2.1.0/SCons/Subst.py:727-816 | in every mode, whatever the sequence of actions, the words gathered spell exactly the texts appended |
| Subst.NoVariablesUnchanged | compile/scons-2.1.0/SCons/Subst.py:411-470 | a string without variables expands to what is written, two dollar signs to one |
| Subst.WordsOfNoVariables | compile/scons-2.1.0/SCons/Subst.py:621-640 | the words of such a string spell what is written without white space, with strip markers in raw mode and without them in command mode |
| Subst.ListStringIs | compile/scons-2.1.0/SCons/Util.py:402-408 | in the string the items of a list are separated by single blanks |
| Subst.SignatureDropsStripped | compile/scons-2.1.0/SCons/Subst.py:743-816 | in signature mode exactly the texts appended between an opening and the next closing marker are dropped |
| Subst.SignatureIgnoresStripped | compile/scons-2.1.0/SCons/Subst.py:808-816 | changing only what stands between the markers leaves the text of the signature unchanged |
| Subst.PlainTokensSplit | compile/scons-2.1.0/SCons/Subst.py:704-745 | in a string without variables a text begins a word exactly after white space or a redirection sign, and a line after white space with a newline |
| Subst.ListItemsAreWords | compile/scons-2.1.0/SCons/Subst.py:681-721 | each item of a list becomes one word, with the white space in it, whatever texts it is made of |
| Subst.ItemIsOneWordIff | compile/scons-2.1.0/SCons/Subst.py:715-789 | an item without a newline is one word if and only if no text in it but the last ends with a redirection sign |
| Subst.ListSplits | compile/scons-2.1.0/SCons/Subst.py:681-721 | the lines of words of any list of plain items: an item begins a new word, is broken by newlines only, and goes on with its last word unless that ends with a redirection sign |
| Subst.NewlineEndsLine | compile/scons-2.1.0/SCons/Subst.py:715-719 | a newline in an item ends the line, and what follows it is split by itself |
| Subst.VariableInItemSplits | compile/scons-2.1.0/SCons/Subst.py:670-680 | the value of a variable in an item is split at its white space, unlike the item |
| Subst.VariableContinuesWord | compile/scons-2.1.0/SCons/Subst.py:670-680 | what follows a variable goes on with the current word |
| Subst.JoinsWordBeforeIff | compile/scons-2.1.0/SCons/Subst.py:743-789 | a text after a variable goes on with the word before the variable if and only if the variable has begun no word and no line and that word does not end with a redirection sign; otherwise that word stays as it is |
| Subst.WordsJoinedIff | compile/scons-2.1.0/SCons/Subst.py:670-680 | for every word, white space, variable and text: the string keeps the white space, and the list has one single word exactly under that condition |
| Subst.EmptyVariableJoinsWords | compile/scons-2.1.0/SCons/Subst.py:670-680 | a variable without text after any word and white space joins the words around it, unlike in the string |
| Subst.VariableLengthensWord | compile/scons-2.1.0/SCons/Subst.py:670-680 | a variable whose value begins with an empty one lengthens the word before the white space without beginning a word |
| Subst.ListSubber.constructor | compile/scons-2.1.0/SCons/Subst.py:607-619 | one empty line, a new word next, nothing stripped |
| Subst.ListSubber.StartLine | compile/scons-2.1.0/SCons/Subst.py:727-732 | a new empty line and a new word |
| Subst.ListSubber.AddWord | compile/scons-2.1.0/SCons/Subst.py:791-798 | a new last word, unless stripped; the next text goes on with it |
| Subst.ListSubber.AddToWord | compile/scons-2.1.0/SCons/Subst.py:743-789 | the last word grows, unless there is none or it ends with a redirection sign |
| Subst.ListSubber.BeginStrip | compile/scons-2.1.0/SCons/Subst.py:808-811 | the marker is kept in raw mode only, and stripping begins |
| Subst.ListSubber.EndStrip | compile/scons-2.1.0/SCons/Subst.py:813-816 | the marker is kept in raw mode only, and stripping ends |
| Subst.ListSubber.ExpandToken | compile/scons-2.1.0/SCons/Subst.py:621-721 | the object does for a token what the token calls for, in a list or not, nested expansions included |
| Subst.ListSubber.Substitute | compile/scons-2.1.0/SCons/Subst.py:704-725 | the object goes through exactly the actions of the value, in order |
| Subst.SubstitutedLines | compile/scons-2.1.0/SCons/Subst.py:577-852 | the lines returned, and that their words spell exactly what was not stripped |
| Broker.DecodeEncodeIff | src/modules/backend/server.cpp:581-618 | the broker reads back what the workers sent if and only if no reply goes to a client called READY |
| Broker.ReplyForwardedIff | src/modules/backend/server.cpp:601-625 | a reply is forwarded if and only if its client is not called READY; otherwise the rest of it is left in the stream |
| Broker.KeepStep | src/modules/backend/server.cpp:559-665 | every step of a client, a worker or the broker keeps the invariants of the protocol |
| Broker.EachWorkerInOnePlace | src/modules/backend/server.cpp:559-665 | in every run each worker is exactly one of starting, announcing, queued once, holding one request; the broker fails no assertion and pops no empty queue |
| Broker.AnsweredOnce | src/modules/backend/server.cpp:596-656 | in every run each accepted request is in progress or answered, never both and never twice, to its own address pair and with what was computed for it |
| Broker.FirstIdleFirstUsed | src/modules/backend/server.cpp:599-649 | workers are used in the order in which they became idle, requests accepted in the order in which they came |
| Broker.NeverStuck | src/modules/backend/server.cpp:381-665 | while a request waits or is in progress, a worker or the broker can take a step |
| Broker.EverythingAnswered | src/modules/backend/server.cpp:381-665 | without new requests the workers and the broker take a bounded number of steps under any schedule, and when none of them can go on every request ever sent has been answered once, to its own address pair |
| Broker.Server.ReadWorker | src/modules/backend/server.cpp:582-630 | the frames of a message are read to its end, the worker queued, and a reply forwarded with its addresses |
| Broker.Server.TakeFromWorker | src/modules/backend/server.cpp:582-630 | the worker part of one turn of the loop |
| Broker.Server.TakeFromClient | src/modules/backend/server.cpp:632-664 | the first request goes to the worker that has been idle longest |
| Broker.Server.Poll | src/modules/backend/server.cpp:563-580 | workers are polled always, clients only while a worker is idle |
| Broker.Server.WorkerStarts | src/modules/backend/server.cpp:381-385 | a worker announces itself once |
| Broker.Server.WorkerReceives | src/modules/backend/server.cpp:393-406 | a waiting worker takes the request that was sent to it |
| Broker.Server.WorkerAnswers | src/modules/backend/server.cpp:515-532 | a worker sends its response to both addresses of its request |
| Broker.Serve | src/modules/backend/server.cpp:559-665 | the server under any schedule goes through exactly the states of the protocol; no frame it waits for is missing |
| UrlRules.AddressIsWellFormed | src/modules/backendLib/dbClient.cpp:978-1003 | a pattern made from an address consists of it, split at the first slash |
| UrlRules.PatternOfAddress | src/modules/backendLib/dbClient.cpp:978-1021 | every well-formed pattern is the pattern of its own address |
| UrlRules.CreateFromIds | src/modules/backendLib/dbClient.cpp:978-1003 | one pattern for each address, in order |
| UrlRules.SubdomainsMatchIff | src/modules/backendLib/dbClient.cpp:1023-1049 | a subdomain pattern matches exactly the URLs (ANY ".")? host "/" ANY whose first ANY has no slash |
| UrlRules.PathMatchIff | src/modules/backendLib/dbClient.cpp:1034-1053 | a pattern with a path matches exactly the URLs host path ANY |
| UrlRules.DocumentedMatchIff | src/include/backendLib/dbClient.h:292-296 | the documented grammar matches what the code matches and what has ".host/" after its first slash; the two differ exactly if that occurs there and the code does not match |
| UrlRules.HostInPathExample | src/include/backendLib/dbClient.h:292-296 | a URL on which they differ |
| UrlRules.AlwaysComparable | src/modules/backendLib/dbClient.cpp:1059-1098 | two patterns matching the same URL never break an assertion, are compared by the documented rules, and are strictly ordered if distinct |
| UrlRules.AboveIsNarrower | src/include/backendLib/dbClient.h:300-303 | of two patterns that match a common URL, the more specific one matches strictly fewer URLs |
| UrlRules.BestIsUnique | src/modules/backend/server.cpp:75-101 | at most one pattern is more specific than every other matching one |
| UrlRules.OrderIsIrrelevant | src/modules/backend/server.cpp:79-101 | permuting the rules does not change the choice |
| UrlRules.SelectBestMatching | src/modules/backend/server.cpp:79-101 | the rule returned is the most specific one that matches, none exactly if none matches, and every comparison on the way is defined |
| Filtering.Decisions.SetElementDecision | src/modules/backendLib/dbClient.cpp:736-740 | one decision is set, the others stay |
| Filtering.Decisions.GetIds | src/modules/backendLib/dbClient.cpp:753-762 | each identifier once |
| Filtering.Decisions.ApplyOverrides | src/modules/backendLib/dbClient.cpp:764-771 | the other table's decisions win, the rest stay |
| Filtering.AnyElementIff | src/modules/backend/server.cpp:61-73 | an element is found if and only if one has the decision, and it has it |
| Filtering.BestRuleIs | src/modules/backend/server.cpp:289-293 | the best rule of a table is the one choice over its patterns |
| Filtering.QueryGivesVerdict | src/modules/backend/server.cpp:229-314 | with access and no database error, the group shown being the only one fetched, the most specific rule decides, else a blocked group, the uncategorised one if none matches; no assertion fails |
| Filtering.QueryAnswers | src/modules/backend/server.cpp:199-314 | for every input: forbidden exactly without access; let through whenever a query of the database fails; the child's own profile, and the first blocked group or the first of all, with its name |
| Filtering.CategoryOrderIsIrrelevant | src/modules/backend/server.cpp:241-275 | permuting the categories does not change the verdict |
| Filtering.OtherRulesAreIrrelevant | src/modules/backend/server.cpp:289-305 | adding or removing a rule that is not the most specific match does not change the verdict |
| Filtering.SelectRules | src/modules/backend/server.cpp:289-293 | the rules selected from a table depend on its contents only |
| Filtering.QueryDatabase | src/modules/backend/server.cpp:179-314 | every branch, errors included, gives the answer of `Filtering.QueryAnswers`, and the verdict when access is granted and nothing fails |
| Aliases.BuildManager.SetLibAlias | compile/wrpManager.py:32-40 | a name is set, its list without empty names, unless it is defined already and the check is on |
| Aliases.MakeListKeeps | compile/wrplib.py:33-39 | the names that are not empty are kept in order and with repetitions |
| Aliases.WalkIsComplete | compile/wrpManager.py:42-62 | when no alias is open any more, the result is exactly what the expansion should contain |
| Aliases.FromIsExact | compile/wrpManager.py:42-62 | the depth-first listing of a name has exactly what listed paths that enter no alias twice lead to, in the order of the paths |
| Aliases.FirstPathFirst | compile/wrpManager.py:42-62 | of two names of an expansion, some path to the first is smaller than every path to the second |
| Aliases.BuildManager.Expand | compile/wrpManager.py:42-62 | the walk ends on every table, cyclic ones included, and adds, in depth-first order, what the name leads to and was not there |
| Aliases.BuildManager.ExpandList | compile/wrpManager.py:52-62 | everything that an alias lists is handled, in its order: what is added is what its list leads to, depth first |
| Aliases.BuildManager.ExpandListed | compile/wrpManager.py:52-62 | a listed name is the alias itself, another alias or a library, each treated in its own way |
| Aliases.BuildManager.ExpandLibAliases | compile/wrpManager.py:87-93 | no repetitions; exactly the reachable names that are no aliases and the reachable aliases that list themselves; of two names the one comes first that the lexicographically smaller listed path leads to |
| Cpp.RunBlock | compile/scons-2.1.0/SCons/cpp.py:299-335 | a well-nested block leaves stack and dispatch table as it found them and adds exactly the includes it means |
| Cpp.RunGroup | compile/scons-2.1.0/SCons/cpp.py:420-474 | so does one group from its opening directive to its end |
| Cpp.RunRest | compile/scons-2.1.0/SCons/cpp.py:386-474 | the remaining branches of a group, given whether one was taken already |
| Cpp.DefinedIff | compile/scons-2.1.0/SCons/cpp.py:476-500 | a name is defined exactly if the last directive about it defines it, or there is none and it was defined before |
| Cpp.LastDefinitionCounts | compile/scons-2.1.0/SCons/cpp.py:476-490 | a name stands for what its last definition says |
| Cpp.GuardedInclude | compile/scons-2.1.0/SCons/cpp.py:420-474 | an include guarded by a name is handled exactly if the last directive about the name defines it |
| Cpp.GroupHandlesFirstTrue | compile/scons-2.1.0/SCons/cpp.py:420-474 | of the include lines directly in a group, with any groups nested in its branches, exactly those of the first branch whose condition is true are handled, or of the last if it has none; the other includes found are those of the nested groups, in order |
| Cpp.LiveAdds | compile/scons-2.1.0/SCons/cpp.py:321-335 | whether a block is live decides its own include lines only: its definitions and nested groups do the same either way |
| Cpp.SameIncludesIff | compile/scons-2.1.0/SCons/cpp.py:321-335 | if no dead definition changes anything, the machine has the definitions of a compiler, misses no include, and finds the same ones exactly if none is live in its own group and dead in one around it |
| Cpp.SameDefinitionsIff | compile/scons-2.1.0/SCons/cpp.py:386-500 | the definitions after each line are those of a compiler if and only if no definition in a dead place changes anything |
| Cpp.NestedInDeadBranch | compile/scons-2.1.0/SCons/cpp.py:321-327 | an example, for any two names not defined: a group nested in a dead branch whose include is found though a compiler does not read it |
| Cpp.MissedAfterDeadDefinition | compile/scons-2.1.0/SCons/cpp.py:386-500 | an example, for any two names not defined: a definition in a dead branch makes the machine miss an include that a compiler reads |
| Cpp.PreProcessor.DoIfElseCondition | compile/scons-2.1.0/SCons/cpp.py:420-434 | the old table is saved, and the new one handles includes exactly if the condition holds |
| Cpp.PreProcessor.HandleElif | compile/scons-2.1.0/SCons/cpp.py:454-462 | stops after a branch was taken, else takes this one if its condition holds |
| Cpp.PreProcessor.HandleElse | compile/scons-2.1.0/SCons/cpp.py:386-418 | starts or stops as the table says |
| Cpp.PreProcessor.HandleEndif | compile/scons-2.1.0/SCons/cpp.py:329-335 | the saved table is back; without one nothing happens |
| Cpp.PreProcessor.Dispatch | compile/scons-2.1.0/SCons/cpp.py:299-319 | one directive is one step of the machine |
| Cpp.PreProcessor.ProcessContents | compile/scons-2.1.0/SCons/cpp.py:299-319 | all directives of a file; for well-nested ones the includes are those the file means, and the stack ends empty |

## Left out

- Side effects of nodes, tasks with several targets, and nodes that change their children when scanned again.
- Builds that ignore errors, exceptions raised while scanning children, cache retrieval in worker threads, interrupts, signal handlers, tracing and statistics.
- Stranding.ReportIsTrue: says that a report is true, not that a stopped build reports every cycle, since it has not walked everything.
- Stranding.FalseReportStrands: holds one way only, as a stranding need not lead to a report; what it always leads to is stated by `Stranding.WaiterNeverBuilt` and `Stranding.InertNeverBuilt`.
- Builds with somebody stranded: what else they still build is not stated.
- ParallelJobs.ThreadPool.Cleanup: does not model the one-second limit on joining a worker thread, as time is not modelled.
- Taskmasters.Taskmaster.Cleanup: gives the cycles that the message lists, not the text of the message.
- The splitting of strings into tokens, expressions and attributes in braces, callables and nodes as values, literal words, and the clean-up of strings in command and signature mode.
- Subst.SignatureIgnoresStripped: requires that the stripped text itself closes no marker, since otherwise it is not what stands between the markers.
- Cpp.PreProcessor.ProcessContents: does not model the search for include files and the splicing of their contents, macro names in include lines, or the conversion of definitions to numbers; an include line stands for the name it resolves to.
- Cpp.PreProcessor.Dispatch: does not model the lookup and splicing of a file for an include directive, or the conversion of definitions.
- The text format of directives, and directives that are not well nested beyond an unmatched end of a group.
- Aliases.BuildManager.SetLibAlias: does not model the splitting of a single string into names.
- Shutdown of the broker, failing sockets, requests that cannot be parsed, and statistics.
- Broker.EverythingAnswered: does not say that the parties are scheduled fairly while new requests keep coming in.
- Filtering.QueryDatabase: takes access rights, the profile, the category groups and their names as given; logging and time zones are not part of the model.
- URL normalization, the overrides of the age profile that the backend no longer applies, the ICAP plugin, HTTP, logging and configuration.
