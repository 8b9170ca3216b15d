# Verified models of the algorithmic cores of cylc-flow

Cylc schedules cyclic workflows of tasks. These Dafny files model the parts of it whose
correctness is an argument about an algorithm rather than about input and output, and prove what
each of them promises. Each file is named after what it models:

- `C3.dfy`: C3 linearisation of the runtime inheritance (`merge`, `mro`, on list objects that
  `merge` empties) and the family tree that `compute_family_tree` builds from it.
- `CircularCheck.dfy`: the two elimination passes that look for circular dependence.
- `GraphWindow.dfy`, `GraphWindowBegun.dfy`, `GraphWindowLimit.dfy`, `WindowStore.dfy`: the walk that
  finds the n-edge window about an active task, with its reuse of earlier walks, how far the depths
  of a walk that another one has begun can be relied on, and the part of the data store that keeps
  the walks and finds the window depths from them.
- `FamilyPrune.dfy`, `FamilyPruneOrder.dfy`, `FamilyUpdate.dfy`: the two work lists that climb the
  family tree, one to prune families that have emptied, one to recount the states of the tasks in
  them.
- `AsyncPipe.dfy`: the asynchronous pipe as a machine whose generator, item tasks and consumer take
  their steps in any order.
- `GraphParser.dfy`, `GraphOutputs.dfy`, `OutputOptionality.dfy`, `OptionalityOrder.dfy`: what a dependency pair of the
  graph is rewritten to and recorded as, and the table of required and optional outputs.
- `Prerequisite.dfy`: the cached satisfaction of a prerequisite.
- `Broadcast.dfy`, `BroadcastOrder.dfy`, `BroadcastClear.dfy`: merging the broadcast layers that
  target a task, which of them wins, and clearing and pruning broadcasts.
- `FamilyLookup.dfy`, `GlobSelect.dfy`: expanding families to tasks, and choosing what to clean.
- `Listify.dfy`, `Identifiers.dfy`: nested lists of a conditional expression, and the grammar,
  parser and printer of universal identifiers.

`Wrappers.dfy` holds `Option` and `Distinct`. Code that changes objects in place is modelled by
classes and methods, each proved equal to a function of the old state; the theorems are lemmas about
those functions. A set that the code pops or goes through in no fixed order is gone through in an
order that is left open, so each such result is for every order. Where a property does not hold of
the code, the model keeps the code's behaviour and says exactly when the property holds.

## Where the code and its promises differ

- `merge` treats an empty name as no candidate, so it raises on a list that holds one even where an
  order exists (cylc/flow/c3mro.py:131); `C3.MergeExact` has the exact condition.
- The walk adds a node's children and parents to depth 1 before it takes out the nodes already
  found, so a task that triggers itself is in its own depth 1 (cylc/flow/data_store_mgr.py:1165-1171);
  `GraphWindow.DepthOneExactIff`.
- The walk of a node that another walk has begun is filled from stored walks before it goes on, and
  a node that is nearer by another way can be placed too far. Whatever has been walked before, all
  nodes up to two steps away are found; the depths are always exact just when the edge distance is
  two or less (`GraphWindowLimit.BegunExactIff`; `GraphWindowLimit.FiveFails` has an example for each
  larger one).
- Two statements compute a set and drop it (cylc/flow/data_store_mgr.py:1241-1243, 2019). The second
  is meant to keep active tasks from being pruned; that they are kept follows from their own window
  instead, for those that have one and are in it (the first clause of
  `FamilyPrune.DataStore.SelectOutOfWindow`).
- The pruning ascent follows only the stored child families, while its test also counts those that
  are so far in a delta only (cylc/flow/data_store_mgr.py:2095-2113). Which inhabited families are
  pruned does not depend on the order of the work list, but whether a family is flagged for update
  before it is pruned can. `FamilyPruneOrder.NewChildMissed` has an example, and
  `FamilyPruneOrder.FlaggedAndPrunedIff` says for exactly which families some order does both.
- `FAM:submit-fail-any` is mapped to "some member submitted" (cylc/flow/graph_parser.py:179), though
  its `all` form is mapped to submit-failed. The recorded triggers are proved to mean the left side
  as the map reads it; `GraphExpressions.ReadingsAgreeIff` says that the two readings of a node differ
  exactly for that qualifier.
- Whether the graph's declarations of optional and required outputs are accepted can depend on their
  order. `OptionalityOrder.AcceptanceHangsOnOrder` has an example, and
  `OptionalityOrder.AcceptedInAnyOrderIff` the exact condition on the declarations.
- When the generator of a pipe raises, the ordered pipe raises too, while the unordered one ends as
  if nothing had happened, because only the first asks a finished task for its result
  (cylc/flow/async_util.py:130, 145-147).
- The pattern for a cycle is the lazy one and allows colons, so a printed identifier whose cycle has
  no selector and goes on after its last colon is read back with a shorter cycle.
  `Identifiers.RoundTrip` has the exact condition.
- Expanding families never ends on a cyclic descendants map (`FamilyLookup.Iter`, third clause). The
  map that `compute_family_tree` makes is never cyclic in the sense that it lists no name under itself
  (`FamilyTree.DescendantsExact`).

## Model

| member | source | states |
|---|---|---|
| C3.MergeExact | cylc/flow/c3mro.py:117-143 | merge succeeds exactly when some duplicate-free order agrees with every list and no list holds the empty name, and its result is then such an order over exactly the given names; it always ends, with an order or the hierarchy error |
| C3.MergeSound | cylc/flow/c3mro.py:120-143 | from the middle of the loop: an order that is returned extends what has been emitted, agrees with every remaining list and adds exactly their names, once each |
| C3.MergeComplete | cylc/flow/c3mro.py:124-139 | the loop never raises when some order agrees with all the remaining lists and none holds the empty name |
| C3.Merge | cylc/flow/c3mro.py:117-143 | the loop over list objects, which deletes list heads in place, returns what the function on their contents says |
| C3.MroSound | cylc/flow/c3mro.py:145-150 | a linearisation starts with the class, holds exactly the class and its ancestors once each, and keeps every parent's linearisation and the declared parent order |
| C3.CircularNeverMerges | cylc/flow/config.py:1499-1502 | a class that is its own ancestor gets no linearisation within any recursion limit |
| C3.MroTerminates | cylc/flow/c3mro.py:145-150 | with acyclic parents, all of them known, and a recursion limit above the depth, the result is an order or the hierarchy error, never the recursion error |
| C3.ComputeMro | cylc/flow/c3mro.py:145-150 | the recursion that hands fresh lists and a copy of the parents to merge computes the function and leaves the tree unchanged |
| FamilyTree.DescendantsExact | cylc/flow/config.py:1508-1516 | in a descendants map built from linearisations, n is under p exactly when p is a proper ancestor of n, and no name is under itself |
| FamilyTree.Runtime.ComputeFamilyTree | cylc/flow/config.py:1455-1516 | it succeeds exactly when every parent is declared and all names linearise, in the full and the first-parent tree; then both descendants maps are the exact inverse of proper inheritance |
| FamilyTree.ParentTreeIs | cylc/flow/config.py:1478-1483 | the two trees that are linearised hold just the declared names, with those parents and first parents |
| FamilyTree.DeclaredIs | cylc/flow/config.py:1458-1483 | the first parent is the first name inherited, or root where that is "None" or nothing is inherited; the parents are the names without a leading "None"; and it fails exactly on an unknown name or "None" alone |
| CircularCheck.CheckCircular | cylc/flow/config.py:970-1012 | the check is skipped exactly above 100 tasks without the option; otherwise it reports exactly when the graph has a cycle, and reports exactly the edges that lie on a walk from a cycle to a cycle |
| CircularCheck.CheckCircularHelper | cylc/flow/config.py:1015-1041 | one pass leaves exactly the edges out of nodes that a cycle leads to, whatever the order of the work set, and the two maps stay each other's inverse with no empty sets |
| CircularCheck.PrecededAreFed | cylc/flow/config.py:1017-1020 | if every node of a finite set has a predecessor in the set, a cycle leads to each of them |
| CircularCheck.FedNotEliminated | cylc/flow/config.py:1030-1041 | a node that a cycle leads to is never taken out by the elimination |
| GraphDistance.SphereIsShortest | cylc/flow/data_store_mgr.py:1153-1175 | the level d that the walk is measured by holds exactly the nodes whose shortest child-or-parent path from the origin has d steps |
| DataStoreWindow.WindowStore.IncrementGraphWindow | cylc/flow/data_store_mgr.py:927-1186 | a new walk, or one redone after completion, gives exact depths and the whole n-edge ball, with children and parents taken from other walks where those have them; so does any walk if the edge distance is two or less; any other finds all nodes up to two steps away, stays within the ball, places no node nearer than it is, and is what filling it from the stored walks and then exploring it in rounds comes to |
| DataStoreWindow.WindowStore.WalkGraph | cylc/flow/data_store_mgr.py:1021-1175 | the loop over locations ends, after rounds that each explore every location not done, and for a fresh walk its walk_ids and depths are exact |
| DataStoreWindow.WindowStore.Near | cylc/flow/data_store_mgr.py:1069-1165 | the children and parents used for a node are its own, whether taken from an earlier walk or computed, no other node's walk is changed, and a walk this begins has them all |
| DataStoreWindow.WindowStore.PrePopulate | cylc/flow/data_store_mgr.py:965-1015 | the phase that fills a walk, location by location and level by level, comes to the function of the stored walks that `GraphWindowBegun.PopulatedInv` is about |
| GraphWindowBegun.PopulatedInv | cylc/flow/data_store_mgr.py:972-1015 | filling a begun walk keeps it within the true levels and what is at depth 1; every node it takes as done has a stored walk, and all of its children and parents have been found |
| GraphWindowBegun.WalkedInv | cylc/flow/data_store_mgr.py:1022-1175 | when the rounds of a begun walk end, everything at depth 1 has been gone on from, nothing placed has been moved, and all of it lies within the true levels |
| GraphWindowBegun.WalkedReaches | cylc/flow/data_store_mgr.py:972-1175 | then all nodes up to two steps away, or up to the edge distance if that is less, have been found, and up to an edge distance of two the depths are exact |
| GraphWindowLimit.BegunExactIff | cylc/flow/data_store_mgr.py:960-1175 | the depths of begun walks are exact, for every graph, store and order, just when the edge distance is no more than two |
| GraphWindowLimit.FiveFails | cylc/flow/data_store_mgr.py:973-998 | for each larger edge distance, a graph of five nodes and a store from which a begun walk ends with inexact depths, a node two steps away having been found by way of a longer path |
| GraphWindowLimit.WalkExists | cylc/flow/data_store_mgr.py:1022-1033 | the rounds of a begun walk do end |
| GraphWindow.CachedExact | cylc/flow/data_store_mgr.py:1069-1091 | what a walk in the store has as the children or parents of its origin is exactly those |
| GraphWindow.RoundEnd | cylc/flow/data_store_mgr.py:1022-1033 | a round that finds nothing new ends a fresh walk with exact depths; one that does leaves the walk exact to one step further |
| GraphWindow.DepthOneExactIff | cylc/flow/data_store_mgr.py:1158-1175 | depth 1 of an exact walk is the set of nodes at distance 1 exactly when the origin is not its own child or parent |
| DataStoreWindow.WindowStore.WindowDepthFinder | cylc/flow/data_store_mgr.py:1953-1996 | each node is put at the least depth that any active task's walk gives it, which with exact walks is its distance from the nearest active task, and a depth delta is made exactly for the nodes not recorded at that depth before |
| GraphWindow.DepthsAreDistances | cylc/flow/data_store_mgr.py:1956-1975 | with exact walks, the window depths are the distances from the nearest active task |
| GraphWindow.OneDepth | cylc/flow/data_store_mgr.py:1977-1980 | a node is at one depth only |
| FamilyPrune.DataStore.PruneDataStore | cylc/flow/data_store_mgr.py:1998-2077 | with nothing flagged nothing changes; otherwise the tasks pruned are exactly the stored ones that are flagged or in the window of a flagged node, and in that of no active one; no task survives below any pruned family, every inhabited family of which that is true is pruned, the deltas of pruned families are dropped, and the surviving families newly flagged are exactly those that lost a task or a child family |
| FamilyPrune.DataStore.FamilyAscentPointPrune | cylc/flow/data_store_mgr.py:2079-2131 | one ascent keeps the invariant, checks the family and takes it off the work list, and adds at most its parent |
| FamilyPrune.AscentsPruneExactly | cylc/flow/data_store_mgr.py:2066-2073 | when the work list is empty the invariant gives the exact pruning, whatever the order of the pops |
| FamilyPrune.DeadIsPruned | cylc/flow/data_store_mgr.py:2106-2128 | every inhabited family with no surviving task below it has been pruned by the end |
| FamilyPrune.AscentLowersWeight | cylc/flow/data_store_mgr.py:2067-2070 | each pop lowers a measure over the heights of the families waiting, so the ascents end |
| FamilyPruneOrder.FlaggedAndPrunedIff | cylc/flow/data_store_mgr.py:2095-2131 | some order of the work list both newly flags and prunes an inhabited family exactly when no task survives in it, a child family at or below it is in its parent's delta only, and it has a task or at least two child families |
| FamilyPruneOrder.NewChildMissed | cylc/flow/data_store_mgr.py:2095-2128 | an example: a family that loses its only task, and with it a child family not stored yet, is flagged and pruned in some order |
| FamilyPruneOrder.AscentLater | cylc/flow/data_store_mgr.py:2093-2131 | any one ascent keeps the invariant, takes nothing back, checks nothing but what stored child families lead to, and takes its family off the work list |
| FamilyPrune.DataStore.SelectOutOfWindow | cylc/flow/data_store_mgr.py:2005-2058 | the tasks selected are those just described, said of the old windows and flags themselves; the windows of the nodes selected are dropped and the others stay, and so are the triggers outside the windows of active tasks |
| FamilyNodes.ForestIs | cylc/flow/data_store_mgr.py:2088-2105 | the family tree is that of the stored nodes before the added ones, with the children that a delta adds |
| FamilyUpdate.FamilyStore.UpdateFamilyProxies | cylc/flow/data_store_mgr.py:2161-2187 | from totals, and if asked depths, that are wrong only on the way up from flagged families, the work list empties in any order; every stored family is then right, exactly the families on the way up from the flagged ones were updated, each once, and the counts, group states and depths are those of tasks with the values that the records hold: the delta's where set, else the added node's, else the stored one's |
| FamilyUpdate.UpdatedTellRecords | cylc/flow/data_store_mgr.py:2181-2187 | right families count exactly the active tasks below them of which the records say so, have the group state of theirs, and their least depth |
| FamilyUpdate.StayingIs | cylc/flow/data_store_mgr.py:2203-2224 | the family tree that is gone through is that of the records without the pruned families and tasks |
| FamilyUpdate.FamilyStore.FamilyAscentPointUpdate | cylc/flow/data_store_mgr.py:2189-2341 | one ascent keeps the invariant, leaves nothing flagged at or below the family, and newly flags at most its parent |
| FamilyUpdate.FamilyStore.Summarise | cylc/flow/data_store_mgr.py:2228-2301 | from right child families, the held, queued, runahead and state counts gathered are those of the active tasks in the whole subtree |
| FamilyUpdate.MergeFresh | cylc/flow/data_store_mgr.py:2303-2336 | merging the summary into the delta of a family gives the right totals, depth zero if a task below is active, and, if every family below has a window task, the group state and the least depth of them all |
| FamilyUpdate.AddChildSums | cylc/flow/data_store_mgr.py:2246-2266 | adding a right child family's totals, skipped when its depth is not zero, adds exactly its subtree's active tasks |
| FamilyUpdate.WorklistEmpty | cylc/flow/data_store_mgr.py:2174-2176 | with nothing flagged left, all stored families are right and the updated ones are exactly those on the way up from the first flagged |
| GroupState.GroupOfUnion | cylc/flow/task_state_prop.py:31-57 | the group state of two sets of states together is that of their two group states, so groups of groups are groups of tasks |
| GroupState.GroupIsFirst | cylc/flow/task_state_prop.py:31-57 | a group has the first of its states in the order submit-failed, failed, expired, running, submitted, preparing, waiting, succeeded, and none if it has no states |
| AsyncPipe.OrderedSafety | cylc/flow/async_util.py:106-135 | in every interleaving the ordered pipe has yielded exactly the results owed for the items below yield_ind, in order |
| AsyncPipe.FateIs | cylc/flow/async_util.py:162-184 | an item is owed as v exactly when it passes some stages, as it is or as the object a stage gives for it, and comes out as v from the last stage or from the first that fails (by giving false or raising) and does not stop; it is filtered exactly when the first that fails stops it |
| AsyncPipe.ResultsIff | cylc/flow/async_util.py:162-184 | the results owed for the first items are the values of those not filtered, in order, and nothing else |
| AsyncPipe.OrderedComplete | cylc/flow/async_util.py:112-135 | in every interleaving in which the loop has ended, every unfiltered result has been yielded once, in order, and the generator did not raise; the loop fails only if it did |
| AsyncPipe.OrderedTerminates | cylc/flow/async_util.py:112-135 | once the generator and the item tasks are done, the loop ends within finitely many of its own steps, though running is changed while it is gone through: with all the results, or by raising what the generator raised |
| AsyncPipe.StepInv | cylc/flow/async_util.py:106-184 | every step of the generator, of an item task or of the consumer keeps the invariant of queue, cache, skip list and running list |
| AsyncPipe.UnorderedComplete | cylc/flow/async_util.py:137-149 | in every interleaving the unordered pipe has yielded no more than the results owed, and all of them, each as often, once it has ended |
| AsyncPipe.UnorderedTerminates | cylc/flow/async_util.py:139-149 | once the tasks are done the unordered loop ends with all the results, even if the generator raised |
| AsyncPipe.OrderedLoop.TakeAndSkip | cylc/flow/async_util.py:112-121 | the first part of the consumer's pass on its own fields is the machine's first step |
| AsyncPipe.OrderedLoop.YieldOne | cylc/flow/async_util.py:122-125 | one turn of the yielding loop is the machine's yielding step, and nothing else changes when there is nothing to yield |
| AsyncPipe.OrderedLoop.ReapDone | cylc/flow/async_util.py:126-133 | the loop that removes from the list it goes through, skipping the element after each one removed, is the machine's reaping step |
| GraphTriggers.GraphParser.ProcPairs | cylc/flow/graph_parser.py:530-531 | without a fault exactly the conditions the pairs ask for are recorded and the optionality table is the one that all the calls of the graph make; each fault has its cause in the graph: an illegal pair, a condition asked both to trigger and to remove a task, or calls that clash |
| GraphTriggers.GraphParser.ProcDepPair | cylc/flow/graph_parser.py:565-713 | one pair adds exactly what it asks for, part by part of a left side split at AND; an illegal pair is the one cause of the error for illegal graphs |
| GraphTriggers.GraphParser.ComputeTriggers | cylc/flow/graph_parser.py:915-1014 | one right side gets the finish-replaced condition for every member of every node without an offset, and the optionality calls of each node are made in order |
| GraphTriggers.GraphParser.FamiliesAllToAll | cylc/flow/graph_parser.py:715-757 | the condition passed on is the left side with each family trigger replaced by its members |
| GraphTriggers.GraphParser.SetTriggers | cylc/flow/graph_parser.py:759-800 | it fails exactly when the same condition is recorded with the opposite suicide mark, and otherwise adds one condition and, for a suicide trigger where expiry is used, the expiry call |
| GraphTriggers.GraphParser.SetOutputOpt | cylc/flow/graph_parser.py:802-913 | after any call the table is the one that the calls so far make |
| GraphTriggers.RecordedMeansWritten | cylc/flow/graph_parser.py:609-757 | for every set of completed outputs, all the conditions recorded for a task hold exactly when the left sides of all the pairs that target it do, family triggers read as they are mapped; a pair targets each member of a family on its right, or the task named there |
| GraphOutputs.AcceptedTells | cylc/flow/graph_parser.py:949-1013 | once a graph is accepted, the optionality table has a row for exactly the outputs that its right-hand nodes speak of, for each member of a family, fixed if a task speaks of it itself, and then as the task says, else as the families do |
| GraphOutputs.GraphClaims | cylc/flow/graph_parser.py:949-1013 | what the calls of a graph declare is exactly what its right-hand nodes say, read off each node |
| GraphOutputs.IllegalRight | cylc/flow/graph_parser.py:952-986 | a right-hand node is an error exactly if it is an xtrigger, or a family with a task's qualifier or with an optional finish |
| GraphTriggers.RecordedAsWritten | cylc/flow/graph_parser.py:168-182 | and as they are written, when no left side uses submit-fail-any |
| GraphExpressions.CompiledMeansTheSame | cylc/flow/graph_parser.py:632-757 | giving nodes their qualifiers, replacing families by members and finish by succeeded or failed keeps the truth of a legal left side for every set of completed outputs |
| GraphExpressions.CompiledPlain | cylc/flow/graph_parser.py:931-947 | what is recorded names only outputs of tasks: no families, no finish, no unqualified names |
| GraphExpressions.PartsMeanTheWhole | cylc/flow/graph_parser.py:615-628 | the parts of a left side split at AND hold together exactly when the whole does |
| GraphExpressions.OneAfterAnother | cylc/flow/graph_parser.py:646-685 | replacing one node after another comes to replacing all of them at once, since no replacement makes a node that a later one would replace |
| GraphExpressions.ReadingsAgreeIff | cylc/flow/graph_parser.py:168-182 | a legal node means the same as written and as mapped, for all outputs, exactly when it is not submit-fail-any |
| OutputOptionality.RunSound | cylc/flow/graph_parser.py:850-913 | after any accepted calls a row not yet fixed has its default, expired and submit-failed are optional, and both of two opposite outputs are |
| OutputOptionality.AcceptedMeans | cylc/flow/graph_parser.py:829-913 | so of any task: expired and submit-failed are never required, and of success and failure, or submission and its failure, neither is if both are spoken of |
| OutputOptionality.SettledForever | cylc/flow/graph_parser.py:859-881 | a fixed row is never changed by any later calls, accepted or not |
| OutputOptionality.OrderIrrelevant | cylc/flow/graph_parser.py:802-913 | two accepted orders of the same calls end with the same optional and fixed bits |
| OutputOptionality.OwnAcceptedIff | cylc/flow/graph_parser.py:829-913 | with no calls for family members, calls are accepted exactly when no finish is optional and what they say of each output agrees, with expired, submit-failed and opposites optional |
| OptionalityOrder.AcceptanceHangsOnOrder | cylc/flow/graph_parser.py:905-913 | an example: three calls rejected in one order and accepted in another |
| OptionalityOrder.AcceptedInAnyOrderIff | cylc/flow/graph_parser.py:802-913 | for any calls, families included, every order is accepted exactly when: no finish is optional; expired and submit-failed are optional; calls of one kind (family or own) agree on an output; and opposite outputs are both optional, but for a required family default on succeeded that only the task's own finish opposes |
| Prerequisites.AnswerIsDirect | cylc/flow/prerequisite.py:242-255 | after any operations in any order, is_satisfied answers what evaluating the condition without the cache would, and asking does not change that |
| Prerequisites.AnswerIsTruth | cylc/flow/prerequisite.py:222-274 | if the outputs registered are those the condition names, then after any later satisfying and unsetting the answer is the truth of the condition as the graph writes it, with OR or without |
| Prerequisites.EvalIsTruth | cylc/flow/prerequisite.py:222-240 | a condition evaluates, to its truth, exactly when every output it names was registered before it was set; otherwise it is an error |
| Prerequisites.SetItemCoherent | cylc/flow/prerequisite.py:167-170 | keeping a cached true answer when a satisfied output is set is safe |
| Prerequisites.ForcedStays | cylc/flow/prerequisite.py:290-301 | an output that is force satisfied stays so through every operation that does not register it anew |
| Prerequisites.SatisfyMeExact | cylc/flow/prerequisite.py:276-301 | satisfying changes exactly the registered, unsatisfied outputs among those given, and registers none |
| Prerequisites.ForceExact | cylc/flow/prerequisite.py:340-348 | forcing changes exactly the unsatisfied outputs, to forced |
| Prerequisites.UnsetExact | cylc/flow/prerequisite.py:366-377 | unsetting changes exactly the outputs of the task with that point and name that are satisfied in any way but by force |
| Prerequisites.Prerequisite.ForceSatisfied | cylc/flow/prerequisite.py:340-352 | all outputs end satisfied, those not yet so as forced, and it fails exactly when the condition cannot be evaluated |
| Prerequisites.Prerequisite.UnsetNaturallySatisfied | cylc/flow/prerequisite.py:366-377 | exactly the task's satisfied outputs that were not forced become unsatisfied, and it says whether there were any |
| Prerequisites.Prerequisite.IsSatisfied | cylc/flow/prerequisite.py:242-255 | the answer and the new cache are those of the state machine |
| Settings.LastLayerWins | cylc/flow/broadcast_mgr.py:179-190 | merging layers that agree on what is a section leaves, at every path at any depth, the setting of the last layer that sets it, and nothing where none does |
| Settings.AddedAt | cylc/flow/broadcast_mgr.py:51-59 | adding a source to a target gives the source's setting at each path where it has one, else the target's |
| Broadcasts.Addict | cylc/flow/broadcast_mgr.py:51-59 | on nested dictionary objects, the target becomes the merged tree, the source is unchanged, and the two still share no dictionary |
| Broadcasts.GetBroadcast | cylc/flow/broadcast_mgr.py:173-190 | the answer is the merge of all the layers that target the task, from the least to the most specific, and is made of new dictionaries only, so it shares none with the store |
| BroadcastOrder.MostSpecificWins | cylc/flow/broadcast_mgr.py:179-190 | said of the store: a task gets the setting for its own cycle before one for all cycles, under any of their names, and within a cycle the one for the earliest of its ancestors, itself first; none if no layer that targets it has one |
| BroadcastClearing.BroadcastMgr.ClearBroadcast | cylc/flow/broadcast_mgr.py:95-155 | the settings left are exactly those not selected by point, namespace and cancelled keys, with their values and no empty section; the changes name exactly the settings selected, once each, with their values; no pruned path comes after one above it |
| BroadcastClearing.SelectedIs | cylc/flow/broadcast_mgr.py:117-131 | a setting is selected by its point, its namespace, and a cancelled list of all its keys below the namespace in order, where an empty list of any kind selects everything |
| BroadcastClearing.BroadcastMgr.Prune | cylc/flow/broadcast_mgr.py:447-472 | the two-phase stack removes exactly the settings that are None and the sections with nothing live in them, reports each once, and reports nothing before what lies below it |
| BroadcastClearing.CloseStep | cylc/flow/broadcast_mgr.py:459-471 | when a section comes off the stack the second time, all of its child sections have been dealt with |
| TreePaths.PrunedLeaves | cylc/flow/broadcast_mgr.py:468-471 | pruning a tree leaves exactly the settings that are not None and no empty section |
| FamilyLookup.GetFamilyLookup | cylc/flow/id_match.py:244-264 | on an acyclic descendants map the passes end, and map each family to exactly the names that are not families and can be reached from it, in any order of the sets |
| FamilyLookup.Iter | cylc/flow/id_match.py:251-259 | a pass that changes something lowers the bound on the families still to be replaced, one that changes nothing leaves no family in any set, and a set that holds a family on a cycle is changed and still holds one |
| GlobSelect.GlobInRunDir | cylc/flow/clean.py:281-312 | over sorted matches, the loops with their set of excluded paths keep exactly the matches that lie beneath no foreign symlink and under no other match that makes them redundant, in order, and nothing if the one match does not exist |
| GlobSelect.SortedParentsFirst | cylc/flow/clean.py:281-282 | sorted paths have parents before what is in them |
| GlobSelect.NothingThroughSymlinks | cylc/flow/clean.py:296-299 | nothing kept lies beneath a symlink that is not a standard one |
| GlobSelect.EveryMatchCovered | cylc/flow/clean.py:300-311 | every match that does not is kept or has something above it kept |
| GlobSelect.NothingTwice | cylc/flow/clean.py:300-303 | with no standard symlink directories, nothing kept lies beneath anything kept |
| GlobSelect.StandardKept | cylc/flow/clean.py:300-311 | with standard symlink directories, every matched one reached through no foreign symlink is kept, and any other match is exactly if the directory it is in is not matched |
| Listify.FailsUnlessBalanced | cylc/flow/listify.py:57-74 | parsing succeeds exactly when the parentheses balance and none closes before it opens |
| Listify.RoundTrip | cylc/flow/listify.py:57-74 | parsing the rendering of any nested list gives that list with every inner list of one item replaced by the item |
| Listify.RoundTripIff | cylc/flow/listify.py:70-71 | and so gives the list itself exactly when none of its inner lists has one item |
| Listify.ListifyTokens | cylc/flow/listify.py:57-74 | on a stack of list objects that are also items of one another, the loop builds what the parser on values says |
| Listify.CloseList | cylc/flow/listify.py:66-71 | the list just closed is the last item of the one below it on the stack, which is where it is replaced when it has one item |
| IdentifierGrammar.ParseSound | cylc/flow/id.py:475-558 | every text that is parsed is spelt, by the grammar, from the parts given |
| IdentifierGrammar.ParseComplete | cylc/flow/id.py:475-558 | every text the grammar allows is parsed; the parts come back exactly when the cycle has a selector or its last colon, if any, ends it, and otherwise with a shorter cycle |
| IdentifierGrammar.CutDoubleFirst | cylc/flow/id.py:526-549 | what is read as the workflow ends at the first double slash, or with the text |
| IdentifierGrammar.CycleComplete | cylc/flow/id.py:478-482 | the lazy cycle pattern takes a whole cycle exactly when it has a selector or its last colon, if any, ends it |
| Identifiers.DetokeniseLoop | cylc/flow/id.py:834-880 | the loop over the levels, which starts at the highest and stops at the lowest that is there, prints what the function says |
| Identifiers.DetokeniseSpelt | cylc/flow/id.py:834-880 | canonical tokens are printed as a text that the grammar spells from those tokens, absolute or relative |
| Identifiers.RoundTrip | cylc/flow/id.py:757-764 | canonical tokens, absolute or relative, always print, and parse back to themselves exactly when the cycle has a selector or its last colon, if any, ends it |
| Identifiers.SelectorsLeftOut | cylc/flow/id.py:870-872 | without selectors, tokens print as if they had none |
| Identifiers.MissingIsStar | cylc/flow/id.py:862-869 | a level missing above the lowest prints as an asterisk |
| Identifiers.RelativeForm | cylc/flow/id.py:838-855 | the relative form leaves out just the leading slashes, and only where there is no user or workflow; tokens that say nothing are an error |
| Identifiers.JobTextIs | cylc/flow/id.py:867-868 | a job prints as its number with at least two digits and no other leading zeros, or as NN |

## Left out

- GraphTriggers.RecordedMeansWritten: conditions are trees, not text, so the textual reach of `re.sub` and `str.replace` is not modelled: that `foo:finished` is also found in `xfoo:finished`, or a name in one that continues it after a hyphen.
- GraphTriggers.GraphParser.ProcDepPair: the checks for null names, unmatched parentheses, and offsets at the ends of chains are of the text and are not modelled; nor are `terminals`, the `original` map and Cylc 7 compatibility. Which nodes end chains is a parameter, and so is the order in which the pairs come.
- GraphTriggers.RecordedAsWritten: one way only for a whole graph, since an expression can happen not to depend on a node in it; for a single node `GraphExpressions.ReadingsAgreeIff` is exact.
- DataStoreWindow.WindowStore.IncrementGraphWindow: for a begun walk and an edge distance above two, the depths beyond what is stated depend on the order of the locations, which the model leaves open. Edges, prune triggers, and the children kept on a task proxy, which are taken to be the graph's, are not modelled.
- FamilyPrune.DataStore.PruneDataStore: jobs, edges, xtriggers and the follow-on flags are not modelled, and a family in whose subtree some family holds nothing from the start may be pruned or not, as the order has it.
- FamilyUpdate.FamilyStore.UpdateFamilyProxies: the is_retry, is_wallclock and is_xtriggered marks, the list of states beside the totals, and stamps are not modelled. The group state is stated for families with no empty family below them; an empty one contributes whatever state it was left with.
- AsyncPipe.OrderedTerminates: a consumer that stops early, and the cancelling of tasks that follows, are not modelled; a stage's function is a function of the item it is given.
- Prerequisites.AnswerIsTruth: the word-boundary patterns that find outputs in the condition's text, and API dumps, are not modelled.
- Broadcasts.GetBroadcast: layers must agree on which keys are sections, as broadcasts do once they have been checked against the runtime specification when they are put.
- BroadcastClearing.BroadcastMgr.ClearBroadcast: works on tree values and paths, so a stack of references into the dictionaries is a stack of paths; the report of bad options, the database and the log are not modelled.
- Listify.ListifyTokens: the splitting of the text into tokens, stripping, and the replacement of quotes are not modelled.
- Identifiers.DetokeniseLoop: of the job strings that `int` accepts, those with signs, underscores or spaces are not modelled and count as errors.
- GlobSelect.GlobInRunDir: the file system, the pattern match and `sorted` are parameters; the order of paths is the order of their parts.
- CircularCheck.CheckCircular: the raw graph is a parameter.
- C3.ComputeMro: Python's recursion limit is a parameter.
- put_broadcast: validation and platform checks against configuration that is not part of this model; the tree part is `addict`.
- Legacy identifiers, the rest of id.py and of id_match.py: formatting and matching by pattern.
- commands.py, the task pool, the database manager, and everything that runs, installs or cleans on hosts: input and output.
- param_expand.py, flow_mgr.py, context_node.py, option_parsers.py: they would add only easier members.
