# libVATA in Dafny

libVATA is a library for nondeterministic finite tree automata. This project models its hard
algorithms and proves that they terminate and decide or compute exactly what they are for, on all
inputs that the library promises to handle. Where the code falls short of that, the project has the
input and the condition.

One vocabulary serves all parts (`TreeAutomata.dfy`): trees with a symbol and children, an
automaton as final states and transitions, acceptance by recursion on the tree. The parts are

- **Simulation on labelled transition systems.** `Lts.dfy` has the system and the greatest
  simulation inside a relation. `LtsConfig.dfy` has the configuration of the partition refinement
  engine as a value (blocks, block relation, counters by label and state, pending remove lists,
  queue), its invariant, and a lemma for each step. `LtsInit.dfy` does the same for the
  initialisation. `LtsEngine.dfy` is the engine itself, a class whose methods follow the source;
  `ComputeSimulation` returns exactly the greatest simulation.
- **The data structures of the engine.** `DoubleLinks.dfy` has chains of doubly linked nodes.
  `BlockList.dfy` (circular lists of states), `SplittingRelation.dfy` (elements linked in four
  directions), `SharedCounter.dfy` (copy-on-write rows), `SharedList.dfy` (shared remove lists)
  and `SmartSets.dfy` (counted sets with a predecessor index) are classes proved against what
  they stand for. `EngineData.dfy` connects them with configurations: filling and splitting the
  linked relation, erasing on a walk along one of its rows, splitting a circular list, and setting,
  decrementing and copying shared counters stand for the steps on the block relation, the blocks
  and the counters. `EngineSets.dfy` does the same for the counted sets of labels and for the pending lists
  that blocks share.
- **Language inclusion.** `InclusionSpec.dfy`, `ChoiceFunctions.dfy`, `Antichain.dfy` and
  `DownIncl.dfy` have the recursive downward check with its workset, its global cache of refuted
  and its local cache of established inclusions. `Preorders.dfy` has the order on sets of states.
  `UpSpec.dfy`, `UpWorklist.dfy`, `BottomUpIndexes.dfy` and `UpIncl.dfy` have the upward check over
  antichains, which prunes by an upward simulation. `Inclusion.dfy` puts the preparation of the
  automata and both checks together, and `SimInclusion.dfy` the checks with the relations that the
  engine computes for both automata: downward simulation, and what the upward translation makes of
  upward simulation (see below, and the examples in `SecondLookup.dfy`).
- **Complement and intersection.** `ComplementSpec.dfy`, `Complement.dfy` and `Isect.dfy`.
- **Simulation on tree automata, and the quotient.** `DownSim.dfy` and `TranslateDown.dfy` have the
  translation to a transition system for downward simulation, `UpSim.dfy` and `TranslateUp.dfy` the
  one for upward simulation. `BinaryRelation.dfy` has the bit matrix, `Quotients.dfy` what
  collapsing does to the simulation, and `Reduce.dfy` both simulations by way of the engine, the
  quotient projection, the collapse and the removal of unreachable states.
- **Useless states and renaming.** `Useless.dfy`, `Reindex.dfy` and `Translators.dfy`.
- **Multi-terminal decision diagrams.** `MtbddNodes.dfy` (meaning, canonicity, counting of
  references), `MtbddStore.dfy` (unique tables, reference counts, recursive deletion),
  `MtbddApply.dfy` (memoised binary operation), `Mtbdd.dfy` (construction, values, prefixes) and
  `MtbddProject.dfy` (renaming, projection, paths).

`dafny verify dfyconfig.toml` checks the whole project.

What the source demands of its callers appears as preconditions:

- Inclusion, intersection, translation and reduction are stated for ranked alphabets: each symbol
  has one arity. `CheckInclusion`, `CheckInclusionWithSimulation` and
  `CheckInclusionWithUpwardSimulation` need nothing else; the two checks themselves need what the
  preparation establishes, disjoint states and useful states, and a preorder: for the downward check
  one that implies inclusion of languages, for the upward check one in which final states are below
  final states only, with the same index list for states that are below each other. Whatever that
  preorder is, the upward check ends, and its answer has a basis: a saturated set of pairs, or a pair
  that rejects. The answer is right when the preorder is an upward simulation (bigger children, with
  their siblings unchanged, lead to bigger parents).
- `TranslateUpward` needs a transition for every state, as the assertion that is commented out in
  src/explicit_tree_transl.hh:202 says, and at least one leaf. After the preparation this is so,
  unless both languages are empty: then the prepared union has no states and no leaf, and the
  translation does not matter, because the engine returns at once for an output size of zero
  (src/explicit_lts_sim.cc:875). `ComputeUpwardSimulation` returns early on size zero instead.
- The order in which an automaton lists its states with transitions is that of a hash table. It is a
  parameter of the upward translation (`TranslateUp.Lists`), and of the results that depend on it.
- `ComplementOf` needs an alphabet that has every symbol of the automaton, with its arity, and
  states below the number of states: the identity that it passes on has an index of that size, and
  src/explicit_tree_comp_down.hh:208 asserts that every state is in it. `ComplementWithPreorder`
  needs a preorder that implies inclusion of languages.
- `Rename` needs a renaming that keeps the order of the variables that the diagram tests.
- The engine needs a partition and a reflexive and transitive relation on its classes. The source
  asserts reflexivity only (src/explicit_lts_sim.cc:546-568); the relation on a single class, which
  is what downward simulation uses, satisfies both, and so does that of the upward translation.
- A count is set once, and only positive counts are decremented, as the engine does. An index of
  the linked relation that is split is related to something, which is so of every block.

Where the code falls short of what one might expect, the project says when:

- The early return of the removal of unreachable states compares two sizes. It keeps the language
  on every automaton, but it can keep unreachable states: `Useless.UnreachableKept` has an example,
  `Useless.UnreachableExact` the exact condition. After useless states have been removed, it is
  harmless (`Useless.ShortcutHarmless`).
- Splitting the linked relation skips the last element of a row. That is right if and only if the
  index is related to itself (`SplittingRelation.Relation.Split`), which holds of every block in
  every configuration (`EngineData.SplitStands`). `SplittingRelation.SplitMisses` has an example in
  which a pair is lost.
- Erasing the last element of a counted set leaves no place to insert at: `SmartSets.SmartSet.Erase`
  has both directions, `SmartSets.TailLost` an example, and `SmartSets.InsertedExact` says that an
  insertion at any other place goes wrong. The engine inserts into a set only before anything is
  erased from it, or after it was cleared.
- The merge that compares a set with an index list misses common elements when the list is not
  sorted, which can happen for relations on arbitrary state numbers: the lists hold ascending
  numbers, and then the states that these stand for. `Inclusion.TranslatedMisses` has such an
  index. All covered sets are found if and only if all lists are sorted (`Inclusion.FindsAllExact`),
  which is so if and only if the dictionary keeps the order of every list
  (`Inclusion.TranslatedExact`). The comparison stays sound in any case, and the answer of the
  downward check does not depend on it. In the upward check it means that a pair that was dropped
  may be stored again; `UpWorklist.StoreDecreases` shows that the check ends all the same.
- The upward translation looks the parent of an environment up twice: it stores the number of the
  parent (src/explicit_tree_transl.hh:273 and 304), and then looks that number up as if it were a
  state (line 314). The edges out of environments lead to the parents if and only if every state that
  is the parent of several children has its own number, which is to say that it stands in the list of
  states at the position that it names (`TranslateUp.InPlaceExact`; `UpSim.OutEdgesExact` says it of
  the look-up alone). In that case `ComputeUpwardSimulation` computes upward similarity, and the
  inclusion check with it is right. For states that are numbered from zero, as after the preparation,
  it computes in any case upward similarity in the automaton whose transitions with several children
  lead to the number of their parent (`UpSim.UpSystemExact`). That can make the check wrong:
  `SecondLookup.RefusesIncluded` has two automata and an order of states for which it says no although
  the language is included. In the automaton of `SecondLookup.LeadsToLeaves` all environments lead to
  the node of the leaves, in whatever order the states are listed. When no transition has more than
  one child, the order does not matter (`SimInclusion.CheckInclusionWithUpwardSimulation`).
- The upward translation is made for automata in which every state has a transition, and whose parents
  of several children have numbers that are states. Otherwise the number of the leaf node is given out
  once more, if and only if some child has no transition or some number of such a parent is not a
  state with transitions (`TranslateUp.NumberOnDemand`), and final and other states start in one
  class, if and only if there are both and no fewer final states than states with transitions
  (`TranslateUp.OneClassExact`, with an example in `TranslateUp.FinalityLost`). The inclusion checks
  prepare their automata, so neither happens there.
- `Project` can leave nodes without references behind; counts stay exact all the same. What it leaves
  are projections of nodes on the way, and it leaves nothing if and only if all of these were there
  before or lie below the result (`MtbddProject.NothingLeftExact`). That is so when no path tests two
  removed variables, whatever the operation. When all variables are removed, it says in terms of
  values: every total of a node below the root is the value of a leaf that was there before, or of
  the result (`MtbddProject.LeftBehindExact`). `MtbddProject.LeavesBehind` has a diagram, with bitwise
  or, for which that fails.

## Model

| member | source | states |
|---|---|---|
| Lts.Lts.PreIsInverse | include/vata/explicit_lts.hh:74-86 | the predecessor table of a label is the inverse of its successor table |
| Lts.Lts.GreatestIsSimulation | src/explicit_lts_sim.cc:870-890 | among the simulations inside a relation there is a greatest one, and it is the one that the results below name |
| Lts.ExplicitLTS.constructor | include/vata/explicit_lts.hh:41-46 | a new system has the given states and no transitions |
| Lts.ExplicitLTS.AddTransition | src/explicit_lts_sim.cc:915-949 | one copy of the transition is added, in both tables; states, labels and the counter of transitions grow as needed |
| Lts.ExplicitLTS.Init | include/vata/explicit_lts.hh:50-64 | afterwards both tables have a row for every state, list every transition once and are inverse to each other; the edges are exactly the transitions added |
| LtsConfig.ContainsGreatest | src/explicit_lts_sim.cc:446-510 | at every moment the relation that the blocks stand for lies between the greatest simulation and the initial relation |
| LtsConfig.QuietIsGreatest | src/explicit_lts_sim.cc:800-808 | with an empty queue the relation that the blocks stand for is the greatest simulation, because it is itself one |
| LtsConfig.SplitKeeps | src/explicit_lts_sim.cc:403-444 | splitting a block whose new part inherits counters and pending lists keeps the whole invariant: partition, insets, counters, pending lists, queue, justification of every related pair, closure under the greatest simulation |
| LtsConfig.SplitCounts | src/explicit_lts_sim.cc:148-160 | after the labels are moved from the inset of the parent to that of the new block, insets, counters and pending lists of both are right |
| LtsConfig.SplitJustified | src/explicit_lts_sim.cc:432-441 | a failure that is pending for a block is pending for the block that holds the entered state after the split |
| LtsConfig.EraseKeepsLists | src/explicit_lts_sim.cc:478-508 | taking a block out of a row, with the counts decremented and the zeros enqueued, leaves exact counters and proper pending lists |
| LtsConfig.EraseKeepsJustified | src/explicit_lts_sim.cc:487-505 | a pair whose last answer disappears has its failure pending |
| LtsConfig.EraseKeepsUpClosed | src/explicit_lts_sim.cc:446-510 | taking the removed states out of the rows of all entering blocks keeps the relation closed under every simulation: no related pair of a simulation is lost |
| LtsConfig.StepDone | src/explicit_lts_sim.cc:446-510 | when all entering blocks have lost the masked blocks, the whole invariant holds again |
| LtsConfig.TakeList | src/explicit_lts_sim.cc:446-456 | taking a remove list off the queue leaves the invariant with that list as the one in progress |
| LtsConfig.CountWithout | src/explicit_lts_sim.cc:497-503 | leaving one state out of a set lowers the count of a successor list by the number of its copies, one decrement for each |
| LtsConfig.PairsShrink | src/explicit_lts_sim.cc:474-478 | when rows only lose blocks, either nothing changed or the set of related pairs became strictly smaller |
| LtsConfig.FewBlocks | src/explicit_lts_sim.cc:620-620 | there are never more blocks than states, which is the capacity given to the block relation |
| LtsEngine.SimulationEngine.MoveLabels | src/explicit_lts_sim.cc:148-160 | the inset of the new block counts the states entered under each label, and the inset of the parent loses as many |
| LtsEngine.SimulationEngine.TrySplit | src/explicit_lts_sim.cc:182-237 | the states collected are taken out of the block, and nothing happens when they are all of it |
| LtsEngine.SimulationEngine.InternalSplit | src/explicit_lts_sim.cc:349-375 | the states are sorted by block, each affected block listed once |
| LtsEngine.SimulationEngine.NewBlock | src/explicit_lts_sim.cc:392-399 | partition, insets, state index and block relation are those of the split configuration |
| LtsEngine.SimulationEngine.Inherit | src/explicit_lts_sim.cc:431-442 | the new block takes over counters and pending lists of its own labels, and exactly those lists are queued |
| LtsEngine.SimulationEngine.SplitOne | src/explicit_lts_sim.cc:413-442 | one split keeps the invariant and the sets of related states; the states moved, and no others, get the new block |
| LtsEngine.SimulationEngine.Split | src/explicit_lts_sim.cc:403-444 | afterwards the blocks of the mask cover exactly the states to remove |
| LtsEngine.SimulationEngine.FastSplit | src/explicit_lts_sim.cc:377-401 | the same during initialisation, without counters |
| LtsEngine.SimulationEngine.BuildPre | src/explicit_lts_sim.cc:315-347 | the blocks with a transition under the label into the block, once each |
| LtsEngine.SimulationEngine.EnqueueToRemove | src/explicit_lts_sim.cc:304-313 | the state is added to the pending list, which is queued when it is new |
| LtsEngine.SimulationEngine.Decr | src/explicit_lts_sim.cc:497-503 | the count of one state goes down by one, and the state becomes pending exactly when the count reaches zero |
| LtsEngine.SimulationEngine.DecrLabel | src/explicit_lts_sim.cc:481-506 | after all transitions under a label into a block are counted out, the counters count the remaining related states, and exactly the states that lost their last one became pending |
| LtsEngine.SimulationEngine.DecrBlock | src/explicit_lts_sim.cc:480-508 | the same for all common labels of the two blocks |
| LtsEngine.SimulationEngine.EraseBlock | src/explicit_lts_sim.cc:476-508 | one block leaves the row, and counters, pending lists and justification are kept |
| LtsEngine.SimulationEngine.EraseRows | src/explicit_lts_sim.cc:462-509 | the rows of the entering blocks lose exactly the masked blocks, all other rows are unchanged |
| LtsEngine.SimulationEngine.ProcessRemove | src/explicit_lts_sim.cc:446-510 | one step keeps the invariant, and makes a block, or loses a related pair, or takes an entry off the queue |
| LtsEngine.SimulationEngine.Run | src/explicit_lts_sim.cc:800-808 | terminates on every input, and then the relation that the blocks stand for is the greatest simulation inside the initial relation |
| LtsEngine.SimulationEngine.MakeBlocks | src/explicit_lts_sim.cc:273-302 | the classes of the initial partition become the blocks |
| LtsEngine.SimulationEngine.BuildDelta1 | include/vata/explicit_lts.hh:95-106 | the states that have successors under a label |
| LtsEngine.SimulationEngine.Refine | src/explicit_lts_sim.cc:673-677 | afterwards the states of a block agree on the labels of their transitions |
| LtsEngine.SimulationEngine.Prune | src/explicit_lts_sim.cc:681-723 | a block stays related only to blocks that have all its labels, and no pair of a simulation is lost |
| LtsEngine.SimulationEngine.InitCounters | src/explicit_lts_sim.cc:725-797 | the counters count related successors, every state with successors but no related one is pending, and the invariant of the engine holds |
| LtsEngine.SimulationEngine.Init | src/explicit_lts_sim.cc:633-798 | from any partition and preorder on its classes, initialisation establishes the invariant |
| LtsEngine.SimulationEngine.BuildResult | src/explicit_lts_sim.cc:810-849 | the matrix holds the related pairs of states below the given size |
| LtsEngine.ComputeSimulationFrom | src/explicit_lts_sim.cc:870-890 | the result is exactly the greatest simulation contained in the relation given by partition and preorder, restricted to the output size |
| LtsEngine.ComputeSimulation | src/explicit_lts_sim.cc:893-906 | with a single class the result is exactly the greatest simulation of all, restricted to the output size |
| DoubleLinks.Shortened | src/util/splitting_relation.hh:409-412 | linking the neighbours of a node takes it, and nothing else, out of its chain |
| BlockList.StateList.MakeList | src/explicit_lts_sim.cc:280-288 | the states are linked in one circle, all other links stay |
| BlockList.StateList.Claim | src/explicit_lts_sim.cc:120-131 | one walk round the circle sets the block of its states and of no others, and stops |
| BlockList.Block.MoveToTmp | src/explicit_lts_sim.cc:163-166 | the state is noted for the next split |
| BlockList.Block.TrySplit | src/explicit_lts_sim.cc:182-237 | one circle becomes two: the states noted, last one first, and the others, with sizes that add up; when all states are noted nothing changes |
| BlockList.TakenOut | src/explicit_lts_sim.cc:197-198 | linking previous and next of an element leaves the circle of the others |
| BlockList.OtherCycles | src/explicit_lts_sim.cc:182-237 | the circles of other blocks are not touched |
| SplittingRelation.AppendedLine | src/util/splitting_relation.hh:312-315 | a new element behind the last of a line extends that line and no other |
| SplittingRelation.UnlinkedLine | src/util/splitting_relation.hh:409-412 | relinking the neighbours of an element shortens its line and no other |
| SplittingRelation.ColumnIs | src/util/splitting_relation.hh:145-167 | a walk down a column meets every related row once |
| SplittingRelation.RowIs | src/util/splitting_relation.hh:170-190 | a walk along a row meets every related column once |
| SplittingRelation.SplitExact | src/util/splitting_relation.hh:347-348 | skipping the last element of the row is right if and only if the index is related to itself |
| SplittingRelation.SplitMisses | src/util/splitting_relation.hh:347-348 | a relation with an index that is not related to itself, whose split loses a pair |
| SplittingRelation.Relation.constructor | src/util/splitting_relation.hh:218-218 | a new relation has no indexes and relates nothing |
| SplittingRelation.Relation.Init | src/util/splitting_relation.hh:239-287 | related are exactly the pairs listed, and all four directions of links are consistent |
| SplittingRelation.Relation.CopyColumn | src/util/splitting_relation.hh:295-324 | the new column has an element for every element of the copied one; the copied row gets one exactly when the index is related to itself |
| SplittingRelation.Relation.CopyRow | src/util/splitting_relation.hh:339-369 | the new row has an element for every element of the copied one but the last |
| SplittingRelation.Relation.Split | src/util/splitting_relation.hh:289-385 | the new index is related exactly like the old one and to itself, if and only if the old index is related to itself; links stay consistent |
| SplittingRelation.Relation.Erase | src/util/splitting_relation.hh:405-419 | exactly the pair of the element is no longer related |
| SplittingRelation.Relation.EraseMasked | src/explicit_lts_sim.cc:468-479 | walking along a row, and on from each element by the link that it still has after it was erased, takes out exactly the pairs with masked columns |
| SplittingRelation.Relation.Column | src/util/splitting_relation.hh:387-394 | iterating gives the rows related to the index, once each |
| SplittingRelation.Relation.Row | src/util/splitting_relation.hh:396-403 | iterating gives the columns related to the index, once each |
| SharedCounter.LastCell | src/util/shared_counter.hh:171-186 | when the cell holds the whole sum, or the sum is two, at most one cell is positive after the decrement, so the sum alone says it all |
| SharedCounter.DecrMaster | src/util/shared_counter.hh:168-169 | without an array the sum is the count, and decrementing it keeps the representation |
| SharedCounter.DecrCollapse | src/util/shared_counter.hh:171-186 | giving the array up for the sum keeps every row right, also those that still share the array |
| SharedCounter.DecrCopied | src/util/shared_counter.hh:188-208 | a shared array is copied before it is written; the other holders keep their counts |
| SharedCounter.DecrInPlace | src/util/shared_counter.hh:204-208 | an array with one holder is written in place |
| SharedCounter.SetFirst | src/util/shared_counter.hh:142-150 | the first count set in a row needs an array |
| SharedCounter.SetNext | src/util/shared_counter.hh:129-140 | a further count is added to the sum |
| SharedCounter.InitCollapses | src/util/shared_counter.hh:80-93 | a row with a single count is kept as its sum |
| SharedCounter.ShareRow | src/util/shared_counter.hh:253-263 | a row that takes over sum and array stands for the same counts as the row copied |
| SharedCounter.ReleaseRow | src/util/shared_counter.hh:66-74 | releasing a row leaves all others right, and reclaims an array that nobody holds |
| SharedCounter.SharedCounters.Set | src/util/shared_counter.hh:116-152 | the count of state and label becomes the one given |
| SharedCounter.SharedCounters.Init | src/util/shared_counter.hh:78-95 | after setting, no count changes and the counter may be decremented and shared |
| SharedCounter.SharedCounters.Decr | src/util/shared_counter.hh:154-210 | returns the count minus one and lowers that count, of that counter, and no other |
| SharedCounter.SharedCounters.Resize | src/util/shared_counter.hh:212-216 | further rows count nothing, existing counts stay |
| SharedCounter.SharedCounters.CopyLabels | src/util/shared_counter.hh:219-269 | the rows of the labels are those of the other counter, all other rows count nothing, and no other counter changes |
| SharedCounter.SharedCounters.Destroy | src/util/shared_counter.hh:64-76 | the rows of the counter go, all other counts stay |
| SharedList.NewElem | src/util/shared_list.hh:139-145 | a new list with one entry |
| SharedList.SharedLists.Append | src/util/shared_list.hh:135-156 | the list gains the entry and reports whether it is new; all other lists keep their entries |
| SharedList.SharedLists.ContinueWith | src/util/shared_list.hh:147-153 | a shared list is not written: a new element in front continues with it |
| SharedList.SharedLists.Copy | src/util/shared_list.hh:128-133 | the copy is the list itself, counted once more |
| SharedList.SharedLists.UnsafeRelease | src/util/shared_list.hh:114-126 | the elements that nobody else refers to go, reference counts stay exact, all other lists keep their entries |
| SmartSets.InsertedFollows | include/vata/util/smart_set.hh:120-127 | a new element behind the last one keeps list and predecessor index in step |
| SmartSets.InsertedExact | include/vata/util/smart_set.hh:120-127 | behind any other node than the last one the insertion does not give the longer list |
| SmartSets.ErasedFollows | include/vata/util/smart_set.hh:134-155 | taking an element out keeps list and predecessor index in step |
| SmartSets.SmartSet.constructor | include/vata/util/smart_set.hh:159-164 | a new set is empty |
| SmartSets.SmartSet.Insert | include/vata/util/smart_set.hh:114-132 | a key not yet in the set gets an element with count zero at the end of the list |
| SmartSets.SmartSet.Add | include/vata/util/smart_set.hh:285-288 | the key is in the set once more |
| SmartSets.SmartSet.Erase | include/vata/util/smart_set.hh:134-155 | the key is gone, and insertion stays possible if and only if its element was not the last of the list |
| SmartSets.TailLost | include/vata/util/smart_set.hh:134-155 | a set from which its last element was erased, and into which an insertion would go wrong |
| SmartSets.SmartSet.Init | include/vata/util/smart_set.hh:267-283 | the key is in the set as often as given |
| SmartSets.SmartSet.Remove | include/vata/util/smart_set.hh:290-314 | the key is in the set once less, if it was in it |
| SmartSets.SmartSet.RemoveStrict | include/vata/util/smart_set.hh:316-333 | the key is in the set once less |
| SmartSets.SmartSet.Contains | include/vata/util/smart_set.hh:237-250 | true if and only if the key is in the set |
| SmartSets.SmartSet.Count | include/vata/util/smart_set.hh:252-265 | how often the key is in the set |
| SmartSets.SmartSet.Clear | include/vata/util/smart_set.hh:345-361 | the set is empty and insertion is possible again |
| SmartSets.SmartSet.AssignFlat | include/vata/util/smart_set.hh:208-225 | the elements of the other set in the same order, once each |
| EngineData.InitRelation | src/explicit_lts_sim.cc:667-669 | the linked relation filled from the matrix stands for the initial block relation |
| EngineData.SplitStands | src/explicit_lts_sim.cc:429-429 | splitting the linked relation gives the relation of the split configuration, since every block is related to itself |
| EngineData.SplitRelation | src/explicit_lts_sim.cc:429-429 | in every configuration the split of the linked relation meets its conditions, fits the capacity, and stands for the next configuration |
| EngineData.EraseRow | src/explicit_lts_sim.cc:468-479 | the walk along the row of an entering block stands for taking the masked blocks out of its row |
| EngineData.SplitStates | src/explicit_lts_sim.cc:413-425 | splitting the circular list shares the states out between the old and the new block as the step on configurations requires |
| EngineData.BuildKeys | src/explicit_lts_sim.cc:644-659 | the numbers given to states with successors are different for different pairs of label and state, and lie in the rows of their label |
| EngineData.PutCount | src/util/shared_counter.hh:121-127 | a cell written through the numbers changes the count of one state and label only |
| EngineData.SetCount | src/explicit_lts_sim.cc:755-758 | a first count is the one of the configuration, all other counts stay |
| EngineData.Decr | src/explicit_lts_sim.cc:497-503 | the shared counters and the counters of the configuration stay in step, and no other block notices |
| EngineData.CopyCounts | src/explicit_lts_sim.cc:431-431 | the counter of the new block stands for the counters that the configuration hands over |
| EngineSets.MoveLabels | src/explicit_lts_sim.cc:148-160 | for every state moved and label entering it, the counted set of the parent has the label once less and that of the new block once more |
| EngineSets.SplitInset | src/explicit_lts_sim.cc:134-161 | after that the two counted sets stand for the insets of both blocks in the split configuration |
| EngineSets.Enqueue | src/explicit_lts_sim.cc:304-313 | appending to a shared list adds the state to the pending list of that block and label, changes no other pending list nor the one in hand, and reports whether there was none |
| EngineSets.CopyLists | src/explicit_lts_sim.cc:433-442 | the new block takes over the pending lists under its labels as references, and all lists stand for those of the configuration |
| EngineSets.TakeList | src/explicit_lts_sim.cc:453-456 | the list taken is no longer pending and is still there |
| EngineSets.ReleaseList | src/explicit_lts_sim.cc:462-467 | releasing the list taken leaves every pending list as it was, also those that share elements with it |
| BinaryRelation.BinaryRelation.constructor | include/vata/util/binary_relation.hh:175-185 | all pairs are related, or none |
| BinaryRelation.BinaryRelation.RestrictToSymmetric | include/vata/util/binary_relation.hh:391-402 | exactly the pairs related in both directions stay |
| BinaryRelation.BinaryRelation.GetQuotientProjection | include/vata/util/binary_relation.hh:417-447 | on an equivalence, every element is mapped to the least element of its class |
| BinaryRelation.BinaryRelation.BuildIndex | include/vata/util/binary_relation.hh:370-386 | the images and co-images of every element, in ascending order |
| BinaryRelation.BinaryRelation.Split | include/vata/util/binary_relation.hh:117-148 | a new element is related like the given one, and to itself as asked for |
| Translators.Translator.Translate | include/vata/util/transl_weak.hh:66-80 | a known key keeps its number, a new one gets the next |
| Translators.Translator.NextIsSize | include/vata/util/transl_weak.hh:66-80 | numbering from zero, the next number is how many keys are known |
| Useless.ReachDown | src/explicit_tree_unreach.cc:28-59 | the worklist reaches the final states, stays closed under transitions, and terminates |
| Useless.ReachIsTop | src/explicit_tree_unreach.cc:28-59 | what the worklist reaches is exactly what lies under a final state |
| Useless.RemoveUnreachableStates | src/explicit_tree_unreach.cc:25-94 | the final states stay; a transition stays if and only if its parent is reached, or as many states are reached as have transitions |
| Useless.UnreachableKeepsLang | src/explicit_tree_unreach.cc:69-93 | either way the language is kept |
| Useless.UnreachableExact | src/explicit_tree_unreach.cc:69-72 | no state with transitions is left unreachable if and only if the two numbers differ or every reached state has a transition |
| Useless.UnreachableKept | src/explicit_tree_unreach.cc:69-72 | an automaton on which the early return keeps an unreachable state |
| Useless.FindProductive | src/explicit_tree_useless.cc:59-136 | the countdown finds exactly the states that accept a tree and the transitions between them; when the counter is zero all transitions are kept |
| Useless.CountdownDone | src/explicit_tree_useless.cc:111-136 | with an empty worklist everything productive has been found |
| Useless.ShortcutHarmless | src/explicit_tree_useless.cc:155-161 | after useless transitions are gone the early return leaves only reachable states |
| Useless.UselessRemovedExact | src/explicit_tree_useless.cc:145-171 | the language is kept, and exactly the transitions and states used in some accepting run are left |
| Useless.KeptIffUsed | src/explicit_tree_useless.cc:163-171 | a transition is kept if and only if some accepting run takes it |
| Useless.RemoveUselessStates | src/explicit_tree_useless.cc:26-173 | computes that automaton, through the shortcut or not |
| Reindex.RenamedSameLang | src/explicit_tree_aut_core.hh:812-855 | renaming states one to one keeps the language |
| Reindex.RenamedTrimmed | src/explicit_tree_aut_core.hh:812-855 | renaming, also with merging, keeps every state useful |
| Reindex.ReindexStates | src/explicit_tree_aut_core.hh:812-868 | the result is the image under the translation, which is only extended |
| Reindex.Sanitize | include/vata/aut_base.hh:103-104 | the result is the automaton without the transitions and final states that no accepting run uses, with the states renamed one to one; the language is kept, every state is useful, and the new numbers are those from start up to the one returned |
| Reindex.SanitizeAutsForInclusion | include/vata/aut_base.hh:93-114 | the same for both automata: the smaller one has the first numbers, the bigger one the next, up to the one returned |
| Antichain.Antichain.Contains | src/antichain2c_v2.hh:164-188 | true if and only if some stored pair with a candidate key compares below the set |
| Antichain.Antichain.Refine | src/antichain2c_v2.hh:208-241 | exactly the pairs with a candidate key that compare above the set go, and they are reported |
| Antichain.Antichain.Insert | src/antichain2c_v2.hh:255-262 | exactly the pair is added |
| ChoiceFunctions.Advance | src/down_tree_incl_fctor.hh:217-226 | the carry loop computes the successor, and wraps exactly after the last function |
| ChoiceFunctions.SuccIsNext | src/explicit_tree_comp_down.hh:61-80 | nothing lies between a choice function and its successor |
| ChoiceFunctions.SuccLeavesFewer | src/explicit_tree_comp_down.hh:61-80 | each step leaves one function less |
| ChoiceFunctions.MaxIsLast | src/explicit_tree_comp_down.hh:72-76 | every choice function comes before the last one |
| ChoiceFunctions.ZeroIsFirst | src/explicit_tree_comp_down.hh:57-58 | no choice function comes before the one that is zero everywhere |
| ChoiceFunctions.ChoiceFunction.Next | src/explicit_tree_comp_down.hh:61-80 | moves to the successor, and reports false exactly at the last |
| ChoiceFunctions.SequentialChoiceFunctionGenerator.GetNext | src/down_tree_incl_fctor.hh:210-234 | returns one choice function after another until the countdown ends; then every one has been returned |
| InclusionSpec.Discharge | src/down_tree_incl_fctor.hh:286-321 | what the transitions of a goal show on the assumption of the goal itself holds without that assumption |
| InclusionSpec.FailRefutes | src/down_tree_incl_fctor.hh:457-477 | a transition whose tuple fails refutes the goal outright |
| InclusionSpec.ChoicesSuffice | src/down_tree_incl_fctor.hh:520-564 | if for every choice function some position is included, the tuple is covered |
| InclusionSpec.ChoiceRefutes | src/down_tree_incl_fctor.hh:559-563 | a choice function with no included position refutes the tuple |
| InclusionSpec.TupleBelow | src/down_tree_incl_fctor.hh:487-513 | a tuple that is included position by position in one tuple is covered |
| DownIncl.ImpliedFollows | src/down_tree_incl_fctor.hh:331-351 | what is below an assumption, or below a cached inclusion, follows from the assumptions too |
| DownIncl.ImpliedFails | src/down_tree_incl_fctor.hh:353-357 | what is above a refuted goal fails too |
| DownIncl.PreorderIncl | src/down_tree_incl_fctor.hh:431-442 | a goal whose state is below one of the set holds |
| DownIncl.DownwardInclusionFunctor.IsInWorkset | src/down_tree_incl_fctor.hh:331-345 | true if and only if an assumption is at least as strong, and then the goal follows from the assumptions |
| DownIncl.DownwardInclusionFunctor.IsNoninclusionImplied | src/down_tree_incl_fctor.hh:353-357 | true if and only if a refuted pair covers the goal, and then the goal is refuted |
| DownIncl.DownwardInclusionFunctor.IsImpliedByChildren | src/down_tree_incl_fctor.hh:347-351 | true if and only if a cached inclusion covers the goal, and then the goal follows from the assumptions |
| DownIncl.DownwardInclusionFunctor.IsImpliedByPreorder | src/down_tree_incl_fctor.hh:431-442 | true if and only if the state is below one of the set, and then the inclusion holds |
| DownIncl.DownwardInclusionFunctor.ProcessFoundInclusion | src/down_tree_incl_fctor.hh:359-369 | a goal not yet covered replaces the weaker ones in the local cache |
| DownIncl.DownwardInclusionFunctor.ProcessFoundNoninclusion | src/down_tree_incl_fctor.hh:371-381 | a refuted goal not yet covered replaces the weaker ones in the global cache |
| DownIncl.DownwardInclusionFunctor.Expand | src/down_tree_incl_fctor.hh:265-322 | yes means that the inclusion follows from the workset, no means that it fails; the workset is restored, both caches stay sound, and the recursion ends |
| DownIncl.DownwardInclusionFunctor.CheckTuple | src/down_tree_incl_fctor.hh:480-565 | the same for one tuple: first against single tuples, then through all choice functions |
| DownIncl.DownwardInclusionFunctor.Apply | src/down_tree_incl_fctor.hh:444-567 | the same for all tuples under a symbol, leaves included |
| DownIncl.CheckDownwardTreeInclusion | src/tree_incl_down.hh:44-108 | for trimmed automata with disjoint states and any preorder that implies inclusion, true if and only if the language is included |
| Preorders.PruneStep | src/antichain1c.hh:42-68 | inserting a state after the states below it are taken out leaves a set that covers the same |
| UpSpec.PostOfReach | src/explicit_tree_incl_up.cc:442-480 | stepping from the reached sets of the children gives the reached set of the tree |
| UpSpec.PostCovered | src/explicit_tree_incl_up.cc:442-480 | sets that are covered in the upward simulation step to sets that are covered, so pruned sets may be used for whole ones |
| UpSpec.Combine | src/explicit_tree_incl_up.cc:428-515 | from pairs derived by reading trees upward and pruning, the step and the pruning give such a pair again |
| UpSpec.DerivedRepresents | src/explicit_tree_incl_up.cc:428-515 | in an upward simulation the state of a derived pair accepts the tree read, and the set stands for all that the tree reaches: pruning loses nothing |
| UpSpec.Rejected | src/explicit_tree_incl_up.cc:487-490 | in an upward simulation, a final state with a derived set that has no final state refutes inclusion |
| UpSpec.Stuck | src/explicit_tree_incl_up.cc:482-485 | in an upward simulation, a useful state with a derived pair whose set is empty refutes inclusion |
| UpSpec.OnlyKid | src/explicit_tree_incl_up.cc:498-501 | a state below one of the set needs no pair: the automata are disjoint, so it can only be an only child, and the parent is below a reached state too |
| UpSpec.Lift | src/explicit_tree_incl_up.cc:505-530 | a pair stored for a bigger state serves: the transition is lifted, child by child, to one whose children are stored |
| UpSpec.SaturatedCovers | src/explicit_tree_incl_up.cc:402-547 | in a saturated set of pairs, every tree of a state is covered: the tree reaches a bigger state, or a bigger state is stored with a set covered by what it reaches |
| UpSpec.SaturatedIncluded | src/explicit_tree_incl_up.cc:549-549 | in an upward simulation, a saturated set of derived pairs without a rejecting one proves inclusion |
| UpSpec.BasisDecides | src/explicit_tree_incl_up.cc:211-550 | in an upward simulation, the basis that the check has for either answer makes it the right one |
| UpWorklist.NotFoundOpen | src/explicit_tree_incl_up.cc:216-238 | if the comparison misses that a pair is subsumed, no pair like it is stored that the comparison could have found |
| UpWorklist.Opened | src/explicit_tree_incl_up.cc:523-537 | what may come again after a pair was stored lies strictly above that pair |
| UpWorklist.StoreDecreases | src/explicit_tree_incl_up.cc:402-547 | hence every pair stored lowers a measure, and the check ends, although comparisons miss subsumed pairs and pairs come again |
| UpWorklist.StoreKeeps | src/explicit_tree_incl_up.cc:523-537 | storing a pair that was not found to be subsumed, with the pairs it is found to subsume erased from antichain and worklist, keeps what is processed or waiting, enlarges what is subsumed, and leaves less to come |
| BottomUpIndexes.IndexBottomUp | src/util/expl_bu_index.hh:103-171 | the index lists, by child state, symbol and position, exactly the transitions of the automaton, leaves apart |
| BottomUpIndexes.IndexBottomUp2 | src/util/expl_bu_index.hh:173-246 | the same by symbol, position and child state |
| UpIncl.ExplicitUpwardInclusion.EvalTransitions | src/explicit_tree_incl_up.cc:253-288 | exactly the transitions under the symbol with a state of the set at the position |
| UpIncl.ExplicitUpwardInclusion.EvalPost | src/explicit_tree_incl_up.cc:442-480 | of the states reached in one step, those not below others, and whether one of them is final |
| UpIncl.CollectStep | src/explicit_tree_incl_up.cc:466-480 | a further reached state is left out below another one, or takes the place of those below it; whether a final state has been reached is kept right |
| UpIncl.ExplicitUpwardInclusion.Store | src/explicit_tree_incl_up.cc:523-537 | the pair is subsumed afterwards, waiting or processed, the rest of the worklist is intact, and either nothing changed or there is less to come |
| UpIncl.ExplicitUpwardInclusion.BuildChoices | src/explicit_tree_incl_up.cc:155-183 | offers all stored sets for every other child and the one set for the fixed position, or finds a child without any |
| UpIncl.ExplicitUpwardInclusion.Enumerate | src/explicit_tree_incl_up.cc:435-515 | all combinations are tried, and each result is covered, or is a derived pair that rejects |
| UpIncl.ExplicitUpwardInclusion.HandleTransition | src/explicit_tree_incl_up.cc:428-541 | one transition with one processed pair is dealt with for good |
| UpIncl.ExplicitUpwardInclusion.PopLeast | src/explicit_tree_incl_up.cc:404-407 | a pair with the least set leaves the worklist |
| UpIncl.ExplicitUpwardInclusion.PostOfLeaves | src/explicit_tree_incl_up.cc:324-392 | every leaf is covered, or gives a derived pair that rejects |
| UpIncl.ExplicitUpwardInclusion.CheckInternal | src/explicit_tree_incl_up.cc:211-550 | the worklist ends; true has a saturated set of derived pairs as its basis, none of which rejects, and false a derived pair that rejects |
| UpIncl.CheckUpwardInclusion | src/explicit_tree_incl_up.cc:211-550 | for trimmed automata with disjoint states, any preorder that keeps final states, and comparisons that find only what is covered and treat equivalent states alike: the check ends with such a basis for its answer; when the preorder is an upward simulation, true is returned if and only if the language is included |
| Inclusion.MeetIsCommon | src/down_tree_incl_fctor.hh:100-118 | the merge of two lists finds only common elements |
| Inclusion.CommonIsMet | src/down_tree_incl_fctor.hh:100-118 | on sorted lists the merge misses no common element |
| Inclusion.MeetExact | src/down_tree_incl_fctor.hh:100-118 | the merge finds the common elements with every sorted list if and only if the list is sorted |
| Inclusion.LteSound | src/down_tree_incl_fctor.hh:87-127 | whatever the order of the index lists, sets compared below are covered |
| Inclusion.LteComplete | src/down_tree_incl_fctor.hh:87-127 | on sorted index lists covered sets are compared below |
| Inclusion.FindsAllExact | src/down_tree_incl_fctor.hh:87-127 | every covered set is found to be below, equal sets aside or not, if and only if all index lists are sorted |
| Inclusion.TranslatedExact | include/vata/util/binary_relation.hh:644-668 | with ascending lists of numbers that is so if and only if the dictionary keeps the order of every list |
| Inclusion.TranslatedMisses | include/vata/util/binary_relation.hh:644-668 | two related states with numbers against their order: a covered set that is not found |
| Inclusion.LteByClass | src/explicit_tree_incl_up.cc:216-238 | when equivalent states have the same list, sorted or not, the comparison treats equivalent states alike |
| Inclusion.CheckInclusion | src/explicit_tree_incl.cc:24-82 | preparing two arbitrary ranked automata and checking upward or downward through the identity decides inclusion of their languages |
| SimInclusion.UnionAccepts | src/explicit_tree_union.cc:49-64 | the union of automata with disjoint states accepts from a state what the automaton of the state does |
| SimInclusion.UnionLang | src/explicit_tree_union.cc:49-64 | it accepts what either automaton accepts |
| SimInclusion.SimilarityIsSound | cli/operations.hh:141-171 | the downward simulation of the union is a preorder through which inclusion may be checked |
| SimInclusion.BuildIndex | include/vata/util/binary_relation.hh:644-668 | the lists of bigger states are those of the relation, by ascending numbers, translated back to states |
| SimInclusion.CheckInclusionWithSimulation | cli/operations.hh:40-184 | preparation, union, translation to a transition system, simulation engine, index and downward check together decide inclusion of the languages of two arbitrary ranked automata |
| SimInclusion.UpSimilarityKeepsFinals | cli/operations.hh:156-165 | upward similarity of the union, with transitions redirected anyhow, is a preorder that keeps final states, so that the upward check may be run with it |
| SimInclusion.UpSimilarityIsUpward | cli/operations.hh:156-165 | with no transition led away from its parent, it is an upward simulation through which the check may prune |
| SimInclusion.ListsByClass | include/vata/util/binary_relation.hh:644-668 | translated index lists, whatever their order, are the same for equivalent states |
| SimInclusion.CheckPreparedUpward | cli/operations.hh:141-184 | on prepared automata whose states are listed in any order: the relation is upward similarity with transitions of several children led to the position of their parent, the answer has its basis in that relation, and when every parent of several children stands at the position that it names, true is returned if and only if the language is included |
| SimInclusion.CheckInclusionWithUpwardSimulation | cli/operations.hh:40-184 | preparation, union, upward translation, simulation engine, index and upward check together: for every order of the states the relation is the one of CheckPreparedUpward on the prepared automata, and the answer has its basis in it; the answer decides inclusion of the languages of two arbitrary ranked automata when, after the preparation, the parents of several children stand in place, and in any case when no transition has more than one child |
| SecondLookup.LeadsToLeaves | src/explicit_tree_transl.hh:273-316 | an automaton for which, in any order of its states, every environment leads to the node of the leaves and nowhere else |
| SecondLookup.TranslateTwoStates | src/explicit_tree_transl.hh:113-350 | so it is in every system that the translation builds from that automaton |
| SecondLookup.ReallySimilar | src/explicit_tree_transl.hh:113-350 | in the union of two further automata, 5 is below 6 and 6 is not below 5 |
| SecondLookup.SwappedSimilar | src/explicit_tree_transl.hh:113-350 | with two states listed the other way round, the relation computed has 6 below 5 and not 5 below 6 |
| SecondLookup.NotCertified | src/explicit_tree_incl_up.cc:211-550 | no saturated set of derived pairs is without a rejecting one, when pairs are pruned by that relation |
| SecondLookup.RefusesIncluded | cli/operations.hh:141-184 | so the check says no for these two automata and this order, although the language is included |
| ComplementSpec.ChoiceLemma | src/explicit_tree_comp_down.hh:308-354 | no tuple of a set accepts the children if and only if some distribution of the tuples over the positions has every child rejected by all states given to it |
| ComplementSpec.VectorIsTarget | src/explicit_tree_comp_down.hh:311-330 | every choice function gives such a distribution |
| ComplementSpec.TargetIsVector | src/explicit_tree_comp_down.hh:311-330 | every such distribution is given by a choice function |
| ComplementSpec.SetAccepts | src/explicit_tree_comp_down.hh:239-357 | the state for a set accepts a tree over the alphabet if and only if no state of the set does, although sets are pruned on the way |
| ComplementSpec.PrunedAccepts | src/explicit_tree_comp_down.hh:314-330 | leaving out states below others does not change which trees a set accepts |
| ComplementSpec.ComplementExact | src/explicit_tree_comp_down.hh:229-237 | with the set of all final states, pruned, as final state the language is the complement |
| ComplementSpec.ReachedClosed | src/explicit_tree_comp_down.hh:239-354 | what choices make of the tuples of a reached set, pruned, is reached: no other sets are ever needed |
| Complement.NumberSymbols | src/explicit_tree_comp_down.hh:175-188 | symbols are numbered one to one, with their ranks |
| Complement.TopDownIndex | src/explicit_tree_comp_down.hh:100-141 | the index lists, by state and symbol number, exactly the tuples of the automaton |
| Complement.CollectTuples | src/explicit_tree_comp_down.hh:247-272 | the tuples of all states of the set under the symbol, once each |
| Complement.Distribute | src/explicit_tree_comp_down.hh:311-350 | each position gets those of the states chosen for it that are not below others there, and no two of them are below each other |
| Complement.PruneFinals | src/explicit_tree_comp_down.hh:208-220 | the final states that are not below others, and no two of them below each other |
| Complement.AddChoices | src/explicit_tree_comp_down.hh:306-354 | every choice function is used exactly once, each giving one transition |
| Complement.ComputeRow | src/explicit_tree_comp_down.hh:245-354 | the transitions under one symbol are those of distributions, pruned, and every distribution has one, in all cases: no tuple, with rank zero and without, and choice functions |
| Complement.Compute | src/explicit_tree_comp_down.hh:148-357 | for any preorder that implies inclusion, terminates; every set numbered is one that steps of choices and pruning reach from the set of final states, pruned, which is the only final one; each has exactly its rows, and the language is that of the ranked trees over the alphabet that the source rejects |
| Complement.ComplementWithPreorder | src/explicit_tree_comp_down.hh:361-376 | the result is that automaton without the transitions and final states that no accepting run uses |
| Complement.ComplementOf | src/explicit_tree_comp_down.cc:15-34 | the same with the identity, after useless states are removed from the result |
| Isect.DenseIsOnto | src/explicit_tree_isect.cc:106-113 | the product map numbers pairs one to one onto 0..n-1 |
| Isect.PairAccepts | src/explicit_tree_isect.cc:54-128 | the state of a pair accepts a tree if and only if both its components do |
| Isect.ProductExact | src/explicit_tree_isect.cc:36-128 | the language is the intersection |
| Isect.JoinMatches | src/explicit_tree_isect.cc:101-123 | the pairs of children of a joint transition of a reached pair are reached: no other pairs are ever needed |
| Isect.ExpandPair | src/explicit_tree_isect.cc:56-127 | the row of a pair has exactly the joint transitions, and all child pairs are known afterwards |
| Isect.ProductComplete | src/explicit_tree_isect.cc:36-128 | every pair that joint transitions reach from a pair of final states is numbered |
| Isect.Intersection | src/explicit_tree_isect.cc:22-131 | terminates; numbered are exactly the pairs that joint transitions reach from pairs of final states, which are the final ones; each pair has exactly its joint transitions, the language is the intersection, and each product state stands for its pair |
| DownSim.SimilarAccepts | src/explicit_tree_aut_core.cc:336-348 | a state accepts what any state that it simulates accepts |
| DownSim.SimilarTransitive | src/explicit_tree_aut_core.cc:342-344 | the greatest downward simulation is transitive |
| DownSim.RestrictedIsDownward | src/explicit_tree_transl.hh:56-102 | a simulation of the system, restricted to state nodes, is a downward simulation, though unary tuples are inlined and tuple nodes shared between symbols |
| DownSim.LiftedIsSimulation | src/explicit_tree_transl.hh:56-102 | a downward simulation, lifted to tuple nodes, is a simulation of the system |
| DownSim.EncodingFaithful | src/explicit_tree_transl.hh:26-107 | two states are related by the greatest simulation of the system if and only if they are by the greatest downward simulation of the automaton |
| TranslateDown.TranslateDownward | src/explicit_tree_transl.hh:26-107 | the system built has exactly the edges of the encoding, with one number for every state, symbol and tuple, the final states first, and no other states |
| UpSim.UpTransitive | src/explicit_tree_sim.cc:61-76 | upward similarity is transitive, also with transitions redirected |
| UpSim.RestrictedIsUpward | src/explicit_tree_transl.hh:113-350 | a simulation of the system as built that keeps the classes, restricted to state nodes, is an upward simulation of the automaton with transitions redirected as the system leads, with only children inlined and environments shared |
| UpSim.LiftedIsSimulation | src/explicit_tree_transl.hh:113-350 | an upward simulation of the automaton redirected like that, lifted to the leaf node and to environments, is a simulation of the system as built |
| UpSim.UpSystemExact | src/explicit_tree_transl.hh:113-350 | two states are related by the greatest simulation of the system as built inside the initial relation if and only if they are upward similar in the automaton redirected like that |
| UpSim.OutEdgesExact | src/explicit_tree_transl.hh:309-316 | the edges out of environments lead to the numbers of the parents if and only if the second look-up changes the number of no parent of several children |
| UpSim.UpEncodingFaithful | src/explicit_tree_transl.hh:113-350 | in that case two states are related by the greatest simulation of the system inside the initial relation if and only if they are by the greatest upward simulation of the automaton itself |
| UpSim.NumbersFollow | src/explicit_tree_transl.hh:273-316 | when the states are the numbers, the system leads from a transition with several children to the number of its parent, taken for a state |
| TranslateUp.NumberEnv | src/explicit_tree_transl.hh:171-243 | every environment, with symbol and parent as numbers, gets one number, and joins the class of those that differ from it in the parent only |
| TranslateUp.AddParents | src/explicit_tree_transl.hh:309-316 | from every environment one edge leads to where the number of its parent is found in the dictionary of states, or put into it; the dictionary gains nothing else |
| TranslateUp.SystemBuilt | src/explicit_tree_transl.hh:269-316 | the edges added are exactly those of the system, second look-up included, and it has exactly the nodes numbered |
| TranslateUp.InPlaceExact | src/explicit_tree_transl.hh:269-316 | the edges out of environments lead to the numbers of the parents if and only if every parent of several children stands in the list of states at the position that it names |
| TranslateUp.PartIsPartition | src/explicit_tree_transl.hh:210-265 | the classes partition the nodes of the system |
| TranslateUp.LiftAdmits | src/explicit_tree_transl.hh:318-345 | classes and their relation stand for: final states are below final states only, and environments below those that differ in the parent only |
| TranslateUp.TranslateUpward | src/explicit_tree_transl.hh:113-350 | states get the numbers of their positions in the list, the second look-up keeps them and gives every further key a number of its own, the system is the one with these edges and no other states, and partition and relation are fit for the engine |
| TranslateUp.NumberOnDemand | src/explicit_tree_transl.hh:205-316 | numbering keys as they are met, the number of the leaf node is given out once more if and only if some child has no transition, or the number of some parent of several children is not a state with transitions |
| TranslateUp.OneClassExact | src/explicit_tree_transl.hh:210-253 | a final state and another one come into one class if and only if there are both among the states with transitions, and no fewer final states than states with transitions |
| TranslateUp.FinalityLost | src/explicit_tree_transl.hh:210-253 | an automaton in which they do |
| Reduce.DiscontBinaryRelation.GetQuotientProjection | include/vata/util/binary_relation.hh:916-932 | every state is mapped to the state of its class with the least number |
| Reduce.ComputeDownwardSimulation | src/explicit_tree_aut_core.cc:318-336 | translation and simulation engine together compute exactly the greatest downward simulation, with the final states numbered first |
| Reduce.ComputeUpwardSimulation | src/explicit_tree_sim.cc:61-76 | for every order of the states, what the greatest simulation of the system as built relates; that is upward similarity when the parents of several children stand in place, and for states numbered from zero it is the one of the automaton whose transitions with several children lead to the number of their parent |
| Reduce.ComputeCollapseMap | src/explicit_tree_aut_core.cc:336-348 | states get the same representative if and only if each simulates the other, and it is the one with the least number, final states being numbered first |
| Reduce.CollapseReflects | src/explicit_tree_aut_core.cc:350-350 | what a collapsed state accepts, every state collapsed into it accepts |
| Reduce.CollapseSameLang | src/explicit_tree_aut_core.cc:350-350 | collapsing keeps the language |
| Quotients.CollapseKeepsSimulation | src/explicit_tree_aut_core.cc:336-350 | representatives simulate each other in the quotient exactly as the states did before |
| Quotients.QuotientIsCollapsed | src/explicit_tree_aut_core.cc:336-350 | in the quotient no two different states simulate each other, so collapsing once is enough |
| Quotients.UnreachableCollapsed | src/explicit_tree_aut_core.cc:350-357 | and removing unreachable states does not change that |
| Reduce.ReduceAut | src/explicit_tree_aut_core.cc:297-357 | the language is kept; the result is the quotient by mutual simulation, on the representatives with the least numbers, with the same final states, and without the transitions of unreachable states unless the two numbers compared agree; no two of its states simulate each other |
| MtbddNodes.EvalAgree | src/mtbdd/ondriks_mtbdd.hh:603-623 | only variables up to that of the node matter |
| MtbddNodes.Canonical | src/mtbdd/ondriks_mtbdd.hh:568-574 | in ordered, reduced and unique nodes, two nodes with the same value everywhere are the same node |
| MtbddNodes.AllReachable | src/mtbdd/ondriks_mtbdd.hh:255-276 | when counts are exact and none is zero, every node is reached from a handle |
| MtbddStore.TablesUnique | src/mtbdd/ondriks_mtbdd.hh:308-329 | hash consing keeps one node for each leaf value and each triple of children and variable |
| MtbddStore.TablesAreReachable | src/mtbdd/ondriks_mtbdd.hh:222-285 | the two unique tables hold precisely the nodes that are reachable from live handles |
| MtbddStore.Store.SpawnLeaf | src/mtbdd/ondriks_mtbdd.hh:288-305 | the leaf with the value, an old one if there is one; tables and counts stay exact |
| MtbddStore.Store.SpawnInternal | src/mtbdd/ondriks_mtbdd.hh:308-329 | the node with the children and the variable, an old one if there is one; tables, order and counts stay exact |
| MtbddStore.Store.IncrementRefCnt | src/mtbdd/ondriks_mtbdd.hh:538-543 | one more handle |
| MtbddStore.Store.RecursivelyDelete | src/mtbdd/ondriks_mtbdd.hh:255-276 | a handle goes, with every node that nothing else needs, and no other node; all others keep meaning and exact counts, and the recursion ends |
| MtbddStore.Store.Dispose | src/mtbdd/ondriks_mtbdd.hh:236-253 | an unreferenced node leaves memory and table, and gives up its children |
| MtbddStore.Store.DisposeOfLeafNode | src/mtbdd/ondriks_mtbdd.hh:222-234 | an unreferenced leaf leaves memory and table |
| MtbddApply.ClassifyCase2 | src/mtbdd/classify_case.hh:30-59 | which of two nodes to branch on: those with the higher variable |
| MtbddApply.ApplyStep | src/mtbdd/apply2func.hh:113-162 | combining results for both cofactors gives the result for the node |
| MtbddApply.Apply2Functor.RecDescend | src/mtbdd/apply2func.hh:86-163 | the result has, at every assignment, the value of the operation on the values of both nodes; the memo table holds only such results, and the recursion ends |
| MtbddApply.Apply2Functor.ApplyNodes | src/mtbdd/apply2func.hh:178-192 | the same, starting with an empty memo table |
| Mtbdd.EqualIffSameValues | src/mtbdd/ondriks_mtbdd.hh:568-574 | two live diagrams have the same root if and only if they have the same value at every assignment |
| Mtbdd.ConstructMTBDD | src/mtbdd/ondriks_mtbdd.hh:152-204 | the value of the node where the assignment, moved by the offset, matches, and the default elsewhere; of the nodes that were there, only an unused default leaf may go |
| Mtbdd.NewMtbdd | src/mtbdd/ondriks_mtbdd.hh:512-521 | the value where the assignment matches, and the default elsewhere |
| Mtbdd.NewConstant | src/mtbdd/ondriks_mtbdd.hh:533-543 | the value everywhere |
| Mtbdd.Copy | src/mtbdd/ondriks_mtbdd.hh:523-531 | a further handle on the same root |
| Mtbdd.Delete | src/mtbdd/ondriks_mtbdd.hh:758-761 | the handle goes, other diagrams keep their values, no further node is without references, and those that were stay |
| Mtbdd.Assign | src/mtbdd/ondriks_mtbdd.hh:545-561 | the old root is given up and the new one taken over; other diagrams keep their values, no node is left without references |
| Mtbdd.Apply | src/mtbdd/apply2func.hh:194-213 | pointwise operation on values and defaults, counts exact, and all live diagrams keep their values |
| Mtbdd.GetValue | src/mtbdd/ondriks_mtbdd.hh:603-623 | the value at the assignment, unset variables read as zero |
| Mtbdd.TotalAssignment | src/mtbdd/ondriks_mtbdd.hh:603-623 | the value at a total assignment is the value wherever the assignment matches |
| Mtbdd.ExtendWith | src/mtbdd/ondriks_mtbdd.hh:581-587 | the values of the diagram under the prefix, its default elsewhere |
| Mtbdd.GetMtbddForPrefix | src/mtbdd/ondriks_mtbdd.hh:661-687 | the value at an assignment is that of the original with the prefix put on top |
| Mtbdd.PrefixUndoesExtension | src/mtbdd/ondriks_mtbdd.hh:581-587 | taking a diagram under a prefix that fits the one it was extended with gives back the very same root |
| Mtbdd.OtherPrefixIsDefault | src/mtbdd/ondriks_mtbdd.hh:661-687 | under a prefix that does not fit, the extension is the default everywhere |
| MtbddProject.Rename | src/mtbdd/ondriks_mtbdd.hh:427-466 | for a renaming that keeps the order of the variables tested, the value at an assignment is that of the original at the assignment renamed back |
| MtbddProject.RenamedDiffer | src/mtbdd/ondriks_mtbdd.hh:446-449 | different nodes are renamed to different nodes, so the result is reduced |
| MtbddProject.FoldCollects | src/mtbdd/ondriks_mtbdd.hh:396-399 | a test that reads the operation as a disjunction holds of the fold if and only if it holds of one of the values folded |
| MtbddProject.FoldAbove | src/mtbdd/ondriks_mtbdd.hh:391-407 | with an idempotent operation, folding over variables that a node does not test changes nothing |
| MtbddProject.ProjectRemoved | src/mtbdd/ondriks_mtbdd.hh:396-399 | applying the operation to the projected children projects a removed variable |
| MtbddProject.Project | src/mtbdd/ondriks_mtbdd.hh:708-718 | the value at an assignment is the fold of the operation over all values of the removed variables, also of those that are skipped; counts stay exact; what is newly without references is the projection of a node on the way, and there is nothing such if and only if all these projections were there before or lie below the result |
| MtbddProject.UntouchedIsItself | src/mtbdd/ondriks_mtbdd.hh:377-424 | a node without variables to remove is its own projection |
| MtbddProject.OnlyResultZero | src/mtbdd/ondriks_mtbdd.hh:392-407 | without two removed variables on a path, nothing new but the result of a node is without references |
| MtbddProject.NewBelowResult | src/mtbdd/ondriks_mtbdd.hh:377-424 | when nothing new is without references, every new node lies below the result |
| MtbddProject.NothingLeftExact | src/mtbdd/ondriks_mtbdd.hh:377-424 | for any operation and any removed variables, nothing is left behind if and only if the projection of every node on the way was there before or lies below the result |
| MtbddProject.LeftBehindExact | src/mtbdd/ondriks_mtbdd.hh:396-399 | when all variables are removed, nothing is left behind if and only if every total of a node is the value of an old leaf or of the result |
| MtbddProject.LeavesBehind | src/mtbdd/ondriks_mtbdd.hh:708-718 | from a package without unreferenced nodes, projecting a diagram with values 1, 2, 4 and 8 leaves one, for every idempotent operation that puts these together like bitwise or |
| MtbddProject.OrPutsTogether | src/mtbdd/ondriks_mtbdd.hh:708-718 | bitwise or is such an operation |
| MtbddProject.PathsExact | src/mtbdd/ondriks_mtbdd.hh:468-494 | every assignment that matches the one to start from matches exactly one path, which carries its value and gives values to exactly the variables tested on the way, besides those given at the start |
| MtbddProject.PathsInOrder | src/mtbdd/ondriks_mtbdd.hh:468-494 | the paths are listed low branch first, each as long as the variables tested need |

## Left out

- LtsEngine.SimulationEngine.ProcessRemove: runs on configurations; every part of it has its counterpart on the linked and shared structures in EngineData and EngineSets, but these are not put together into one engine on linked structures.
- SharedCounter.SharedCounters.CopyLabels: counters, rows and arrays are numbers in maps, not objects, so that sharing is visible; caching allocators and reuse of memory are not modelled, and of an array just allocated only the cells that are written are known.
- SharedList.SharedLists.UnsafeRelease: reading the next link of an element that was just handed to the deleter is modelled as reading it before; the method release is never instantiated in the library (it names a member that does not exist) and is not modelled.
- SplittingRelation.Relation.Split: a line is closed by its end after every element, where the source closes it once at the end, and the element that relates the new index to itself is put into column and row together at the end.
- SplittingRelation.Relation.EraseMasked: an erased element keeps its own links in the tables; the allocator that takes it back, and that leaves them readable, is not modelled.
- SmartSets.SmartSet.AssignFlat: the copy constructor and the assignment, which copy counts too, are not modelled.
- BinaryRelation.BinaryRelation.Split: the matrix is a list of rows of the current size; the flat vector with spare capacity, and values left in the spare part, are not modelled.
- BottomUpIndexes.IndexBottomUp: symbols are kept as they are instead of being numbered first.
- Isect.Intersection: starts from an empty product map; the source also accepts a map with entries, whose pairs it does not explore.
- DownIncl.CheckDownwardTreeInclusion: comparisons of sets are computed afresh; the table of earlier comparisons and the sharing of equal sets are not modelled.
- UpIncl.CheckUpwardInclusion: the tables of earlier comparisons and of evaluated transitions are not modelled.
- Inclusion.CheckInclusion: of the options, those without simulation for the upward and the recursive downward check; SimInclusion has these two checks with simulation.
- ChoiceFunctions.SequentialChoiceFunctionGenerator.GetNext: the function that is zero everywhere is returned twice, at the beginning and at the end, as in the source; the width of its countdown variable is not modelled.
- Mtbdd.NewMtbdd: nodes are numbers in tables, diagrams are roots with a ledger of handles, values in leaves are integers, and apply reads and writes one store; tagged pointers are not modelled.
- MtbddStore.Store.Dispose: the node leaves memory before its children are released, where the source frees it afterwards.
- Reduce.ReduceAut: the relation is the greatest downward simulation, the only one that the source implements. Unreachable states stay when the shortcut is taken, as in the source.
- The nonrecursive downward check, a second version of the recursive one, and the optimised downward functor.
- Inclusion, equivalence and simulation of finite (word) automata.
- Automata whose transition functions are diagrams: their inclusion, simulation and intersection.
- TranslateUp.TranslateUpward: automata in which some state has no transition are not translated, only what goes wrong with their numbers and classes is shown; the relation on siblings is the identity, the only one that the source passes.
- TranslateUp.NumberEnv: `Env::operator==` leaves the number of the parent out, while `env_hash` has it (src/explicit_tree_transl.hh:178-199). Environments that differ in the parent only are two entries here, as in a hash table that tells elements apart by their hashes first; a table that does not, or two equal hashes, would give them one number.
- Reduce.ComputeUpwardSimulation: the entries that the second look-up adds to the dictionary for numbers that are not states are not passed on with the relation.
- SimInclusion.CheckInclusionWithUpwardSimulation: decides inclusion when the parents of several children stand in place; where they do not, its answer may be right too, and no exact condition is given for that.
- Bottom-up intersection.
- Parsing, printing, command line, logging and the classes that only forward calls.
- Widths of machine integers: states, counts and references are unbounded numbers, except for the numbers of counter cells in EngineData, where the wrapped value is written out.
