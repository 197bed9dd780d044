# SimuladorAutomato in Dafny

This project models the machine classes of SimuladorAutomato, an educational
simulator of finite automata, pushdown automata, Moore and Mealy machines and
Turing machines, and proves properties of that model. Each machine is a Dafny
`class` whose fields are the Python object's attributes (state set, start
state, final states, alphabets, transition table). Each editing method
(`add_state`, `add_transition`, `remove_state`, `rename_state`, ...) is a
method with a `modifies` clause and a contract giving the whole new state and
its error cases. Each simulation is a method with a loop, proved equal to a
functional specification of the run. Serialisation is a pair of methods over
a record that stands for the JSON document.

The modules follow the source files:

| module | file | models |
|---|---|---|
| `CoreAutomato` | core_automato.dfy | `core/automato.py`: NFA with multi-character labels, greedy longest-match simulation, subset construction, minimisation, JSON |
| `RootAutomato` | root_automato.dfy | `automato.py`: the older NFA with `"ε"` and character-by-character simulation |
| `CorePilha` | core_pilha.dfy | `core/pilha.py`: pushdown automaton with breadth-first search over configurations |
| `RootPilha` | root_pilha.dfy | `pilha.py`: the older pushdown automaton, which simulates in rounds of configuration sets |
| `CoreMoore` | core_moore.dfy | `core/maquina_moore.py`: Moore machine, and the editing methods shared with `maquina_moore.py` |
| `RootMoore` | root_moore.dfy | `maquina_moore.py`: character-by-character simulation and its JSON |
| `CoreMealy` | core_mealy.dfy | `core/maquina_mealy.py`: Mealy machine |
| `Turing` | turing.dfy | `maquina_turing.py`: single-tape Turing machine with a step budget |

These modules are shared by the ones above:
- `Symbols`: options, the epsilon label, the longest prefix match, the first comma of a key.
- `NfaSpec`: epsilon closure, move and the editing helpers of the NFA table.
- `Subsets`: the subset construction.
- `Minimization`: completion with `_error`, partition refinement and the quotient automaton.
- `Names`: the `q<n>` names and sorted block names.
- `PdaSpec`: pushdown configurations, rule firing and reachability.
- `Tables`: the single-target tables of the Moore, Mealy and Turing machines, and their greedy runs.
- `Maps`: map re-indexing.

Modelling choices:
- Python's `if not self.start_state` is false both for `None` and for `""`. The model writes this out as `start.None? || start.value == ""`.
- Errors raised by the source (`ValueError`, `KeyError`) are a returned `Status`. A method that returns `ValueError` leaves the object unchanged, because the source checks before it changes anything. The core Moore `rename_state` is the exception: its `KeyError` comes after states and start have been renamed, and the model leaves them renamed, as the source does.
- A JSON document is a record. Lists built from Python sets have no defined order, so those lists are sets in the record, or a sequence with an arbitrary order where the order matters. Loading loops visit the entries in any order (`:|`) wherever the source iterates a dictionary.
- The Turing machine's tape is a map holding the input's cells and the written cells, and a cell outside it reads as blank. The source's tape is a `defaultdict`, whose read inserts a blank cell, but the run either ends before the next snapshot or writes that same cell first, so every snapshot is the same as the model's.
- Some searches have no bound in the source, namely the pushdown closure and breadth-first search. Their model carries a `fuel` bound and returns `OutOfFuel` when the bound runs out.

## Model

| member | source | states |
|---|---|---|
| CoreAutomato.Automato.AddState | core/automato.py:19-24 | adds the state; it becomes the start when marked so or when no start is set; marked final joins the finals; table and alphabet unchanged; well-formedness kept |
| CoreAutomato.Automato.AddTransition | core/automato.py:26-31 | `ValueError` exactly when either end is not a state, and nothing changes then; otherwise the target joins the set under `(src, symbol)` and a non-epsilon symbol joins the alphabet |
| CoreAutomato.Automato.RemoveState | core/automato.py:33-52 | removing a non-state changes nothing; otherwise the state leaves states, finals and start, and every key from it and every target to it are purged, dropping emptied sets |
| CoreAutomato.Automato.RenameState | core/automato.py:54-78 | `ValueError` exactly when the old name is missing or the new one is taken; otherwise states, start and finals are renamed; every old key appears with its source renamed, and every new key is the renamed key of some old key and holds that key's targets renamed (`RenamedSets`), which is exactly `RenameMap` when no two keys merge; a consistent automaton has no merge |
| CoreAutomato.Automato.RemoveTransition | core/automato.py:79-91 | removes one target from `(src, symbol)`, dropping the key when its set empties; all else unchanged |
| CoreAutomato.Automato.EpsilonClosureOf | core/automato.py:92-102 | returns the epsilon closure `Closure(transitions, s)` |
| CoreAutomato.Automato.MoveOn | core/automato.py:104-108 | a state is in the result exactly when some given state has it as a target under the symbol's label |
| CoreAutomato.Automato.SimulateHistory | core/automato.py:111-182 | the run equals the greedy specification `Simulation`: no start gives `([], False)`; otherwise steps of longest matching label |
| CoreAutomato.Automato.Simulate | core/automato.py:184-193 | the verdict of the same run |
| CoreAutomato.RunGreedy | core/automato.py:119-176 | the loop's history is the start step followed by `Advance`, the greedy specification |
| CoreAutomato.SimulationIsGreedy | core/automato.py:131-176 | every consecutive pair of the history takes the longest label matching the rest of the input from the active set, then closes under epsilon |
| CoreAutomato.SimulationVerdict | core/automato.py:165-180 | a run that stops early stops because no label matches; accepted exactly when the whole input was read and a final state is active |
| CoreAutomato.EmptyInputVerdict | core/automato.py:125-128 | on empty input the verdict is whether the start's closure holds a final state |
| CoreAutomato.SimulationClosed | core/automato.py:120-172 | every active set in the history is closed under epsilon moves |
| CoreAutomato.HistoryIndices | core/automato.py:119-172 | indices are strictly increasing and within the input, and the first step is the start's closure at 0 |
| CoreAutomato.DfaRunIsSinglePath | core/automato.py:111-182 | on a deterministic table every active set has at most one state |
| CoreAutomato.Automato.IsDfa | core/automato.py:350-358 | holds when every key has one target and a non-epsilon label of at most one character; then, with no empty label, every simulation follows a single path, no history entry holding two states |
| CoreAutomato.GreedyIsCharwise | core/automato.py:111-182 | with single-character labels, the greedy simulation accepts exactly when reading the input one character at a time (`Follow`) from the start's closure reaches a final state |
| CoreAutomato.AdvanceCharwise | core/automato.py:131-180 | with single-character labels, a greedy run from any position ends at the input's end in a final state exactly when the character-by-character run of the rest meets the finals |
| CoreAutomato.Automato.ToDfa | core/automato.py:194-239 | no start gives no DFA; otherwise the result is the subset construction from the start's closure, with start `q0`, naming only subsets some word reaches, and it is deterministic |
| CoreAutomato.ToDfaKeepsLanguage | core/automato.py:111-239 | with single-character labels and an input made of the alphabet's characters, the NFA simulation accepts exactly when the simulation of the built DFA from `q0` accepts, and exactly when the DFA's walk from `q0` ends in a final state; the DFA's labels are single characters too |
| CoreAutomato.CollectChars | core/automato.py:215-218 | the result is the set of single characters occurring in alphabet symbols |
| CoreAutomato.CharsSpec | core/automato.py:215-218 | every collected character comes from some symbol, and every character of every symbol is collected |
| CoreAutomato.Automato.MakeComplete | core/automato.py:320-344 | a complete table changes nothing; otherwise `_error` is added and every missing `(state, char)` key gets target `_error` |
| CoreAutomato.Automato.CompleteAndSplit | core/automato.py:244-279 | the automaton becomes its completion (`Completion`: unchanged when complete, otherwise `_error` added with every missing key sent to it), purging `_error` gives back the old table, and the blocks returned are a partition respecting the finals that is stable (`Congruent`) whenever the completed table treats all states alike on every symbol |
| CoreAutomato.Automato.DropSink | core/automato.py:281-293 | removes `_error` if present (as `remove_state` does), and filters it and the empty blocks out of the partition, which stays a partition respecting the finals and groups every other state as before |
| CoreAutomato.Automato.CompleteAndRefine | core/automato.py:244-293 | the automaton loses `_error` and is otherwise as before on an automaton without that state whose start, finals and targets lie among its states; the blocks partition the states, respect the finals and group states as stable blocks of the completed table do, which with non-empty labels is the setting of the language argument (`StableSetting`) |
| CoreAutomato.Automato.Minimize | core/automato.py:244-318 | `ValueError` exactly when the automaton is not a DFA; otherwise the automaton loses `_error`, stated for every case, and the result is the quotient of the refined partition, deterministic and well formed, with no more states than before when start, finals and targets lie among the states; on such an automaton without `_error`, with plain names and non-empty labels, each state's block name accepts in the result exactly the words over the alphabet that the state accepts, and the start's block is the result's start |
| CoreAutomato.PurgeKeepsDfa | core/automato.py:282-286 | removing a state keeps a deterministic table deterministic |
| CoreAutomato.QuotientKeepsDfa | core/automato.py:309-316 | a single-target quotient of a deterministic table is deterministic |
| CoreAutomato.CompletionStable | core/automato.py:320-344 | after completion of a table that passes `is_dfa`, all states agree on which symbols have keys, and `_error` is a sink |
| CoreAutomato.CompletedUniform | core/automato.py:320-344 | after completion of a table that passes `is_dfa` and has no empty label, all states agree on every symbol of the new alphabet about whether they have a key |
| CoreAutomato.CompletedSetting | core/automato.py:244-293 | completion of a DFA without `_error`, with stable refined blocks, is the setting of the language argument, and purging `_error` gives the original states and table back |
| CoreAutomato.RenameTransitions | core/automato.py:70-77 | renaming re-indexes every key with its targets renamed (`RenamedSets`), keeps targets non-empty and labels proper, and equals `RenameMap` when the new name is unused |
| CoreAutomato.RenameKeepsValid | core/automato.py:70-77 | a renamed table keeps non-empty targets and proper labels |
| CoreAutomato.Automato.FromJson | core/automato.py:429-445 | fields come from the record; the table is rebuilt from the entry lists |
| CoreAutomato.Automato.ToJson | core/automato.py:416-428 | states, start, finals and alphabet are saved as they are, and on a well-formed automaton the saved entries load back to the same table |
| NfaSpec.EpsilonClosure | core/automato.py:92-102 | the worklist loop returns `Closure(t, s)` |
| NfaSpec.ClosureSpec | core/automato.py:92-102 | the closure lies within the start set and the targets, and is closed under epsilon |
| NfaSpec.ClosureLeast | core/automato.py:92-102 | the closure lies within every epsilon-closed superset of the start set |
| NfaSpec.ClosureIdempotent | core/automato.py:92-102 | the closure contains its start set, and closing twice adds nothing |
| NfaSpec.MoveStates | core/automato.py:104-110 | the loop returns `Move(t, s, l)` |
| NfaSpec.MoveSpec | core/automato.py:104-110 | a state is in the move exactly when some state of `s` has it as a target under `l` |
| NfaSpec.FollowDfa | core/automato.py:350-358 | on a table with one target and a symbol label per key, the set reached from `{q}` word by word is the single end of the walk, or empty when the walk is stuck |
| NfaSpec.RemoveUndoesAdd | core/automato.py:79-91 | removing a target that was just added restores the table |
| NfaSpec.PurgeLoop | core/automato.py:33-52 | the loop computes the purged table `Purge(t, q)` |
| NfaSpec.RenameLoop | core/automato.py:54-78 | the loop re-indexes every old key under its renamed source, and each new key holds the renamed targets of an old key with that image (`RenamedSets`); equal to `RenameMap` when the new name is unused |
| NfaSpec.RenameBack | core/automato.py:54-78 | renaming to an unused name and back restores the table |
| NfaSpec.TransitionsRoundTrip | core/automato.py:416-445 | rebuilding the table from its saved entries restores it |
| NfaSpec.LoadTransitions | core/automato.py:438-444 | the loading loop computes `TransitionsOf(entries)` |
| Subsets.Determinize | core/automato.py:194-239 | the worklist loop builds a subset DFA satisfying `IsSubsetDfa`: every reached non-empty subset is named and has its moves, and every named subset is reached by some word of symbols tried |
| Subsets.SubsetDfaIsDeterministic | core/automato.py:220-238 | every DFA key has one target and a non-epsilon symbol, targets are states, and `q0` is final exactly when the start closure meets the finals |
| Subsets.WalkFollowsSubsets | core/automato.py:220-238 | walking the DFA from a subset's name follows the subset run; an empty subset run means no walk |
| Subsets.SubsetStatesReached | core/automato.py:220-237 | the DFA's states are exactly the start closure and the non-empty subsets some word of tried symbols reaches from it |
| Subsets.SubsetDfaAccepts | core/automato.py:194-239 | the DFA accepts a word exactly when the subset run of the NFA meets the finals |
| Subsets.SubsetRunIsFollow | core/automato.py:220-238 | the subset run of the construction is the closed move applied word by word (`Follow`) |
| Subsets.FreshName | core/automato.py:232-237 | each new `q<count>` name is unused and the issued names grow by one |
| Names.SubsetNameInjective | core/automato.py:233 | distinct counters give distinct `q<n>` names |
| Names.SortStrings | core/automato.py:299-300 | sorting returns the set's strings in strictly increasing order |
| Names.SortedOfSpec | core/automato.py:299-300 | the sorted list has the set's elements, no others, strictly increasing |
| Names.BlockNameShape | core/automato.py:299-300 | a singleton block is named by its member; larger blocks get a `{...}` name |
| Minimization.FillLoop | core/automato.py:339-344 | the loop adds `_error` for every missing key and extends the alphabet by the added labels |
| Minimization.FillMissingSpec | core/automato.py:339-344 | present keys keep their targets, missing keys in the range get `{_error}`, no other keys appear |
| Minimization.Refinement | core/automato.py:252-279 | the refinement returns a partition of the states that respects the finals; on a table with one target per key where all states agree on which symbols have keys, the blocks are stable: two states of one block have the same keys and destinations in one block |
| Minimization.RefineKeepsPartition | core/automato.py:261-279 | one refinement round keeps the union, disjointness and respect for the finals |
| Minimization.SplitBlockSpec | core/automato.py:263-278 | splitting a block keeps its union and disjointness, and yields two non-empty parts when both sides are non-empty |
| Minimization.FilteredSpec | core/automato.py:286-293 | filtering `_error` out removes exactly it from the union and keeps disjointness |
| Minimization.NameBlocks | core/automato.py:295-307 | every state is mapped to its block's name; start and finals are mapped through the blocks |
| Minimization.BuildQuotient | core/automato.py:289-318 | the new automaton is the quotient: states are block names, transitions go block to block, one target each |
| Minimization.QuotientShape | core/automato.py:309-316 | the quotient's start and finals are states, targets are states, and every quotient key comes from a source key |
| Minimization.DeadWithSink | core/automato.py:281-293 | a state in the sink's stable block accepts no word once the sink is purged |
| Minimization.QuotientWalk | core/automato.py:295-316 | walking the quotient from a state's block name ends in a final block exactly when walking the purged table from the state ends in a final state |
| Minimization.QuotientKeepsLanguage | core/automato.py:295-316 | from every state, the quotient accepts from the state's block name the words over the alphabet that the purged table accepts from the state |
| Minimization.Minimized | core/automato.py:244-318 | from stable blocks of a completed table: every state other than the sink is named, the quotient keeps each state's language, the start's block is the quotient's start, and there are no more quotient states than states |
| Minimization.QuotientCount | core/automato.py:295-307 | the quotient has no more states than the blocks hold |
| Minimization.QuotientNoLarger | core/automato.py:295-307 | the quotient of blocks drawn from a state set has no more states than the set |
| Minimization.StartName | core/automato.py:305-307 | the start's block name is the quotient's start |
| Minimization.CompleteIsUniform | core/automato.py:331-344 | a table with a key for every state on every character, and none on any other symbol, treats all states alike |
| Minimization.FilledShape | core/automato.py:339-344 | filling the missing keys with a new state keeps one target per key within the states, and purging that state gives the old table back |
| Minimization.FilteredSameBlocksOff | core/automato.py:286-293 | dropping `_error` and the empty blocks groups every other state as before |
| Minimization.SinkAbsent | core/automato.py:281-286 | a state with no keys is a sink |
| RootAutomato.Automato.AddState | automato.py:19-24 | as in the core class: adds the state, start when marked or unset, final when marked |
| RootAutomato.Automato.AddTransition | automato.py:26-31 | `ValueError` exactly when an end is missing; otherwise the target joins, and a non-`ε` symbol joins the alphabet |
| RootAutomato.Automato.RemoveState | automato.py:33-54 | removing a state purges it from states, start, finals and the table |
| RootAutomato.Automato.RemoveTransition | automato.py:55-67 | removes one target, dropping an emptied key |
| RootAutomato.Automato.EpsilonClosureOf | automato.py:68-78 | returns the `ε` closure |
| RootAutomato.Automato.MoveOn | automato.py:80-84 | the loop returns the move on the symbol: a state is in it exactly when some given state has it as a target under the symbol's label |
| RootAutomato.Automato.SimulateHistory | automato.py:86-96 | the run equals `Simulation`, one step per character |
| RootAutomato.Automato.Simulate | automato.py:98-105 | the verdict of the same run |
| RootAutomato.RunChars | automato.py:90-95 | the loop's history is the start set followed by `After`, one closed move per character |
| RootAutomato.SimulationShape | automato.py:86-96 | no start gives `([], False)`; otherwise one step per character, each the closed move of the previous, indices `0..n`, accepted exactly when the set reached meets the finals |
| RootAutomato.Automato.IsDfa | automato.py:238-245 | holds when every key has one target and a non-epsilon label; then every simulation follows a single path, no history entry holding two states |
| RootAutomato.DfaRunIsSinglePath | automato.py:86-96 | on a deterministic table every active set has at most one state |
| RootAutomato.ReachIsFollow | automato.py:86-96 | on a deterministic table the character-by-character reach is the word-by-word `Follow` |
| RootAutomato.ReachDfa | automato.py:86-96 | on a deterministic table the reach from `{q}` is the end of the walk from `q`, or empty when the walk is stuck |
| RootAutomato.Automato.ToDfa | automato.py:106-138 | the subset construction from the start closure, start `q0`, naming only reached subsets, deterministic |
| RootAutomato.ReachIsSubsetRun | automato.py:106-138 | the NFA's character-by-character reach equals the subset run used by the construction |
| RootAutomato.ToDfaKeepsLanguage | automato.py:86-138 | on an input whose characters are alphabet symbols other than `ε`, the NFA simulation accepts exactly when the simulation of the built DFA from `q0` accepts, and exactly when the DFA's walk from `q0` ends in a final state |
| RootAutomato.Automato.MakeComplete | automato.py:215-232 | a complete table changes nothing; otherwise `_error` is added and gets every missing key |
| RootAutomato.Automato.CompleteAndSplit | automato.py:139-174 | the automaton becomes its completion, purging `_error` gives back the old table, and the blocks are a partition respecting the finals, stable when all states agree on which symbols have keys |
| RootAutomato.Automato.DropSink | automato.py:176-188 | removes `_error` and filters the partition, grouping every other state as before |
| RootAutomato.Automato.CompleteAndRefine | automato.py:139-188 | the automaton loses `_error` and is otherwise as before on an automaton without that state whose start, finals and targets lie among its states; the blocks partition the states, respect the finals and come from stable blocks of the completed table (`StableSetting`) |
| RootAutomato.Automato.Minimize | automato.py:139-213 | `ValueError` exactly when not a DFA; otherwise the automaton loses `_error`, and the result is the deterministic quotient of the refined partition, with no more states than before when start, finals and targets lie among the states; on such an automaton without `_error` and with plain names, each state's block name accepts in the result exactly the words the state accepts, and the start's block is the result's start |
| RootAutomato.PurgeKeepsDfa | automato.py:177-181 | removing a state keeps the table deterministic |
| RootAutomato.QuotientKeepsDfa | automato.py:204-211 | the single-target quotient of a deterministic table is deterministic |
| RootAutomato.CompletionStable | automato.py:215-232 | completion keeps the alphabet, all states agree afterwards on which symbols have keys, and `_error` is a sink |
| RootAutomato.CompletedSetting | automato.py:139-188 | completion of a DFA without `_error`, with stable refined blocks, is the setting of the language argument, and purging `_error` gives the original states and table back |
| RootAutomato.Automato.FromJson | automato.py:306-322 | fields from the record, table rebuilt from the entries |
| RootAutomato.Automato.ToJson | automato.py:293-305 | states, start, finals and alphabet are saved as they are, and on a well-formed automaton the saved entries load back to the same table |
| Symbols.ToLabel | core/automato.py:138-141 | a symbol becomes the epsilon label exactly when it is the epsilon marker, and keeps its text otherwise |
| Symbols.LabelTextRoundTrip | core/automato.py:416-445 | a proper label survives being written as text and read back |
| Symbols.PickLongest | core/automato.py:143-163 | the loop returns `LongestMatch` of the candidates against the rest of the input |
| Symbols.LongestMatchIsMaximal | core/automato.py:143-163 | the match is a prefix no shorter than any other matching candidate; no match means no candidate is a prefix |
| Symbols.LongestMatchIsTheLongest | core/automato.py:143-163 | a matching candidate at least as long as all others is the match |
| Symbols.FirstCommaSpec | maquina_turing.py:200 | the first comma found is a comma with none before it; none found means there is no comma |
| CorePilha.AutomatoPilha.AddState | core/pilha.py:21-26 | adds the state; start when marked; final when marked |
| CorePilha.AutomatoPilha.AddTransition | core/pilha.py:28-47 | `ValueError` exactly when an end is missing; otherwise the rule joins the set under `(src, input, pop)`, and non-`&` input, pop, pushed characters and the start stack symbol join the alphabets |
| CorePilha.AutomatoPilha.RemoveState | core/pilha.py:49-68 | removing a state purges its rules and rules into it, dropping emptied keys |
| CorePilha.AutomatoPilha.RenameState | core/pilha.py:70-95 | `ValueError` exactly when the old name is missing or the new one is taken; otherwise states, start, finals, rule keys and rule targets are renamed |
| CorePilha.AutomatoPilha.RemovePdaTransition | core/pilha.py:97-107 | removes one rule, dropping an emptied key |
| CorePilha.AutomatoPilha.SimulateHistory | core/pilha.py:108-238 | no start gives `([], False)`; otherwise the verdict is whether a final configuration that read the whole input is reachable, and the history is a chain of reachable configurations that reach new positions |
| CorePilha.AutomatoPilha.Simulate | core/pilha.py:311-321 | the verdict of the same search |
| CorePilha.Search | core/pilha.py:139-218 | the breadth-first search finds exactly the reachable configurations that read the whole input |
| CorePilha.SearchComplete | core/pilha.py:139-218 | when the queue is empty, the collected set is exactly the reachable configurations at the input's end |
| CorePilha.VisitInput | core/pilha.py:158-201 | visiting a configuration queues only reachable ones and covers all of its input moves |
| CorePilha.HistoryGrows | core/pilha.py:185-194 | recording a configuration at a new position keeps the history a chain of reachable configurations |
| CorePilha.MoveWithSymbol | core/pilha.py:282-307 | the loop returns the configurations one input symbol moves to |
| CorePilha.MoveAdvances | core/pilha.py:285-289 | every moved configuration is the symbol's length further along the input than its origin |
| CorePilha.ClosureReachable | core/pilha.py:241-280 | the epsilon closure of reachable configurations holds only reachable ones |
| CorePilha.ReachableWithinInput | core/pilha.py:108-238 | no reachable configuration has read past the input's end |
| CorePilha.Candidates | core/pilha.py:163-166 | the input symbols leaving a state never include `&` |
| CorePilha.RemoveUndoesAdd | core/pilha.py:97-107 | removing a rule just added restores the rules |
| CorePilha.PurgedForgets | core/pilha.py:61-68 | after the purge no rule mentions the state, and every rule not mentioning it is kept |
| CorePilha.RenameBack | core/pilha.py:70-95 | renaming to an unused name and back restores the rules |
| CorePilha.RenameRules | core/pilha.py:87-95 | the loop re-indexes every rule under renamed keys and targets, keeping alphabet coverage |
| CorePilha.AutomatoPilha.ToJson | core/pilha.py:323-345 | states, alphabets, start, start stack and finals are saved, with each key written as `src,input,pop` |
| CorePilha.AutomatoPilha.FromJson | core/pilha.py:347-391 | keys with two commas are split back; alphabets gain every loaded symbol; a start not among the states is replaced by some state |
| CorePilha.LoadRules | core/pilha.py:363-380 | the loading loop re-indexes every splittable key and adds its symbols to the alphabets |
| CorePilha.SplitJoin | core/pilha.py:365-367 | a split key is its parts joined by commas, with no comma in the first two |
| CorePilha.JoinSplit | core/pilha.py:365-367 | joining comma-free first parts and splitting gives the parts back |
| CorePilha.RulesRoundTrip | core/pilha.py:323-391 | saving then loading restores the rules when the first two parts of every key are comma-free |
| CorePilha.CommaInStateName | core/pilha.py:365-367 | a state name with a comma loads back as a different key |
| CorePilha.LoadedProper | core/pilha.py:365-375 | loaded rules have proper labels |
| RootPilha.AutomatoPilha.AddState | pilha.py:20-25 | adds the state; start when marked; final when marked |
| RootPilha.AutomatoPilha.AddTransition | pilha.py:27-42 | `ValueError` exactly when an end is missing; otherwise the rule joins and its symbols join the alphabets |
| RootPilha.AutomatoPilha.RenameState | pilha.py:44-62 | `ValueError` cases as in the core class; states, start and finals are renamed, and the rules are left as they were |
| RootPilha.AutomatoPilha.SimulateHistory | pilha.py:64-98 | no start gives `([], False)`; otherwise the verdict is whether a final configuration that read the whole input is reachable, and the history samples one configuration per round |
| RootPilha.AutomatoPilha.Simulate | pilha.py:149-161 | the verdict of the same run |
| RootPilha.RunChars | pilha.py:72-98 | the round loop's verdict is acceptance by reachability, and its history is as `Recorded` describes |
| RootPilha.LayersComplete | pilha.py:79-94 | every configuration reachable in `n` steps lies in the round set of the index it has read up to |
| RootPilha.FullRun | pilha.py:94-98 | a run whose every round found configurations accepts exactly when a final configuration is reachable |
| RootPilha.StuckRun | pilha.py:89-92 | a round that finds nothing means the input is rejected |
| RootPilha.MoveWithSymbol | pilha.py:127-147 | the loop returns the configurations one character moves to |
| RootPilha.MoveDropsOne | pilha.py:133-134 | each moved configuration has the rest after that character |
| PdaSpec.CloseUnder | core/pilha.py:241-280 | a finished worklist returns the least set closed under the moves |
| PdaSpec.ClosureUnique | core/pilha.py:241-280 | a set has one closure |
| PdaSpec.FireSpec | core/pilha.py:255-279 | a fired rule either pushes onto the whole stack or replaces the matching top |
| PdaSpec.Top | core/pilha.py:268-270 | the top is the last stack symbol, present when the stack is non-empty and that symbol is non-empty |
| PdaSpec.Pushed | core/pilha.py:259 | pushing `&` pushes nothing; otherwise one symbol per character |
| PdaSpec.PushedTop | core/pilha.py:259 | after a push the old stack is below and the last pushed character is on top |
| PdaSpec.AddRule | core/pilha.py:47 | the key is present afterwards and holds the rule |
| PdaSpec.AddPushChars | core/pilha.py:40-42 | the loop adds every pushed character to the stack alphabet |
| CoreMoore.MaquinaMoore.AddState | core/maquina_moore.py:23-29 | adds the state with its output; the output joins the output alphabet; start when marked or unset |
| CoreMoore.MaquinaMoore.AddTransition | core/maquina_moore.py:31-37 | `ValueError` exactly when an end is missing; otherwise `(src, input)` maps to `dst`, replacing any earlier target |
| CoreMoore.MaquinaMoore.RemoveState | core/maquina_moore.py:39-55 | removes the state and its output, and purges every transition from or to it |
| CoreMoore.MaquinaMoore.RenameState | core/maquina_moore.py:57-77 | `ValueError` cases; the output moves to the new name; keys and targets are renamed; `KeyError` only for a state without an output, which a well-formed machine never has |
| CoreMoore.MaquinaMoore.RemoveTransition | core/maquina_moore.py:79-85 | drops the key; all else unchanged |
| CoreMoore.MaquinaMoore.SimulateHistory | core/maquina_moore.py:86-142 | no start gives no output; otherwise the greedy run, where each output is the outputs of the visited states so far, and the output exists exactly when the input was read to its end |
| CoreMoore.MooreStep | core/maquina_moore.py:122-132 | each step appends the output of the state entered |
| CoreMoore.MooreOutputs | core/maquina_moore.py:99-134 | each history output is the concatenation of the outputs along the path |
| CoreMoore.MaquinaMoore.ToJson | core/maquina_moore.py:144-161 | states, start and outputs saved; empty strings dropped from the alphabets; one entry per transition |
| CoreMoore.MaquinaMoore.FromJson | core/maquina_moore.py:163-195 | states are the saved outputs' keys; entries between states load; the input alphabet is the loaded symbols; a saved start is kept when it is a state |
| CoreMoore.LoadStates | core/maquina_moore.py:169-192 | the states are the output keys; the start is the saved one when it is a state, and none exactly when there are no states |
| CoreMoore.TransitionsRoundTrip | core/maquina_moore.py:144-185 | loading the saved entries restores the table |
| CoreMoore.RenameRoundTrip | core/maquina_moore.py:57-77 | renaming to an unused name and back restores the table |
| RootMoore.SimulateHistory | maquina_moore.py:77-99 | one step per character; outputs are the concatenation along the path; a missing transition stops the run with no output |
| RootMoore.RunChars | maquina_moore.py:85-99 | the loop's history and output equal `CharRun` |
| RootMoore.CharRunSteps | maquina_moore.py:88-97 | each step follows the table on the next character; stuck exactly when the run is short, at a missing key |
| RootMoore.CharRunOutputs | maquina_moore.py:85-97 | each output is the concatenation of the outputs along the path |
| RootMoore.ToJson | maquina_moore.py:101-112 | states, start and outputs saved, with one entry per transition |
| RootMoore.FromJson | maquina_moore.py:114-127 | fails exactly when some entry does not load; otherwise states from outputs, table as loaded, input alphabet exactly the loaded inputs, start kept when it is a state |
| RootMoore.AddSavedStates | maquina_moore.py:120-122 | adding the saved states gives those states and outputs and an output alphabet of their values |
| RootMoore.AddSavedTransitions | maquina_moore.py:124-125 | succeeds exactly when every entry loads; the table is then the loaded one, and every loaded input has joined the input alphabet |
| RootMoore.OutputValuesFresh | maquina_moore.py:21-27 | adding a new state adds exactly its output to the output values |
| CoreMealy.MaquinaMealy.AddState | core/maquina_mealy.py:26-30 | adds the state; start when marked or unset |
| CoreMealy.MaquinaMealy.AddTransition | core/maquina_mealy.py:32-42 | `ValueError` exactly when an end is missing; otherwise `(src, input)` maps to `(dst, output)`, and input and output join their alphabets |
| CoreMealy.MaquinaMealy.RemoveState | core/maquina_mealy.py:44-59 | removes the state and purges transitions from or to it |
| CoreMealy.MaquinaMealy.RemoveTransition | core/maquina_mealy.py:61-65 | drops the key |
| CoreMealy.MaquinaMealy.RenameState | core/maquina_mealy.py:67-89 | `ValueError` exactly when the old name is missing or the new one taken; otherwise states, start, keys and targets renamed |
| CoreMealy.MaquinaMealy.Simulate | core/maquina_mealy.py:90-97 | the output of the greedy run, none when it stops early |
| CoreMealy.MaquinaMealy.SimulateHistory | core/maquina_mealy.py:98-155 | no start gives no output; otherwise the greedy run, where each step appends the matched transition's output, and the output exists exactly when the input was read to its end |
| CoreMealy.MealyStep | core/maquina_mealy.py:130-142 | a step follows the longest matching label, entering its target and appending its output |
| CoreMealy.MaquinaMealy.ToJson | core/maquina_mealy.py:156-168 | the saved states are the states, each listed once; start and alphabets saved; one entry per transition |
| CoreMealy.FromJson | core/maquina_mealy.py:170-182 | fails exactly when some entry does not load; otherwise states from the list, start as `add_state` leaves it, table as loaded, alphabets from the entries |
| CoreMealy.AddSavedStates | core/maquina_mealy.py:176-177 | adding the saved states in order gives those states and `LoadedStart` |
| CoreMealy.AddSavedTransitions | core/maquina_mealy.py:179-180 | succeeds exactly when every entry loads, with the loaded table and the entries' symbols as alphabets |
| CoreMealy.TransitionsRoundTrip | core/maquina_mealy.py:156-182 | the saved entries all load, and loading them restores the table |
| CoreMealy.RenameRoundTrip | core/maquina_mealy.py:67-89 | renaming to an unused name and back restores the table |
| CoreMealy.EmittedAdd | core/maquina_mealy.py:32-42 | adding a transition adds at most its output to the outputs emitted |
| Tables.RunGreedy | core/maquina_mealy.py:110-150 | the loop's history is the start visit followed by `Greedy`, and its output is the final output exactly when the run read the whole input |
| Tables.GreedyRun | core/maquina_mealy.py:117-147 | each step takes the longest matching label; a run stops early only when no label matches |
| Tables.HistoryGrows | core/maquina_moore.py:105-134 | outputs grow by extension and indices strictly increase along a run |
| Tables.PossibleSymbols | core/maquina_mealy.py:119-122 | the loop collects exactly the labels leaving the state |
| Tables.PurgeTable | core/maquina_mealy.py:44-59 | the loop computes the purged table |
| Tables.PurgedForgets | core/maquina_mealy.py:44-59 | nothing purged mentions the state; everything else is kept; the table stays within the remaining states |
| Tables.RenameTable | core/maquina_mealy.py:67-89 | the loop re-indexes keys and targets, a renaming when the new name is unused |
| Tables.RenameBack | core/maquina_mealy.py:67-89 | renaming and renaming back restores the table |
| Tables.LoadSkipping | core/maquina_moore.py:174-185 | loading skips bad entries and collects the loaded input symbols |
| Tables.LoadListed | core/maquina_mealy.py:156-182 | listed entries load back to the table they list |
| Turing.MaquinaTuring.AddState | maquina_turing.py:31-37 | adds the state; start exactly when marked; final when marked |
| Turing.MaquinaTuring.AddTransition | maquina_turing.py:39-54 | `ValueError` exactly when an end is missing or the direction is not `L`/`R`; otherwise `(src, read)` maps to `(dst, write, direction)`, read joins the input alphabet, and read and write join the tape alphabet |
| Turing.MaquinaTuring.RemoveState | maquina_turing.py:56-73 | removes the state from states, finals and start, and purges transitions from or to it |
| Turing.MaquinaTuring.RenameState | maquina_turing.py:75-97 | `ValueError` exactly when the old name is missing or the new one taken; otherwise states, start, finals, keys and targets renamed |
| Turing.MaquinaTuring.SimulateHistory | maquina_turing.py:99-155 | no start gives `([], REJEITADO)`; otherwise the configurations follow `Step` from the input on the tape, `LOOP` exactly when the budget is used up, `ACEITO` only in a final state, `REJEITADO` only with no transition |
| Turing.MaquinaTuring.Simulate | maquina_turing.py:157-164 | accepted exactly when the run with 1000 steps ends `ACEITO` |
| Turing.RunSteps | maquina_turing.py:116-155 | the loop's configurations and verdict equal `Steps` with the budget |
| Turing.RunShape | maquina_turing.py:123-155 | a run has at most budget steps, loops exactly when it takes all of them, passes through non-final states only, accepts in a final state and rejects with no transition |
| Turing.MoreBudget | maquina_turing.py:123-155 | a run that halts within a budget is the same with a larger one |
| Turing.StepMoves | maquina_turing.py:128-148 | a step writes the symbol under the head, changes no other cell, enters the target and moves one cell, right exactly for `R` |
| Turing.LoadTape | maquina_turing.py:112-114 | the loop places the input's characters at cells `0..n-1` |
| Turing.InitialTapeReads | maquina_turing.py:112-114 | a cell reads the input character there, and blank everywhere else |
| Turing.MaquinaTuring.ToJson | maquina_turing.py:165-183 | every field is saved, and each key is written `src,read` with its action as a three-item list |
| Turing.FromJson | maquina_turing.py:185-206 | fields from the record; the table is exactly the saved transitions whose key splits at its first comma, whose value has three items and which `add_transition` accepts; alphabets gain their symbols; well formed when start and finals are states |
| Turing.LoadSaved | maquina_turing.py:198-204 | one saved transition is added when it loads, and skipped otherwise |
| Turing.SplitKey | maquina_turing.py:200 | a split key joins back to the text |
| Turing.SplitJoin | maquina_turing.py:170-200 | splitting a saved key with a comma-free source gives the key back |
| Turing.TransitionsRoundTrip | maquina_turing.py:165-206 | loading what `to_json` saves restores a well-formed table whose source names are comma-free |
| Turing.CommaInSourceLost | maquina_turing.py:170-200 | the key of a source state named `a,b` splits as `a` and `b,c`, and that transition is lost on loading |
| Turing.RenameRoundTrip | maquina_turing.py:75-97 | renaming to an unused name and back restores the table |
| Turing.AddWellFormed | maquina_turing.py:39-54 | an accepted transition keeps the machine well formed |
| Turing.RenamedWellFormed | maquina_turing.py:75-97 | renaming keeps the machine well formed |
| Turing.WrittenAdd | maquina_turing.py:49-54 | adding a transition adds at most its written symbol to the symbols written |
| Turing.WrittenRenamed | maquina_turing.py:92-97 | renaming writes no new symbols and keeps directions valid |

## Left out

- Graphical interface, TikZ export (`export_tikz`), `main.py` and the snapshot helpers (`snapshot_of_pda`, `restore_from_pda_snapshot`, `snapshot_of_moore`, `restore_from_moore_snapshot`, `snapshot_of_turing`, `restore_from_turing_snapshot`) are not part of this model: they are I/O around `to_json`/`from_json`.
- JSON text, `json.dumps`/`json.loads` and the `print` warnings are not modelled. A document is a record, and values of the wrong JSON type (numbers, nested objects) are not represented.
- The order of lists written from Python sets is not modelled. The saved lists are sets, or sequences in an arbitrary order.
- CoreAutomato.Automato.SimulateHistory, CoreAutomato.Automato.Simulate, CoreMoore.MaquinaMoore.SimulateHistory, CoreMealy.MaquinaMealy.SimulateHistory and CoreMealy.MaquinaMealy.Simulate require every transition label to be non-empty. The source accepts a transition on `""`, and its greedy loop can then match `""` without advancing, forever when the `""` transition loops back to the same state. The model excludes every table with an empty label, not only those that loop.
- CoreAutomato.ToDfaKeepsLanguage covers only tables whose labels are single characters. With longer labels the greedy simulation and the DFA built from single characters can disagree, and no language statement is made for them.
- CoreAutomato.Automato.Minimize and RootAutomato.Automato.Minimize: the language is stated only for an automaton whose start, finals and targets lie among its states, with no state named `_error`, and whose names hold no `,` or `{` (the characters block names are built from; otherwise two blocks could get the same name), and, in the core, with no empty label. That the result is minimal, and that minimising twice changes nothing, is not proved.
- CoreAutomato.Automato.Minimize and RootAutomato.Automato.Minimize delete a state named `_error` when the automaton has one, as the source does, and that state's language is then lost.
- The subset construction (`to_dfa`) of both automata is not proved minimal or idempotent. Its language is stated by CoreAutomato.ToDfaKeepsLanguage and RootAutomato.ToDfaKeepsLanguage.
- CorePilha.AutomatoPilha.SimulateHistory, CorePilha.AutomatoPilha.Simulate, RootPilha.AutomatoPilha.SimulateHistory and RootPilha.AutomatoPilha.Simulate take a `fuel` bound and may return `OutOfFuel`. The source's closure and search loops have no bound, and they do not terminate when the stack can grow without end.
- CorePilha.AutomatoPilha.SimulateHistory: the history is stated as a chain of reachable configurations at new positions, not as the exact order in which the source's queue visits them, because that order depends on Python set iteration.
- The `visited_epsilon` set of the core pushdown closure (core/pilha.py:241-280) is not modelled separately. Every call passes configurations at one input index, so the closure computed is the same.
- CorePilha.RulesRoundTrip holds only when no state name or input symbol contains a comma. CorePilha.CommaInStateName shows a key that loads back differently.
- Turing.TransitionsRoundTrip holds only when no source state name contains a comma. Turing.CommaInSourceLost shows the transition lost otherwise.
- Turing.FromJson: a saved value that is a string of three characters is unpacked by the source into three one-character strings. Values are modelled as lists of strings or as other scalars, so this case is not represented.
- Turing.FromJson does not ensure that the start and final states lie among the states, because the source copies them unchecked.
- CoreMoore.MaquinaMoore.RenameState returns `KeyError` where the source raises it on a state without an output. A well-formed machine has none, which the contract proves.
- The core Moore `from_json` fallback for a start state missing from the outputs is dead code, because the start is then replaced by some state with an output. The model states what the loader produces.
- RootPilha.AutomatoPilha.RenameState keeps the rules unchanged, as the source does, so rules from the old name are orphaned. The contract states this rather than a renaming.
- The `"&"` marker is treated as epsilon only in the NFA and pushdown modules. In the Moore and Mealy machines it is an ordinary symbol, as in the source.
