# Verified models of the repository's algorithms

Each file models one part of the repository, in that part's own form: values and functions where
the code computes, classes and loops where it works in place. What a part promises is proved for
every input, every state and every run.

| part | files |
|---|---|
| Lemon, from the grammar to the running parser | `Grammar` `BitSets` `FirstSets` `LR0` `Closure` `Automaton` `States` `FollowSets` `Lookaheads` `MSort` `Actions` `Compress` `ActTab` `Tables` `Viable` `Realized` `Halting` `Cycles` `TableRuns` `Driver` `Lemon` `Precedence` `Operators` `StuckGrammar` `LoopGrammar` |
| page replacement policies | `Paging` |
| matrix inversion by Gauss-Jordan elimination, over the reals | `Matrices` |
| three allocators: buddy tree, boundary tags, K&R free list | `Buddy` `BoundaryTags` `FreeList` |
| timing wheel | `Timers` |
| multi-level feedback queue | `Mlfq` `MlfqRules` |
| inode file system | `Vsfs` |
| AFS call-backs | `Afs` |
| RAID-5, left-symmetric | `Raid5` `Raid5Writes` `Raid5Counts` |
| what several of them use | `Shared` |

**Lemon.** The phases are proved one by one against descriptions that do not mention them
(derivations, the LR(0) collection, LALR(1) lookaheads) and then put together. A grammar is
acceptable (`Lemon.GrammarOK`) when its start symbol and the end marker are on no right-hand side,
every symbol with a precedence has an associativity, no rule has more than 255 symbols, and the
sizes stay within those of the sorting routine. `Lemon.GenerateAndParse` runs everything: what the
parser accepts is a sentence, and its reductions read backwards are a rightmost derivation of it.
For a grammar without precedences Lemon reports no conflict if and only if the grammar is LALR(1),
and then every sentence is accepted, within a number of rounds and a stack depth that depend on the
length of its derivation (`Viable` has the theory: viable prefixes and what they expect next;
`Realized.LookaheadIs` says what the lookaheads are by derivations alone). Whether the loop of the
driver ends on an input can be told from the tables (`Cycles.EndlessIffCycle`,
`Driver.Parser.ParseAll`), and it always does if no nonterminal derives itself.
If the grammar is LALR(1) and every nonterminal derives a terminal string, the parser ends on every input
(`Halting.Halts`), a failure comes at the first token that rules out every sentence, and
`Lemon.GenerateAndDecide` puts it all together: the generated parser decides the language.
With precedences the tables still accept exactly what they say (`TableRuns`), and `Precedence` says what
that is in terms of the grammar: which of two candidates stays. `Operators.ParseOperators` follows this from
the written grammar through to the expression that the parser has built.

**Simulators and allocators.** Each class has an invariant that every operation keeps, and a
specification by sets, sequences or functions that its methods are proved to follow: the free
blocks of the allocators, the countdowns of the timers, the place of every job, the paths of the
file system, the promises of the AFS server, the parity of every row.

## Where the code does less than it seems to

- `msort` loses elements of lists of 2^30 or more (`MSort.Msort` says so); the action lists stay far below.
- Unused slots of the action table carry the lookahead -1, which the test for a free offset takes for
  an entry of the set if the slot is just before the offset. `ActTab.PassedOver` says that exactly
  these offsets are passed over although there is room.
- The right-hand side length in the driver's rule table is an unsigned char, exact below 256.
- `FindActions` asserts that every state has an action. `Actions.NoActionIs` says which states fail;
  there are none if every nonterminal is marked lambda or has a nonempty first set (`Viable.MarkedStarts`,
  `Lemon.NoneStuck`), and `StuckGrammar` is a grammar on which the assertion fails.
- The driver's loop need not end. It runs for ever on a token if and only if the reductions on it come
  back to a stack they have left (`Cycles.EndlessIffCycle`), and then some nonterminal derives itself
  (`Cycles.CycleDerives`). A grammar in which none does (`Cycles.AcyclicIs` says how to see it) is safe
  with any precedences and conflicts (`Cycles.AcyclicNoCycle`), and so are decisive tables of a
  productive grammar (`Halting.Halts`). `LoopGrammar` is a grammar with a parser that never stops.
  In the model the loop takes a limit, which may be left out where it ends without one.
- The driver returns without a decision when the first token is the end marker, so that the empty
  sentence is never accepted.
- `buddy2_size` does not stop at the root: `Buddy.Buddy2.Size` shows that its walk leaves the tree for
  exactly the offsets that its assertion admits and that are in no block, as in a fresh tree
  (`Buddy.Buddy2.SizeOfNothing`).
- The partial writes of RAID-5 choose between the two ways of computing the parity as if they touched one
  row only; `Raid5Counts.FewestReads` says exactly when that costs more reads than needed.
- A job of the scheduler keeps to its quantum whatever I/O it does, but only without the `stay` option
  (`MlfqRules.Allotment`).
- The scheduler aborts if and only if some job was given a run time of 0.
- In AFS, a client that was called back while it had a file open and stores it afterwards has a copy
  marked valid that the server does not list. Such late stores are the only steps that make one
  (`Afs.OnlyLateStores`); without them every open reads the server's version (`Afs.NeverStale`). A
  client's next open is safe from whatever the others do if and only if it is listed or has no valid
  copy (`Afs.FreshForever`), and `Afs.StaleOpen` is a run in which an old version is read.

## Model

| member | source | states |
|---|---|---|
| `Lemon.GenerateAndParse` | Linux/mybase-master/Lemon/lempar.c:558-687 | A parser generated from a grammar and run on any input accepts only inputs that the start symbol derives. There is a parser if every nonterminal derives nothing or something that begins with a terminal. If the grammar has no precedences and Lemon reported no conflict, no derived input fails, and every nonempty input with a derivation of n steps is accepted when there are more than n rounds for each token and the stack has room for the input and n more. A failure after k tokens means, in a productive grammar, that these are the beginning of a sentence and, if no conflict was reported, that with the next token they are not. For an acyclic grammar the loop needs no limit, whatever precedences and conflicts there are. |
| `Lemon.GenerateAndDecide` | Linux/mybase-master/Lemon/lempar.c:558-687 | For a productive grammar without precedences and without reported conflicts the loop of the parser needs no limit: on every nonempty input the parser ends; it accepts only sentences, fails only on other inputs, and overflows only if the stack is too low for every derivation of the input. |
| `LoopGrammar.RunsForEver` | Linux/mybase-master/Lemon/lempar.c:587-612 | For A -> A, S -> A, A -> a Lemon reports a conflict and makes a parser all the same, and on the input a that parser reaches every limit on its rounds. |
| `LoopGrammar.TablesGoRound` | Linux/mybase-master/Lemon/lemon.c:886-1024 | Every table that Lemon can make for this grammar shifts a, reduces it to A at the end of the input, and reduces A to A from then on. |
| `LoopGrammar.NeverEnds` | Linux/mybase-master/Lemon/lempar.c:587-612 | So the input leads into a cycle, on a stack of any depth above one. |
| `Lemon.Generate` | Linux/mybase-master/Lemon/lemon.c:1396-1421 | The phases of the main program in their order give tables that agree with the automaton (`Ready`), unless some state has no action, which cannot be if every nonterminal derives nothing or something that begins with a terminal. Without precedences no conflict is reported if and only if the grammar is LALR(1), and then the tables do everything that the automaton allows (`Decisive`). |
| `Lemon.FindAllActions` | Linux/mybase-master/Lemon/lemon.c:813-960 | The action lists are those of the LALR(1) lookaheads; the assertion that every state has an action fails exactly when some state has no candidate, and holds if `FindFirstSets` has marked every nonterminal or given it a nonempty set; without precedences no conflict is counted if and only if no lookahead of any state has two candidates. |
| `Lemon.FindTables` | Linux/mybase-master/Lemon/lemon.c:3590-3637 | Compressing and packing keep the tables within what the automaton allows, and, for a grammar without rival candidates, as complete as the automaton. |
| `Lemon.FindAutomaton` | Linux/mybase-master/Lemon/lemon.c:1396-1409 | FIRST sets and LR(0) collection, as the later phases need them. |
| `Lemon.ConflictFree` | Linux/mybase-master/Lemon/lemon.c:926-1024 | For one state of a grammar without precedences: no conflict is counted if and only if every lookahead has at most one candidate. |
| `Lemon.NoConflictAtAll` | Linux/mybase-master/Lemon/lemon.c:927-940 | The same for the whole automaton: the total that Lemon prints is zero exactly for LALR(1) grammars. |
| `Lemon.DecidesAll` | Linux/mybase-master/Lemon/lemon.c:886-960 | With one candidate for every lookahead, the compressed lists shift on every terminal that the automaton shifts and reduce by every complete rule on each of its lookaheads. |
| `Lemon.Unbeaten` | Linux/mybase-master/Lemon/lemon.c:926-1024 | With any precedences and conflicts: a candidate that no other candidate beats is what the compressed tables do on its lookahead. |
| `Lemon.MeaningAllowed` | Linux/mybase-master/Lemon/lemon.c:886-960 | Whatever a resolved action list says is a step that the LR(0) automaton with its lookaheads allows, and no transition on a nonterminal is lost to conflict resolution. |
| `Lemon.CompressedAllowed` | Linux/mybase-master/Lemon/lemon.c:3590-3637 | The default reduction that compression introduces is a reduction the state really has, and never one to the start symbol. |
| `Lemon.NoneStuck` | Linux/mybase-master/Lemon/lemon.c:926-931 | If every nonterminal derives nothing or something that begins with a terminal, every state has an action. |
| `StuckGrammar.SomeStateStuck` | Linux/mybase-master/Lemon/lemon.c:926-931 | For S -> B C, C -> C c, B -> b every automaton with its lookaheads has a state without any action. |
| `StuckGrammar.GeneratesNothing` | Linux/mybase-master/Lemon/lemon.c:1396-1421 | The run of the main program on this grammar ends in the failed assertion. |
| `Lemon.FewCandidates` | Linux/mybase-master/Lemon/lemon.c:927-936 | A state of a small grammar has fewer than 2^30 actions, so that sorting them loses none. |
| `MSort.Msort` | Linux/mybase-master/Lemon/lemon.c:1540-1564 | A list shorter than 2^30 comes back as a sorted permutation with ties in input order; a longer one loses elements. |
| `MSort.Merge` | Linux/mybase-master/Lemon/lemon.c:1488-1524 | Merging two sorted lists is a stable sort of the second followed by the first. |
| `MSort.Push` | Linux/mybase-master/Lemon/lemon.c:1549-1559 | One element more keeps the binary counter: slot i is empty or holds 2^i sorted elements, all older than those in lower slots. |
| `MSort.MergedIsStable` | Linux/mybase-master/Lemon/lemon.c:1488-1524 | The recursive merge is sorted, a permutation, and keeps ties in order. |
| `FirstSets.SymbolTable.FindFirstSets` | Linux/mybase-master/Lemon/lemon.c:604-654 | On exit a nonterminal is marked nullable iff it derives the empty string, and its first set holds t iff it derives a form that begins with t; both loops end because bits are only ever set. |
| `FirstSets.LambdaFixpoint` | Linux/mybase-master/Lemon/lemon.c:618-631 | Sound flags that no rule can extend are exact for every derivation. |
| `FirstSets.FirstFixpoint` | Linux/mybase-master/Lemon/lemon.c:633-652 | Sound first sets that no rule can extend are exact for every derivation. |
| `FirstSets.LambdaComplete` | Linux/mybase-master/Lemon/lemon.c:618-631 | By induction on a derivation of the empty string: all its symbols are marked. |
| `FirstSets.FirstComplete` | Linux/mybase-master/Lemon/lemon.c:633-652 | By induction on a derivation of a form that begins with t: t is in the computed sets. |
| `Closure.Closure` | Linux/mybase-master/Lemon/lemon.c:1142-1179 | The list becomes the least closed set over the basis, without repetitions; every follow set holds exactly what its configuration gets within the state, and the links connect exactly the configurations whose rest can vanish. |
| `States.Generator.GetState` | Linux/mybase-master/Lemon/lemon.c:720-760 | The state with a given basis is found or made together with all it leads to, and every configuration of the basis is linked to where it came from. |
| `States.Generator.BuildShifts` | Linux/mybase-master/Lemon/lemon.c:765-808 | One shift for every symbol before a dot, each to the state whose basis is exactly the set of advanced configurations. |
| `States.Generator.FindStates` | Linux/mybase-master/Lemon/lemon.c:661-717 | The LR(0) collection: state 0 holds the start rules, every transition leads to the closure of its kernel, no basis occurs twice, every state is reached, and the links are exactly those along shifts. It ends because there are finitely many bases. |
| `Automaton.SortedUnique` | Linux/mybase-master/Lemon/lemon.c:1182-1194 | Sorted bases are equal as lists exactly when they are equal as sets, so that comparing lists finds a state again. |
| `LR0.FirstOfExact` | Linux/mybase-master/Lemon/lemon.c:1161-1175 | What the closure adds after a nonterminal are exactly the terminals that the rest of the rule can begin with. |
| `FollowSets.FindFollowSets` | Linux/mybase-master/Lemon/lemon.c:849-880 | The propagation ends, and then every set is exactly the union of the initial sets of all configurations from which links lead to it. |
| `FollowSets.AllComplete` | Linux/mybase-master/Lemon/lemon.c:849-880 | When every configuration is COMPLETE, containment along single links gives the least fixpoint. |
| `Lookaheads.FindLinks` | Linux/mybase-master/Lemon/lemon.c:813-843 | The forward links are exactly the recorded ones turned round, together with those inside the states. |
| `Lookaheads.FindLookaheads` | Linux/mybase-master/Lemon/lemon.c:813-880 | The follow set of every configuration of every state is exactly its set of LALR(1) lookaheads, defined by derivations and transitions without any reference to links. |
| `Lookaheads.StartLookahead` | Linux/mybase-master/Lemon/lemon.c:689-708 | If the start symbol is on no right-hand side, only the end marker follows a start rule. |
| `Actions.ResolveConflict` | Linux/mybase-master/Lemon/lemon.c:970-1024 | Of two live actions on one lookahead exactly one gives way; a conflict is counted iff precedence and associativity do not decide; the assertions hold. What this means for the tables is stated in terms of the grammar alone by `Precedence.ShiftOrRule` and `Precedence.RuleOrRule`. |
| `Actions.ResolveList` | Linux/mybase-master/Lemon/lemon.c:932-939 | After the pairwise loop each lookahead that had actions has exactly one live action: the last champion, where each action in sorted order meets the champion of those before it and takes its place if it beats it. Every other action gave way to a rival, and the count is the number of undecided ones. |
| `Actions.ChampionMeets` | Linux/mybase-master/Lemon/lemon.c:932-939 | Where the champion so far meets the next action on its lookahead: the winner is the new champion and the only one that can stay. |
| `Actions.FindActions` | Linux/mybase-master/Lemon/lemon.c:886-960 | This for all states, from exactly the shifts, the reductions on their lookaheads, and the accept action of state 0. |
| `Actions.NoActionIs` | Linux/mybase-master/Lemon/lemon.c:898-931 | A state fails the assertion if and only if it is not the first, shifts nothing, and no terminal follows any of its configurations: what the loops before have computed. |
| `Actions.ActionsAreSound` | Linux/mybase-master/Lemon/lemon.c:886-960 | Live actions are candidates, at most one per lookahead; no lookahead loses all of its candidates, and nonterminals lose none. |
| `Actions.NoRivals` | Linux/mybase-master/Lemon/lemon.c:927-940 | If the start symbol is on no right-hand side, a nonterminal never has two candidates in a state. |
| `Precedence.FindRulePrecedences` | Linux/mybase-master/Lemon/lemon.c:581-597 | A rule keeps the precedence symbol it was written with; any other gets the first symbol on its right-hand side that has a precedence, if there is one. |
| `Precedence.ShiftOrRule` | Linux/mybase-master/Lemon/lemon.c:983-1003 | Where a state could shift a terminal or reduce by one rule: the finished tables reduce if both have a precedence and the rule's is higher, or it is the same and the terminal is left-associative; otherwise they shift. |
| `Precedence.RuleOrRule` | Linux/mybase-master/Lemon/lemon.c:1004-1016 | Where a state could reduce by two rules on a terminal that it does not shift: the finished tables reduce by the one with the higher precedence, and without two different precedences by the first of them in the grammar. |
| `Precedence.ShiftWins` | Linux/mybase-master/Lemon/lemon.c:927-1003 | With any number of candidates: a shift is what the finished tables do unless precedence decides for one of the rules that the state could reduce by. |
| `Precedence.RuleWins` | Linux/mybase-master/Lemon/lemon.c:927-1016 | With any number of candidates: a rule is what they reduce by if precedence decides for it against every shift and it is preferred to every other rule. |
| `Precedence.ConflictOnPair` | Linux/mybase-master/Lemon/lemon.c:983-1003 | A shift and a rule are left as a conflict, which is counted, exactly if precedence decides for neither. |
| `Compress.FindBest` | Linux/mybase-master/Lemon/lemon.c:3601-3619 | The rule chosen reduces on the largest number of lookaheads. |
| `Compress.CompressState` | Linux/mybase-master/Lemon/lemon.c:3603-3635 | Only lookaheads without an action change, and they change to the chosen reduction; nothing changes if no rule reduces on two lookaheads. |
| `Compress.MeaningByDefault` | Linux/mybase-master/Lemon/lemon.c:3626-3635 | Looking up an action with the default agrees with the old list wherever that had an action. |
| `Compress.CountSpread` | Linux/mybase-master/Lemon/lemon.c:3604-3623 | A rule that is counted twice reduces on two different lookaheads. |
| `ActTab.Acttab.Insert` | Linux/mybase-master/Lemon/lemon.c:478-553 | The row at the returned offset is exactly the transaction set, it is the first offset from the lowest possible one that takes the set, and every other row stays as it was; all indices stay inside the allocation. |
| `ActTab.LookupReadsRow` | Linux/mybase-master/Lemon/lempar.c:322-386 | The lookup through offset and lookahead array reads the row at the offset, or the default. |
| `ActTab.RowIsSet` | Linux/mybase-master/Lemon/lemon.c:523-540 | The test for sharing an offset succeeds exactly when the row there is the same set. |
| `ActTab.OtherRow` | Linux/mybase-master/Lemon/lemon.c:509-547 | Writing a set into free slots leaves the rows of all other offsets as they were. |
| `ActTab.AppendFits` | Linux/mybase-master/Lemon/lemon.c:482-509 | A set always fits behind the end of the table, so that the search ends. |
| `ActTab.PassedOver` | Linux/mybase-master/Lemon/lemon.c:482-509 | An offset passes the test if and only if there is room for the set, nothing belongs to the row there, and the slot before the offset is not an unused one. |
| `ActTab.PassesOver` | Linux/mybase-master/Lemon/lemon.c:478-553 | A run that passes over such an offset: after the row with lookaheads 0 and 3 the row with 0 and 2 goes to offset 4, although there is room for it at 2. |
| `Tables.ReportTable` | Linux/mybase-master/Lemon/lemon.c:3277-3430 | For every state and every symbol the driver's lookup in the printed tables finds the code of what the action list means, its default included; terminals and nonterminals may share the array. |
| `Tables.PackAll` | Linux/mybase-master/Lemon/lemon.c:3308-3336 | After all insertions every set is still at its offset, and the printed minima are those of the offsets. |
| `Tables.PackSet` | Linux/mybase-master/Lemon/lemon.c:3312-3329 | One state's actions on terminals or on nonterminals are put in the table, from an offset of at least minus the number of symbols. |
| `Tables.AxSets` | Linux/mybase-master/Lemon/lemon.c:3283-3305 | There is one set for each state and kind, with the number of its actions. |
| `Tables.CountActions` | Linux/mybase-master/Lemon/lemon.c:3287-3305 | The numbers of actions on terminals and on nonterminals, and the default, of one state. |
| `Tables.TransPairs` | Linux/mybase-master/Lemon/lemon.c:3312-3329 | What is inserted maps exactly the symbols that have a live action to the code of what it does. |
| `Tables.PrintedAgrees` | Linux/mybase-master/Lemon/lemon.c:3340-3430 | What is printed for unused slots and for states without actions is never mistaken for an action. |
| `Viable.ViablePrefix` | Linux/mybase-master/Lemon/lemon.c:661-880 | In every form of every rightmost derivation, the automaton can follow all symbols before a nonterminal and then has each rule of that nonterminal, with everything that can come after it among the lookaheads. |
| `Viable.AllLooked` | Linux/mybase-master/Lemon/lemon.c:813-880 | If every nonterminal derives nothing or something that begins with a terminal, every configuration of every state has a lookahead. |
| `Viable.MarkedStarts` | Linux/mybase-master/Lemon/lemon.c:604-654 | That condition is what `FindFirstSets` leaves: every nonterminal is marked lambda or has a nonempty first set. |
| `Viable.GoesOn` | Linux/mybase-master/Lemon/lempar.c:589-601 | If a rightmost derivation leads to stack and remaining input with its last step ending at or after the top of the stack, the top state has the shift or the reduction that undoes the derivation. |
| `Viable.RightmostExists` | Linux/mybase-master/Lemon/lempar.c:558-687 | Every derivation of a sentence can be turned into a rightmost one of the same length. |
| `Viable.SentenceHopeful` | Linux/mybase-master/Lemon/lempar.c:558-580 | Every sentence gives such a derivation for the empty stack. |
| `Viable.PathBegins` | Linux/mybase-master/Lemon/lemon.c:661-811 | In a productive grammar every path of the automaton from its first state, followed by some terminals, is a form of a rightmost derivation. |
| `Viable.PathCompletes` | Linux/mybase-master/Lemon/lemon.c:661-811 | So the tokens that a stack stands for can always be completed to a sentence. |
| `Realized.LookaheadIs` | Linux/mybase-master/Lemon/lemon.c:813-880 | In a productive grammar t is a lookahead of a configuration in a state if and only if some rightmost derivation, along some path to the state, has t, or the end, next after the nonterminal that the configuration expands. |
| `Realized.FollowIs` | Linux/mybase-master/Lemon/lemon.c:813-880 | So the follow sets of `FindFollowSets` are characterised by derivations alone. |
| `Realized.LooksRealized` | Linux/mybase-master/Lemon/lemon.c:813-880 | Every inherited lookahead is realized: by induction on the links that carry it. |
| `Halting.Halts` | Linux/mybase-master/Lemon/lempar.c:587-612 | For decisive tables of a productive grammar there is a number, depending on the stack alone, that no token makes the parser exceed in reductions. |
| `Halting.SameReductions` | Linux/mybase-master/Lemon/lempar.c:587-612 | All reductions that the parser makes in a row on a token, right or wrong, it also makes on the first token of some sentence that goes on from there. |
| `Halting.HopeBounds` | Linux/mybase-master/Lemon/lempar.c:587-612 | On such a token it makes no more reductions than the derivation has steps left. |
| `Cycles.EndlessIffCycle` | Linux/mybase-master/Lemon/lempar.c:587-612 | Whatever the tables are: the reductions on a token exceed every number, below the depth of the stack, if and only if they lead to a stack to which they come back. |
| `Cycles.RoundAndRound` | Linux/mybase-master/Lemon/lempar.c:587-612 | Reductions that come back to their stack can be repeated without end. |
| `Cycles.NoLongRuns` | Linux/mybase-master/Lemon/lempar.c:587-612 | Without such a cycle there is a number that no run of reductions on the token reaches. |
| `Cycles.CycleDerives` | Linux/mybase-master/Lemon/lempar.c:587-612 | Where the loop comes back to a stack, some nonterminal of the grammar derives itself in one or more steps. |
| `Cycles.AcyclicIs` | Linux/mybase-master/Lemon/lemon.c:604-654 | No nonterminal derives itself if and only if no path leads back to a nonterminal over rules whose other symbols all vanish. |
| `Cycles.UnitStepMarked` | Linux/mybase-master/Lemon/lemon.c:604-654 | These rules can be read off the lambda flags of `FindFirstSets`, so that a caller can check the condition. |
| `Cycles.AcyclicNoCycle` | Linux/mybase-master/Lemon/lempar.c:587-612 | For such a grammar no tables, whatever conflicts were resolved in them, have a cycle. |
| `Cycles.DecisiveNoCycle` | Linux/mybase-master/Lemon/lempar.c:587-612 | Nor have decisive tables of a productive grammar. |
| `Cycles.GetsOne` | Linux/mybase-master/Lemon/lempar.c:558-687 | The stack after some tokens is determined by the tables. |
| `Driver.HandleOnTop` | Linux/mybase-master/Lemon/lempar.c:476-478 | When a rule is complete in the top state, its right-hand side is on top of the stack, and below it is a state that has the rule with the dot in front. |
| `Driver.GotoExists` | Linux/mybase-master/Lemon/lempar.c:476-485 | The state below has a transition on the left-hand side, unless that is the start symbol and nothing is left on the stack. |
| `Driver.AfterReduce` | Linux/mybase-master/Lemon/lempar.c:476-485 | The lookup after a reduction finds a shift along the automaton or, for the start symbol, the accept action; the silent third case is unreachable. |
| `Driver.ForToken` | Linux/mybase-master/Lemon/lempar.c:589-601 | The lookup for a token finds a shift along the automaton, a reduction by a rule complete in the top state, or the error code; nothing else. |
| `Driver.FindsOnward` | Linux/mybase-master/Lemon/lempar.c:589-601 | With complete tables the lookup for the next token of a sentence finds a step after which the rest of the derivation is still there, one step shorter after a reduction. |
| `Driver.RuleInfoExact` | Linux/mybase-master/Lemon/lempar.c:433-438 | The right-hand side length that the driver pops is exact iff it is below 256, because it is held in an unsigned char. |
| `Driver.Height` | Linux/mybase-master/Lemon/lempar.c:391-413 | The stack is never higher than there are tokens shifted and reductions made. |
| `Driver.Parser.Shift` | Linux/mybase-master/Lemon/lempar.c:391-438 | The entry is pushed, or the whole stack is emptied when it is full. |
| `Driver.Parser.Reduce` | Linux/mybase-master/Lemon/lempar.c:446-485 | The right-hand side on top of the stack is replaced by the left-hand side; the derivation of the shifted tokens from the stack gets one step longer; it accepts iff the left-hand side is the start symbol. |
| `Driver.Parser.Round` | Linux/mybase-master/Lemon/lempar.c:587-612 | One round shifts, reduces, accepts, overflows with a full stack, or fails exactly on an error entry of the table, as the tables say for the symbols on the stack, with the stack still a path of the automaton, and the reduction made is the one that the tables name; on a sentence with complete tables it does not fail, and a reduction undoes one step of the derivation. |
| `Driver.Parser.Parse` | Linux/mybase-master/Lemon/lempar.c:558-687 | One token: the token is shifted, or the parser accepts, fails, overflows or ignores an end marker at the very start. Without a limit the loop ends whenever the reductions on the token come to no cycle; a limit is reached if and only if so many reductions can be made, so that where there is a cycle every limit is reached. On a sentence with complete tables n + 1 rounds and a stack for the tokens and n symbols are enough. |
| `Driver.Parser.Rounds` | Linux/mybase-master/Lemon/lempar.c:587-612 | The loop itself, with its bound: the reductions made are the run of the tables from the stack at its beginning, and the token is taken exactly when that run comes to a shift. |
| `Driver.Parser.ParseAll` | Linux/mybase-master/Lemon/lempar.c:558-687 | A nonempty input is accepted exactly if the tables take all of it and finish at the end marker, and then the reductions made are those of the tables (unless a limit is reached). On acceptance the reductions, read backwards, are a rightmost derivation of the whole input; with complete tables no sentence fails, and every nonempty one is accepted if rounds and stack suffice for its derivation. On a failure the tokens shifted so far are the beginning of a sentence (productive grammar), and with the next token they are not (complete tables). No limit is needed if the input leads to no cycle, and some limit is not reached only then. The empty input is always ignored. |
| `TableRuns.FollowsOnce` | Linux/mybase-master/Lemon/lempar.c:558-687 | The stack and the reductions made after some tokens are determined by the tables. |
| `TableRuns.AcceptsOnce` | Linux/mybase-master/Lemon/lempar.c:558-687 | At most one sequence of reductions accepts an input. |
| `TableRuns.NotAccepted` | Linux/mybase-master/Lemon/lempar.c:558-687 | Where the parser has taken all tokens and comes to rest on the end marker without a start rule to reduce by, no sequence of reductions accepts the input. |
| `Operators.ParseOperators` | Linux/mybase-master/Lemon/lempar.c:558-687 | For E -> E op E, E -> a as it is written, with the precedence symbols found, Lemon makes a parser, and on a op a op ... a of any length that parser accepts without a limit on its rounds; the reductions it has made build the left-nested expression if op is left-associative, and the right-nested one if it is right-associative or not associative. |
| `Operators.LeftAccepts` | Linux/mybase-master/Lemon/lemon.c:996-999 | Left-associative: every table that Lemon can make accepts the input by the reductions of the left-nested expression. |
| `Operators.RightAccepts` | Linux/mybase-master/Lemon/lemon.c:986-1003 | Otherwise: by those of the right-nested expression. |
| `Operators.BothStandFor` | Linux/mybase-master/Lemon/lemon.c:983-1003 | Both expressions stand for the same input, so that only precedence can tell them apart. |
| `Operators.BuildingDiffers` | Linux/mybase-master/Lemon/lemon.c:983-1003 | From two operators on, the reductions that build them differ. |
| `Paging.OptIsOptimal` | C++/06ucore/related_info/ostep/ostep6-paging-policy.py:133-253 | For every trace, cache size and common start, evicting the page whose next use is furthest has at most as many misses as any demand policy. |
| `Paging.ExchangeCost` | C++/06ucore/related_info/ostep/ostep6-paging-policy.py:133-239 | Exchanging one resident page for another costs at most one miss more, and none if the new one is needed no later. |
| `Paging.UnoptIsWorst` | C++/06ucore/related_info/ostep/ostep6-paging-policy.py:214-232 | For every trace, cache size and common start, evicting the page whose next use is nearest has at least as many misses as any demand policy. |
| `Paging.ExchangeGain` | C++/06ucore/related_info/ostep/ostep6-paging-policy.py:214-232 | Exchanging one resident page for another that is needed no earlier allows at least as many misses. |
| `Paging.Simulate` | C++/06ucore/related_info/ostep/ostep6-paging-policy.py:133-253 | Hits and misses add up to the trace, and the misses are those of a run that follows the policy page by page, order, reference counts and ties included; every policy of the file is a demand policy; OPT has the fewest misses of all demand policies and UNOPT the most; LRU misses exactly when the page is not recent enough, FIFO when it is not among the last ones loaded, and MRU when it has been given up for the page after it. |
| `Paging.Access` | C++/06ucore/related_info/ostep/ostep6-paging-policy.py:133-253 | One access: a hit iff the page is resident; on a hit only the order may change, on a miss with a full cache exactly the page that the policy picks goes; the new page comes last; the reference counts follow the clock. |
| `Paging.OptVictim` | C++/06ucore/related_info/ostep/ostep6-paging-policy.py:189-212 | The victim's next reference is the furthest, and it is the last such page. |
| `Paging.UnoptVictim` | C++/06ucore/related_info/ostep/ostep6-paging-policy.py:214-232 | The victim's next reference is the nearest, and it is the first such page. |
| `Paging.ClockVictim` | C++/06ucore/related_info/ostep/ostep6-paging-policy.py:158-182 | The search with random picks ends, with a page whose counter has run out; counters only go down. |
| `Paging.LruHasNoAnomaly` | C++/06ucore/related_info/ostep/ostep6-paging-policy.py:133-253 | A larger LRU cache never has more misses. |
| `Paging.LruIsRecency` | C++/06ucore/related_info/ostep/ostep6-paging-policy.py:133-150 | An LRU cache holds exactly the most recently accessed pages, in order. |
| `Paging.FifoIs` | C++/06ucore/related_info/ostep/ostep6-paging-policy.py:138-149 | A FIFO cache loads exactly the pages that are not among the last ones it has loaded. |
| `Paging.MruIs` | C++/06ucore/related_info/ostep/ostep6-paging-policy.py:138-151 | A full MRU cache always gives up the page of the access before. |
| `Paging.BeladysAnomaly` | C++/06ucore/related_info/ostep/ostep6-paging-policy.py:133-253 | FIFO does have the anomaly: on a trace of twelve accesses four pages of memory lead to ten misses, and three pages to nine. |
| `Matrices.CFloatMatrix.Inverse` | C++/99reconstructionLUT/DoubleMatrix.cpp:731-787 | The result is a two-sided inverse; the determinant exception is raised iff the square matrix maps some nonzero vector to zero; the other exceptions iff it is not square, or has no rows. |
| `Matrices.CFloatMatrix.GaussJordan` | C++/99reconstructionLUT/DoubleMatrix.cpp:746-782 | The loop ends with [I | X] that has the solutions of [A | I], or A is singular. |
| `Matrices.CFloatMatrix.EliminateColumn` | C++/99reconstructionLUT/DoubleMatrix.cpp:761-781 | Exchange, division and elimination make one more column a unit vector and keep the solutions of [A | I]. |
| `Matrices.CFloatMatrix.FindPivot` | C++/99reconstructionLUT/DoubleMatrix.cpp:750-760 | The row at or below the diagonal with the largest entry in magnitude. |
| `Matrices.CFloatMatrix.SetSub` | C++/99reconstructionLUT/DoubleMatrix.cpp:106-132 | Exactly the addressed cells change, to those of the submatrix, or the range is invalid and nothing changes. |
| `Matrices.CFloatMatrix.GetSub` | C++/99reconstructionLUT/DoubleMatrix.cpp:134-158 | The addressed cells, or the exception for an invalid range. |
| `Matrices.LeftInverse` | C++/99reconstructionLUT/DoubleMatrix.cpp:746-787 | With the same solutions as [A | I], the right half of [I | X] satisfies X A = I. |
| `Matrices.RightInverse` | C++/99reconstructionLUT/DoubleMatrix.cpp:746-787 | And A X = I. |
| `Matrices.NoPivot` | C++/99reconstructionLUT/DoubleMatrix.cpp:757-760 | A column without a nonzero pivot gives a nonzero vector that A maps to zero. |
| `Matrices.NotSingular` | C++/99reconstructionLUT/DoubleMatrix.cpp:746-787 | A matrix whose elimination succeeds maps no nonzero vector to zero. |
| `Buddy.Buddy2.Alloc` | C++/06ucore/related_info/lab2/buddy_system.c:63-96 | Returns the lowest aligned free block of the rounded size, which is in use afterwards and overlaps no other; returns -1 iff no aligned free block of that size exists. |
| `Buddy.Buddy2.Free` | C++/06ucore/related_info/lab2/buddy_system.c:98-127 | The block that covers the offset is no longer in use; an offset in no block changes nothing. |
| `Buddy.Buddy2.AllocThenFree` | C++/06ucore/related_info/lab2/buddy_system.c:63-127 | Freeing right after allocating restores the whole array. |
| `Buddy.Buddy2.Size` | C++/06ucore/related_info/lab2/buddy_system.c:129-139 | For every offset in range: the walk leaves the tree if and only if the offset is in no block in use; otherwise the result is the size of the block that covers it. |
| `Buddy.Buddy2.AllocThenSize` | C++/06ucore/related_info/lab2/buddy_system.c:63-139 | The size asked for a freshly allocated offset is the rounded request. |
| `Buddy.Buddy2.SizeOfNothing` | C++/06ucore/related_info/lab2/buddy_system.c:129-139 | In a fresh tree the walk leaves the tree from every offset. |
| `Buddy.Buddy2.New` | C++/06ucore/related_info/lab2/buddy_system.c:39-57 | All is free, or there is no tree because the size is not a power of two. |
| `Buddy.Fixsize` | C++/06ucore/related_info/lab2/buddy_system.c:30-37 | A power of two above the size and at most twice the size. |
| `Buddy.IsPowerOf2Exact` | C++/06ucore/related_info/lab2/buddy_system.c:24-28 | The bit test is true exactly for powers of two. |
| `Buddy.RootKnows` | C++/06ucore/related_info/lab2/buddy_system.c:63-72 | If the root holds less than the size, no aligned block of that size is free. |
| `Buddy.AvailableIsFree` | C++/06ucore/related_info/lab2/buddy_system.c:63-96 | A node is available iff none of its units is in use. |
| `Buddy.CoversIsBelow` | C++/06ucore/related_info/lab2/buddy_system.c:98-110 | A unit belongs to a block iff its leaf is below the block's node. |
| `Buddy.BlocksDisjoint` | C++/06ucore/related_info/lab2/buddy_system.c:63-96 | Different blocks in use share no unit. |
| `BoundaryTags.Heap.Malloc` | C++/02memory_management/version_0.1.cc:45-92 | The headers still tile the heap; the payload is new, and what else is in use stays; NULL iff no free block has exactly the size or room for a header besides, and otherwise the payload starts at the lowest such block. |
| `BoundaryTags.Heap.Take` | C++/02memory_management/version_0.1.cc:62-88 | The block found is handed out whole or split, with the next header told the new size. |
| `BoundaryTags.Heap.Free` | C++/02memory_management/version_0.1.cc:94-129 | The block is free and joined with its free neighbours; no two free blocks touch; what else is in use stays. |
| `BoundaryTags.Heap.Init` | C++/02memory_management/version_0.1.cc:30-43 | One free block tiles the heap. |
| `BoundaryTags.NothingLive` | C++/02memory_management/version_0.1.cc:94-129 | Whenever nothing is in use, in whatever order it was freed, the heap is the single initial block. |
| `BoundaryTags.LiveDisjoint` | C++/02memory_management/version_0.1.cc:45-92 | Payloads in use never overlap, and a header fits between them. |
| `FreeList.Storage.Malloc` | C++/06ucore/related_info/lab2/kr_malloc_free.c:86-115 | The units returned were not in use and are now: the last ones of the first block large enough after freep, around the circle, and freep moves to the block before it. Only if no block was large enough NALLOC units or more come from the system first; when the result is NULL nothing has changed. |
| `FreeList.Storage.Free` | C++/06ucore/related_info/lab2/kr_malloc_free.c:45-64 | The block leaves the blocks in use and goes back at its place; the list is one circle by increasing address whose blocks do not touch; free and used units are those from the system. |
| `FreeList.Storage.MoreCore` | C++/06ucore/related_info/lab2/kr_malloc_free.c:68-83 | NALLOC new units from the system, or more if the request is larger, join the list at their place, or nothing changes. |
| `FreeList.Storage.Search` | C++/06ucore/related_info/lab2/kr_malloc_free.c:96-114 | The search around the circle ends; it finds a block iff one is large enough, and it is the first one after freep on the way around. |
| `FreeList.Storage.TakeFrom` | C++/06ucore/related_info/lab2/kr_malloc_free.c:98-107 | The units are taken from the end of the block, or the block leaves the list; the list starts at the block before it, and all other blocks stay. |
| `FreeList.Storage.FindPlace` | C++/06ucore/related_info/lab2/kr_malloc_free.c:50-52 | The walk ends at the last free block below the one freed. |
| `FreeList.StopsAt` | C++/06ucore/related_info/lab2/kr_malloc_free.c:50-52 | The test of the walk succeeds at exactly one node. |
| `FreeList.FreeKeeps` | C++/06ucore/related_info/lab2/kr_malloc_free.c:45-64 | Relinking and both joins keep the whole invariant: order, circle, disjointness and units. |
| `FreeList.TakeKeeps` | C++/06ucore/related_info/lab2/kr_malloc_free.c:97-108 | Taking a block or its tail keeps it too. |
| `FreeList.NeverBoth` | C++/06ucore/related_info/lab2/kr_malloc_free.c:45-115 | No unit is both free and in use, or in two blocks in use. |
| `Timers.TimerManager.CheckTimer` | C++/03web_server/NetServer-master/NetServer/TimerManager.cpp:154-189 | Exactly the timers whose countdown is 0 fire, once each, in the order of the list of the current slot; every other countdown goes down by one; one-shots leave the wheel, periodic ones start again; the lists stay well linked. |
| `Timers.TimerManager.NewTimer` | C++/03web_server/NetServer-master/NetServer/Timer.cpp:11-24 | A new timer has its timeout and kind and is not in the wheel; nothing else changes. |
| `Timers.TimerManager.AddTimer` | C++/03web_server/NetServer-master/NetServer/TimerManager.cpp:49-56 | The countdown is the number of ticks of the timeout, and the timer comes first in the list of its slot; no other timer changes. |
| `Timers.TimerManager.AdjustTimer` | C++/03web_server/NetServer-master/NetServer/TimerManager.cpp:66-73 | A new countdown whether or not the timer was in the wheel. |
| `Timers.TimerManager.Adjust` | C++/03web_server/NetServer-master/NetServer/Timer.cpp:43-49 | A timer gets another timeout and another kind and starts a new countdown with them; no other timer changes. |
| `Timers.TimerManager.RemoveTimer` | C++/03web_server/NetServer-master/NetServer/TimerManager.cpp:58-64 | The timer leaves the wheel and no other does. |
| `Timers.TimerManager.CalculateTimer` | C++/03web_server/NetServer-master/NetServer/TimerManager.cpp:75-94 | Slot and rotation encode the number of ticks. |
| `Timers.TimerManager.AddTimerToTimeWheel` | C++/03web_server/NetServer-master/NetServer/TimerManager.cpp:96-113 | The timer becomes the head of its slot's doubly linked list. |
| `Timers.TimerManager.RemoveTimerFromTimeWheel` | C++/03web_server/NetServer-master/NetServer/TimerManager.cpp:115-142 | The timer is unlinked from its list, which stays well linked. |
| `Timers.TimerManager.CheckOne` | C++/03web_server/NetServer-master/NetServer/TimerManager.cpp:160-186 | One timer of the slot is fired, rescheduled, dropped or counted down, and the rest of the list is still to do. |
| `Timers.FiresOnTime` | C++/03web_server/NetServer-master/NetServer/TimerManager.cpp:154-189 | Over any run of calls a timer fires in exactly the calls that its countdown tells: a one-shot in that call alone, after which it is out of the wheel, a periodic timer there and after every further multiple of its ticks. |
| `Timers.CheckTimers` | C++/03web_server/NetServer-master/NetServer/TimerManager.cpp:154-189 | The same for the whole wheel: n calls fire exactly the timers that were in it when their countdowns say, and exactly the one-shots that have fired are gone. |
| `Timers.PeriodicAgain` | C++/03web_server/NetServer-master/NetServer/TimerManager.cpp:144-189 | A periodic timer that fires in one call fires again after exactly its number of ticks, multiples of the number of slots included, and not before. |
| `Timers.AddAndCheck` | C++/03web_server/NetServer-master/NetServer/TimerManager.cpp:49-189 | A timer added with timeout n (1 if it is less than 1): n calls pass and the next one fires it; a one-shot never fires again, and a periodic timer fires in every n-th call from there on and in no other. |
| `Timers.DueInOrder` | C++/03web_server/NetServer-master/NetServer/TimerManager.cpp:154-189 | Of two timers that fire in the same call, the one that comes first in the list of the slot fires first. |
| `Timers.LastAddedFirst` | C++/03web_server/NetServer-master/NetServer/TimerManager.cpp:96-189 | So a timer that is added to a list fires before all that were in it. |
| `Timers.RemOfTicks` | C++/03web_server/NetServer-master/NetServer/TimerManager.cpp:80-93 | Rotation times slots plus slot distance is the number of ticks. |
| `Timers.RemNext` | C++/03web_server/NetServer-master/NetServer/TimerManager.cpp:154-189 | One call later the distance of an unfired timer is one less. |
| `Timers.RemoveKeeps` | C++/03web_server/NetServer-master/NetServer/TimerManager.cpp:115-142 | Unlinking anywhere in a list keeps all lists well formed. |
| `Timers.AddKeeps` | C++/03web_server/NetServer-master/NetServer/TimerManager.cpp:96-113 | So does pushing at the head. |
| `Mlfq.Scheduler.Run` | C++/06ucore/related_info/ostep/ostep9-mlfq.py:187-299 | The simulation ends with the first round after which every job has finished; the trace and the state are those of the rounds, one after the other (`Mlfq.Schedule`, `Mlfq.Rounds`). It ends without an abort iff every job was given some run time, and then every job has run for exactly its time, in no tick before its start, and all other ticks were idle. |
| `Mlfq.Scheduler.Step` | C++/06ucore/related_info/ostep/ostep9-mlfq.py:187-299 | One round: the new state is that after the boost, the arrivals and the tick of the job chosen, and the trace gets that job or -1 (what each part does is stated in `MlfqRules`). Every job stays in exactly one place (the queue of its priority, one event not in the past, or finished); either one tick of work is done, or the time of the last event comes nearer. |
| `Mlfq.Scheduler.RunOne` | C++/06ucore/related_info/ostep/ostep9-mlfq.py:236-299 | The job at the front runs for a tick: it finishes, waits for I/O, moves down or stays, with the ticks its queue gives; the priority abort never happens, the other one iff the job had no time left. |
| `Mlfq.Scheduler.Boost` | C++/06ucore/related_info/ostep/ostep9-mlfq.py:193-214 | Every so many ticks the jobs of queue 0, 1 and so on line up in this order behind those of the highest queue, and unfinished jobs have its quantum. |
| `Mlfq.Scheduler.Arrivals` | C++/06ucore/related_info/ostep/ostep9-mlfq.py:216-225 | The jobs of the current events join the queues of their priorities, at the end or, with the bump option, in front. |
| `Mlfq.Scheduler.FindQueue` | C++/06ucore/related_info/ostep/ostep9-mlfq.py:9-17 | The highest queue that is not empty, or -1. |
| `Mlfq.Scheduler.LowerQueue` | C++/06ucore/related_info/ostep/ostep9-mlfq.py:19-29 | One queue down, or the lowest again, with a new quantum; in no queue while waiting for I/O. |
| `Mlfq.Scheduler.constructor` | C++/06ucore/related_info/ostep/ostep9-mlfq.py:104-182 | All queues are empty and the trace too; every job waits for the event of its start time, those of the same time in the order given, with the highest priority and its quantum. |
| `Mlfq.BoostKeeps` | C++/06ucore/related_info/ostep/ostep9-mlfq.py:193-214 | A boost keeps the jobs, the queues and their priorities consistent. |
| `Mlfq.TickKeeps` | C++/06ucore/related_info/ostep/ostep9-mlfq.py:236-299 | So does one tick of the front job. |
| `Mlfq.NextEvent` | C++/06ucore/related_info/ostep/ostep9-mlfq.py:227-233 | If no job can run and one has not finished, an event is still to come. |
| `MlfqRules.BoostRule` | C++/06ucore/related_info/ostep/ostep9-mlfq.py:193-214 | At every positive multiple of the boost time, before the arrivals, all queued jobs are in the highest queue: first those that were in it, then those of the lower queues from the lowest up, each queue in its order. |
| `MlfqRules.BoostJobs` | C++/06ucore/related_info/ostep/ostep9-mlfq.py:208-214 | Then every unfinished job, queued or not, has the highest priority and its whole quantum; at other times nothing changes. |
| `MlfqRules.ArrivalRule` | C++/06ucore/related_info/ostep/ostep9-mlfq.py:216-225 | The jobs whose event is now join the queue of their priority: behind those in it, in the order of their events, or with the bump option in front of them in the reverse order. |
| `MlfqRules.ArrivalJobs` | C++/06ucore/related_info/ostep/ostep9-mlfq.py:216-225 | A job that comes in is no longer waiting for I/O; no job changes otherwise, nor do the events. |
| `MlfqRules.ChoiceRule` | C++/06ucore/related_info/ostep/ostep9-mlfq.py:227-240 | A round is idle exactly if all queues are empty after boost and arrivals; otherwise the job at the head of the highest queue that is not empty runs. |
| `MlfqRules.TickJobs` | C++/06ucore/related_info/ostep/ostep9-mlfq.py:240-260 | The job that runs has one tick less to go, and no other job changes. |
| `MlfqRules.TickLevel` | C++/06ucore/related_info/ostep/ostep9-mlfq.py:255-292 | It goes down one level if there is one, with the whole quantum of its new level, exactly if its ticks are used up and it has not finished; it starts its quantum anew if it issues I/O and the stay option is given. |
| `MlfqRules.TickQueues` | C++/06ucore/related_info/ostep/ostep9-mlfq.py:255-292 | It leaves its queue if it finishes or issues I/O, in the second case with an event after its I/O time; with its ticks used up it goes to the end of the queue below; otherwise it stays at the head. |
| `MlfqRules.ScheduleAt` | C++/06ucore/related_info/ostep/ostep9-mlfq.py:187-299 | What ran in each tick of the trace is what the round of that tick chose. |
| `MlfqRules.Allotment` | C++/06ucore/related_info/ostep/ostep9-mlfq.py:236-299 | Without the stay option no job runs, between two boosts, for more than its quantum at any level but the lowest, however often it gives up the processor for I/O. |
| `MlfqRules.BoostRun` | C++/06ucore/related_info/ostep/ostep9-mlfq.py:187-299 | The whole simulation of two jobs (start 0, 4 ticks; start 3, 2 ticks) on two queues of quantum 1 with a boost every 3 ticks runs the first one to its end before the second one begins. |
| `Vsfs.FileSystem.Run` | C++/06ucore/related_info/ostep/ostep13-vsfs.py:450-480 | Any sequence of operations, failed ones included, keeps the file system consistent, and no assertion fails. |
| `Vsfs.FileSystem.DeleteFile` | C++/06ucore/related_info/ostep/ostep13-vsfs.py:249-278 | The path loses its entry, which is there; inode and block are freed iff it was the last name. |
| `Vsfs.FileSystem.CreateFile` | C++/06ucore/related_info/ostep/ostep13-vsfs.py:308-355 | Takes the lowest free inode, and for a directory the lowest free block; fails exactly when the directory is full or has the name or one of them is missing, and then leaves nothing behind. |
| `Vsfs.FileSystem.CreateLink` | C++/06ucore/related_info/ostep/ostep13-vsfs.py:280-306 | A new entry for the file, or -1 exactly when the directory is full or has the name. |
| `Vsfs.FileSystem.WriteFile` | C++/06ucore/related_info/ostep/ostep13-vsfs.py:357-374 | The file gets the lowest free block, with the text in it, or nothing changes, exactly when it has one already or none is free. |
| `Vsfs.FileSystem.DoCreate` | C++/06ucore/related_info/ostep/ostep13-vsfs.py:410-438 | The new path is listed; or -1 and no change, exactly when the directory is full or has the name, or an inode or block is missing. |
| `Vsfs.FileSystem.DoLink` | C++/06ucore/related_info/ostep/ostep13-vsfs.py:384-408 | The new path is listed; or -1 and no change, exactly when there is no file, or the directory is full or has the name. |
| `Vsfs.FileSystem.DoDelete` | C++/06ucore/related_info/ostep/ostep13-vsfs.py:376-382 | A listed file is deleted; it fails only when there is none. |
| `Vsfs.FileSystem.DoAppend` | C++/06ucore/related_info/ostep/ostep13-vsfs.py:440-448 | A listed file gets a block with the text; or -1 and no change, exactly when there is no file, it has a block, or none is free. |
| `Vsfs.FileSystem.constructor` | C++/06ucore/related_info/ostep/ostep13-vsfs.py:169-197 | Only the root directory is in use. |
| `Vsfs.OneOwner` | C++/06ucore/related_info/ostep/ostep13-vsfs.py:249-374 | A block is marked in use iff an inode in use has its address, and no two inodes have it. |
| `Vsfs.Reachable` | C++/06ucore/related_info/ostep/ostep13-vsfs.py:249-374 | Every inode in use can be reached from the root by looking up names. |
| `Vsfs.WalkAgrees` | C++/06ucore/related_info/ostep/ostep13-vsfs.py:168-198 | Looking up a path from the root agrees with the table of names, in both directions, for every path without dots. |
| `Vsfs.DeleteWalks` | C++/06ucore/related_info/ostep/ostep13-vsfs.py:249-278 | Deleting a path cuts it off and leaves every other path as it was. |
| `Vsfs.LinkWalks` | C++/06ucore/related_info/ostep/ostep13-vsfs.py:280-306 | A link leads where the target leads, and every other path stays. |
| `Vsfs.MadeWalks` | C++/06ucore/related_info/ostep/ostep13-vsfs.py:308-355 | A new file or directory makes one new path, to an inode that no path led to. |
| `Vsfs.AppendWrites` | C++/06ucore/related_info/ostep/ostep13-vsfs.py:357-374 | After a write every path that leads to the file has the text as its content; every other path has the content it had, and no path leads elsewhere. |
| `Vsfs.DeleteKeepsContents` | C++/06ucore/related_info/ostep/ostep13-vsfs.py:249-278 | Deleting a path leaves the content of every other path as it was, other names of the same file included. |
| `Vsfs.LinkContents` | C++/06ucore/related_info/ostep/ostep13-vsfs.py:280-306 | A link has the content of its target, and every other path keeps its own. |
| `Vsfs.MadeContents` | C++/06ucore/related_info/ostep/ostep13-vsfs.py:308-355 | A new file or directory has no content, and every other path keeps its own. |
| `Vsfs.EntryInUse` | C++/06ucore/related_info/ostep/ostep13-vsfs.py:249-374 | Every directory entry names an inode in use. |
| `Vsfs.PathHasLink` | C++/06ucore/related_info/ostep/ostep13-vsfs.py:249-278 | A file that still has a path has a positive count, so that it is not reclaimed. |
| `Afs.Run` | C++/06ucore/related_info/ostep/ostep14-afs.py:405-473 | Any schedule in which a client opens a file at most once at a time runs without an abort and keeps all promises. For every file the server has the value of the last close that had an unsaved write, read off the schedule alone. Up to the first late store, every read gets the client's own last write since it opened the file, or else what the server had then. |
| `Afs.System.GetFile` | C++/06ucore/related_info/ostep/ostep14-afs.py:387-396 | The whole new state: opening fetches unless the cache has a valid copy, and then the server lists the client; nothing else changes. |
| `Afs.System.CloseFile` | C++/06ucore/related_info/ostep/ostep14-afs.py:454-463 | The whole new state: a changed file is stored and all other clients that are listed are called back and unlisted; an unchanged one only loses its reference, and the entry with it if it is invalid; nothing else changes. |
| `Afs.System.Put` | C++/06ucore/related_info/ostep/ostep14-afs.py:110-123 | The server has the new value, each other listed client has its copy marked invalid and is no longer listed, and nothing else changes. |
| `Afs.System.CallBack` | C++/06ucore/related_info/ostep/ostep14-afs.py:117-123 | One client: listed, it is called back; otherwise nothing changes. The abort of the cache is not reached. |
| `Afs.System.Invalidate` | C++/06ucore/related_info/ostep/ostep14-afs.py:199-210 | The copy is marked invalid and nothing else changes. |
| `Afs.OpenKeeps` | C++/06ucore/related_info/ostep/ostep14-afs.py:387-396 | Opening keeps all promises. |
| `Afs.CloseKeeps` | C++/06ucore/related_info/ostep/ostep14-afs.py:397-401 | So does closing, with the store and its call-backs or without. |
| `Afs.NextDirty` | C++/06ucore/related_info/ostep/ostep14-afs.py:199-232 | No action of another client, call-backs included, alters what a client has written and not yet stored. |
| `Afs.RunStores` | C++/06ucore/related_info/ostep/ostep14-afs.py:405-473 | After any part of a legal schedule the server and the unsaved writes of all clients are those that the schedule alone determines. |
| `Afs.OnlyLateStores` | C++/06ucore/related_info/ostep/ostep14-afs.py:397-401 | While every valid copy is listed, a step leaves it so if and only if it is not the close of a changed copy that is marked invalid; the mark says exactly whether the server still lists the client. |
| `Afs.NeverStale` | C++/06ucore/related_info/ostep/ostep14-afs.py:387-396 | Before the first late store no open of any client reads an old version. |
| `Afs.ReadsAreSessions` | C++/06ucore/related_info/ostep/ostep14-afs.py:387-453 | Nor does any client read anything but its session: its own last write since its open, or what the server had at that time. |
| `Afs.FreshForever` | C++/06ucore/related_info/ostep/ostep14-afs.py:387-473 | Whatever the other clients do, the next open of a file by a client reads the server's version: if and only if the client is listed for it or has no valid copy now. |
| `Afs.OpenSeesServer` | C++/06ucore/related_info/ostep/ostep14-afs.py:387-396 | An open now reads the server's value if the client is listed or has no valid copy. |
| `Afs.OverwriteMakesStale` | C++/06ucore/related_info/ostep/ostep14-afs.py:397-473 | From any state with a valid, closed, unlisted copy the write and close of any other client make it an old version that the next open reads. |
| `Afs.StaleOpen` | C++/06ucore/related_info/ostep/ostep14-afs.py:397-473 | A run of the code from the start in which a client stores late and then opens an old version. |
| `Raid5.Raid.EnqueueWrite` | C++/06ucore/related_info/ostep/ostep16-raid.py:319-340 | The partial writes cover the blocks of the request one after the other, each within one stripe, and the operations are exactly those of these partial writes. |
| `Raid5.Raid.EnqueueRead` | C++/06ucore/related_info/ostep/ostep16-raid.py:315-318 | Every block of the request is read at its place, once, and nothing else. |
| `Raid5.Raid.DoPartialWrite` | C++/06ucore/related_info/ostep/ostep16-raid.py:272-307 | Exactly the blocks and parities that the chosen method needs are read, and the new blocks and the parities of their rows written, every place once. |
| `Raid5.Layout.MapIs` | C++/06ucore/related_info/ostep/ostep16-raid.py:240-265 | Disk, parity disk and offset of a block from its stripe, its number in it and its place in the chunk; `RoundTheDisks` and `ParityGoesDown` say that this is the left-symmetric placement. |
| `Raid5.Layout.RoundTheDisks` | C++/06ucore/related_info/ostep/ostep16-raid.py:240-255 | Left-symmetric: consecutive chunks go round the disks, chunk n on disk n modulo the number of disks, and row by row down them. |
| `Raid5.Layout.ParityGoesDown` | C++/06ucore/related_info/ostep/ostep16-raid.py:240-270 | The parity of the first stripe is on the last disk, and that of each stripe one disk below that of the stripe before, or on the last disk again. |
| `Raid5.Layout.PlacesDiffer` | C++/06ucore/related_info/ostep/ostep16-raid.py:240-265 | Different blocks have different places. |
| `Raid5.Layout.PlaceHolds` | C++/06ucore/related_info/ostep/ostep16-raid.py:240-269 | Every block lies on the disks, and every place there holds its stripe's parity or exactly one block. |
| `Raid5.Layout.NeverOnParity` | C++/06ucore/related_info/ostep/ostep16-raid.py:240-265 | The assertion: no block is on the parity disk of its stripe. |
| `Raid5.Layout.StripeParity` | C++/06ucore/related_info/ostep/ostep16-raid.py:267-270 | The parity disk computed for a stripe is that of its blocks. |
| `Raid5.ReadsDetermineParity` | C++/06ucore/related_info/ostep/ostep16-raid.py:272-307 | What is read and the new data determine the new parity of every touched row, in the subtractive and in the additive case. |
| `Raid5.SubtractiveParity` | C++/06ucore/related_info/ostep/ostep16-raid.py:275-285 | Subtractive: the old blocks and the old parity suffice. |
| `Raid5.AdditiveParity` | C++/06ucore/related_info/ostep/ostep16-raid.py:286-296 | Additive: the other blocks suffice. |
| `Raid5Counts.ReadsCount` | C++/06ucore/related_info/ostep/ostep16-raid.py:272-296 | A partial write of n blocks reads n blocks and one parity block for each row they touch if n + 1 blocks are no more than the others of the stripe, and those others if they are. |
| `Raid5Counts.WritesCount` | C++/06ucore/related_info/ostep/ostep16-raid.py:298-307 | It writes its blocks and one parity block for each row they touch. |
| `Raid5Counts.FewestReads` | C++/06ucore/related_info/ostep/ostep16-raid.py:274-274 | The choice of the source counts one parity block whatever the number of rows. What it reads is no more than either method takes if and only if this is not so: n + 1 blocks are no more than the others of the stripe, but n blocks and the parity of all their rows are. |
| `Raid5Counts.SmallChunks` | C++/06ucore/related_info/ostep/ostep16-raid.py:274-274 | With chunks of one block the choice is always the best. |
| `Raid5Counts.MoreThanNeeded` | C++/06ucore/related_info/ostep/ostep16-raid.py:274-274 | With four disks and chunks of four blocks it is not: for the first five blocks of a stripe nine places are read where seven would do. |
| `Raid5.TileCovers` | C++/06ucore/related_info/ostep/ostep16-raid.py:319-340 | Every block of a write is in exactly one part, that of its stripe. |
| `Raid5Writes.WriteKeepsParity` | C++/06ucore/related_info/ostep/ostep16-raid.py:308-340 | The operations of a write, executed on any contents in which the parity of every row is right, store the data in exactly the blocks of the request and leave the parity of every row right. |
| `Raid5Writes.StoredFromReads` | C++/06ucore/related_info/ostep/ostep16-raid.py:272-307 | What a partial write stores, the new parities included, depends on nothing but the new data and the places it has read. |
| `Raid5Writes.PartKeepsParity` | C++/06ucore/related_info/ostep/ostep16-raid.py:272-307 | The same for one partial write: subtractive or additive, the parity stored is that of the new row. |
| `Raid5Writes.CanExecute` | C++/06ucore/related_info/ostep/ostep16-raid.py:308-340 | Operations as `enqueue45` makes them can be executed on every contents. |

## Left out

- Runs of the driver that never end: where its tables lead to a cycle the model stops at a limit that the caller sets.
- The random picks of the paging simulator are arbitrary, and its hits and misses are counted but not printed.
- Lemon's lists and sets: linked lists are sequences (no relinking in place, no free lists), byte-array sets are sets with the same additions in the same order, and the hash tables for symbols, states and configurations are searches.
- Lemon's input and output: option parsing, the grammar scanner, code emission, the choice of C integer types for the tables, and the report.
- `qsort` is replaced by a sort of its own; the packed tables are correct for any order of equal sizes.
- The list of rules that can never be reduced, printed after conflict resolution.
- Error recovery, the error symbol, `%fallback`, destructors, semantic values and tracing in the driver; a syntax error ends the model's run.
- Running out of memory, and the width of integers except where a constant of the source depends on it.
- Floating-point rounding in the matrix inversion; matrices are real, and copying of matrix objects is by value.
- The byte layout of allocator headers: headers are records keyed by address, and `sbrk` fails or returns any units above the break. The heap size of the boundary-tag allocator is a parameter.
- The dump functions, and the error that the buddy allocator reports for a null tree.
- The thread, the clock, the mutex and the callbacks of the timer manager: each public call is one step, callbacks do not call the manager, and a timer is not started twice. Timers are records in a store keyed by a number, and their links are such numbers.
- The catching-up of missed ticks in `TimerManager::CheckTick`.
- The scheduler's response and turnaround statistics; jobs drawn at random are arbitrary jobs.
- The file system's bitmaps, blocks and inodes are values in the fields of one class, without an object for each; paths are sequences of components; random choices are arguments.
- AFS file descriptors (files are named directly), statistics, and the order in which clients are scheduled, which is arbitrary.
- RAID levels 0, 1 and 4, the left-asymmetric layout, request queues and timing.
- The homework skeletons, the servers, the HTTP parsers and the system-call samples of the repository.
