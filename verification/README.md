# Proofs about byacc, eyacc, the ex line buffer and memmem

This project models the algorithmic core of the repository in Dafny and proves it
correct.  Each module follows one source file: the loops, the arrays they change in
place and the branches are those of the source, and every method is tied to a
mathematical description about which the lemmas speak.

**byacc**, the LALR(1) parser generator, from the packed grammar to the driver of the
generated parser:

- `Grammars` is the flat grammar encoding (`ritem`, `rlhs`, `rrhs`), derivations, the
  nullable symbols; `Bits`, `Graph`, `Warshall` and `Closures` are the bit matrices,
  reachability and item closures.
- `LR0` builds the canonical LR(0) collection; `Automata` proves what paths of the
  automaton mean: following a rule ends in a state that reduces by it, and a reduction
  finds its right side spelled out below it.
- `GotoMaps`, `Digraphs` and `Lalr` number the nonterminal transitions, run the
  one-pass strongly connected component traversal, and compute the lookahead sets,
  proved to be the least solution of their defining inclusions.
- `Mkpar` makes the ordered action lists and resolves conflicts; `Packing` and
  `Output` compress rows and columns into one table; `Parsers` is the driver that
  reads the tables.
- `Trees`, `Sentences` and `Acceptance` show the other direction: the moves that build a
  parse tree are legal by the lookahead sets, and if no action was dropped they are the
  ones that the tables choose.
- `Byacc` puts everything together: for every well-formed grammar and every lexer the
  generated parser accepts without a syntax error only when it has read a sentence of
  the grammar, and if no action was dropped it accepts every sentence for which the
  rounds and the stack are enough.  With syntax errors it accepts only what is a sentence
  once the stretches given up in recoveries are replaced by `error` (`ReadRepaired`).

**eyacc**, the older generator that spreads lookaheads from state to state until nothing
changes:

- `Firsts` says what a string of symbols can begin with, and `Propagation` which
  lookaheads are forced: those in every assignment that spreads within closures and
  along transitions.
- `Eyacc` computes the nullable nonterminals and the first sets, `WorkingSets` the
  closure of a state with its lookaheads, and `Stagen` the states: the worklist ends,
  and then every state has passed on everything it can.
- `Forcing` proves that the states are the canonical collection and their lookahead sets
  exactly the forced ones. `Agreement` proves the same of byacc's rows, so that in
  `Generators` the two generators agree on every reduction.

**ex**, the editor's line buffer:

- `LineBuffers` is the array of line pointers with its undo save area and the commands
  that rotate it; undo is its own inverse, and delete, append, change and move followed
  by undo give back the earlier lines.
- `TempFiles` is the line store in the temporary file with its three-buffer block
  cache: every stored line is read back as the same text for ever after, as long as the
  file does not fill up, and beyond that under an exact condition.
- `Registers` are the named registers, chains of blocks in a second file with a bitmap
  of the blocks taken: together they are a map from names to lines with a fixed number
  of blocks.
- `Regex` is the backtracking matcher: sound, complete, leftmost and greediest first.  What
  its codes mean is said by the pieces of a regular expression (`Placed`), apart from
  the codes.

**libcompat**: `Memmem` is the Crochemore-Perrin two-way search with its last-byte
shift table, proved to find the first occurrence for every haystack and needle.

Integers are mathematical integers.  Positions in C arrays are indices, pointers into
them are indices too, and linked lists are sequences.  Symbols are numbered as in
byacc: tokens below `start_symbol`, rule 2 is `$accept : goal $end`.

Where the code does something that its design does not intend, the model follows the
code and a lemma says exactly when it happens:

- A line that no longer fits in the temporary file can cost an earlier line:
  `TempFiles.LinesLostAfterFull` is a run of puts in which a stored line is lost.
  `TempFile.PutLine` says exactly when a put keeps all lines (`KeepsLines`): the new line
  starts a block, or its block is in a buffer, or the write buffer happens to hold the
  same bytes as the stored lines in that block.  As long as no put has found the file
  full one of the first two is always so (`TempFile.Run`).
- Running out of blocks in the middle of a yank leaves the bitmap and the chains
  inconsistent, unless no block was free to begin with (`RegisterFile.YankReg`).
- `%nonassoc` means to drop both a shift and a reduction.  If the token has further
  reductions, which were marked as conflicts with the shift, they stay dropped as well,
  so that the token is an error (`Mkpar.TokenLosesAll` says exactly when a token loses all
  its actions).
- The driver pushes the final state without testing for overflow, so the stack needs
  room for two states.

## Model

| member | source | states |
|---|---|---|
| Memmem.LocalRepetitionIsPeriod | libcompat/memmem.c:86-134 | critical factorization: any repetition around the critical position is longer than the left part and is a period of the whole needle |
| Memmem.NoInnerSquare | libcompat/memmem.c:86-134 | no word shorter than the left part repeats around the start of a maximal suffix |
| Memmem.RightPartRepeats | libcompat/memmem.c:86-134 | with the two maximal suffixes ordered, the right part of the needle repeats with the period |
| Memmem.ExtendBlock | libcompat/memmem.c:86-108 | a smaller letter makes the scanned part one block that beats each of its own proper suffixes |
| Memmem.NewCandidate | libcompat/memmem.c:86-108 | a larger letter makes the unfinished block beat every earlier suffix |
| Memmem.ScanComplete | libcompat/memmem.c:86-108 | at the end of the scan the candidate is the maximal suffix and the block length is its least period |
| Memmem.MaximalSuffix | libcompat/memmem.c:86-108 | the scan returns the start of the maximal suffix for either letter order and its least period |
| Memmem.Factorize | libcompat/memmem.c:86-128 | the shorter of the two maximal suffixes starts at a critical position, within reach of its period |
| Memmem.PreparedPeriodic | libcompat/memmem.c:130-134 | if the left part repeats after one period, remembering the rest of the needle after a match is right |
| Memmem.PreparedAperiodic | libcompat/memmem.c:130-134 | otherwise no period of the needle fits in either part, so the larger shift skips nothing |
| Memmem.SmallerRepetition | libcompat/memmem.c:130-134 | a period of the needle that fits in the right part forces the least period of the right part on all of it |
| Memmem.SkipRight | libcompat/memmem.c:150-154 | a mismatch in the right part excludes every offset up to the move |
| Memmem.SkipLeft | libcompat/memmem.c:155-161 | a full match of the right part excludes every offset below the shift |
| Memmem.Remembered | libcompat/memmem.c:155-161 | the remembered bytes match again after the shift |
| Memmem.SkipRemembered | libcompat/memmem.c:141-148 | with remembered bytes a wrong last byte excludes every offset up to `mem` |
| Memmem.SkipLastByte | libcompat/memmem.c:141-148 | the last-byte table never moves past an occurrence |
| Memmem.FillShiftTable | libcompat/memmem.c:80-84 | `byteset` holds the bytes of the needle and `shift` their last places |
| Memmem.ByLastByte | libcompat/memmem.c:140-148 | the move allowed by the byte under the end of the needle skips no occurrence |
| Memmem.CompareRight | libcompat/memmem.c:150-154 | the right part matches up to the first mismatch returned |
| Memmem.CompareLeft | libcompat/memmem.c:155-158 | once the right part matches, the comparison decides whether the offset is an occurrence |
| Memmem.Attempt | libcompat/memmem.c:137-161 | one round either finds an occurrence here or moves past offsets that are none |
| Memmem.TwoWay | libcompat/memmem.c:70-162 | for every haystack and nonempty needle: the smallest offset of an occurrence, or none |
| Memmem.WordsInjective | libcompat/memmem.c:31-58 | equal packed words mean equal bytes |
| Memmem.TwoByte | libcompat/memmem.c:31-37 | the sliding two-byte word finds the first occurrence |
| Memmem.ThreeByte | libcompat/memmem.c:40-47 | the sliding three-byte word finds the first occurrence |
| Memmem.FourByte | libcompat/memmem.c:50-58 | the sliding four-byte word finds the first occurrence |
| Memmem.Memmem | libcompat/memmem.c:164-186 | `memmem` returns the first occurrence for every haystack and needle, the empty needle included |
| Bits.BitOfMask | byacc/defs.h:51-60 | `1 << k` has bit `k` and no other |
| Bits.BitOfOr | byacc/defs.h:51-60 | the bits of an or are the union of the bits |
| Bits.SetBit | byacc/defs.h:51-60 | SETBIT adds one element to one row of the matrix and changes no other row |
| Bits.TestBit | byacc/defs.h:51-60 | BIT says whether the element is in the row |
| Bits.OrRow | byacc/warshall.c:25-49 | or-ing two rows makes the first their union and changes no other row |
| Warshall.ViaIsReachPlus | byacc/warshall.c:3-53 | walks with inner vertices below the pivot, with every pivot allowed, are exactly reachability |
| Warshall.TransitiveClosure | byacc/warshall.c:3-53 | the bit matrix ends as the exact transitive closure of what it was |
| Warshall.ReflexiveTransitiveClosure | byacc/warshall.c:55-82 | the bit matrix ends as the exact reflexive transitive closure |
| Grammars.SetDerives | byacc/lr0.c:479-507 | the list of each nonterminal holds exactly its rules, in order |
| Grammars.SetNullable | byacc/lr0.c:538-584 | the rounds end, and a symbol is marked exactly when the grammar derives the empty string from it |
| Grammars.VanishesInside | byacc/lr0.c:538-584 | only symbols of a set closed under the rules can derive the empty string |
| Grammars.DerivesReduce | byacc/skeleton.c:227-232 | putting a left side for its right side derives whatever was derived before |
| Grammars.DerivesContext | byacc/skeleton.c:211-275 | a derivation can be carried out in any context |
| Grammars.DerivesSplit | byacc/skeleton.c:152-180 | what two strings of symbols derive together splits into what each of them derives |
| Grammars.ItemSymbol | byacc/reader.c:1661-1717 | the encoding of a rule: inside it are symbols, its end is the negated rule number |
| Closures.SetEFF | byacc/closure.c:11-44 | row `v` of the matrix holds exactly the nonterminals reachable through leading symbols |
| Closures.SetFirstDerives | byacc/closure.c:47-99 | row `v` holds exactly the rules whose left side is so reachable |
| Closures.Closure | byacc/closure.c:102-168 | the merge loop returns, sorted and without repeats, exactly the nucleus and the start items it calls for |
| Closures.ClosureExpands | byacc/closure.c:102-168 | a closure holds the first item of every rule of a nonterminal after a dot |
| Closures.ClosureCalledFor | byacc/closure.c:102-168 | and nothing else: every item not in the nucleus was called for by an item of the closure |
| Closures.AscendingUnique | byacc/closure.c:102-168 | the sorted form of a closure is unique |
| LR0.NewItemsets | byacc/lr0.c:245-277 | the items after the dots are distributed over the symbols, each symbol met once |
| LR0.SortSymbols | byacc/lr0.c:84-102 | the symbols are sorted in place, with the same elements |
| LR0.GetState | byacc/lr0.c:154-214 | the state with the given kernel, found or new; kernels stay pairwise different |
| LR0.AppendStates | byacc/lr0.c:84-110 | every symbol gets the state with exactly its kernel, and every new state is a target |
| LR0.SaveReductions | byacc/lr0.c:430-476 | exactly the rules with a complete item in the closure, ascending |
| LR0.MovedIsGoto | byacc/lr0.c:245-277 | the items moved over a symbol are the kernel of the state entered on it |
| LR0.ProcessState | byacc/lr0.c:126-149 | one round of the worklist keeps everything processed so far |
| LR0.StatesBounded | byacc/lr0.c:126-149 | there are at most as many states as sets of items, so the worklist ends |
| LR0.GenerateStates | byacc/lr0.c:126-149 | the canonical LR(0) collection: sorted, pairwise different kernels, every state entered from an earlier one, every shift to the state of exactly the moved items, sorted by symbol |
| Automata.FollowRule | byacc/lalr.c:365-386 | from a state that starts a rule its symbols can be followed, with the dot moving along |
| Automata.FollowToReduction | byacc/lalr.c:365-386 | following the whole right side ends in a state that can reduce by the rule |
| Automata.LookBack | byacc/skeleton.c:229-230 | a state with the dot behind `d` symbols is only reached over exactly those symbols, from a state that starts the rule |
| Automata.ReduceIsSafe | byacc/skeleton.c:229-267 | a reduction never pops past the bottom, finds its right side on the stack, and its goto exists |
| Automata.NoAcceptReduction | byacc/lr0.c:256-262 | the end marker is never shifted, so rule 2 is never reduced |
| Automata.RuleTwoNotReduced | byacc/lr0.c:430-476 | so no state of the automaton lists rule 2 among its reductions |
| GotoMaps.SetGotoMap | byacc/lalr.c:165-229 | the counting sort numbers every nonterminal transition once, in blocks by symbol |
| GotoMaps.BlockAscending | byacc/lalr.c:165-229 | within a block the source states ascend strictly |
| GotoMaps.GotoIndexInjective | byacc/lalr.c:165-229 | different transitions have different numbers, inside the block of their symbol |
| GotoMaps.MapGoto | byacc/lalr.c:235-259 | the binary search ends with the number of the transition and never probes past the block |
| Digraphs.Digraph.Traverse | byacc/lalr.c:586-638 | the recursive visit keeps the invariant of the traversal: finished vertices have their full sets, the segment on the stack is one unfinished component |
| Digraphs.Digraph.Run | byacc/lalr.c:557-583 | every row ends as the union of the initial rows over all reachable vertices, and the stack is empty |
| Digraphs.FullIsSolution | byacc/lalr.c:557-638 | these unions solve the inclusions |
| Digraphs.FullIsLeast | byacc/lalr.c:557-638 | and no solution is smaller |
| Digraphs.ComponentFull | byacc/lalr.c:620-636 | all vertices of a component popped together have the same full set |
| Lalr.InitializeLA | byacc/lalr.c:125-162 | the reductions of each state are numbered in a row, in order |
| Lalr.InitializeF | byacc/lalr.c:263-337 | the rows are the direct reads closed under reading through nullable nonterminals, with the end marker on the first transition |
| Lalr.Transpose | byacc/lalr.c:460-520 | the transposed lists hold exactly the reversed edges |
| Lalr.BuildRelations | byacc/lalr.c:340-429 | exactly the includes edges over nullable suffixes, transposed, and exactly the lookback edges |
| Lalr.AddLookbackEdge | byacc/lalr.c:432-457 | the edge joins the list of the one reduction with that state and rule |
| Lalr.ComputeFollows | byacc/lalr.c:553-554 | the second traversal closes the rows under includes |
| Lalr.ComputeLookaheads | byacc/lalr.c:523-548 | the row of a reduction is the union of the rows it looks back to |
| Lalr.StepsSolve | byacc/lalr.c:37-53 | the computed sets satisfy the inclusions that define lookaheads |
| Lalr.StepsAreLeast | byacc/lalr.c:37-53 | every solution of the inclusions contains them |
| Lalr.Lookaheads | byacc/lalr.c:37-53 | the lookahead sets are the least solution of their defining inclusions |
| Mkpar.GetShifts | byacc/mkpar.c:51-84 | exactly the token shifts of the state, in order, each with the precedence and associativity of its token |
| Mkpar.AddReduce | byacc/mkpar.c:112-150 | the reduction is inserted in its place: ordered by token, shifts first, then by rule |
| Mkpar.AddReductions | byacc/mkpar.c:86-109 | exactly one action for every reduction and every token of its lookahead set is added |
| Mkpar.ParseActions | byacc/mkpar.c:39-48 | the list holds exactly the shifts and the reductions by lookahead, strictly ordered |
| Mkpar.FindFinalState | byacc/mkpar.c:152-167 | the state entered from state 0 on the goal |
| Mkpar.ResolveOne | byacc/mkpar.c:214-267 | one action compared with the preferred one: who is kept, marked as a conflict, or dropped by precedence |
| Mkpar.RemoveConflictsIn | byacc/mkpar.c:202-274 | every action ends with the mark that the whole list gives it, and the two conflicts are counted |
| Mkpar.AtMostOneKept | byacc/mkpar.c:202-274 | each token keeps at most one action in a state |
| Mkpar.CountsAddUp | byacc/mkpar.c:202-274 | the two counts together are the number of actions marked 1 |
| Mkpar.ReduceReduceKeepsLowest | byacc/mkpar.c:258-264 | between reductions alone the lowest rule is kept, all others are conflicts |
| Mkpar.ShiftReduceRule | byacc/mkpar.c:226-257 | a shift against one reduction is decided by the precedences in the list, with the conflicts counted as shift/reduce, as the yacc utility of POSIX.1-2017 (EXTENDED DESCRIPTION, Conflicts) has it |
| Mkpar.TokenLosesAll | byacc/mkpar.c:226-257 | a token loses every action if and only if precedence excludes its shift and no reduction beats it |
| Mkpar.SoleReduction | byacc/mkpar.c:297-323 | the default is the one rule all live actions reduce by; none if there is a live shift or a second rule |
| Mkpar.NoneDroppedIff | byacc/mkpar.c:202-274 | nothing is dropped from a list if and only if no two of its actions are on one token |
| Mkpar.NoConflictsNoneDropped | byacc/mkpar.c:202-274 | without precedences nothing is dropped in any state if and only if the two totals are 0 |
| Mkpar.MakeParser | byacc/mkpar.c:22-36 | all states get their resolved lists and defaults; each of the two totals counts the actions that lost to a shift, or to another reduction |
| Mkpar.LiveRules | byacc/mkpar.c:39-150 | every action in a finished list comes from a shift or a complete item of the state |
| Mkpar.ConflictByPrecedence | byacc/mkpar.c:51-274 | in the finished lists: where a state can shift a token and reduce by one rule on it, the declared precedences of the token and of the rule, and the associativity of the token, give both marks |
| Mkpar.ConflictByOrder | byacc/mkpar.c:86-274 | in the finished lists: on a token that the state does not shift, the lowest of the rules is kept and every other one is a conflict |
| Packing.SortActions | byacc/output.c:400-432 | every nonempty vector once, by falling width and then falling size |
| Packing.Packer.MatchingVector | byacc/output.c:497-534 | an earlier vector with the same contents, and the first row's search misses none |
| Packing.Packer.SearchPlace | byacc/output.c:537-612 | the search ends, with the least displacement of all integers that fits |
| Packing.Packer.PackVector | byacc/output.c:537-612 | first fit: not 0, not in use, all cells free; every vector packed before stays in place |
| Packing.Packer.PackTable | byacc/output.c:435-478 | all vectors are packed |
| Packing.ProbeFindsExactly | byacc/output.c:435-612 | probing a packed displacement with a key answers with exactly the entry of its own vector |
| Packing.StoredOK | byacc/output.c:590-612 | storing at a displacement that fits keeps every vector already packed |
| Packing.SharedOK | byacc/output.c:450-468 | sharing a displacement is right exactly because the contents are the same |
| Output.FillRow | byacc/output.c:205-243 | the scratch row holds the live shifts and the live reductions other than the default, with their numbers counted |
| Output.CopyCells | byacc/output.c:245-283 | the nonzero cells are copied out, keyed by token value |
| Output.RowVectors | byacc/output.c:205-287 | the two vectors of a state list exactly its live shifts and its live nondefault reductions |
| Output.DefaultGoto | byacc/output.c:321-354 | the target that most transitions on the nonterminal enter |
| Output.SaveColumn | byacc/output.c:357-398 | the column lists the other transitions, in order |
| Output.ColumnIsVector | byacc/output.c:357-398 | and so holds exactly the gotos that differ from the default |
| Output.GotoActions | byacc/output.c:289-318 | every nonterminal gets its default and its column |
| Output.PackVectors | byacc/output.c:400-612 | after packing, a probe through a vector's displacement answers exactly its entries |
| Output.OutputRuleData | byacc/output.c:103-143 | left sides as column numbers and the lengths of the right sides |
| Output.OutputTables | byacc/output.c:177-202 | the compressed tables mean the same as the action lists and the gotos |
| Output.DecideByToken | byacc/skeleton.c:107-146 | without a default the parser does exactly what the one live action on the token says, and fails if there is none |
| Output.DecideUnknown | byacc/skeleton.c:107-146 | a number that no token has is an error in such a state |
| Output.DefaultAgrees | byacc/skeleton.c:107-109 | a state with a default has no other live action, so the default agrees with the list |
| Output.GotoRefines | byacc/skeleton.c:259-263 | the lookup through `yygindex`, `yytable` and `yydgoto` gives the target of every goto |
| Parsers.GeneratedTablesSound | byacc/output.c:177-202 | the arrays are sound for the automaton whatever conflicts were resolved |
| Parsers.OnlyBottomIsStart | byacc/skeleton.c:233-234 | state 0 is at the bottom of the stack only |
| Parsers.Parser.ShiftToken | byacc/skeleton.c:123-140 | a shift pushes the state entered on the lookahead; the stack still spells a path |
| Parsers.Parser.ReduceBy | byacc/skeleton.c:211-275 | a reduction pops the right side and pushes the goto, or the final state and accepts at the end of the input |
| Parsers.Parser.Recover | byacc/skeleton.c:152-205 | the error is counted unless recovery is under way; the states above the topmost one that shifts `error` are dropped and `error` is pushed, or the lookahead is dropped; it gives up exactly when no state shifts `error`, or at the end of the input; it never accepts |
| Parsers.Parser.DropStates | byacc/skeleton.c:160-191 | the loop that drops states stops at the topmost one that shifts `error` |
| Parsers.RepairError | byacc/skeleton.c:160-191 | dropping states for `error`: what they had been reduced from is the text that this `error` stands for |
| Parsers.RepairDiscard | byacc/skeleton.c:192-210 | dropping the lookahead adds it to the text that the last `error` stands for |
| Parsers.NoErrorShifts | byacc/skeleton.c:160-162 | without a rule that mentions `error` no state shifts it |
| Parsers.Parser.Round | byacc/skeleton.c:107-275 | one round does what the tables decide: a shift, a reduction, or on an error the recovery, with the error counted and never accepted; it accepts only with the goal alone on the stack at the end of the input |
| Parsers.Parser.OneRound | byacc/skeleton.c:107-275 | while the tables choose the moves of a plan, a round makes the next one without an error or an overflow, or accepts |
| Parsers.Parser.Parse | byacc/skeleton.c:97-275 | in every run, with or without errors, acceptance means that only the goal is on the stack at the end of the input, and that a sentence was read once the stretches given up in recoveries are replaced by `error`; without rules for `error` the first error ends the run; an input whose plan the tables choose is accepted within as many rounds as the plan has moves |
| Trees.TreeDerives | byacc/skeleton.c:211-275 | a parse tree is a derivation of its leaves |
| Trees.SentenceTree | byacc/skeleton.c:211-275 | every sentence has a parse tree |
| Sentences.ForcedMoves | byacc/lalr.c:340-429 | a forced lookahead stays with the item when the dot moves over a symbol |
| Sentences.ForcedCalls | byacc/lalr.c:340-429 | what can follow a nonterminal after a dot is a forced lookahead of its rules |
| Sentences.Following | byacc/lalr.c:340-429 | what the next subtrees begin with can follow, and if they are empty the rest of the rule can be empty |
| Sentences.TreeLeads | byacc/lalr.c:37-53 | the shifts and reductions that build a subtree are all actions of the states they happen in, on the token that comes next |
| Sentences.SentenceLeads | byacc/lalr.c:37-53 | so a sentence can be read and reduced to the goal by actions of the automaton alone |
| Acceptance.LegalIsChosen | byacc/skeleton.c:107-150 | if no action was dropped, the arrays choose the action on the token, whether by default or by lookup |
| Acceptance.LeadsDrives | byacc/skeleton.c:107-150 | so they choose all the moves that lead to the goal |
| Acceptance.SentencesWithin | byacc/skeleton.c:97-275 | the token strings with a parse tree of some size are exactly the sentences |
| Acceptance.PrecedenceDecides | byacc/mkpar.c:51-274 | what the generated parser does where it can shift a token or reduce by one rule, in terms of the declarations alone: the higher precedence wins, equal ones are decided by the associativity, the shift wins if one of the two is not declared |
| Acceptance.LowestRuleDecides | byacc/mkpar.c:258-264 | where it cannot shift, the generated parser reduces by the lowest of the rules for the token |
| Byacc.Generate | byacc/main.c:374-379 | the pipeline: canonical collection, least lookaheads, resolved lists and tables that refine them |
| Byacc.GenerateAndParse | byacc/main.c:374-379 | for every grammar, lexer and run: the generated parser accepts without an error only sentences; with errors only what is a sentence once the stretches given up are replaced by `error`; without rules for `error` an error ends in yyabort with one error counted; every sentence within the rounds and the stack is accepted if no action was dropped |
| Firsts.FirstInside | eyacc/ey3.c:33-79 | sets closed under the rules contain every token that a derived string can begin with |
| Firsts.FirstSetsClosed | eyacc/ey3.c:33-79 | the first tokens are closed under the rules |
| Eyacc.CEmpty | eyacc/ey3.c:166-191 | the restarts end, and exactly the nonterminals that derive the empty string are marked |
| Eyacc.Union | eyacc/ey1.c:253-267 | the union, and whether it is more than the first set |
| Eyacc.CpFir | eyacc/ey3.c:33-79 | the rounds end, and every set holds exactly the tokens that the nonterminal can begin with |
| WorkingSets.WorkingSet.Lookahead | eyacc/ey3.c:311-324 | what follows the nonterminal in one item, with the item's own lookahead if the rest can be empty |
| WorkingSets.WorkingSet.Gather | eyacc/ey3.c:301-326 | the lookaheads of all waiting items with the same symbol after the dot are collected |
| WorkingSets.WorkingSet.AddItem | eyacc/ey3.c:336-358 | the start of a rule joins the working set, or its lookaheads grow and it waits again |
| WorkingSets.WorkingSet.Expand | eyacc/ey3.c:289-362 | one entry is expanded: all rules of its symbol have received what it passes on |
| WorkingSets.WorkingSet.Closure | eyacc/ey3.c:260-372 | the loop ends with the least sets of items and lookaheads that hold the kernel and serve every entry |
| WorkingSets.ClosureComplete | eyacc/ey3.c:260-372 | every item of the LR(0) closure is in the working set |
| Stagen.SortItems | eyacc/ey3.c:88-99 | the items are sorted with their lookaheads beside them |
| Stagen.Generator.FlSet | eyacc/ey3.c:382-406 | the number of the set, the one it has or a new one; no other set changes |
| Stagen.Generator.Merge | eyacc/ey3.c:116-125 | every item of an old state receives its lookaheads, and the state waits again if any set grew |
| Stagen.Generator.State | eyacc/ey3.c:81-141 | the state with the kernel is found or added, and has at least the lookaheads of the candidate |
| Stagen.Generator.Generate | eyacc/ey3.c:217-254 | a state is closed and all its items are moved on; the measure of what is left to do falls |
| Stagen.Generator.Run | eyacc/ey3.c:194-257 | the worklist ends; then every item of every closure has been moved into the state entered, with at least its lookaheads, and no lookahead is one that is not forced |
| Forcing.ClosureUnique | eyacc/ey3.c:260-372 | the least closure is unique |
| Forcing.StatesAreCanonical | eyacc/ey3.c:194-257 | the kernels are exactly those reachable by gotos from the start item |
| Forcing.ClosureIsForced | eyacc/ey3.c:194-372 | a token is in the set of a closure entry if and only if it is forced |
| Forcing.LookaheadIsForced | eyacc/ey3.c:194-257 | so it is for the kernel items of the final states |
| Forcing.ItemMoved | eyacc/ey3.c:230-240 | each closure item with a symbol after the dot is in the state entered, with at least the same lookaheads |
| Forcing.GenerateStates | eyacc/ey3.c:194-257 | cempty, cpfir and stagen together produce such states |
| Agreement.SpreadSolves | byacc/lalr.c:37-53 | every assignment that spreads gives a solution of byacc's inclusions |
| Agreement.SolutionSpreads | byacc/lalr.c:37-53 | every solution of the inclusions gives an assignment that spreads |
| Agreement.ReductionIsForced | byacc/lalr.c:37-53 | a token is in byacc's row for a reduction if and only if it is a forced lookahead of the complete item |
| Generators.SameKernels | eyacc/ey3.c:194-257 | the two generators have states with the same kernels |
| Generators.SameLookaheads | eyacc/ey3.c:260-372 | in states with the same kernel byacc's row for a reduction is eyacc's set for the complete item |
| Generators.ReductionHasEntry | eyacc/ey3.c:260-372 | and every reduction of byacc is such an entry |
| LineBuffers.UndoTwice | ex/ex_cmdsub.c:965-1039 | two undos restore the buffer and the saved lines, line by line |
| LineBuffers.UndoneUndoable | ex/ex_cmdsub.c:965-1039 | after undo there is again something that can be undone |
| LineBuffers.UndoPermutes | ex/ex_cmdsub.c:965-1039 | undo only changes the order of the lines up to `unddol` |
| LineBuffers.ReplacedThenUndo | ex/ex_cmdsub.c:965-1039 | if a block was replaced and saved, undo exchanges the two again |
| LineBuffers.DeleteThenUndo | ex/ex_cmdsub.c:110-168 | delete followed by undo gives back the lines |
| LineBuffers.AppendThenUndo | ex/ex_cmdsub.c:30-81 | append followed by undo gives back the lines, wherever the earlier undo information pointed |
| LineBuffers.ChangeThenUndo | ex/ex_cmds.c:257-258 | change followed by undo gives back the lines |
| LineBuffers.DeletedLinesAre | ex/ex_cmdsub.c:128-144 | what a delete leaves, what it saves and the current line, as parts of the lines before |
| LineBuffers.ChangedLinesAre | ex/ex_cmds.c:257-258 | what a delete and the append after it leave: the new lines between those before and those after |
| LineBuffers.MovedLinesAre | ex/ex_cmdsub.c:280-332 | where a move takes the lines, for both directions |
| LineBuffers.SaveThenUndo | ex/ex_subr.c:550-586 | undo gives back the lines saved, whatever was done to them in the meantime |
| LineBuffers.MoveThenUndo | ex/ex_cmdsub.c:940-964 | a move is undone by the move that undo computes, whichever way it went |
| LineBuffers.MovedUnmarked | ex/ex_cmdsub.c:286-291 | up to the global mark bit of the moved lines |
| LineBuffers.MoveUndoTwice | ex/ex_cmdsub.c:940-964 | undo of a move gives back the lines, and a second undo moves them again |
| LineBuffers.InverseCanMove | ex/ex_cmdsub.c:940-964 | the inverse of a legal move is legal, and its inverse is the move |
| LineBuffers.LineBuffer.Reverse | ex/ex_subr.c:535-547 | the stretch is turned around in place |
| LineBuffers.LineBuffer.Rotate | ex/ex_cmdsub.c:136-142 | three reversals exchange two neighbouring stretches |
| LineBuffers.LineBuffer.Squish | ex/ex_cmdsub.c:186-200 | the save area is emptied, everything else stays |
| LineBuffers.LineBuffer.ExDelete | ex/ex_cmdsub.c:110-168 | exactly the lines addressed leave the buffer and become the save area, and the current line is the next one, or the last; line 0 is refused |
| LineBuffers.LineBuffer.Append | ex/ex_cmdsub.c:30-71 | the lines are inserted in order behind the one addressed; when the array is full exactly as many of the first ones stay as there was room for |
| LineBuffers.LineBuffer.Delete | ex/ex_cmds.c:239-241 | the delete command takes out exactly the lines addressed and saves them, and undo gives them back |
| LineBuffers.LineBuffer.AppendCommand | ex/ex_cmds.c:174-177 | the append command adds the lines, as many as there is room for, and undo takes them out again |
| LineBuffers.LineBuffer.Change | ex/ex_cmds.c:257-258 | the change command puts the new lines in the place of those addressed, which are saved, and undo gives the old lines back |
| LineBuffers.LineBuffer.Save | ex/ex_subr.c:550-586 | a copy of the lines becomes the save area, or nothing is saved when there is no room |
| LineBuffers.LineBuffer.CopyW | ex/ex_subr.c:99-108 | upward copy, right when it moves down or the stretches are apart |
| LineBuffers.LineBuffer.CopyWR | ex/ex_subr.c:111-117 | downward copy, right when it moves up |
| LineBuffers.GlobalMovesThenUndo | ex/ex_cmdsub.c:280-332 | one undo takes back all the moves that a global command makes |
| LineBuffers.LineBuffer.Move1 | ex/ex_cmdsub.c:280-332 | the block goes behind the target line, whichever way, and the current line is the last one moved; the two illegal targets are refused with their messages; inside a global command a move to its own place is none, and undo is left alone |
| LineBuffers.LineBuffer.SomeChange | ex/ex_cmdsub.c:1056-1086 | exactly when there is nothing to undo, and the message |
| LineBuffers.LineBuffer.UndoChange | ex/ex_cmdsub.c:965-1039 | the array program computes the exchange of blocks |
| LineBuffers.LineBuffer.UndoMove | ex/ex_cmdsub.c:940-964 | the array program computes the inverse move |
| LineBuffers.LineBuffer.Undo | ex/ex_cmdsub.c:922-1050 | undo does one of the two, and can be done again |
| TempFiles.ReadMissKeeps | ex/ex_temp.c:250-296 | replacing a read buffer, written back if changed, leaves every block as it was |
| TempFiles.WriteMissKeeps | ex/ex_temp.c:297-316 | taking a block for writing without reading it keeps it if and only if the buffer held its contents |
| TempFiles.StoredKeeps | ex/ex_temp.c:194-203 | a byte stored through a buffer changes that byte of the flat file only |
| TempFiles.LinesKept | ex/ex_temp.c:148-208 | what does not touch the bytes below the frontier keeps every line |
| TempFiles.LineAdded | ex/ex_temp.c:181-208 | a line at the frontier joins the others and overlaps none |
| TempFiles.NewFrontier | ex/ex_temp.c:204-208 | the next frontier is a multiple of eight bytes after the line |
| TempFiles.LineKeptExactly | ex/ex_temp.c:181-316 | a stored line outlives the next put if and only if its block is found or the write buffer holds the same bytes |
| TempFiles.KeptExactly | ex/ex_temp.c:181-316 | all stored lines outlive the next put if and only if none is harmed |
| TempFiles.LinesLostAfterFull | ex/ex_temp.c:297-316 | a run of puts, starting with an empty file, that loses a stored line after the file was full |
| TempFiles.TempFile.GetBlock | ex/ex_temp.c:211-317 | the block is in the buffer returned and the flat file is unchanged, apart from a block taken for writing; past the end it fails and changes nothing |
| TempFiles.TempFile.ReadInto | ex/ex_temp.c:250-296 | a read miss keeps the cache coherent |
| TempFiles.TempFile.WriteInto | ex/ex_temp.c:297-316 | a write miss keeps the cache coherent |
| TempFiles.TempFile.GetLine | ex/ex_temp.c:148-163 | the text stored under the pointer, whatever its mark bit |
| TempFiles.TempFile.PutLine | ex/ex_temp.c:181-208 | the text up to the newline is stored under a new pointer; it fails exactly when the file is full; in every state the earlier lines are kept if and only if `KeepsLines` held before |
| TempFiles.TempFile.Run | ex/ex_temp.c:148-317 | line permanence over every run of puts and gets, also past a full file, up to a line that would begin inside a block in no buffer; without a full file there is none |
| Registers.RegisterFile.RegBlk | ex/ex_temp.c:531-554 | the lowest free block is taken, or the bitmap is full |
| Registers.RegisterFile.KillReg | ex/ex_temp.c:566-585 | the register is emptied and exactly its blocks are freed |
| Registers.RegisterFile.KShift | ex/ex_temp.c:724-732 | the numbered registers move up, and the chains stay apart |
| Registers.RegisterFile.NewBlock | ex/ex_temp.c:734-759 | a full block is linked to a free one and goes on file |
| Registers.RegisterFile.YankLine | ex/ex_temp.c:734-759 | the line and its newline are added, across block boundaries |
| Registers.RegisterFile.YankReg | ex/ex_temp.c:685-722 | the lines are added to the register, alone or after what it had; it succeeds if and only if the blocks that all registers then need are there; after a failure the bookkeeping survives if and only if all blocks were in use to begin with |
| Registers.RegisterFile.GetREG | ex/ex_temp.c:659-683 | the next whole line of the register, or its end |
| Registers.RegisterFile.PutReg | ex/ex_temp.c:602-640 | reading to the end gives exactly the lines yanked, in order |
| Registers.ChainUnique | ex/ex_temp.c:557-585 | a register on file has one chain only |
| Registers.RegisterFile.Run | ex/ex_temp.c:557-759 | a run of yanks, kills and puts, up to the first that finds no room, answers as a map from registers to lines would; chains stay apart and without cycles and the bitmap exact |
| Registers.LastNine | ex/ex_temp.c:724-732 | the numbered registers hold the last nine texts yanked to `1`, newest first, and behind them what they had before |
| Registers.NamesApart | ex/ex_temp.c:557-565 | a small letter and its capital name one register, different small letters and digits different ones |
| Registers.LetterStep | ex/ex_temp.c:685-722 | a yank under the small letter replaces what the register held, one under the capital adds to it, and no command about another name touches it |
| Registers.LetterUntouched | ex/ex_temp.c:685-722 | so a run without commands about a lettered register leaves it as it was |
| Registers.LastYankAnswers | ex/ex_temp.c:602-722 | after a run, a put of a small letter answers the lines of the last yank under it, followed by those of all later yanks under its capital |
| Registers.NumberedYank | ex/ex_temp.c:685-732 | a yank under a digit moves the numbered registers up by one and adds its lines to what came to stand there |
| Registers.AllBlocks | ex/ex_temp.c:531-554 | the registers never need more blocks than there are, and all of them exactly when none is free |
| Registers.OutOfBlocks | ex/ex_temp.c:734-759 | a yank that finds no free block would have needed one too many |
| Registers.ShiftedRegs | ex/ex_vmain.c:116-123 | why `0` is no register name: the shift keeps the chains apart if and only if that register is empty |
| Registers.SharedChain | ex/ex_vmain.c:116-123 | otherwise two registers would have the same first block, which fits no bookkeeping |
| Registers.YankFailed | ex/ex_temp.c:685-722 | when a yank that ran out of blocks leaves a consistent file |
| Registers.Leak | ex/ex_temp.c:734-759 | otherwise a block is marked as taken that no register leads to |
| Regex.CClass | ex/ex_re.c:929-951 | membership in the class, with ranges, negation and case |
| Regex.Matcher.Advance | ex/ex_re.c:819-927 | succeeds exactly when the program can match here, with the greediest counts, its end and its parentheses |
| Regex.Matcher.AdvanceStar | ex/ex_re.c:881-908 | the repeated codes: the longest run that lets the rest match |
| Regex.Matcher.TakeRun | ex/ex_re.c:881-898 | the longest run of accepted characters |
| Regex.Matcher.Execute | ex/ex_re.c:770-815 | for every way to write the program as pieces of a regular expression: it succeeds exactly when they fit somewhere, one after another; the place is the leftmost, every piece in turn takes as much as it can, and the parentheses record where their last pair stood; so a search for a word finds the first place where it stands alone, and one for characters at the end of the line finds them there |
| Regex.Matcher.Search | ex/ex_re.c:770-815 | the loops of the search: the leftmost start that matches, the greediest counts, their end and their parentheses |
| Regex.MatchesPlaced | ex/ex_re.c:819-927 | matching by codes is fitting the pieces that the program stands for |
| Regex.ClassMeans | ex/ex_re.c:929-951 | membership in a class read from its codes is membership in one of its characters or ranges |
| Regex.MarkedCuts | ex/ex_re.c:873-879 | a parenthesis records the place of its last occurrence among the pieces |
| Regex.SearchAnswers | ex/ex_re.c:770-815 | the answer of a search by codes is the first place of the pieces |
| Regex.WordFound | ex/ex_re.c:912-922 | `\<word\>` is found at the first place where the word stands with no letter, digit or underscore before or after it |
| Regex.EndFound | ex/ex_re.c:850-853 | characters followed by `$` are found exactly if the line ends with them |
| Regex.BetweenFound | ex/ex_re.c:881-908 | `u.*v` is found from the first `u` with a `v` behind it to the last such `v` |
| Regex.ParenFound | ex/ex_re.c:873-879 | `u\(v\)x` records exactly where `v` stands |
| Regex.MatchEnd | ex/ex_re.c:819-927 | the counts determine the end |
| Regex.GreediestUnique | ex/ex_re.c:819-927 | the greediest choice is unique |
| Regex.MarksForgotten | ex/ex_re.c:873-879 | what a failed attempt left in the marks does not matter |
| Regex.FastCheck | ex/ex_re.c:795-805 | the first-character test skips only places where nothing matches |

## Left out

- Text handling in byacc: lexing, copying of actions and of the union, `#line` output, name and debug tables, the listing, messages and options.
- The capacity of C `short`, of the fixed tables and of `edge`, and the exits when memory runs out; sequences grow instead.
- The blocks that hold the kernel items of new item sets, the linked shift, reduction, lookback and action lists: they are sequences, so sharing and freeing are not modelled.
- `check` past `maxtable`: those cells count as free, and the limit MAXTABLE is not modelled.
- Parsers.Parser.Parse: takes a bound on the number of rounds, because the loop of the source need not end, even on a finite input: a grammar with a rule `a : a` whose conflict is resolved in favour of that rule reduces by it for ever. Only for a sentence, with no action dropped, is the end promised.
- Byacc.GenerateAndParse: accepting every sentence is promised only if no action was dropped; a grammar with resolved conflicts may still accept all its sentences, and whether it does is not decided.
- Semantic values, user actions and debugging output of the driver.
- Token values are taken as different from each other, as the tables need.
- The flags for partial lines in registers, and moving between registers and visual mode.
- Undo of `put`, macros and the visual-mode save areas; the copy command; marking and running the lines of a global command.
- Text of lines in `LineBuffers`: a line is its pointer.
- Layouts of the temporary file other than the one with 512-byte blocks, disk errors, encryption, recovery headers and blocks kept in memory.
- `compile` of regular expressions: programs are taken as compiled; repeated matching on one line.
- `unused_rules` and the printing of totals.
- eyacc: its reader and output, the packed goto tables (`apack`, `indgo`), the mode without lookaheads, conflict resolution, and the fixed sizes of its tables; the lists of `cpres` are taken as given, lookahead sets are sets and not words, and symbols and productions are numbered as in byacc.
- Everything in the other directories.
