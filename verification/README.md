# Tavor: token graphs, strategies and transformations

Tavor describes a data format as a graph of tokens. Fuzzing enumerates the states of the graph, reducing
shrinks them, parsing finds the state that prints a given input, and several transformations rewrite the
graph itself. This project models that machinery and proves what it promises. `dafny verify dfyconfig.toml`
checks everything.

How the state of the program is represented:

- **Token graphs** (`TokenGraph.dfy`): a store from references to nodes, so that sharing, pointers and edits
  in place are visible. Used by `UnrollPointers`, `MinimizeTokens` and `LoopExists`. What a token can print
  is a relation with finite derivations, so cyclic grammars have words too.
- **Token trees with a mutable state** (`Grammar.dfy`, `TokenStore.dfy`, `ReductionTree.dfy`): a token object is named
  by its place in the tree, and a store keeps what was last set there. Used by the exhaustive strategy, the
  parser and the linear reducer. `Language.dfy` says which words such a format has.
- **Objects** (`Repeat.dfy`, `Once.dfy`, `Scopes.dfy`, `Sequence.dfy`, `UniqueItem.dfy`): classes with the fields that
  the program updates.

Results, by area:

- **Exhaustive enumeration** (`Configurations.dfy`, `AllPermutations.dfy`, `Counting.dfy`). A configuration is a
  permutation index at each active token; its rank is its value in a mixed radix whose digits depend on the
  slower digits. `Step` (the mode that advances by one) moves to rank + 1 or reports the last rank, `Emit` hands
  over ranks 0, 1, 2, ..., and `PermutationsAll` is the number of ranks. So a run shows every configuration
  exactly once, and closing the channel leaves a prefix. What a configuration is, how many there are and in which
  order they come is also said without permutations and ranks (`IsState`, `States`, `ConfigBefore`).
- **Unranking** (`Combinations.dfy`, `Repeat.dfy`, `Once.dfy`). The in-place generator of combinations produces the
  reference list, `Repeat.Reduce` is a bijection onto the choices of at least `from` items, and the factorial
  number system of `Once` is a lexicographic bijection onto the permutations.
- **Unrolling** (the `Unroll*.dfy` files). `UnrollMachine.dfy` is the worklist as a deterministic machine, which the
  methods of `Unroll.dfy` run. The invariant has seven groups (shape, sources, sizes, originals, worklist,
  reachability, counts); every step keeps it, and a lexicographic measure falls. On top of it, tokens that last have
  heights (`UnrollLasting.dfy`, `UnrollMarks.dfy`), and what was visited looks like a tree that is defined by recursion
  on the original graph (`UnrollSpec.dfy`, `UnrollFaith.dfy`). So the end of every run is fixed, and of a result it is
  known which words it prints (`UnrollWords.dfy`, `UnrollBounded.dfy`), that it has no pointers, how many expansions
  and how many copies of a token a path has (`UnrollResult.dfy`, `UnrollDefinitions.dfy`), and when the root is cut off
  (`UnrollTrees.dfy`). `UnrollExamples.dfy` has the graphs on which more than this would be false, with the runs.
- **Nothing is lost** (`UnrollTrace.dfy`, `UnrollGrowth.dfy`, `UnrollLoss.dfy`, `UnrollCover.dfy`, `UnrollKeeps.dfy`). A
  second invariant of the machine holds on every graph, also where pointers lead into the tree of the root, as they do
  in a recursive format. Each token has what is left of its source below the expansions above it, counting also those
  that were copied along; the code counts no more than that, and less is left below more. So every word that can be
  derived with at most `MaxRepeat` expansions of an original on a path is printed by the result, and the root is cut
  off only if there is no such word (`UnrollExamples.RecursiveWordsKept` is about such a format).
- **Unrolling, then minimising** (`Pipeline.dfy`), as the format parser ends.
- **Minimising** (`MinimizeWords.dfy`, `MinimizeShape.dfy`, `Minimize.dfy`): no word of any token is lost or added,
  and the result is the tree without the tokens that only pass on their one child.
- **Reducing** (`ReductionTree.dfy`, `Linear.dfy`): a dialogue over an arbitrary sequence of answers; what every offer
  shows, and which tokens are searched.
- **Parsing** (`ParseMatch.dfy`, `Parse.dfy`): an input is accepted exactly if it has a reading in which nothing that
  comes first is passed by; accepted inputs are printed back and are words of the format, and if the next character
  decides every choice, all words are accepted.
- **Scopes** (`ScopeRules.dfy`, `ScopePaths.dfy`, `Scopes.dfy`): every use is bound to the last definition before it
  all of whose scopes it is in.
- **Queries, loops, pickers** (`PathQuery.dfy`, `LoopExists.dfy`, `Sequence.dfy`, `UniqueItem.dfy`).

Where the code does something else than its comments say, the model follows the code:

- `LoopExists` "determines if a cycle exists"; it also answers yes when a pointer leads to a token that was met before
  on another way. `LoopDetection.YesMeans` says that these are exactly the two reasons for a yes, so a yes is right
  about cycles wherever the second one does not occur; `FindsMoreThanCycles` has a graph on which it is wrong. Which of
  two ways comes first is the order of the children, so the second reason depends on that order.
- `UnrollPointers` compares the counter of an original with `MaxRepeat` only from its second expansion on, so
  with `MaxRepeat` 0 there is one expansion (`UnrollExamples.ZeroExpandsOnce`). The bound proved is max(1, `MaxRepeat`).
  The command line takes no value below 1 (cmd/tavor/main.go:267); a program that sets the variable itself can use 0.
- Only the roots of expansions are counted. A token of the root's tree that is cloned at its first use takes along the
  expansions that were already put below it, and those copies are not counted: with `MaxRepeat` 1 a path can have a
  token twice (`UnrollExamples.MoreCopiesThanExpansions`). If every pointer leads to the root of a definition, and none
  to that of the whole format, copies are bounded, too (`UnrollDefinitions.NoMoreCopies`).
- For the same reason a clone can have an unset pointer, on which the code panics: the outcome `NilPointer`. That all
  pointers are set and all tokens print some word does not exclude it (`UnrollExamples.SetPointersAreNotEnough`). With
  all pointers set it is excluded if every token lasts (by a finite argument, none needs itself, even where it could
  print nothing), or if nothing leads into the tree of the root. No condition that ignores the order of alternatives
  is exact: with two alternatives of that graph exchanged there is no panic, and the root is cut off
  (`UnrollExamples.OrderDecides`).
- `Concatenation.InternalLogicalRemove` goes on behind the token that moved up. That only matters for a token that is
  part of a concatenation twice in a row, and then a pointer can be left (`UnrollExamples.SharingLeavesAPointer`).
- The same loop treats every Repeat as optional, also one with a minimum above 0, which can add words: a format without
  any word gets the empty one (`UnrollExamples.ForcedRepeatAddsWord`). No word is added to a graph in which what may be
  dropped from a concatenation can print nothing.
- An optional token that is no part of a concatenation is taken away with what it is made of, so its empty word goes,
  too (`UnrollExamples.SkippedWordLost`). A word within the limit is therefore one whose derivation has something for
  each token it needs, printed or not. If optional tokens are parts of concatenations, that makes no difference
  (`UnrollBounded.TightWords`).
- `Scope.Minimize` looks at its token before that is minimised, so a Scope around a Concatenation of one Scope stays.
- `Sequence.existing` does not look at how many values were issued when there is no except list.
  `Sequences.UncheckedIsIssued` says exactly when its answer is right.
- `CharacterClass.Parse` reads a byte and `String` prints it UTF-8 encoded. `Parsing.OnlyAsciiPrintsBack` says exactly
  which characters survive that, so an input is printed back if it is ASCII, or if the classes of the format are.

## Model

| member | source | states |
|---|---|---|
| Combinations.Generate | token/lists/repeat.go:272-374 | The generator ends, and what is received up to the cancellation is the front of the list of all increasing k-sequences over 0..n-1 |
| Combinations.Advance | token/lists/repeat.go:303-338 | One round moves the array in place to the successor (pivot raised, rest reset), or ends exactly when every position is at its maximum |
| Combinations.Settle | token/lists/repeat.go:339-366 | After each reset the last entry is at most n; while it equals n an earlier position is raised; the result is the successor or the end |
| Combinations.CombosExactlyOnce | token/lists/repeat.go:272-374 | The reference list holds every strictly increasing k-sequence over 0..n-1 exactly once, in strict lexicographic order |
| Combinations.CombosNext | token/lists/repeat.go:303-366 | Neighbours in the reference list are successors in the sense of the generator |
| Repeats.Factorial | token/lists/repeat.go:438-448 | The loop computes n! for n >= 1 |
| Repeats.ReduceCounts | token/lists/repeat.go:450-477 | The quotients of factorials are exact, and entry j is the number of choices of from + j items |
| Repeats.Repeat.Reduces | token/lists/repeat.go:480-492 | The number of reductions, and 0 for a Repeat that holds no more than its minimum and was not reduced |
| Repeats.Repeat.Reduce | token/lists/repeat.go:376-436 | Out of bounds nothing changes; otherwise the value becomes the items of the original value that reduction i of the reference list keeps |
| Repeats.Repeat.Pick | token/lists/repeat.go:413-433 | Receiving combinations up to the wanted one and cancelling yields the items at exactly those positions |
| Repeats.ReduceIsABijection | token/lists/repeat.go:376-492 | Indices and choices of at least `from` positions correspond one to one, sizes never fall with the index, choices of one size are in lexicographic order, the last index keeps everything, and for from = 0 there are 2^n indices |
| Repeats.ReductionsOrdered | token/lists/repeat.go:395-433 | A larger index never keeps fewer items, and among choices of one size a lexicographically larger one |
| Onces.Once.Permutation | token/lists/once.go:56-97 | Out of bounds nothing changes; otherwise the values become the unranking of the index |
| Onces.Once.Arrange | token/lists/once.go:56-82 | The loop that takes quotients by shrinking factorials computes the unranking |
| Onces.Once.Permutations | token/lists/once.go:100-108 | The product loop computes n! |
| Onces.PermutationIsABijection | token/lists/once.go:56-97 | Unranking maps 0..n!-1 one to one and in strict lexicographic order onto the permutations of 0..n-1, with 0 the identity |
| Onces.UnrankLex | token/lists/once.go:56-82 | A smaller index gives a lexicographically smaller permutation |
| Onces.UnrankHits | token/lists/once.go:56-82 | Every permutation has an index |
| Onces.Once.InternalLogicalRemove | token/lists/once.go:164-187 | All occurrences of the token go, the values stay a permutation of the remaining positions, and the order in which the others are shown stays |
| Onces.Once.RemoveAt | token/lists/once.go:168-178 | Removing one value and its token renumbers the others so that they show the same tokens in the same order |
| Grammars.PermutationsInOrder | token/lists/once.go:56-82 | The arrangements that a Once shows at its permutations are in lexicographic order |
| Configurations.ValidIsState | fuzz/strategy/allpermutations.go:59-173 | The configurations are the states, token by token: one alternative, all tokens of a Once arranged, nothing or the token of an Optional, between from and to items of a Repeat |
| Configurations.RankOrders | fuzz/strategy/allpermutations.go:59-173 | The rank follows the order in which a token's own permutation counts most, and then what it shows last |
| Configurations.RankBound | fuzz/strategy/allpermutations.go:59-173 | The rank of a configuration is below the number of configurations |
| Configurations.RankInjective | fuzz/strategy/allpermutations.go:59-173 | Different configurations of a token have different ranks |
| Configurations.RankCarryAt | fuzz/strategy/allpermutations.go:108-160 | Raising sibling i by one and resetting everything to its left raises the rank of the siblings by one |
| AllPermutations.Strategy.GetTree | fuzz/strategy/allpermutations.go:197-229 | The levels of the active children, each set to its first configuration, which is the one of rank 0 |
| AllPermutations.Strategy.ResetLeft | fuzz/strategy/allpermutations.go:123-127 | Everything to the left of a sibling is back at rank 0, and nothing else changes |
| AllPermutations.Strategy.Carry | fuzz/strategy/allpermutations.go:106-161 | After the first sibling overflowed: the siblings behind it move to their next rank and the first one to rank 0, or all of them are last and nothing changes |
| AllPermutations.Strategy.Step | fuzz/strategy/allpermutations.go:59-173 | With justastep nothing is emitted: the siblings move to the configuration of the next rank, or this is reported as impossible exactly at the last rank |
| AllPermutations.Strategy.Emit | fuzz/strategy/allpermutations.go:59-173 | Without justastep: the configurations of the siblings are emitted in the order of their ranks, all of them or as many as the consumer takes |
| AllPermutations.Strategy.Run | fuzz/strategy/allpermutations.go:38-57 | A run emits the configurations of rank 0, 1, 2, ..., which are states of the format in their order; their number is the closed form of all states, or the emission at which the channel was closed |
| AllPermutations.EveryConfigurationOnce | fuzz/strategy/allpermutations.go:24-57 | A complete run shows each state of the format at exactly one emission |
| AllPermutations.ShortRunIsPrefix | fuzz/strategy/allpermutations.go:175-195 | A run that the consumer ends shows exactly what a complete run shows first |
| Counting.PermutationsAll | token/lists/concatenation.go:77-85 | PermutationsAll of every token is the number of its configurations, in closed form |
| Counting.CountIsStates | token/lists/one.go:87-96 | The number of configurations by kind of token: products, sums, n! times the product, one more for an Optional, the powers from `from` to `to` for a Repeat |
| Counting.OncePermutationsAll | token/lists/once.go:111-119 | n! times the product of the children is the number of configurations of a Once |
| Counting.RepeatPermutationsAll | token/lists/repeat.go:163-179 | The loop computes the sum of the powers from `from` to `to`, also with the separate case for 0 items, and that is the number of configurations of a Repeat |
| UnrollWords.Sound | token/transform.go:131-337 | Whatever a token of a graph in step with the original prints, the original token it comes from prints, if what may be dropped from a concatenation can print nothing |
| UnrollWords.WordsKept | token/transform.go:131-337 | Under that condition, words of a graph in step with the original are words of the original |
| UnrollWords.UnforcedDropsAreFree | token/lists/concatenation.go:126-148 | The condition holds if no Repeat insists on an item |
| UnrollWords.SimulatesReplace | token/lists/concatenation.go:151-159 | Replacing a child by a token that may stand wherever it stands keeps the graphs in step |
| UnrollWords.SimulatesDrop | token/lists/concatenation.go:126-148 | So does dropping a token of an optional type from a Concatenation |
| UnrollWords.SimulatesFewer | token/lists/one.go:133-162 | So does dropping alternatives of a One |
| UnrollCopy.CopyRoot | token/lists/concatenation.go:28-38 | A clone is a fresh tree of copies, one for each token below, with pointers shared |
| UnrollMachine.CloneOfCopies | token/lists/concatenation.go:28-38 | What recursive cloning builds is a fresh copy of everything at and below the token, in a numbered order |
| UnrollMachine.EndsOnce | token/transform.go:108-337 | A run of the worklist has only one end: one outcome, and one final graph |
| UnrollFresh.CopiesKeep | token/transform.go:192-199 | Cloning keeps the invariant of the unrolling |
| UnrollSteps.VisitKeeps | token/transform.go:315-336 | Going on to the children of a token keeps the invariant |
| UnrollLink.RegisterKeeps | token/transform.go:185-193 | Registering a new original keeps the invariant |
| UnrollLink.LinkKeeps | token/transform.go:196-239 | Putting a clone in the place of a pointer keeps the invariant |
| UnrollCut.ClimbKeeps | token/transform.go:272-312 | Going up with a cut keeps the invariant, with the removed child still to be taken out of the next token |
| UnrollMeasure.VisitLighter | token/transform.go:108-129 | Visiting a token makes the worklist lighter |
| UnrollMeasure.LinkLighter | token/transform.go:177-208 | An expansion weighs less than the pointer it replaces, because its path has one expansion less to go |
| UnrollRemoval.RemovalKeeps | token/lists/one.go:133-162 | The removal leaves fewer children, not the removed one, and no new words |
| Unroll.Unroller.InternalLogicalRemove | token/lists/concatenation.go:126-148 | The loops of Concatenation (which goes on behind the token that moved up) and One and the tests of the forward tokens compute the specified removal, and whether the token is still of use |
| Unroll.Unroller.Clone | token/lists/concatenation.go:28-38 | The recursive clone builds what UnrollMachine.CloneOf specifies; by CloneOfCopies that is a fresh copy |
| Unroll.Unroller.Chase | token/transform.go:131-176 | The loop over pointers finds what a pointer leads to: nothing, a circle of pointers, or a token that is no pointer |
| Unroll.Unroller.Choose | token/transform.go:177-195 | A registered original is expanded exactly if its counter is below MaxRepeat; a new one is registered and expanded |
| Unroll.Unroller.Expand | token/transform.go:196-239 | The pointer and its parent refer to a clone of the original, which comes next with a raised counter, and the search for loops starts again |
| Unroll.Unroller.Cut | token/transform.go:240-313 | The pointer is unset and removed from its parent, with every parent that is of no use without it |
| Unroll.Unroller.Unpoint | token/transform.go:131-313 | A pointer is expanded or cut off as described, and fails exactly if a pointer on the way is unset |
| Unroll.Unroller.Take | token/transform.go:108-336 | One entry of the worklist is one step of the machine; it never reports a loop without pointers, and stops on an unset pointer only |
| UnrollRun.RunsNext | token/transform.go:108-336 | Every step keeps the invariant with all its promises, and makes less to do |
| UnrollRun.RunsStop | token/transform.go:131-160 | An unset pointer is met only if it was not promised that there is none |
| Unroll.Unroller.Run | token/transform.go:108-337 | The steps end, with an empty worklist and the invariant, or on an unset pointer that was not excluded |
| Unroll.UnrollPointers | token/transform.go:76-337 | The unrolling ends as the machine does. A result comes from the original and prints only its words (if drops are free); unless a cut went past the root, it is a tree without pointers whose paths have at most max(1, MaxRepeat) expansions (clones registered for an original). On every graph a result prints all words within MaxRepeat, and a cut goes past the root only if nothing is left of it within MaxRepeat. For MaxRepeat >= 1: a root that lasts is not cut off; there is a result if all pointers are set and every token lasts or nothing leads into the tree of the root; in the latter case the result is exactly the specified tree, a cut goes past the root exactly if that tree is empty, and if no Repeat insists on an item the words are exactly those within MaxRepeat |
| UnrollResult.UnrolledWords | token/transform.go:131-337 | What the invariant says about words when nothing waits |
| UnrollResult.UnrolledPaths | token/transform.go:177-208 | What the invariant says about pointers and expansions on every path when nothing waits |
| UnrollResult.UnrolledTree | token/transform.go:131-337 | What is reached in the result is a tree without pointers |
| UnrollFaith.LiveLooks | token/transform.go:131-337 | Where nothing leads into the tree of the root: every visited token that was not cut off looks like the tree its source unfolds into below its counts |
| UnrollPromises.PromiseKept | token/transform.go:131-337 | When nothing waits, a root that lasts is there, and where nothing leads into its tree, the result is what the root unfolds into |
| UnrollTrees.LastingUnfolds | token/transform.go:240-313 | Something is left of a token that lasts, unless an original as low is used up |
| UnrollTrees.UnfoldedLasts | token/transform.go:240-313 | Of a token that does not last, even loosely, nothing is left |
| UnrollTrees.TakenAway | token/transform.go:286-312 | A cut goes past the root only if the root does not last, and exactly then unless a pointer leads to an optional token |
| UnrollTraces.MoreLeft | token/transform.go:177-195 | What is left of a token below some expansions is also left below fewer |
| UnrollTraces.HoldsCopied | token/lists/concatenation.go:28-38 | A copy of a token, also of one that was cut, has all that is left of its source below the expansions of both |
| UnrollGrowth.ExpandCovers | token/transform.go:192-239 | An expansion keeps it that every token has what is left of its source |
| UnrollLoss.ClimbCovers | token/transform.go:272-312 | A cut takes away only tokens of which nothing is left, and goes past the root only if nothing is left of it |
| UnrollCover.NextCovers | token/transform.go:108-336 | So does every step of the machine, on every graph |
| UnrollKeeps.WithinPrints | token/transform.go:177-208 | At the end each token prints every word that its source prints within the limit, below the expansions above it |
| UnrollKeeps.CoversLosesNothing | token/transform.go:76-337 | At the end every word within the limit is printed, and the root was cut off only if it has none |
| UnrollBounded.LeftPrints | token/transform.go:177-208 | Everything of which something is left prints some word within the limit, if no Repeat insists on an item |
| UnrollBounded.PrintedIsWithin | token/transform.go:177-208 | Under that condition, what looks like the specified tree prints only words within the limit |
| UnrollBounded.ExactWords | token/transform.go:76-337 | Under that condition, a result that is the specified tree and loses nothing has exactly the words within the limit |
| UnrollBounded.TightWords | token/lists/one.go:133-162 | If optional tokens are parts of concatenations, a word that skips any of them is within the limit as well |
| UnrollDefinitions.CopiesBounded | token/transform.go:177-208 | On every path a token is copied at most once for each expansion of its definition |
| UnrollDefinitions.NoMoreCopies | token/transform.go:177-208 | If pointers lead to definitions only, no path has more than MaxRepeat copies of any token |
| UnrollExamples.SetPointersAreNotEnough | token/transform.go:185-193 | A graph with all pointers set, whose tokens all print a word, on which the unrolling meets an unset pointer |
| UnrollExamples.OrderDecides | token/transform.go:185-193 | On the same graph with two alternatives exchanged the unrolling ends, with the root cut off |
| UnrollExamples.SharingLeavesAPointer | token/lists/concatenation.go:126-148 | With a pointer that is part of a concatenation twice, a result still reaches a pointer |
| UnrollExamples.MoreCopiesThanExpansions | token/transform.go:185-208 | With MaxRepeat 1, a path with two copies of a token and one expansion of it |
| UnrollExamples.ZeroExpandsOnce | token/transform.go:177-195 | With MaxRepeat 0 an original is expanded once |
| UnrollExamples.SkippedWordLost | token/lists/one.go:133-162 | The empty word of an optional alternative is lost with the alternative |
| UnrollExamples.RecursiveWordsKept | doc/format.md:191-200 | Like the documented loop without the empty word: START = A, A = "a" A or "b", where the pointer leads into the tree of the root: a result prints each word of up to MaxRepeat expansions |
| UnrollExamples.ForcedRepeatAddsWord | token/lists/concatenation.go:126-148 | A run on a grammar without words, whose result prints the empty word: a Repeat with a minimum of 1 is taken from a Concatenation; the condition on drops fails there |
| MinimizeWords.BypassKeepsWords | token/transform.go:34-52 | Putting the one child of a token in its place in one parent changes the words of no token |
| MinimizeWords.PassesSameWords | token/lists/concatenation.go:164-170 | A Concatenation or One of one child, and a Scope, print what the child prints |
| MinimizeShapes.ReachedBecomes | token/transform.go:14-74 | In a contracted tree everything that was reached has become something that is reached |
| MinimizeShapes.WhatStaysIsReached | token/transform.go:14-74 | No token is lost but Concatenations and Ones of one token and Scopes around a Scope; the others are of the same kind, with what has become of their children |
| Minimize.WaitingStays | token/primitives/scope.go:96-102 | A token is minimised exactly if it is such a Concatenation, One or Scope, when its turn comes |
| Minimize.SkippingContracts | token/transform.go:32-54 | Replacing a token by its child keeps it that the passed tokens have what has become of their children |
| Minimize.SkipKeeps | token/transform.go:32-54 | The replacement step keeps the invariant: one parent per token, nothing below a waiting token changed, the words kept |
| Minimize.PassingKeeps | token/transform.go:56-69 | Going on to the children keeps the invariant |
| Minimize.Minimizer.Run | token/transform.go:14-74 | The worklist runs empty |
| Minimize.MinimizeTokens | token/transform.go:14-74 | If what is reached is a tree without pointers: the root and every token of the store print the same words as before, what is reached has no pointers and no Concatenation or One with exactly one child, and it is the tree from before without those and without Scopes around a Scope, with everything else in its place |
| Pipeline.Prepare | parser/tavor.go:1926-1934 | Unrolling and then minimising: no pointers and no Concatenation or One of one child are reached, all words within the limit are printed, and, under the conditions of the unrolling, only words of the format or exactly those within the limit |
| ReductionTrees.StatePrintsWord | reduce/strategy/linear.go:67-114 | Every state of a tree of the format prints a word of the format |
| ReductionTrees.PrintsReduced | token/constraints/optional.go:135-152 | A token at a reduction, with nothing reduced below it: an Optional prints nothing at 0 and its token otherwise, a Repeat the items of the choice |
| ReductionTrees.PrintsWhatItHolds | token/lists/repeat.go:376-436 | A tree that is not reduced prints what it holds |
| ReductionTrees.RepeatValues | token/lists/repeat.go:376-436 | The full value of a Repeat is its last reduction, and one above its minimum has at least two |
| Linear.Reducer.Sweep | reduce/strategy/linear.go:166-199 | The worklist finds the nearest tokens with a choice from left to right, and setting them to their full value changes nothing |
| Linear.Reducer.GetChildren | reduce/strategy/linear.go:148-199 | The same for what a token shows at its kept value |
| Linear.Reducer.Try | reduce/strategy/linear.go:72-101 | The reductions of one token are offered in order until the first Good; without one the full value is restored |
| Linear.Reducer.Reduce | reduce/strategy/linear.go:67-114 | A level is reduced token by token with all that is left below, nothing outside of it changes, and the tree is as offered at the last Good |
| Linear.ReduceLinear | reduce/strategy/linear.go:28-114 | For all answers: the tree is left in the state of the last Good or in the initial one, every offer is a word of the format, in the offers of its search a token shows its reductions in turn with all below it, no token is searched twice, exactly those tokens are searched that have a choice and are visible at the end (below none without a choice that could have one), and without a Good the tree prints what it held |
| Linear.SearchedExactly | reduce/strategy/linear.go:148-199 | The searched tokens are the visible choices, said of places in the tree and not of the walk |
| Linear.OffersAreBounded | reduce/strategy/linear.go:72-101 | The searches account for all offers, and a token is offered at most Reduces() - 1 states |
| Linear.KeptIsSmallest | reduce/strategy/linear.go:72-101 | With a deterministic oracle the reduction kept for a Repeat has the fewest items among all that the oracle accepts in that context |
| Languages.WordsMean | token/lists/repeat.go:143-179 | The words of each kind of token in terms of the words of those it is made of |
| Matching.ConsumedMeans | parser/internal.go:33-55 | The matcher finds an end exactly if there is a reading to it in which no earlier alternative, skipped Optional or further item of a Repeat could be read |
| Matching.ReadIsWord | parser/internal.go:33-55 | What is read is a word of the token |
| Matching.WordIsRead | parser/internal.go:33-55 | If the next character decides every choice, a word is read to its end |
| Matching.DecidedIsExact | parser/internal.go:14-60 | A format like that is accepted exactly on its words |
| Parsing.Parser.Parse | parser/internal.go:33-55 | Success is that of the ordered, greedy matcher, and it leaves a reading in which nothing that comes first is passed by; each Repeat then holds between from and max(from, to) items, and the token prints what was consumed if that is ASCII or the classes are |
| Parsing.Parser.ParseConst | token/primitives/string.go:31-57 | A constant consumes exactly itself |
| Parsing.Parser.ParseClass | token/primitives/char.go:280-319 | A class consumes one character, which is one of its own, and keeps it |
| Parsing.Parser.ParseConcat | token/lists/concatenation.go:42-54 | The parts are consumed one after the other |
| Parsing.Parser.ParseOne | token/lists/one.go:44-61 | The first alternative that fits is taken |
| Parsing.Parser.ParseOptional | token/constraints/optional.go:36-48 | The token is taken if it fits, and nothing otherwise |
| Parsing.Parser.ParseRepeat | token/lists/repeat.go:90-128 | `from` items have to fit, and further ones are taken up to `to` as long as they fit |
| Parsing.ParseInternal | parser/internal.go:14-60 | An input is accepted exactly if there is such a reading to its end, for a format whose choices the next character decides exactly if it is a word; if the input or the classes are ASCII, the tree then prints the input, which is a word of the format |
| Parsing.ParsedPrintsWord | parser/internal.go:33-55 | A state that parsing leaves is a state of the format |
| Parsing.OnlyAsciiPrintsBack | token/primitives/char.go:280-319 | A byte that is read is printed as itself exactly if it is ASCII |
| Parsing.ClassPermutation | token/primitives/char.go:321-346 | Permutation i is the i-th of the characters followed by the ranges |
| Parsing.ClassAcceptsItsCodes | token/primitives/char.go:280-366 | Parsing accepts exactly what the permutations enumerate, and Permutations counts it |
| VariableScopes.VariableScope.Get | token/token.go:320-332 | The chain of live maps is searched from the inside out |
| VariableScopes.Traversal.Visit | token/set.go:77-116 | One entry of the queue: what was pending is what was bound now and what is pending afterwards |
| VariableScopes.Traversal.SetScope | token/set.go:64-117 | The stack traversal over live scopes binds what the resolver with environments binds |
| VariableScopes.Traversal.SetValue | token/variables/variables.go:477-495 | A VariableValue is bound to what its name means in the scope, and keeps its variable if that is nothing |
| VariableScopes.Traversal.Define | token/variables/variables.go:127-129 | A Variable is defined for the innermost scope only |
| VariableScopes.Traversal.ResetScope | token/set.go:55-61 | From a fresh scope every VariableValue is bound to the nearest definition before it that is not inside of a closed scope |
| ScopePaths.EveryUseIsBound | token/set.go:64-117 | The resolver binds all uses, in order, each to the last definition before it all of whose scopes it is in, by their places in the tree |
| ScopeRules.ResolveFindsNearest | token/set.go:64-117 | The resolver with environments finds, for every use, the nearest visible definition, and no definition leaks out of its scope |
| LoopDetection.LoopExists | token/analyze.go:10-47 | The search ends; it answers yes exactly if, token before children and children in order, a pointer is met that leads to a token met before, which is exactly if a cycle can be reached or a pointer leads to a token that was met on another way |
| LoopDetection.CycleMeetsAgain | token/analyze.go:17-44 | Every cycle that can be reached makes the search answer yes |
| LoopDetection.LoopThrough | token/analyze.go:24-44 | So does a loop through a token of any kind, Optional, Scope and Repeat included |
| LoopDetection.YesMeans | token/analyze.go:17-44 | The two reasons for a yes: a cycle that can be reached, or a pointer to a token met on another way |
| LoopDetection.MeetsOnTwoRoutes | token/analyze.go:24-31 | In the second case the token is reached by two different routes |
| LoopDetection.FindsMoreThanCycles | token/analyze.go:24-31 | Two pointers to one token are reported as well |
| PathQueries.BuildConnects | token/expressions/path.go:80-107 | The map has each value of an element, with the connections of the last element that has it |
| PathQueries.Follow | token/expressions/path.go:129-142 | The unchecked connections of a value go on the path from the last to the first, and on the stack |
| PathQueries.NewIsBackwards | token/expressions/path.go:134-141 | New connections are listed from the last to the first |
| PathQueries.DepthFirst | token/expressions/path.go:122-142 | What is below one value of the stack is listed before anything below the next |
| PathQueries.Path | token/expressions/path.go:109-145 | The path starts with `from`, repeats nothing, holds exactly `from` and what is reached by connections to values outside of `without`, each value after one that connects to it, and is in the order of the stack |
| Sequences.Sequence.Next | token/sequences/sequence.go:135-141 | The first value is the start and each other one a step on; it is new among those issued since the last reset |
| Sequences.Sequence.Reset | token/sequences/sequence.go:145-149 | After a reset nothing counts as issued |
| Sequences.Sequence.IssuedDistinct | token/sequences/sequence.go:135-150 | All values issued since the last reset are distinct |
| Sequences.Sequence.Existing | token/sequences/sequence.go:42-109 | With an except list: the first issued value in cyclic order that no except token lists, and the error exactly if there is none; without one the value at the position asked for |
| Sequences.Sequence.Scan | token/sequences/sequence.go:91-108 | The loop ends, although it moves on only at positions it has checked |
| Sequences.UncheckedIsIssued | token/sequences/sequence.go:51-53 | Without an except list the answer is the issued value in question exactly if the position is below the number of issued values |
| UniqueItems.UniqueItem.Find | token/lists/items.go:192-203 | The loop stops at the i-th smallest free element, inside of the list |
| UniqueItems.UniqueItem.Pick | token/lists/items.go:184-204 | The i-th smallest free element is taken; the items still hold distinct elements, and those are what is picked |
| UniqueItems.UniqueItem.Clone | token/lists/items.go:209-219 | A clone joins the family and holds nothing |
| UniqueItems.UniqueItem.Release | token/lists/items.go:285-291 | Only the item's own element is given back |
| UniqueItems.UniqueItem.Permutation | token/lists/items.go:228-242 | The item's element is exchanged for the i-th smallest free one; it fails exactly if there are not so many |
| UniqueItems.UniqueItem.Index | token/lists/items.go:274-280 | An item that holds nothing takes the smallest free element; otherwise it keeps its own |
| UniqueItems.NthFreeUnique | token/lists/items.go:184-204 | There is only one i-th smallest free element |

## Left out

- Unroll.UnrollPointers: for graphs in which no token is the child of two tokens; with sharing it would be false
  (`UnrollExamples.SharingLeavesAPointer`). The last walk over the result, which sets every child to itself, is not
  modelled, nor is the selected alternative of a One, nor the field by which a pointer remembers that it was unrolled.
- Unroll.UnrollPointers: when the unrolling panics is stated by conditions that exclude it, not exactly, because that
  depends on the order of visits (`UnrollExamples.OrderDecides`). Which words beyond the limit are left of a graph in
  which pointers lead into the tree of the root depends on it, too; of those it is only said that they are words of the
  grammar.
- Unroll.Unroller.Run: the search for a loop without pointers, which the code starts when it meets a token twice,
  is a step of the machine that is shown never to be taken, because every token of such a graph is visited once.
- Pipeline.Prepare: if a cut went past the root, the code minimises what cannot be used; here it stops.
- AllPermutations.Strategy.Step: `fuzz` is one function with a flag in the code; here the two modes are `Step` and
  `Emit`, and the loop they share is `Carry`. The guard in front of `nextStep` is always true and not modelled.
- AllPermutations.Strategy.Run: the two channels become the emission at which the consumer closes; resets of
  scopes and sequences between emissions, and the check for loops before, are not modelled.
- Linear.ReduceLinear: the answers are a sequence without end, so the channels are never closed from outside.
- Parsing.Parser.Parse: error messages and positions, and the tokens that only panic when they parse.
- Counts are unbounded naturals and `math.Pow` is exact, so overflow and rounding are not modelled.
- Repeats with bounds that other tokens compute, and the reset of a Repeat.
- The order in which a failed alternative leaves tokens behind is modelled, but nothing is said about it.
- Variable items, references and saves, which need lists as values; conditions and function tokens.
- How an element of a path query computes its strings; the query gets them as values.
- Tokens of an except list are given by the numbers they print.
- The parser of the format language, the command line, process execution, graphs and logging.
- The strategies AlmostAllPermutations, PermuteOptionals and random, and filters.
