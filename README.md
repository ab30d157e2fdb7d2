# Monopoly transition engine, simulator turn and link splitter in Dafny

This project models the deterministic core of the `monopoly` crates (Rust). It has six parts:

- **Exact probabilities.** `Probability` is a fraction with a signed numerator and a positive denominator, kept in lowest terms by Euclid's `gcd`. Its operators are `+`, `-`, `*`, scalar `*`, `/`, division by an integer, reciprocal, `Sum` and `Ord`. The model works over mathematical integers. Each of these operators is proved to give the exact rational result, always in lowest terms. `Display` is proved to write the numerator, a slash and the denominator (or "0"), and distinct values display differently.
- **The board and the cards.** This covers the 40-space board, `find`, `find_next`, `next_rail`, `next_util`, `set` and `shortdesc`. It also covers the two 16-card decks built by `build_deck`, and the 36 ordered dice throws of `dice_rolls`, sorted by total, then first die, then second die.
- **The state space of the Markov chain.** These are the `(position, doubles, jailroll)` triples of `create_states` in ascending order, with their dense index. There are 118 of them when the player pays to leave jail and 120 when the player waits.
- **The exact transition matrices.**
  - `build_jumpmat`, `build_movemat` and the recursive `process_jumps` fill 2-D arrays of probabilities with `+=` inside their loops.
  - The model proves the invariant the crate checks with debug assertions: every row of every matrix sums to exactly one.
  - It also proves what each entry holds. The jump matrix gives, square by square, the sixteenths of the card decks (or a certain stay). The move matrix entry (r, c) is the share of the 36 throws from state r that reach state c. The combined entry is the average over those throws of the chance that the throw and its chain of jumps end in state c.
  - It also proves that the recursion of `process_jumps` terminates. Every jump that leaves a square lowers the number of card draws still possible.
- **The simulator's turn.** `Board` holds its counters and decks in fields. `turn_with_dice` takes its dice from the caller, and `move_to`, `draw_chance`, `draw_community_chest`, `next_ch`, `next_cc` and `update_arrivals` change the board in place.
  - Each method is proved to do what a function on a `Game` value describes.
  - Lemmas about those functions prove three things. The counters stay consistent: one arrival and one throw per move, and at most one arrival reason per move. Only the end of a chain of jumps records an arrival. The crate's scenario tests `test_jail_rolls_fail`, `test_jail_rolls_succ1` to `succ3`, `test_chance_to_cc` and `test_chance_to_cc_to_go` end in the positions and counts they assert.
- **The `$link(` splitter of the web page generator.** `parse_file` cuts a text into plain segments and link names and hands each to a callback. In the model, the callbacks append the spans they receive to a log.

Matrices are `array2<Probability>`. The simulator's fixed-size arrays (`arrivals`, `arrival_reason`, `doubles`, `rollfreq`) and its deck queues are sequences that the methods reassign. The crate's random choices are inputs:

- the shuffle indices;
- the dice, as the closure `turn_with_dice` already takes;
- which card is drawn, either the front of the deck or a fixed card, as the crate's tests set it.

`Space::Jail`, which `transmatrix.rs` and `sim/mod.rs` look up, is the board's `Visit` space at index 10. That is the only space the board has there, and `sim/tests.rs` expects the player at 10 after being sent to jail.

## Model

| member | source | states |
|---|---|---|
| ExactProbability.Gcd | monopoly-lib/src/calc/probability/mod.rs:250-258 | Euclid's recursion; the result is 0 exactly when both inputs are 0 |
| ExactProbability.GcdLoop | monopoly-lib/src/calc/probability/mod.rs:250-258 | the `while b != 0` loop returns the greatest common divisor: a common divisor of both inputs (positive unless both are 0), divisible by every other common divisor |
| ExactProbability.GcdDivides | monopoly-lib/src/calc/probability/mod.rs:250-258 | gcd(a, b) divides a and b |
| ExactProbability.GcdGreatest | monopoly-lib/src/calc/probability/mod.rs:250-258 | every common divisor of a and b divides gcd(a, b) |
| ExactProbability.GcdMul | monopoly-lib/src/calc/probability/mod.rs:250-258 | gcd(a·c, b·c) = gcd(a, b)·c |
| ExactProbability.GcdCommutes | monopoly-lib/src/calc/probability/mod.rs:250-258 | gcd(a, b) = gcd(b, a) |
| ExactProbability.Euclid | monopoly-lib/src/calc/probability/mod.rs:250-258 | a divisor coprime to one factor of a product divides the other factor |
| ExactProbability.ReducedCoprime | monopoly-lib/src/calc/probability/mod.rs:58-65 | after dividing numerator and denominator by their gcd, the two parts are coprime |
| ExactProbability.Unique | monopoly-lib/src/calc/probability/mod.rs:19 | two fractions in lowest terms with the same rational value are the same pair, so the derived `==` is value equality |
| ExactProbability.Normalise | monopoly-lib/src/calc/probability/mod.rs:58-65 | the result is in lowest terms with a positive denominator and has the same rational value |
| ExactProbability.New | monopoly-lib/src/calc/probability/mod.rs:36-42 | `new(n, d)` with d > 0 is valid and worth n/d |
| ExactProbability.ZeroIsNever | monopoly-lib/src/calc/probability/mod.rs:36-42 | every zero fraction n/d normalises to `NEVER` (0/1) |
| ExactProbability.NeverIffZero | monopoly-lib/src/calc/probability/mod.rs:214-222 | a valid fraction equals `NEVER` exactly when its value is 0, so `is_zero` is a value test |
| ExactProbability.Lcm | monopoly-lib/src/calc/probability/mod.rs:260-264 | returns l = a·(l/a) = b·(l/b), all positive, with l·gcd(a, b) = a·b |
| ExactProbability.Add | monopoly-lib/src/calc/probability/mod.rs:76-91 | the sum is in lowest terms and worth exactly a + b |
| ExactProbability.Sub | monopoly-lib/src/calc/probability/mod.rs:119-134 | the difference is in lowest terms and worth exactly a − b |
| ExactProbability.Mul | monopoly-lib/src/calc/probability/mod.rs:142-157 | although the raw denominator is lcm·lcm, the product is in lowest terms and worth exactly a·b |
| ExactProbability.Scale | monopoly-lib/src/calc/probability/mod.rs:165-178 | scalar `a * k` is in lowest terms and worth a·k |
| ExactProbability.DivInt | monopoly-lib/src/calc/probability/mod.rs:189-206 | `a / k` for k > 0 is in lowest terms and worth a/k |
| ExactProbability.DivIntIsScaledDenominator | monopoly-lib/src/calc/probability/mod.rs:189-206 | `a / k` is `new(numerator, denominator·k)` |
| ExactProbability.Reciprocal | monopoly-lib/src/calc/probability/mod.rs:44-52 | for a non-zero valid fraction, the reciprocal is valid (the sign moves to the numerator) and p·(1/p) = 1 in value |
| ExactProbability.Div | monopoly-lib/src/calc/probability/mod.rs:180-187 | `a / b` (a times b's reciprocal) is in lowest terms and worth a/b |
| ExactProbability.MulReciprocal | monopoly-lib/src/calc/probability/mod.rs:44-52 | a times its reciprocal is exactly `ALWAYS` |
| ExactProbability.DivSelf | monopoly-lib/src/calc/probability/mod.rs:180-187 | a / a is exactly `ALWAYS` for non-zero a |
| ExactProbability.ReciprocalIsInverse | monopoly-lib/src/calc/probability/mod.rs:180-187 | both of the above together |
| ExactProbability.Sum | monopoly-lib/src/calc/probability/mod.rs:99-109 | the left fold of `+` from `NEVER` is valid and worth the exact total of the values |
| ExactProbability.SumIsAlways | monopoly-lib/src/calc/probability/mod.rs:99-109 | valid probabilities whose exact total is 1 sum to `ALWAYS` |
| ExactProbability.Cmp | monopoly-lib/src/calc/probability/mod.rs:242-248 | comparing the cross-multiplied numerators gives Less, Equal or Greater exactly as the rational values compare |
| ExactProbability.CmpEqualIsEquality | monopoly-lib/src/calc/probability/mod.rs:236-248 | `cmp` says Equal exactly when the two fractions are structurally equal |
| ExactProbability.AddCommutes | monopoly-lib/src/calc/probability/mod.rs:76-91 | a + b = b + a as fractions |
| ExactProbability.AddAssociates | monopoly-lib/src/calc/probability/mod.rs:76-91 | (a + b) + c = a + (b + c) as fractions |
| ExactProbability.NeverIsAddIdentity | monopoly-lib/src/calc/probability/mod.rs:214-222 | `NEVER` (the `Zero`) is the identity of `+` on valid fractions |
| ExactProbability.SubUndoesAdd | monopoly-lib/src/calc/probability/mod.rs:119-134 | (a − b) + b = a |
| ExactProbability.MulCommutes | monopoly-lib/src/calc/probability/mod.rs:142-157 | a·b = b·a as fractions |
| ExactProbability.AlwaysIsMulIdentity | monopoly-lib/src/calc/probability/mod.rs:208-212 | `ALWAYS` (the `One`) is the identity of `*` on valid fractions |
| ExactProbability.Display | monopoly-lib/src/calc/probability/mod.rs:224-234 | the text is "0" exactly when the numerator is 0, and otherwise the signed numerator, "/" and the denominator |
| ExactProbability.AddSubExamples | monopoly-lib/src/calc/probability/tests.rs:4-132 | 1/2+1/3 = 5/6, 1/4+1/4 = 1/2, sum of [1/2, 1/4] = 3/4, 1/2−1/3 = 1/6, 1/4−1/2 = −1/4 |
| ExactProbability.MulDivExamples | monopoly-lib/src/calc/probability/tests.rs:134-190 | 1/2·1/3 = 1/6, 2/3·3/6 = 1/3, (2/3)/2 = 1/3, (2/3)/3 = 2/9 |
| ExactProbability.DisplayExamples | monopoly-lib/src/calc/probability/tests.rs:192-204 | 2/3 displays as "2/3" and `NEVER` as "0" |
| ExactProbability.DisplayInjective | monopoly-lib/src/calc/probability/mod.rs:224-234 | two valid probabilities with the same text are equal, so the text can be read back |
| ExactProbability.IntToStringInjective | monopoly-lib/src/calc/probability/mod.rs:229 | distinct integers are written differently |
| Decimal.NatToString | monopoly-lib/src/space.rs:24-29 | the integer formatting used by labels: non-empty decimal digits with no leading zero |
| Decimal.NatToStringRoundTrip | monopoly-lib/src/space.rs:24-29 | reading the digits back gives the number |
| Decimal.NatToStringInjective | monopoly-lib/src/space.rs:24-29 | distinct numbers are written differently |
| Spaces.BoardLayout | monopoly-lib/src/space.rs:88-131 | Go is at 0, Visit at 10, FreeParking at 20, GoToJail at 30; Chance at 7/22/36, Community Chest at 2/17/33, rails at 5/15/25/35, utilities at 12/28, and nowhere else |
| Spaces.SpacesDistinct | monopoly-lib/src/space.rs:90-131 | no space appears twice on the board |
| Spaces.PositionOfAt | monopoly-lib/src/space.rs:90-131 | each board space's recorded position is its index |
| Spaces.SetOf | monopoly-lib/src/space.rs:33-53 | groups 0..7 map in order to Brown..DarkBlue; the other kinds map to their fixed category, each category exactly for its kind |
| Spaces.BoardGroupsInRange | monopoly-lib/src/space.rs:33-53 | no property on the board has a group above 7, so `set` never panics on a board space |
| Spaces.ParseIndex | monopoly-lib/src/space.rs:24-29 | reads a 1-based decimal index back; a result means the text is digits worth index + 1 |
| Spaces.ParseIndexRoundTrip | monopoly-lib/src/space.rs:24-29 | the 1-based decimal of a byte index reads back to that index |
| Spaces.RailLabel | monopoly-lib/src/space.rs:25 | "R" and a 1-based index read back to that rail |
| Spaces.UtilityLabel | monopoly-lib/src/space.rs:26 | "U" and a 1-based index read back to that utility |
| Spaces.ChestLabel | monopoly-lib/src/space.rs:27 | "CC" and a 1-based index read back to that Community Chest |
| Spaces.ChanceLabel | monopoly-lib/src/space.rs:28 | "CH" and a 1-based index read back to that Chance |
| Spaces.TaxLabel | monopoly-lib/src/space.rs:29 | "T" and a 1-based index read back to that tax |
| Spaces.PropertyLabel | monopoly-lib/src/space.rs:24 | a group letter and a 1-based index read back to that property |
| Spaces.ShortDescRoundTrip | monopoly-lib/src/space.rs:18-31 | every short label of a space whose group is a colour reads back to that space |
| Spaces.BoardDescribable | monopoly-lib/src/space.rs:18-31 | every board space's label can be formed without 8-bit overflow |
| Spaces.Label | monopoly-lib/src/space.rs:18-31 | the label of a board space has at least two characters |
| Spaces.LabelInjective | monopoly-lib/src/space.rs:18-31 | two board positions with the same short label are the same position |
| Spaces.LabelAvoids | monopoly-lib/src/space.rs:18-31 | a label is letters and digits only, so a space or "]" after it marks where it ends |
| Spaces.ShortDesc | monopoly-lib/src/space.rs:18-31 | every short label has at least two characters; Spaces.ShortDescRoundTrip reads it back |
| Spaces.FindFrom | monopoly-lib/src/space.rs:55-60 | the first index at or after `from` holding the space |
| Spaces.Find | monopoly-lib/src/space.rs:55-60 | `find` returns an index holding the space, and no earlier index holds it |
| Spaces.FindIsIndex | monopoly-lib/src/space.rs:55-60 | find(SPACES[p]) = p for every board index |
| Spaces.GoToJailAt | monopoly-lib/src/space.rs:121 | GoToJail is at index 30 and nowhere else |
| Spaces.ScanFrom | monopoly-lib/src/space.rs:74-80 | the scan returns the first offset from k at which the space satisfies the predicate |
| Spaces.StepsAhead | monopoly-lib/src/space.rs:74-75 | k steps ahead (1 ≤ k < 40) is a different position, at circular distance k |
| Spaces.StepsBack | monopoly-lib/src/space.rs:74-75 | the circular distance to a different position is 1..39 and leads there |
| Spaces.NextOn | monopoly-lib/src/space.rs:70-83 | on any board, the result satisfies the predicate, differs from the start, and no space strictly between (going round) satisfies it |
| Spaces.FindNext | monopoly-lib/src/space.rs:70-83 | `find_next` on the board: the same, with the start never considered |
| Spaces.RailSteps | monopoly-lib/src/space.rs:62-64 | a closed form: 1..10 steps to a position ending in 5 |
| Spaces.RailStepsLeast | monopoly-lib/src/space.rs:62-64 | no position ending in 5 is nearer |
| Spaces.BoardRails | monopoly-lib/src/space.rs:90-131 | the rails stand exactly on positions ending in 5 |
| Spaces.NearestRailOn | monopoly-lib/src/space.rs:62-64 | on a board with rails every ten, the scan finds the rail at the closed form |
| Spaces.NextRail | monopoly-lib/src/space.rs:62-64 | `next_rail` returns a rail index, the nearest one strictly ahead, wrapping past Go |
| Spaces.BoardUtilities | monopoly-lib/src/space.rs:90-131 | the utilities stand exactly on 12 and 28 |
| Spaces.UtilitySteps | monopoly-lib/src/space.rs:66-68 | a closed form: 1..39 steps to 12 or 28 |
| Spaces.UtilityStepsLeast | monopoly-lib/src/space.rs:66-68 | no utility is nearer |
| Spaces.NearestUtilityOn | monopoly-lib/src/space.rs:66-68 | on a board with utilities at 12 and 28, the scan finds the closed form |
| Spaces.NextUtil | monopoly-lib/src/space.rs:66-68 | `next_util` returns a utility index, the nearest one strictly ahead, wrapping past Go |
| Spaces.NearestRailFromChance | monopoly-lib/src/space.rs:62-64 | from the Chance squares 7, 22 and 36, the next rail is 15, 25 and 5 (wrapping past Go) |
| Spaces.NearestUtilityFromChance | monopoly-lib/src/space.rs:66-68 | from 7, 22 and 36, the next utility is 12, 28 and 12 |
| ChanceCards.BuildDeck | monopoly-lib/src/chance.rs:18-39 | 16 cards: the ten listed cards in the listed order, then `Inconsequential` for the rest |
| ChanceCards.FreshDeckContents | monopoly-lib/src/chance.rs:21-36 | a deck as built is the ten moving cards followed by six blanks |
| ChanceCards.FreshDeckCounts | monopoly-lib/src/chance.rs:22-36 | two `GoNextRail`, one of each other moving card, and six blanks |
| ChanceCards.FixedCounted | monopoly-lib/src/chance.rs:22-27 | each fixed-destination card occurs once among the first six, and no other card does |
| ChanceCards.RelativeCounted | monopoly-lib/src/chance.rs:28-31 | the next four are two `GoNextRail`, one `GoNextUtil` and one `Back3` |
| ChanceCards.PaddingCounted | monopoly-lib/src/chance.rs:34-36 | the padding is six blanks and nothing else |
| ChanceCards.DealtOnBoard | monopoly-lib/src/chance.rs:24-27 | every card dealt into a fresh deck that names a property or rail names one on the board |
| ChanceCards.FreshOnBoard | monopoly-lib/src/chance.rs:21-36 | every card of a fresh deck names a board space |
| ChanceCards.ShuffledOnBoard | monopoly-lib/src/chance.rs:21-36 | so does every card of any rearrangement of it |
| ChestCards.BuildDeck | monopoly-lib/src/commchest.rs:13-23 | 16 cards: `GoJail`, `GoGo`, then `Inconsequential` |
| ChestCards.FreshDeckContents | monopoly-lib/src/commchest.rs:16-20 | a deck as built is the two moving cards followed by fourteen blanks |
| ChestCards.FreshDeckCounts | monopoly-lib/src/commchest.rs:16-20 | `GoJail` first, `GoGo` second, one of each, fourteen blanks |
| ChestCards.BlanksCount | monopoly-lib/src/commchest.rs:18-20 | the padding holds only blanks |
| Dice.PairsFrom | monopoly-lib/src/calc/dice.rs:33-34 | the cartesian product from first die a on has 6·(7 − a) pairs |
| Dice.PairsFromCount | monopoly-lib/src/calc/dice.rs:33-34 | it holds each pair with first die ≥ a exactly once |
| Dice.RollsAreAllPairs | monopoly-lib/src/calc/dice.rs:53-58 | 36 throws, each ordered pair of faces exactly once |
| Dice.PairsOnce | monopoly-lib/src/calc/dice.rs:33-34 | the cartesian product of the faces holds every ordered pair exactly once |
| Dice.Insert | monopoly-lib/src/calc/dice.rs:35-40 | inserting into a sorted list keeps it sorted and adds exactly that element |
| Dice.Sort | monopoly-lib/src/calc/dice.rs:35-40 | `sorted_by` the key (total, first die, second die): sorted, and a permutation of the input |
| Dice.SortedPairwise | monopoly-lib/src/calc/dice.rs:35-40 | a list sorted by adjacent pairs is ordered between any two positions |
| Dice.LeAntisymmetric | monopoly-lib/src/calc/dice.rs:35-40 | the key tells throws apart, so the order has no ties |
| Dice.SortIsUnique | monopoly-lib/src/calc/dice.rs:35-40 | any two sorted permutations of the same throws are equal, so the result does not depend on the sorting algorithm |
| Dice.Annotate | monopoly-lib/src/calc/dice.rs:41-46 | each item keeps its dice, with sum = d1 + d2 and double ⇔ d1 = d2 |
| Dice.AnnotateKeepsOrder | monopoly-lib/src/calc/dice.rs:41-46 | annotating keeps the sorted order |
| Dice.AnnotateTotals | monopoly-lib/src/calc/dice.rs:41-46 | every total is between 2 and 12 |
| Dice.RollsAnnotated | monopoly-lib/src/calc/dice.rs:32-47 | every throw of `dice_rolls` carries its own total (2..12) and double flag |
| Dice.RollsInOrder | monopoly-lib/src/calc/dice.rs:32-47 | the throws come by total, then first die, then second die |
| Dice.DiceRolls | monopoly-lib/src/calc/dice.rs:32-47 | `dice_rolls` yields 36 throws |
| Dice.CountDoublesSort | monopoly-lib/src/calc/dice.rs:35-40 | sorting neither adds nor loses doubles |
| Dice.CountDoublesPairs | monopoly-lib/src/calc/dice.rs:33-34 | the product from first die a on holds 7 − a doubles |
| Dice.CountDoubleRollsAnnotate | monopoly-lib/src/calc/dice.rs:41-46 | the double flags count the doubles |
| Dice.SixDoubles | monopoly-lib/src/calc/dice.rs:60-65 | exactly six throws are doubles |
| States.NewState | monopoly-lib/src/calc/state.rs:17-23 | `State::new(doubles, position, jailroll)` puts each argument in its own field |
| States.Less | monopoly-lib/src/calc/state.rs:9-14 | the derived order: strict, and position-major (a state on an earlier space comes first) |
| States.AscendingPairwise | monopoly-lib/src/calc/state.rs:9 | a list ascending by adjacent pairs is ascending between any two positions in the derived order |
| States.SetInsert | monopoly-lib/src/calc/state.rs:31-35 | ordered-set insertion: stays ascending, holds exactly the old members and the new one, and grows by one only when that one is new |
| States.Enumerate | monopoly-lib/src/calc/state.rs:65 | the index maps exactly the listed states, each to its position in the ascending order |
| States.CreateStates | monopoly-lib/src/calc/state.rs:25-66 | ascending states: the 39 non-GoToJail positions × doubles 0..2 with jailroll 0, plus GoToJail with doubles 0 and jailroll 0 (paying) or 0..2 (waiting); 118 or 120 of them, densely indexed |
| States.Show | monopoly-lib/src/calc/state.rs:69-87 | `Display`: "[" and the space's label, " d" and the doubles count when it is not 0, " r" and the jail roll at GoToJail, then "]" |
| States.ShowInjective | monopoly-lib/src/calc/state.rs:69-87 | two displayable states with the same text are the same state: the label fixes the position, the " d" part the doubles, the " r" part the jail roll |
| States.SuffixInjective | monopoly-lib/src/calc/state.rs:73-84 | the text after the label determines the doubles count and, at GoToJail, the jail roll |
| States.CanonicalShows | monopoly-lib/src/calc/state.rs:77-81 | every state of the chain is on the board and carries a jail roll only at GoToJail, so `Display`'s assertion holds |
| MoveReasons.Discriminant | monopoly-lib/src/sim/movereason.rs:5-13 | `Roll` is −1 and alone negative; the other reasons number 0..5 |
| Matrices.RowOf | monopoly-lib/src/calc/transmatrix.rs:364-366 | the row as a sequence holds the matrix entries in order |
| Matrices.TotalUpdate | monopoly-lib/src/calc/transmatrix.rs:147 | replacing one entry changes the exact total by the difference |
| Matrices.UniformTotal | monopoly-lib/src/calc/transmatrix.rs:91 | a row of copies of one fraction totals that many times its value (a zero row totals 0) |
| Matrices.AddToEntry | monopoly-lib/src/calc/transmatrix.rs:147 | adding p to one entry adds p's value to the row total |
| Matrices.AddTo | monopoly-lib/src/calc/transmatrix.rs:147 | `m[(r, c)] += p` changes that entry alone, to the sum, and keeps every entry in lowest terms |
| Matrices.CheckMatrix | monopoly-lib/src/calc/transmatrix.rs:355-367 | `check_matrix`: in a stochastic matrix every row sums to `ALWAYS`, so the assertion never fires |
| TransMatrix.Rank | monopoly-lib/src/calc/transmatrix.rs:257-292 | the termination measure of `process_jumps`: 2 on Chance, 1 on Community Chest, 0 elsewhere |
| TransMatrix.CCTarget | monopoly-lib/src/calc/transmatrix.rs:110-114 | a Community Chest card leads to Go, to GoToJail, or stays |
| TransMatrix.CHTarget | monopoly-lib/src/calc/transmatrix.rs:121-130 | a Chance card's destination: the next rail and the next utility are a rail and a utility at the positions `next_rail` and `next_util` find, Back3 is the space three back, and a blank stays |
| TransMatrix.JumpProbs | monopoly-lib/src/calc/transmatrix.rs:105-138 | every jump probability is a valid fraction (the per-target totals are TransMatrix.ChestRow, TransMatrix.ChanceRow and TransMatrix.PlainRow) |
| TransMatrix.ChanceAfterThree | monopoly-lib/src/calc/transmatrix.rs:128 | every Chance square is at least 3, so `startidx - 3` does not underflow |
| TransMatrix.ProbsOf | monopoly-lib/src/calc/transmatrix.rs:352 | the probabilities of a jump list, in order |
| TransMatrix.TargetTotalZero | monopoly-lib/src/calc/transmatrix.rs:105-138 | a space no jump lands on gets total 0 |
| TransMatrix.ChanceEntry | monopoly-lib/src/calc/transmatrix.rs:121-130 | each Chance card leads to a board space, and leaving the square lowers the rank |
| TransMatrix.JumpEntry | monopoly-lib/src/calc/transmatrix.rs:105-138 | every jump lands on a board space, and either stays or lowers the rank; GoToJail stays on GoToJail |
| TransMatrix.UnitShares | monopoly-lib/src/calc/transmatrix.rs:94-96 | n shares of 1/n total 1 |
| TransMatrix.CheckJumpProbs | monopoly-lib/src/calc/transmatrix.rs:349-353 | `check_jump_probs`: each space's jump list sums to exactly `ALWAYS` |
| TransMatrix.JumpDescends | monopoly-lib/src/calc/transmatrix.rs:143-148 | an entry filled from a jump list is zero off the diagonal unless the target has a lower rank |
| TransMatrix.CellsStep | monopoly-lib/src/calc/transmatrix.rs:143-148 | adding a jump changes the total of its target alone |
| TransMatrix.AccumulateJumps | monopoly-lib/src/calc/transmatrix.rs:143-152 | entry (startidx, c) becomes the total probability of the jumps landing on c, and the row total becomes the list's total; other rows do not change |
| TransMatrix.AccumulateNext | monopoly-lib/src/calc/transmatrix.rs:144-147 | one jump added: the row becomes the per-cell totals and the row total of the jumps up to and including this one; other rows do not change |
| TransMatrix.CellRowStep | monopoly-lib/src/calc/transmatrix.rs:143-148 | adding one jump raises the totals row at its target alone, by its probability |
| TransMatrix.JumpsOnBoard | monopoly-lib/src/calc/transmatrix.rs:145 | every jump's target is on the board, so `find` succeeds |
| TransMatrix.FillJumps | monopoly-lib/src/calc/transmatrix.rs:99-157 | every row of the zero matrix is filled from its jump list, and every row sums to 1 |
| TransMatrix.BuildJumpMat | monopoly-lib/src/calc/transmatrix.rs:88-163 | entry (p, q) is the probability of jumping from p to q; the matrix is stochastic, and off the diagonal it only lowers the rank |
| TransMatrix.ChestTargets | monopoly-lib/src/calc/transmatrix.rs:106-116 | a Community Chest square's jumps go to GoToJail, Go, then fourteen times the square itself, each with probability 1/16 |
| TransMatrix.ChestRow | monopoly-lib/src/calc/transmatrix.rs:106-116 | a Community Chest row totals 1/16 at Go, 1/16 at GoToJail, 14/16 on the square and 0 elsewhere |
| TransMatrix.ChanceTargets | monopoly-lib/src/calc/transmatrix.rs:117-132 | a Chance square's jumps follow the deck: Go, GoToJail, three named properties, the first rail, the next rail twice, the next utility, three back, six blanks, each 1/16 |
| TransMatrix.ChanceCard | monopoly-lib/src/calc/transmatrix.rs:121-130 | card k of the fresh deck sends the player to entry k of that list |
| TransMatrix.FixedCount | monopoly-lib/src/calc/transmatrix.rs:122-125 | the six fixed-destination cards land once each on 0, 30, 11, 24, 39 and 5 |
| TransMatrix.ChanceListCount | monopoly-lib/src/calc/transmatrix.rs:117-132 | how many of the sixteen cards land on q is `ChanceHits(p, q)` |
| TransMatrix.ListCount | monopoly-lib/src/calc/transmatrix.rs:117-132 | with the next rail and utility as given positions, the cards land on q `FixedHits(q) + RestHits(...)` times: once each on 0, 30, 11, 24, 39, 5, twice on the rail, once on the utility and three back, six times on the square |
| TransMatrix.ChanceRow | monopoly-lib/src/calc/transmatrix.rs:117-132 | a Chance row holds `ChanceHits(p, q)` sixteenths at q: 1 each at Go, GoToJail, 11, 24, 39 and 5, 2 at the next rail, 1 at the next utility, 1 three back and 6 on the square |
| TransMatrix.PlainRow | monopoly-lib/src/calc/transmatrix.rs:133-137 | every other square, GoToJail included, has probability 1 on itself and 0 elsewhere |
| TransMatrix.JumpRows | monopoly-lib/src/calc/transmatrix.rs:99-157 | the entries of the built jump matrix, square by square: the Community Chest, Chance and plain rows above |
| TransMatrix.RollsOk | monopoly-lib/src/calc/transmatrix.rs:182 | the 36 throws carry their own totals and double flags |
| TransMatrix.Throws | monopoly-lib/src/calc/transmatrix.rs:182 | the throws the matrix loop iterates over |
| TransMatrix.MoveState | monopoly-lib/src/calc/transmatrix.rs:188-230 | a state with a jail roll is at GoToJail with no doubles |
| TransMatrix.JailDoubleLeaves | monopoly-lib/src/calc/transmatrix.rs:193-195 | waiting in jail, a double moves to (Visit + sum, 0, 0) |
| TransMatrix.JailMissCounts | monopoly-lib/src/calc/transmatrix.rs:196-206 | waiting in jail, a miss leads to (Visit, 0, 0) on the third roll and otherwise to (GoToJail, 0, jailroll + 1) |
| TransMatrix.PayJailLeaves | monopoly-lib/src/calc/transmatrix.rs:208-211 | paying, the move is to (Visit + sum, 1 if double else 0, 0), and no wrap-around is needed |
| TransMatrix.ThirdDoubleJails | monopoly-lib/src/calc/transmatrix.rs:215-219 | outside jail, a third double gives (GoToJail, 0, 0) |
| TransMatrix.NormalMove | monopoly-lib/src/calc/transmatrix.rs:213-229 | outside jail, any other throw moves to (position + sum) mod 40 with jailroll 0; doubles count up on a double and reset on a non-double or on landing on GoToJail |
| TransMatrix.MoveStateCanonical | monopoly-lib/src/calc/transmatrix.rs:233 | every state a throw leads to is in the state map, so `unwrap` succeeds |
| TransMatrix.NeverShare | monopoly-lib/src/calc/transmatrix.rs:271-273 | a zero entry contributes nothing, so skipping it loses nothing |
| TransMatrix.Scaled | monopoly-lib/src/calc/transmatrix.rs:289 | each share is `probability * prob` |
| TransMatrix.ScaledTotal | monopoly-lib/src/calc/transmatrix.rs:270-290 | p times each entry of a row summing to 1 totals p |
| TransMatrix.JumpShapeAt | monopoly-lib/src/calc/transmatrix.rs:271-279 | what `process_jumps` reads: a valid entry, zero exactly when equal to `NEVER`, lowering the rank off the diagonal |
| TransMatrix.JumpRowTotal | monopoly-lib/src/calc/transmatrix.rs:267 | each jump-matrix row totals exactly 1 |
| TransMatrix.JumpStateCanonical | monopoly-lib/src/calc/transmatrix.rs:275-277 | the state a jump ends in (doubles cleared at GoToJail, jail roll carried) is in the state map, so `unwrap` succeeds |
| TransMatrix.ProcessJumps | monopoly-lib/src/calc/transmatrix.rs:257-292 | only row i changes; each entry (i, c) grows by `probability` times `Reach` of c, the chance that the chain of jumps from `moveState` comes to rest in the state of column c; the row total grows by exactly `probability`; the recursion terminates by rank |
| TransMatrix.ProcessJump | monopoly-lib/src/calc/transmatrix.rs:270-291 | one jump (position, pos): row i grows by `probability` times that jump's part of `Reach`: its chance in the column of the resting state when it stays, its chance times what the landing state reaches when it moves, nothing when the entry is `NEVER`; the row total grows by `probability * prob` |
| TransMatrix.StayJump | monopoly-lib/src/calc/transmatrix.rs:279-286 | a jump that stays adds `probability * prob` at the column of the state it rests in, and nowhere else |
| TransMatrix.ZeroRow | monopoly-lib/src/calc/transmatrix.rs:172-173 | a freshly zeroed row totals 0 |
| TransMatrix.StatesIndexed | monopoly-lib/src/calc/transmatrix.rs:176 | the index finds every state of the chain below the state count |
| TransMatrix.MoveRow | monopoly-lib/src/calc/transmatrix.rs:182-242 | the 36 throws from one start state add 1/36 to move-row entry c for each throw reaching the state of column c, and 1/36 of the sum over the throws of what each throw's state reaches in c to the combined row; both totals grow by 1 and no other row changes |
| TransMatrix.MoveRoll | monopoly-lib/src/calc/transmatrix.rs:187-237 | one throw adds 1/36 to the move-row entry of the state it reaches, and 1/36 times what that state reaches to each combined-row entry; no other row changes |
| TransMatrix.FillRow | monopoly-lib/src/calc/transmatrix.rs:172-246 | a row that starts at zero ends with `MoveProb` and `CombProb` in every entry, and both rows total 1 |
| TransMatrix.MoveEntries | monopoly-lib/src/calc/transmatrix.rs:232-234 | a move row filled from zero holds, in each column, the share of the throws landing there |
| TransMatrix.CombEntries | monopoly-lib/src/calc/transmatrix.rs:236-237 | a combined row filled from zero holds the average over the throws of what each reaches |
| TransMatrix.FillNext | monopoly-lib/src/calc/transmatrix.rs:176-246 | after row k is filled, the first k + 1 rows of both matrices hold their entries and total 1, and the rest are still zero |
| TransMatrix.BuiltNext | monopoly-lib/src/calc/transmatrix.rs:176-246 | the rows before k, kept, and row k, filled, make k + 1 rows built |
| TransMatrix.BuildMoveMat | monopoly-lib/src/calc/transmatrix.rs:165-255 | both matrices are square over the states and stochastic; entry (r, c) of `movemat` is the share of the 36 throws of `dice_rolls` from state r that reach the state of column c, and of `combmat` the average over those throws of the chance that the throw and its jumps end there |
| TransMatrix.TransMatrix.constructor | monopoly-lib/src/calc/transmatrix.rs:27-47 | the states are exactly the chain's, 118 or 120 of them, densely indexed; `jumpmat` holds the card and GoToJail jumps of `build_jumpmat`, `movemat` and `combinedmat` the throw shares of `build_movemat`, and all three are stochastic |
| SimBoard.ToBack | monopoly-lib/src/sim/mod.rs:181-183 | `remove(elem)` then `push_back` keeps the length and the cards |
| SimBoard.Shuffled | monopoly-lib/src/sim/mod.rs:177-185 | a shuffle by any picks keeps the length and the cards |
| SimBoard.ShuffleDeck | monopoly-lib/src/sim/mod.rs:177-185 | the shuffle loop over 4·len picks gives the spec shuffle, a permutation of the deck |
| SimBoard.Shuffle | monopoly-lib/src/sim/mod.rs:178-184 | the loop reaches the spec shuffle |
| SimBoard.ShuffledStep | monopoly-lib/src/sim/mod.rs:179-183 | one more pick moves the picked card to the back and leaves the rest of the shuffle to do |
| SimBoard.PickAt | monopoly-lib/src/sim/mod.rs:179 | each pick is a valid index of the deck |
| SimBoard.NewDecks | monopoly-lib/src/sim/mod.rs:42-48 | both decks built and shuffled are permutations of the fresh decks |
| SimBoard.Board.constructor | monopoly-lib/src/sim/mod.rs:38-66 | the new board is at Go with nothing counted, decks shuffled, front-of-deck choosers, and its counters consistent |
| SimBoard.Board.UpdateArrivals | monopoly-lib/src/sim/mod.rs:212-221 | the board changes as `AfterArrival` says |
| Simulation.AfterArrival | monopoly-lib/src/sim/mod.rs:212-221 | the counters keep their sizes |
| Simulation.ArrivalCounts | monopoly-lib/src/sim/mod.rs:212-221 | one arrival at the position and one move are counted, and a reason column unless the reason is `Roll` |
| Simulation.Recorded | monopoly-lib/src/sim/mod.rs:216-220 | the reason table keeps its shape |
| Simulation.CountSumBump | monopoly-lib/src/sim/mod.rs:213 | counting one arrival adds one to the sum of arrivals |
| Simulation.RowSums | monopoly-lib/src/sim/tests.rs:59 | the per-space sums of the reason table |
| Simulation.ReasonBump | monopoly-lib/src/sim/mod.rs:219 | counting one reason adds one to the total of the table |
| SimBoard.Board.NextCh | monopoly-lib/src/sim/mod.rs:228-233 | returns the old front card and rotates it to the back |
| SimBoard.Board.NextCc | monopoly-lib/src/sim/mod.rs:255-260 | returns the old front card and rotates it to the back |
| Simulation.Rotate | monopoly-lib/src/sim/mod.rs:228-233 | the front card moves to the back: same length and cards, the rest moved up one |
| Simulation.RotationsSplit | monopoly-lib/src/sim/mod.rs:228-233 | after k draws the first k cards sit, in order, behind the rest |
| Simulation.DeckCycles | monopoly-lib/src/sim/mod.rs:228-233 | a full cycle of draws restores the deck, and the k-th draw is card k |
| Simulation.RotateOnBoard | monopoly-lib/src/sim/mod.rs:228-233 | rotating keeps every Chance card on the board |
| SimBoard.Board.ChooseCh | monopoly-lib/src/sim/mod.rs:236 | the card chosen and the deck afterwards are `PickChance`'s |
| SimBoard.Board.ChooseCc | monopoly-lib/src/sim/mod.rs:263 | the card chosen and the deck afterwards are `PickChest`'s |
| Simulation.PickChance | monopoly-lib/src/sim/mod.rs:236 | the deck stays a non-empty permutation, and the card and the deck stay on the board |
| Simulation.PickChest | monopoly-lib/src/sim/mod.rs:263 | the deck stays a non-empty permutation |
| Simulation.Depth | monopoly-lib/src/sim/mod.rs:187-195 | the termination measure of `move_to`: zero exactly on spaces that send the player nowhere |
| Simulation.ChanceDest | monopoly-lib/src/sim/mod.rs:238-247 | only a blank card has no destination; any destination is on the board with a lower depth |
| Simulation.ChestDest | monopoly-lib/src/sim/mod.rs:265-269 | only a blank has no destination; Go and Visit send nowhere |
| Simulation.FoundSpaces | monopoly-lib/src/sim/mod.rs:121 | `find(Go)` is 0 and `find(Jail)` is 10 |
| Simulation.Zeros | monopoly-lib/src/sim/mod.rs:58-63 | n zero counters |
| Simulation.ZeroRows | monopoly-lib/src/sim/mod.rs:59 | a table of zero rows |
| Simulation.CountSumZeros | monopoly-lib/src/sim/mod.rs:58 | zero counters sum to 0 |
| Simulation.ZeroReasons | monopoly-lib/src/sim/mod.rs:59 | the fresh reason table totals 0 |
| Simulation.NewGame | monopoly-lib/src/sim/mod.rs:50-65 | `Board::new`: every array has its fixed size, the player is on Go out of jail, no turn or move has been counted, and the decks are those given |
| Simulation.NewGameSound | monopoly-lib/src/sim/mod.rs:50-65 | a new board's counters are consistent |
| Simulation.NewGameReady | monopoly-lib/src/sim/mod.rs:50-65 | a new board has both decks and only on-board Chance cards |
| SimBoard.Board.MoveTo | monopoly-lib/src/sim/mod.rs:187-210 | the board changes as `AfterMove` says |
| SimBoard.Board.Jump | monopoly-lib/src/sim/mod.rs:190-195 | the board changes as `AfterJump` says |
| SimBoard.Board.DrawChance | monopoly-lib/src/sim/mod.rs:235-248 | the board changes as `AfterChance` says |
| SimBoard.Board.DrawCommunityChest | monopoly-lib/src/sim/mod.rs:262-270 | the board changes as `AfterChest` says |
| Simulation.AfterMove | monopoly-lib/src/sim/mod.rs:187-210 | the game stays ready; the player rests on `elem` or on a space of lower depth; turns, doubles and throw counts do not change |
| Simulation.AfterJump | monopoly-lib/src/sim/mod.rs:190-195 | the same for the jump on the space just reached |
| Simulation.AfterChance | monopoly-lib/src/sim/mod.rs:235-248 | the same for a Chance draw |
| Simulation.AfterChest | monopoly-lib/src/sim/mod.rs:262-270 | the same for a Community Chest draw |
| Simulation.AfterCard | monopoly-lib/src/sim/mod.rs:238-247 | the same for following a card |
| Simulation.MoveArrivesOnce | monopoly-lib/src/sim/mod.rs:187-210 | `move_to` counts exactly one arrival, at the end of the jump chain, which is never GoToJail; with no jump the given reason is recorded there and the jail roll is 1 exactly when sent to Visit by anything but a roll; every jump records one reason |
| Simulation.JumpArrives | monopoly-lib/src/sim/mod.rs:190-195 | a jump counts nothing, or one arrival with one reason |
| Simulation.ChanceArrives | monopoly-lib/src/sim/mod.rs:235-248 | a Chance draw counts nothing (blank), or one arrival with one reason |
| Simulation.ChestArrives | monopoly-lib/src/sim/mod.rs:262-270 | a Community Chest draw counts nothing, or one arrival with one reason |
| Simulation.CardArrives | monopoly-lib/src/sim/mod.rs:238-247 | following a card counts one arrival, with a card reason |
| Simulation.Settle | monopoly-lib/src/sim/mod.rs:198-209 | arriving where nothing jumps counts the arrival with the given reason |
| Simulation.Jumped | monopoly-lib/src/sim/mod.rs:197-198 | when the chain moved on, its arrival is the one counted |
| Simulation.AfterThrow | monopoly-lib/src/sim/mod.rs:88 | counting a throw keeps the counter sizes |
| Simulation.Ahead | monopoly-lib/src/sim/mod.rs:127 | (position + total) mod 40 |
| Simulation.Advance | monopoly-lib/src/sim/mod.rs:127 | a roll's move keeps the game ready and the turn counters unchanged |
| Simulation.AfterJailRoll | monopoly-lib/src/sim/mod.rs:93-113 | a roll from jail keeps the game ready and the turn counters unchanged |
| Simulation.Total | monopoly-lib/src/sim/mod.rs:85 | a throw's total is 2..12 |
| Simulation.AfterRolls | monopoly-lib/src/sim/mod.rs:80-133 | the loop ends ready, with at least the doubles it started with and at most 3 |
| Simulation.AfterTurn | monopoly-lib/src/sim/mod.rs:72-139 | a turn counts exactly one more turn and keeps the game ready |
| Simulation.AfterRun | monopoly-lib/src/sim/mod.rs:136-138 | counting the run of doubles keeps the sizes |
| Simulation.Started | monopoly-lib/src/sim/mod.rs:76 | `turns += 1` |
| Simulation.RollsCases | monopoly-lib/src/sim/mod.rs:80-133 | one pass of the loop, case by case: a jail roll, a third double to Visit as `TripleDouble`, a non-double's move, a double that goes on or is jailed |
| Simulation.MoveTally | monopoly-lib/src/sim/mod.rs:187-210 | a counted throw and a move tally one move |
| Simulation.TallyOne | monopoly-lib/src/sim/mod.rs:88 | a throw plus one arrival tally one move, and count that throw |
| Simulation.AdvanceTally | monopoly-lib/src/sim/mod.rs:127 | a roll's move tallies one move |
| Simulation.JailRollTally | monopoly-lib/src/sim/mod.rs:93-113 | a roll from jail tallies one move |
| Simulation.TallyChain | monopoly-lib/src/sim/mod.rs:80-133 | tallies of consecutive moves add up |
| Simulation.RollsTally | monopoly-lib/src/sim/mod.rs:80-133 | the rolls of a turn make one to three tallied moves, with at least as many moves as doubles and at most one more, and count the first throw |
| Simulation.RollsFromJail | monopoly-lib/src/sim/mod.rs:93-113 | the same when rolling from jail |
| Simulation.RollsTriple | monopoly-lib/src/sim/mod.rs:115-123 | the same on a third double |
| Simulation.RollsSingle | monopoly-lib/src/sim/mod.rs:126-132 | the same on a non-double |
| Simulation.RollsToJail | monopoly-lib/src/sim/mod.rs:129-132 | the same on a double that lands in jail |
| Simulation.RollsAgain | monopoly-lib/src/sim/mod.rs:115-132 | the same on a double that rolls again |
| Simulation.RollsStep | monopoly-lib/src/sim/mod.rs:80-133 | a tallied move followed by counted rolls is counted rolls |
| Simulation.TurnKeepsSound | monopoly-lib/src/sim/tests.rs:58-59 | after any turn: the arrivals sum to the moves, the throws to the moves, the reasons are at most the moves, the double runs at most the turns, and a jail roll only at Visit |
| Simulation.CountRun | monopoly-lib/src/sim/mod.rs:136-138 | counting the run of doubles keeps the counters consistent |
| Simulation.TurnIsRolls | monopoly-lib/src/sim/mod.rs:72-139 | a turn is its rolls, then the count of its doubles |
| Simulation.SingleRoll | monopoly-lib/src/sim/mod.rs:126-132 | outside jail, a turn whose first throw is not a double is that one roll's move |
| Simulation.JailWaitMiss | monopoly-lib/src/sim/mod.rs:99-110 | waiting in jail, a miss stays at Visit, raising the jail roll (to 0 after the third), and counts a `NoDouble` arrival, or a `Roll` arrival on the last; no double is counted |
| Simulation.JailWaitDouble | monopoly-lib/src/sim/mod.rs:95-97 | waiting in jail, a double moves by its total, ends the turn, counts no double and, where the space reached sends nowhere, counts a plain roll arrival there |
| Simulation.RollLands | monopoly-lib/src/sim/mod.rs:126-132 | a non-double outside jail lands `total` ahead and ends the turn, with one arrival counted there |
| Simulation.GoToJailLands | monopoly-lib/src/sim/tests.rs:7-16 | from 28 a double of 2 reaches GoToJail, ending at Visit with jail roll 1, one `GoToJail` arrival, and one double counted |
| Simulation.ChanceToChest | monopoly-lib/src/sim/tests.rs:196-218 | from 31 a throw of 5, Back3 and a blank: one arrival, at 33 with reason `CHCard` |
| Simulation.ChanceBack | monopoly-lib/src/sim/mod.rs:245 | Back3 at 36 is a move to 33 with reason `CHCard` |
| Simulation.ChanceToChestToGo | monopoly-lib/src/sim/tests.rs:220-242 | from 31 a throw of 5, Back3 and a Go card: one arrival, at Go with reason `CCCard` |
| Simulation.BackToGo | monopoly-lib/src/sim/mod.rs:266 | Back3 then Go from 33 amounts to a move from 33 to Go with reason `CCCard` |
| Simulation.JailRollsFail | monopoly-lib/src/sim/tests.rs:4-60 | the five turns of the test: positions 10, 10, 10, 10, 13; jail rolls 1, 2, 3, 0, 0; five turns and moves; four arrivals at 10 and one at 13; reasons `GoToJail` once and `NoDouble` twice |
| Simulation.JailRun | monopoly-lib/src/sim/tests.rs:55-59 | the counters of those five turns add up |
| Simulation.JailDoubleOut | monopoly-lib/src/sim/mod.rs:93-97 | waiting in jail, a double of 4 moves to space 14 with a plain roll, clearing the jail roll; one turn and one move |
| Simulation.VisitThree | monopoly-lib/src/sim/mod.rs:115-131 | out of jail on the Visit space, a throw of 1 and 2 moves to space 13 and ends the turn: one turn, one move, one arrival at 13 |
| Simulation.JailRollsSucceedFirst | monopoly-lib/src/sim/tests.rs:62-95 | `test_jail_rolls_succ1`: positions 10 then 14, jail rolls 1 then 0, two turns and moves, one arrival each at 10 and 14, one `GoToJail` reason |
| Simulation.JailRollsSucceedSecond | monopoly-lib/src/sim/tests.rs:97-140 | `test_jail_rolls_succ2`: positions 10, 10, 14; jail rolls 1, 2, 0; three turns and moves; two arrivals at 10 and one at 14; reasons `GoToJail` and `NoDouble` |
| Simulation.FreedAfterMiss | monopoly-lib/src/sim/tests.rs:132-139 | the counters of those three turns add up |
| Simulation.JailRollsSucceedThird | monopoly-lib/src/sim/tests.rs:142-194 | `test_jail_rolls_succ3`: positions 10, 10, 10, 14; jail rolls 1, 2, 3, 0; four turns and moves; three arrivals at 10 and one at 14; reasons `GoToJail` once and `NoDouble` twice |
| Simulation.FreedRun | monopoly-lib/src/sim/tests.rs:186-193 | the counters of those four turns add up |
| SimBoard.Board.RollOnce | monopoly-lib/src/sim/mod.rs:80-133 | one pass of the loop: either the break, with the loop's result, or the next pass with one more double and the same result to come |
| SimBoard.Board.CountDoubles | monopoly-lib/src/sim/mod.rs:136-138 | the board changes as `AfterRun` says |
| SimBoard.Board.JailRoll | monopoly-lib/src/sim/mod.rs:93-113 | the board changes as `AfterJailRoll` says |
| SimBoard.Board.TurnWithDice | monopoly-lib/src/sim/mod.rs:72-139 | the board changes as `AfterTurn` says |
| LinkSplit.MatchFromAll | monopoly-wasm/package/src/main.rs:176 | comparing from index i on matches exactly when every later character matches |
| LinkSplit.MatchAt | monopoly-wasm/package/src/main.rs:176 | where the pattern fits, the comparison decides whether it occurs |
| LinkSplit.FindFrom | monopoly-wasm/package/src/main.rs:176-177 | a found index is at or after the cursor, with the pattern fitting |
| LinkSplit.FindFromSpec | monopoly-wasm/package/src/main.rs:176-177 | the search finds an occurrence, and no earlier one; `None` means there is none |
| LinkSplit.FindShift | monopoly-wasm/package/src/main.rs:176-178 | `s[pos..].find(p) + pos` is the search from pos on, so the cursor arithmetic is right |
| LinkSplit.AtClose | monopoly-wasm/package/src/main.rs:178 | `)` occurs at j exactly when s[j] is `)` |
| LinkSplit.CloseFound | monopoly-wasm/package/src/main.rs:178 | the first `)` from idx on, with no `)` before it |
| LinkSplit.MarkerOpen | monopoly-wasm/package/src/main.rs:178-182 | the marker holds no `)`, so the link ends after the marker |
| LinkSplit.SplitTail | monopoly-wasm/package/src/main.rs:188-192 | with no marker left, the rest is the last text and the loop ends |
| LinkSplit.SplitStuck | monopoly-wasm/package/src/main.rs:178 | a marker with no `)` after it panics there, before its text callback |
| LinkSplit.SplitLink | monopoly-wasm/package/src/main.rs:176-186 | a closed marker gives a text, then a link, then the scan from after the `)` |
| LinkSplit.LogTail | monopoly-wasm/package/src/main.rs:188-192 | the last text completes the log |
| LinkSplit.LogStuck | monopoly-wasm/package/src/main.rs:178 | at an unclosed marker, the log so far is all there is |
| LinkSplit.LogLink | monopoly-wasm/package/src/main.rs:180-186 | a text and a link extend the log, and the cursor moves past the `)` |
| LinkSplit.LinkAt | monopoly-wasm/package/src/main.rs:176-182 | the link name lies between the marker and the first `)` after it |
| LinkSplit.Split | monopoly-wasm/package/src/main.rs:174-193 | the scan from the cursor on: every segment lies between the cursor and the end of the input, and a panic index is a position of the input at or after the cursor |
| LinkSplit.Parse | monopoly-wasm/package/src/main.rs:164-202 | `parse_file` gives `Ok(false)` exactly for input that is not UTF-8, and otherwise a scan whose segments lie within the input |
| LinkSplit.ParseFile | monopoly-wasm/package/src/main.rs:164-202 | `parse_file`'s loop produces exactly the specified sequence of callbacks, or `false` for non-UTF-8 input |
| LinkSplit.Scan | monopoly-wasm/package/src/main.rs:174-193 | the loop reports every span, in order, until the input ends or a link is left open |
| LinkSplit.ClosedSpan | monopoly-wasm/package/src/main.rs:180-186 | the input from the cursor through a closed link is the text, the marker, the name and the `)` |
| LinkSplit.Layout | monopoly-wasm/package/src/main.rs:174-193 | the cursor never moves back |
| LinkSplit.LayoutPair | monopoly-wasm/package/src/main.rs:180-186 | a text and a closed link carry the layout on past the `)` |
| LinkSplit.SplitLayout | monopoly-wasm/package/src/main.rs:174-193 | the segments are laid out to the end of the input, or up to the unclosed marker |
| LinkSplit.LayoutJoin | monopoly-wasm/package/src/main.rs:174-193 | segments laid out between two cursors put back together are the input between them |
| LinkSplit.SpellPair | monopoly-wasm/package/src/main.rs:180-186 | text, marker, name, `)` and the rest spell the input |
| LinkSplit.JoinCons | monopoly-wasm/package/src/main.rs:180-186 | joining is piecewise |
| LinkSplit.JoinLink | monopoly-wasm/package/src/main.rs:180-186 | a text and a closed link before the rest spell the input |
| LinkSplit.SplitJoins | monopoly-wasm/package/src/main.rs:174-193 | the texts, with `$link(` + name + `)` put back between them, reproduce the input exactly |
| LinkSplit.SplitPanics | monopoly-wasm/package/src/main.rs:178 | a panic strikes only at a marker from the cursor on with no `)` after it |
| LinkSplit.SplitPrefix | monopoly-wasm/package/src/main.rs:178 | before a panic the segments reproduce the input up to the unclosed marker |
| LinkSplit.AlternatingPair | monopoly-wasm/package/src/main.rs:180-184 | a clean text and link keep the callbacks alternating |
| LinkSplit.PairClean | monopoly-wasm/package/src/main.rs:176-182 | the text before a link holds no marker, and the link name no `)` |
| LinkSplit.SplitAlternates | monopoly-wasm/package/src/main.rs:180-190 | the callbacks run text, link, text, link, …, every text free of markers and every link name free of `)` |
| LinkSplit.SplitParity | monopoly-wasm/package/src/main.rs:180-190 | a finished parse makes an odd number of calls, ending with the one final text |
| LinkSplit.CleanContent | monopoly-wasm/package/src/main.rs:180-184 | what the callbacks receive: a text with no marker, a link with no `)` |
| LinkSplit.MarkerUnclosed | monopoly-wasm/package/src/main.rs:178 | any marker from the cursor on with no `)` after it makes the scan panic |
| LinkSplit.UnclosedExactly | monopoly-wasm/package/src/main.rs:178 | the scan panics exactly when some marker from the cursor on has no `)` after it |

## Left out

- The floating-point steady-state solver (`build_steady`, `steady_summary`, `as_f64`) and the f64 `Display` values: floating-point numerics.
- nalgebra's `DMatrix`: a foreign library; matrices are `array2`.
- Machine integers: `Probability` is over unbounded integers, so i64/u64 overflow in the operators, and u64 wrap-around in the simulator's counters, are not modelled.
- Randomness: `thread_rng`, `dice_roll`, `random_ch` and `random_cc` become inputs. The shuffle indices are a parameter, the dice are the `turn_with_dice` closure, and a card chooser is either "front of the deck" or a fixed card. The random choosers themselves are not modelled.
- `Board::turn`, which only feeds `dice_roll` into `turn_with_dice`; and the simulator's read-only getters.
- Debug `print!` output in `transmatrix.rs`, and the file and mmap handling of the web page generator.
- Callbacks: the model's callbacks append spans to a log. The errors a real callback can return are not modelled.
- UTF-8 decoding is an input (`None` for bytes that are not UTF-8), and text indices are characters rather than byte offsets.
- Panics in `find`, `find_next`, `set`, `unwrap` and `startidx - 3` are preconditions, each proved to hold where the code calls it. The one exception is `parse_file`'s unclosed `$link(`, which is an explicit outcome because it depends on the input.
- `monopoly-lib/src/lib.rs`, an older duplicate of the simulator, is not part of this model. Neither are the `Display` strings of the move reasons, or `strategy.rs` (the strategy is the two-valued datatype `States.Strategy`).
- `Space::Jail` is read as the `Visit` space (index 10).
- Dice.Sort: `sorted_by` is modelled by an insertion sort. Dice.SortIsUnique shows that any sort by the same key gives the same list.
- Spaces.ShortDescRoundTrip: proved only for groups 0..7, the ones `set` accepts.
- Simulation.JailWaitDouble: states the final position and arrival only when the space reached sends nowhere. A card or GoToJail reached from jail is covered by Simulation.MoveArrivesOnce instead.
- Simulation.RollLands: states only rolls that land on a space that sends nowhere.
- ExactProbability.New: requires a positive denominator. The source's `new(n, 0)` does not check: for n ≠ 0 it returns a fraction ±1/0, and for n = 0 it divides by a zero gcd. Fractions with denominator 0 are not modelled.
- ExactProbability.Reciprocal: requires a non-zero value. The source's `reciprocal()` of `NEVER` returns 1/0 without panicking.
- ExactProbability.Div: requires a non-zero divisor, because it multiplies by the reciprocal; the source's `a / NEVER` yields a denominator of 0.
- ExactProbability.DivInt: requires a positive divisor; the source's division by the integer 0 is not modelled.
- Dice.DiceRolls: its own contract states only the count of 36. The order, the annotations and the double count are the lemmas Dice.RollsInOrder, Dice.RollsAnnotated and Dice.SixDoubles.
- TransMatrix.BuildJumpMat: states each entry by its value (the total probability of the jumps that land there), not by its fraction representation.
