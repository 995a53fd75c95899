# Advent of Code 2023, days 1–5 and 7–24, in Dafny

A model of the puzzle solutions in the Rust repository `advent_of_code_2023`.
Each solved day `src/dayNN.rs` becomes one Dafny module `DayNN` in `dayNN.dfy`;
`common.dfy` (module `Common`) holds what several days share: an `Option`
type, Rust's `Ordering` and `cmp`, sums, gcd and lcm.

Every day keeps the form of its Rust code. Iterators, closures and recursive
helpers become functions. Loops that update variables become methods with
invariants, proved against a specification function. Day 20's module state,
which the source updates in place, becomes a class. Each day's puzzle input
is given as the already parsed value: the `aoc_parse` grammars are not part
of the model. The contracts say what the answers mean: the least heat loss
over all crucible routes, the reachable plots with the right parity, the
longest hike over all simple paths, the number of arrangements of a spring
record, and so on. Panics in the source (`unwrap` on `None`, an index out of
range, `unreachable!`) become either an `Option` result or the `requires`
the source silently demands of its callers. Nothing in the project has been
compiled or run: everything here is a statement proved by the verifier.

## Model

| member | source | states |
|---|---|---|
| Day01.Find | src/day01.rs:9-14 | the first ASCII digit of the line: a digit sits at the index and none before it; `None` only when the line has no digit |
| Day01.FindLast | src/day01.rs:16-22 | the last ASCII digit of the line, found from the back: a digit at the index and none after it |
| Day01.CalibrationValue | src/day01.rs:8-26 | for a line with a digit (the source unwraps), ten times its first digit plus its last digit, hence at most 99 |
| Day01.Part1 | src/day01.rs:28-34 | the sum of the lines' calibration values is at most 99 per line |
| Day01.BackWordsAreReversed | src/day01.rs:86-104 | the backward scan compares each word's letters from the end, i.e. it matches the reversed words |
| Day01.CompletedWord | src/day01.rs:57-71 | the first word, in the order one to nine, whose matcher completes on this character; `None` when no matcher completes |
| Day01.Scan | src/day01.rs:52-75 | the forward scan as written stops at the first ASCII digit or at the first character on which some word's matcher completes, reporting that word |
| Day01.FeedWords | src/day01.rs:57-74 | the inner loop over the nine matchers returns the word `CompletedWord` names, and when none completes every matcher has moved one character on |
| Day01.ScanDigit | src/day01.rs:48-75 | the labelled loop with its array of nine letter indices yields the digit `Scan` reports, 0 when none is found |
| Day01.SpelledCalibrationValue | src/day01.rs:45-111 | the value as written: ten times the forward scan's digit plus the backward scan's digit over the reversed words |
| Day01.RunTracks | src/day01.rs:62-73 | a matcher's index always names a prefix of its word that the text read so far ends with |
| Day01.SpelledDigitsEndDistinctly | src/day01.rs:46 | no two of the nine words (forwards or reversed) can end at the same position |
| Day01.OneWordEnds | src/day01.rs:46 | at most one spelled digit ends at any position |
| Day01.CompletedEnds | src/day01.rs:62-65 | a word whose matcher completes on a character really ends at that character |
| Day01.CompletedIsHit | src/day01.rs:62-65 | a completed word is the intended digit at that position |
| Day01.ScanSound | src/day01.rs:52-75 | whatever the scan reports is a real digit or word ending there with no ASCII digit before it; no report only for a line without ASCII digits |
| Day01.ScanSkips | src/day01.rs:52-75 | a character that is no digit and completes no word is passed over with every matcher still short |
| Day01.FirstHit | src/day01.rs:45-75 | the intended first digit: the first position where an ASCII digit or a whole spelled word ends, with nothing found before it |
| Day01.ScanNotBeyondFirst | src/day01.rs:52-75 | the scan as written never reports past the intended first digit, and agrees with it when it reports at the same position |
| Day01.ForwardScanMissesOverlap | src/day01.rs:62-73 | on "ninine" the forward scan finds nothing, though "nine" ends at the last character |
| Day01.BackwardScanMissesOverlap | src/day01.rs:86-104 | on "threee" the backward scan finds nothing, though "three" ends one character before the end |
| Day01.CorrectedSpelledValue | src/day01.rs:45-111 | the corrected part-two value: ten times the intended first digit plus the intended last digit, at most 99 |
| Day01.Part2 | src/day01.rs:113-119 | the sum of the corrected values of all lines, at most 99 per line |
| Day02.Part1 | src/day02.rs:37-55 | the sum of the ids of the games whose every draw fits in 12 red, 13 green and 14 blue: never more than all ids, all ids when every game fits, 0 when none does |
| Day02.Part1Append | src/day02.rs:44-54 | the filtered sum splits over any two halves of the record |
| Day02.MaximaAreMaxima | src/day02.rs:58-72 | each colour's maximum bounds every draw of the game and is reached by some draw |
| Day02.Fewest | src/day02.rs:57-75 | the per-colour maxima form a bag every draw fits in, and no bag every draw fits in is smaller in any colour |
| Day02.PowerBounds | src/day02.rs:57-75 | the product of the per-colour maxima is at least the product of any one draw, and at most the product of any bag that holds every draw |
| Day02.Power | src/day02.rs:57-75 | `power` is at least the product of the counts of any single draw and at most the product of any bag that holds every draw, so it is the power of the fewest cubes that make the game possible |
| Day02.Part2 | src/day02.rs:78-80 | no contract of its own: the sum of the games' powers, every game having at least one draw since `power` unwraps its maxima; what each power means is stated by Day02.Power |
| Day02.ExamplePart1 | src/day02.rs:93-95 | the worked example gives 8 for part one |
| Day02.ExamplePossible | src/day02.rs:84-88 | in the worked example games 3 and 4 draw too many cubes and the others fit |
| Day02.ExamplePart2 | src/day02.rs:98-100 | the worked example gives 2 286 for part two |
| Day03.DigitStep | src/day03.rs:36-45 | a digit opens a number at this column or extends the open one, its value growing by one decimal place |
| Day03.OtherStep | src/day03.rs:46-58 | any other character closes the open number, pushing its segment and value |
| Day03.ClosedNumbers | src/day03.rs:46-58 | closing adds a maximal run of digits with its decimal value, after and apart from the earlier numbers |
| Day03.ClosedCoverage | src/day03.rs:46-58 | after closing, every digit read so far lies inside some recorded number |
| Day03.EndOfLine | src/day03.rs:76-84 | at the end of the line the numbers are exactly the line's maximal digit runs, in order |
| Day03.SymbolStep | src/day03.rs:60-71 | every character other than a digit or '.' is recorded at its coordinates |
| Day03.ParseLine | src/day03.rs:27-86 | one line's loop yields exactly its numbers, in order, and records its symbols on top of the earlier ones |
| Day03.ParseInput | src/day03.rs:22-90 | one list of numbers per line, each exactly that line's numbers, and the map of every symbol |
| Day03.HitsAreAdjacency | src/day03.rs:98-120 | the scan above and below plus the two side cells cover exactly the cells adjacent to a number |
| Day03.ScanAboveBelow | src/day03.rs:98-109 | the loop over the columns of the lines above and below finds a symbol exactly when one is there |
| Day03.Part1AsWritten | src/day03.rs:93-125 | the loops as written, with the side test's `break` leaving the line and a number touched both ways added twice |
| Day03.Part1 | src/day03.rs:93-125 | the corrected sum: every number adjacent to a symbol added once |
| Day03.SideSymbolEndsLine | src/day03.rs:111-120 | on the line "1*2" the code as written gives 1 where the part numbers add up to 3 |
| Day03.BothHitsCountTwice | src/day03.rs:98-120 | on the lines "*." and "1*" the code as written gives 2 where the only part number is 1 |
| Day03.EarlyStopLosesNothing | src/day03.rs:147-149 | stopping at the first number to the right of the gear loses nothing on a line whose numbers come in increasing x |
| Day03.SortedNumbers | src/day03.rs:34-84 | the parser makes each line's numbers in increasing x |
| Day03.GearSumRemove | src/day03.rs:131-158 | the gear-ratio sum does not depend on the order in which the map yields the symbols |
| Day03.CollectGearNumbers | src/day03.rs:137-153 | the numbers collected for a gear are the touching numbers of the three lines around it, missing lines skipped |
| Day03.Part2 | src/day03.rs:128-161 | the sum over every '*' with exactly two touching numbers of their product |
| Day03.ParsedGearNumbers | src/day03.rs:137-153 | on a parsed schematic a gear's numbers are all numbers of the three lines whose span reaches its column |
| Day04.Matches | src/day04.rs:30-34 | the number of winning numbers, counted with repetition, that are among the numbers you have, at most the number of winning numbers |
| Day04.NoMatches | src/day04.rs:30-40 | a card has no match exactly when none of its winning numbers is among yours |
| Day04.ScoreDoubles | src/day04.rs:36-40 | no match scores 0, the first match 1 point, and each further match doubles the points |
| Day04.Part1 | src/day04.rs:26-43 | the total of the card scores, 0 when no card has a match |
| Day04.FinalCountsPrefix | src/day04.rs:62-67 | the copies of the first cards are settled before later cards are processed |
| Day04.FinalCountsAreWon | src/day04.rs:56-67 | a card ends with its original copy plus what the earlier cards win of it; the first card keeps one copy |
| Day04.WinCards | src/day04.rs:45-59 | adds the card's copies to each of the next `matches` cards and changes no other entry |
| Day04.SumCopies | src/day04.rs:69 | the sum of the table of copies |
| Day04.Part2 | src/day04.rs:62-70 | the total number of cards at the end, every card starting with one copy and winning copies of the following ones in order |
| Day04.FinalCountsPositive | src/day04.rs:63 | every card ends with at least its original copy |
| Day04.SumAtLeastLength | src/day04.rs:63-69 | part two counts at least one card per card |
| Day04.ExamplePart1 | src/day04.rs:84-86 | the worked example scores 13 points |
| Day04.ExamplePart2 | src/day04.rs:89-91 | the worked example ends with 1, 2, 4, 8, 14 and 1 copies, 30 cards in all |
| Day05.MapIdFirstLine | src/day05.rs:50-56 | the first line of a category map that covers an id decides where it goes |
| Day05.MapIdUncovered | src/day05.rs:50-57 | an id that no line covers keeps its value |
| Day05.LocationOf | src/day05.rs:46-61 | the loop over the maps, stopping at the first covering line of each, yields the location the maps give the seed |
| Day05.Part1 | src/day05.rs:64-71 | no contract of its own: the minimum of the seeds' locations, which the source unwraps, so there is at least one seed; its meaning is stated by Day05.Part1IsLeast |
| Day05.Part1IsLeast | src/day05.rs:64-71 | part one is at most every seed's location and equal to some seed's location |
| Day05.Partition | src/day05.rs:91-105 | the parts below, inside and above a map line partition an overlapping range, and the moved part is as wide as the part inside |
| Day05.InsideImage | src/day05.rs:100-105 | the ids inside the first overlapping line are moved by that line's offset |
| Day05.SplitImage | src/day05.rs:91-107 | the image of a range is the image of its part below, the moved part and the image of its part above |
| Day05.UncoveredImage | src/day05.rs:111 | a range that overlaps no line is copied unchanged |
| Day05.PassStep | src/day05.rs:84-108 | one split keeps the pass invariant (done ids plus the image of the waiting ids is the image of the input) and shrinks the waiting work |
| Day05.ApplyMap | src/day05.rs:81-115 | the worklist pass over one category map outputs exactly the image of the input ids, with as many ids as went in |
| Day05.SeedRanges | src/day05.rs:75-79 | the seed pairs become ranges holding exactly the seeds' ids, one range per pair |
| Day05.LowestStart | src/day05.rs:117-121 | the least start among the final ranges, reached by one of them |
| Day05.LocationImageStep | src/day05.rs:81-115 | passing the image under the first k maps through map k gives the image under the first k + 1 maps |
| Day05.LowestStartIsLowestId | src/day05.rs:117-121 | the lowest start of non-empty ranges is their lowest id |
| Day05.Part2 | src/day05.rs:74-122 | the lowest location of any seed in the seed ranges, itself some seed's location |
| Day05.ExamplePart1 | src/day05.rs:163-165 | the worked example gives 35 for part one |
| Day05.ExampleSeed82 | src/day05.rs:168-170 | in the worked example seed 82 of the range 79..92 reaches location 46 |
| Day07.CardOrderEnds | src/day07.rs:24-28 | the Ace beats every other card, the Joker loses to every other card, and a card equals itself |
| Day07.CardsEqual | src/day07.rs:24-28 | two cards compare equal exactly when they are the same card |
| Day07.MaxCountIsMax | src/day07.rs:53-57 | the largest count among the non-Joker cards bounds every such count and is reached unless it is 0 |
| Day07.MaxCountExceptIsMax | src/day07.rs:59-64 | the second largest count, over the cards other than the Joker and the most frequent one, bounds and is reached likewise |
| Day07.SecondCountIndependent | src/day07.rs:53-64 | whichever of several equally frequent cards `max_by` picks, the second count is the same |
| Day07.TypeBounds | src/day07.rs:44-67 | the two components of a hand type add up to at most five |
| Day07.FiveJokers | src/day07.rs:51-57 | a hand of five Jokers has type (5, 0) |
| Day07.CountCards | src/day07.rs:45-49 | the counting loop leaves in the map exactly the cards of the hand, each with its number of copies |
| Day07.MaxByCount | src/day07.rs:53-64 | the `max_by` scan over the map, in any visiting order, returns a card of largest count outside the excluded ones, or the default with count 0 |
| Day07.HandTypeOf | src/day07.rs:44-67 | `hand_type` gives (largest non-Joker count plus Jokers, second largest count), whatever order the map yields its entries |
| Day07.TypeFromCounts | src/day07.rs:51-66 | the maxima found over the count map are the counts the type is defined by |
| Day07.TypeIs | src/day07.rs:44-67 | the type of a hand from its most frequent non-Joker card and its runner-up |
| Day07.CompareCardSeqs | src/day07.rs:74 | card sequences of equal length compare card by card from the left, equal exactly when identical |
| Day07.TypeDecides | src/day07.rs:70-76 | hands are ranked by type first, larger first component then larger second component winning, and by their cards only on equal types |
| Day07.FirstDifferenceDecides | src/day07.rs:74 | of two hands whose first k cards agree, the (k+1)-th cards decide unless they are equal |
| Day07.HandsReverse | src/day07.rs:70-76 | comparing two hands the other way round gives the reverse answer |
| Day07.HandsEqual | src/day07.rs:70-76 | two hands compare equal exactly when they are the same hand |
| Day07.HandsTransitive | src/day07.rs:70-76 | the order on hands is transitive |
| Day07.HandOrder | src/day07.rs:70-76 | `Hand::cmp` answers in reverse when its arguments are swapped, answers Equal only for identical hands, and is transitive, which is what `sort_by` relies on |
| Day07.AscendingIsSorted | src/day07.rs:120 | a sequence whose neighbours are in order is sorted throughout |
| Day07.AscendingSnoc | src/day07.rs:120 | an ascending sequence stays ascending when an entry no lower than its last is appended |
| Day07.InsMultiset | src/day07.rs:120 | inserting an entry adds exactly that entry and loses none |
| Day07.InsAscending | src/day07.rs:120 | inserting an entry into an ascending sequence keeps it ascending; the last place goes to the new entry or to the old last one |
| Day07.StableSortedAscending | src/day07.rs:120 | the arrangement `sort_by` returns has its neighbours in order |
| Day07.StableSortedMultiset | src/day07.rs:120 | the arrangement `sort_by` returns holds exactly the entries given |
| Day07.StableSortedSorted | src/day07.rs:120 | the arrangement `sort_by` returns is sorted by hand and is a permutation of the entries given |
| Day07.InsKeepsOrder | src/day07.rs:120 | an inserted entry lands after every entry with the same hand, and no two entries with the same hand change places |
| Day07.StableSortedKeepsOrder | src/day07.rs:120 | the sort is stable: each hand's entries come out in the order they were dealt |
| Day07.StableSortedKeepsOrders | src/day07.rs:120 | the same for all hands at once |
| Day07.StableUnique | src/day07.rs:120 | two sorted arrangements that list every hand's entries in the same order are equal |
| Day07.LastsAgree | src/day07.rs:120 | two such arrangements end with the same entry |
| Day07.LastIsHighest | src/day07.rs:120 | in a sorted arrangement no entry has a higher hand than the last one |
| Day07.SameHand | src/day07.rs:70-76 | two hands that are each no higher than the other are the same hand |
| Day07.StableSortedIsTheStableSort | src/day07.rs:120 | any sorted arrangement that keeps every hand's entries in the order dealt is the one the sort returns, so the ranks are fixed even when a hand occurs twice |
| Day07.EqualHandsKeepOrder | src/day07.rs:120-126 | two entries with the same hand keep their order, and the later one takes rank 2 |
| Day07.InsPasses | src/day07.rs:120 | moving an entry one place left past a higher hand leaves the result of the insertion unchanged |
| Day07.InsStops | src/day07.rs:120 | the entry stops at the front, or behind the first hand that is not higher |
| Day07.SwapShape | src/day07.rs:120 | exchanging the moving entry with the one before it moves it one place left |
| Day07.Insert | src/day07.rs:120 | one insertion pass leaves the stable insertion of entry i into the prefix before it, and the rest unchanged |
| Day07.StableSortedStep | src/day07.rs:120 | sorting one more entry is inserting it into the sorted prefix |
| Day07.SortBy | src/day07.rs:118-120 | `sort_by` leaves the stable arrangement of the entries: sorted by hand, a permutation of what it was given, each hand's entries in their original order |
| Day07.SortedUnique | src/day07.rs:120 | with no hand twice, two sorted arrangements of the same entries are equal |
| Day07.LastsEqual | src/day07.rs:120 | with no hand twice, two sorted arrangements of the same entries end with the same entry |
| Day07.WinningsDetermined | src/day07.rs:122-126 | with no hand twice, every sorted arrangement gives the same winnings |
| Day07.TotalWinnings | src/day07.rs:118-126 | the sum of each bid times its rank in the stable sorted arrangement of the entries |
| Day07.Part1 | src/day07.rs:117-127 | the winnings of the hands as dealt, ranked by the stable sort |
| Day07.Jokerize | src/day07.rs:135-142 | every Jack of the hand becomes a Joker and every other card stays |
| Day07.JokerizeAll | src/day07.rs:131-146 | every entry's hand is jokerized and its bid kept |
| Day07.Part2 | src/day07.rs:130-155 | the winnings once every Jack is a Joker, ranked by the stable sort of the new hands |
| Day07.JokerizeCounts | src/day07.rs:138 | the Jacks' count moves to the Jokers and every other count stays |
| Day07.JokersNeverWeaken | src/day07.rs:51-66 | turning Jacks into Jokers never lowers the first component of the type |
| Day07.ExamplePart1 | src/day07.rs:168-170 | any ranking of the worked example's hands wins 6 440 |
| Day07.ExamplePart2 | src/day07.rs:173-175 | with Jacks as Jokers, any ranking of the worked example's hands wins 5 905 |
| Day08.Move | src/day08.rs:56-61 | one step from a node follows its left or right successor, which is again a node of the network |
| Day08.CycleStep | src/day08.rs:53 | the instructions are taken in turn and cycled: step n uses instruction n modulo their number |
| Day08.Part1 | src/day08.rs:49-69 | when ZZZ is reachable from AAA (otherwise the source never stops), the number of steps of the first arrival at ZZZ |
| Day08.PushCount | src/day08.rs:82-101 | each starting node's first arrival at a node ending in 'Z' is folded into the running least common multiple |
| Day08.Part2 | src/day08.rs:72-104 | the lcm fold of every starting node's first-arrival count, over the nodes ending in 'A'; by Day08.LcmFoldLeast this is their least common multiple |
| Common.Gcd | src/day08.rs:97 | Euclid's gcd, positive when either argument is |
| Common.GcdDivides | src/day08.rs:97 | the greatest common divisor divides both arguments |
| Common.Lcm | src/day08.rs:97 | `lcm` of two positive numbers is positive and a multiple of both |
| Day08.LcmFoldIsCommonMultiple | src/day08.rs:80-103 | the folded result is a positive common multiple of every count |
| Day08.LcmDividesCommonMultiple | src/day08.rs:97 | every common multiple of two positive numbers is a multiple of their lcm |
| Day08.LcmFoldLeast | src/day08.rs:80-103 | the folded result divides every common multiple of the counts, so no smaller positive step count is a multiple of all of them |
| Day08.AllAtZ | src/day08.rs:41-47 | under the condition the source states for its inputs (each walk reaches 'Z' at every multiple of its first count), all walks are at a 'Z' node together after the folded count |
| Day08.ExampleRepeated | src/day08.rs:49-69 | the example LLR over three nodes reaches ZZZ after six steps |
| Day08.ExampleDirect | src/day08.rs:49-69 | the example RL reaches ZZZ after two steps |
| Day08.ExampleGhosts | src/day08.rs:72-104 | in the part-two example the two walks first reach 'Z' after 2 and 3 steps |
| Day08.ExampleFold | src/day08.rs:97 | folding the counts 2 and 3, in either order, gives 6 |
| Day09.Differences | src/day09.rs:15-20 | the pairwise differences of a row: one element shorter, each the step between two neighbours |
| Day09.BelowShape | src/day09.rs:14-30 | each row pushed below holds the differences of the row above; only the last one stops the loop (all zero or fewer than two values) |
| Day09.TableShape | src/day09.rs:11-33 | the table starts with the history, each further row is the differences of the one above, and the last row stops it |
| Day09.TableNonEmpty | src/day09.rs:42-45 | for a history of at least two values every row has an element, so the source's `unwrap` of first and last succeeds |
| Day09.Derivatives | src/day09.rs:11-33 | the loop pushes the rows one at a time and returns the whole table |
| Day09.PushRow | src/day09.rs:14-30 | pushing the differences of the last row either completes the table or leaves the rest of it still to come |
| Day09.NextExtendsDifferences | src/day09.rs:39-45 | appending the extrapolated next value appends the next difference to the row of differences |
| Day09.Next | src/day09.rs:39-46 | no contract of its own: the last entries of the derivative table reduced from the bottom by addition; its meaning is stated by Day09.NextRecurrence and Day09.NextExtendsDifferences |
| Day09.Previous | src/day09.rs:54-61 | no contract of its own: the first entries of the derivative table reduced from the bottom by `first - extrapolation`; its meaning is stated by Day09.PreviousExtendsDifferences |
| Day09.NextRecurrence | src/day09.rs:41-44 | the next value is the last value plus the next difference |
| Day09.PreviousExtendsDifferences | src/day09.rs:54-60 | prepending the extrapolated previous value prepends the previous difference |
| Day09.ArithmeticProgression | src/day09.rs:36-63 | a history with constant step c extrapolates by c forwards and backwards |
| Day09.Part1 | src/day09.rs:36-48 | no contract of its own: the sum of every history's next value; every history has at least two values, since the source unwraps the last entry of every row |
| Day09.Part2 | src/day09.rs:51-63 | no contract of its own: the sum of every history's previous value, under the same requirement |
| Day09.ExampleParts | src/day09.rs:73-81 | the worked example gives 114 and 2 |
| Day10.TileDirections | src/day10.rs:33-41 | each of the six pipe characters has two different unit openings; no other character has any |
| Day10.ParseTile | src/day10.rs:27-44 | reading a tile: 'S' moves the start there, '.' adds nothing, a pipe is recorded with its openings |
| Day10.ParseInput | src/day10.rs:16-48 | the sketch of every tile with the bottom-right corner from the first line's length and the line count; `None` for an empty input or an unknown character, where the source panics |
| Day10.FoundFacts | src/day10.rs:54-80 | the start's openings found are listed neighbours, in their order, each at most once |
| Day10.StartPipeFacts | src/day10.rs:50-83 | the start's pipe, when two neighbours connect to it, has two different unit openings each pointing at a neighbour that points back |
| Day10.StartingPipe | src/day10.rs:50-83 | the scan of the eight neighbours gives the start's two openings, `None` where the source's conversion panics |
| Day10.FoundPrefix | src/day10.rs:76-78 | stopping after two connecting neighbours does not change the pipe found |
| Day10.WalkUnique | src/day10.rs:89-110 | the walk along the loop is determined: two stuck walks are the same |
| Day10.WalkExtend | src/day10.rs:95-105 | the walk goes on through the first opening to an unvisited position |
| Day10.WalkStep | src/day10.rs:89-109 | one pass of the loop moves to an unvisited neighbour through an opening, or reports that none is left |
| Day10.MainLoop | src/day10.rs:85-111 | the positions of the unique stuck walk from the start, each visited once; `None` when the start has no pipe |
| Day10.Part1 | src/day10.rs:114-116 | half the length of the loop |
| Day10.UncrossedRowEmpty | src/day10.rs:124-138 | a row the loop does not cross encloses nothing |
| Day10.InsideInRowBound | src/day10.rs:124-138 | the tiles of a row counted as enclosed are at most the row's tiles, none on a row made entirely of loop |
| Day10.ScanRow | src/day10.rs:125-137 | one row's scan flips `outside` at every loop tile opening downwards and counts every tile off the loop met while inside |
| Day10.Part2 | src/day10.rs:119-141 | the tiles off the loop with an odd number of downward-opening loop tiles to their left, row by row |
| Day11.Shift | src/day11.rs:33 | a galaxy moved along the pass's axis, its other coordinate kept |
| Day11.AscendingIsSorted | src/day11.rs:25 | galaxies whose neighbours are in order along the axis are sorted throughout |
| Day11.Insert | src/day11.rs:25 | one insertion pass extends the sorted prefix by one galaxy and keeps the same galaxies |
| Day11.SortBy | src/day11.rs:25 | `sort_unstable_by` on one coordinate: the galaxies end in order of it and are a permutation of the input |
| Day11.Expanded | src/day11.rs:30-34 | every galaxy shifted by (factor - 1) times the empty lines counted up to it |
| Day11.ExpandStep | src/day11.rs:30-34 | one step of the `iter_mut` pass keeps the running count of empty lines and rewrites one more galaxy |
| Day11.Expand | src/day11.rs:27-34 | the in-place pass after a sort leaves every galaxy expanded along the axis |
| Day11.EmptySplit | src/day11.rs:31 | the empty lines between two lines split at any line in between |
| Day11.GapsCountEmptyLines | src/day11.rs:31 | on sorted galaxies, the running count grows between two galaxies by exactly the empty lines between them |
| Day11.ExpandedDistance | src/day11.rs:27-45 | the distance along the axis between two galaxies grows by (factor - 1) for every empty line between them |
| Day11.ExpansionKeepsOrder | src/day11.rs:27-45 | for a factor of at least 1 expansion keeps the galaxies' order, strict order included, and the other coordinate |
| Day11.SumPairs | src/day11.rs:47-57 | the nested loops over i < j add up every pair's Manhattan distance |
| Day11.SumOfDistances | src/day11.rs:22-60 | the sum of the pairwise distances after expanding columns then rows; a non-empty image is required since `len() - 1` underflows otherwise |
| Day11.Part1 | src/day11.rs:63-65 | the sum with empty lines two wide |
| Day11.Part2 | src/day11.rs:68-70 | the sum with empty lines a million wide |
| Day12.Leading | src/day12.rs:57 | the springs at the front of a record in one condition: all of them are in it and the next one is not |
| Day12.RunsNone | src/day12.rs:43-44 | a record has no damaged run exactly when no spring in it is damaged, the case the recursion counts as one |
| Day12.RunsSkip | src/day12.rs:51-52 | springs in front that are not damaged add no damaged run |
| Day12.RunsAt | src/day12.rs:57-74 | the run that starts at a damaged spring is the first run of that suffix, as long as its damaged prefix |
| Day12.OffsetsLeading | src/day12.rs:51-59 | offsets before the first damaged spring that cover an operational spring add nothing |
| Day12.ArrangementsOfKnown | src/day12.rs:32-86 | with no unknown spring the count is one when the damaged runs equal the groups and zero otherwise |
| Day12.OffsetsLastGroup | src/day12.rs:61-69 | the last group placed at a damaged run counts one exactly when the runs from there are the groups |
| Day12.OffsetsAtRun | src/day12.rs:51-81 | on a known record the offsets from the first damaged spring count one exactly when the runs are the groups |
| Day12.OffsetsNextGroup | src/day12.rs:70-80 | a group that is not the last, followed by an operational spring, counts one exactly when the runs match |
| Day12.CacheStore | src/day12.rs:83 | storing a suffix's count under the key (remaining springs, remaining groups) keeps every cached count right |
| Day12.ArrangementsCountCache | src/day12.rs:32-86 | `arrangements_count_cache` returns the count of the plain recursion and leaves a cache that is still right |
| Day12.PlaceGroup | src/day12.rs:51-81 | one offset of the loop adds that offset's placements, or stops with all the remaining ones |
| Day12.PlaceNextGroup | src/day12.rs:70-80 | a group that is not the last needs an operational or unknown spring after it; it adds the count of the rest |
| Day12.ArrangementsCount | src/day12.rs:88-90 | the memoised count from an empty cache equals the plain recursion |
| Day12.Part1 | src/day12.rs:92-98 | the sum of the records' counts |
| Day12.UnfoldLayout | src/day12.rs:105-117 | the unfolded record is five copies joined by an unknown spring: it repeats with period n + 1 |
| Day12.RepeatLayout | src/day12.rs:118-125 | the repeated groups repeat the groups with period m |
| Day12.Part2 | src/day12.rs:100-129 | the sum of the counts of the records unfolded five times |
| Day13.RowRocks | src/day13.rs:14-22 | the rocks of one row are exactly its '#' cells, numbered from 1, in increasing column order |
| Day13.Rocks | src/day13.rs:11-24 | the parsed pattern holds exactly the cells (x + 1, y + 1) where row y has '#' at column x |
| Day13.RocksDistinct | src/day13.rs:23 | the parser yields each rock once, as the `HashSet` does |
| Day13.MirrorInvolution | src/day13.rs:38-42 | `2 * axis - v + 1` is its own inverse and swaps the two sides of the line |
| Day13.HasReflection | src/day13.rs:29-44 | no contract of its own: the `has_reflection` test, written as the source writes it; its meaning is stated by Day13.ReflectionIff |
| Day13.ReflectionIff | src/day13.rs:29-44 | a rock reflects exactly when its mirror image lies outside [1, max] or is a rock |
| Day13.ReflectionPairs | src/day13.rs:50-55 | when every rock reflects, the image of a rock that falls inside the pattern is a rock |
| Day13.ReflectCount | src/day13.rs:80-84 | the count of reflecting rocks is at most the pattern's size and equals it exactly when all of them reflect |
| Day13.OneFailureCounted | src/day13.rs:80-84 | with exactly one failing rock the count is one short of the size |
| Day13.CountNamesFailure | src/day13.rs:80-84 | a count one short of the size names a single failing rock |
| Day13.SmudgeIff | src/day13.rs:76-85 | the test `count == len - 1` holds exactly when one rock and only one fails to reflect |
| Day13.MaxCoordinate | src/day13.rs:47-48 | the unwrapped maximum is at least every rock's coordinate and is reached |
| Day13.FirstAxis | src/day13.rs:50-56 | `find` on 1..max yields the first line every rock reflects across, or 0 when there is none |
| Day13.FirstSmudgedAxis | src/day13.rs:76-86 | `find` yields the first line where all rocks but one reflect, or 0 |
| Day13.SummaryMeaning | src/day13.rs:46-65 | the summary is the column plus 100 times the row, and each is 0 exactly when no line reflects |
| Day13.Summary | src/day13.rs:46-65 | no contract of its own: the first reflecting column plus 100 times the first reflecting row; its meaning is stated by Day13.SummaryMeaning |
| Day13.CorrectedSummary | src/day13.rs:72-99 | no contract of its own: the same with the first lines that all rocks but one reflect across; its meaning is stated by Day13.FirstSmudgedAxis and Day13.SmudgeIff |
| Day13.Part1 | src/day13.rs:68-70 | no contract of its own: the sum of the patterns' summaries, each pattern with at least one rock since the source unwraps its maxima |
| Day13.Part2 | src/day13.rs:102-104 | no contract of its own: the sum of the corrected summaries, under the same requirement |
| Day13.SmudgedLineIsNew | src/day13.rs:72-99 | a line every rock reflects across is never a smudged line, so part two reports a new line |
| Day14.FillCount | src/day14.rs:29-31 | a stretch filled by the cluster loop holds exactly the cluster's rocks |
| Day14.PackRunCubes | src/day14.rs:28-35 | tilting leaves every cube where it was and puts no cube anywhere else |
| Day14.PackRunTotal | src/day14.rs:24-44 | tilting keeps the number of rounded rocks |
| Day14.PackRunRocks | src/day14.rs:28-35 | the rocks before each cube stay before it: no rock rolls past a cube |
| Day14.PackRunSettled | src/day14.rs:18-45 | after tilting no rounded rock has an empty cell in front of it |
| Day14.PackRunIdempotent | src/day14.rs:18-45 | tilting a tilted line again changes nothing |
| Day14.PackedFacts | src/day14.rs:18-45 | a tilted line keeps its cubes and its rocks between cubes, has every rock stopped and is a fixed point |
| Day14.CellOf | src/day14.rs:18-22 | the i-th cell of a line (a column for north and south, a row for west and east, counted from the edge rocks roll to) is on the platform |
| Day14.CellOfIndexOf | src/day14.rs:18-22 | cells and (line, place) pairs correspond one to one |
| Day14.IndexOfCellOf | src/day14.rs:18-22 | the inverse direction of the same correspondence |
| Day14.TiltedLines | src/day14.rs:15-153 | every line of the tilted platform is that line tilted |
| Day14.SameLines | src/day14.rs:15-153 | a platform is determined by its lines in any direction |
| Day14.TiltFacts | src/day14.rs:15-153 | a tilt keeps the shape and the cubes, keeps every line's rocks, stops every rock, and tilting again changes nothing |
| Day14.PutLine | src/day14.rs:26-30 | writing one cell through its line changes that cell of that line and no other line |
| Day14.PutRocks | src/day14.rs:29-31 | the cluster loop writes rounded rocks over the cluster's stretch and changes nothing else |
| Day14.ScanStart | src/day14.rs:19-20 | before the scan, with no cluster open, the scan invariant holds |
| Day14.ScanOther | src/day14.rs:24-27 | a rounded rock or an empty cell is emptied and joins the open cluster |
| Day14.ScanCube | src/day14.rs:28-35 | a cube writes the cluster's rocks at its start and opens a new cluster after it |
| Day14.ScanEnd | src/day14.rs:42-44 | writing the last cluster completes the tilted line |
| Day14.ScanCell | src/day14.rs:22-40 | one step of the inner loop keeps the scan invariant and leaves other lines alone |
| Day14.TiltLine | src/day14.rs:19-44 | the scan of one line leaves it tilted and other lines unchanged |
| Day14.Tilt | src/day14.rs:15-153 | `tilt_north`, `tilt_west`, `tilt_south` and `tilt_east` each return the platform with every line tilted toward that edge |
| Day14.Cycle | src/day14.rs:155-157 | one spin cycle is the four tilts in order |
| Day14.Periodic | src/day14.rs:195-200 | once a platform recurs after a period, every later platform recurs with that period |
| Day14.Repeats | src/day14.rs:199-201 | the platform after n cycles is the one at `(n - first) % period + first` |
| Day14.RowsLoadBounds | src/day14.rs:159-167 | every rock weighs between 1 and the height |
| Day14.LoadBounds | src/day14.rs:159-167 | the load lies between the number of rocks and that number times the height |
| Day14.Part1 | src/day14.rs:184-187 | the load of the platform tilted north |
| Day14.FirstIndex | src/day14.rs:198 | `position` finds the first equal earlier platform, or none when there is none |
| Day14.TraceExtend | src/day14.rs:194-205 | pushing the next platform keeps `states[k]` equal to the platform after k cycles |
| Day14.RepeatLands | src/day14.rs:198-201 | at the first repeat, the index the source computes is inside the list and names the platform after a billion cycles |
| Day14.Part2 | src/day14.rs:191-209 | the load after a billion spin cycles |
| Day15.Step | src/day15.rs:16-18 | one character of the HASH fold stays below 256 |
| Day15.Hash | src/day15.rs:12-19 | `run_hash_algorithm` is always below 256, folding each character's code, which is its byte for the ASCII steps of the puzzle |
| Day15.HashAppend | src/day15.rs:16-18 | the hash of a string one character longer continues the fold from the shorter string's hash |
| Day15.ExampleHash | src/day15.rs:115-118 | HASH hashes to 52 |
| Day15.Part1 | src/day15.rs:21-27 | the sum of the steps' hashes is at most 255 per step |
| Day15.ExampleHashesFirst | src/day15.rs:113 | the hashes of the example's first six steps |
| Day15.ExampleHashesLast | src/day15.rs:113 | the hashes of the example's last five steps |
| Day15.ExamplePart1 | src/day15.rs:120-123 | the example's hashes sum to 1320 |
| Day15.ExampleLabelHashes | src/day15.rs:113 | the boxes the example's labels hash to |
| Day15.Position | src/day15.rs:62 | `position` yields the first slot holding the label, or none when no slot does |
| Day15.EmptyBoxes | src/day15.rs:50-55 | 256 empty boxes |
| Day15.ApplyStep | src/day15.rs:57-76 | a step changes only the box its label hashes to, by the operation on that box |
| Day15.RunHashmapAlgorithm | src/day15.rs:49-80 | the array of 256 boxes, updated in place, ends as the steps applied in order to empty boxes |
| Day15.OperateKeepsLabels | src/day15.rs:60-76 | an operation keeps a box's labels distinct and adds no lens but its own |
| Day15.ArrangeWellPlaced | src/day15.rs:49-80 | after any steps every lens is in the box its label hashes to and no box holds a label twice |
| Day15.DashRemoves | src/day15.rs:61-65 | a dash removes the lens with the label, keeping the order of the others, and changes nothing when there is none |
| Day15.FocalWithout | src/day15.rs:61-65 | removing a label removes it from the box's focal lengths |
| Day15.FocalReplace | src/day15.rs:67-71 | replacing a lens in its slot updates that label's focal length |
| Day15.OperateAsMap | src/day15.rs:60-76 | seen as a map from labels to focal lengths a box is a dictionary: a dash deletes the label, an equal sign sets it |
| Day15.EmptyTail | src/day15.rs:82-95 | empty boxes add no focusing power |
| Day15.Part2 | src/day15.rs:97-105 | the focusing power of the boxes after the steps |
| Day15.ArrangeByBox | src/day15.rs:57-77 | boxes evolve independently: each box is that box after only the steps that hash to it |
| Day15.ExampleBoxZero | src/day15.rs:113 | box 0 of the example ends with rn 1 and cm 2 |
| Day15.ExampleBoxThree | src/day15.rs:113 | box 3 of the example ends with ot 7, ab 5 and pc 6 |
| Day15.ExampleBoxOne | src/day15.rs:113 | box 1 receives qp 3 and loses it again |
| Day15.ExampleOtherBox | src/day15.rs:113 | every other box stays empty |
| Day15.ExamplePart2 | src/day15.rs:125-128 | the example's focusing power is 145 |
| Day16.VectorRoundTrip | src/day16.rs:52-75 | `TryFrom` undoes `From`: a vector converts back to a direction exactly when it is that direction's unit vector |
| Day16.PositiveTurn | src/day16.rs:26-29 | the turn at a `\` mirror swaps the vector's coordinates |
| Day16.NegativeTurn | src/day16.rs:31-34 | the turn at a `/` mirror swaps and negates them |
| Day16.TurnFacts | src/day16.rs:26-34 | each turn undoes itself and leaves at a right angle, and the two turns of a direction point opposite ways |
| Day16.Transform | src/day16.rs:36-49 | a mirror sends a beam off at a right angle; a splitter passes a beam along its axis and splits a crossing beam into two opposite perpendicular beams |
| Day16.Step | src/day16.rs:77-85 | a step moves a cell by the direction's unit vector |
| Day16.Successors | src/day16.rs:126-134 | the new states each lie one step on in their own direction, and there is at least one |
| Day16.OnGridIn | src/day16.rs:137-141 | the bounds test keeps exactly the states that lie on the grid |
| Day16.ReachIsLeast | src/day16.rs:117-147 | the reached states are closed under on-grid successors, hold the start, and lie in every such closed set |
| Day16.ReachUnique | src/day16.rs:117-147 | any least closed set holding the start is the set of reached states |
| Day16.PushSuccessors | src/day16.rs:136-146 | every on-grid successor not yet visited is marked visited and pushed, exactly once |
| Day16.PushOne | src/day16.rs:137-145 | the test and push of one successor keeps the push invariant |
| Day16.ExploredStep | src/day16.rs:125-146 | popping a state and pushing its new successors keeps every visited state either explored or on the stack |
| Day16.SearchStep | src/day16.rs:125-147 | one pass of the `while let` loop keeps the search invariant and either grows `visited` or shrinks the stack |
| Day16.StackVisited | src/day16.rs:143-144 | the stack holds visited states only |
| Day16.EnergizedCount | src/day16.rs:117-154 | `energized_count` is the number of distinct cells among the states the beam reaches |
| Day16.GridSize | src/day16.rs:110-113 | the grid of width w and height h has w * h cells |
| Day16.EnergizedBound | src/day16.rs:117-154 | a beam entering on the grid energizes only grid tiles, so at most the grid's area of them |
| Day16.Part1 | src/day16.rs:156-159 | the count for a beam entering at the top-left corner heading right |
| Day16.RunningMaxStep | src/day16.rs:169-172 | one update of the running maximum takes in two more starts |
| Day16.TryColumn | src/day16.rs:165-173 | the pass over column x tries the beam down from the top and up from the bottom |
| Day16.TryRow | src/day16.rs:175-183 | the pass over row y tries the beam right from the left edge and left from the right edge |
| Day16.RunningMaxDone | src/day16.rs:161-186 | after every column and row, the maximum is at least every border start's count and is one of them, or 0 |
| Day16.Part2 | src/day16.rs:161-186 | the largest count over every border start heading inwards, or 0 when there is none |
| Day17.Vector | src/day17.rs:17-26 | each direction's vector is a unit vector that converts back to the direction |
| Day17.FromVector | src/day17.rs:28-40 | exactly the four unit vectors convert to a direction |
| Day17.FromVectorInverse | src/day17.rs:17-40 | a vector that converts comes back unchanged |
| Day17.TurnRight | src/day17.rs:61-64 | `turn_right` leaves at a right angle |
| Day17.TurnLeft | src/day17.rs:66-69 | `turn_left` leaves at a right angle |
| Day17.TurnAlgebra | src/day17.rs:61-69 | each turn is its own inverse, the two turns point opposite ways, and neither keeps the direction |
| Day17.CompareStatesIsTotal | src/day17.rs:85-98 | `Ord for State` is total: only equal states compare equal, and swapping the operands reverses the result |
| Day17.CompareStatesIsTransitive | src/day17.rs:85-98 | the order is transitive |
| Day17.CheaperPopsFirst | src/day17.rs:87-89 | a state with less heat loss is greater, so the max-heap pops it first |
| Day17.GreatestIndex | src/day17.rs:132-136 | the popped state is a greatest one in the heap |
| Day17.Record | src/day17.rs:138-146 | `entry().or_insert(heat_loss + 1)` then the test: the state is taken exactly when its key is new or it is cheaper than the record, which it then replaces; no record ever rises |
| Day17.TotalLowered | src/day17.rs:142-143 | lowering a record lowers the sum of the records, which bounds the loop |
| Day17.LegReachesNext | src/day17.rs:151-185 | the leg walk goes on to the next cell while it is on the map and not on the goal |
| Day17.LegStops | src/day17.rs:150-171 | the walk ends at a cell off the map or at the goal: no later cell is reached |
| Day17.LegEnds | src/day17.rs:151-186 | at the step the walk stops, every permitted turn is before it and the only finish is at it |
| Day17.TurnWitnessed | src/day17.rs:172-183 | a turn from a state reached by a walk is reached by that walk plus the move |
| Day17.PushedWitnessed | src/day17.rs:172-183 | every queued state is reached by some walk from a seed and lies within one cell of the map |
| Day17.FinishWitnessed | src/day17.rs:162-167 | a finish found from a reached state is a route of that cost |
| Day17.QueuedAll | src/day17.rs:151-186 | once the walk stops, every permitted turn of the leg has been queued |
| Day17.QueueKeeps | src/day17.rs:172-183 | queuing both turns at a step where turning is allowed keeps the leg walk's queue |
| Day17.NoQueueKeeps | src/day17.rs:172 | passing a cell where turning is not allowed queues nothing |
| Day17.CellReached | src/day17.rs:160 | entering an on-map cell adds its heat loss to the leg's cost |
| Day17.WalkOn | src/day17.rs:185 | moving on from an on-map cell that is not the goal |
| Day17.WalkLeg | src/day17.rs:148-186 | the inner `for step` loop queues exactly the permitted turns of the leg and records the finish if it is cheaper |
| Day17.RecordsBoundWalks | src/day17.rs:132-187 | once the heap is empty, every walk from a seed ends at a recorded key whose record is at most the walk's cost |
| Day17.ClosedStep | src/day17.rs:132-187 | every changed record has had its moves and finishes accounted for |
| Day17.ClosedSkip | src/day17.rs:144-146 | popping a state no cheaper than its record keeps the search closed |
| Day17.ClosedRecord | src/day17.rs:142-186 | recording a popped state and walking its leg keeps the search closed |
| Day17.DrainedIsClosed | src/day17.rs:132-187 | with the heap empty every recorded key's turns are recorded |
| Day17.SearchStarts | src/day17.rs:114-130 | the two seeds, (1, 0) heading right and (0, 1) heading down at cost 0, start the search invariant |
| Day17.SearchEnds | src/day17.rs:132-189 | with the heap drained the best finish bounds every route's cost and is the cost of one |
| Day17.MeasureFalls | src/day17.rs:132-187 | each pass lowers the measure (keys not yet recorded, sum of records, heap size) |
| Day17.SearchStep | src/day17.rs:132-187 | one pass of the `while let` loop keeps the search invariant and lowers the measure |
| Day17.SkipKeepsSearch | src/day17.rs:144-146 | popping a state that does not improve its record keeps the invariant |
| Day17.RecordKeepsSearch | src/day17.rs:142-186 | recording a state that improves its record and walking its leg keeps the invariant |
| Day17.MinHeatLoss | src/day17.rs:106-190 | `min_heat_loss` is the least heat loss over all routes, the start cell uncharged, or 0 when there is none |
| Day17.Part1 | src/day17.rs:192-195 | the least heat loss with legs of at most 3 cells |
| Day17.Part2 | src/day17.rs:197-200 | the least heat loss with legs of 4 to 10 cells |
| Day18.Scale | src/day18.rs:45-52 | `direction * length` lies on the direction's axis, as long as the length, signed by the direction |
| Day18.Vertices | src/day18.rs:59-78 | the corners are the origin followed by the end of every step |
| Day18.EdgeOf | src/day18.rs:66-73 | an edge is recorded with its smaller end first and spans the step |
| Day18.AddEdge | src/day18.rs:66-73 | `entry().or_default().push` appends the edge to its line's list and touches no other line |
| Day18.VerticesPrefix | src/day18.rs:61-78 | one more step appends one more corner |
| Day18.EdgesOrdered | src/day18.rs:66-73 | every recorded edge has its smaller end first |
| Day18.LinesListed | src/day18.rs:57-78 | the line lists name every line of the edge maps once |
| Day18.KeySumUpdate | src/day18.rs:147-155 | replacing one line's edges changes the sum by the difference |
| Day18.KeySumAdd | src/day18.rs:147-155 | recording one more edge adds its length to the sum over the lines |
| Day18.BoundaryIsPerimeter | src/day18.rs:147-155 | the boundary summed over both edge maps is the total length of the steps |
| Day18.Insert | src/day18.rs:83-84 | inserting into an increasing list keeps it increasing and adds exactly the value |
| Day18.SortedDistinct | src/day18.rs:82-88 | `sort_unstable` then `dedup` gives the distinct values in increasing order |
| Day18.Covers | src/day18.rs:100-104 | the `any` test holds exactly when some edge reaches from the low end to the high end |
| Day18.InsideParity | src/day18.rs:94-107 | a window is inside exactly when an odd number of vertical edges spanning its row lie at or left of it, and every lookup succeeded |
| Day18.OrderedTwo | src/day18.rs:82-88 | a rectangle's corners have two distinct ordinates and two distinct abscissas |
| Day18.RectangleTrace | src/day18.rs:61-78 | the trench of a rectangle: its corners, edges and length |
| Day18.RectangleVolume | src/day18.rs:54-158 | a rectangle a wide and b high holds (a + 1) * (b + 1) cubes |
| Day18.RectangleInterior | src/day18.rs:90-145 | the rectangle's one window is inside and adds its interior |
| Day18.TraceStep | src/day18.rs:61-78 | one step records its edge on its line and appends the next corner |
| Day18.ScanRow | src/day18.rs:94-144 | the inner window loop adds the row's cubes, or fails where a `get().unwrap()` would panic |
| Day18.NoneStays | src/day18.rs:100-102 | a failed lookup stays failed for the rest of the row |
| Day18.InteriorNoneStays | src/day18.rs:90-145 | a failed row stays failed for the rest of the rows |
| Day18.SumEdges | src/day18.rs:147-155 | the sum over a map's lines of its edges' lengths |
| Day18.TracePlan | src/day18.rs:55-78 | the first loop yields the corners and both edge maps of the plan |
| Day18.ScanRows | src/day18.rs:90-145 | the window loops yield the interior, row by row |
| Day18.LagoonVolume | src/day18.rs:54-158 | `lagoon_volume` is the interior plus the boundary, or a panic on a failed lookup |
| Day18.FirstReading | src/day18.rs:188-191 | part one reads each line's first direction and length |
| Day18.SecondReading | src/day18.rs:198-201 | part two reads the length and direction of the colour code |
| Day18.Part1 | src/day18.rs:186-194 | the volume of the plan of part one |
| Day18.Part2 | src/day18.rs:196-204 | the volume of the plan of part two |
| Day19.With | src/day19.rs:179-196 | replacing one category's value leaves the other three |
| Day19.Matches | src/day19.rs:114-123 | a condition-free rule always applies; a conditional rule applies exactly when the rating compares to the value as the rule asks |
| Day19.FirstMatchFirst | src/day19.rs:113-140 | the first applying rule decides, and there is no decision exactly when no rule applies |
| Day19.ApplyRules | src/day19.rs:113-140 | the rule loop stops at the first applying rule |
| Day19.Rate | src/day19.rs:108-141 | the workflow loop for one part follows the workflows from `in` to a verdict |
| Day19.TotalRatingAccepted | src/day19.rs:100-145 | the total is the sum of the ratings of exactly the accepted parts |
| Day19.Part1 | src/day19.rs:99-145 | `part1` is the total rating of the accepted parts, or `None` when some part reaches a workflow with no applicable rule (the source loops forever there) |
| Day19.NoVerdictStays | src/day19.rs:107-142 | a part that reaches no verdict leaves the whole total without one |
| Day19.Combinations | src/day19.rs:149-154 | the product of the range sizes is 0 exactly when some range is empty |
| Day19.CombinationsFactor | src/day19.rs:149-154 | the combinations factor through any one category |
| Day19.SplitPartitions | src/day19.rs:179-196 | a rating lies in the matching range exactly when it compares as the rule asks, and in the remaining range exactly when it does not |
| Day19.SplitCount | src/day19.rs:179-196 | the two ranges hold all the ratings of the range between them |
| Day19.SplitCombinations | src/day19.rs:178-197 | splitting one category splits the combinations |
| Day19.OthersWith | src/day19.rs:179-196 | replacing one category's range leaves the others' product alone |
| Day19.LessThanZeroAsWritten | src/day19.rs:183 | with `value - 1` on unsigned numbers as written, a rule `x<0` matches the whole range, though no rating is below 0 |
| Day19.WorkflowRulesBelow | src/day19.rs:176 | every workflow a rule names lies below the naming workflow's rank |
| Day19.PushNode | src/day19.rs:188-203 | pushing a node adds its ranges' eventual count to the stack's |
| Day19.PushRules | src/day19.rs:176-206 | the rule loop pushes nodes whose eventual counts add up to the workflow's |
| Day19.Part2 | src/day19.rs:159-210 | the depth-first search counts the combinations that reach an acceptance from the full ranges at `in` |
| Day19.ValueEmpty | src/day19.rs:198-200 | ranges empty in some category count nothing, wherever they go, so the early `break` loses nothing |
| Day19.RulesValueEmpty | src/day19.rs:198-200 | the rest of a workflow counts nothing for empty ranges |
| Day19.Point | src/day19.rs:147-154 | the ranges holding a single rating combination count one |
| Day19.ValuePoint | src/day19.rs:99-210 | part two counts a single combination exactly when part one accepts the part with those ratings |
| Day19.RulesValuePoint | src/day19.rs:113-206 | the same, rule by rule, for the rest of one workflow |
| Day19.SplitPoint | src/day19.rs:179-196 | splitting a single combination keeps it whole on the side it compares to and leaves nothing on the other |
| Day19.ValueBounded | src/day19.rs:159-210 | with the condition-free rule last, no combination is counted twice |
| Day19.RulesValueBounded | src/day19.rs:176-206 | the same for the rest of one workflow |
| Day20.InputsStep | src/day20.rs:69-76 | one more wire adds its module to the inputs of its destination and of nothing else |
| Day20.InitialMaps | src/day20.rs:52-83 | the two insertion loops of `State::from` build the initial state |
| Day20.DeclareModules | src/day20.rs:57-67 | the first loop sets every flip-flop off and gives every conjunction an empty memory |
| Day20.RegisterStep | src/day20.rs:70-75 | registering one wire moves the second loop one destination on |
| Day20.RegisterWires | src/day20.rs:70-75 | the inner loop registers every wire of one module into a conjunction |
| Day20.InitialWired | src/day20.rs:52-83 | the initial state knows every wire into a conjunction |
| Day20.InitialState | src/day20.rs:52-83 | initially the flip-flops are exactly the declared ones, all off, and each conjunction remembers a low pulse from exactly its inputs |
| Day20.TransformLocal | src/day20.rs:85-117 | a pulse fails (the `unwrap` at line 103) exactly when it reaches a conjunction from a module it does not know; otherwise only the destination's entry changes |
| Day20.TransformFlipFlop | src/day20.rs:91-101 | a flip-flop ignores a high pulse; a low pulse turns it over, and it sends high when now on and low when now off |
| Day20.TransformConjunction | src/day20.rs:102-113 | a conjunction remembers the pulse from its source, then sends low exactly when it remembers high from every input |
| Day20.TransformOther | src/day20.rs:114-116 | any other module passes the pulse on and keeps the state |
| Day20.WiredTransform | src/day20.rs:85-117 | along a wire of the configuration a pulse never fails, and the state stays wired |
| Day20.State.constructor | src/day20.rs:52-83 | `State::from` builds the initial state |
| Day20.State.TransformPulse | src/day20.rs:85-117 | `transform_pulse` updates the fields in place as the pure transformation does and returns the pulse sent on |
| Day20.Mapping | src/day20.rs:122-125 | the mapping holds every module's name and no other, a later line replacing an earlier one |
| Day20.Send | src/day20.rs:132-142 | counting n pulses of a type adds n to the total |
| Day20.Broadcasts | src/day20.rs:139-142 | a module sends its pulse to each destination in order |
| Day20.PressesPrefix | src/day20.rs:129-148 | a run of presses that settles settles after fewer presses too |
| Day20.DrainCounts | src/day20.rs:134-147 | handling a press's pulses never lowers the counts |
| Day20.PressesCountButton | src/day20.rs:129-132 | after n presses at least n low pulses were counted |
| Day20.Enqueue | src/day20.rs:139-142 | the `for` loop queues the pulse to each destination and counts them |
| Day20.Press | src/day20.rs:130-147 | one press's `while let` loop handles the pulses in first-in first-out order, updating the state and the counts |
| Day20.Part1 | src/day20.rs:119-151 | the product of the low and high pulse counts after a thousand presses |
| Day21.Back | src/day21.rs:28-36 | stepping forward from the position one step back returns to the position |
| Day21.RemT | src/day21.rs:77-78 | Rust's `%` on `i64` is smaller than the divisor in size and takes the dividend's sign |
| Day21.DivRemT | src/day21.rs:153 | truncating division and remainder put the dividend back together |
| Day21.WrapIsRemainder | src/day21.rs:76-79 | `(c % n + n) % n` is the mathematical remainder, in [0, n), for negative coordinates too |
| Day21.WrapPeriodic | src/day21.rs:76-79 | moving by a whole plot lands on the same wrapped index |
| Day21.OpenPeriodic | src/day21.rs:76-79 | the infinite garden repeats the plot in both directions |
| Day21.Start | src/day21.rs:66 | the start `(size / 2, size / 2)` lies in the first plot on its diagonal and has an even coordinate sum |
| Day21.WithinStep | src/day21.rs:74-84 | an open neighbour of a position within k steps is within k + 1 |
| Day21.WithinMore | src/day21.rs:68-88 | within k steps stays within any larger number of steps |
| Day21.WithinNear | src/day21.rs:74-84 | a position within k steps lies no farther than k from the start |
| Day21.ExploreWithin | src/day21.rs:66-88 | after k rounds the visited positions are exactly those within k steps, and the frontier exactly those first reached at step k |
| Day21.FrontierSound | src/day21.rs:71-87 | a new frontier position is within k steps |
| Day21.FrontierComplete | src/day21.rs:71-87 | a position first reached at step k joins the new frontier |
| Day21.FrontierFresh | src/day21.rs:76-83 | the frontier holds only open positions never visited before, and the visited set only grows |
| Day21.OddNegativeAsWritten | src/day21.rs:90-93 | as written, after one step in a rockless one-tile garden, (-1, 0) is visited and has odd parity, yet the truncating `%` leaves it out |
| Day21.CountedAgrees | src/day21.rs:92 | for an even step count, or a non-negative coordinate sum, the test as written and the intended parity agree, so 64 steps are unaffected |
| Day21.NextFrontierAdd | src/day21.rs:73-85 | handling one more frontier position adds its open neighbours not visited before |
| Day21.ExpandPosition | src/day21.rs:74-84 | one position's four neighbours, tried in turn |
| Day21.Expand | src/day21.rs:71-87 | one round makes the open unvisited neighbours of the frontier the new frontier and adds them to the visited set |
| Day21.AccessiblePlotsCount | src/day21.rs:61-94 | counts the positions visited within the steps whose coordinate sum has the steps' parity, with the corrected Euclidean parity test. For an even step count this agrees with the source's truncating `%` (Day21.CountedAgrees); for an odd step count it does not (see Findings, src/day21.rs:92) |
| Day21.PlotsCounted | src/day21.rs:90-93 | the counted plots are exactly those within the steps with the steps' parity |
| Day21.Part1 | src/day21.rs:96-99 | the count for 64 steps |
| Day21.PopLevel | src/day21.rs:111 | the popped entry becomes the current level and the rest of the queue stays within one level of it |
| Day21.VisitSkip | src/day21.rs:115-120 | a rock, a recorded neighbour or a distance at the limit records nothing |
| Day21.VisitRecord | src/day21.rs:115-123 | an open neighbour not yet recorded, below the limit, is recorded and queued one step further |
| Day21.LeveledAdd | src/day21.rs:121-122 | queuing a new position one level further keeps breadth-first order |
| Day21.VisitNeighbours | src/day21.rs:112-124 | handling a position keeps the search invariant and either records a new position or leaves the maps alone |
| Day21.Dequeue | src/day21.rs:111-125 | one turn of the loop keeps the invariant and lowers the measure |
| Day21.SearchComplete | src/day21.rs:101-128 | once the queue is empty, a position within k steps, k at most the limit, is recorded at k or less |
| Day21.SearchStart | src/day21.rs:106-109 | the search starts from the start alone, at distance 0 |
| Day21.SearchDone | src/day21.rs:111-127 | with the queue empty the recorded distances are the shortest ones |
| Day21.CalculateDistances | src/day21.rs:101-128 | `calculate_distances` records the shortest distance of exactly the positions within the limit |
| Day21.DistancesComplete | src/day21.rs:101-128 | every position within the limit is recorded, at no more than any of its walks |
| Day21.SearchesAgree | src/day21.rs:61-128 | the two searches agree: the positions recorded at k or fewer steps are those visited after k rounds |
| Day21.ExtrapolateFits | src/day21.rs:153-156 | the fitted quadratic passes through the first two points, and through the third exactly when `y2 - 2 * y1` is even |
| Day21.Part2 | src/day21.rs:130-157 | the shortest distances up to two and a half plots, counted by parity at three radii and extrapolated quadratically |
| Day22.OverlapSymmetric | src/day22.rs:22-27 | `overlap` is symmetric |
| Day22.OverlapShared | src/day22.rs:22-27 | two rectangles with ordered corners overlap exactly when some point lies in both |
| Day22.VerticalShift | src/day22.rs:33-38 | `vertical_shift` puts the brick's bottom at z and keeps its footprint and height |
| Day22.HighestTop | src/day22.rs:47-57 | the `max` of the overlapping bricks' tops: the highest top among the bricks whose footprint overlaps, none exactly when none overlaps |
| Day22.SettledPrefix | src/day22.rs:44-60 | settling a prefix of the bricks gives the prefix of the settled bricks |
| Day22.LandedRests | src/day22.rs:44-60 | each brick settles one above the highest overlapping top before it, or on the ground at z = 1, keeping its footprint and height |
| Day22.SettledStep | src/day22.rs:44-60 | settling one more brick appends it, dropped onto those settled before it |
| Day22.LandedShape | src/day22.rs:44-60 | landing keeps the number of bricks, their footprints and heights |
| Day22.LandedApart | src/day22.rs:44-60 | of two landed bricks with overlapping footprints, the later one lies wholly above the earlier |
| Day22.LandedSupported | src/day22.rs:44-60 | a landed brick off the ground rests on an earlier overlapping brick whose top is just below it |
| Day22.LandedAboveGround | src/day22.rs:44-60 | well-formed bricks land at z = 1 or higher |
| Day22.Swap | src/day22.rs:42 | exchanging two neighbours keeps the same bricks |
| Day22.SwapStep | src/day22.rs:42 | one exchange moves the sinking brick one place down and keeps the insertion invariant |
| Day22.Insert | src/day22.rs:42 | one insertion pass extends the sorted prefix by one brick and keeps the same bricks |
| Day22.SortByBottom | src/day22.rs:42 | `sort_unstable_by` on the bottom z leaves the bricks in ascending order of bottom and a permutation of the snapshot |
| Day22.SettleInPlace | src/day22.rs:44-60 | the loop of `land`, writing each brick back in place, leaves the settled bricks |
| Day22.Land | src/day22.rs:40-63 | `land` sorts the snapshot by bottom and then settles it |
| Day22.SupportingBricks | src/day22.rs:65-86 | no contract of its own: each brick mapped to the set of bricks directly below it that overlap it; its meaning is stated by Day22.SupportersBelow and Day22.SupportedAboveGround |
| Day22.SupportedAboveGround | src/day22.rs:65-86 | a landed brick above the ground has a supporter |
| Day22.SupportersBelow | src/day22.rs:65-86 | a supporter of a well-formed brick lies lower |
| Day22.SoleSupportersAmong | src/day22.rs:92-101 | every sole supporter is one of the bricks, so there are no more of them than distinct bricks |
| Day22.Part1 | src/day22.rs:88-104 | `part1` is the number of landed bricks less the number of bricks that alone hold some brick up |
| Day22.LandedDistinct | src/day22.rs:40-63 | well-formed bricks land well-formed and no two alike |
| Day22.DisintegrableCount | src/day22.rs:88-104 | for well-formed bricks part one counts exactly the bricks that are nobody's only support |
| Day22.FallRound | src/day22.rs:119-133 | one round adds exactly the bricks not yet removed that had support and have lost all of it |
| Day22.Fallen | src/day22.rs:118-142 | rounds repeat until none adds a brick: the result contains the removed bricks, every added brick had all its support removed, and one more round adds nothing |
| Day22.FallenLeast | src/day22.rs:118-142 | every collapsed set holding the removed bricks contains the chain reaction's result |
| Day22.FallenCollapsed | src/day22.rs:118-142 | the chain reaction's result is itself collapsed, so it is the least such set |
| Day22.ChainReaction | src/day22.rs:116-142 | the inner `loop` ends with the bricks that fall once one brick is removed, and counts all of them but that brick |
| Day22.Part2 | src/day22.rs:106-146 | `part2` sums, over the landed bricks, the number of other bricks that fall when that one is removed |
| Day23.AdjacentPositions | src/day23.rs:65-92 | `adjacent_positions` yields only positions on the map other than the position itself |
| Day23.AdjacentExactly | src/day23.rs:65-92 | the neighbours returned are exactly the positions one step away onto a path tile, or onto a slope facing that step unless slopes are ignored |
| Day23.IgnoringSlopesAddsMoves | src/day23.rs:82 | ignoring slopes only adds neighbours |
| Day23.FirstPath | src/day23.rs:165 | `find` yields the first path tile of a row |
| Day23.StartingPoint | src/day23.rs:158-170 | the start is the first path tile of the top row |
| Day23.FinishingPoint | src/day23.rs:172-184 | the finish is the first path tile of the bottom row |
| Day23.Unvisited | src/day23.rs:112-115 | the filter keeps exactly the positions not yet visited |
| Day23.CorridorStep | src/day23.rs:109-122 | a position with one unvisited exit continues the corridor into it; otherwise the corridor ends there |
| Day23.CorridorHike | src/day23.rs:109-122 | the corridor walked is a walk that never repeats a position, as long as the recorded distance |
| Day23.GatherHike | src/day23.rs:105-124 | every recorded vertex ends a walk from the vertex as long as its recorded distance |
| Day23.GatherKeepsLongest | src/day23.rs:120-121 | every corridor from the vertex is recorded at no less than its length |
| Day23.ConnectedVerticesMeaning | src/day23.rs:94-127 | every connected vertex ends a walk from the vertex of exactly its distance, and the finish connects to nothing |
| Day23.ConnectedKeepsLongest | src/day23.rs:94-127 | the longest corridor to each end is the one kept |
| Day23.ConnectedEnds | src/day23.rs:94-127 | connected vertices lie on the map, differ from the vertex and are at least one step away |
| Day23.GetConnectedVertices | src/day23.rs:94-127 | `get_connected_vertices` follows the corridor each neighbour opens and keeps the longest distance to each end |
| Day23.FollowCorridor | src/day23.rs:106-123 | the `while let` loop for one starting point walks its corridor and records the end |
| Day23.CorridorPop | src/day23.rs:109-122 | one turn of that loop visits a new position, so the loop ends |
| Day23.CheckAllPaths | src/day23.rs:246-278 | `check_all_paths` raises the maximum to the longest simple path from the vertex to the finish that avoids the current path, and restores the path |
| Day23.SimpleSplit | src/day23.rs:254-275 | a simple path leaving the vertex is one edge followed by a simple path avoiding the vertex |
| Day23.SimpleJoin | src/day23.rs:266-275 | an edge followed by a simple path avoiding the vertex is a simple path |
| Day23.CoveredKept | src/day23.rs:195-205 | a round of `calculate_edges` keeps every vertex either with an entry or on the stack |
| Day23.RepeatPushesNothing | src/day23.rs:198-202 | a vertex popped a second time pushes nothing |
| Day23.ExploreProgress | src/day23.rs:195-205 | each round either writes a new entry or shortens the stack |
| Day23.CalculateEdges | src/day23.rs:186-208 | `calculate_edges` gives every vertex reachable from the start an entry equal to its connected vertices, with no edge leading outside |
| Day23.ExploreStep | src/day23.rs:195-205 | one round pops a vertex, pushes its neighbours without an entry and writes its entry |
| Day23.Extension | src/day23.rs:198-202 | `vertices.extend` pushes the neighbours without an entry yet |
| Day23.TopologicalSort | src/day23.rs:129-149 | `topological_sort` appends the current vertex after every vertex reachable from it not visited before, each once, no vertex before one of its successors, and fills their entries |
| Day23.SortSuccessors | src/day23.rs:141-145 | the loop sorts every successor not yet visited |
| Day23.SortSuccessor | src/day23.rs:142-144 | one round sorts the successor unless it is visited already |
| Day23.SortingBelow | src/day23.rs:141-145 | an unvisited successor ranks below the current vertex, so the recursion ends on an acyclic graph |
| Day23.SortingEnds | src/day23.rs:147-148 | appending the vertex once all its successors are visited ends the call as promised |
| Day23.RelaxBounds | src/day23.rs:229-233 | relaxing raises each successor to at least the vertex's distance plus the edge, and to nothing more than that or what it had |
| Day23.SettleBounds | src/day23.rs:227-233 | settling a vertex relaxes all its edges from its distance, 0 when it had none |
| Day23.RelaxEdges | src/day23.rs:229-233 | the inner loop relaxes every edge of the vertex |
| Day23.SettleSound | src/day23.rs:226-234 | every distance stays the length of some path from the start |
| Day23.SettleComplete | src/day23.rs:226-234 | settling a vertex none of whose successors is settled extends the bound to every path through it |
| Day23.DistancesMeaning | src/day23.rs:226-234 | settled from last to first in a settling order, the distances are exactly the longest path lengths |
| Day23.SortedSettleOrder | src/day23.rs:218-226 | the order `topological_sort` leaves, read backwards, is a settling order |
| Day23.SortedEdges | src/day23.rs:136-139 | the entries `topological_sort` computes agree with `get_connected_vertices` and are closed |
| Day23.SettleAll | src/day23.rs:226-234 | the loop of `longest_path_with_slopes` settles the sorted vertices from the last to the first |
| Day23.LongestMeaning | src/day23.rs:236-238 | the finish's distance is the length of the longest trail from the start, and it is missing exactly when there is no trail |
| Day23.LongestPathWithSlopes | src/day23.rs:210-239 | `longest_path_with_slopes` is the longest trail from start to finish over the corridor graph, failing exactly when there is none |
| Day23.LongestPathWithoutSlopes | src/day23.rs:280-299 | `longest_path_without_slopes` is the longest simple path from start to finish over the corridor graph ignoring slopes, or 0 when there is none |
| Day24.Signum | src/day24.rs:75-78 | `signum` of an integer agrees with the sign of the same number as a rational |
| Day24.Intersect2d | src/day24.rs:33-79 | `intersect_2d` panics exactly when neither hailstone moves away from the area and one has no x velocity (a rational with a zero denominator); a hailstone moving away, or two parallel paths, give false |
| Day24.SlopesEqual | src/day24.rs:57-65 | two slopes are equal exactly when the velocities are parallel |
| Day24.MovesAwayNeverInside | src/day24.rs:45-55 | a hailstone that the early exit rejects never enters the area at a positive time |
| Day24.OnPath | src/day24.rs:57-61 | every future position lies on the line of slope and offset |
| Day24.ReachedFromStart | src/day24.rs:57-61 | every x on the far side of the velocity is reached at a positive time, at the line's height |
| Day24.LinesMeet | src/day24.rs:67-69 | the computed (x, y) lies on both lines |
| Day24.Intersect2dMeaning | src/day24.rs:33-79 | when it does not panic, `intersect_2d` is true exactly when the two paths cross inside the area, both hailstones at a positive time |
| Day24.AheadCrosses | src/day24.rs:71-78 | a crossing point inside the area and ahead of both hailstones is a crossing of the paths |
| Day24.CrossesAhead | src/day24.rs:71-78 | a crossing of the paths passes the area and signum tests |
| Day24.RowHitsCount | src/day24.rs:87-98 | the inner loop counts the accepted pairs (i, j) with j after i |
| Day24.HitsCount | src/day24.rs:81-102 | the nested loops count every accepted pair i < j once |
| Day24.HitsAreCrossings | src/day24.rs:81-102 | when no pair panics, the count equals the number of pairs whose paths cross inside the area |
| Day24.CountIntersections2d | src/day24.rs:81-102 | `count_intersections_2d` panics exactly when some pair does, and otherwise counts the accepted pairs |
| Day24.Part1 | src/day24.rs:104-114 | part one drops the z coordinates and counts the pairs crossing inside the area from 200000000000000 to 400000000000000 |
| Day24.ExampleCrossing | src/day24.rs:155-179 | in the example, hailstone A crosses B and C inside the area 7 to 27 |
| Day24.ExampleMissingFirst | src/day24.rs:155-179 | the other pairs with the first hailstones do not cross inside it |
| Day24.ExampleMissingRest | src/day24.rs:155-179 | nor do the remaining pairs |
| Day24.ExampleCount | src/day24.rs:155-179 | the example counts 2 crossings and panics on no pair |

## Left out

- `src/day06.rs`: its answer comes from floating-point `sqrt`, `floor` and `ceil`, which this model does not capture.
- `src/day25.rs`: the minimum cut is found by random contraction (`thread_rng`) and floating-point `sqrt`, and `part1` retries until a trial succeeds.
- Part two of day 24 (`src/day24.rs:117-149`) hands the problem to the Z3 solver, which is foreign code.
- Part two of day 20 (`src/day20.rs:153-214`) loops until each watched module has sent a high pulse. It then takes the lcm of the first press counts, assuming that each count is a period. It also depends on the iteration order of a `HashMap` `find`.
- Parsing: the `aoc_parse` grammars and the `#[aoc]` wiring belong to a macro library, so each day starts from its parsed input. The hand-written scanners of day 3 (`parse_input`) and day 10 (the sketch and its start) are modelled.
- Fixed-width integers: `i32`, `i64`, `u64` and `usize` are unbounded integers here, so overflow is not modelled. The two places where the width changes the answer are written out: `value - 1` on `u64` in day 19 and the truncating `%` in day 21 (see Findings).
- `HashMap` and `HashSet` become Dafny maps and sets. Their iteration order is not modelled. Where the source's answer does not depend on that order, the model iterates over an explicit key list instead (day 18's edge maps).
- Panics: `unwrap` on a missing value, an out-of-range index and `unreachable!` become either an `Option` result (`None` is the panic) or a `requires` on the caller. The `requires` form is used where the parsed puzzle input always meets it, for example a calibration line with a digit, a game with at least one draw in day 2, a non-empty image in day 11 or a rock in every day 13 pattern.
- Day01.Part1: requires that every line has a digit, because `calibration_value` unwraps its `find`.
- Day03.Part1: requires that every number's segment has `xMin <= xMax`. `parse_input` always builds segments that way.
- Day05.ApplyMap: requires every map line to have length at least 1. A zero-length line would make an empty range, and the source keeps empty ranges in its work list.
- Day05.ExampleSeed82: for part two of the worked example, the model proves only that seed 82 reaches location 46. That the minimum is exactly 46 is not restated.
- Day08.Part1: requires that ZZZ is reached from AAA, because otherwise the source's `loop` never ends. Day08.Part2 likewise requires that every start reaches a node ending in 'Z'.
- Day10.Part1: takes a ghost set of positions closed under the pipes' openings. The source can walk off the sketch forever, because pipeless positions reuse the start's shape, so the walk's termination is proved only inside such a set. Day10.Part2 does the same.
- Day17.Part1: requires a non-empty rectangular grid, as does Day17.Part2. `min_heat_loss` indexes the last row and column.
- Day19.Part1: requires a rank on workflows that decreases along every rule. Without one, `part1` may cycle forever. A workflow with no applicable rule gives `None` (the source spins in that case).
- Day19.Part2: requires well-formed workflows, with no `=` comparisons, because that case is `unreachable!()`.
- Day20.Part1: requires that each of the thousand presses settles within the ghost `fuel` bound without a panic. The source may loop forever, or panic when a conjunction receives from a module it does not list.
- Day20.DrainCounts: states only that the pulse counts never decrease. The exact counts are tied to the specification through `Day20.Part1`'s ensures.
- Day21.Part2: proves only the arithmetic of the quadratic extrapolation (`src/day21.rs:131-157`). That the extrapolation gives the true count depends on the shape of the puzzle input and is not claimed.
- Day22.Part2: does not model `cache` (`src/day22.rs:113`). It recomputes every chain reaction, which assumes the cache only adds bricks that fall anyway; the dominator argument behind that is not proved.
- Day23.LongestPathWithSlopes: requires that the slopes leave no cycle among the junctions. This is a little stricter than the source: `topological_sort` starts with the start already visited, so a slope cycle that passes back through the start still ends there. Only the longest path over the compressed junction graph is characterised, with each edge tied to a corridor of the map.
- Day15.Hash: folds each character's code where `run_hash_algorithm` folds the UTF-8 bytes of `as_bytes()`. The two agree for ASCII steps, which is what the puzzle input contains; a step with a non-ASCII character would hash differently, and this is not modelled.
- Day24.Part1: rationals are Dafny `real`s. `BigRational::from` with a zero denominator (a vertical hailstone in x) panics, and this is `None`.
- Worked examples that are not restated as lemmas: day 1 (142, 281), day 3 (4 361, 467 835), day 10, day 11 (374, 1 030, 8 410), day 12 (21, 525 152), day 13 (405, 400), day 14 (136, 64), day 16 (46), day 17 (102, 94, 71), day 18 (62, 952 408 144 115), day 19 (19 114, 167 409 079 868 000), day 20 (32 000 000, 11 687 500), day 21 (16, 50, 1 594), day 22 (5, 7) and day 23 (94, 154). Each needs the whole grid or simulation unfolded on literal data. The general contracts of the `part` members cover these inputs instead.

## Findings

| source | as written | input that shows it | evidently intended | confidence | as-written member | corrected member |
|---|---|---|---|---|---|---|
| src/day01.rs:62-73 | each spelled digit keeps one partial-match index, and on a mismatch it restarts only at the current character, so a spelling that begins inside a failed partial match is missed | "ninine": the forward scan finds no first digit, though "nine" ends at the last character | the first written or spelled digit of the line | not executed | Day01.ForwardScanMissesOverlap | Day01.CorrectedSpelledValue |
| src/day01.rs:86-104 | the same restart rule in the backward scan | "threee": the backward scan finds no last digit, though "three" ends one character before the end | the last written or spelled digit of the line | not executed | Day01.BackwardScanMissesOverlap | Day01.CorrectedSpelledValue |
| src/day03.rs:119 | the `break` after a same-line symbol leaves the loop over the whole line's numbers | the line "1*2" gives 1 | 3: each number next to a symbol counted | not executed | Day03.SideSymbolEndsLine | Day03.Part1 |
| src/day03.rs:98-120 | a number next to a symbol both on its own line and on a neighbouring line is added twice | the lines "*." and "1*" give 2 | 1: each part number added once | not executed | Day03.BothHitsCountTwice | Day03.Part1 |
| src/day19.rs:183 | `value - 1` on `u64` wraps for the rule `x<0`, so the matching range is the whole range | range (1, 4000) with the rule `x<0` | no rating matches | not executed | Day19.LessThanZeroAsWritten | Day19.SplitPartitions |
| src/day21.rs:92 | the parity test uses Rust's truncating `%`, so a plot with odd steps left and a negative odd coordinate sum is never counted | a one-tile garden without rocks and 1 step: (-1, 0) is reached, but `-1 % 2 == -1` differs from `1 % 2` | Euclidean parity (`rem_euclid`) | not executed | Day21.OddNegativeAsWritten | Day21.PlotsCounted |
