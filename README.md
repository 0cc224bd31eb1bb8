# Advent of Code 2022 solvers, modelled in Dafny

This project models the puzzle solvers of an Advent of Code 2022 repository
(days 1 to 11, one Python test module per puzzle half) and proves what each
solver computes. Every solver is a handful of small functions plus the
sample assertions of its test functions; the model keeps the functions'
own names, branches and error cases, and states as lemmas both the general
properties of each puzzle and the sample answers of the tests.

- **Day 1 (calorie counting)**: the input lines are cut into chunks at blank
  lines, and the answer is the largest chunk total.
- **Day 2 (rock paper scissors)**: a round's score is the shape score of one's
  hand plus 0, 3 or 6 for a loss, draw or win. The second half derives the
  hand from the wanted result.
- **Day 3 (rucksacks)**: the item type shared by the two halves of a rucksack
  (or by three rucksacks of a group) and its priority, 1 to 52.
- **Day 4 (section ranges)**: whether one range contains the other, and
  whether two ranges overlap.
- **Day 5 (crate stacks)**: crates moved one at a time between stacks, the
  stack drawing parser and the instruction parser.
- **Day 6 (markers)**: the first position ending a window of 4 (or 14)
  pairwise-distinct characters.
- **Day 7 (file system)**: a folder tree rebuilt from a shell session, the
  folder sizes, the sum of small folders and the smallest folder worth
  deleting.
- **Day 8 (tree grid)**: which trees are visible from outside the grid, and
  each tree's scenic score.
- **Day 9 (rope)**: a rope of knots following its head, and the set of
  positions its tail visits.
- **Day 10 (CPU)**: a two-instruction CPU whose cycles give signal strengths
  and the pixels of a 40-column screen.
- **Day 11 (monkeys)**: monkeys inspecting and throwing items over 20 rounds,
  and the product of the two largest inspection counts.

Every Python operation that can raise (`KeyError`, `IndexError`,
`ValueError`, an unpacking error, `int` of a non-numeral) returns `None` in
the model, except where "## Left out" lists a precondition instead:
Crates.GetTopCratesAfterInstructions, TreeVisibility.CountVisibleTrees,
Scenic.GetMaxScenicScore, Rope.RopeSimulator.Move and
Monkeys.GetMonkeyBusinessLevel. Where the source mutates objects, the model is a class with
`modifies` clauses: the day 9 rope simulators, the day 10 processors and the
day 11 monkeys. The same holds for an in-place array, the day 5 stacks, and
for loops: the chunk generator, the marker search, the scenic-score loop, the
crate parser and the `execute_commands` loop. Each of these methods is
proved against a function of the inputs and the old state, and the
properties are proved about those functions.

Shared modules: `Wrappers` (the `Option` type), `Text` (`str.split`, `join`,
`strip` and `int` on decimal numerals, with their round trips), `LineChunks`
(the chunk generator of days 1 and 11), `Hands` (day 2), `Items` (day 3
priorities and the search for a common item), `TreeGrid` and `Counting`
(day 8), `FileSystem` (day 7), `Cpu` (day 10).

## Model

| member | source | states |
|---|---|---|
| Calories.GetMostCalories | test_day01/test_ex01.py:6-8 | the result is the total of one group and no group totals more; `None` exactly for an empty list, where `max` raises |
| Calories.SampleMostCalories | test_day01/test_ex01.py:17-44 | the most any of the five elves of the test carries is 24000 calories |
| LineChunks.GenerateChunksOfLines | test_day01/test_ex01.py:11-14 | the generator loop yields exactly `Chunks(rawLines)`: the maximal runs of non-blank lines, in order |
| LineChunks.TakeWhileNotBlank | test_day01/test_ex01.py:13 | one `takewhile` call stops at the first blank line after `start`, or at the end, and passes only non-blank lines |
| LineChunks.RunLength | test_day01/test_ex01.py:13 | the run taken is the lines before the first blank line: all of them non-blank, followed by a blank line or the end |
| LineChunks.ChunkStep | test_day01/test_ex01.py:13-14 | one loop pass: an empty run ends the generator, otherwise the run is the next chunk and the blank line after it is consumed |
| LineChunks.ChunksAreRuns | test_day01/test_ex01.py:13-14 | every chunk yielded is nonempty and holds no blank line |
| LineChunks.ChunksUnchunk | test_day01/test_ex01.py:13-14 | chunks of non-blank lines joined with blank lines are cut back into the same chunks |
| LineChunks.ChunksKeepLines | test_day01/test_ex01.py:13-14 | when no blank line directly follows another (or starts the input), the chunks hold every non-blank line, in order |
| LineChunks.SampleChunks | test_day11/test_ex17.py:145-148 | the lines a, b, "", c, d, "", e, f, g give the chunks ab, cd and efg |
| Hands.Index | test_day02/test_ex04.py:52-53 | `list(Hand).index(hand)`: the position of the hand in declaration order |
| Hands.ShapeScore | test_day02/test_ex03.py:12-16 | Rock scores 1, Paper 2 and Scissors 3: one more than the hand's position |
| Hands.OpponentHand | test_day02/test_ex03.py:18-22 | the opponent's letter names a hand exactly when it is A, B or C |
| Hands.OpponentKeyRoundTrip | test_day02/test_ex03.py:18-22 | every hand's letter is read back as that hand |
| Hands.BeatsExactlyOne | test_day02/test_ex03.py:44-49 | no hand beats itself, and of two different hands exactly one beats the other |
| RpsGuess.OpponentLosesIsBeats | test_day02/test_ex03.py:44-49 | the three listed winning pairs are exactly the cyclic rule of the game |
| RpsGuess.GetRoundScore | test_day02/test_ex03.py:35-41 | shape score plus 3 for a draw, 6 for a win and 0 for a loss; always between 1 and 9 |
| RpsGuess.TotalScoreBounds | test_day02/test_ex03.py:31-32 | the total of n rounds lies between n and 9n |
| RpsGuess.TotalScoreAppend | test_day02/test_ex03.py:31-32 | the total of two lists of rounds is the sum of their totals |
| RpsGuess.PlayerHand | test_day02/test_ex03.py:24-28 | the player's letter names a hand exactly when it is X, Y or Z |
| RpsGuess.ParseFormatLine | test_day02/test_ex03.py:52-54 | every round written as "<opponent letter> <player letter>" is parsed back into that round |
| RpsGuess.Samples | test_day02/test_ex03.py:57-77 | the round scores 8, 1 and 6, the total 15 and the parse of "A Y" from the tests |
| RpsStrategy.GetMyHand | test_day02/test_ex04.py:51-59 | a draw plays the opponent's hand, a loss a hand the opponent beats, a win a hand that beats the opponent |
| RpsStrategy.MyHandsDistinct | test_day02/test_ex04.py:51-59 | different results ask for different hands |
| RpsStrategy.GetRoundScore | test_day02/test_ex04.py:41-48 | the score is the first half's score of the chosen hand against the opponent, between 1 and 9 |
| RpsStrategy.TotalScoreIsGuessed | test_day02/test_ex04.py:37-38 | the total is the first half's total over the hands chosen round by round |
| RpsStrategy.PlayerResult | test_day02/test_ex04.py:30-34 | the player's letter names a result exactly when it is X, Y or Z |
| RpsStrategy.ParseFormatLine | test_day02/test_ex04.py:62-64 | every round written as two letters is parsed back into that round |
| RpsStrategy.Samples | test_day02/test_ex04.py:67-87 | the round scores 4, 1 and 7, the total 12 and the parse of "A Y" from the tests |
| Items.AsciiLetters | test_day03/test_ex05.py:19-20 | `string.ascii_letters` has 52 letters |
| Items.IndexOf | test_day03/test_ex05.py:19-20 | `str.index`: the first position of the character; `None` exactly when it is absent |
| Items.PriorityOfItem | test_day03/test_ex05.py:19-20 | a to z have priorities 1 to 26, A to Z have 27 to 52, any other character has none |
| Items.PriorityInjective | test_day03/test_ex05.py:19-20 | different items have different priorities |
| Items.SamplePriorities | test_day03/test_ex05.py:45-47 | P has priority 42 and t has 20 |
| Items.FirstCommonInCommon | test_day03/test_ex05.py:14-16 | the item picked belongs to the intersection, and there is none exactly when the intersection is empty |
| Items.FirstCommonOfSingleton | test_day03/test_ex05.py:14-16 | when the intersection holds one item type, that type is the one picked |
| Items.SumAll | test_day03/test_ex05.py:7-8 | the sum of priorities is there exactly when every priority is; n priorities sum to between n and 52n |
| Rucksacks.FirstCompartment | test_day03/test_ex05.py:12 | the first compartment is the first `len // 2` items |
| Rucksacks.SecondCompartment | test_day03/test_ex05.py:13 | the two compartments together are the whole rucksack |
| Rucksacks.SharedItemInBoth | test_day03/test_ex05.py:11-16 | the shared item is in both compartments; there is none exactly when they share no item type |
| Rucksacks.SharedItemIsTheOnlyOne | test_day03/test_ex05.py:11-16 | when the compartments share exactly one item type, that type is returned |
| Rucksacks.SharedItemOne | test_day03/test_ex05.py:40 | the first rucksack of the test shares p |
| Rucksacks.SharedItemTwo | test_day03/test_ex05.py:41 | the second rucksack of the test shares L |
| Rucksacks.SharedItemSix | test_day03/test_ex05.py:42 | the sixth rucksack of the test shares s |
| Rucksacks.GetPrioritiesSum | test_day03/test_ex05.py:7-8 | the sum is there exactly when every rucksack has a priority, and lies between n and 52n |
| Rucksacks.PrioritiesSumOf | test_day03/test_ex05.py:7-8 | when every rucksack has a priority, the answer is the sum of those priorities |
| Rucksacks.SamplePrioritiesSum | test_day03/test_ex05.py:23-36 | the six rucksacks of the test sum to 157 |
| RucksackGroups.SharedItemInAll | test_day03/test_ex06.py:16-18 | the badge is carried by every rucksack of the group; there is none exactly when they share no item type |
| RucksackGroups.SharedItemIsTheOnlyOne | test_day03/test_ex06.py:16-18 | when the rucksacks share exactly one item type, that type is the badge |
| RucksackGroups.Groups | test_day03/test_ex06.py:12 | `grouper(..., 3)` gives consecutive triples; `None` exactly when the count is not a multiple of 3, where the padded group raises |
| RucksackGroups.GroupsConcat | test_day03/test_ex06.py:12 | the triples, joined again, are the original list |
| RucksackGroups.GetPrioritiesSum | test_day03/test_ex06.py:9-13 | a sum exists only for a multiple of 3 rucksacks, and lies between g and 52g for g groups |
| RucksackGroups.PrioritiesSumDefined | test_day03/test_ex06.py:9-13 | there is a sum exactly when the count is a multiple of 3 and every group of three has a badge with a priority |
| RucksackGroups.PrioritiesSumOf | test_day03/test_ex06.py:9-13 | when group k's badge has priority p[k], the sum is the sum of the p[k] |
| RucksackGroups.LetterGroupsHaveSum | test_day03/test_ex06.py:9-18 | rucksacks of letters, a multiple of 3 of them, whose every group of three shares an item type, have a sum |
| RucksackGroups.SampleSharedItem | test_day03/test_ex06.py:41-51 | the first group of the test has badge r |
| RucksackGroups.SamplePrioritiesSum | test_day03/test_ex06.py:25-38 | the two groups of the test sum to 70 |
| Sections.Ids | test_day04/test_ex07.py:6 | `range(start, stop)` yields start, start + 1, ... and is empty when stop <= start |
| Sections.MemberIff | test_day04/test_ex07.py:6 | an ID is in the range's set exactly when start <= ID < stop |
| Sections.ContainedIffBounds | test_day04/test_ex07.py:5-7 | one set contains the other exactly when one range is empty or its bounds lie within the other's |
| Sections.ContainedIsSymmetric | test_day04/test_ex07.py:5-7 | containment in either direction is symmetric in the two ranges |
| Sections.OverlappingIffBounds | test_day04/test_ex08.py:5-7 | two ranges overlap exactly when the larger start is below the smaller stop |
| Sections.OverlappingIsSymmetric | test_day04/test_ex08.py:5-7 | overlapping is symmetric |
| Sections.Reflexive | test_day04/test_ex08.py:5-7 | a range contains itself, and overlaps itself exactly when it is not empty |
| Sections.ContainedRangesOverlap | test_day04/test_ex08.py:5-7 | of two non-empty ranges, one containing the other, the two overlap |
| Sections.ContainedSamples | test_day04/test_ex07.py:24-26 | the containment answers of the test's two pairs: no, then yes |
| Sections.OverlappingSamples | test_day04/test_ex08.py:19-22 | the overlap answers of the test's three pairs: no, yes, yes |
| Sections.ParseFormatLine | test_day04/test_ex07.py:10-21 | the line "a-b,c-d" parses to the ranges a to b + 1 and c to d + 1 |
| Sections.ParseExampleOne | test_day04/test_ex07.py:30 | "2-4,6-8" parses to range(2, 5) and range(6, 9) |
| Sections.ParseExampleTwo | test_day04/test_ex07.py:31 | "2-8,3-7" parses to range(2, 9) and range(3, 8) |
| Crates.PyIndex | test_day05/test_ex09.py:18-19 | a Python list index is valid exactly from -n to n - 1; a negative one counts from the end |
| Crates.GetTopCratesAfterInstructions | test_day05/test_ex09.py:13-21 | the array of stacks ends as the instructions applied one crate at a time, and the result is the top crate of each stack |
| Crates.TopCrates | test_day05/test_ex09.py:21 | the top crate of every stack in order; `None` exactly when some stack is empty |
| Crates.MoveTimesBlock | test_day05/test_ex09.py:17-20 | moving n crates one at a time moves the top n crates reversed; `None` when the stack holds fewer than n |
| Crates.MoveTimesSameStack | test_day05/test_ex09.py:17-20 | moving crates from a stack to itself leaves the stacks unchanged, unless the stack is empty |
| Crates.ApplyAllKeepsCrates | test_day05/test_ex09.py:16-20 | the instructions keep the number of stacks and the same crates overall |
| Crates.SampleTopCrates | test_day05/test_ex09.py:42-54 | the four moves of the test leave the top crates CMZ |
| Crates.ParseRawStacks | test_day05/test_ex09.py:24-34 | the parser loop computes `FillRows` over the drawing's rows from the bottom up, starting from `(len(bottom row) + 1) // 4` empty stacks; `None` for fewer than two lines |
| Crates.FillRowStacks | test_day05/test_ex09.py:30-33 | a well-drawn row adds to each stack the crate drawn at its column |
| Crates.SampleRawStacks | test_day05/test_ex09.py:57-65 | the drawing of the test gives the stacks ZN, MCD and P |
| Crates.ParseFormatInstruction | test_day05/test_ex09.py:37-39 | "move a from b to c" parses to Instruction(a, b, c) for all naturals |
| Crates.ParseExampleThree | test_day05/test_ex09.py:71 | "move 11 from 7 to 2" parses to Instruction(11, 7, 2) |
| Markers.CharSetSize | test_day06/test_ex11.py:8 | a window's set has as many characters as the window exactly when no character repeats |
| Markers.MarkerFrom | test_day06/test_ex11.py:7-10 | the search returns a marker position with no earlier marker, or `None` when there is none |
| Markers.StartIndexUnique | test_day06/test_ex11.py:6-10 | the answer is the least position ending a window of distinct characters, and nothing else is |
| Markers.FindStart | test_day06/test_ex11.py:7-10 | the search loop computes `StartIndex` |
| Markers.GetStartOfPacketIndex | test_day06/test_ex11.py:6-10 | the start of packet is `StartIndex` with windows of 4 |
| Markers.GetStartOfMessageIndex | test_day06/test_ex12.py:6-10 | the start of message is `StartIndex` with windows of 14 |
| Markers.ShortStream | test_day06/test_ex11.py:10 | a stream shorter than the window has no marker |
| Markers.StartIndexBounds | test_day06/test_ex11.py:7 | a marker position lies between the window width and the stream length |
| MarkerSamples.PacketExampleOne | test_day06/test_ex11.py:14 | the first stream's packet starts after character 7 |
| MarkerSamples.PacketExampleTwo | test_day06/test_ex11.py:15 | the second stream's packet starts after character 5 |
| MarkerSamples.PacketExampleThree | test_day06/test_ex11.py:16 | the third stream's packet starts after character 10 |
| MarkerSamples.MessageExampleOne | test_day06/test_ex12.py:14 | the first stream's message starts after character 19 |
| MarkerSamples.MessageExampleTwo | test_day06/test_ex12.py:15 | the second stream's message starts after character 23 |
| MarkerSamples.MessageExampleThree | test_day06/test_ex12.py:16 | the third stream's message starts after character 29 |
| FileSystem.Find | test_day07/test_ex13.py:57 | a dict lookup finds the first entry with the key; `None` exactly when the key is absent |
| FileSystem.Get | test_day07/test_ex13.py:57 | `d[key]` is there exactly when the key is |
| FileSystem.PutGet | test_day07/test_ex13.py:48-51 | after `d[key] = value`, the key maps to the value, other keys are unchanged, and a new key goes last |
| FileSystem.PutFileSize | test_day07/test_ex13.py:32-37 | storing a file changes the files' total by the new size minus any replaced size |
| FileSystem.PutFolderSize | test_day07/test_ex13.py:32-37 | storing a folder changes the folders' total by the new size minus any replaced folder's size |
| FileSystem.ReplaceAtPath | test_day07/test_ex13.py:45-51 | replacing the folder at a path puts the new folder there and changes the tree's size by the difference |
| FileSystem.ListItemEffect | test_day07/test_ex13.py:45-51 | a "dir x" line makes x an empty folder; any other line stores file x with the size it starts with |
| FileSystem.StepValid | test_day07/test_ex13.py:44-57 | each command keeps the cursor on a folder of the tree and keeps the root's name |
| FileSystem.RunValid | test_day07/test_ex13.py:43-57 | a whole run keeps the cursor on a folder of the tree and keeps the root's name |
| FileSystem.ExecuteRoot | test_day07/test_ex13.py:40-58 | the tree is called "/", and the first command plays no part |
| FileSystem.ListOutput | test_day07/test_ex13.py:45-51 | the loop over an `ls` output computes `ListAll`, with `None` at the first line Python cannot handle |
| FileSystem.ExecuteCommand | test_day07/test_ex13.py:44-57 | one pass of the loop body computes `Step` |
| FileSystem.ExecuteCommands | test_day07/test_ex13.py:40-58 | the command loop computes `Execute` |
| FileSystem.OutputLength | test_day07/test_ex13.py:64 | the output of a command runs up to the next line starting with "$" |
| FileSystem.SplitBefore | test_day07/test_ex13.py:64 | `split_before` gives groups whose later members never start with "$", each group after the first starting with one |
| FileSystem.FlattenSplitBefore | test_day07/test_ex13.py:64 | splitting loses no line and reorders none |
| FileSystem.SplitBeforeFlatten | test_day07/test_ex13.py:64 | well-formed groups, joined, split back into the same groups |
| FileSystem.SplitBeforeGroup | test_day07/test_ex13.py:64 | a group whose output runs up to the next prompt is split off first |
| FileSystem.ParseLinesToCommands | test_day07/test_ex13.py:61-65 | one command per group: the first line without "$ " as instruction, the rest as output; `None` exactly when a line is empty |
| FileSystem.AllSizes | test_day07/test_ex13.py:68-72 | the sizes of every folder of the tree, the root's first |
| FileSystemSamples.SampleExecuteCommands | test_day07/test_ex13.py:94-108 | the test's session builds a root "/" with folder c, and folder a holding d.txt of size 456 |
| FileSystemSamples.NestedSessionOf | test_day07/test_ex13.py:111-120 | the six commands entering a folder inside a folder build the root holding a, holding a file and c, holding two files |
| FileSystemSamples.SampleFolderSize | test_day07/test_ex13.py:110-123 | the test's tree is "/" and its folder "a" has size 300 |
| SmallFolders.SumOfSizesOfAllFolders | test_day07/test_ex13.py:68-72 | the recursive sum is the sum, over every folder of the tree, of the sizes at most the limit |
| SmallFolders.SumOfSizesWithDefaultMaxSize | test_day07/test_ex13.py:68-72 | without a limit passed, the sum is over the folders of size at most the default 100000 |
| FolderDeletion.CandidatesOfAllFolders | test_day07/test_ex14.py:75-79 | the candidates are the sizes, over every folder of the tree, of at least the needed size |
| FolderDeletion.Min | test_day07/test_ex14.py:72 | `min` is an element bounding all others; `None` exactly for an empty list, where it raises |
| FolderDeletion.SmallestLargeEnough | test_day07/test_ex14.py:68-72 | the answer is the smallest folder size that frees enough space, and exists exactly when some folder is large enough |
| FolderDeletion.RootIsCandidate | test_day07/test_ex14.py:68-72 | when the disk is at least as large as the space needed, there is an answer, no larger than the root's size |
| FolderDeletion.GetDirectoryToDeleteSizeWithDefaults | test_day07/test_ex14.py:68-72 | with the default disk of 70000000 and 30000000 needed, there is always an answer: the smallest folder size of at least the tree's size less 40000000, no larger than the root's |
| TreeGrid.ParseRow | test_day08/test_ex13.py:9 | a line parses exactly when it is all digits, each to its value |
| TreeGrid.ParseTreeGrid | test_day08/test_ex13.py:8-9 | the grid parses exactly when every line does, row by row |
| TreeGrid.ParsedHeightsAreDigits | test_day08/test_ex13.py:8-9 | every height of a parsed grid is between 0 and 9 |
| TreeGrid.ParseSample | test_day08/test_ex13.py:31-38 | the five lines of the test parse to the sample grid |
| TreeGrid.BorderHasEmptySide | test_day08/test_ex13.py:24-27 | a tree on the edge has no tree on at least one side |
| TreeVisibility.MaxOr | test_day08/test_ex13.py:24 | `max(trees or [-1])` is -1 for no trees, otherwise the largest tree |
| TreeVisibility.TallerThanMax | test_day08/test_ex13.py:24 | a tree is taller than that maximum exactly when it is taller than every tree of the list |
| TreeVisibility.VisibleIff | test_day08/test_ex13.py:21-28 | a tree is visible exactly when it is taller than all trees on one of its four sides |
| TreeVisibility.BorderIsVisible | test_day08/test_ex13.py:21-28 | every tree on the edge is visible |
| TreeVisibility.Visibility | test_day08/test_ex13.py:15-17 | the flags of a row mark exactly its visible trees |
| TreeVisibility.CountIsVisibleCells | test_day08/test_ex13.py:12-18 | the count is the number of positions of visible trees |
| TreeVisibility.CountVisibleTrees | test_day08/test_ex13.py:12-18 | the count is at most the number of trees scanned |
| TreeVisibility.SampleVisibleTrees | test_day08/test_ex13.py:41-57 | the nine visibility answers of the test |
| TreeVisibility.SampleCount | test_day08/test_ex13.py:60-72 | the sample grid has 21 visible trees |
| Counting.CountRowsIsSize | test_day08/test_ex13.py:13-18 | the row-by-row count of true flags is the number of their positions |
| Scenic.ViewingDistance | test_day08/test_ex14.py:36-42 | the trees seen are all shorter except the last, and the view stops at the first tree at least as tall |
| Scenic.BlockedView | test_day08/test_ex14.py:36-42 | a tree at least as tall at position k, after shorter ones, gives distance k + 1 |
| Scenic.OpenView | test_day08/test_ex14.py:36-42 | a tree taller than every tree of the direction sees all of them |
| Scenic.GetDirectionScenicScore | test_day08/test_ex14.py:36-42 | the counting loop computes `ViewingDistance` |
| Scenic.ScoreBySides | test_day08/test_ex14.py:20-33 | the score is the product of the four viewing distances, the left and upward views read from the tree outwards |
| Scenic.ScoreZeroIffBorder | test_day08/test_ex14.py:20-33 | the score is zero exactly when the tree is on the edge |
| Scenic.ScoreAtMostTrees | test_day08/test_ex14.py:20-33 | the score is at most the product of the numbers of trees on the four sides |
| Scenic.RowScores | test_day08/test_ex14.py:14-16 | the scores of a row are the scenic scores of its trees |
| Scenic.ScoreTable | test_day08/test_ex14.py:13-17 | row `x` of the table holds the scores of row `x` of the grid |
| Scenic.ScoresJoined | test_day08/test_ex14.py:13-17 | the generator's scores, row after row, are the rows of the table laid end to end |
| Scenic.MemberJoined | test_day08/test_ex14.py:13-17 | every score of every row is among the joined scores |
| Scenic.JoinedMember | test_day08/test_ex14.py:13-17 | every joined score is the score at some row and column |
| Scenic.CellScoresAreScores | test_day08/test_ex14.py:13-17 | the score of every tree of the first row's width is among the scores the generator yields |
| Scenic.ScoresAreCellScores | test_day08/test_ex14.py:13-17 | every score the generator yields is the score of such a tree |
| Scenic.MaxScenicScoreIsBest | test_day08/test_ex14.py:12-17 | the best score is some tree's score and no tree scores more; it exists exactly when the grid has a tree |
| Scenic.SampleScore12 | test_day08/test_ex14.py:55-63 | tree (1, 2) of the sample has score 4 |
| Scenic.SampleMaxScenicScore | test_day08/test_ex14.py:66-78 | the best score of the sample grid is 8 |
| RopeStub.RopeSimulator.constructor | test_day09/test_ex15.py:20-23 | head and tail start where they are given |
| RopeStub.RopeSimulator.Default | test_day09/test_ex15.py:20-23 | without arguments, head and tail start at the origin |
| RopeStub.RopeSimulator.Move | test_day09/test_ex15.py:25-28 | the head moves `steps` unit steps and the tail stays where it was |
| RopeStub.RopeSimulator.MoveTailIfNeeded | test_day09/test_ex15.py:30-31 | the tail update of this version changes nothing |
| Rope.Opposite | test_day09/test_ex16.py:12-15 | of the named directions, LEFT and RIGHT are each other's opposite and so are UP and DOWN, and no other direction has one of them as its opposite |
| Rope.NextPositionMoves | test_day09/test_ex16.py:23-24 | a step moves by the direction's deltas, and the opposite step undoes it; the tests' two steps from (2, 6) |
| Rope.FollowRule | test_day09/test_ex16.py:50-58 | a knot within distance 1 stays put, otherwise it steps one cell towards its leader on each axis, ending adjacent when the leader was at most 2 away |
| Rope.FollowChainAt | test_day09/test_ex16.py:43-44 | knot k is settled behind knot k - 1 as already settled |
| Rope.StepKeepsConnected | test_day09/test_ex16.py:41-45 | a unit head step keeps every knot adjacent to the knot ahead of it |
| Rope.MovedKeepsConnected | test_day09/test_ex16.py:40-45 | any number of unit steps keep the rope connected |
| Rope.StackedRopeConnected | test_day09/test_ex16.py:29 | a new rope, all knots at the origin, is connected |
| Rope.HeadAfterSteps | test_day09/test_ex16.py:41-42 | after n steps the head has moved n times the direction |
| Rope.MovedSplit | test_day09/test_ex16.py:41 | moving a + b steps is moving a steps and then b more |
| Rope.FinalTailRecorded | test_day09/test_ex16.py:45 | the tail's position after a move is among the recorded positions |
| Rope.TrailGrows | test_day09/test_ex16.py:41-45 | a longer move records a superset of the tail positions |
| Rope.HeadAfterMoves | test_day09/test_ex16.py:40-42 | after a list of moves the head has moved by their total displacement |
| Rope.ThreeKnotDiagonal | test_day09/test_ex16.py:91-96 | a three-knot rope moved left 2 and down 2 has head (-2, -2) and tail (-1, -1) |
| Rope.RopeSimulator.constructor | test_day09/test_ex16.py:28-30 | a new rope has `rope_length` knots, all at the origin, and no tail position recorded |
| Rope.RopeSimulator.Default | test_day09/test_ex16.py:28-30 | without a length the rope has the default ten knots, all at the origin, and no tail position recorded |
| Rope.RopeSimulator.MoveNextIfNeeded | test_day09/test_ex16.py:50-58 | knot `iNext` is replaced by where it follows knot `iActual`, nothing else changes |
| Rope.RopeSimulator.SettleFollowers | test_day09/test_ex16.py:43-44 | the pairwise pass settles every knot behind the one before it |
| Rope.RopeSimulator.Move | test_day09/test_ex16.py:40-45 | the rope becomes `Moved(old rope, direction, steps)` and the recorded set gains the tail position after each step |
| Rope.ParseLineFormat | test_day09/test_ex16.py:61-64 | "<letter> <n>" parses to the letter's direction and n; `None` for any other letter |
| Cpu.Execute | test_day10/test_ex17.py:10-29 | `noop` runs one cycle and `addx v` two, the value v arriving on the last |
| Cpu.CycleCount | test_day10/test_ex17.py:38-44 | a program runs one cycle per `noop` and two per `addx` |
| Cpu.RegisterChange | test_day10/test_ex17.py:38-44 | the register ends changed by the sum of the `addx` arguments |
| Cpu.ValuesAppend | test_day10/test_ex17.py:39-40 | the cycles of two programs run one after the other are the cycles of each |
| Cpu.SmallPrograms | test_day10/test_ex17.py:67-98 | the cycle counts and final registers of the empty, noop, addx and combined tests |
| Cpu.ParseFormat | test_day10/test_ex17.py:55-59 | the text of every instruction is parsed back into it |
| Cpu.ParseExamples | test_day10/test_ex17.py:62-64 | "noop" and "addx -3" parse to their instructions |
| SignalCpu.SignalAt | test_day10/test_ex17.py:41 | cycle k's strength is its 1-based cycle number times the register before it |
| SignalCpu.SignalsAppend | test_day10/test_ex17.py:38-44 | the strengths of two stretches of cycles, the second starting from where the first ended |
| SignalCpu.InstructionProcessor.constructor | test_day10/test_ex17.py:33-36 | a new processor is at cycle 0 with register 1 |
| SignalCpu.InstructionProcessor.RunInstruction | test_day10/test_ex17.py:40-44 | the cycles of one instruction yield their `Signals` and advance the cycle count and register over them |
| SignalCpu.InstructionProcessor.Iterate | test_day10/test_ex17.py:38-44 | iteration yields `Signals` of all cycles, and advances the cycle count and register over all of them |
| SignalCpu.TwentiethSignal | test_day10/test_ex17.py:101-131 | the 20th strength of the sample program is 420 |
| CrtCpu.Pixel | test_day10/test_ex18.py:43-45 | a pixel is lit exactly when the column is within 1 of the register |
| CrtCpu.PixelAt | test_day10/test_ex18.py:40-48 | pixel k is drawn at cycle k with the register before it |
| CrtCpu.PixelsAreDots | test_day10/test_ex18.py:43-45 | every pixel is '#' or '.' |
| CrtCpu.InstructionProcessor.constructor | test_day10/test_ex18.py:35-38 | a new processor is at cycle 0 with register 1 |
| CrtCpu.InstructionProcessor.Tick | test_day10/test_ex18.py:43-48 | one cycle draws `Pixel` of the cycle count and register, then moves both on |
| CrtCpu.InstructionProcessor.RunInstruction | test_day10/test_ex18.py:42-48 | the cycles of one instruction yield their `Pixels` and advance the cycle count and register over them |
| CrtCpu.InstructionProcessor.Iterate | test_day10/test_ex18.py:40-48 | iteration yields `Pixels` of all cycles, and advances the cycle count and register over all of them |
| CrtCpu.InstructionProcessor.Paint | test_day10/test_ex18.py:50-56 | the painted string is `Layout` of the pixels |
| CrtCpu.LayoutIsRows | test_day10/test_ex18.py:50-56 | the painted string puts a newline before every row of 40 pixels |
| CrtCpu.LayoutLength | test_day10/test_ex18.py:50-56 | the painted string holds one newline per started row |
| CrtCpu.LayoutWithoutNewlines | test_day10/test_ex18.py:50-56 | removing the newlines gives the pixels back |
| CrtCpu.IterativePainting | test_day10/test_ex18.py:113-117 | addx 15, -11 and 6 draw "##..##" |
| Monkeys.Inspect | test_day11/test_ex17.py:27-35 | the new worry is the operation's result floor-divided by 3, and the target follows its divisibility |
| Monkeys.InspectNext | test_day11/test_ex17.py:23-35 | an empty queue gives `None` and changes nothing; otherwise the first item is popped, inspected and counted |
| Monkeys.Monkey.constructor | test_day11/test_ex17.py:13-21 | a new monkey has the given rules and items and has inspected nothing |
| Monkeys.Monkey.InspectNextItem | test_day11/test_ex17.py:23-35 | the method returns and leaves what `InspectNext` gives for the old state |
| Monkeys.SampleInspection | test_day11/test_ex17.py:122-137 | monkey 0 of the test throws 500 to monkey 3 and keeps [98]; `old * 5` of 5 is 25 and `old * old` of 3 is 9 |
| Monkeys.ThrowOne | test_day11/test_ex17.py:61-63 | one throw moves the first item to its target's queue end, counts one inspection, and keeps the item total |
| Monkeys.Turn | test_day11/test_ex17.py:60-63 | a turn empties the monkey's queue, counts one inspection per item, only extends the other queues and keeps the item total |
| Monkeys.Rounds | test_day11/test_ex17.py:59-63 | rounds keep the number of items and never lower a count |
| Monkeys.RoundEmptiesLast | test_day11/test_ex17.py:60-63 | the last monkey ends every round with an empty queue |
| Monkeys.SortedTail | test_day11/test_ex17.py:64-65 | the rest of a decreasing rearrangement, once a largest count is set aside, is a rearrangement of the other counts |
| Monkeys.MonkeyBusinessOfSorted | test_day11/test_ex17.py:64-65 | the product of the first two counts sorted in decreasing order is the largest count times the largest of the rest |
| Monkeys.ThrowNextItem | test_day11/test_ex17.py:62-63 | one throw between monkey objects is `ThrowOne` on their states |
| Monkeys.TakeTurn | test_day11/test_ex17.py:61-63 | the `while monkey.items` loop is `Turn` |
| Monkeys.PlayRound | test_day11/test_ex17.py:60-63 | the loop over the monkeys is one `Round` |
| Monkeys.GetMonkeyBusinessLevel | test_day11/test_ex17.py:58-65 | the monkeys end in the state of 20 rounds, and the result is the product of the two largest counts |
| Monkeys.ParseFormatOperation | test_day11/test_ex17.py:37-38 | the three operation forms are parsed back from their text |
| Monkeys.ParseNumerals | test_day11/test_ex17.py:44 | the numerals of a list of integers parse back to the list |
| Monkeys.BuildMonkeyFromText | test_day11/test_ex17.py:41-49 | a monkey built from text has inspected nothing, and its id and targets are single digits |
| Monkeys.BuildFormattedMonkey | test_day11/test_ex17.py:41-49 | the six lines describing a monkey with single-digit id and targets are read back into it |
| Monkeys.SampleMonkeyText | test_day11/test_ex17.py:112-119 | the six lines of monkey 0 of the test are the description of id 0, items 79 and 98, `old * 19`, divisor 23, targets 2 and 3 |
| Monkeys.SampleMonkey | test_day11/test_ex17.py:112-119 | monkey 0 of the test is read as id 0, items 79 and 98, `old * 19`, divisor 23, targets 2 and 3 |
| Text.JoinSplit | test_day04/test_ex07.py:16-18 | joining the pieces of `str.split(sep)` with sep gives the string back |
| Text.SplitJoin | test_day04/test_ex07.py:16-18 | pieces free of the separator, joined with it, split back into the same pieces |
| Text.ParseIntToString | test_day10/test_ex17.py:59 | `int` reads back every integer's decimal numeral |

## Left out

- The `__main__` blocks: reading `input.txt`, stripping newlines and printing answers are I/O.
- Text.Words models `str.split()` with no argument as splitting at spaces and dropping empty pieces. Tabs, newlines and other whitespace are not modelled.
- Text.ParseInt models `int()` as an optional sign and ASCII digits. It does not strip surrounding whitespace, skip underscores or read other Unicode digits.
- `StrEnum`, `auto()`, `dataclass` equality and `repr` are plain Dafny datatypes; the `Instruction` class hierarchy of day 10 is a two-case datatype.
- Items.FirstCommon: `set.pop()` returns an arbitrary element. The model returns the first common item in rucksack order. The two agree whenever the intersection holds one item type, which the puzzle guarantees (`FirstCommonOfSingleton`).
- Crates.ParseInstruction accepts only lines that are exactly "move a from b to c". `re.findall` would also find the template inside a longer line.
- Crates.GetTopCratesAfterInstructions requires that every stack number is a valid Python index, that every pop finds a crate and that every stack ends nonempty. The Python raises `IndexError` otherwise, after changing the stacks in place up to that point.
- Markers: the exception raised when no marker exists is `None`.
- FileSystem: the `parent` links and the mutable folder objects are modelled as a tree value plus a cursor path. File objects are reduced to their sizes.
- FileSystem.Execute: the full 23-line session of the size tests is not proved to give 95437 or 24933642; the 7-command session of the `execute_commands` test and the 6-command session of the `Folder.size` test are proved.
- TreeVisibility.CountVisibleTrees and Scenic.GetMaxScenicScore require that no row is shorter than the first. The Python raises `IndexError` on such ragged grids.
- Rope.RopeSimulator.Move requires a nonempty rope when it moves. Python raises `IndexError` on an empty one.
- Rope: the ten-knot scenarios of the tests (head (-3, 8) and tail (1, 3), head (14, 5) and tail (5, 5), 36 visited positions) are not proved. Each needs dozens of ten-knot steps evaluated, which is beyond the verifier's budget here. The three-knot scenario is proved.
- Rope: the tail-position set starts empty, as the code does, while the puzzle statement counts the start position too. With two or more knots the tail is still at the origin after the first step, so the two counts agree once a step is taken. This agreement is not proved.
- Monkeys: `eval` of the operation text is modelled for its three forms, "old + n", "old * n" and "old * old". Python stores any text after "= " and `eval` accepts any expression in `old` ("old - 3", "old + old", "old * 2 + 1"), failing only on text that is not an expression. The model covers only the three forms the puzzle uses, and Monkeys.BuildMonkeyFromText returns `None` for every other text.
- Monkeys.GetMonkeyBusinessLevel requires at least two monkeys, distinct objects, nonzero divisors, and targets that are valid indices other than the thrower. Self-targets are excluded so that a turn ends after one throw per item: in Python a monkey throwing to itself may loop forever (an item 0 under "old + 0" returns to it for ever), though it need not (an item 9 under "old + 0" with divisor 3 returns once, as 3, then leaves as 1). A negative target would index from the end.
- Monkeys.GetMonkeyBusinessLevel: the sample answer 10605 after 20 rounds is not proved. Twenty rounds of four monkeys are too many steps to evaluate.
- Monkeys.BuildFormattedMonkey covers monkeys whose id and targets are single digits. The source itself reads only one character for each.
