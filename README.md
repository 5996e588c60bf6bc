# Advent of Code 2023 puzzle solvers, modelled in Dafny

This project models the puzzle logic of a Rust solution set for eight
Advent of Code 2023 puzzles and proves what that logic computes. Each Rust
source file becomes one Dafny module:

| module | source | what it models |
|---|---|---|
| `Common` | src/common.rs | the shared `number` digit-run parser and the nom-style prefix parsers (`tag`, `space1`, `multispace1`, `separated_list1`), `split_whitespace`, `u64::from_str`, the in-place sort, the binary search, sums over hash sets and collecting `Result`s |
| `Almanac` | src/day5.rs | almanac rules `(source, dest, width)`, their parsing and sorting, the binary search by containing rule, the fold of a seed through the stages, and the input layout checks |
| `Schematic` | src/day3.rs | the line scanner for digit runs and symbols, the three-line window, the part-number filter, the gear search and both drivers |
| `CamelCards` | src/day7.rs | card kinds, counting, joker folding, hand types, the hand order, the hand and bid parsers and the winnings |
| `Scratchcards` | src/day4.rs | the card parser, the match count, the score and the propagation of card copies |
| `Calibration` | src/day1.rs | the first and last digit of a line, plain and with spelled digits, the latter found by scanning the reversed line |
| `Network` | src/day8.rs | the 3-byte key encoding, the node parser and `Node::from_str`, and the `NodeStream` walker |
| `CubeGame` | src/day2.rs | the colour, cube, game, group and groups parsers |
| `BoatRace` | src/day6.rs | the count of winning button holds per race and the product over races |

Source code written as loops that update state is modelled as Dafny methods
with loops. Each such method is proved against a reference function. The
`NodeStream` iterator of day 8 is a class whose `Next` method updates its
fields. The in-place sorts of day 5 and day 7 work on arrays. The
combinator parsers, `get_type`, the comparisons and the counting formulas
are modelled as functions, and lemmas state their properties.

Where the program panics, the model states the condition under which it
does not panic as a precondition. This covers an integer that does not fit
its type, an index out of range, and an instruction byte other than `L` or
`R`. Where the program reads a hash set or hash map in an unspecified
order, the model lets that order be any order and proves that the result
does not depend on it. Only ASCII text is modelled.

Day 5 maps each seed value on its own through the stages of the almanac
(src/day5.rs:70), and the model does the same. Day 2's
own `number` (src/day2.rs:36-43) is the same parser as `number` in
src/common.rs read as a `u32`, and the model uses `Common.Number` for both.

## Model

| member | source | states |
|---|---|---|
| Common.DigitValue | src/day1.rs:29-30 | a digit's value is below ten and the digit is the character at that place in "0123456789" |
| Common.DecimalString | src/common.rs:20-27 | the printed form of a number is non-empty, all digits, and "0" exactly for zero |
| Common.DecimalRoundTrip | src/common.rs:20-27 | reading the printed form of a number gives the number |
| Common.DecimalValueOfPrefix | src/common.rs:20-27 | a prefix of a digit string never reads as more than the string |
| Common.DecimalValueOfSuffix | src/common.rs:20-27 | a suffix of a digit string never reads as more than the string |
| Common.Span | src/common.rs:21 | the longest prefix all of whose characters pass the test: all inside pass, the next one fails |
| Common.SpanOfPrefix | src/common.rs:21 | the scan stops exactly after a prefix all of whose characters pass when the next character fails |
| Common.Tag | src/day4.rs:12 | `tag` succeeds exactly when the text starts with the tag, leaving what follows it |
| Common.Space1 | src/day4.rs:12 | `space1` succeeds exactly when the text starts with a space or tab, and consumes all of the leading spaces and tabs |
| Common.BlanksThen | src/day4.rs:12 | `space1` consumes a whole run of blanks in front of text that does not start with one |
| Common.Multispace1 | src/day4.rs:20 | `multispace1` succeeds exactly when the text starts with whitespace, and consumes all of it |
| Common.WhitespaceThen | src/day4.rs:20 | `multispace1` consumes a whole run of whitespace in front of text that does not start with whitespace |
| Common.Number | src/common.rs:20-27 | fails exactly when the text does not start with a digit; otherwise reads the whole leading run of digits as its decimal value, which is below the limit, and leaves the rest, which does not start with a digit |
| Common.NumberRoundTrip | src/common.rs:20-27 | a printed number followed by a non-digit reads back as that number and leaves the rest untouched |
| Common.NumberIsSpan | src/common.rs:20-27 | `number` reads the digits `digit1` spans and leaves what follows them |
| Common.NumberAfterFits | src/common.rs:20-27 | when every number a list reads fits, so does the first, and so do those after it |
| Common.NumberList | src/day4.rs:21 | `separated_list1(multispace1, number)` fails exactly when the text does not start with a digit; otherwise the text is the numbers read, in order, each printed in decimal and separated by whitespace, followed by a rest at which the list ends, and every number is below the limit |
| Common.SepNumber | src/day4.rs:21 | one separator-and-number step reads whitespace and the number printed after it, leaving text that does not start with a digit; on text that does not start with a digit it fails exactly when the list ends there |
| Common.MoreNumbers | src/day4.rs:21 | the repetition reads the text as whitespace-separated printed numbers followed by the rest, each number below the limit, and stops where the list ends (nom backtracks over a separator not followed by a number) |
| Common.ListTextParses | src/day4.rs:21 | text that is some numbers below the limit printed with whitespace between them, followed by a rest at which the list ends, reads back as exactly those numbers and that rest: the list parser is complete for its grammar |
| Common.MoreTextParses | src/day4.rs:21 | the separator-and-number repetition reads back exactly the numbers its grammar describes |
| Common.ListTextOfNumber | src/day4.rs:21 | a number followed by separated numbers is a list of them all |
| Common.MoreTextCons | src/day4.rs:21 | one separated number followed by more is a longer separated list |
| Common.Spaces | src/day4.rs:21 | k single spaces, each whitespace |
| Common.JoinedStartsWithDigit | src/day4.rs:21 | printed numbers with separators start with a digit |
| Common.JoinedListText | src/day4.rs:21 | numbers printed with whitespace between them, followed by text not starting with a digit, are a list of those numbers in the grammar |
| Common.EndsListNoDigit | src/day4.rs:21 | text at which a list ends does not start with a digit |
| Common.NumberListRoundTrip | src/day4.rs:21 | numbers below the limit printed with any non-empty runs of whitespace between them, followed by text that ends the list, read back as those numbers and leave that text |
| Common.Words | src/day7.rs:151 | `split_whitespace` gives non-empty words without whitespace |
| Common.RemoveWhitespace | src/day7.rs:151 | removing whitespace never lengthens a text |
| Common.RemoveWhitespaceAppend | src/day7.rs:151 | removing whitespace distributes over concatenation |
| Common.RemoveWhitespaceOf | src/day7.rs:151 | an all-whitespace text vanishes and a text without whitespace is kept |
| Common.WordsLoseOnlyWhitespace | src/day7.rs:151 | the words, concatenated, are the text with its whitespace removed: the split loses exactly the whitespace |
| Common.LeadingWhitespaceRemoved | src/day7.rs:151 | leading whitespace contributes nothing |
| Common.WordSplit | src/day7.rs:151 | a word at the front is kept whole |
| Common.ParseU64 | src/day7.rs:156 | `u64::from_str` succeeds exactly on an optional plus sign and digits whose value fits in 64 bits, giving that value |
| Common.ParseU64RoundTrip | src/day7.rs:156 | a printed `u64` reads back |
| Common.TotalAt | src/day7.rs:179 | a total comparator orders any two values one way or the other |
| Common.SwapWithPrevious | src/day7.rs:179 | swapping neighbours exchanges two elements and keeps the rest and the multiset |
| Common.SortBy | src/day7.rs:179 | the in-place sort leaves the array ordered between neighbours by a total comparator and a reordering of its old contents |
| Common.BinarySearchBy | src/day3.rs:137-148 | a found index holds an element the comparator calls Equal; on a monotone comparator nothing is found exactly when no element is Equal |
| Common.SetSumRemove | src/day3.rs:132 | a sum over a hash set is the same whichever element is taken first |
| Common.SetSumAdd | src/day3.rs:132 | adding an element to a set adds its value to the sum |
| Common.SetSumCongruent | src/day3.rs:132 | functions that agree on a set sum alike over it |
| Common.SetSumOfDistinct | src/day3.rs:95 | over distinct elements, the set sum equals the sum in sequence order |
| Common.FirstFailureShift | src/day7.rs:165-167 | the first failure of the tail is the first failure of the list, one place on |
| Common.CollectAll | src/day7.rs:165-167 | collecting results succeeds exactly when every element succeeds, giving their values in order; otherwise the error is that of the first failing element |
| Almanac.ParseMapLineRoundTrip | src/day5.rs:15-20 | a line of at least three numbers "d s w ..." with any whitespace between them parses to the rule with source s, dest d and width w: the first two numbers change places and numbers after the third are ignored |
| Almanac.ParseMapLine | src/day5.rs:15-20 | the rule's dest is the first number of the line, and the line is the rule's dest, source and width printed with whitespace between them, followed by more numbers or the end |
| Almanac.Shift | src/day5.rs:93 | a contained value lands in [dest, dest + width) at the same offset it had in [source, source + width) |
| Almanac.Apply | src/day5.rs:90-97 | the reference meaning of a stage: a value no rule contains passes through unchanged, and a contained value is shifted by a rule that contains it |
| Almanac.ApplyFindsContainingRule | src/day5.rs:90-96 | with disjoint rules, the rule containing the value decides its image, wherever that rule sits in the list |
| Almanac.ApplyIgnoresOrder | src/day5.rs:26 | with disjoint rules, reordering a stage (as the sort does) does not change where any value goes |
| Almanac.SeedToSoilExample | src/day5.rs:157-171 | the seed-to-soil stage sends 79 to 81, 14 to 14, 55 to 57 and 13 to 13, in either rule order |
| Almanac.ProbeMonotone | src/day5.rs:75-84 | on a sorted stage of non-empty disjoint rules the comparator orders Less, then Equal, then Greater |
| Almanac.FindBySource | src/day5.rs:74-88 | `Some(i)` only when rule i contains seek; on a sorted stage of non-empty disjoint rules, `None` exactly when no rule contains seek |
| Almanac.MapBySource | src/day5.rs:90-97 | the result is seek itself or its shift by a rule that contains it; on a searchable stage it is the stage's reference meaning |
| Almanac.ApplyAllAppend | src/day5.rs:99-105 | running two lists of stages in a row is running their concatenation |
| Almanac.ApplyAll | src/day5.rs:99-105 | the stages run in order; a value no rule of any stage contains (in particular with no stages) comes out unchanged |
| Almanac.ApplyAllIgnoresOrder | src/day5.rs:99-105 | stage by stage, two almanacs holding the same disjoint rules in any order map every value alike |
| Almanac.MapWithGroups | src/day5.rs:99-105 | when every stage is searchable, the loop's result is the value run through every stage in order |
| Almanac.LeadingNonEmpty | src/day5.rs:23 | the lines before the count are non-empty and the line at the count, if any, is empty |
| Almanac.CountLeadingNonEmpty | src/day5.rs:23 | the `take_while` loop counts exactly the lines before the first empty line |
| Almanac.ParseLeadingRules | src/day5.rs:23-25 | the loop parses exactly the lines before the first empty line, in order |
| Almanac.SortedBySourceFromNeighbours | src/day5.rs:26 | order between neighbours by source is order by source between any two rules |
| Almanac.ProcessMapGroup | src/day5.rs:22-28 | the result is a reordering (same multiset) of the parsed rules and is sorted by source |
| Almanac.SortedStageIsSearchable | src/day5.rs:22-28 | sorting non-empty disjoint rules gives a stage the binary search handles exactly, with the same rules |
| Almanac.Groups | src/day5.rs:32-41 | the fold always yields at least one group |
| Almanac.GroupsRoundTrip | src/day5.rs:32-41 | joining the groups back with empty lines gives the input: the fold loses no line |
| Almanac.GroupsShape | src/day5.rs:32-41 | no group holds an empty line, and there is exactly one more group than there are empty lines |
| Almanac.GroupLines | src/day5.rs:32-41 | the fold written as a loop that pushes onto the last group computes `Groups` |
| Almanac.HasSubstring | src/day5.rs:61 | true exactly when `t` occurs somewhere in `s` |
| Almanac.ParseSeeds | src/day5.rs:49-50 | the seed list is empty exactly when the text after "seeds: " does not start with a digit; otherwise the text is those seeds printed with whitespace between them, followed by a rest that ends the list |
| Almanac.ParseSeedsRoundTrip | src/day5.rs:50 | seeds printed with any non-empty runs of whitespace between them are read back unchanged |
| Almanac.EmptyInputIsRejected | src/day5.rs:174-179 | empty input is an error (the seeds group has no last line) |
| Almanac.ProcessMapGroups | src/day5.rs:66-68 | one stage per map group, each a sorted reordering of that group's parsed rules |
| Almanac.MapSeeds | src/day5.rs:70 | one value per seed, in order; with searchable stages each is the seed run through all stages |
| Almanac.AllMapGroups | src/day5.rs:60-64 | succeeds exactly when every group after the first is non-empty and its first line contains "map:" |
| Almanac.ReadLayout | src/day5.rs:32-64 | the grouping and the checks give the reference layout: the same error in the same order of checks, or the seeds and the map bodies |
| Almanac.SortedStagesKeepMeaning | src/day5.rs:66-70 | sorting every stage of non-empty disjoint rules keeps where each seed goes |
| Almanac.ProcessDay5Input | src/day5.rs:30-72 | fails exactly when a layout check fails, with that check's error; otherwise one value per seed, each the seed run through the stages as read when their rules are non-empty and disjoint |
| Schematic.RunsUpTo | src/day3.rs:64-81 | after a digit the last number found ends at that digit |
| Schematic.RunsUpToAreRuns | src/day3.rs:64-81 | after any prefix the numbers found are ordered left to right, and each is a maximal run of digits of that prefix whose value is the run read in decimal |
| Schematic.RunsUpToCoverDigits | src/day3.rs:64-81 | every digit of the prefix lies inside one of the numbers found |
| Schematic.RunsAreMaximalDigitRuns | src/day3.rs:59-92 | the numbers of a line are exactly its maximal digit runs, in order, and every digit belongs to one; they come out already ordered by start column, the order the sort at line 92 establishes |
| Schematic.RunEndsOnDigit | src/day3.rs:76-79 | a number's last column holds a digit |
| Schematic.RunEndsInLine | src/day3.rs:87-90 | a number starts and ends inside its line |
| Schematic.SymbolColumns | src/day3.rs:23-35 | a column is selected exactly when it lies in the line and the selector (any non-digit non-dot, or a star) accepts its character |
| Schematic.SymbolsUpToAreColumns | src/day3.rs:82-85 | the columns pushed while scanning a prefix are exactly the selected columns of that prefix |
| Schematic.SymbolsUpToIncrease | src/day3.rs:82-85 | the columns are pushed strictly left to right, so none twice |
| Schematic.SymbolsAreColumns | src/day3.rs:95 | collected into a set, the pushed columns are the selected columns |
| Schematic.ScanChar | src/day3.rs:64-81 | one character of the loop: the flag says whether this character is a digit, and the numbers are those of the prefix one character longer |
| Schematic.ScannedEnd | src/day3.rs:87-90 | closing the open number at the end of the line gives the line's maximal runs |
| Schematic.CloseLine | src/day3.rs:87-96 | the finished scan is the reference scan of the line |
| Schematic.ProcessLine | src/day3.rs:58-97 | the loop computes the reference scan of the line: its maximal digit runs and its selected columns |
| Schematic.ScanLine | src/day3.rs:58-97 | the reference scan of a line gives numbers exactly when the line holds a digit |
| Schematic.New | src/day3.rs:48-56 | a fresh window is well formed and keeps the selector |
| Schematic.ScanLineFits | src/day3.rs:58-97 | every number and symbol of a scanned line lies within the line's length |
| Schematic.PushKeepsWellFormed | src/day3.rs:99-107 | pushing a line keeps every line of the window within the (grown) width |
| Schematic.Push | src/day3.rs:99-107 | the lines move up by one, the new line is scanned into the last place and the width becomes the longest line seen |
| Schematic.WidthBound | src/day3.rs:102 | the width after n pushes is at least each line pushed so far |
| Schematic.ScanEmptyLine | src/day3.rs:177 | the empty line pushed at the end has no numbers and no symbols |
| Schematic.NewWindow | src/day3.rs:170 | the fresh window is the window before any line is pushed |
| Schematic.PushWindow | src/day3.rs:171-177 | pushing line n (or the empty line past the end) turns the window over lines before n into the window over lines before n + 1 |
| Schematic.LineAtFits | src/day3.rs:102 | every line held is within the width of the lines pushed so far |
| Schematic.WindowWellFormed | src/day3.rs:171-177 | every window the driver builds is well formed |
| Schematic.AdjacentIffNearSymbol | src/day3.rs:110-121 | the filter keeps a number exactly when a symbol of one of the three lines sits in the column before it, under it, or in the column after it |
| Schematic.TouchesSymbol | src/day3.rs:110-121 | the column loop returns true exactly when the number is adjacent to a symbol |
| Schematic.FindAdjacentNums | src/day3.rs:109-123 | the values of the middle line's numbers adjacent to a symbol, in order |
| Schematic.SymbolAtRow | src/day3.rs:114 | a symbol of the window over row i is a symbol of row i or a neighbouring row |
| Schematic.AdjacentIsPartNumber | src/day3.rs:110-121 | in the window over row i the filter keeps exactly the part numbers of row i of the schematic |
| Schematic.AdjacentUpToIsPartValues | src/day3.rs:109-123 | the values kept are the part numbers of row i, in order |
| Schematic.WindowPartNumbers | src/day3.rs:172-175 | what is added after pushing line j is the sum of the part numbers of row j - 1 |
| Schematic.PushAndAddParts | src/day3.rs:172-180 | one driver step moves to the next window and adds exactly the part numbers of the completed row |
| Schematic.ProcessLinesDay3 | src/day3.rs:168-182 | the total is the sum of all part numbers of the schematic: every number with a symbol in one of the eight cells around it |
| Schematic.CoverProbeMonotone | src/day3.rs:137-145 | on numbers ordered left to right the comparator is Less, then Equal, then Greater, as the binary search needs |
| Schematic.OnlyOneCovers | src/day3.rs:137-146 | on numbers ordered left to right at most one covers a column, so the set of covering values is that one value |
| Schematic.CoveringValue | src/day3.rs:137-148 | a value found belongs to a number covering the column; on ordered numbers it is found exactly when some number covers the column |
| Schematic.StarSearchRange | src/day3.rs:125-128 | the range is non-empty and, for a column in the window, contains it and stays in the window |
| Schematic.StarRangeClips | src/day3.rs:125-128 | the searched columns are exactly the columns next to the star that lie inside the width |
| Schematic.AddCovering | src/day3.rs:136-149 | the values of the numbers of the three lines covering the column are added to the set |
| Schematic.StarNums | src/day3.rs:133-150 | the set holds the values of every number of the three lines that covers a searched column |
| Schematic.ValuesBetweenHas | src/day3.rs:135-150 | a value is collected exactly when some searched column is covered by a number with that value |
| Schematic.CoverInLinesHas | src/day3.rs:136 | a value is found in the three lines exactly when one of the lines has a number with it covering the column |
| Schematic.PairProductOf | src/day3.rs:151-153 | the product of a two-value set is the same whichever value the hash set yields first |
| Schematic.GearSumAppend | src/day3.rs:190 | the fold over the gear pairs adds each pair's product |
| Schematic.PairOf | src/day3.rs:151-154 | a pair exactly when the set has two values; the pair is two distinct members whose product is the set's product |
| Schematic.RatioSumStep | src/day3.rs:132-155 | taking one more star from the hash set adds its gear ratio to the running sum |
| Schematic.FindGears | src/day3.rs:130-157 | every pair pushed is two distinct values, and the products of the pairs sum to the ratios of all stars of the middle line, whatever order the hash set yields them in |
| Schematic.WindowLine | src/day3.rs:136 | the three number lists searched are those of rows i - 1, i and i + 1 |
| Schematic.CoverIsGridValue | src/day3.rs:135-148 | a value found for a star lies in a cell around the star |
| Schematic.StarValuesInGrid | src/day3.rs:133-150 | every value collected for a star of row i belongs to a number touching the star |
| Schematic.CoverFoundInWindow | src/day3.rs:135-148 | a number of a neighbouring row covering a searched column is found |
| Schematic.GridValuesInStar | src/day3.rs:133-150 | every number touching the star is collected |
| Schematic.StarValuesAreGridValues | src/day3.rs:133-150 | the values collected for a star are exactly the values of the numbers touching it in the schematic: clipping the search to the width loses none |
| Schematic.RatioAtRow | src/day3.rs:151-154 | the ratio the window computes for a star of row i is the ratio read off the schematic |
| Schematic.RowRatioSumIsSeqSum | src/day3.rs:132-155 | summing ratios that agree with the schematic over the stars in order gives the row's ratio sum |
| Schematic.SetSumIsRowSum | src/day3.rs:132-155 | summed over the stars collected into a set, the ratios give the same total as left to right |
| Schematic.StarColumnsAreSymbols | src/day3.rs:30-35 | the stars of a row are distinct columns inside the row, and as a set they are the star columns the scan finds |
| Schematic.WindowStars | src/day3.rs:132 | the stars of the window's middle line are the stars of row i |
| Schematic.WindowRatiosAgree | src/day3.rs:151-154 | the window's ratios agree with the schematic at every star of row i |
| Schematic.WindowRowSum | src/day3.rs:130-157 | the ratios summed in the window over row i are the gear ratios of row i's stars |
| Schematic.WindowGears | src/day3.rs:188-191 | what is added after pushing line j is the sum of the gear ratios of row j - 1 |
| Schematic.PushAndAddGears | src/day3.rs:188-196 | one driver step moves to the next window and adds exactly the gear ratios of the completed row |
| Schematic.ProcessLinesDay3Part2 | src/day3.rs:184-198 | the total is the sum, over every star of the schematic around which the numbers touching it take exactly two distinct values, of the product of those two values |
| CamelCards.Rank | src/day7.rs:8-24 | a kind's rank is its place in the declaration, the order the derived `Ord` compares |
| CamelCards.RankOfKind | src/day7.rs:8-24 | each place in the declaration holds the kind of that rank, so the order is strict |
| CamelCards.CharOf | src/day7.rs:27-43 | every kind is spelled by a card character, never by whitespace |
| CamelCards.KindFrom | src/day7.rs:27-45 | succeeds exactly on the fourteen card characters, giving the kind spelled by the character; any other character is an input-value error |
| CamelCards.KindRoundTrip | src/day7.rs:27-45 | reading back the character of a kind gives that kind |
| CamelCards.TypeRank | src/day7.rs:48-57 | the seven hand types are ordered by their place in the declaration |
| CamelCards.TypeRankInjective | src/day7.rs:48-57 | two types share a rank only when they are the same type |
| CamelCards.CountsAreMultiplicities | src/day7.rs:81-85 | the counts hold exactly the kinds of the hand, each with its number of occurrences |
| CamelCards.CountKinds | src/day7.rs:81-85 | the counting loop yields the kinds of the cards with their multiplicities |
| CamelCards.CountsSnoc | src/day7.rs:81-85 | one more card raises its kind's count by one (from zero when absent) and no other |
| CamelCards.SumUpToRemove | src/day7.rs:81-85 | leaving a kind out of a sum of counts takes away exactly its count |
| CamelCards.SumUpToEmpty | src/day7.rs:81-85 | no counts add up to no cards |
| CamelCards.TotalRemove | src/day7.rs:67 | removing a kind from the counts takes its count off the number of cards |
| CamelCards.TotalUpdate | src/day7.rs:73 | setting one count changes the number of cards by the difference |
| CamelCards.CountsTotal | src/day7.rs:81-85 | the counts of a hand add up to its number of cards, are each at least one, and there are no more kinds than cards |
| CamelCards.RemoveOne | src/day7.rs:67 | removing a present kind leaves one kind fewer |
| CamelCards.TotalAtLeast | src/day7.rs:92-101 | with positive counts, one count plus one per other kind is at most the number of cards |
| CamelCards.TotalAtMost | src/day7.rs:92-101 | with every count at most a bound, the cards number at most that bound per kind |
| CamelCards.BestUpToIsLargest | src/day7.rs:72 | the search returns a counted kind whose count is the largest among the kinds it has looked at, and returns nothing only when none of them is counted |
| CamelCards.LargestNonJoker | src/day7.rs:72 | when a kind other than the joker is counted, `max_by` picks a non-joker kind of largest count |
| CamelCards.MaxCountKind | src/day7.rs:72 | the loop over the kinds finds the same largest-count kind as the reference search |
| CamelCards.HandleJokers | src/day7.rs:66-78 | the method computes the reference joker folding: five jokers stay, otherwise the jokers are added to a largest remaining kind |
| CamelCards.FoldOntoKeepsCards | src/day7.rs:71-74 | folding the jokers onto a kind keeps the number of cards, drops the joker, and changes only that kind's count, by the joker count |
| CamelCards.FiveJokersStay | src/day7.rs:68-70 | removing five jokers and inserting them back gives the counts unchanged |
| CamelCards.FiveCardsKinds | src/day7.rs:92-102 | five cards fall into one to five kinds, so the panic arm is never reached |
| CamelCards.TypeIsByGroups | src/day7.rs:91-104 | for five cards `get_type` is the rule of the game: the type is fixed by the number of kinds and the size of the largest group |
| CamelCards.GetType | src/day7.rs:91-104 | the type is fixed by the number of kinds: one is five of a kind, two four of a kind or full house, three three of a kind or two pair, four one pair, five high card, each in both directions |
| CamelCards.FoldOntoLargest | src/day7.rs:71-74 | folding the jokers onto a largest non-joker kind leaves five cards in one kind fewer, with a largest group of that kind's count plus the jokers |
| CamelCards.FoldOntoType | src/day7.rs:71-74 | after folding onto a largest kind the type is that of a largest group of its count plus the jokers |
| CamelCards.JokerChoiceIrrelevant | src/day7.rs:72 | whichever largest kind `max_by` returns when counts tie, the hand gets the same type |
| CamelCards.Jokers | src/day7.rs:66-78 | joker folding keeps the number of cards and every other kind, keeps the joker exactly when the hand is five jokers, drops one kind otherwise, and keeps every count positive |
| CamelCards.MakeHand | src/day7.rs:80-89 | the hand holds the first five cards and its counts add up to the number of cards |
| CamelCards.NewHand | src/day7.rs:80-89 | `Hand::new` computes the reference hand: the first five cards and the joker-folded counts of the cards |
| CamelCards.FiveCardHand | src/day7.rs:80-104 | from five cards `Hand::new` never panics and its counts stand for five cards in one to five kinds |
| CamelCards.CardsCmp | src/day7.rs:110 | comparing card sequences of one length is Equal exactly when they are equal |
| CamelCards.CardsCmpAntisymmetric | src/day7.rs:110 | swapping the card sequences flips the comparison |
| CamelCards.HandEq | src/day7.rs:116-120 | `eq` is reflexive and holds only for hands of the same cards and type |
| CamelCards.HandCmp | src/day7.rs:107-120 | the hand order is Equal exactly when `eq` holds |
| CamelCards.CardsCmpTransitive | src/day7.rs:110 | the card comparison is transitive |
| CamelCards.HandCmpConsistent | src/day7.rs:107-113 | swapping the hands flips the hand order |
| CamelCards.HandCmpTransitive | src/day7.rs:107-113 | the hand order is transitive, so it is a total order the sort can use |
| CamelCards.KindsOf | src/day7.rs:137 | succeeds exactly when every character is a card, giving one kind per character spelled by it; otherwise an input-value error |
| CamelCards.HandString | src/day7.rs:130-141 | one character per card |
| CamelCards.KindsOfHandString | src/day7.rs:137 | reading back the characters of some cards gives those cards |
| CamelCards.ParseHand | src/day7.rs:133-140 | a length other than five is a format error; five characters succeed exactly when all are cards, giving a hand of those cards with joker-folded counts, and an input-value error otherwise |
| CamelCards.ParseHandRoundTrip | src/day7.rs:130-141 | the characters of five cards parse to the hand of those cards |
| CamelCards.ParseHandBid | src/day7.rs:150-161 | other than two words is an input-value error; with two, the hand's error comes first, then a bid that does not read as a `u64` is an error; otherwise the hand and the bid |
| CamelCards.WordsAfterWord | src/day7.rs:151 | a word followed by nothing or by whitespace is the first word of the split |
| CamelCards.WordsAfterSpace | src/day7.rs:151 | a space before a word is skipped by the split |
| CamelCards.WordsOfPair | src/day7.rs:151-153 | a word, a space and a word split into exactly those two words |
| CamelCards.HandStringHasNoWhitespace | src/day7.rs:151 | the characters of cards contain no whitespace |
| CamelCards.DecimalHasNoWhitespace | src/day7.rs:156 | a printed bid is non-empty and contains no whitespace |
| CamelCards.ParseHandBidOfWords | src/day7.rs:150-161 | a line of two words that read as a hand and a bid reads as that hand-bid |
| CamelCards.ParseHandBidRoundTrip | src/day7.rs:147-162 | a line printed as five cards, a space and a bid reads back as that hand and that bid |
| CamelCards.ParseHandBids | src/day7.rs:164-168 | collecting the parsed lines succeeds exactly when every line parses, giving one hand-bid per line in order; otherwise the error is that of the first line that fails |
| CamelCards.BidLeqTotal | src/day7.rs:179 | the comparator the sort uses is total |
| CamelCards.SortedBidsRanked | src/day7.rs:179-182 | after the sort a weaker hand never sits after a stronger one, so no weaker hand gets a higher rank |
| CamelCards.Winnings | src/day7.rs:180-182 | the fold adds each bid times its rank (its index plus one) |
| CamelCards.Day7Result | src/day7.rs:178-183 | the bids end up a reordering of the input sorted by hand, and the total is the sum of bid times rank over that order |
| CamelCards.CountsKK677 | src/day7.rs:214 | KK677 counts two kings, a six and two sevens |
| CamelCards.CountsKTJJT | src/day7.rs:215 | KTJJT counts a king, two tens and two jacks |
| CamelCards.TwoPairOf | src/day7.rs:95-97 | three kinds with no count of three are two pair |
| CamelCards.TwoPairHand | src/day7.rs:95-97 | a hand of three non-joker kinds, none three times, parses and is two pair |
| CamelCards.HandKK677 | src/day7.rs:214 | KK677 parses and is two pair |
| CamelCards.HandKTJJT | src/day7.rs:215 | KTJJT (J a jack, no jokers) parses and is two pair |
| CamelCards.SecondCardDecides | src/day7.rs:109-110 | between two hands of one type with the cards of KK677 and KTJJT the second card (king against ten) ranks the first higher |
| CamelCards.ExampleOrdering | src/day7.rs:256-260 | KK677 ranks above KTJJT |
| Scratchcards.CardPreParser | src/day4.rs:11-15 | on success the line is "Card", blanks, the digits of the card number (leading zeros allowed), ":" and the rest; the number fits in a `u32` and the rest is what follows the colon |
| Scratchcards.Bar | src/day4.rs:22-24 | on success the text is whitespace, a bar, whitespace and the rest, and the rest does not start with whitespace |
| Scratchcards.ParseCard | src/day4.rs:18-28 | a parsed card is what the line says: the card prefix with its number, whitespace, the winning numbers, the bar and the card's own numbers, each list ending where no further number can be read; both lists are non-empty and every number fits in a `u32` |
| Scratchcards.ProcessLine | src/day4.rs:17-33 | a line that does not parse counts 0 matches; otherwise the count is the number of distinct values in both lists |
| Scratchcards.Matches | src/day4.rs:29-32 | the matches are at most the size of either list, and a value is a match exactly when both lists hold it |
| Scratchcards.MatchesOf | src/day4.rs:29-32 | any set of exactly the values both lists hold has the match count as its size |
| Scratchcards.ValuesAtMost | src/day4.rs:29-30 | collecting a list into a set gives at most as many values as entries |
| Scratchcards.SubsetSize | src/day4.rs:31-32 | an intersection is no larger than either set |
| Scratchcards.BarReadsBack | src/day4.rs:22-24 | whitespace, a bar and whitespace before a number are read as the bar, and end the first list |
| Scratchcards.BarTextReadsBack | src/day4.rs:22-25 | the bar and the second printed list, in any whitespace layout, read back as that list |
| Scratchcards.WinningTextReadsBack | src/day4.rs:20-25 | the whitespace after the colon and the printed winning list read back as the winning numbers, stopping at the bar |
| Scratchcards.WhitespaceBeforeList | src/day4.rs:20 | `multispace1` consumes whitespace in front of a printed list |
| Scratchcards.PrefixReadsBack | src/day4.rs:11-15 | the printed card prefix "Card", blanks, the number and ":" reads back as the card number, leaving the text after the colon |
| Scratchcards.PrefixOf | src/day4.rs:11-15 | "Card", blanks, a printed `u32` and ":" read back as that number, leaving what follows the colon |
| Scratchcards.PreTextOfParts | src/day4.rs:11-15 | what the prefix steps read is "Card", blanks, the card number's digits and ":", and the rest is the text after that colon |
| Scratchcards.PreParserComplete | src/day4.rs:11-15 | every "Card", blanks, digits of a `u32` (leading zeros allowed) and ":" prefix parses to that number and the text after the colon |
| Scratchcards.BarTextOfParts | src/day4.rs:22-24 | what the bar steps read is whitespace, a bar and whitespace, and the bar lies in the consumed text |
| Scratchcards.BarComplete | src/day4.rs:22-24 | every whitespace-bar-whitespace text followed by a non-blank rest is read as the bar, leaving that rest |
| Scratchcards.CardFromParts | src/day4.rs:18-28 | the line parser succeeds with the card when each of its seven steps does |
| Scratchcards.CardTextOfParts | src/day4.rs:18-28 | what the steps of the line parser read is a card line of the card they build |
| Scratchcards.ParseCardComplete | src/day4.rs:18-28 | every card line of a card whose numbers fit a `u32` parses to that card, whatever its whitespace layout and whatever leading zeros its numbers carry |
| Scratchcards.LeadingZeroCard | src/day4.rs:18-28 | "Card 1: 07 | 7" is a card line of card 1 with winning number 7 and number 7: "07" reads as 7 |
| Scratchcards.PlainLayout | src/day4.rs:18-26 | one space between all parts is a layout for any card with non-empty lists |
| Scratchcards.ParseCardRoundTrip | src/day4.rs:17-28 | a card with non-empty lists of `u32` numbers, printed with any non-empty whitespace between its parts, parses back to that card |
| Scratchcards.ProcessCardLine | src/day4.rs:17-33 | a card line printed in any whitespace layout counts the values the card's two lists share |
| Scratchcards.Pow2 | src/day4.rs:39 | a power of two is at least one |
| Scratchcards.Pow2Grows | src/day4.rs:39 | powers of two grow with the exponent |
| Scratchcards.Pow2ThirtyOne | src/day4.rs:39 | 2^31 is the largest power of two a `u32` holds |
| Scratchcards.Pow2Add | src/day4.rs:39 | powers of two multiply by adding exponents |
| Scratchcards.Score | src/day4.rs:39 | a card's score fits in a `u32` and is 0 exactly when it has no matches |
| Scratchcards.ScoreDoubles | src/day4.rs:39 | the first match scores 1 and every further match doubles the score |
| Scratchcards.ScoreTotal | src/day4.rs:39 | the total is 0 exactly when no card has a match, and is at most the largest `u32` score per card |
| Scratchcards.ScoreTotalSnoc | src/day4.rs:39 | the fold adds each card's score |
| Scratchcards.Copies | src/day4.rs:47-54 | every card is held at least once |
| Scratchcards.ScoreStep | src/day4.rs:50-53 | processing card idx adds its copies to exactly the cards its matches reach |
| Scratchcards.ProcessPart2 | src/day4.rs:47-56 | the loops count, for every card, its original plus the copies won from earlier cards, and return the total |
| Scratchcards.AtLeastOneEach | src/day4.rs:48 | there are at least as many cards as originals |
| Scratchcards.CopiesFromEarlier | src/day4.rs:49-53 | copies flow only forward: a card's copies do not depend on the cards after it |
| Scratchcards.ReceivedFromEarlier | src/day4.rs:49-53 | what a card receives from the first n cards does not depend on the cards after it |
| Scratchcards.ExampleScore | src/day4.rs:72-79 | the example's matches 4, 2, 2, 1, 0, 0 score 13 in total |
| Scratchcards.ScoreTotalSix | src/day4.rs:39 | the total over six cards is the sum of their six scores, whatever their match counts |
| Scratchcards.ExampleCopies | src/day4.rs:81-82 | the example ends with 30 cards |
| Scratchcards.ColumnLayout | src/day4.rs:65-70 | the example's column-aligned spacing is a layout for any card with non-empty lists |
| Scratchcards.ExampleCard | src/day4.rs:65-70 | the six example cards have non-empty lists of `u32` numbers |
| Scratchcards.ExampleMatches | src/day4.rs:72-79 | the example cards have 4, 2, 2, 1, 0 and 0 matches |
| Scratchcards.ExampleLine | src/day4.rs:65-79 | the example lines, in their column layout, count 4, 2, 2, 1, 0 and 0 matches |
| Calibration.FirstDigitIsLeftmost | src/day1.rs:28-33 | the digit with no digit before it is the one the left scan reports |
| Calibration.LastDigitIsRightmost | src/day1.rs:34-39 | the digit with no digit after it is the one the right scan reports |
| Calibration.NoDigitNoValue | src/day1.rs:27-40 | a line without digits yields (0, 0) |
| Calibration.ProcessLineSimple | src/day1.rs:26-41 | the two loops return the value of the leftmost and of the rightmost digit (0 when there is none), each below ten |
| Calibration.Reverse | src/day1.rs:105 | the reversal has the same length and holds the characters in the opposite order |
| Calibration.Alt | src/day1.rs:44-65 | `alt` succeeds exactly when some tag of the table starts the input, and then reports the earliest such alternative with its value and the rest after the tag |
| Calibration.AltAt | src/day1.rs:44-65 | alternative i is taken when its tag starts the input and no earlier one does |
| Calibration.NumberWordsSpelled | src/day1.rs:44-65 | each entry of the table is a digit or a digit name paired with its value |
| Calibration.NumberWordsComplete | src/day1.rs:44-65 | every digit and every digit name from zero to nine is in the table |
| Calibration.AltSpelled | src/day1.rs:44-65 | over a table of spelled digits, `alt` consumes a digit or a digit name and returns its value |
| Calibration.ParseNum | src/day1.rs:43-66 | what `parse_num` returns is a value in 0..9 announced at the start of the input by its digit or its name, with the rest after it |
| Calibration.ParseNumRev | src/day1.rs:69-92 | what `parse_num_rev` returns is a value in 0..9 announced at the start of the input by its digit or its reversed name, with the rest after it |
| Calibration.ReversedDigitNames | src/day1.rs:69-92 | the reversed digit names, "orez" to "enin", in order |
| Calibration.ReversedSpelled | src/day1.rs:69-92 | each entry of `parse_num_rev`'s table is a digit or a reversed digit name paired with its value |
| Calibration.ParseNumComplete | src/day1.rs:43-66 | `parse_num` succeeds on every input that starts with a digit or a digit name |
| Calibration.AltDigit | src/day1.rs:44-65 | over a table of digit values, `alt` returns a value below ten |
| Calibration.TablesDigitValued | src/day1.rs:43-92 | both tables hold only digit values |
| Calibration.ParsersGiveDigits | src/day1.rs:43-92 | both number parsers only ever return a value in 0..9 |
| Calibration.ReversedTable | src/day1.rs:69-92 | `parse_num_rev`'s table is, entry by entry, the character reversal of `parse_num`'s with the same values |
| Calibration.ReverseOf | src/day1.rs:69-92 | a string mirroring a word character by character is its reversal |
| Calibration.FirstMatchIsLeftmost | src/day1.rs:94-101 | the first position where the parser matches gives the value `proc_line` returns |
| Calibration.FirstMatch | src/day1.rs:94-103 | a non-zero result is the parser's value at some position of the line where it matches |
| Calibration.NoMatchIsZero | src/day1.rs:102 | without any match `proc_line` returns 0 |
| Calibration.FirstMatchDigit | src/day1.rs:94-103 | with a parser that only returns digits, `proc_line` returns a digit |
| Calibration.ProcLine | src/day1.rs:94-103 | the loop returns the parser's value at the first position where it matches, or 0 |
| Calibration.LastMatchIsRightmost | src/day1.rs:104-107 | the word that ends furthest right gives the last value |
| Calibration.NoWordEndsIsZero | src/day1.rs:102 | when no word ends anywhere in the line, the last value is 0 |
| Calibration.ReversedPrefix | src/day1.rs:105-106 | a reversed word starts the reversed text exactly when the word ends the text |
| Calibration.AltReversed | src/day1.rs:69-92 | reading the reversed text with the reversed table finds the same alternative as matching word ends of the text |
| Calibration.ScanReversed | src/day1.rs:105-106 | scanning the reversed line with a parser for the reversed table finds the value of the word that ends furthest right |
| Calibration.ReversedScanFindsLast | src/day1.rs:105-106 | scanning the reversed line with `parse_num_rev` finds the number word ending furthest right, overlaps such as "eighttwo" included |
| Calibration.ProcessLinePart2 | src/day1.rs:104-107 | the pair is the value of the leftmost digit or digit name and of the rightmost one, each in 0..9 |
| Calibration.AltAtHead | src/day1.rs:44-65 | alternative i is taken when every earlier tag differs from the input in its first or second character |
| Calibration.LastFromReversed | src/day1.rs:105-106 | when `parse_num_rev` reads the reversed line at its start, that is the last value |
| Calibration.FirstFromStart | src/day1.rs:94-101 | when `parse_num` reads the line at its start, that is the first value |
| Calibration.ReversedOne | src/day1.rs:74 | a reversed line starting with "eno" reads as 1 |
| Calibration.ReversedTwo | src/day1.rs:76 | a reversed line starting with "owt" reads as 2 |
| Calibration.ReversedSix | src/day1.rs:83 | a reversed line starting with '6' reads as 6 |
| Calibration.StartsWithOne | src/day1.rs:47 | a line starting with '1' reads as 1 |
| Calibration.StartsWithSix | src/day1.rs:58 | a line starting with "six" reads as 6 |
| Calibration.StartsWithThree | src/day1.rs:52 | a line starting with "three" reads as 3 |
| Calibration.NoNumberStarts | src/day1.rs:43-66 | no number starts at a character that begins no digit or digit name, nor at a 't' that begins neither "two" nor "three" |
| Calibration.NoNumberAt | src/day1.rs:43-66 | `parse_num` fails at a character that begins no digit or digit name, and at a 't' followed by neither 'w' nor 'h' |
| Calibration.NotPrefixAt | src/day1.rs:44-65 | a tag that differs from the input at some position does not start it |
| Calibration.LeadingLetters | src/day1.rs:44-65 | how the tags of the table begin |
| Calibration.ExampleOne | src/day1.rs:115-118 | "1eighttwo8jfnhmfivefivezdsxqxqsjkone" gives (1, 1) |
| Calibration.NothingBeforeThree | src/day1.rs:120 | no number starts in "rtkrbt" |
| Calibration.ExampleTwo | src/day1.rs:120-123 | "rtkrbtthree8sixfoureight6" gives (3, 6) |
| Calibration.ExampleThree | src/day1.rs:125-128 | "six8threepvlxttc85two" gives (6, 2) |
| Network.Utf3 | src/day8.rs:39-45 | the key holds the first (up to) three bytes of the text and zero in every place past its end |
| Network.ToUtf3 | src/day8.rs:39-45 | the zip loop writes exactly that key into the zeroed buffer |
| Network.Utf3OfKey | src/day8.rs:39-45 | a key read back through `to_utf3` is itself |
| Network.Utf3Length | src/day8.rs:39-45 | for at most three non-zero bytes the key is zero exactly past the input's length |
| Network.Utf3Injective | src/day8.rs:39-45 | on texts of at most three non-zero bytes `to_utf3` loses nothing: equal keys come from equal texts |
| Network.Take | src/day8.rs:21-25 | `take(n)` succeeds exactly when n characters are there, and splits exactly n of them off the front |
| Network.NodeParser | src/day8.rs:19-30 | succeeds exactly when the input starts with a node line "KKK = (LLL, RRR)", and then reports its three three-character keys and the rest after the line |
| Network.NodeLineSteps | src/day8.rs:19-30 | on a node line each of the six steps of the tuple succeeds where the previous one stopped |
| Network.NodeLineOfSteps | src/day8.rs:19-30 | text built from the six parts read is a node line of those keys |
| Network.NodeParserRoundTrip | src/day8.rs:19-30 | a node line "KKK = (LLL, RRR)" of three-character keys reads back as its three keys, leaving whatever followed |
| Network.AsciiBytes | src/day8.rs:41 | on ASCII text, one byte per character, its code |
| Network.NewNode | src/day8.rs:47-51 | `Node::new` stores the key encoding of each of the three texts |
| Network.NodeFromStr | src/day8.rs:56-61 | an error exactly when the parser fails, and then an input-value error; on success the text starts with a node line and the node holds the bytes of its key, left key and right key |
| Network.AsciiParts | src/day8.rs:56-61 | the keys of an ASCII node line are ASCII |
| Network.AsciiLine | src/day8.rs:56-61 | a node line over ASCII keys is ASCII |
| Network.NodeFromLine | src/day8.rs:47-61 | a node line of ASCII keys, followed by any text, reads as the node holding those keys' bytes |
| Network.AsciiTriple | src/day8.rs:79-81 | three copies of an ASCII character are three copies of its byte |
| Network.ExampleNode | src/day8.rs:71-82 | "AAA = (BBB, CCC)" parses to AAA, BBB and CCC with nothing left, and `from_str` gives the node of their bytes |
| Network.Step | src/day8.rs:124-141 | the number of keys is kept and each key becomes its own successor: the node's left on 'L', right on 'R', and the zero key when it has no node |
| Network.StepSplits | src/day8.rs:124-134 | keys walk independently: stepping two lists together steps each on its own |
| Network.StepWithoutNodes | src/day8.rs:133-141 | once no key has a node every key becomes the zero key, so the following `next` stops |
| Network.NextIndexCycles | src/day8.rs:136-139 | over a non-empty instruction list the index after n steps is n modulo the length, so it stays below the length |
| Network.ModUnique | src/day8.rs:136-139 | the remainder is the unique value in [0, len) with n = q * len + r |
| Network.MulAtLeast | src/day8.rs:136-139 | a positive multiple of b is at least b |
| Network.NodeStream.constructor | src/day8.rs:112-114 | the stream starts at the given keys and at the first instruction |
| Network.NodeStream.Next | src/day8.rs:119-143 | once some current key is the zero key, `None` and nothing changes; otherwise the current keys are returned, each moves to its successor under the current instruction, and the index advances with wrap-around, keeping it equal to the number of steps modulo the instruction length |
| CubeGame.Color | src/day2.rs:45-51 | succeeds exactly when "red", "green" or "blue" starts the input, giving that colour (never the default `None`) and the text after its name |
| CubeGame.ColorNamesDistinct | src/day2.rs:45-51 | no colour name starts another colour's text, so the order of the alternatives does not matter |
| CubeGame.ColorRoundTrip | src/day2.rs:45-51 | `color` reads back the name of every colour, whatever follows it |
| CubeGame.CubeParser | src/day2.rs:53-57 | on success the input is blanks, the printed count, blanks and the colour's name followed by the rest; the count is the value of the digits after the first blanks and fits in a `u32`, and the colour is a real one |
| CubeGame.CubeTextOfParts | src/day2.rs:53-57 | what the four steps consume is blanks, the count, blanks and the colour name |
| CubeGame.CubeParserComplete | src/day2.rs:53-57 | every text of the cube grammar with a `u32` count parses to those cubes: the parser is complete |
| CubeGame.SuffixOfSuffix | src/day2.rs:54 | what each step of the tuple leaves is a suffix of the input |
| CubeGame.Regroup | src/day2.rs:54 | the four parts of a printed cube regroup as the parser consumes them |
| CubeGame.CubeFromParts | src/day2.rs:53-57 | `cube_parser` succeeds with count and colour when each of its four steps does |
| CubeGame.BlanksThenCount | src/day2.rs:36-54 | blanks and a printed count are read by `space1` and `number` |
| CubeGame.BlanksThenColor | src/day2.rs:45-54 | blanks and a colour name are read by `space1` and `color` |
| CubeGame.CubeRoundTrip | src/day2.rs:53-57 | a cube printed as blanks, a count, blanks and a colour name reads back as those cubes, whatever follows it |
| CubeGame.DecimalOfTwelve | src/day2.rs:74 | twelve is printed "12" |
| CubeGame.ExampleCube | src/day2.rs:73-78 | " 12 red" is twelve red cubes with nothing left |
| CubeGame.GameParser | src/day2.rs:59-63 | on success the input is "Game", blanks and the printed game number followed by the rest; the number is the value of the digits after the blanks and fits in a `u32` |
| CubeGame.GameParserComplete | src/day2.rs:59-63 | every text of the header grammar with a `u32` number parses to that number |
| CubeGame.GameTextSplit | src/day2.rs:60 | "Game n" splits into the tag and a blank before the number |
| CubeGame.GameFromParts | src/day2.rs:59-63 | `game_parser` succeeds with the number when each of its three steps does |
| CubeGame.GameRoundTrip | src/day2.rs:59-63 | a header "Game", any blanks and a printed number reads back as that number, leaving what follows the digits |
| CubeGame.ExampleGame | src/day2.rs:81-85 | "Game 15" is game 15 |
| CubeGame.UntilChar | src/day2.rs:9-15 | counts the characters before the first separator, all of them when there is none |
| CubeGame.IsNot | src/day2.rs:9-15 | `is_not` succeeds exactly when the input starts with something other than the separator, taking a separator-free piece up to the separator or the end |
| CubeGame.SeparatedList0 | src/day2.rs:9-15 | every piece is non-empty and separator-free; the pieces joined by the separator followed by the rest give back the input; there are no pieces exactly when the input is empty or starts with the separator, and then nothing is consumed; otherwise the list stops at the end of the input or before a separator that no piece follows |
| CubeGame.MorePieces | src/day2.rs:9-15 | after the first piece, separator-and-piece steps: the pieces and the rest rebuild the input, and the loop stops at the end of the input or before a separator that no piece follows |
| CubeGame.Prepend | src/day2.rs:9-15 | how joining grows with one more piece in front |
| CubeGame.FirstPiece | src/day2.rs:9-15 | the first piece and the rest of the list rebuild the input |
| CubeGame.SeparatorAndPiece | src/day2.rs:9-15 | a separator, a piece and the later pieces rebuild the input |
| CubeGame.GroupsParser | src/day2.rs:9-11 | the groups are non-empty and hold no ';'; rejoined with ';' they give the input up to the rest; there are none exactly when the input is empty or starts with ';'; otherwise the rest is empty or starts with a ';' that no group follows |
| CubeGame.GroupParser | src/day2.rs:13-15 | the cube texts are non-empty and hold no ','; rejoined with ',' they give the input up to the rest; there are none exactly when the input is empty or starts with ','; otherwise the rest is empty or starts with a ',' that no cube text follows |
| CubeGame.IsNotPiece | src/day2.rs:9-15 | `is_not` takes a whole piece and stops at the separator or the end |
| CubeGame.SpanOfPiece | src/day2.rs:9-15 | the scan stops right after a separator-free piece |
| CubeGame.SeparatedListRoundTrip | src/day2.rs:9-15 | non-empty separator-free pieces joined by the separator, followed by any rest at which the list stops, split back into exactly those pieces and that rest |
| CubeGame.MorePiecesRoundTrip | src/day2.rs:9-15 | the separator-and-piece loop reads back exactly the later pieces and stops at the given rest |
| CubeGame.MorePiecesCons | src/day2.rs:9-15 | when the loop reads back the later pieces, it reads back a first piece in front of them too |
| CubeGame.MorePiecesStops | src/day2.rs:9-15 | at the end of the input, or before a separator that no piece follows, the loop reads no piece and consumes nothing |
| CubeGame.MorePiecesStep | src/day2.rs:9-15 | a separator followed by a piece reads that piece, then continues as on what follows it |
| CubeGame.GroupsStopAtDouble | src/day2.rs:9-11 | on "a;;b" the groups parser reads only "a" and leaves ";;b" |
| CubeGame.GroupsStopAtTrailing | src/day2.rs:9-11 | on "a;b;" the groups parser reads "a" and "b" and leaves the trailing ";" |
| CubeGame.GroupHasCube | src/day2.rs:101-104 | a group that does not start with ',' yields at least one cube text |
| CubeGame.ExampleGroups | src/day2.rs:89-105 | the sample game's groups split back into its four groups, each of which yields at least one cube text |
| CubeGame.SampleGroupsArePieces | src/day2.rs:89 | the sample's groups hold no ';' and each starts with a blank |
| CubeGame.GroupsHaveCubes | src/day2.rs:101-104 | groups that start with a blank each yield a cube text |
| BoatRace.WinsBelow | src/day6.rs:10 | among the holds below n at most n win, and holding for 0 never does |
| BoatRace.WinCount | src/day6.rs:10 | at most t + 1 holds in 0..=t win, and at most t - 1 once the race lasts, since holding for 0 or for the whole race goes nowhere |
| BoatRace.DistanceSymmetric | src/day6.rs:10 | holding for h or for t - h goes equally far, so h wins exactly when t - h does |
| BoatRace.DistanceStep | src/day6.rs:10 | up to half the race, one millisecond more of holding goes at least as far |
| BoatRace.DistanceIncreasing | src/day6.rs:10 | the distance grows with the hold up to half the race |
| BoatRace.WinnersInterval | src/day6.rs:10 | with lo the least winning hold, a hold wins exactly when it lies in lo..=t - lo |
| BoatRace.CountInterval | src/day6.rs:10 | when the winners form one interval, counting below n counts that interval's part below n |
| BoatRace.WinCountClosedForm | src/day6.rs:10 | with lo the least winning hold, exactly t + 1 - 2 * lo holds win |
| BoatRace.RaceProduct | src/day6.rs:8-12 | the loop computes the product of the per-race counts, 1 for no races |
| BoatRace.ProductZero | src/day6.rs:8-12 | the product is 0 exactly when some race cannot be won |
| BoatRace.ExampleRaces | src/day6.rs:5-13 | the races (7, 9), (15, 40), (30, 200) give 288 |
| BoatRace.ExampleLongRace | src/day6.rs:7-14 | the race (59796575, 597123410321328) gives 34454850 |

## Left out

- File reading, printing and the per-day drivers that only read files and print: `read_lines`, `do_day1_part2`, `do_day3` and `do_day4` (its part-one fold is modelled as `Scratchcards.ScoreTotal`). None of them holds puzzle logic.
- Tests whose expected values depend on data files that are not part of this model: src/day5.rs:182-199, src/day7.rs:185-207 and src/day8.rs:84-102,146-210. This also leaves out the LCM over `num_bigint` in src/day8.rs:205-208 and `process_day8_node_input` (src/day8.rs:64-68), which only the data-file tests use; `Common.CollectAll` states the same collecting behaviour for day 7.
- The worked end-to-end totals of day 3 (4361, 467835, 9626) and day 7 (6440, 5905): `Schematic.ProcessLinesDay3`, `Schematic.ProcessLinesDay3Part2` and `CamelCards.Day7Result` are proved for all inputs, but evaluating the reference sums on the ten-line grids and the five hands is beyond what the verifier does in reasonable time.
- The index 1 expected at src/day5.rs:154-155 for seek 16 is not restated; `Almanac.FindBySource` states the index it finds in general.
- The message strings of `AoCError` and `Day5Error` and their `thiserror` derives. Only which error kind is returned is modelled.
- nom's error values and `IResult` plumbing. A failed parse is `None`, and `unwrap_or_default` gives the default value.
- The `take_until(":")` step of the day 2 test (src/day2.rs:91-98). The model starts from the text after the colon.
- The unused `SelectSymbol` trait (src/day3.rs:11-13,37-44).
- Unicode: `is_numeric`, `to_digit`, `chars` and `len` are modelled on ASCII text, where bytes and characters coincide. `Network.NodeFromStr` requires ASCII input for this reason.
- Common.Number: a digit run whose value does not fit the target type panics in the source; the model makes fitting a precondition. The precondition covers only the runs the parsers actually read: `LeadingValue` for one number, `ListFits` for a list, `CountFits`, `GameIdFits`, `PreFits` and `LineFits` for the day 2 and day 4 parsers. Day 3 requires every run of a line to fit (`AllRunsFit`), because its scanner reads every run.
- Schematic.ProcessLine: the `u32` accumulation `*= 10`, `+= num` (src/day3.rs:69-70) panics on overflow; the model requires every digit run of the line to fit in a `u32`.
- Schematic.FindAdjacentNums: `self.width - 1` underflows when the middle line has a number and the width is 0, which cannot happen once a line is pushed; the model requires it.
- Schematic.FindGears: the same underflow in `star_search_range`; the model requires a positive width when the middle line has a star. The order of the gear pairs, which follows the hash set, is left open; only their sum is stated.
- Schematic.ProcessLinesDay3: the `u32` totals (src/day3.rs:169-180, 185-196) are unbounded integers in the model, so their overflow is not modelled.
- Schematic.ProcessLinesDay3Part2: as above, and the `u32` products `nums.0 * nums.1` are unbounded too.
- Common.SortBy: the sort is proved to give a reordering sorted by the comparator, not to be stable as Rust's `sort_by` is. For day 5 stability makes no difference, because disjoint non-empty rules of one stage have distinct sources. For day 7, two lines holding the same hand may end in either order, so the winnings are the source's only when no two lines hold the same hand with different bids.
- CamelCards.HandleJokers: `max_by` returns the last of several kinds with the same largest count, in the hash map's order; the model picks one by a fixed order and `CamelCards.JokerChoiceIrrelevant` proves the choice does not change the hand's type.
- CamelCards.Day7Result: the `u64` winnings fold (src/day7.rs:180-182) is an unbounded sum.
- CamelCards.NewHand: the `i32` counters cannot overflow with five cards; the model counts with `nat`.
- Scratchcards.ParseCard: the element type of the two number lists is not named in the source; the model reads them as `u32`.
- Scratchcards.Score: `2u32.pow(n - 1)` overflows past 32 matches; the model requires at most 32 matches.
- Scratchcards.ScoreTotal: the `u32` fold of the scores (src/day4.rs:39,76) can overflow; the model sums with unbounded integers and states only the bound of one largest `u32` score per card.
- Scratchcards.ExampleLine: the example lines of src/day4.rs:65-70 are given as the example cards printed in their column layout (`ColumnLayout`), not as literal strings.
- Scratchcards.ProcessPart2: `results.len() - 1` underflows on an empty list, so the model requires at least one card; the `i32` sum is unbounded.
- Almanac.FindBySource: the addition `probe.0 + probe.2` (src/day5.rs:77) and the shift at src/day5.rs:93 must not overflow `u64`; the model requires it (`StageFits`).
- Almanac.ProcessDay5Input: a rule line with fewer than three numbers panics at src/day5.rs:19; the model requires every rule line to hold three numbers that fit in a `u64`. The check `line_groups.is_empty()` at src/day5.rs:42 can never fire, because the fold starts from one group; `Almanac.EmptyInputIsRejected` shows that empty input is rejected at src/day5.rs:54 instead.
- Network.NodeStream.Next: the `panic!` on an instruction byte other than `L` or `R` (src/day8.rs:130) is a precondition (`CanStep`).
- CubeGame.CubeParser: a count that does not fit in a `u32` panics (src/day2.rs:40); the model requires it to fit (`CountFits`). CubeGame.GameParser likewise (`GameIdFits`).
- BoatRace.RaceProduct: the `usize` product and the `u64` distances are unbounded integers; the example values do not overflow.
