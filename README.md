# Advent of Code 2020 puzzles, modelled in Dafny

This project models the Ruby solutions for six days of Advent of Code 2020. Each source file becomes one Dafny module.

- **Day 1, part 2: expense report** (`2020/01.2.rb`).
  - Over every ordered triple of distinct entries, `ExpenseReport` keeps the triples that sum to 2020 and collects their distinct products.
- **Day 2: password policies** (`2020/02.rb` and `2020/02.2.rb`).
  - A line such as `1-3 a: abcde` is read the way `String#scan` reads it, in `PasswordLines`.
  - Part 1's counting rule is in `PasswordPolicy`: the password must hold between *min* and *max* of the listed letters.
  - Part 2's position rule is in `PasswordPositions`: exactly one of two 1-based positions holds a listed letter. The model keeps Ruby's negative indexing and its nil out of range.
  - Each part counts the valid lines with a loop.
- **Day 3: toboggan trajectory** (`2020/03.rb` and `2020/03.2.rb`).
  - `tree_at?` repeats the map row `ceil(position / (length - 1))` times and then indexes it.
  - `Toboggan` counts trees on the slope right 3, down 1.
  - `TobogganSlopes` models the `down_remaining` countdown exactly as written, and multiplies the tree counts of the five slopes.
- **Day 4: passports** (`2020/04.rb` and `2020/04.2.rb`).
  - `Passport.scan` reads `key:value` pairs with `/(\w+):([\w#]+)*/` into a hash in which later keys win. This is `Passports`.
  - Part 1's `valid?` asks for the seven required attributes.
  - Part 2's registered validations are in `PassportRules`: presence, a year range, a conditional height range, a colour list and an anchored format.
- **Day 8: handheld halting** (`2020/08.rb` and `2020/08.2.rb`).
  - Code shared by both parts is in `BootCode`:
    - `Instruction.parse` splits on whitespace;
    - `change` is `String#to_i`;
    - the cursor reads `instructions[@cursor]` with Ruby's negative indexing;
    - a step executes one instruction.
  - `BootLoader` models the `GameBootLoader` class of part 1, both as a class whose methods update its fields and as a specification function `Run`.
  - `BootLoaderRepair` models part 2:
    - the loader also stops when the slot under the cursor is nil (`complete?`);
    - `BootLoadFixer.fix` flips each `nop`/`jmp` in turn and keeps the last loader it built.
- **Day 12: rain risk** (`2020/12.rb` and `2020/12.2.rb`).
  - `ShipCommands` holds what both parts share: reading a command with `/([NSEWLRF]{1})([0-9]+)/`, unit moves and the Manhattan distance.
  - `Navigation` models the ship that turns and moves (part 1).
  - `WaypointNavigation` models the ship that follows a waypoint (part 2).
  - In both modules the Ruby objects are Dafny classes whose methods update their fields, and each class is proved against a specification function over states.

`RubyText` defines the Ruby string operations these programs use, each on `seq<char>`:
- `String#split`, as awk-style whitespace fields;
- `String#to_i`;
- `String#count`;
- a few character classes.

`Wrappers` holds `Option` and `Result`. A Ruby exception becomes an error value, and a nil becomes `None`.

Where the code and the puzzle text differ, the model follows the code:
- Day 8:
  - An unknown action acts as `nop`. A malformed number reads as 0, and a `0d` or `0D` radix prefix after the sign is skipped, so `+0d5` reads as 5 (`to_i`).
  - Part 2 stops on any nil slot, including a negative cursor beyond the start. It does not stop only at the index one past the end.
  - `fix` returns the loader for the last candidate tried when no candidate completes, and nil when every line is `acc`.
- Day 3:
  - For a slope with `down` ≥ 3, the countdown first checks row `down - 2`, not row 0.
  - For `down` ≤ 2 it checks rows `0, down, 2·down, …`.
  - The model states both cases (`TobogganSlopes.DownThreeSkipsFirstRow`, `TobogganSlopes.ListedSlopesCheckEveryDownthRow`).
- Day 4:
  - The height format is matched case-insensitively, but `include?("cm")` is case-sensitive. A height such as `180CM` therefore passes with no range check (`PassportRules.HeightCapitals`).
  - A year is read with `to_i`, so `2000abc` counts as 2000 and `0d1990` as 1990.

## Model

| member | source | states |
|---|---|---|
| RubyText.Fields | 2020/08.rb:10 | `split(" ")` gives the maximal runs of non-whitespace characters, none of them empty |
| RubyText.FieldsOfJoinWords | 2020/08.rb:10 | splitting words joined by single spaces gives the words back |
| RubyText.NumeralDigits | 2020/08.rb:18 | the digits `to_i` reads after the sign and any `0d` prefix are all digits and come from the text |
| RubyText.ToIOfDigits | 2020/08.rb:18 | `to_i` of a run of digits is its decimal value |
| RubyText.ToIOfSignedText | 2020/08.rb:18 | `to_i` reads back any signed number such as `+4` or `-99` |
| RubyText.ToIOfPrefixedDigits | 2020/08.rb:18 | `to_i` skips a `0d`/`0D` prefix after an optional sign: `0d12` reads as 12 and `-0D12` as -12 |
| RubyText.DecimalValueOfNatDigits | 2020/04.2.rb:17 | writing a natural number in decimal and reading it back gives the number |
| RubyText.Count | 2020/02.rb:5 | `String#count` never exceeds the length of the string |
| RubyText.At | 2020/08.rb:43 | `instructions[@cursor]`, and `password[i]` in `2020/02.2.rb`, are non-nil exactly when the index lies in `-length .. length-1`, so negative indices count from the end |
| RubyText.CountAppend | 2020/02.rb:5 | `count` of a concatenation is the sum of the counts of its parts |
| BootCode.Parse | 2020/08.rb:8-11 | `Instruction.parse` succeeds exactly when the line has at most two fields; with more, `Struct.new` raises ArgumentError |
| BootCode.ParseToSRoundTrip | 2020/08.rb:9-15 | parsing `op arg` gives back the instruction, and `to_s` gives back the line |
| BootCode.ParseOfToS | 2020/08.2.rb:76-79 | an instruction written with `to_s` parses back to itself; this is what lets `fix` write a flipped line |
| BootCode.ChangeOfSignedText | 2020/08.rb:17-19 | `change` of `op ±n` is n |
| BootCode.ChangeOfPrefixedText | 2020/08.rb:17-19 | `change` of an argument `+0d` followed by digits is the digits' value, as `to_i` skips the prefix |
| BootCode.LineParses | 2020/08.rb:8-19 | a line `op ±n` parses to op with change n |
| BootCode.FreshTrace | 2020/08.rb:30-35 | a new loader's state is a valid trace: no instructions processed, and accumulator 0 |
| BootCode.TraceStep | 2020/08.rb:49-54 | executing an unprocessed instruction keeps the trace invariant: the processed cursors are distinct and the accumulator is the sum of their `acc` changes |
| BootCode.TraceBound | 2020/08.rb:56-58 | a trace processes each slot at most once, so at most 2·length steps, or at most length when the cursor never goes negative |
| BootLoader.Run | 2020/08.rb:41-47 | `load` runs until the cursor repeats; it raises NoMethodError only on a nil slot; it always terminates |
| BootLoader.RunKeepsTrace | 2020/08.rb:41-58 | a run from a valid trace ends in a valid trace |
| BootLoader.FreshRun | 2020/08.rb:37-39 | a run from a new loader ends with a valid trace of at most 2·length processed instructions |
| BootLoader.RunStep | 2020/08.rb:49-54 | a run from a state is the run from the state after executing the instruction under the cursor |
| BootLoader.ExampleRun | 2020/08.rb:61-77 | on the test program the loader stops at repeated cursor 1 with accumulator 5 |
| BootLoader.ExampleRepeatsAtOne | 2020/08.rb:76 | the test program stops with accumulator 5 |
| BootLoader.GameBootLoader.constructor | 2020/08.rb:30-35 | a new loader has cursor 0, accumulator 0 and no processed instructions |
| BootLoader.GameBootLoader.Load | 2020/08.rb:41-47 | the loop ends in the state `Run` predicts, with the error it predicts |
| BootLoader.GameBootLoader.ExecuteInstruction | 2020/08.rb:49-54 | records the cursor, adds the change on `acc`, jumps on `jmp` and steps by 1 otherwise |
| BootLoader.Load | 2020/08.rb:37-39 | `GameBootLoader.load` builds a fresh loader and runs it to the state `Run` predicts |
| BootLoaderRepair.Run | 2020/08.2.rb:45-59 | `load` stops on a repeated cursor or a nil slot, which is `complete?`; the only error is ArgumentError from parsing |
| BootLoaderRepair.RunKeepsTrace | 2020/08.2.rb:45-66 | a run from a valid trace ends in a valid trace |
| BootLoaderRepair.FreshRun | 2020/08.2.rb:41-43 | a run from a new loader ends with a valid trace of at most 2·length instructions |
| BootLoaderRepair.AgreesWithPart1 | 2020/08.2.rb:45-59 | both parts' loaders reach the same state; part 2 completes exactly where part 1 raises NoMethodError |
| BootLoaderRepair.Flip | 2020/08.2.rb:76 | `nop` becomes `jmp` and anything else becomes `nop`; the argument is kept |
| BootLoaderRepair.CandidateFlipsOneLine | 2020/08.2.rb:73-79 | a candidate program differs from the input only at the flipped line, which now holds the other of `nop`/`jmp` |
| BootLoaderRepair.Search | 2020/08.2.rb:70-86 | the loop over lines fails only with ArgumentError, and yields nil only if no loader was ever built |
| BootLoaderRepair.SearchCompleted | 2020/08.2.rb:81-82 | a completed result is the first flippable line whose candidate completes; every earlier candidate repeats |
| BootLoaderRepair.SearchExhausted | 2020/08.2.rb:72-85 | a result that did not complete means that every candidate repeated |
| BootLoaderRepair.SearchLastAttempt | 2020/08.2.rb:71-85 | when no candidate completes, the loader returned is the one for the last flippable line |
| BootLoaderRepair.SearchNil | 2020/08.2.rb:71-74 | a nil result means that no line is flippable |
| BootLoaderRepair.SearchReaches | 2020/08.2.rb:81-82 | if the candidate at k completes and every earlier one repeats, the search returns k's loader |
| BootLoaderRepair.SearchNothingToFlip | 2020/08.2.rb:72-74 | with nothing left to flip, the search returns the loader it already had |
| BootLoaderRepair.FixResult | 2020/08.2.rb:69-87 | `fix` either returns the first completing candidate, or, when none completes, the last one tried, or nil |
| BootLoaderRepair.FixNilIffAllAcc | 2020/08.2.rb:71-85 | `fix` returns nil exactly when every line parses and is `acc` |
| BootLoaderRepair.CandidateOfLine | 2020/08.2.rb:76-79 | flipping a `nop n` or `jmp n` line writes `jmp n` or `nop n` in its place |
| BootLoaderRepair.ExampleSearch | 2020/08.2.rb:89-105 | on the test program, flipping line 7 completes with accumulator 8 |
| BootLoaderRepair.ExampleRepaired | 2020/08.2.rb:104 | the repaired test program ends with accumulator 8 |
| BootLoaderRepair.ExampleEarlierFlipsRepeat | 2020/08.2.rb:81-82 | flipping lines 0, 2 or 4 of the test program still repeats |
| BootLoaderRepair.GameBootLoader.constructor | 2020/08.2.rb:34-39 | a new loader has cursor 0, accumulator 0 and no processed instructions |
| BootLoaderRepair.GameBootLoader.Load | 2020/08.2.rb:45-51 | the loop ends in the state `Run` predicts, either repeated or complete |
| BootLoaderRepair.GameBootLoader.ExecuteInstruction | 2020/08.2.rb:61-66 | records the cursor, adds the change on `acc`, jumps on `jmp` and steps by 1 otherwise |
| BootLoaderRepair.Load | 2020/08.2.rb:41-43 | builds a fresh loader and runs it to the state `Run` predicts |
| BootLoaderRepair.BootLoadFixer.Fix | 2020/08.2.rb:69-87 | the loop returns the loader of the attempt `Search` picks, loaded with the program whose line at that index is flipped, or nil, and raises exactly when `Search` does |
| ExpenseReport.Permutations3 | 2020/01.2.rb:5 | `permutation(3)` lists exactly the ordered triples of distinct indices, each once, in lexicographic order of positions |
| ExpenseReport.Kept | 2020/01.2.rb:5 | `select` keeps exactly the triples whose entries sum to 2020 |
| ExpenseReport.Products | 2020/01.2.rb:6 | `map(reduce(&:*))` gives each kept triple's product, in order |
| ExpenseReport.Uniq | 2020/01.2.rb:6 | `uniq` keeps the same values, each once |
| ExpenseReport.UniqOrder | 2020/01.2.rb:6 | `uniq` keeps the values in the order of their first occurrence |
| ExpenseReport.KeptIncreasing | 2020/01.2.rb:5 | `select` keeps the triples in the order `permutation(3)` yields them |
| ExpenseReport.ComboSumProduct | 2020/01.2.rb:5-6 | the sum and product of a combination are those of its three entries |
| ExpenseReport.MatchingProductsSound | 2020/01.2.rb:5-6 | every printed product is that of three distinct entries summing to 2020 |
| ExpenseReport.MatchingProductsComplete | 2020/01.2.rb:5-6 | every three distinct entries summing to 2020 have their product printed |
| ExpenseReport.MatchingProductsUnique | 2020/01.2.rb:6 | no product is printed twice |
| ExpenseReport.MatchingProductsOrder | 2020/01.2.rb:5-6 | of two printed products, the earlier one has a matching triple that comes before every triple yielding the later one |
| ExpenseReport.NoMatchingTriple | 2020/01.2.rb:5-6 | with no matching triple the output is empty |
| ExpenseReport.TooFewEntries | 2020/01.2.rb:5 | fewer than three entries give no output |
| PasswordLines.Token | 2020/02.rb:4 | a token is a non-empty run of its character class followed by its separator |
| PasswordLines.PolicyAt | 2020/02.rb:4 | a match at a position is a well-formed policy whose text is a prefix of the rest of the line |
| PasswordLines.ParsePolicy | 2020/02.rb:4 | `scan` finds a policy exactly when some position of the line starts a match |
| PasswordLines.ScanPolicy | 2020/02.rb:4 | searching from a position fails exactly when no later position starts a match |
| PasswordLines.ParsePolicyText | 2020/02.rb:4 | a written policy followed by a non-word character parses back to itself |
| PasswordLines.PolicyAtText | 2020/02.rb:4 | a written policy matches at its start |
| PasswordLines.SelectedProperties | 2020/02.rb:8-11 | the kept lines are exactly the valid ones, and raising on any line stops the count |
| PasswordLines.SelectedCount | 2020/02.rb:8-13 | the count is the number of positions holding a valid line, so a repeated valid line counts once per occurrence |
| PasswordLines.CountValid | 2020/02.rb:8-13 | the loop counts the lines the policy accepts, or fails as the first raising line does |
| PasswordLines.PrefixFails | 2020/02.rb:9-11 | a line that raises stops the whole count |
| PasswordPolicy.CountIsHits | 2020/02.rb:5 | `password.count(letters)` is the number of positions that hold one of the letters |
| PasswordPolicy.CountDependsOnLetterSet | 2020/02.rb:5 | `count` depends only on the set of letters given |
| PasswordPolicy.ValidPasswordMeaning | 2020/02.rb:3-6 | a line raises exactly when no policy matches; otherwise it is valid when the number of hits lies between min and max |
| PasswordPolicy.ValidPasswordText | 2020/02.rb:3-6 | a written policy is judged by its hit count between its own min and max |
| PasswordPolicy.MinAboveMax | 2020/02.rb:5 | `between?` with min above max accepts nothing |
| PasswordPolicy.ValidPasswordCount | 2020/02.rb:8-13 | the count is the number of positions whose line has a letter count between min and max |
| PasswordPositions.PositionsRuleMeaning | 2020/02.2.rb:3-8 | positions in range: exactly one holds a letter; position 0 reads the last character; past the end raises |
| PasswordPositions.TwoCount | 2020/02.2.rb:6-7 | `count == 1` on two characters means exactly one is a listed letter |
| PasswordPositions.SamePositionNeverValid | 2020/02.2.rb:6-7 | a policy naming the same position twice never accepts |
| PasswordPositions.SwapPositions | 2020/02.2.rb:6-7 | swapping the two positions changes nothing |
| PasswordPositions.ValidPositionsText | 2020/02.2.rb:3-8 | a written policy is judged by the position rule on its own fields |
| PasswordPositions.ValidPositionsCount | 2020/02.2.rb:10-15 | the count is the number of positions whose line has the letter at exactly one of its two positions |
| Toboggan.Repeat | 2020/03.rb:9 | `line * n` has n times the length and repeats the line cyclically |
| Toboggan.CeilDiv | 2020/03.rb:9 | the ceiling of a/b: the least multiple count that covers a |
| Toboggan.TreeAt | 2020/03.rb:7-11 | `tree_at?` fails exactly at a non-zero position on a line of length at most 1 |
| Toboggan.TreeAtWraps | 2020/03.rb:7-11 | on a line of length at least 2, `tree_at?` reads the map cyclically |
| Toboggan.EncountersFailIff | 2020/03.rb:13-16 | the count fails exactly when some row of length ≤ 1 is reached at a non-zero column |
| Toboggan.EncountersBound | 2020/03.rb:13-16 | at most one tree per row |
| Toboggan.EncountersWrapped | 2020/03.rb:13-16 | on proper rows the count is the number of rows whose cyclic column `3·i` holds a tree |
| Toboggan.CountTrees | 2020/03.rb:4-18 | the loop counts the trees met on slope right 3, down 1 |
| Toboggan.EncountersFails | 2020/03.rb:13-16 | a failing row makes the whole count fail |
| TobogganSlopes.CountdownStep | 2020/03.2.rb:21-30 | the countdown skips a row exactly when it exceeds 1, and then decreases; otherwise the row is checked and it resets to `down` |
| TobogganSlopes.SlopeWalk | 2020/03.2.rb:19-31 | the loop counts trees on the checked rows at column right × (rows checked so far) |
| TobogganSlopes.SlopeTreesFails | 2020/03.2.rb:25-31 | a failing row makes the slope's count fail |
| TobogganSlopes.KthCheckedRow | 2020/03.2.rb:21-30 | the k-th checked row is `FirstRow + k·Stride`, and k rows were checked before it |
| TobogganSlopes.DownOneEveryRow | 2020/03.2.rb:21-30 | for down 1 the count equals the single-slope count of `2020/03.rb` |
| TobogganSlopes.DownTwoEvenRows | 2020/03.2.rb:21-30 | for down 2 exactly the even rows are checked, row 2k being the k-th |
| TobogganSlopes.DownThreeSkipsFirstRow | 2020/03.2.rb:21-30 | for down ≥ 3 row 0 is skipped and row down−2 is checked |
| TobogganSlopes.ListedSlopesCheckEveryDownthRow | 2020/03.2.rb:4-10 | for each of the five listed slopes the checked rows are the multiples of down |
| TobogganSlopes.SlopeTreesBound | 2020/03.2.rb:19-31 | a slope meets at most one tree per checked row, and never more than the rows |
| TobogganSlopes.CheckedBeforeBound | 2020/03.2.rb:21-30 | no more rows are checked than are read |
| TobogganSlopes.ProductProperties | 2020/03.2.rb:18-35 | the product is defined when each slope's count is, is non-negative, and is 0 exactly when some slope meets no tree |
| TobogganSlopes.MultiplySlopes | 2020/03.2.rb:18-35 | the loop multiplies the per-slope counts |
| TobogganSlopes.TotalTrees | 2020/03.2.rb:4-37 | the program's total is the product over the five listed slopes |
| TobogganSlopes.ProductFails | 2020/03.2.rb:19-35 | a failing slope makes the product fail |
| Passports.ScanFields | 2020/04.rb:8 | `scan` yields pairs whose keys are non-empty word runs and whose values are value-character runs or nil |
| Passports.ToMapLastWins | 2020/04.rb:8 | `Hash[...]` keeps the last value for a repeated key |
| Passports.ToMapKeys | 2020/04.rb:8 | the hash has exactly the scanned keys |
| Passports.ScanFieldText | 2020/04.rb:8 | a written `key:value` pair followed by a separator scans as that pair |
| Passports.ScanRender | 2020/04.rb:7-9 | scanning pairs written with single spaces gives them back in order |
| Passports.ScanDistinct | 2020/04.rb:7-9 | after scanning written pairs, each key reads its own value |
| Passports.ScanAbsent | 2020/04.rb:7-9 | a key absent from the written pairs reads as nil |
| Passports.ToMapOrder | 2020/04.rb:8 | with distinct keys the order of pairs does not change the hash or its validity |
| Passports.ValidIff | 2020/04.rb:15-17 | `valid?` holds exactly when all seven required attributes are non-nil |
| Passports.ValidOnlyRequired | 2020/04.rb:5-17 | a missing or nil required attribute makes the passport invalid; other attributes, cid among them, never matter |
| Passports.ScanTestRecord | 2020/04.rb:21-24 | the test record, scanned, holds each of its values under its key, and cid as 147 |
| Passports.ScanRecordWithoutCid | 2020/04.rb:26-29 | the record without cid, scanned, holds each of its values |
| Passports.AllRequiredAttributesPresent | 2020/04.rb:21-24 | the full test record is valid |
| Passports.OptionalAttribute | 2020/04.rb:26-29 | the record without cid is valid |
| Passports.MissingOneRequiredAttribute | 2020/04.rb:31-34 | with ecl misspelt `elc` the record is invalid |
| Passports.MissingMoreThanOneRequiredAttribute | 2020/04.rb:36-39 | with `elc` and no pid the record is invalid |
| PassportRules.MatchesNonEmpty | 2020/04.2.rb:27-32 | a value that matches any of the formats is not empty |
| PassportRules.BirthYearCheck | 2020/04.2.rb:24 | byr passes exactly when present and its `to_i` is in 1920..2002 |
| PassportRules.IssueYearCheck | 2020/04.2.rb:25 | iyr passes exactly when present and in 2010..2020 |
| PassportRules.ExpirationYearCheck | 2020/04.2.rb:26 | eyr passes exactly when present and in 2020..2030 |
| PassportRules.HeightChecks | 2020/04.2.rb:27-29 | the three hgt validations together: the format matches, and a cm or in height lies in its range |
| PassportRules.OtherChecks | 2020/04.2.rb:30-32 | hcl, ecl and pid pass exactly when they match their format or list |
| PassportRules.ValidIff | 2020/04.2.rb:13-44 | `valid?` holds exactly when every one of the seven attributes passes its rules |
| PassportRules.RulesImplyPresence | 2020/04.2.rb:13-32 | a passport valid under the rules has every attribute that `2020/04.rb` requires |
| PassportRules.OnlyRequiredAttributes | 2020/04.2.rb:24-32 | cid and any other attribute do not affect validity |
| PassportRules.YearText | 2020/04.2.rb:17 | a year written in decimal passes exactly when it lies in the range |
| PassportRules.HeightWithUnit | 2020/04.2.rb:27 | two or three digits and a unit match the height format, and `to_i` reads the digits |
| PassportRules.HeightCm | 2020/04.2.rb:27-28 | a cm height passes exactly when it is in 150..193 |
| PassportRules.HeightIn | 2020/04.2.rb:27-29 | an in height passes exactly when it is in 59..76 |
| PassportRules.HeightCapitals | 2020/04.2.rb:27-29 | an upper-case unit matches the format but triggers no range check |
| PassportRules.HeightWithoutUnit | 2020/04.2.rb:27 | digits alone fail |
| PassportRules.ScanTestRecordValid | 2020/04.2.rb:34-44 | a scanned test record is valid exactly when each of its values passes its rule |
| PassportRules.Year | 2020/04.2.rb:17 | a year as the tests write it passes exactly when it lies in the range |
| PassportRules.Height | 2020/04.2.rb:27-29 | a height as the tests write it passes exactly when it is within its unit's range |
| PassportRules.BirthYears | 2020/04.2.rb:83-92 | 1937 and 2001 pass; 1919 and 2003 fail |
| PassportRules.IssueYears | 2020/04.2.rb:94-102 | 2017 and 2020 pass; 2009 and 2021 fail |
| PassportRules.ExpirationYears | 2020/04.2.rb:104-112 | 2020 and 2030 pass; 2019 and 2031 fail |
| PassportRules.Heights | 2020/04.2.rb:114-137 | 183cm and 76in pass; 183, 149cm, 194cm, 58in and 77in fail |
| PassportRules.HairColors | 2020/04.2.rb:139-146 | #fffffd and #fffffa pass; #fffffz, #fffff and fffffa fail |
| PassportRules.NotAnEyeColor | 2020/04.2.rb:155 | gray is not an eye colour |
| PassportRules.PassportIds | 2020/04.2.rb:158-167 | nine digits pass, leading zeros included; ten digits, eight digits and a letter fail |
| PassportRules.AllRequiredAttributesPresent | 2020/04.2.rb:63-66 | the full test record is valid |
| PassportRules.OptionalAttribute | 2020/04.2.rb:68-71 | the record without cid is valid |
| PassportRules.MissingOneRequiredAttribute | 2020/04.2.rb:73-76 | the record without byr is invalid |
| PassportRules.MissingMoreThanOneRequiredAttribute | 2020/04.2.rb:78-81 | the record with `elc` and no pid is invalid |
| PassportRules.MinBirthYear | 2020/04.2.rb:83-86 | birth year 1919 is rejected |
| PassportRules.MaxBirthYear | 2020/04.2.rb:88-92 | birth year 2003 is rejected |
| PassportRules.MinIssueYear | 2020/04.2.rb:94-97 | issue year 2009 is rejected |
| PassportRules.MaxIssueYear | 2020/04.2.rb:99-102 | issue year 2021 is rejected |
| PassportRules.MinExpirationYear | 2020/04.2.rb:104-107 | expiration year 2019 is rejected |
| PassportRules.MaxExpirationYear | 2020/04.2.rb:109-112 | expiration year 2031 is rejected |
| PassportRules.HeightUnitPresence | 2020/04.2.rb:114-117 | a height without a unit is rejected |
| PassportRules.MinCmHeight | 2020/04.2.rb:119-122 | 149cm is rejected |
| PassportRules.MaxCmHeight | 2020/04.2.rb:124-127 | 194cm is rejected |
| PassportRules.MinInHeight | 2020/04.2.rb:129-132 | 58in is rejected |
| PassportRules.MaxInHeight | 2020/04.2.rb:134-137 | 77in is rejected |
| PassportRules.HairColorNotHex | 2020/04.2.rb:139-141 | #fffffz is rejected |
| PassportRules.HairColorTooShort | 2020/04.2.rb:142-143 | #fffff is rejected |
| PassportRules.HairColorNoHash | 2020/04.2.rb:144-145 | fffffa is rejected |
| PassportRules.EyeColor | 2020/04.2.rb:148-152 | every listed eye colour is accepted |
| PassportRules.EyeColorGray | 2020/04.2.rb:153-155 | gray is rejected |
| PassportRules.PassportIdLeadingZeros | 2020/04.2.rb:158-160 | 000000000 is accepted |
| PassportRules.PassportIdTooLong | 2020/04.2.rb:161-162 | ten digits are rejected |
| PassportRules.PassportIdTooShort | 2020/04.2.rb:163-164 | eight digits are rejected |
| PassportRules.PassportIdNotDigits | 2020/04.2.rb:165-166 | a letter is rejected |
| ShipCommands.ActionOf | 2020/12.rb:20-28 | `ACTIONS[...]` is defined exactly for the seven action letters |
| ShipCommands.FirstMatch | 2020/12.rb:70 | `scan` takes the leftmost position where a letter is followed by a digit |
| ShipCommands.ParseCommand | 2020/12.rb:70-72 | no action exactly when nothing in the line matches; a non-match reads as distance 0; distances are never negative |
| ShipCommands.ParseCommandToI | 2020/12.rb:70-72 | the distance is `to_i` of the digits the leftmost match captures |
| ShipCommands.ParseCommandText | 2020/12.rb:70 | a written command followed by a non-digit reads back as its action and distance |
| ShipCommands.ParseWritten | 2020/12.rb:70 | a written command reads back as its action and distance |
| ShipCommands.Manhattan | 2020/12.rb:63-65 | the distance is 0 exactly at the origin |
| ShipCommands.StepProperties | 2020/12.rb:39-47 | a unit move changes one coordinate by the distance, does nothing for other bearings, and is undone by the opposite move |
| ShipCommands.StepAdds | 2020/12.rb:39-47 | two moves in one direction add up |
| Navigation.Turned | 2020/12.rb:52-61 | a turn leaves the bearing in 0..359; no turn leaves it unchanged |
| Navigation.TurnBack | 2020/12.rb:52-61 | turning right then left by the same angle restores the bearing modulo 360 |
| Navigation.TurnKeepsCardinal | 2020/12.rb:52-61 | a quarter-turn keeps a cardinal bearing cardinal |
| Navigation.NavigateTurnsOrMoves | 2020/12.rb:69-73 | an instruction either turns the ship or moves it, never both; F moves along the bearing |
| Navigation.VoyageKeepsCardinal | 2020/12.rb:112-115 | a voyage of quarter turns keeps the bearing cardinal |
| Navigation.TurnExamples | 2020/12.rb:101-109 | from East, R90 faces South and L90 faces North |
| Navigation.Position.constructor | 2020/12.rb:10 | a position holds the given coordinates |
| Navigation.Ship.constructor | 2020/12.rb:30-33 | a new ship has the given bearing, East by default, at the origin |
| Navigation.Ship.Move | 2020/12.rb:35-50 | moves the position as `Moved` describes and returns it |
| Navigation.Ship.Turn | 2020/12.rb:52-61 | sets the bearing as `Turned` describes and returns it |
| Navigation.Ship.ManhattanDistance | 2020/12.rb:63-65 | the Manhattan distance of the position |
| Navigation.Navigator.MoveShip | 2020/12.rb:69-73 | updates the ship to the state `Navigate` gives |
| Navigation.Sail | 2020/12.rb:112-117 | the distance after all instructions is that of the voyage's end |
| WaypointNavigation.RotatedIsFormula | 2020/12.2.rb:38-53 | a rotation by a multiple of 90 degrees equals the rounded cosine/sine formula |
| WaypointNavigation.QuarterTurnsAdd | 2020/12.2.rb:38-53 | quarter turns compose modulo 4 |
| WaypointNavigation.RotationProperties | 2020/12.2.rb:38-53 | rotating back undoes a rotation, 360 degrees is the identity, rotations compose, and distance is kept |
| WaypointNavigation.QuarterTurnsKeepDistance | 2020/12.2.rb:38-53 | a quarter turn keeps the Manhattan distance |
| WaypointNavigation.RotationExamples | 2020/12.2.rb:152-160 | (10,1) rotated by 90 is (1,−10), and by −90 is (−1,10) |
| WaypointNavigation.ApplyEffects | 2020/12.2.rb:99-114 | F moves the ship by distance × waypoint; NESW move the waypoint; L/R rotate the waypoint about the ship, and R is undone by L; no match changes nothing |
| WaypointNavigation.ForwardAdds | 2020/12.2.rb:107-108 | two F moves add up |
| WaypointNavigation.ApplyTurnExample | 2020/12.2.rb:152-160 | from the start, R90 and L90 put the waypoint at (1,−10) and (−1,10) |
| WaypointNavigation.ApplyForwardExample | 2020/12.2.rb:122-126 | from the start, F10 takes the ship to (100,10) and leaves the waypoint |
| WaypointNavigation.ApplyMoveExample | 2020/12.2.rb:128-150 | from the start, N5, E6, S6 and W6 move only the waypoint, to the expected places |
| WaypointNavigation.Position.constructor | 2020/12.2.rb:5 | a position holds the given coordinates |
| WaypointNavigation.Ship.constructor | 2020/12.2.rb:16-18 | a new ship is at the origin |
| WaypointNavigation.Ship.MoveTo | 2020/12.2.rb:20-24 | adds `times` times the given position and returns that position |
| WaypointNavigation.Ship.ManhattanDistance | 2020/12.2.rb:26-28 | the Manhattan distance of the position |
| WaypointNavigation.Waypoint.constructor | 2020/12.2.rb:34-36 | a waypoint holds the given position |
| WaypointNavigation.Waypoint.Default | 2020/12.2.rb:34-36 | the default waypoint is at (10,1) |
| WaypointNavigation.Waypoint.Rotate | 2020/12.2.rb:38-53 | replaces the position with a new one rotated clockwise by the angle |
| WaypointNavigation.Waypoint.Move | 2020/12.2.rb:55-68 | moves the position along a heading and returns it |
| WaypointNavigation.Navigator.constructor | 2020/12.2.rb:94-97 | a navigator holds the given ship and waypoint |
| WaypointNavigation.Navigator.ProcessInstruction | 2020/12.2.rb:99-114 | the new ship and waypoint are those `Apply` gives for the instruction; returns itself |
| WaypointNavigation.Sail | 2020/12.2.rb:163-170 | the distance after all instructions is that of the voyage's end |
| WaypointNavigation.Setup | 2020/12.2.rb:118-120 | the test setup is a fresh navigator at the start state |

## Left out

- Reading input files, `File.readlines`/`foreach`, and printing with `p`: every program's input is a parameter (`seq<string>` of lines, or `seq<int>` for `2020/01.2.rb`), and its output is the return value.
- The Minitest harness: the tests are stated as lemmas, or as methods that run the commands and assert the expected state.
- The passport driver's grouping of input lines into records (`2020/04.rb:43-57`, `2020/04.2.rb:47-60`): the model starts from one record's text.
- The passport tests' records are built from their key/value pairs written with single spaces. This is the text the tests give.
- `Passport.validations` as a mutable `Set` of procs: the nine registered validations are a fixed list of `Validation` values, checked in conjunction.
- Regular expressions in general: only the patterns these programs use are modelled, each by its own matcher.
- `String#count` with character ranges (`a-z`) or negation (`^`): the policies only ever list plain lower-case letters.
- WaypointNavigation.Waypoint.Rotate: floating-point `Math.cos`/`Math.sin` and `round` are not modelled. Only multiples of 90 degrees are supported, as exact quarter turns, which is what the rounded formula gives for them.
- WaypointNavigation.Navigator.ProcessInstruction: requires that the command be a quarter-turn rotation or a move. It also requires that the ship and the waypoint not share a position object (`Valid`), which the drivers and tests never do.
- Toboggan.TreeAt: `to_f` and `ceil` are done as exact integer ceiling division. A row of length ≤ 1 at a non-zero position, where Ruby divides by zero or multiplies by a negative number and raises, is an error value.
- Ruby's exceptions (NoMethodError, ArgumentError, FloatDomainError) are error values (`None` or `Err`) rather than unwinding.
- Passports.OptionalAttribute: states only that the record without cid is valid, not that cid reads as nil.
- Integers are unbounded; Ruby's `Integer` is also arbitrary precision, so nothing is lost.
