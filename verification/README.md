# Name destiny: a Dafny model of the stroke-count compatibility score

The program takes two Hangul names and computes a two-digit "compatibility"
percentage by a traditional stroke-count method:

1. the characters of the two names are interleaved (철수 + 영희 → 철 영 수 희);
2. every adjacent pair of characters is split into jamo, and the stroke counts
   of those jamo are summed while 10 is dropped each time the running total
   reaches 10, giving one digit per pair;
3. that row of digits is repeatedly replaced by the last digits of the sums of
   neighbours until two digits remain; every row of three or more digits is
   recorded for display;
4. the two final digits are shown as a percentage.

The model has two modules, one per source file:

- `Name` (name.dfy) models name.js: the stroke table, `getStrokes`,
  `nameLength`, `nameCombine`, `nameStrokes` and `nameDestiny`. Each
  JavaScript function that works by mutation is a Dafny method with the same
  loops, proved against a specification function (`RawSum`, `Interleave`,
  `StrokeTotals`, `FirstRow`, `NextRow`, `Rows`, `Reduce`, `Destiny`); lemmas
  state what the source promises about those functions.
- `Renderer` (renderer.dfy) models the slice of renderer.js that guards and
  consumes the computation: `Validator.isValidLength`,
  `Validator.isValidNamePair`, the checks and state update of
  `NameDestinyApp.startGame` (a class whose fields are the ones `startGame`
  writes), and the percentage text built in `displayFinalResult`.

Hangul syllable decomposition (the hangul-js library, following section 3.12
of the Unicode Standard) is not part of this model. It is a parameter
`decompose: char -> seq<char>`, and `Hangul.disassemble([a, b])` on two
characters is `decompose(a) + decompose(b)`.

`processArray` holds the rows of length `|combined| - 1` down to 3: the first
row is recorded before the loop (name.js:149) and every derived row longer than
2 inside it (name.js:174).

The length check in `startGame` has no upper bound, although its alert text
speaks of names of two to four characters; the model keeps the behaviour of the
code (`NoUpperBoundOnNameLength`).

## Model

| member | source | states |
|---|---|---|
| `Name.TableOfAt` | name.js:5-46 | a key that no later entry of the object literal repeats is in the dictionary and maps to the value its entry gives |
| `Name.TableOfKeys` | name.js:5-46 | the keys of the dictionary `TableOf` builds from `StrokeEntries` (the object literal STROKES_DICTIONARY, which `StrokesDictionary` holds) are exactly the jamo the entries list |
| `Name.TableOfValues` | name.js:5-46 | bounds [lo, hi] on the listed entries' counts bound every dictionary value |
| `Name.StrokeCountsInRange` | name.js:5-46 | every stroke-table entry is an integer from 1 to 8 |
| `Name.StrokeOfEntry` | name.js:5-46 | the stroke count looked up for the jamo of an entry is the count that entry lists |
| `Name.ChulStrokes` | name.js:9-27 | ㅊ has 4 strokes, ㅓ has 2 and ㄹ has 5 |
| `Name.StrokeOf` | name.js:57-58 | a unit adds at most 8, and adds 0 exactly when it is not in the table |
| `Name.RawSum` | name.js:54-66 | the raw total of n units is at most 8n |
| `Name.RawSumAppend` | name.js:56-64 | the raw total of a concatenation is the sum of the raw totals of its parts |
| `Name.UnknownUnitIsSkipped` | name.js:57 | a unit missing from the table changes no total wherever it stands, and raises no error |
| `Name.DigitStep` | name.js:58-62 | adding at most 8 to a digit needs at most one subtraction of 10 to keep the last digit of the sum |
| `Name.GetStrokes` | name.js:54-66 | with keepOriginal the result is the raw table sum; without it the result is a digit 0..9 equal to the raw sum modulo 10 |
| `Name.ChulExample` | name.js:123 | 철 = ㅊ + ㅓ + ㄹ has 11 strokes, whose digit is 1 |
| `Name.NameLength` | name.js:74-76 | the result is at least each name's length and equal to one of them: the larger length |
| `Name.Interleave` | name.js:84-99 | the interleaving has as many characters as both names together |
| `Name.InterleaveSnocBoth` | name.js:89-95 | for names of equal length, one more character on each appends those two characters, first name's first |
| `Name.InterleaveSnocFirst` | name.js:89-92 | once the second name is used up, one more character of the first is appended at the end |
| `Name.InterleaveSnocSecond` | name.js:93-95 | once the first name is used up, one more character of the second is appended at the end |
| `Name.InterleavePairAt` | name.js:88-95 | while both names last, position 2i holds name[i] and position 2i+1 holds name2[i] |
| `Name.InterleaveFirstTail` | name.js:89-92 | once the second name is used up, the remaining characters of the first follow in order |
| `Name.InterleaveSecondTail` | name.js:93-95 | once the first name is used up, the remaining characters of the second follow in order |
| `Name.InterleaveKeepsOrder` | name.js:88-96 | each name's characters appear in their original order, and name[i] comes directly before name2[i] |
| `Name.InterleaveExample` | name.js:88 | "철수" and "영희" give 철, 영, 수, 희, and swapping the names changes the result |
| `Name.CombineStepBoth` | name.js:89-95 | a loop pass at an index both names reach appends name[i] and then name2[i] to the interleaving of the shorter prefixes |
| `Name.CombineStepFirst` | name.js:89-92 | a loop pass past the end of the second name appends name[i] only |
| `Name.CombineStepSecond` | name.js:93-95 | a loop pass past the end of the first name appends name2[i] only |
| `Name.CombineStep` | name.js:89-96 | every pass of the loop extends the interleaving of the prefixes read so far by the characters it pushes |
| `Name.NameCombine` | name.js:84-99 | the loop builds exactly the interleaving, as long as both names together |
| `Name.NameStrokes` | name.js:106-116 | one raw stroke total per character, same length as the input, entry i the raw total of decompose(arr[i]) |
| `Name.StrokeTotals` | name.js:106-116 | the array nameStrokes returns has one total per character, each at most 8 times the number of units that character splits into |
| `Name.FirstRow` | name.js:138-146 | the first row has one entry per adjacent pair: one fewer than the combined characters |
| `Name.PairDigit` | name.js:140-144 | the digit stroke count of two characters' units together is a digit 0..9, the last digit of the sum of the two characters' raw totals |
| `Name.FirstRowFromStrokeTotals` | name.js:139-146 | each first-row entry is a digit, the last digit of the sum of the two raw totals shown under its pair |
| `Name.FirstRowSnoc` | name.js:139-146 | a pass of the first-row loop appends the digit count of the next adjacent pair's units |
| `Name.DigitPairStep` | name.js:159-162 | two digits sum to at most 18, so one subtraction of 10 gives the last digit of the sum |
| `Name.NextRow` | name.js:157-164 | a cascade step shortens a non-empty row by one |
| `Name.NextRowAt` | name.js:158-164 | entry i of a cascade step is the last digit of row[i] + row[i+1] |
| `Name.NextRowDigits` | name.js:158-164 | a cascade step yields only digits 0..9 |
| `Name.NextStep` | name.js:155-164 | the inner loop computes, on a row of digits, entry i = (prev[i] + prev[i+1]) mod 10 |
| `Name.IterateLength` | name.js:154-175 | after k cascade steps a row has lost k entries, down to the empty row |
| `Name.IterateDigits` | name.js:154-175 | every row reached after one or more cascade steps holds only digits |
| `Name.LoopExit` | name.js:154-175 | a derived row of length 2 appears exactly when the start row has at least 3 entries, and then after as many steps as the start row has entries beyond 2 |
| `Name.DestinyLoopExit` | name.js:138-175 | the reduction loop exits exactly when the interleaving has at least 4 characters; with 3 or fewer it never does |
| `Name.Rows` | name.js:148-175 | the recorded trace starts with the first row and holds one row per entry beyond 2 of the first row |
| `Name.Reduce` | name.js:166-173 | the final result has exactly two entries, both digits 0..9 |
| `Name.RowsAt` | name.js:154-175 | recorded row j has j entries fewer than the first, and every recorded row after the first holds digits |
| `Name.RowsPrefixSnoc` | name.js:148-174 | recording the row reached after k steps extends the trace recorded so far by exactly that row |
| `Name.ReduceAfterRows` | name.js:166-173 | the final pair is the cascade step after the last recorded row |
| `Name.RowsChain` | name.js:158-174 | each recorded row is the cascade step of the one before, and all of them are rows of digits |
| `Name.CascadeExample` | name.js:124 | the rows [1,8,2,9] and [9,0,1] are recorded and the result is [9,1] |
| `Name.ReduceToPair` | name.js:148-175 | the reduction loop records exactly the specified trace and leaves exactly the specified final pair |
| `Name.DestinyProperties` | name.js:131-188 | the result object holds both names, the interleaving, one raw total per character, rows from one shorter than the interleaving down to length 3 each one the step of the last, and a final digit pair that follows the last row |
| `Name.ShortestNamesScenario` | name.js:148-175 | two names of two characters record exactly one row, of length 3 |
| `Name.LongestNamesScenario` | name.js:148-175 | names of four and three characters record rows of lengths 6, 5, 4 and 3 |
| `Name.NameDestiny` | name.js:131-188 | the method returns the specified result object: two digits 0..9, and three fewer recorded rows than the two names have characters |
| `Name.Destiny` | name.js:178-185 | the result object (`DestinyResult`) has an interleaving and a stroke array as long as both names together, three fewer recorded rows than that, and a result of two digits 0..9 |
| `Renderer.IsValidLength` | renderer.js:72-74 | a name is accepted exactly when it has at least 2 characters |
| `Renderer.IsValidNamePair` | renderer.js:76-79 | a pair is accepted exactly when the lengths differ by at most 1 (the comparison with 2 is strict) |
| `Renderer.Abs` | renderer.js:78 | Math.abs of the length difference is the larger of the difference and its negation |
| `Renderer.ValidNamesReachTwoDigits` | renderer.js:115-129 | names passing the length check give an interleaving of at least 4 characters, so the reduction reaches two digits |
| `Renderer.NoUpperBoundOnNameLength` | renderer.js:115-125 | names of five or more characters of equal length pass every check |
| `Renderer.DigitChar` | renderer.js:254 | the text of a digit is the character whose code is '0' plus the digit |
| `Renderer.DecimalText` | renderer.js:253-254 | the decimal text of a number is non-empty, all digits, and parses back to the number |
| `Renderer.ParseDecimal` | renderer.js:254 | parseInt on k decimal digits gives a number below 10^k |
| `Renderer.Percentage` | renderer.js:253-254 | the shown number is 10 * result[0] + result[1], at most 99 |
| `Renderer.PercentLabel` | renderer.js:253-254 | the shown text is the two digits followed by "%", with a leading 0 digit dropped |
| `Renderer.StartDecision` | renderer.js:107-125 | the computation is started only when both input elements are present and their combined length is at least 4 |
| `Renderer.NameDestinyApp.constructor` | renderer.js:84-91 | a new app has no result and empty stored names |
| `Renderer.NameDestinyApp.StartGame` | renderer.js:106-131 | the outcome is the one the checks decide; a rejected or absent input leaves firstNameInput, secondNameInput and phase1 untouched; an accepted one stores both names and the computed result, whose percentage is at most 99 |

## Left out

- Hangul decomposition (hangul-js): a parameter of the model, with no properties assumed.
- DOM work in renderer.js (`DOMManager`, element creation, styling, font, colour and gap settings, `showResult`, `displayNames`, `displayNameCombination`, `displayResults`): presentation only.
- Animation sequencing (`resultReveal`, `showFirstIteration`, `showDestinyProcess`, the timer in `displayFinalResult`, promise chaining): asynchronous timing, no effect on the values computed.
- Event listeners, `window.close`, `window.onload`: browser I/O. The alerts of `startGame` are the returned `StartOutcome` value instead of a dialog.
- `Validator.isValidKorean` and `KOREAN_REGEX`: regular-expression behaviour; the keyup handlers that clear non-Hangul input are left out with it.
- `Name.NameDestiny`: requires that the two names have at least 4 characters together, because for shorter input the source's reduction loop never exits; `Name.DestinyLoopExit` states that non-termination instead of a result.
- `Name.NextStep`: the inner loop of `nameDestiny` is its own method here, and it requires a row of digits; on other numbers one subtraction of 10 is not the last digit of the sum, but only rows of digits reach that loop.
- The `break` after `isFinished = true` in `nameDestiny` is written as an if/else on the same flag; the loop is left at the same point.
- `Name.ReduceToPair`: the reduction loop of `nameDestiny` (name.js:148-175) is its own method here, taking the first row; it requires a row of at least 3 digits, which is what `nameDestiny` builds for names passing the checks. `finalCompatibility` starts out undefined in the source and as the empty row here; neither value is ever returned.
- `Name.StrokesDictionary` is built from its list of entries in source order, a later entry replacing an earlier one as in an object literal; no key is repeated, so every entry is the one looked up.
- `dom.get` returning `null` is the `Absent` input element; `Renderer.NameDestinyApp.StartGame` takes the two results of `dom.get` as parameters.
- JavaScript numbers are doubles; all values here are small non-negative integers, so they are modelled as `nat` without rounding.
- Characters outside the Basic Multilingual Plane: a Dafny `char` is a Unicode scalar value, while JavaScript's `length` and indexing count UTF-16 code units. The two agree only for text inside the Basic Multilingual Plane, which holds every Hangul syllable and jamo; a name containing a character outside it (which JavaScript counts and splits as two surrogate halves) is not modelled.
