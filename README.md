# ISO 8601 duration parser, modelled in Dafny

This project models the `NSDateComponents` extension in `ISO8601Duration.swift`. The extension turns ISO 8601 duration strings into date components. It accepts the format with designators, `PnYnMnDTnHnMnS`, and the week form `PnW`. The model covers its two routines:

- `componentsForString`, the designator extractor. It splits a section twice. One split cuts at the designator letters and gives the numeric runs. The other cuts at the decimal digits and gives the designator runs. Empty strings are dropped from both lists. When the two counts match, the runs are paired by position into a dictionary. Otherwise the dictionary is empty.
- `durationFrom8601String`, the driver. It deletes the first `P` and takes the week short cut when the input holds a `W`. Otherwise it splits at the first `T`, runs the extractor on the period section (`Y`, `M`, `D`) and on the time section (`H`, `M`, `S`), and copies the values into the fields.

Modules, one per file:

- `Wrappers` (`wrappers.dfy`): `Option`.
- `Split` (`split.dfy`) models `componentsSeparatedByCharactersInSet` and `removeObject("")`.
  - `Components` splits and keeps the empty pieces.
  - `DropEmpty` removes the empty strings.
  - `Runs` is the two together.
  - The lemmas prove that splitting loses nothing, that no run is empty or holds a separator, and how a separator cuts a string.
- `Numerals` (`numerals.dfy`): `NSString.integerValue` as the value of the leading ASCII digits, and the decimal `Numeral` of a number.
- `Extractor` (`extractor.dfy`): `componentsForString`.
  - `Extract` is the function that specifies it. It is built on `ZipMap`, the dictionary filled position by position, so the last write wins.
  - `RemoveEmpty` is the in-place `removeObject("")` loop.
  - `ComponentsForString` is the method with its dictionary-filling loop.
- `ISO8601Duration` (`duration.dfy`): `durationFrom8601String`.
  - `Duration` is the function that specifies the driver.
  - `DurationFrom8601String` is the method that mirrors the code step by step.
  - `AssignPeriodFields` and `AssignTimeFields` are the two loops over the dictionaries. They visit the keys in an arbitrary order, and their contracts show that the order does not matter.
- `DurationProperties` (`properties.dfy`): what the driver promises. This covers the role of `P`, the week form, the cut at `T`, independent sections, and unmentioned fields staying unset.
- `Canonical` (`canonical.dfy`): writes designator strings and proves that the parser reads them back.
  - `Written` gives the designators in any order, repeats allowed.
  - `Render` gives the canonical string of a value.
  - `RenderWeeks` gives the week form.
- `DurationExamples` (`examples.dfy`): the examples in the header comment, and inputs outside the grammar.

A date-components value is the datatype `DateComponents` with six `Option<int>` fields. An unset field of `NSDateComponents` is `None`. Strings are `seq<char>`, and character sets are `set<char>`.

Some parts of the code's behaviour can look surprising. The model follows the code in each case:

- A missing `P` returns an empty value. So does a section whose counts do not match; the other section is still read. No error value is reported.
- The `P` need not lead the string. The first `P` anywhere is deleted, so `3DP` reads as `P3D`.
- `P3YM` is not a count mismatch. `YM` becomes one key that names no field, so nothing is set.
- The `W` test looks at the original string (line 59), not at the string with `P` removed. This makes no difference, because the deleted character is a `P`.

## Model

| member | source | states |
|---|---|---|
| `Split.Components` | ISO8601Duration.swift:114-116 | splitting at the separators gives one more piece than there are separators |
| `Split.ComponentsPlain` | ISO8601Duration.swift:114-116 | no piece of the split holds a separator character |
| `Split.ComponentsRoundTrip` | ISO8601Duration.swift:114-116 | the pieces with the separators put back between them give back the string: splitting loses nothing |
| `Split.ComponentsAtSeparator` | ISO8601Duration.swift:114-116 | a separator cuts the string in two: the pieces of `a + [c] + b` are the pieces of `a` followed by the pieces of `b` |
| `Split.DropEmpty` | ISO8601Duration.swift:117-118 | `removeObject("")` never lengthens the list; `DropEmptyKept`, `DropEmptyAppend`, `DropEmptyOfNonEmpty` and `DropEmptyRemove` pin which elements stay |
| `Split.Runs` | ISO8601Duration.swift:115-118 | the split with the empty strings removed gives at most one more run than there are separators; `RunsPlain` and `RunsKeepText` pin the runs |
| `Split.DropEmptyKept` | ISO8601Duration.swift:117-118 | after `removeObject("")` every element is non-empty and was an element before |
| `Split.DropEmptyRemove` | ISO8601Duration.swift:117-118 | deleting one empty string leaves the non-empty strings, in order, unchanged |
| `Split.RunsPlain` | ISO8601Duration.swift:115-118 | every run left after the split and the removal of empty strings is non-empty and holds no separator |
| `Split.RunsKeepText` | ISO8601Duration.swift:115-118 | the runs, concatenated, are exactly the non-separator characters of the string, in order |
| `Split.RunsAtSeparator` | ISO8601Duration.swift:115-118 | the runs of `a + [c] + b` for a separator `c` are those of `a` followed by those of `b` |
| `Split.RunsChars` | ISO8601Duration.swift:115-118 | every character of a run comes from the string |
| `Split.LoneRun` | ISO8601Duration.swift:115-118 | a separator-free text with only separators around it is the single run |
| `Numerals.DigitPrefix` | ISO8601Duration.swift:83 | the text `integerValue` reads is the longest prefix made of digits |
| `Numerals.IntegerValue` | ISO8601Duration.swift:83 | `integerValue` of text that does not start with a digit is 0; `IntegerValueOfNumeral` and `IntegerValueOfPrefix` give the value of leading digits |
| `Numerals.IntegerValueOfNumeral` | ISO8601Duration.swift:83 | the conversion reads the decimal rendering of `n` back as `n` |
| `Numerals.IntegerValueOfPrefix` | ISO8601Duration.swift:96 | the conversion reads the leading digits and ignores whatever follows them |
| `Extractor.ZipMap` | ISO8601Duration.swift:120-125 | the dictionary filled by the loop is empty exactly when there were no pairs; `ZipMapKeys`, `ZipMapValues` and `ZipMapLastWins` pin its contents |
| `Extractor.Extract` | ISO8601Duration.swift:108-131 | a non-empty dictionary comes only from a non-empty section whose numeric and designator run counts match; `ExtractKeys`, `ExtractPairs` and `ExtractShape` pin the rest |
| `Extractor.ZipMapExtend` | ISO8601Duration.swift:121-125 | one more loop step stores the `i`-th value under the `i`-th key on top of the dictionary so far |
| `Extractor.ZipMapKeys` | ISO8601Duration.swift:120-125 | a string is a key of the filled dictionary if and only if it is one of the keys written |
| `Extractor.ZipMapLastWins` | ISO8601Duration.swift:120-125 | a key holds the value from its last position: later writes overwrite earlier ones |
| `Extractor.ZipMapValues` | ISO8601Duration.swift:120-125 | every value of the filled dictionary is one of the values written |
| `Extractor.ExtractShape` | ISO8601Duration.swift:113-125 | every key is a non-empty run of non-digits, and every value is a non-empty run free of the designators |
| `Extractor.RemoveEmpty` | ISO8601Duration.swift:117-118 | the in-place loop deletes exactly the empty strings and keeps the order of the rest |
| `Extractor.ComponentsForString` | ISO8601Duration.swift:108-131 | the method returns the dictionary that `Extract` specifies: empty for an empty section or a count mismatch, else the runs zipped by position |
| `Extractor.ExtractEmpty` | ISO8601Duration.swift:110-111 | an empty section gives the empty dictionary |
| `Extractor.ExtractKeys` | ISO8601Duration.swift:119-130 | differing counts give the empty dictionary; matching counts make the keys exactly the designator runs |
| `Extractor.ExtractPairs` | ISO8601Duration.swift:119-125 | with matching counts, a designator run that does not recur later holds the numeric run at the same position |
| `ISO8601Duration.FirstIndex` | ISO8601Duration.swift:50-51 | `rangeOfString` of one character: none exactly when it is absent, else the position of its first occurrence |
| `ISO8601Duration.WeekForm` | ISO8601Duration.swift:59-66 | the week form sets no field but the day, and sets the day exactly when the extractor finds the key `W` |
| `ISO8601Duration.SplitAtT` | ISO8601Duration.swift:69-78 | without `T` the period section is everything and the time section is empty; with one, the text is cut around its first `T` |
| `ISO8601Duration.WithPeriod` | ISO8601Duration.swift:82-91 | the period loop leaves hour, minute and second as they were, and changes nothing when it has visited none of `Y`, `M`, `D` |
| `ISO8601Duration.WithTime` | ISO8601Duration.swift:95-104 | the time loop leaves year, month and day as they were, and changes nothing when it has visited none of `H`, `M`, `S` |
| `ISO8601Duration.AfterP` | ISO8601Duration.swift:59-104 | after the `P` is removed, the week form sets only the day, and an empty rest sets nothing |
| `ISO8601Duration.Duration` | ISO8601Duration.swift:43-106 | a string without `P` gives components with no field set; the properties of `DurationProperties` and `Canonical` pin the rest |
| `ISO8601Duration.AssignPeriodFields` | ISO8601Duration.swift:82-91 | after the loop over the period dictionary, in any key order, `D`, `M` and `Y` have set day, month and year, and nothing else has changed |
| `ISO8601Duration.AssignTimeFields` | ISO8601Duration.swift:95-104 | after the loop over the time dictionary, in any key order, `S`, `M` and `H` have set second, minute and hour, and nothing else has changed |
| `ISO8601Duration.DurationFrom8601String` | ISO8601Duration.swift:43-106 | the step-by-step driver returns the components that `Duration` specifies |
| `DurationProperties.NoPeriodDesignator` | ISO8601Duration.swift:50-53 | without a `P` every field is unset |
| `DurationProperties.FirstIndexAfter` | ISO8601Duration.swift:50 | the first `c` of `a + [c] + b` is the one right after `a` when `a` holds no `c` |
| `DurationProperties.FirstPCut` | ISO8601Duration.swift:50-59 | with the first `P` after `a`, the input is read as `a + b` with the `W` test on the same letters |
| `DurationProperties.LeadingPCut` | ISO8601Duration.swift:50-56 | a leading `P` is removed and the rest is read |
| `DurationProperties.OnlyFirstPRemoved` | ISO8601Duration.swift:50-56 | only the first `P` is removed, wherever it stands: `a + P + b` reads like `P + a + b` |
| `DurationProperties.WeekFormCut` | ISO8601Duration.swift:59-66 | a `W` anywhere selects the week form, whatever other designators are present |
| `DurationProperties.WeekFormSetsOnlyDays` | ISO8601Duration.swift:59-66 | with a `W`, only the day can be set: to 7 times the value under key `W` when there is one, otherwise nothing is set |
| `DurationProperties.WeekFormDays` | ISO8601Duration.swift:63-64 | the day count of the week form is a non-negative multiple of 7 |
| `DurationProperties.CalendarFormFields` | ISO8601Duration.swift:69-104 | without `W`, year, month and day come from the keys `Y`, `M`, `D` of the period section and hour, minute and second from `H`, `M`, `S` of the time section; `M` is month before the `T` and minute after it |
| `DurationProperties.MalformedSectionSetsNothing` | ISO8601Duration.swift:80-104 | a section whose numeric and designator run counts differ sets none of its fields, and the other section is still read |
| `DurationProperties.KeyChars` | ISO8601Duration.swift:116-124 | every character of a key of the extracted dictionary comes from the section |
| `DurationProperties.UnmentionedFieldsUnset` | ISO8601Duration.swift:82-104 | a field stays unset when its designator letter occurs nowhere in the input |
| `Canonical.DesignatedValueRuns` | ISO8601Duration.swift:115-117 | the numeric runs of numerals each followed by a designator are those numerals, in order |
| `Canonical.DesignatedLetterRuns` | ISO8601Duration.swift:116-118 | the designator runs of such a text are its letters, one run each |
| `Canonical.ExtractDesignated` | ISO8601Duration.swift:108-125 | the extractor pairs each letter with the numeral before it, the last one winning |
| `Canonical.ZipMapLookup` | ISO8601Duration.swift:120-125 | the dictionary holds a letter exactly when it was written, and its converted value is the last numeral written with it |
| `Canonical.WrittenSections` | ISO8601Duration.swift:50-78 | in `P`, period pairs, then `T` and time pairs, the `P` is the first, there is no `W`, and the first `T` opens the time section |
| `Canonical.SectionsFields` | ISO8601Duration.swift:80-104 | the two dictionaries of such a string set each field to the last value written with its designator and leave the others unset |
| `Canonical.WrittenFields` | ISO8601Duration.swift:43-106 | parsing `P`, designated period values, and optionally `T` and time values gives each field the last value written with its designator, in any order and with repeats |
| `Canonical.RenderRoundTrip` | ISO8601Duration.swift:30-34 | parsing the canonical `PnYnMnDTnHnMnS` string of components with non-negative fields gives those components back |
| `Canonical.WeeksRoundTrip` | ISO8601Duration.swift:59-66 | parsing `PnW` gives `7n` days and nothing else |
| `DurationExamples.TwelveHours` | ISO8601Duration.swift:31 | `PT12H` is 12 hours |
| `DurationExamples.ThreeDays` | ISO8601Duration.swift:32 | `P3D` is 3 days |
| `DurationExamples.ThreeDaysTwelveHours` | ISO8601Duration.swift:33 | `P3DT12H` is 3 days and 12 hours |
| `DurationExamples.AllSixFields` | ISO8601Duration.swift:34 | `P3Y6M4DT12H30M5S` sets all six fields |
| `DurationExamples.TenWeeks` | ISO8601Duration.swift:35 | `P10W` is 70 days |
| `DurationExamples.OneMonth` | ISO8601Duration.swift:86-87 | `M` before the `T` is a month |
| `DurationExamples.OneMinute` | ISO8601Duration.swift:99-100 | `M` after the `T` is a minute |
| `DurationExamples.ZeroDays` | ISO8601Duration.swift:84-85 | an explicit `0D` sets the day to 0, unlike an absent day |
| `DurationExamples.TrailingP` | ISO8601Duration.swift:50-55 | `3DP` is 3 days: the `P` need not lead |
| `DurationExamples.AdjacentDesignators` | ISO8601Duration.swift:116-124 | `P<n>YM` sets nothing: `YM` is one key that names no field, and the counts match |
| `DurationExamples.MalformedPeriod` | ISO8601Duration.swift:119-130 | digits after the last period designator void the period section only; the hours are still read |
| `DurationExamples.DesignatorBeforeNumber` | ISO8601Duration.swift:120-124 | pairing is by position only: `PD<n>` sets the day to `n` |
| `DurationExamples.RepeatedDesignator` | ISO8601Duration.swift:120-125 | `P1D2D` sets the day to 2: the last value wins |
| `DurationExamples.DesignatorsInAnyOrder` | ISO8601Duration.swift:82-104 | `P4D3YT5S6H` sets year 3, day 4, hour 6 and second 5: the order of the designators does not matter |

## Left out

- The console output is not modelled: the `println` in `componentsForString` and `logErrorMessage` (lines 52, 128, 133-136). Both only print.
- `DurationProperties.WeekFormSetsOnlyDays`: the week value is converted like the other fields (leading ASCII digits) and multiplied by 7, instead of `Int(doubleValue * 7.0)` (line 64). Floating point is not modelled. The two differ in these ways.
  - A fraction: in `PxWxW1.5W` the runs pair `W` with `1.5`, which gives 10 days in the code and 7 in the model.
  - A sign: in `P1W2W-3W` the runs are `1`, `2`, `-3` and `W`, `W-`, `W`, so the last `W` is paired with `-3`. The code gives -21 days and the model gives 0.
  - Rounding: once 7n exceeds 2^53 the product in the code can round. `P1286742750677285W` gives 9007199254740996 days in the code and 9007199254740995 in the model.
  - A trap: `Int(Double)` stops the program when the product lies above the largest `Int` or below the smallest. The code crashes on `P2000000000000000000W`, where the model gives 14000000000000000000 days, and on a huge negative value paired with `W` as in `P1W2W-2000000000000000000W`, where the model gives 0.
  - White space: `doubleValue` skips leading white space. In `PxW 3W` the runs pair `W` with ` 3`, so the code gives 21 days and the model gives 0.
  - An exponent: `doubleValue` reads one. In `PxWxW1e2W` the runs are `x`, `x`, `1e2` and `xWxW`, `e`, `W`, so `W` takes `1e2`. The code gives 700 days and the model gives 7.
  - Where the fraction or sign stands right before the only `W`, as in `P1.5W` or `P-3W`, the `.` or `-` forms its own designator run, the counts differ, and both the code and the model set nothing.
- `DurationProperties.WeekFormDays`: a non-negative multiple of 7 holds only for the integer-week model. The code gives 10 days for `PxWxW1.5W` and -21 for `P1W2W-3W`.
- `Canonical.WeeksRoundTrip`: exactly `7n` days holds only for the integer-week model. The code's product can round once 7n exceeds 2^53, and the code crashes once 7n exceeds the largest `Int`.
- `Numerals.IntegerValue`: `integerValue` also skips leading white space, reads a sign and clamps on overflow (lines 83, 96). The model reads only leading ASCII digits and gives 0 otherwise. The difference shows when a sign follows a designator: in `P1D-3M` the runs pair `D-` with `1` and `M` with `-3`, so the code sets the month to -3 and the model sets it to 0.
- `decimalDigitCharacterSet` holds every Unicode decimal digit (line 113). The model uses the ASCII digits `0`-`9` only.
- `NSInteger` is 64 bits wide. The model's integers are unbounded, so overflow is not modelled.
- `NSDateComponents`, `NSMutableString`, `NSCharacterSet` and `NSMutableArray` are replaced by a datatype, `seq<char>`, `set<char>` and `seq<string>`. The in-place deletions are local sequence updates; nothing else sees these objects, so no aliasing is lost.
- Dictionary iteration order (lines 82, 95) is an arbitrary choice in the model. The method contracts show that the result does not depend on it.
- The model returns no error value. A design that reports a missing `P` or a count mismatch as a typed error is not modelled, because the code returns empty or partially filled components.
- `Canonical.RenderRoundTrip`: holds only for components whose fields are non-negative, because a designator numeral has no sign.
