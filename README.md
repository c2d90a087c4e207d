# car_engine_etl in Dafny

A model of the extraction script `cars.py` of car_engine_etl. The script reads
a wide file of vehicle specifications: one line per attribute and one column
per vehicle. It transposes that into one row per vehicle and drops sparse
columns. It then drops electric vehicles and keeps a fixed list of 28
columns. Five regular-expression extractors pull the displacement, the engine
code, the cylinder count, the engine family letter, and horsepower and torque
out of free-text cells. A `dropna` follows each extraction, and the engine
table is exported.

Modules:

- `Text`: the Python string operations the script uses (`str.lower`,
  `str.replace`, substring search), on ASCII text. `str.replace` is also
  proved equal to `rep.join(s.split(pat))`, with `split` defined from
  `str.find`.
- `Regex`: a reference model of `re.search(...).group(1)` for the five
  patterns, over ASCII text: `\d` is an ASCII digit and `\D` any other
  character. Each pattern is a concatenation of character classes with greedy
  `{lo,hi}` repeats, matched by backtracking, leftmost match first.
- `Extractors`: the five extractors as hand-written scanners. Each is proved
  equal to the regex model on every input, and each gets a contract that says
  what it returns. The regexes' quirks are kept as written:
  - the displacement pattern's `.` is unescaped and matches any character;
  - the engine-type classes `[v|i|f|w|h|l]` and `[-|" "]` also contain `|`
    and `"`.
- `Frames`: the table. A frame is a list of columns and a list of rows, each
  row a map from column name to cell, and a missing value (NaN) is `None`.
  The module holds the reshape, the NA column filter with its
  ZeroDivisionError on a frame without rows, the electric filter,
  column selection with its KeyError, `apply` into a new column, and
  `dropna`. Each stage on a frame is a row operation (`RowOp`). `Collect`
  takes every row through a list of such operations.
- `Script`: the script itself. `RunScript` is a method that rebinds its
  frame stage by stage, as `cars.py` rebinds `df`. It is proved to stop with
  ZeroDivisionError exactly when there are no vehicles, and otherwise with a
  KeyError exactly when a kept column did not survive the NA filter.
  Otherwise it returns `Expected(w)`, a reference written vehicle by
  vehicle: an engine line for each non-electric vehicle whose every
  extraction succeeds, in input order.

The row machinery in `Frames` and `Script` takes the extractor as a parameter
(`Extractor`). The stage lemmas are proved for any extractor, and the script
instantiates them with `Extractors.Extract`. So the table proofs never look
inside the extractors, and the extractor proofs never look at the table.

Behaviour of `cars.py` that the model keeps as written:

- A column is kept when its share of missing cells is strictly below 0.2
  (cars.py:13). A column with exactly 20% missing cells is dropped.
- The engine-code classes `[v|i|f|w|h|l]` and `[-|" "]` (cars.py:75) also
  hold `|` and `"`. So the separator may be `|` or `"` as well as a hyphen or
  a space, and the family letter may be `|`. The configuration letter is
  therefore not always one of v, i, f, w.
- A code such as "v0" gives zero cylinders (cars.py:92-102). Nothing makes
  the count positive.
- The column list of cars.py:19-51 has 28 entries.
- With no vehicle at all, the NA filter of cars.py:13 divides the Python
  integer count by `len(df) == 0` and stops with ZeroDivisionError before any
  column is looked up.

Where the model departs from `cars.py`, "## Left out" says so. In particular
the model exports the extracted displacement text, where cars.py:67 exports
`pd.to_numeric` of it.

## Model

| member | source | states |
|---|---|---|
| Extractors.ExtractDisplacement | cars.py:55-64 | a result is a prefix of the cell: one or two digits, any character but a newline, then one or two digits. None exactly when no prefix of the cell has that shape |
| Extractors.DisplacementIsRegex | cars.py:57-62 | the scanner returns exactly `re.search('(^\d{1,2}.\d{1,2})', s).group(1)`, or None without a match, with the regex engine's backtracking order over the digit counts |
| Extractors.DisplacementExamples | cars.py:57 | "5.7L V8 OHV 16V" gives "5.7". The unescaped dot lets "5x7" through. "123" gives "123" by falling back to one leading digit |
| Extractors.ExtractEngineType | cars.py:70-85 | None exactly when no engine code (family letter, optional separator, a digit) occurs in the lower-cased text with "flat" replaced. Otherwise an engine code: a letter among v, i, f, w and `\|`, an optional kept `\|` or `"`, then one or two digits, with no h, l, hyphen or space left |
| Extractors.EngineTypeIsRegex | cars.py:72-81 | the scanner equals the regex model's group 1 of the prepared text, followed by the four replacements |
| Extractors.CodeAtIsRegex | cars.py:75 | where an engine code starting at a position ends is where the backtracking match of the engine-type pattern ends |
| Extractors.FindCodeIsRegex | cars.py:75 | the leftmost engine code is the leftmost match of the engine-type pattern |
| Extractors.SeparatorThenDigits | cars.py:75 | the optional separator is taken when present and given back when no digit follows it |
| Extractors.NormalizeRawCode | cars.py:78-80 | the replacements turn any raw match into an engine code with no h, l, hyphen or space |
| Extractors.FlatSixExample | cars.py:72-81 | "Flat-6 OHC 12V" gives "f6": "flat" becomes "f" before the search |
| Extractors.VEightExample | cars.py:70-85 | "V-8 OHV" gives "v8" |
| Extractors.IFourExample | cars.py:70-85 | "I-4 DOHC" gives "i4" |
| Extractors.HFourExample | cars.py:78 | "H-4" gives "f4": h is filed under the flat family |
| Extractors.ExtractCylinders | cars.py:90-98 | None exactly when the text has no digit. Otherwise the leftmost run of digits, cut after two |
| Extractors.CylindersIsRegex | cars.py:92-96 | the scanner returns exactly `re.search('(\d{1,2})', s).group(1)` in the regex model |
| Extractors.ExtractEngineConfig | cars.py:105-113 | None exactly when the text is all digits. Otherwise the first character that is not a digit |
| Extractors.EngineConfigIsRegex | cars.py:107-111 | the scanner returns exactly `re.search('(\D{1})', s).group(1)` in the regex model |
| Extractors.ExtractPower | cars.py:118-126 | None exactly when the text has no digit. Otherwise the leftmost run of digits, cut after four |
| Extractors.PowerIsRegex | cars.py:120-124 | the scanner returns exactly `re.search('(\d{1,4})', s).group(1)` in the regex model |
| Extractors.DigitRunIsRegex | cars.py:92 | the leftmost digit run cut at a cap is the regex engine's leftmost match of `\d{1,cap}` |
| Extractors.PowerExample | cars.py:128 | "450 @ 6000 RPM" gives "450" |
| Extractors.EngineCodeFields | cars.py:100-115 | on any extracted engine code, the configuration is its family letter and the cylinders are its trailing digits, so neither later `dropna` drops a row |
| Extractors.FlatSixFields | cars.py:100-114 | "f6" gives cylinders "6" and configuration "f" |
| Extractors.Extract | cars.py:63-64 | `apply` of an extractor to a cell: a NaN cell gives None, as the `except` clause does. A result has the shape its extractor promises (digits for cylinders and power, an engine code, a displacement shape, one non-digit letter) |
| Regex.SearchFrom | cars.py:92 | the reported match starts at the leftmost position where the pattern matches, and None means no position matches |
| Text.ContainsIff | cars.py:16 | substring search finds the word exactly when it occurs at some position |
| Text.Lower | cars.py:72 | lower-casing keeps the length, lower-cases each character in place and leaves no upper-case letter |
| Text.ReplaceIsSplitJoin | cars.py:74-80 | `s.replace(pat, rep)` equals `rep.join(s.split(pat))`: occurrences are found leftmost first, never overlap, and every one is replaced |
| Text.FindLeftmost | cars.py:74 | `s.find(pat, i)` reports an occurrence at or after `i` with none before it, and reports none exactly when there is none from `i` on |
| Text.FindIsContains | cars.py:74 | `s.find(pat)` reports no occurrence exactly when the substring test fails |
| Text.ReplaceAbsent | cars.py:74 | text with no occurrence of the pattern is left as it is |
| Text.ReplaceWithoutFirstChar | cars.py:74 | text without the pattern's first character is left as it is |
| Text.ReplaceLeading | cars.py:74 | an occurrence at the front, with no further start of the pattern, is replaced and the rest kept |
| Text.ReplaceShrinks | cars.py:74-80 | a replacement no longer than its pattern, as all five in the source are, never lengthens the text |
| Text.ReplaceCharAppend | cars.py:78-80 | a one-character replacement distributes over concatenation |
| Text.ReplaceCharSingle | cars.py:78-80 | a one-character replacement on one character gives the replacement or the character |
| Text.ReplaceCharDigits | cars.py:78-80 | replacing a non-digit character leaves a digit string unchanged |
| Frames.Reshape | cars.py:6-10 | the columns are "Vehicle" and then the attribute names. There is one row per vehicle holding its name, and every input cell sits at its transposed place |
| Frames.ReshapeRoundTrip | cars.py:7-10 | transposing back gives the input: the reshape loses nothing |
| Frames.DropSparseColumns | cars.py:13 | a ZeroDivisionError exactly when the frame has columns but no rows. Otherwise the kept columns are exactly those with `5 * missing < rows`, in their order, and every row keeps its cells in those columns and loses the others |
| Frames.DenseEnoughIsFraction | cars.py:13 | on a non-empty frame the integer test is `missing / rows < 0.2` in exact arithmetic |
| Frames.DropElectric | cars.py:16 | a KeyError exactly when "Engine Type" is missing. Otherwise the same columns, and the kept rows, in order, are exactly those whose engine type does not contain "electric" in any case; NaN counts as no match. Each kept row keeps its multiplicity |
| Frames.Select | cars.py:19-52 | a KeyError exactly when a listed column is missing, naming exactly the missing ones. Otherwise exactly the listed columns, in list order, with every row's cells unchanged |
| Frames.Assign | cars.py:65 | the new column holds the extractor applied to the source cell of the same row. Every other cell is unchanged, and so is the row count |
| Frames.DropNa | cars.py:66 | the kept rows, in order, are exactly those with a value in every named column, each kept as often as it occurs in the input; never more rows than before; the columns are unchanged |
| Frames.ApplyFilters | cars.py:16 | a filtering stage keeps exactly the rows that pass, as a subsequence |
| Frames.FilterCounts | cars.py:16 | a filtering stage keeps every copy of a passing row and no copy of a failing one: counts match the input exactly for passing rows and are zero otherwise |
| Frames.SubseqFacts | cars.py:66 | a subsequence is no longer than the sequence and holds only its elements |
| Frames.ApplyRowwise | cars.py:52 | a projecting or assigning stage keeps the row count and rewrites each row on its own |
| Frames.CollectStep | cars.py:65-66 | running one more stage over the whole frame equals taking each row through all the stages so far and then that one |
| Script.Number | cars.py:102 | `pd.to_numeric` of one to four digits is below 10, 100, 1000 or 10000 by length |
| Script.NumberDigits | cars.py:102 | reading back the decimal digits of any natural number gives that number |
| Script.DigitsNumber | cars.py:102 | printing the value of a digit string without leading zeros gives the string back, so distinct such strings read as distinct numbers |
| Script.NumberLeadingZeros | cars.py:132-133 | leading zeros do not change the value: "0450" reads as 450 |
| Script.PutThenDrop | cars.py:65-66 | an `apply` into a new column followed by `dropna` on it keeps a row exactly when the extraction succeeds, holding the extracted value |
| Script.FrontStages | cars.py:65-87 | the displacement and engine-type cells keep a row exactly when both extractions succeed |
| Script.MiddleStages | cars.py:100-115 | the cylinder and configuration cells, both read from the engine code, keep a row exactly when both succeed |
| Script.PowerStages | cars.py:128-130 | horsepower and torque are extracted, then one `dropna` over both |
| Script.BackStages | cars.py:100-130 | the last seven stages keep a row exactly when all four of their extractions succeed |
| Script.StagesRow | cars.py:65-130 | whatever the extractors compute, the eleven extraction stages keep a row exactly when every extraction succeeds, and the row then holds all six extracted values |
| Script.ExtractionRow | cars.py:65-133 | a row that survives the extraction stages exports as the reference engine line of that row, and a row that does not has no reference line |
| Script.FrontRow | cars.py:13-52 | the NA projection, the electric filter and the column selection drop exactly the electric rows and restrict the rest to the listed columns |
| Script.ScriptRow | cars.py:13-133 | any input row, taken through every stage after the reshape, is dropped exactly when it is electric or lacks an engine line, and otherwise exports as its engine line |
| Script.ScriptAgrees | cars.py:13-133 | every vehicle of the input agrees with the reference when taken through the script's stages |
| Script.Export | cars.py:136 | one line per row, in row order; each field is the cell of the column of the same name among the seven exported, the numeric ones read as numbers |
| Script.ExportFrom | cars.py:136 | the rows the stages leave are all exportable, and their export is the reference table, vehicle by vehicle |
| Script.ExtractShapesEngines | cars.py:65-133 | every engine line has an engine code, its family letter as configuration, fewer than 100 cylinders, a displacement shape, and horsepower and torque below 10000 |
| Script.LineShaped | cars.py:136 | a vehicle contributes at most one line, naming that vehicle |
| Script.ExpectedFromShaped | cars.py:136 | from any vehicle on: at most one line per vehicle, each shaped as above and naming one of those vehicles |
| Script.ExpectedShaped | cars.py:136 | the exported table has at most one line per input vehicle, and each line is shaped as above and names an input vehicle |
| Script.ExtractColumn | cars.py:86-87 | one extraction cell on the frame (`apply` into a new column, then `dropna` on it) takes the rows exactly one `Put` and one `Complete` further |
| Script.ExtractPowerColumns | cars.py:128-130 | the horsepower and torque cell takes the rows through its two `Put`s and the shared `dropna` |
| Script.DropElectricStage | cars.py:16 | the electric filter as a stage: a KeyError exactly when "Engine Type" is missing, otherwise the rows one `NotElectric` further |
| Script.SelectStage | cars.py:52 | the column selection as a stage: a KeyError exactly when a listed column is missing, otherwise the listed columns and the rows one projection further |
| Script.KeptColumns | cars.py:13 | with vehicles, exactly the reshaped columns that pass the NA test; none when the filter stops on an empty frame |
| Script.Narrow | cars.py:16-52 | after the NA filter: a KeyError exactly when a listed column is not among the frame's columns, otherwise the listed columns and the rows through the electric filter and the selection |
| Script.Clean | cars.py:6-52 | reshape, NA filter, electric filter and selection. A ZeroDivisionError exactly when there are no vehicles; otherwise a KeyError exactly when a listed column did not survive the NA filter, and else the listed columns and the vehicle rows through those three stages |
| Script.RunScript | cars.py:6-136 | the whole script: a ZeroDivisionError exactly when there are no vehicles, a KeyError exactly when one of the 28 kept columns did not survive the NA filter, and otherwise exactly the reference table `Expected(w)` |

## Left out

- Reading `fullspecs.csv` and writing `engine.csv` (cars.py:6, 136): the input is a `Wide` value and the output a sequence of `Engine` values. The row-index column that `to_csv` writes is not part of the output.
- The `print` of cars.py:61: output only, with no effect on the table.
- Script.RunScript: does not model `pd.to_numeric` of the displacement column (cars.py:67). That is a float conversion, and it raises ValueError when an extracted displacement is not a number (for instance "5x7", which the unescaped dot lets through). The model returns the extracted text, where the script would stop.
- Script.Number: models `pd.to_numeric` only on digit strings, which is all the cylinder, horsepower and torque extractors produce. Its int64 result type is not modelled.
- Frames.Reshape: requires the attribute labels to be distinct and different from "Vehicle" and "index". With duplicate labels pandas builds duplicate columns, and the model does not represent those.
- Every non-missing cell is a string. Cells that pandas would hold as numbers or other objects are not modelled.
- Input text is taken to be ASCII. `str.lower` and `case=False` are ASCII-only here, so Unicode case folding is not modelled. In Python's `re` on `str` patterns, `\d` matches any Unicode decimal digit (for instance "٣") and `\D` excludes them all; the model's `\d` is `0`-`9` only. The IGNORECASE matching of character classes against non-ASCII letters (for instance `i` and `ı`) is not modelled either.
- The analysis half of the file (from cars.py:139): plotting, the least-squares trend fits, the ratio columns and the top-25 listings. It reads the exported file back and computes floating-point statistics for display only.
