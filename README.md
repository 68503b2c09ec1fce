# SummaryPlots log scanner, in Dafny

`SummaryPlots` (utils/summary_plots.py) reads the console log of a training
run and collects, for every "*** Training summary", "*** Validation summary"
and "*** Validation (Ema) summary" marker line, a record
`(epoch, loss, top1, top5, lr)`:

- the epoch is the integer after the marker line's last space;
- loss, top1 and top5 come from the metrics line that follows,
  `loss=<f> || top1=<f> || top5=<f>`;
- lr is the first learning rate of the line before, the text between
  "LR: [" and the next comma.

The records go into three tables, one per category, in file order. The
chart files are written next to the log, with its extension replaced by
"_loss.png", "_top1.png" or "_top5.png".

The project has these modules:

- `Wrappers` holds `Option` and `Result`.
- `PyStr` models the Python string operations the scanner relies on:
  `str.split`, the `[-1]` index and the `in` test. It also models the
  whitespace `int()` and `float()` remove around their argument.
- `PyNum` models `int()` and `float()` on decimal text. Values are exact
  (`int`, `real`). `Fixed` is a decimal as a training run prints it, with
  its text and its value.
- `SummaryPlots` holds:
  - the line classifier (the `if`/`elif` chain);
  - the three line parsers, where a Python exception is a `Failure` carrying
    `IndexError` or `ValueError`;
  - the scan as a function of the lines (`Scan`, a replay of one
    `LineOutcome` per line);
  - the imperative loop `GenLossTop1Top5`, which is proved equal to `Scan`.
- `ScanProperties` states what the tables are against an independent
  description: the marker lines of each category, in order, and the
  record each of them yields.
- `LogFormat` gives the text of the three kinds of line a run prints, with
  a round trip for each parser and a proof that only marker lines are
  classified as markers.
- `WrittenLog` proves that scanning a log made of learning-rate, marker and
  metrics lines gives back exactly the entries written, each in its table
  and in order.
- `OutputPaths` models `os.path.splitext` and the three chart paths.

The file system is a parameter. `os.path.exists` is the boolean
`fileExists`, and the file's contents are the list of lines `readlines()`
returns.

A malformed metrics line fails when it has fewer than three `=`-separated
pieces, and this model follows the code's exceptions. The exception for a
missing piece is `IndexError`. The exception for text that is not a number
is `ValueError`. `[-1]` never raises. Text after the last `=` is the top5
value as a whole, so a metrics line with extra `=` pieces still parses.

## Model

| member | source | states |
|---|---|---|
| SummaryPlots.Tables.Append | utils/summary_plots.py:64-74 | appending to one category's list adds the record at its end and leaves the other two lists as they were |
| SummaryPlots.PrevLine | utils/summary_plots.py:58 | the line before line 0 is the last line of the file (Python's negative index), otherwise it is line i-1 |
| SummaryPlots.ClassifyPriority | utils/summary_plots.py:60-76 | a line is classified by the first marker it contains, in the order training, validation, validation (ema); every marker of higher priority is absent; a line is skipped exactly when it contains no marker |
| SummaryPlots.ParseEpochLastPiece | utils/summary_plots.py:61 | for a line `x + " " + y` with no space in `y`, reading the epoch succeeds exactly when `int(y)` does, giving its value; otherwise it raises ValueError carrying `y`, never IndexError |
| SummaryPlots.ParseEpochNoSpace | utils/summary_plots.py:61 | for a line without a space, reading the epoch is `int()` of the whole line, and a failure carries the whole line |
| SummaryPlots.SummaryValuesNeedTwoEquals | utils/summary_plots.py:29-37 | a metrics line without "=" raises IndexError; one with fewer than two "=" always fails; IndexError happens only with fewer than two "=" |
| SummaryPlots.ParseLrNeedsMarker | utils/summary_plots.py:39-44 | reading the learning rate raises IndexError exactly when the line lacks "LR: [" |
| SummaryPlots.ParseRecordSpec | utils/summary_plots.py:61-63 | a record is built exactly when the epoch, metrics and learning-rate conversions all succeed; its fields are their results; otherwise the error is the first failure in source order |
| SummaryPlots.FailurePersists | utils/summary_plots.py:56-76 | an exception raised at one line is the scan's result, whatever lines follow |
| SummaryPlots.GenLossTop1Top5 | utils/summary_plots.py:46-78 | the loop over the lines returns exactly the scan's result; a missing file gives three empty tables |
| ScanProperties.MarkerIndices | utils/summary_plots.py:56-60 | the positions of one category's marker outcomes, strictly ascending, and every such position is listed |
| ScanProperties.MarkerLines | utils/summary_plots.py:56-60 | the inspected lines (all but the last) classified as a category, strictly ascending, and all of them |
| ScanProperties.ReplayBuilt | utils/summary_plots.py:56-76 | the loop succeeds exactly when every marker outcome carries a record |
| ScanProperties.ReplayLists | utils/summary_plots.py:64-74 | after the loop, each table lists the records of its category's marker outcomes, in order |
| ScanProperties.ReplayFirstFailure | utils/summary_plots.py:56-76 | a failed loop reports the error of the first marker outcome without a record |
| ScanProperties.ReplaySize | utils/summary_plots.py:64-74 | the tables together hold one record per marker outcome |
| ScanProperties.ScanReference | utils/summary_plots.py:46-78 | the scan succeeds exactly when every inspected marker line yields a record; each table then holds the records of its category's marker lines, in file order |
| ScanProperties.ScanFirstFailure | utils/summary_plots.py:56-76 | a failing scan raises the error of the first marker line whose record cannot be built, and every earlier marker line yields one |
| ScanProperties.ScanEmptyCases | utils/summary_plots.py:50-57 | a missing file, or a file of at most one line, gives three empty tables |
| ScanProperties.ScanCountsMarkers | utils/summary_plots.py:56-76 | the number of records equals the number of marker lines among all lines but the last |
| ScanProperties.ScanKeepsLineOrder | utils/summary_plots.py:56-76 | two marker lines of one category have their records in the same relative order in that category's table |
| ScanProperties.ScanRecordSources | utils/summary_plots.py:58-64 | every record comes from one marker line of its category: the epoch from that line, the metrics from the next line, lr from the previous line (the last line for line 0) |
| ScanProperties.FirstLineMarkerReadsLastLine | utils/summary_plots.py:58 | a marker on the first line takes its learning rate from the last line of the file |
| ScanProperties.MalformedNeighbourFails | utils/summary_plots.py:61-63 | a bad epoch, metrics line or learning-rate line next to any inspected marker makes the whole scan fail |
| LogFormat.MarkerLineClassified | utils/summary_plots.py:60-70 | a line holding one marker, and no other '*', is classified as that marker's category |
| LogFormat.EpochRoundTrip | utils/summary_plots.py:61 | the epoch written after a line's last space, followed by whitespace other than a space (or nothing), is read back |
| LogFormat.MarkerLineRoundTrip | utils/summary_plots.py:60-71 | a marker line, with any '*'-free text before the marker (a time stamp, a logger name) and between the marker and the epoch, and any line end without a space (including none), is classified as its category and yields its epoch |
| LogFormat.SummaryLineRoundTrip | utils/summary_plots.py:29-37 | the metrics line printed for three decimals gives back their values, whatever '='-free text precedes it and whatever whitespace ends it (including none) |
| LogFormat.SummaryLineNoMarker | utils/summary_plots.py:60-76 | a metrics line with no '*' before it is never taken for a marker line |
| LogFormat.LrLineRoundTrip | utils/summary_plots.py:39-44 | the first learning rate of a list of two or more is read back, whatever precedes the list provided it holds no earlier "LR: [", and whatever follows the first comma |
| LogFormat.LrSingleValueFails | utils/summary_plots.py:39-44 | a list holding a single learning rate has no comma, so `float()` gets the decimal with its "]" and raises ValueError on that text |
| LogFormat.LrLineNoMarker | utils/summary_plots.py:60-76 | a learning-rate line without '*' is never taken for a marker line |
| WrittenLog.LogScan | utils/summary_plots.py:46-78 | scanning a log of learning-rate, marker and metrics lines returns the entries written: each table holds its category's records, in the order written |
| PyStr.SplitJoin | utils/summary_plots.py:32 | the pieces of `str.split`, joined with the separator, give back the string |
| PyStr.SplitLengthContains | utils/summary_plots.py:40-41 | splitting gives at least two pieces exactly when the separator occurs |
| PyStr.SplitCharCount | utils/summary_plots.py:32-34 | splitting on one character gives one piece more than its occurrences |
| PyStr.SplitCharLast | utils/summary_plots.py:61 | the last piece of a split on one character is the text after its last occurrence |
| PyNum.ParseIntText | utils/summary_plots.py:61 | `int()` reads back a written integer with surrounding whitespace |
| PyNum.ParseFloatFixed | utils/summary_plots.py:33-35 | `float()` reads back a written decimal with surrounding whitespace |
| PyNum.ParseIntTrailing | utils/summary_plots.py:61 | `int()` rejects any integer's text followed by a character that is neither a digit nor whitespace, whatever whitespace follows |
| PyNum.ParseFloatTrailing | utils/summary_plots.py:33-35 | `float()` rejects any decimal's text followed by a character that is neither a digit, a point, an exponent mark nor whitespace (such as "]"), whatever whitespace follows |
| PyNum.SeparatorsNotStripped | utils/summary_plots.py:33-35 | `int()` and `float()` do not strip the separators '\x1c' to '\x1f': any integer or decimal followed by one of them, and then by whitespace, converts to nothing |
| OutputPaths.SplitExtSpec | utils/summary_plots.py:81 | root and extension put back together give the path; the extension is empty or a dot with no later dot or separator; a non-dot character precedes it in its path component |
| OutputPaths.SplitExtOf | utils/summary_plots.py:81 | a path ending in name.ext loses exactly ".ext" |
| OutputPaths.DotNameHasNoExt | utils/summary_plots.py:81 | a file name made of one leading dot and a dot-free name keeps its whole name, alone (".bashrc") or after a directory |
| OutputPaths.PlotPathsDistinct | utils/summary_plots.py:81-120 | the three chart paths are the log's root plus "_loss.png", "_top1.png" and "_top5.png"; they differ from each other and from the log's path |

## Left out

- The charts (utils/summary_plots.py:80-141) are left out. matplotlib is foreign code, so only their output paths are modelled.
- The command line entry point `main` (utils/summary_plots.py:145-172) is left out: argument handling and printing.
- File I/O is a parameter. `os.path.exists` is the boolean `fileExists`, and `open`/`readlines` give the list of lines. The "Input file does not exists." message is not modelled.
- `np.array` (utils/summary_plots.py:78) is left out: the tables are returned as sequences of records.
- SummaryPlots.GenLossTop1Top5: the three `if`/`elif` branches share one body in the source. The method runs that body once and appends by category.
- PyNum.ParseFloat: values are exact reals, not IEEE doubles. Rounding is not modelled.
- PyNum.ParseFloat does not accept "inf", "nan", underscores or non-ASCII digits.
- PyNum.ParseInt does not accept underscores or non-ASCII digits.
- PyNum.ParseInt does not model the interpreter's limit on the length of a decimal string (`sys.int_max_str_digits`, 4300 digits by default in current Python). So it and PyNum.ParseIntText accept integers of more digits, where `int()` raises ValueError.
- PyStr.IsSpace covers the whitespace `int()` and `float()` strip among the first 256 code points. That is the ASCII spaces, NEL and NO-BREAK SPACE. The Unicode spaces above U+00FF, which they also strip, are not modelled.
- OutputPaths.SplitExt takes the path separators as a parameter rather than the platform's `os.sep`/`os.altsep`.
- WrittenLog.LogScan covers only logs made of three-line blocks. A line between blocks, or an LR line with a single learning rate, is not covered: LogFormat.LrSingleValueFails shows that the latter makes the scan fail.
