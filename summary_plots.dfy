/** The log scanner of `SummaryPlots` (utils/summary_plots.py): it walks the
    lines of a training run's console log and collects, for every
    "*** Training summary", "*** Validation summary" and
    "*** Validation (Ema) summary" marker line, a record
    (epoch, loss, top1, top5, lr) into one of three ordered tables.

    The file is given as `fileExists` and the list `readlines()` returns
    (every line but possibly the last ends in "\n"). A Python exception
    raised while scanning is a `Failure`, which leaves no partial tables. */
module SummaryPlots {
  import opened Wrappers
  import opened PyStr
  import opened PyNum

  /** The exceptions the scan can raise: `IndexError` from a missing split
      piece, `ValueError` from `int()`/`float()` on the given text. */
  datatype ScanError = IndexError | ValueError(text: string)

  /** One row `(epoch, loss, top1, top5, lr)`. */
  datatype MetricRecord = MetricRecord(epoch: int, loss: real, top1: real, top5: real, lr: real)

  datatype Category = Training | Validation | ValidationEma

  /** The three lists `train_epoch_loss_top1_top5`, `val_epoch_loss_top1_top5`
      and `valema_epoch_loss_top1_top5`. */
  datatype Tables = Tables(train: seq<MetricRecord>, val: seq<MetricRecord>, valEma: seq<MetricRecord>)
  {
    function Series(c: Category): seq<MetricRecord>
    {
      match c
      case Training => train
      case Validation => val
      case ValidationEma => valEma
    }

    /** `list.append` on the table of category `c`. */
    function Append(c: Category, rec: MetricRecord): (t: Tables)
      ensures t.Series(c) == Series(c) + [rec]
      ensures forall d :: d != c ==> t.Series(d) == Series(d)
    {
      match c
      case Training => Tables(train + [rec], val, valEma)
      case Validation => Tables(train, val + [rec], valEma)
      case ValidationEma => Tables(train, val, valEma + [rec])
    }

    function Size(): nat
    {
      |train| + |val| + |valEma|
    }
  }

  const NoTables := Tables([], [], [])

  const TrainingMarker := "*** Training summary"
  const ValidationMarker := "*** Validation summary"
  const ValidationEmaMarker := "*** Validation (Ema) summary"
  const LrMarker := "LR: ["

  function Marker(c: Category): string
  {
    match c
    case Training => TrainingMarker
    case Validation => ValidationMarker
    case ValidationEma => ValidationEmaMarker
  }

  /** The order in which the markers are tried: a lower rank wins. */
  function Rank(c: Category): nat
  {
    match c
    case Training => 0
    case Validation => 1
    case ValidationEma => 2
  }

  /** The `if`/`elif` chain: the category of the highest-priority marker the
      line contains, or `None` when it contains none. */
  function Classify(line: string): Option<Category>
  {
    if Contains(line, TrainingMarker) then Some(Training)
    else if Contains(line, ValidationMarker) then Some(Validation)
    else if Contains(line, ValidationEmaMarker) then Some(ValidationEma)
    else None
  }

  function FloatOf(text: string): Result<real, ScanError>
  {
    match ParseFloat(text)
    case Some(v) => Success(v)
    case None => Failure(ValueError(text))
  }

  /** `int(line.split(" ")[-1])`: the epoch is the text after the last
      space of the marker line. */
  function ParseEpoch(line: string): Result<int, ScanError>
  {
    var token := Last(Split(line, " "));
    match ParseInt(token)
    case Some(n) => Success(n)
    case None => Failure(ValueError(token))
  }

  /** `parse_values_in_summary_line`: split on "="; loss is the second piece
      up to its first "||", top1 the third piece up to its first "||", top5
      the whole last piece. */
  function ParseSummaryValues(line: string): Result<(real, real, real), ScanError>
  {
    var parts := Split(line, "=");
    if |parts| < 2 then Failure(IndexError)
    else
      var loss :- FloatOf(Split(parts[1], "||")[0]);
      if |parts| < 3 then Failure(IndexError)
      else
        var top1 :- FloatOf(Split(parts[2], "||")[0]);
        var top5 :- FloatOf(Last(parts));
        Success((loss, top1, top5))
  }

  /** `parse_lr_values`: the text between the first "LR: [" and the next
      "," (or the next "LR: [", or the end of the line), as a float. */
  function ParseLr(line: string): Result<real, ScanError>
  {
    var parts := Split(line, LrMarker);
    if |parts| < 2 then Failure(IndexError)
    else FloatOf(Split(parts[1], ",")[0])
  }

  /** The record for a marker line, built from the marker line itself, the
      line after it and the line before it, with the conversions done in the
      source's order: epoch, then loss/top1/top5, then lr. */
  function ParseRecord(line: string, nextLine: string, prevLine: string): Result<MetricRecord, ScanError>
  {
    var epoch :- ParseEpoch(line);
    var values :- ParseSummaryValues(nextLine);
    var lr :- ParseLr(prevLine);
    Success(MetricRecord(epoch, values.0, values.1, values.2, lr))
  }

  /** `lines[line_num - 1]`: Python's negative index makes the line before
      line 0 the last line of the file. */
  function PrevLine(lines: seq<string>, i: nat): (r: string)
    requires i < |lines|
    ensures r == lines[if i == 0 then |lines| - 1 else i - 1]
  {
    PyIndex(lines, i - 1).value
  }

  /** The record built for line `i`. */
  function RecordAt(lines: seq<string>, i: nat): Result<MetricRecord, ScanError>
    requires i + 1 < |lines|
  {
    ParseRecord(lines[i], lines[i + 1], PrevLine(lines, i))
  }

  // ---------------------------------------------------------------------
  // What the line parsers promise

  /** The `if`/`elif` chain picks the highest-priority marker the line
      contains, and a line that contains no marker is no record. */
  lemma ClassifyPriority(line: string)
    ensures Classify(line).Some? ==> Contains(line, Marker(Classify(line).value))
    ensures Classify(line).Some? ==>
      forall d :: Rank(d) < Rank(Classify(line).value) ==> !Contains(line, Marker(d))
    ensures Classify(line).None? <==> forall d :: !Contains(line, Marker(d))
  {
  }

  /** The epoch is `int()` of the text after the last space: for a line
      `x + " " + y` with no space in `y`, reading the epoch succeeds exactly
      when `int(y)` does, with its value, and otherwise raises ValueError
      carrying `y` (`[-1]` never raises). */
  lemma ParseEpochLastPiece(x: string, y: string)
    requires NoChar(y, ' ')
    ensures ParseEpoch(x + " " + y).Success? <==> ParseInt(y).Some?
    ensures ParseEpoch(x + " " + y).Success? ==> ParseInt(y) == Some(ParseEpoch(x + " " + y).value)
    ensures ParseEpoch(x + " " + y).Failure? ==> ParseEpoch(x + " " + y).error == ValueError(y)
  {
    SplitCharLast(x, ' ', y);
  }

  /** A line without a space is one piece: the epoch is `int()` of the
      whole line, and a failure carries the whole line. */
  lemma ParseEpochNoSpace(line: string)
    requires NoChar(line, ' ')
    ensures ParseEpoch(line).Success? <==> ParseInt(line).Some?
    ensures ParseEpoch(line).Success? ==> ParseInt(line) == Some(ParseEpoch(line).value)
    ensures ParseEpoch(line).Failure? ==> ParseEpoch(line).error == ValueError(line)
  {
    SplitNoChar(line, " ");
  }

  /** A metrics line with no "=" raises IndexError; one with fewer than two
      raises; and IndexError means fewer than two "=". */
  lemma SummaryValuesNeedTwoEquals(line: string)
    ensures CountOf(line, '=') == 0 ==> ParseSummaryValues(line) == Failure(IndexError)
    ensures CountOf(line, '=') < 2 ==> ParseSummaryValues(line).Failure?
    ensures ParseSummaryValues(line) == Failure(IndexError) ==> CountOf(line, '=') < 2
  {
    SplitCharCount(line, '=');
  }

  /** `parse_lr_values` raises IndexError exactly when "LR: [" is absent. */
  lemma ParseLrNeedsMarker(line: string)
    ensures ParseLr(line) == Failure(IndexError) <==> !Contains(line, LrMarker)
  {
    SplitLengthContains(line, LrMarker);
  }

  /** A record is built exactly when all three conversions succeed; its
      fields are their results; otherwise the error is that of the first
      conversion to fail in source order (epoch, values, lr). */
  lemma ParseRecordSpec(line: string, nextLine: string, prevLine: string)
    ensures ParseRecord(line, nextLine, prevLine).Success? <==>
      ParseEpoch(line).Success? && ParseSummaryValues(nextLine).Success? && ParseLr(prevLine).Success?
    ensures ParseRecord(line, nextLine, prevLine).Success? ==>
      var r := ParseRecord(line, nextLine, prevLine).value;
      && ParseEpoch(line) == Success(r.epoch)
      && ParseSummaryValues(nextLine) == Success((r.loss, r.top1, r.top5))
      && ParseLr(prevLine) == Success(r.lr)
    ensures ParseRecord(line, nextLine, prevLine).Failure? ==>
      var e := ParseRecord(line, nextLine, prevLine).error;
      if ParseEpoch(line).Failure? then e == ParseEpoch(line).error
      else if ParseSummaryValues(nextLine).Failure? then e == ParseSummaryValues(nextLine).error
      else e == ParseLr(prevLine).error
  {
  }

  // ---------------------------------------------------------------------
  // The scan as a function of the lines: the specification of the loop.

  /** What the iteration at one line amounts to: nothing (the last line, or
      a line without a marker), or the record built for a marker of
      category `category` (or the error building it raised). */
  datatype LineOutcome = Plain | MarkerRecord(category: Category, record: Result<MetricRecord, ScanError>)

  /** The outcome of the iteration at line `i`. */
  function Outcome(lines: seq<string>, i: nat): LineOutcome
    requires i < |lines|
  {
    if i + 1 < |lines| then
      match Classify(lines[i])
      case None => Plain
      case Some(c) => MarkerRecord(c, RecordAt(lines, i))
    else Plain
  }

  /** Applying one outcome to the tables: append the record to its table,
      or raise. */
  function Step(acc: Tables, o: LineOutcome): Result<Tables, ScanError>
  {
    match o
    case Plain => Success(acc)
    case MarkerRecord(c, r) =>
      var rec :- r;
      Success(acc.Append(c, rec))
  }

  /** The outcomes of all lines, in order. */
  function Outcomes(lines: seq<string>): (outs: seq<LineOutcome>)
    ensures |outs| == |lines|
  {
    seq(|lines|, i requires 0 <= i < |lines| => Outcome(lines, i))
  }

  /** The tables after applying the first `k` outcomes, or the first error. */
  function Replay(outs: seq<LineOutcome>, k: nat): Result<Tables, ScanError>
    requires k <= |outs|
  {
    if k == 0 then Success(NoTables)
    else
      var acc :- Replay(outs, k - 1);
      Step(acc, outs[k - 1])
  }

  /** What `gen_loss_top1_top5` returns: three empty tables when the file is
      missing, otherwise the tables after every line. */
  function Scan(fileExists: bool, lines: seq<string>): Result<Tables, ScanError>
  {
    if fileExists then Replay(Outcomes(lines), |lines|) else Success(NoTables)
  }

  /** Once an outcome has raised, the scan as a whole raises that error. */
  lemma {:induction false} FailurePersists(outs: seq<LineOutcome>, k: nat, n: nat)
    requires k <= n <= |outs| && Replay(outs, k).Failure?
    ensures Replay(outs, n) == Replay(outs, k)
    decreases n - k
  {
    if k < n {
      FailurePersists(outs, k, n - 1);
    }
  }

  /** `gen_loss_top1_top5`: the `for` loop over `enumerate(lines)` that
      appends to the three lists in place; an exception in any iteration
      ends the scan with that exception. */
  method GenLossTop1Top5(fileExists: bool, lines: seq<string>) returns (result: Result<Tables, ScanError>)
    ensures result == Scan(fileExists, lines)
    ensures !fileExists ==> result == Success(NoTables)
  {
    var train: seq<MetricRecord> := [];
    var val: seq<MetricRecord> := [];
    var valEma: seq<MetricRecord> := [];
    if fileExists {
      ghost var outs := Outcomes(lines);
      var totalLines := |lines|;
      for lineNum := 0 to |lines|
        invariant Replay(outs, lineNum) == Success(Tables(train, val, valEma))
      {
        assert outs[lineNum] == Outcome(lines, lineNum);
        if lineNum + 1 < totalLines {
          var prevLine := PyIndex(lines, lineNum - 1).value;
          var nextLine := lines[lineNum + 1];
          var line := lines[lineNum];
          var category := Classify(line);
          if category.Some? {
            var rec := ParseRecord(line, nextLine, prevLine);
            assert outs[lineNum] == MarkerRecord(category.value, rec);
            if rec.Failure? {
              FailurePersists(outs, lineNum + 1, |lines|);
              return Failure(rec.error);
            }
            match category.value
            case Training => train := train + [rec.value];
            case Validation => val := val + [rec.value];
            case ValidationEma => valEma := valEma + [rec.value];
          }
        }
      }
    }
    result := Success(Tables(train, val, valEma));
  }
}
