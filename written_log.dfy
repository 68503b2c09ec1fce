/** A log written the way the scanner expects it: for every summary, the
    learning-rate line, the marker line and the metrics line, in that
    order. Scanning such a log gives back exactly the entries written, each
    in the table of its category and in the order written. */
module WrittenLog {
  import opened Wrappers
  import opened PyStr
  import opened PyNum
  import opened SummaryPlots
  import opened LogFormat
  import opened ScanProperties

  /** One summary as the training run prints it: the text around the first
      learning rate of the LR line; the text before the marker, the marker's
      category, the text after the marker, the epoch and the marker line's
      end; the text before the
      metrics, the three metrics and the metrics line's end. */
  datatype Entry = Entry(
    lrPrefix: string, lr: Fixed, lrRest: string,
    markerHead: string, category: Category, markerMid: string, epoch: int, markerEol: string,
    metricsPrefix: string, loss: Fixed, top1: Fixed, top5: Fixed, metricsEol: string)

  /** The decimals are well formed, the LR line holds no '*', no "LR: ["
      comes before the one that opens the list, and the marker and metrics
      lines hold what `MarkerLineParts` and `SummaryLineParts` allow. */
  predicate ValidEntry(e: Entry)
  {
    && ValidFixed(e.lr) && ValidFixed(e.loss) && ValidFixed(e.top1) && ValidFixed(e.top5)
    && NoChar(e.lrPrefix, '*') && NoChar(e.lrRest, '*') && !Contains(e.lrPrefix, LrMarker)
    && MarkerLineParts(e.markerHead, e.markerMid, e.markerEol)
    && SummaryLineParts(e.metricsPrefix, e.metricsEol)
  }

  function MarkerLineOf(e: Entry): string
  {
    MarkerLineText(e.markerHead, e.category, e.markerMid, e.epoch, e.markerEol)
  }

  function SummaryLineOf(e: Entry): string
  {
    SummaryLineText(e.metricsPrefix, e.loss, e.top1, e.top5, e.metricsEol)
  }

  predicate AllValid(es: seq<Entry>)
  {
    forall k :: 0 <= k < |es| ==> ValidEntry(es[k])
  }

  /** The three lines printed for one summary. */
  function Block(e: Entry): seq<string>
  {
    [LrLineText(e.lrPrefix, e.lr, e.lrRest), MarkerLineOf(e), SummaryLineOf(e)]
  }

  /** The blocks laid end to end. */
  function Flatten(bs: seq<seq<string>>): seq<string>
  {
    if |bs| == 0 then [] else Flatten(bs[..|bs| - 1]) + bs[|bs| - 1]
  }

  predicate Triples(bs: seq<seq<string>>)
  {
    forall k :: 0 <= k < |bs| ==> |bs[k]| == 3
  }

  /** Flattening three-line blocks: line `3 * k + j` is line `j` of block
      `k`. */
  lemma {:induction false} FlattenIndex(bs: seq<seq<string>>, k: nat, j: nat)
    requires Triples(bs) && k < |bs| && j < 3
    ensures |Flatten(bs)| == 3 * |bs|
    ensures Flatten(bs)[3 * k + j] == bs[k][j]
    decreases |bs|
  {
    var init := bs[..|bs| - 1];
    assert init[..] == init;
    if k < |bs| - 1 {
      FlattenIndex(init, k, j);
      assert init[k] == bs[k];
    } else if |init| > 0 {
      FlattenIndex(init, 0, 0);
    }
  }

  /** The lines of a log holding the entries in order. */
  function Log(es: seq<Entry>): seq<string>
  {
    Flatten(seq(|es|, k requires 0 <= k < |es| => Block(es[k])))
  }

  /** Flattening three-line blocks: lines `3 * k` to `3 * k + 2` are block
      `k`. */
  lemma FlattenSlice(bs: seq<seq<string>>, k: nat)
    requires Triples(bs) && k < |bs|
    ensures |Flatten(bs)| == 3 * |bs|
    ensures Flatten(bs)[3 * k..3 * k + 3] == bs[k]
  {
    FlattenIndex(bs, k, 0);
    FlattenIndex(bs, k, 1);
    FlattenIndex(bs, k, 2);
  }

  /** Lines `3 * k` to `3 * k + 2` of a log are the block of entry `k`. */
  lemma LogSlice(es: seq<Entry>, k: nat)
    requires k < |es|
    ensures |Log(es)| == 3 * |es|
    ensures Log(es)[3 * k..3 * k + 3] == Block(es[k])
  {
    var bs := seq(|es|, k requires 0 <= k < |es| => Block(es[k]));
    FlattenSlice(bs, k);
  }

  /** The row the scanner should build for an entry. */
  function RecordOf(e: Entry): MetricRecord
    requires ValidEntry(e)
  {
    MetricRecord(e.epoch, FixedValue(e.loss), FixedValue(e.top1), FixedValue(e.top5), FixedValue(e.lr))
  }

  /** What a marker line contributes: a record for the table of a category. */
  datatype Row = Row(category: Category, record: MetricRecord)

  function RowOf(e: Entry): Row
    requires ValidEntry(e)
  {
    Row(e.category, RecordOf(e))
  }

  /** The rows of the entries, in order. */
  function Rows(es: seq<Entry>): (rows: seq<Row>)
    requires AllValid(es)
    ensures |rows| == |es|
    ensures forall k :: 0 <= k < |es| ==> rows[k] == RowOf(es[k])
  {
    seq(|es|, k requires 0 <= k < |es| => RowOf(es[k]))
  }

  /** The tables holding the rows, each appended to its category's table in
      order. */
  function TablesOf(rows: seq<Row>): Tables
  {
    if |rows| == 0 then NoTables
    else TablesOf(rows[..|rows| - 1]).Append(rows[|rows| - 1].category, rows[|rows| - 1].record)
  }

  /** The records of the rows of category `c`, in order. */
  function RecordsOf(rows: seq<Row>, c: Category): seq<MetricRecord>
  {
    if |rows| == 0 then []
    else RecordsOf(rows[..|rows| - 1], c) + (if rows[|rows| - 1].category == c then [rows[|rows| - 1].record] else [])
  }

  /** The table of category `c` holds exactly the rows of that category, in
      order. */
  lemma {:induction false} TablesOfSeries(rows: seq<Row>, c: Category)
    ensures TablesOf(rows).Series(c) == RecordsOf(rows, c)
    decreases |rows|
  {
    if |rows| > 0 {
      TablesOfSeries(rows[..|rows| - 1], c);
    }
  }

  /** The iteration at a marker line whose neighbours are its entry's LR and
      metrics lines appends that entry's row. */
  lemma MarkerOutcome(lines: seq<string>, i: nat, e: Entry)
    requires ValidEntry(e) && 0 < i && i + 1 < |lines|
    requires lines[i - 1] == LrLineText(e.lrPrefix, e.lr, e.lrRest)
    requires lines[i] == MarkerLineOf(e)
    requires lines[i + 1] == SummaryLineOf(e)
    ensures Outcome(lines, i) == MarkerRecord(e.category, Success(RecordOf(e)))
  {
    MarkerLineRoundTrip(e.markerHead, e.category, e.markerMid, e.epoch, e.markerEol);
    SummaryLineRoundTrip(e.metricsPrefix, e.loss, e.top1, e.top5, e.metricsEol);
    LrLineRoundTrip(e.lrPrefix, e.lr, e.lrRest);
  }

  /** The iteration at a line without a marker does nothing. */
  lemma PlainOutcome(lines: seq<string>, i: nat)
    requires i < |lines| && Classify(lines[i]).None?
    ensures Outcome(lines, i) == Plain
  {
  }

  /** What the scanner makes of the three lines written for a row. */
  function RowOutcomes(r: Row): seq<LineOutcome>
  {
    [Plain, MarkerRecord(r.category, Success(r.record)), Plain]
  }

  /** The outcomes of lines `3 * k` to `3 * k + 2`. */
  function OutcomeTriple(outs: seq<LineOutcome>, k: nat): seq<LineOutcome>
    requires 3 * k + 3 <= |outs|
  {
    outs[3 * k..3 * k + 3]
  }

  /** The outcomes are, block by block, those of the rows. */
  ghost predicate OutcomesOfRows(outs: seq<LineOutcome>, rows: seq<Row>)
  {
    && |outs| == 3 * |rows|
    && forall k :: 0 <= k < |rows| ==> OutcomeTriple(outs, k) == RowOutcomes(rows[k])
  }

  /** Replaying a block of outcomes (nothing, a record, nothing) appends the
      record. */
  lemma ReplayBlock(outs: seq<LineOutcome>, n: nat, acc: Tables, c: Category, rec: MetricRecord)
    requires n + 3 <= |outs| && Replay(outs, n) == Success(acc)
    requires outs[n..n + 3] == [Plain, MarkerRecord(c, Success(rec)), Plain]
    ensures Replay(outs, n + 3) == Success(acc.Append(c, rec))
  {
    assert outs[n] == outs[n..n + 3][0];
    assert outs[n + 1] == outs[n..n + 3][1];
    assert outs[n + 2] == outs[n..n + 3][2];
    assert Replay(outs, n + 1) == Success(acc);
    assert Replay(outs, n + 2) == Success(acc.Append(c, rec));
  }

  /** Replaying the blocks of the first `k` rows builds their tables. */
  lemma {:induction false} ReplayRows(outs: seq<LineOutcome>, rows: seq<Row>, k: nat)
    requires OutcomesOfRows(outs, rows) && k <= |rows|
    ensures Replay(outs, 3 * k) == Success(TablesOf(rows[..k]))
    decreases k
  {
    if k > 0 {
      var r := rows[k - 1];
      ReplayRows(outs, rows, k - 1);
      assert OutcomeTriple(outs, k - 1) == RowOutcomes(r);
      ReplayBlock(outs, 3 * (k - 1), TablesOf(rows[..k - 1]), r.category, r.record);
      assert rows[..k][..k - 1] == rows[..k - 1];
    }
  }

  /** Three lines written for an entry, with the marker not on the first
      line of the file, give that entry's outcomes. */
  lemma BlockAt(lines: seq<string>, n: nat, e: Entry)
    requires ValidEntry(e) && n + 3 <= |lines|
    requires lines[n] == LrLineText(e.lrPrefix, e.lr, e.lrRest)
    requires lines[n + 1] == MarkerLineOf(e)
    requires lines[n + 2] == SummaryLineOf(e)
    ensures Outcome(lines, n) == Plain
    ensures Outcome(lines, n + 1) == MarkerRecord(e.category, Success(RecordOf(e)))
    ensures Outcome(lines, n + 2) == Plain
  {
    LrLineNoMarker(e.lrPrefix, e.lr, e.lrRest);
    PlainOutcome(lines, n);
    MarkerOutcome(lines, n + 1, e);
    SummaryLineNoMarker(e.metricsPrefix, e.loss, e.top1, e.top5, e.metricsEol);
    PlainOutcome(lines, n + 2);
  }

  /** Three elements in a row from `n` are the slice from `n` of length
      three (stated for any sequence, so the slice is reasoned about once). */
  lemma SliceOfThree<T>(xs: seq<T>, n: nat, a: T, b: T, c: T)
    requires n + 3 <= |xs| && xs[n] == a && xs[n + 1] == b && xs[n + 2] == c
    ensures xs[n..n + 3] == [a, b, c]
  {
  }

  /** The outcomes of the three lines written for an entry. */
  lemma BlockOutcomesAt(lines: seq<string>, n: nat, e: Entry)
    requires ValidEntry(e) && n + 3 <= |lines| && lines[n..n + 3] == Block(e)
    ensures Outcomes(lines)[n..n + 3] == RowOutcomes(RowOf(e))
  {
    assert lines[n] == lines[n..n + 3][0];
    assert lines[n + 1] == lines[n..n + 3][1];
    assert lines[n + 2] == lines[n..n + 3][2];
    BlockAt(lines, n, e);
    OutcomeOf(lines, n);
    OutcomeOf(lines, n + 1);
    OutcomeOf(lines, n + 2);
    SliceOfThree(Outcomes(lines), n, Plain, MarkerRecord(e.category, Success(RecordOf(e))), Plain);
  }

  /** The outcomes of a written log are those of its entries' rows. */
  lemma LogOutcomes(es: seq<Entry>)
    requires AllValid(es)
    ensures OutcomesOfRows(Outcomes(Log(es)), Rows(es))
  {
    var lines, rows := Log(es), Rows(es);
    if |es| > 0 {
      LogSlice(es, 0);
    }
    forall k | 0 <= k < |es| ensures OutcomeTriple(Outcomes(lines), k) == RowOutcomes(rows[k]) {
      LogSlice(es, k);
      BlockOutcomesAt(lines, 3 * k, es[k]);
    }
  }

  /** `gen_loss_top1_top5` on a written log returns the written entries:
      each table holds the rows of its category's entries in the order they
      were written. */
  lemma LogScan(es: seq<Entry>)
    requires AllValid(es)
    ensures Scan(true, Log(es)) == Success(TablesOf(Rows(es)))
    ensures forall c :: Scan(true, Log(es)).value.Series(c) == RecordsOf(Rows(es), c)
  {
    var rows := Rows(es);
    LogOutcomes(es);
    ReplayRows(Outcomes(Log(es)), rows, |rows|);
    assert rows[..|rows|] == rows;
    forall c ensures TablesOf(rows).Series(c) == RecordsOf(rows, c) {
      TablesOfSeries(rows, c);
    }
  }
}
