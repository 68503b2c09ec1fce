/** What `gen_loss_top1_top5` promises about the tables it returns, stated
    against an independent description: the marker lines of each category,
    in file order, and the record each of them yields.

    The induction runs over the list of line outcomes (`Replay`), then is
    carried over to the lines themselves. */
module ScanProperties {
  import opened Wrappers
  import opened SummaryPlots

  // ---------------------------------------------------------------------
  // Replaying a list of outcomes.

  predicate IsMarkerOf(o: LineOutcome, c: Category) {
    o.MarkerRecord? && o.category == c
  }

  /** The positions below `k` of the outcomes of category `c`, ascending. */
  function MarkerIndices(outs: seq<LineOutcome>, c: Category, k: nat): (m: seq<nat>)
    requires k <= |outs|
    ensures forall j :: 0 <= j < |m| ==> m[j] < k && IsMarkerOf(outs[m[j]], c)
    ensures forall j, j' :: 0 <= j < j' < |m| ==> m[j] < m[j']
    ensures forall i :: 0 <= i < k && IsMarkerOf(outs[i], c) ==> i in m
    decreases k
  {
    if k == 0 then []
    else
      var m := MarkerIndices(outs, c, k - 1);
      if IsMarkerOf(outs[k - 1], c) then m + [k - 1] else m
  }

  /** The number of marker outcomes among the first `k`. */
  function MarkerCount(outs: seq<LineOutcome>, k: nat): nat
    requires k <= |outs|
  {
    if k == 0 then 0
    else MarkerCount(outs, k - 1) + (if outs[k - 1].MarkerRecord? then 1 else 0)
  }

  /** Every marker outcome among the first `k` carries a record. */
  ghost predicate AllRecordsBuilt(outs: seq<LineOutcome>, k: nat)
    requires k <= |outs|
  {
    forall i :: 0 <= i < k && outs[i].MarkerRecord? ==> outs[i].record.Success?
  }

  /** `s` lists, in order, the records of the outcomes of category `c`
      among the first `k`. */
  ghost predicate Lists(outs: seq<LineOutcome>, c: Category, k: nat, s: seq<MetricRecord>)
    requires k <= |outs|
  {
    var m := MarkerIndices(outs, c, k);
    |s| == |m| && forall j :: 0 <= j < |s| ==> outs[m[j]].record == Success(s[j])
  }

  /** Replaying succeeds exactly when every marker outcome carries a record. */
  lemma {:induction false} ReplayBuilt(outs: seq<LineOutcome>, k: nat)
    requires k <= |outs|
    ensures Replay(outs, k).Success? <==> AllRecordsBuilt(outs, k)
    decreases k
  {
    if k > 0 {
      ReplayBuilt(outs, k - 1);
      if Replay(outs, k - 1).Failure? {
        FailurePersists(outs, k - 1, k);
      }
    }
  }

  /** After a successful replay, table `c` lists the records of the
      outcomes of category `c`, in order. */
  lemma {:induction false} ReplayLists(outs: seq<LineOutcome>, c: Category, k: nat)
    requires k <= |outs| && Replay(outs, k).Success?
    ensures Lists(outs, c, k, Replay(outs, k).value.Series(c))
    decreases k
  {
    if k > 0 {
      var i := k - 1;
      assert Replay(outs, i).Success?;
      ReplayLists(outs, c, i);
      var s := Replay(outs, i).value.Series(c);
      var m := MarkerIndices(outs, c, i);
      if IsMarkerOf(outs[i], c) {
        var s' := s + [outs[i].record.value];
        assert Replay(outs, k).value.Series(c) == s';
        assert MarkerIndices(outs, c, k) == m + [i];
        forall j | 0 <= j < |s'|
          ensures outs[(m + [i])[j]].record == Success(s'[j])
        {
          if j < |s| {
            assert (m + [i])[j] == m[j];
          }
        }
      } else {
        assert Replay(outs, k).value.Series(c) == s;
        assert MarkerIndices(outs, c, k) == m;
      }
    }
  }

  /** A failed replay raises the error of the first marker outcome without
      a record. */
  lemma {:induction false} ReplayFirstFailure(outs: seq<LineOutcome>, k: nat)
    requires k <= |outs| && Replay(outs, k).Failure?
    ensures exists i ::
      (0 <= i < k && outs[i].MarkerRecord? && outs[i].record == Failure(Replay(outs, k).error)
      && AllRecordsBuilt(outs, i))
    decreases k
  {
    var i := k - 1;
    if Replay(outs, i).Failure? {
      ReplayFirstFailure(outs, i);
    } else {
      ReplayBuilt(outs, i);
    }
  }

  /** A successful replay holds one record per marker outcome. */
  lemma {:induction false} ReplaySize(outs: seq<LineOutcome>, k: nat)
    requires k <= |outs| && Replay(outs, k).Success?
    ensures Replay(outs, k).value.Size() == MarkerCount(outs, k)
    decreases k
  {
    if k > 0 {
      assert Replay(outs, k - 1).Success?;
      ReplaySize(outs, k - 1);
    }
  }

  /** The place in a listed table of the record of outcome `i`. */
  lemma ListedPosition(outs: seq<LineOutcome>, c: Category, k: nat, s: seq<MetricRecord>, i: nat)
      returns (j: nat)
    requires k <= |outs| && Lists(outs, c, k, s) && i < k && IsMarkerOf(outs[i], c)
    ensures j < |s| && MarkerIndices(outs, c, k)[j] == i && outs[i].record == Success(s[j])
  {
    var m := MarkerIndices(outs, c, k);
    assert i in m;
    j :| 0 <= j < |m| && m[j] == i;
  }

  /** Two listed records appear in the order of their outcomes. */
  lemma ListedInOrder(outs: seq<LineOutcome>, c: Category, k: nat, s: seq<MetricRecord>, i: nat, i': nat)
      returns (j: nat, j': nat)
    requires k <= |outs| && Lists(outs, c, k, s) && i < i' < k
    requires IsMarkerOf(outs[i], c) && IsMarkerOf(outs[i'], c)
    ensures j < j' < |s| && outs[i].record == Success(s[j]) && outs[i'].record == Success(s[j'])
  {
    j := ListedPosition(outs, c, k, s, i);
    j' := ListedPosition(outs, c, k, s, i');
  }

  /** The record of a first outcome of category `c` heads its table. */
  lemma FirstListed(outs: seq<LineOutcome>, c: Category, k: nat, s: seq<MetricRecord>)
    requires 0 < k <= |outs| && Lists(outs, c, k, s) && IsMarkerOf(outs[0], c)
    ensures |s| > 0 && outs[0].record == Success(s[0])
  {
    var j := ListedPosition(outs, c, k, s, 0);
    var m := MarkerIndices(outs, c, k);
    assert m[0] <= m[j];
    assert j == 0;
  }

  // ---------------------------------------------------------------------
  // The outcomes of the lines of a log.

  lemma OutcomeOf(lines: seq<string>, i: nat)
    requires i < |lines|
    ensures Outcomes(lines)[i] == Outcome(lines, i)
  {
  }

  /** The indices of the inspected lines (all but the last) whose category
      is `c`, in ascending order. */
  function MarkerLines(lines: seq<string>, c: Category): (m: seq<nat>)
    ensures forall j :: 0 <= j < |m| ==> m[j] + 1 < |lines| && Classify(lines[m[j]]) == Some(c)
    ensures forall j, j' :: 0 <= j < j' < |m| ==> m[j] < m[j']
    ensures forall i :: 0 <= i && i + 1 < |lines| && Classify(lines[i]) == Some(c) ==> i in m
  {
    var outs := Outcomes(lines);
    var m := MarkerIndices(outs, c, |lines|);
    assert forall i :: 0 <= i < |lines| ==> outs[i] == Outcome(lines, i);
    m
  }

  /** The number of inspected lines below `k` that hold a marker. */
  function CountMarkerLines(lines: seq<string>, k: nat): nat
    requires k <= |lines|
  {
    if k == 0 then 0
    else CountMarkerLines(lines, k - 1) + (if k < |lines| && Classify(lines[k - 1]).Some? then 1 else 0)
  }

  /** Every inspected marker line yields a record. */
  ghost predicate RecordsParse(lines: seq<string>)
  {
    forall i :: 0 <= i && i + 1 < |lines| && Classify(lines[i]).Some? ==> RecordAt(lines, i).Success?
  }

  /** `s` holds, in order, the records of the marker lines of category `c`. */
  ghost predicate SeriesOfMarkers(lines: seq<string>, c: Category, s: seq<MetricRecord>)
  {
    var m := MarkerLines(lines, c);
    |s| == |m| && forall j :: 0 <= j < |s| ==> RecordAt(lines, m[j]) == Success(s[j])
  }

  lemma BuiltIffParse(lines: seq<string>)
    ensures AllRecordsBuilt(Outcomes(lines), |lines|) <==> RecordsParse(lines)
  {
    var outs := Outcomes(lines);
    forall i | 0 <= i < |lines|
      ensures (outs[i].MarkerRecord? ==> outs[i].record.Success?)
          <==> (i + 1 < |lines| && Classify(lines[i]).Some? ==> RecordAt(lines, i).Success?)
    {
      OutcomeOf(lines, i);
    }
  }

  lemma ListsAreSeries(lines: seq<string>, c: Category, s: seq<MetricRecord>)
    requires Lists(Outcomes(lines), c, |lines|, s)
    ensures SeriesOfMarkers(lines, c, s)
  {
    var m := MarkerLines(lines, c);
    forall j | 0 <= j < |s|
      ensures RecordAt(lines, m[j]) == Success(s[j])
    {
      OutcomeOf(lines, m[j]);
    }
  }

  lemma {:induction false} MarkerCountOfLines(lines: seq<string>, k: nat)
    requires k <= |lines|
    ensures MarkerCount(Outcomes(lines), k) == CountMarkerLines(lines, k)
    decreases k
  {
    if k > 0 {
      MarkerCountOfLines(lines, k - 1);
      OutcomeOf(lines, k - 1);
    }
  }

  // ---------------------------------------------------------------------
  // The scan of a log.

  /** The scan succeeds exactly when every marker line on an inspected line
      yields a record; each table then lists the records of its category's
      marker lines, in file order. */
  lemma ScanReference(lines: seq<string>)
    ensures Scan(true, lines).Success? <==> RecordsParse(lines)
    ensures Scan(true, lines).Success? ==>
      forall c :: SeriesOfMarkers(lines, c, Scan(true, lines).value.Series(c))
  {
    var outs := Outcomes(lines);
    ReplayBuilt(outs, |lines|);
    BuiltIffParse(lines);
    if Scan(true, lines).Success? {
      forall c ensures SeriesOfMarkers(lines, c, Scan(true, lines).value.Series(c)) {
        ReplayLists(outs, c, |lines|);
        ListsAreSeries(lines, c, Scan(true, lines).value.Series(c));
      }
    }
  }

  /** A failing scan raises the error of the first marker line whose record
      could not be built; no table is returned. */
  lemma ScanFirstFailure(lines: seq<string>)
    requires Scan(true, lines).Failure?
    ensures exists i ::
      (0 <= i && i + 1 < |lines| && Classify(lines[i]).Some?
      && RecordAt(lines, i) == Failure(Scan(true, lines).error)
      && forall i' :: 0 <= i' < i && Classify(lines[i']).Some? ==> RecordAt(lines, i').Success?)
  {
    var outs := Outcomes(lines);
    ReplayFirstFailure(outs, |lines|);
    var i :| 0 <= i < |lines| && outs[i].MarkerRecord? && outs[i].record == Failure(Scan(true, lines).error)
      && AllRecordsBuilt(outs, i);
    OutcomeOf(lines, i);
    forall i' | 0 <= i' < i && Classify(lines[i']).Some?
      ensures RecordAt(lines, i').Success?
    {
      OutcomeOf(lines, i');
    }
  }

  /** A file that does not exist, or has at most one line, gives three empty
      tables. */
  lemma ScanEmptyCases(fileExists: bool, lines: seq<string>)
    requires !fileExists || |lines| <= 1
    ensures Scan(fileExists, lines) == Success(NoTables)
  {
    if fileExists && |lines| == 1 {
      var outs := Outcomes(lines);
      OutcomeOf(lines, 0);
      assert outs[0] == Plain;
      assert Replay(outs, 0) == Success(NoTables);
      assert Replay(outs, 1) == Step(NoTables, Plain);
    }
  }

  /** The number of records is the number of marker lines among all lines
      but the last: the last line never yields a record. */
  lemma ScanCountsMarkers(lines: seq<string>)
    requires Scan(true, lines).Success?
    ensures Scan(true, lines).value.Size() == CountMarkerLines(lines, |lines|)
  {
    ReplaySize(Outcomes(lines), |lines|);
    MarkerCountOfLines(lines, |lines|);
  }

  /** Records keep the order of their marker lines: no sorting by epoch. */
  lemma ScanKeepsLineOrder(lines: seq<string>, c: Category, i: nat, i': nat, t: Tables)
    requires Scan(true, lines) == Success(t)
    requires i < i' && i' + 1 < |lines|
    requires Classify(lines[i]) == Some(c) && Classify(lines[i']) == Some(c)
    ensures exists j, j' ::
      (0 <= j < j' < |t.Series(c)|
      && RecordAt(lines, i) == Success(t.Series(c)[j])
      && RecordAt(lines, i') == Success(t.Series(c)[j']))
  {
    var outs := Outcomes(lines);
    ReplayLists(outs, c, |lines|);
    OutcomeOf(lines, i);
    OutcomeOf(lines, i');
    var j, j' := ListedInOrder(outs, c, |lines|, t.Series(c), i, i');
  }

  /** Where each field of a record comes from: the epoch from the marker
      line, loss/top1/top5 from the line after it, lr from the line before
      it, which for a marker on line 0 is the last line of the file. */
  lemma ScanRecordSources(lines: seq<string>, c: Category, t: Tables, j: nat)
    requires Scan(true, lines) == Success(t) && j < |t.Series(c)|
    ensures exists i ::
      (0 <= i && i + 1 < |lines| && Classify(lines[i]) == Some(c)
      && ParseEpoch(lines[i]) == Success(t.Series(c)[j].epoch)
      && ParseSummaryValues(lines[i + 1]) == Success((t.Series(c)[j].loss, t.Series(c)[j].top1, t.Series(c)[j].top5))
      && ParseLr(lines[if i == 0 then |lines| - 1 else i - 1]) == Success(t.Series(c)[j].lr))
  {
    var outs := Outcomes(lines);
    ReplayLists(outs, c, |lines|);
    var i := MarkerIndices(outs, c, |lines|)[j];
    OutcomeOf(lines, i);
    ParseRecordSpec(lines[i], lines[i + 1], PrevLine(lines, i));
  }

  /** A marker on the first line takes its learning rate from the last line
      of the file (Python's `lines[-1]`). */
  lemma FirstLineMarkerReadsLastLine(lines: seq<string>, c: Category, t: Tables)
    requires |lines| >= 2 && Classify(lines[0]) == Some(c) && Scan(true, lines) == Success(t)
    ensures |t.Series(c)| > 0
    ensures ParseLr(lines[|lines| - 1]) == Success(t.Series(c)[0].lr)
  {
    var outs := Outcomes(lines);
    ReplayLists(outs, c, |lines|);
    OutcomeOf(lines, 0);
    FirstListed(outs, c, |lines|, t.Series(c));
    ParseRecordSpec(lines[0], lines[1], PrevLine(lines, 0));
  }

  /** One malformed neighbour of any inspected marker line makes the whole
      scan fail. */
  lemma MalformedNeighbourFails(lines: seq<string>, i: nat)
    requires i + 1 < |lines| && Classify(lines[i]).Some?
    requires ParseEpoch(lines[i]).Failure? || ParseSummaryValues(lines[i + 1]).Failure?
             || ParseLr(PrevLine(lines, i)).Failure?
    ensures Scan(true, lines).Failure?
  {
    ParseRecordSpec(lines[i], lines[i + 1], PrevLine(lines, i));
    OutcomeOf(lines, i);
    ReplayBuilt(Outcomes(lines), |lines|);
  }
}
