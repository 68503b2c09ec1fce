/** The lines a training run prints around each summary, as the scanner
    expects them: the learning-rate line before the marker, the marker line
    ending in the epoch, and the metrics line after it. Writing a log this
    way and scanning it gives back exactly what was written. */
module LogFormat {
  import opened Wrappers
  import opened PyStr
  import opened PyNum
  import opened SummaryPlots

  // ---------------------------------------------------------------------
  // Marker lines

  /** The position of the first character at which two markers differ. */
  function MarkerDifference(c: Category, d: Category): nat
  {
    if c == Training || d == Training then 4 else 15
  }

  /** Every marker begins with "*** ". */
  lemma MarkerStars(c: Category)
    ensures |Marker(c)| > 15 && Marker(c)[0] == '*' && Marker(c)[1] == '*' && Marker(c)[2] == '*'
    ensures Marker(c)[3] == ' '
  {
  }

  /** After its first three characters a marker holds no '*'. */
  lemma MarkerNoLaterStar(c: Category)
    ensures forall o :: 3 <= o < |Marker(c)| ==> Marker(c)[o] != '*'
  {
  }

  /** Two different markers differ at `MarkerDifference`. */
  lemma MarkersDiffer(c: Category, d: Category)
    requires c != d
    ensures MarkerDifference(c, d) < |Marker(c)| && MarkerDifference(c, d) < |Marker(d)|
    ensures Marker(c)[MarkerDifference(c, d)] != Marker(d)[MarkerDifference(c, d)]
  {
  }

  /** One differing character rules out an occurrence. */
  lemma MismatchNotAt(s: string, sub: string, i: nat, k: nat)
    requires k < |sub| && (i + k >= |s| || s[i + k] != sub[k])
    ensures !OccursAt(s, sub, i)
  {
    if i + |sub| <= |s| {
      assert s[i..i + |sub|][k] == s[i + k];
    }
  }

  /** A pattern beginning "***" does not occur in a line made of a '*'-free
      head, a text `m` whose only '*' are its first three characters
      (followed by a space) and which differs from the pattern at `k`, and a
      '*'-free tail. */
  lemma StarPatternNotAt(head: string, m: string, tail: string, p: string, k: nat, i: nat)
    requires NoChar(head, '*') && NoChar(tail, '*')
    requires |m| > 3 && m[3] == ' ' && forall o :: 3 <= o < |m| ==> m[o] != '*'
    requires |p| > 2 && p[0] == '*' && p[1] == '*' && p[2] == '*'
    requires k < |m| && k < |p| && m[k] != p[k]
    ensures !OccursAt(head + m + tail, p, i)
  {
    var s := head + m + tail;
    var h := |head|;
    if i < h {
      assert s[i] == head[i];
      MismatchNotAt(s, p, i, 0);
    } else if i == h {
      assert s[i + k] == m[k];
      MismatchNotAt(s, p, i, k);
    } else if i == h + 1 {
      assert s[i + 2] == m[3];
      MismatchNotAt(s, p, i, 2);
    } else if i == h + 2 {
      assert s[i + 1] == m[3];
      MismatchNotAt(s, p, i, 1);
    } else if i < h + |m| {
      assert s[i] == m[i - h];
      MismatchNotAt(s, p, i, 0);
    } else if i < |s| {
      assert s[i] == tail[i - h - |m|];
      MismatchNotAt(s, p, i, 0);
    } else {
      MismatchNotAt(s, p, i, 0);
    }
  }

  /** No marker other than `c` occurs at any index of a line made of a
      '*'-free head, marker `c` and a '*'-free tail. */
  lemma OtherMarkerNotAt(head: string, c: Category, tail: string, d: Category, i: nat)
    requires NoChar(head, '*') && NoChar(tail, '*') && d != c
    ensures !OccursAt(head + Marker(c) + tail, Marker(d), i)
  {
    MarkerStars(c);
    MarkerStars(d);
    MarkerNoLaterStar(c);
    MarkersDiffer(c, d);
    StarPatternNotAt(head, Marker(c), tail, Marker(d), MarkerDifference(c, d), i);
  }

  /** A line holding one marker, with no other '*' around it, is classified
      as that marker's category: the `if`/`elif` chain never mistakes one
      marker for another. */
  lemma MarkerLineClassified(head: string, c: Category, tail: string)
    requires NoChar(head, '*') && NoChar(tail, '*')
    ensures Classify(head + Marker(c) + tail) == Some(c)
  {
    var s := head + Marker(c) + tail;
    assert s[|head|..|head| + |Marker(c)|] == Marker(c);
    OccursContains(s, Marker(c), |head|);
    forall d | d != c
      ensures !Contains(s, Marker(d))
    {
      ContainsOccurs(s, Marker(d));
      forall i: nat ensures !OccursAt(s, Marker(d), i) {
        OtherMarkerNotAt(head, c, tail, d, i);
      }
    }
    assert c != Training ==> !Contains(s, Marker(Training));
    assert c == ValidationEma ==> !Contains(s, Marker(Validation));
  }

  /** A line without '*' holds no marker. */
  lemma NoStarNoMarker(line: string)
    requires NoChar(line, '*')
    ensures Classify(line).None?
  {
    NoCharNotContains(line, TrainingMarker);
    NoCharNotContains(line, ValidationMarker);
    NoCharNotContains(line, ValidationEmaMarker);
  }

  /** The text of a decimal holds none of the separators the scanner
      splits on. */
  lemma FixedTextNoChar(d: Fixed, ch: char)
    requires ValidFixed(d) && !IsDigit(ch) && ch != '.'
    ensures NoChar(FixedText(d), ch)
  {
    FixedTextChars(d);
  }

  /** `float()` reads back a decimal followed by whitespace. */
  lemma ParseFloatPadded(d: Fixed, w: string)
    requires ValidFixed(d) && AllSpace(w)
    ensures ParseFloat(FixedText(d) + w) == Some(FixedValue(d))
  {
    ParseFloatFixed("", d, w);
    assert "" + FixedText(d) + w == FixedText(d) + w;
  }

  lemma IntTextNoChar(i: int, ch: char)
    requires !IsDigit(ch) && ch != '-'
    ensures NoChar(IntText(i), ch)
  {
    var n := if i < 0 then -i else i;
    assert IntText(i) == NatText(n) || IntText(i) == "-" + NatText(n);
    forall j | 0 <= j < |IntText(i)| ensures IntText(i)[j] != ch {
      if IntText(i) != NatText(n) && j > 0 {
        assert IntText(i)[j] == NatText(n)[j - 1];
      }
    }
  }

  // ---------------------------------------------------------------------
  // The epoch at the end of a marker line

  /** The marker line: any text `head` (a time stamp, a logger name), the
      marker, any text `mid`, a space, the epoch and the line's end `eol`
      ("\n", or "" on the file's last line). */
  function MarkerLineText(head: string, c: Category, mid: string, epoch: int, eol: string): string
  {
    head + Marker(c) + mid + " " + IntText(epoch) + eol
  }

  /** What a marker line may hold around the marker and the epoch: no '*'
      before or after the marker, and whitespace other than ' ' after the
      epoch. */
  predicate MarkerLineParts(head: string, mid: string, eol: string)
  {
    NoChar(head, '*') && NoChar(mid, '*') && AllSpace(eol) && NoChar(eol, ' ')
  }

  /** `int(line.split(" ")[-1])` reads back an epoch written after the last
      space of a line, whatever precedes it and whatever space-free
      whitespace follows it. */
  lemma EpochRoundTrip(x: string, epoch: int, w: string)
    requires AllSpace(w) && NoChar(w, ' ')
    ensures ParseEpoch(x + " " + IntText(epoch) + w) == Success(epoch)
  {
    var y := IntText(epoch) + w;
    IntTextNoChar(epoch, ' ');
    NoCharAppend(IntText(epoch), w, ' ');
    assert x + " " + IntText(epoch) + w == x + " " + y;
    ParseIntPadded(epoch, w);
    ParseEpochLastPiece(x, y);
  }

  lemma ParseIntPadded(i: int, w: string)
    requires AllSpace(w)
    ensures ParseInt(IntText(i) + w) == Some(i)
  {
    ParseIntText("", i, w);
    assert "" + IntText(i) + w == IntText(i) + w;
  }

  lemma MarkerLineTail(mid: string, epoch: int, eol: string)
    requires NoChar(mid, '*') && AllSpace(eol)
    ensures NoChar(mid + " " + IntText(epoch) + eol, '*')
  {
    IntTextNoChar(epoch, '*');
    SpacesNoChar(eol, '*');
    NoCharAppend(mid, " ", '*');
    NoCharAppend(mid + " ", IntText(epoch), '*');
    NoCharAppend(mid + " " + IntText(epoch), eol, '*');
  }

  /** A written marker line is classified as its category. */
  lemma MarkerLineCategory(head: string, c: Category, mid: string, epoch: int, eol: string)
    requires MarkerLineParts(head, mid, eol)
    ensures Classify(MarkerLineText(head, c, mid, epoch, eol)) == Some(c)
  {
    var m, e := Marker(c), IntText(epoch);
    var tail := mid + " " + e + eol;
    MarkerLineTail(mid, epoch, eol);
    assert MarkerLineText(head, c, mid, epoch, eol) == head + m + tail by {
      assert head + m + mid + " " + e + eol == head + m + (mid + " " + e + eol);
    }
    MarkerLineClassified(head, c, tail);
  }

  /** A written marker line yields its epoch. */
  lemma MarkerLineEpoch(head: string, c: Category, mid: string, epoch: int, eol: string)
    requires MarkerLineParts(head, mid, eol)
    ensures ParseEpoch(MarkerLineText(head, c, mid, epoch, eol)) == Success(epoch)
  {
    EpochRoundTrip(head + Marker(c) + mid, epoch, eol);
  }

  /** A written marker line is classified as its category and yields its
      epoch. */
  lemma MarkerLineRoundTrip(head: string, c: Category, mid: string, epoch: int, eol: string)
    requires MarkerLineParts(head, mid, eol)
    ensures Classify(MarkerLineText(head, c, mid, epoch, eol)) == Some(c)
    ensures ParseEpoch(MarkerLineText(head, c, mid, epoch, eol)) == Success(epoch)
  {
    MarkerLineCategory(head, c, mid, epoch, eol);
    MarkerLineEpoch(head, c, mid, epoch, eol);
  }

  // ---------------------------------------------------------------------
  // The metrics line after a marker

  /** The metrics line, as in "loss=1.5650 || top1=64.6799 || top5=85.8776",
      after any text `pre` and followed by the line's end `eol`. */
  function SummaryLineText(pre: string, loss: Fixed, top1: Fixed, top5: Fixed, eol: string): string
  {
    pre + "loss=" + FixedText(loss) + " || top1=" + FixedText(top1) + " || top5=" + FixedText(top5) + eol
  }

  /** What a metrics line may hold around the values: neither '=' nor '*'
      before them, whitespace after them. */
  predicate SummaryLineParts(pre: string, eol: string)
  {
    NoChar(pre, '=') && NoChar(pre, '*') && AllSpace(eol)
  }

  /** Splitting four pieces, none holding the separator's first character,
      joined by the separator gives them back. */
  lemma SplitFourPieces(x0: string, x1: string, x2: string, x3: string, sep: string)
    requires |sep| > 0
    requires NoChar(x0, sep[0]) && NoChar(x1, sep[0]) && NoChar(x2, sep[0]) && NoChar(x3, sep[0])
    ensures Split(x0 + sep + (x1 + sep + (x2 + sep + x3)), sep) == [x0, x1, x2, x3]
  {
    var y2 := x2 + sep + x3;
    var y1 := x1 + sep + y2;
    assert Split(y2, sep) == [x2, x3] by {
      SplitNoChar(x3, sep);
      SplitAtNoChar(x2, sep, x3);
    }
    assert Split(y1, sep) == [x1, x2, x3] by {
      SplitAtNoChar(x1, sep, y2);
    }
    SplitAtNoChar(x0, sep, y1);
  }

  lemma SummaryLiteralsNoEquals()
    ensures NoChar("loss", '=') && NoChar(" || top1", '=') && NoChar(" || top5", '=')
  {
  }

  /** A metrics line is its four "=" pieces joined by "=" (stated for any
      strings, so the regrouping is done once). */
  lemma SummaryLineJoinsPieces(p: string, a: string, b: string, c: string, w: string)
    ensures p + "loss=" + a + " || top1=" + b + " || top5=" + c + w
      == (p + "loss") + "=" + (a + " || top1" + "=" + (b + " || top5" + "=" + (c + w)))
  {
  }

  /** The "=" pieces of a metrics line whose values, head and end hold no
      '='. */
  lemma SummaryLinePieces(p: string, a: string, b: string, c: string, w: string)
    requires NoChar(p, '=') && NoChar(a, '=') && NoChar(b, '=') && NoChar(c, '=') && NoChar(w, '=')
    ensures Split(p + "loss=" + a + " || top1=" + b + " || top5=" + c + w, "=") ==
      [p + "loss", a + " || top1", b + " || top5", c + w]
  {
    SummaryLiteralsNoEquals();
    NoCharAppend(p, "loss", '=');
    NoCharAppend(a, " || top1", '=');
    NoCharAppend(b, " || top5", '=');
    NoCharAppend(c, w, '=');
    SplitFourPieces(p + "loss", a + " || top1", b + " || top5", c + w, "=");
    SummaryLineJoinsPieces(p, a, b, c, w);
  }

  /** The text before the first "||" of `x || ...`, where `x` has no '|',
      is `x` and a space. */
  lemma BeforeBars(x: string, tail: string)
    requires NoChar(x, '|') && |tail| >= 3 && tail[..3] == " ||"
    ensures Split(x + tail, "||")[0] == x + " "
  {
    NoCharAppend(x, " ", '|');
    assert x + tail == x + " " + "||" + tail[3..];
    SplitAtNoChar(x + " ", "||", tail[3..]);
  }

  /** `float()` of a decimal followed by whitespace, as the scanner
      reports it. */
  lemma FloatOfFixed(d: Fixed, w: string)
    requires ValidFixed(d) && AllSpace(w)
    ensures FloatOf(FixedText(d) + w) == Success(FixedValue(d))
  {
    ParseFloatPadded(d, w);
  }

  /** `parse_values_in_summary_line` on a line of four "=" pieces whose
      values convert. */
  lemma SummaryValuesOfPieces(line: string, x0: string, x1: string, x2: string, x3: string,
                              loss: real, top1: real, top5: real)
    requires Split(line, "=") == [x0, x1, x2, x3]
    requires FloatOf(Split(x1, "||")[0]) == Success(loss)
    requires FloatOf(Split(x2, "||")[0]) == Success(top1)
    requires FloatOf(x3) == Success(top5)
    ensures ParseSummaryValues(line) == Success((loss, top1, top5))
  {
  }

  /** A metrics line whose three values hold neither '=' nor '|' and
      convert gives those values. */
  lemma SummaryValuesOfText(p: string, a: string, b: string, c: string, w: string,
                             loss: real, top1: real, top5: real)
    requires NoChar(p, '=') && NoChar(a, '=') && NoChar(b, '=') && NoChar(c, '=') && NoChar(w, '=')
    requires NoChar(a, '|') && NoChar(b, '|')
    requires FloatOf(a + " ") == Success(loss) && FloatOf(b + " ") == Success(top1)
    requires FloatOf(c + w) == Success(top5)
    ensures ParseSummaryValues(p + "loss=" + a + " || top1=" + b + " || top5=" + c + w)
      == Success((loss, top1, top5))
  {
    var line := p + "loss=" + a + " || top1=" + b + " || top5=" + c + w;
    SummaryLinePieces(p, a, b, c, w);
    BeforeBars(a, " || top1");
    BeforeBars(b, " || top5");
    SummaryValuesOfPieces(line, p + "loss", a + " || top1", b + " || top5", c + w, loss, top1, top5);
  }

  /** `parse_values_in_summary_line` reads back the three values of a
      written metrics line. */
  lemma SummaryLineRoundTrip(pre: string, loss: Fixed, top1: Fixed, top5: Fixed, eol: string)
    requires ValidFixed(loss) && ValidFixed(top1) && ValidFixed(top5) && NoChar(pre, '=') && AllSpace(eol)
    ensures ParseSummaryValues(SummaryLineText(pre, loss, top1, top5, eol))
      == Success((FixedValue(loss), FixedValue(top1), FixedValue(top5)))
  {
    FixedTextNoChar(loss, '=');
    FixedTextNoChar(top1, '=');
    FixedTextNoChar(top5, '=');
    FixedTextNoChar(loss, '|');
    FixedTextNoChar(top1, '|');
    SpacesNoChar(eol, '=');
    FloatOfFixed(loss, " ");
    FloatOfFixed(top1, " ");
    FloatOfFixed(top5, eol);
    SummaryValuesOfText(pre, FixedText(loss), FixedText(top1), FixedText(top5), eol,
      FixedValue(loss), FixedValue(top1), FixedValue(top5));
  }

  /** A metrics line is no marker line. */
  lemma SummaryLineNoMarker(pre: string, loss: Fixed, top1: Fixed, top5: Fixed, eol: string)
    requires ValidFixed(loss) && ValidFixed(top1) && ValidFixed(top5) && SummaryLineParts(pre, eol)
    ensures Classify(SummaryLineText(pre, loss, top1, top5, eol)).None?
  {
    FixedTextNoChar(loss, '*');
    FixedTextNoChar(top1, '*');
    FixedTextNoChar(top5, '*');
    SpacesNoChar(eol, '*');
    var s0 := pre + "loss=";
    var s1 := s0 + FixedText(loss);
    var s2 := s1 + " || top1=";
    var s3 := s2 + FixedText(top1);
    var s4 := s3 + " || top5=";
    var s5 := s4 + FixedText(top5);
    NoCharAppend(pre, "loss=", '*');
    NoCharAppend(s0, FixedText(loss), '*');
    NoCharAppend(s1, " || top1=", '*');
    NoCharAppend(s2, FixedText(top1), '*');
    NoCharAppend(s3, " || top5=", '*');
    NoCharAppend(s4, FixedText(top5), '*');
    NoCharAppend(s5, eol, '*');
    NoStarNoMarker(SummaryLineText(pre, loss, top1, top5, eol));
  }

  // ---------------------------------------------------------------------
  // The learning-rate line before a marker

  /** A line that prints the learning rates as a list, the first of them
      `lr`: `pre`, then "LR: [", the decimal, a comma and whatever follows. */
  function LrLineText(pre: string, lr: Fixed, rest: string): string
  {
    pre + LrMarker + FixedText(lr) + "," + rest
  }

  lemma LrMarkerBorderFree()
    ensures BorderFree(LrMarker)
  {
    forall k | 0 < k < |LrMarker| ensures LrMarker[k..] != LrMarker[..|LrMarker| - k] {
      assert LrMarker[k..][0] != LrMarker[..|LrMarker| - k][0];
    }
  }

  /** Whatever comes after the first "LR: [", the text up to its first
      comma is the decimal that follows the marker. */
  lemma LrPiece(x: string, rest: string)
    requires NoChar(x, 'L') && NoChar(x, ',')
    ensures Split(Split(x + "," + rest, LrMarker)[0], ",")[0] == x
  {
    var xc := x + ",";
    NoCharAppend(x, ",", 'L');
    NoCharNoStart(xc, rest, LrMarker);
    SplitFreePrefix(xc, rest, LrMarker);
    var z := Split(rest, LrMarker)[0];
    assert xc + z == x + "," + z;
    SplitAtNoChar(x, ",", z);
  }

  /** After the first "LR: [" of a line, `parse_lr_values` converts the
      text up to the next comma or the next "LR: [", whichever comes first. */
  lemma ParseLrAfterMarker(pre: string, y: string)
    requires !Contains(pre, LrMarker)
    ensures ParseLr(pre + LrMarker + y) == FloatOf(Split(Split(y, LrMarker)[0], ",")[0])
  {
    LrMarkerBorderFree();
    NoOccurrenceBefore(pre, LrMarker, y);
    SplitAtFirst(pre, LrMarker, y);
  }

  /** `parse_lr_values` converts the text between the first "LR: [" and the
      comma after it, when that text holds neither 'L' nor ','. */
  lemma LrValueOfText(pre: string, x: string, rest: string, v: real)
    requires !Contains(pre, LrMarker) && NoChar(x, 'L') && NoChar(x, ',')
    requires FloatOf(x) == Success(v)
    ensures ParseLr(pre + LrMarker + x + "," + rest) == Success(v)
  {
    var y := x + "," + rest;
    assert pre + LrMarker + x + "," + rest == pre + LrMarker + y;
    assert Split(Split(y, LrMarker)[0], ",")[0] == x by {
      LrPiece(x, rest);
    }
    ParseLrAfterMarker(pre, y);
  }

  lemma FloatOfBare(d: Fixed)
    requires ValidFixed(d)
    ensures FloatOf(FixedText(d)) == Success(FixedValue(d))
  {
    FloatOfFixed(d, "");
    assert FixedText(d) + "" == FixedText(d);
  }

  /** `parse_lr_values` reads back the first learning rate of a list of
      two or more, whatever precedes the marker (so long as it holds no
      earlier "LR: [") and whatever follows the first comma. */
  lemma LrLineRoundTrip(pre: string, lr: Fixed, rest: string)
    requires ValidFixed(lr) && !Contains(pre, LrMarker)
    ensures ParseLr(LrLineText(pre, lr, rest)) == Success(FixedValue(lr))
  {
    FixedTextNoChar(lr, 'L');
    FixedTextNoChar(lr, ',');
    FloatOfBare(lr);
    LrValueOfText(pre, FixedText(lr), rest, FixedValue(lr));
  }

  /** Text with neither 'L' nor ',' after the marker is one piece on both
      separators. */
  lemma WholePiece(y: string)
    requires NoChar(y, 'L') && NoChar(y, ',')
    ensures Split(Split(y, LrMarker)[0], ",")[0] == y
  {
    SplitNoChar(y, LrMarker);
    SplitNoChar(y, ",");
  }

  /** When all that follows the first "LR: [" holds neither 'L' nor ',' and
      is no number, `parse_lr_values` raises ValueError on all of it. */
  lemma LrWholeRestFails(pre: string, y: string)
    requires !Contains(pre, LrMarker) && NoChar(y, 'L') && NoChar(y, ',') && ParseFloat(y).None?
    ensures ParseLr(pre + LrMarker + y) == Failure(ValueError(y))
  {
    ParseLrAfterMarker(pre, y);
    WholePiece(y);
  }

  lemma BracketTextNoChar(lr: Fixed, w: string)
    requires ValidFixed(lr) && AllSpace(w)
    ensures NoChar(FixedText(lr) + "]" + w, 'L') && NoChar(FixedText(lr) + "]" + w, ',')
  {
    FixedTextNoChar(lr, 'L');
    FixedTextNoChar(lr, ',');
    assert NoChar("]" + w, 'L') && NoChar("]" + w, ',');
    NoCharAppend(FixedText(lr), "]" + w, 'L');
    NoCharAppend(FixedText(lr), "]" + w, ',');
    assert FixedText(lr) + ("]" + w) == FixedText(lr) + "]" + w;
  }

  /** With a single learning rate the list closes with "]" and no comma
      follows, so `parse_lr_values` hands "<decimal>]" and the line end to
      `float()`, which raises: the scan fails on every such log. */
  lemma LrSingleValueFails(pre: string, lr: Fixed, w: string)
    requires ValidFixed(lr) && !Contains(pre, LrMarker) && AllSpace(w)
    ensures ParseLr(pre + LrMarker + (FixedText(lr) + "]" + w))
      == Failure(ValueError(FixedText(lr) + "]" + w))
  {
    BracketTextNoChar(lr, w);
    ParseFloatTrailing(lr, ']', w);
    LrWholeRestFails(pre, FixedText(lr) + "]" + w);
  }

  /** A learning-rate line with no '*' around the list is no marker line. */
  lemma LrLineNoMarker(pre: string, lr: Fixed, rest: string)
    requires ValidFixed(lr) && NoChar(pre, '*') && NoChar(rest, '*')
    ensures Classify(LrLineText(pre, lr, rest)).None?
  {
    FixedTextNoChar(lr, '*');
    NoCharAppend(pre, LrMarker, '*');
    NoCharAppend(pre + LrMarker, FixedText(lr), '*');
    NoCharAppend(pre + LrMarker + FixedText(lr), ",", '*');
    NoCharAppend(pre + LrMarker + FixedText(lr) + ",", rest, '*');
    NoStarNoMarker(LrLineText(pre, lr, rest));
  }
}
