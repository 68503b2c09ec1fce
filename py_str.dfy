/** The pieces of Python's `str` and `list` behaviour the log scanner relies on:
    `sub in s`, `s.split(sep)`, negative list indexing, and the whitespace
    `int()` and `float()` strip. */
module PyStr {
  import opened Wrappers

  /** `s.startswith(prefix)`. */
  predicate StartsWith(s: string, prefix: string) {
    |prefix| <= |s| && s[..|prefix|] == prefix
  }

  /** `sub` occurs in `s` beginning at index `i`. */
  predicate OccursAt(s: string, sub: string, i: nat) {
    i + |sub| <= |s| && s[i..i + |sub|] == sub
  }

  /** Python's `sub in s`. */
  predicate Contains(s: string, sub: string)
    decreases |s|
  {
    StartsWith(s, sub) || (|s| > 0 && Contains(s[1..], sub))
  }

  /** No character of `s` is `c`. */
  predicate NoChar(s: string, c: char) {
    forall j :: 0 <= j < |s| ==> s[j] != c
  }

  /** Number of occurrences of the character `c` in `s` (`s.count(c)`). */
  function CountOf(s: string, c: char): nat
    decreases |s|
  {
    if |s| == 0 then 0 else (if s[0] == c then 1 else 0) + CountOf(s[1..], c)
  }

  /** Python's `s.split(sep)` for a non-empty separator: the pieces between
      the non-overlapping occurrences of `sep`, found from left to right. */
  function Split(s: string, sep: string): (parts: seq<string>)
    requires |sep| > 0
    ensures |parts| >= 1
    decreases |s|
  {
    if StartsWith(s, sep) then [""] + Split(s[|sep|..], sep)
    else if |s| == 0 then [""]
    else
      var rest := Split(s[1..], sep);
      [[s[0]] + rest[0]] + rest[1..]
  }

  /** Python's `sep.join(parts)`. */
  function Join(parts: seq<string>, sep: string): string
  {
    if |parts| == 0 then ""
    else if |parts| == 1 then parts[0]
    else parts[0] + sep + Join(parts[1..], sep)
  }

  /** The last element, as Python's `xs[-1]` gives it. */
  function Last<T>(xs: seq<T>): T
    requires |xs| > 0
  {
    xs[|xs| - 1]
  }

  /** Python's `xs[k]` for an integer index that may be negative; `None`
      where Python raises IndexError. */
  function PyIndex<T>(xs: seq<T>, k: int): Option<T>
  {
    if 0 <= k < |xs| then Some(xs[k])
    else if -|xs| <= k < 0 then Some(xs[|xs| + k])
    else None
  }

  /** The whitespace, among the first 256 code points, that `int()` and
      `float()` remove at both ends of their argument: the ASCII spaces
      ' ', '\t' to '\r', and NEL and NO-BREAK SPACE, which they first turn
      into ' '. The separators '\x1c' to '\x1f' count for `str.isspace` but
      are not removed, so `int("5\x1c")` raises. */
  predicate IsSpace(c: char) {
    c in {' ', '\t', '\n', '\r', '\U{0B}', '\U{0C}', '\U{85}', '\U{A0}'}
  }

  predicate AllSpace(s: string) {
    forall j :: 0 <= j < |s| ==> IsSpace(s[j])
  }

  /** Whitespace holds no character that is not whitespace. */
  lemma SpacesNoChar(w: string, c: char)
    requires AllSpace(w) && !IsSpace(c)
    ensures NoChar(w, c)
  {
  }

  function TrimStart(s: string): string
    decreases |s|
  {
    if |s| > 0 && IsSpace(s[0]) then TrimStart(s[1..]) else s
  }

  function TrimEnd(s: string): string
    decreases |s|
  {
    if |s| > 0 && IsSpace(s[|s| - 1]) then TrimEnd(s[..|s| - 1]) else s
  }

  /** The text `int()` and `float()` convert: their argument without the
      `IsSpace` whitespace at both ends. */
  function Strip(s: string): string
  {
    TrimEnd(TrimStart(s))
  }

  // ---------------------------------------------------------------------
  // Lemmas about split

  /** Joining after an empty first piece starts with the separator. */
  lemma JoinEmptyHead(parts: seq<string>, sep: string)
    requires |parts| >= 1
    ensures Join([""] + parts, sep) == sep + Join(parts, sep)
  {
    assert ([""] + parts)[1..] == parts;
  }

  /** Joining after a character is put in front of the first piece puts it
      in front of the whole. */
  lemma JoinConsHead(c: char, parts: seq<string>, sep: string)
    requires |parts| >= 1
    ensures Join([[c] + parts[0]] + parts[1..], sep) == [c] + Join(parts, sep)
  {
    var q := [[c] + parts[0]] + parts[1..];
    if |parts| > 1 {
      assert q[1..] == parts[1..];
    }
  }

  /** `split` and `join` are inverse: gluing the pieces back together with
      the separator gives the original string. */
  lemma {:induction false} SplitJoin(s: string, sep: string)
    requires |sep| > 0
    ensures Join(Split(s, sep), sep) == s
    decreases |s|
  {
    if StartsWith(s, sep) {
      SplitJoin(s[|sep|..], sep);
      JoinEmptyHead(Split(s[|sep|..], sep), sep);
      assert s == sep + s[|sep|..];
    } else if |s| > 0 {
      SplitJoin(s[1..], sep);
      JoinConsHead(s[0], Split(s[1..], sep), sep);
      assert s == [s[0]] + s[1..];
    }
  }

  /** There are at least two pieces exactly when the separator occurs. */
  lemma {:induction false} SplitLengthContains(s: string, sep: string)
    requires |sep| > 0
    ensures |Split(s, sep)| >= 2 <==> Contains(s, sep)
    decreases |s|
  {
    if !StartsWith(s, sep) && |s| > 0 {
      SplitLengthContains(s[1..], sep);
    }
  }

  /** Splitting on one character gives one piece more than the number of
      times the character occurs. */
  lemma {:induction false} SplitCharCount(s: string, c: char)
    ensures |Split(s, [c])| == CountOf(s, c) + 1
    decreases |s|
  {
    if StartsWith(s, [c]) {
      SplitCharCount(s[1..], c);
    } else if |s| > 0 {
      SplitCharCount(s[1..], c);
    }
  }

  lemma {:induction false} CountOfAppend(a: string, b: string, c: char)
    ensures CountOf(a + b, c) == CountOf(a, c) + CountOf(b, c)
    decreases |a|
  {
    if |a| > 0 {
      assert (a + b)[1..] == a[1..] + b;
      CountOfAppend(a[1..], b, c);
    } else {
      assert a + b == b;
    }
  }

  /** When no occurrence of `sep` begins inside `x`, the first piece of
      `x + y` is `x` followed by the first piece of `y`. */
  lemma {:induction false} SplitFreePrefix(x: string, y: string, sep: string)
    requires |sep| > 0
    requires forall j :: 0 <= j < |x| ==> !StartsWith((x + y)[j..], sep)
    ensures Split(x + y, sep) == [x + Split(y, sep)[0]] + Split(y, sep)[1..]
    decreases |x|
  {
    if |x| == 0 {
      assert x + y == y;
      assert x + Split(y, sep)[0] == Split(y, sep)[0];
      assert Split(y, sep) == [Split(y, sep)[0]] + Split(y, sep)[1..];
    } else {
      var s := x + y;
      assert s[0..] == s;
      assert !StartsWith(s, sep);
      assert s[1..] == x[1..] + y;
      forall j | 0 <= j < |x[1..]|
        ensures !StartsWith((x[1..] + y)[j..], sep)
      {
        assert (x[1..] + y)[j..] == s[j + 1..];
      }
      SplitFreePrefix(x[1..], y, sep);
      assert [s[0]] + (x[1..] + Split(y, sep)[0]) == x + Split(y, sep)[0];
    }
  }

  /** A string without the separator's first character holds no occurrence
      of the separator that begins inside it. */
  lemma NoCharNoStart(x: string, y: string, sep: string)
    requires |sep| > 0 && NoChar(x, sep[0])
    ensures forall j :: 0 <= j < |x| ==> !StartsWith((x + y)[j..], sep)
  {
    forall j | 0 <= j < |x|
      ensures !StartsWith((x + y)[j..], sep)
    {
      assert (x + y)[j..][0] == x[j];
    }
  }

  /** A string without the separator's first character is a single piece. */
  lemma SplitNoChar(x: string, sep: string)
    requires |sep| > 0 && NoChar(x, sep[0])
    ensures Split(x, sep) == [x]
  {
    NoCharNoStart(x, "", sep);
    assert x + "" == x;
    SplitFreePrefix(x, "", sep);
  }

  /** Splitting `x + sep + y`, where no occurrence of `sep` begins inside
      `x`, gives `x` and then the pieces of `y`. */
  lemma SplitAtFirst(x: string, sep: string, y: string)
    requires |sep| > 0
    requires forall j :: 0 <= j < |x| ==> !StartsWith((x + (sep + y))[j..], sep)
    ensures Split(x + sep + y, sep) == [x] + Split(y, sep)
  {
    assert x + sep + y == x + (sep + y);
    SplitFreePrefix(x, sep + y, sep);
    assert (sep + y)[|sep|..] == y;
    assert StartsWith(sep + y, sep);
    assert Split(sep + y, sep) == [""] + Split(y, sep);
    assert x + "" == x;
  }

  /** Splitting `x + sep + y`, where `x` lacks the separator's first
      character, gives `x` and then the pieces of `y`. */
  lemma SplitAtNoChar(x: string, sep: string, y: string)
    requires |sep| > 0 && NoChar(x, sep[0])
    ensures Split(x + sep + y, sep) == [x] + Split(y, sep)
  {
    NoCharNoStart(x, sep + y, sep);
    SplitAtFirst(x, sep, y);
  }

  /** With a one-character separator, the last piece of `x + [c] + y` is `y`
      when `y` holds no `c`. */
  lemma {:induction false} SplitCharLast(x: string, c: char, y: string)
    requires NoChar(y, c)
    ensures Last(Split(x + [c] + y, [c])) == y
    decreases |x|
  {
    var s := x + [c] + y;
    if |x| == 0 {
      assert s == [c] + y;
      assert s[1..] == y;
      SplitNoChar(y, [c]);
    } else {
      assert s[1..] == x[1..] + [c] + y;
      SplitCharLast(x[1..], c, y);
      if !StartsWith(s, [c]) {
        var rest := Split(s[1..], [c]);
        SplitCharCount(s[1..], c);
        CountOfAppend(x[1..] + [c], y, c);
        CountOfAppend(x[1..], [c], c);
        assert |rest| >= 2;
      }
    }
  }

  /** A separator that overlaps itself nowhere: no proper suffix is a prefix. */
  predicate BorderFree(sep: string) {
    forall k :: 0 < k < |sep| ==> sep[k..] != sep[..|sep| - k]
  }

  lemma {:induction false} OccursContains(s: string, sub: string, i: nat)
    ensures OccursAt(s, sub, i) ==> Contains(s, sub)
    decreases i
  {
    if i > 0 && OccursAt(s, sub, i) {
      assert s[1..][i - 1..i - 1 + |sub|] == s[i..i + |sub|];
      OccursContains(s[1..], sub, i - 1);
    } else if OccursAt(s, sub, i) {
      assert StartsWith(s, sub);
    }
  }

  lemma NoCharAppend(a: string, b: string, c: char)
    requires NoChar(a, c) && NoChar(b, c)
    ensures NoChar(a + b, c)
  {
    forall j | 0 <= j < |a + b| ensures (a + b)[j] != c {
      if j >= |a| {
        assert (a + b)[j] == b[j - |a|];
      }
    }
  }

  /** `sub in s` means `sub` occurs at some index of `s`. */
  lemma {:induction false} ContainsOccurs(s: string, sub: string)
    ensures Contains(s, sub) ==> exists i: nat :: OccursAt(s, sub, i)
    decreases |s|
  {
    if StartsWith(s, sub) {
      assert OccursAt(s, sub, 0);
    } else if |s| > 0 {
      ContainsOccurs(s[1..], sub);
      if Contains(s[1..], sub) {
        var i: nat :| OccursAt(s[1..], sub, i);
        assert s[i + 1..i + 1 + |sub|] == s[1..][i..i + |sub|];
        assert OccursAt(s, sub, i + 1);
      }
    }
  }

  /** A string without the first character of `sub` does not contain it. */
  lemma {:induction false} NoCharNotContains(s: string, sub: string)
    requires |sub| > 0 && NoChar(s, sub[0])
    ensures !Contains(s, sub)
    decreases |s|
  {
    if |s| > 0 {
      assert !StartsWith(s, sub) by {
        if |sub| <= |s| {
          assert s[..|sub|][0] == s[0];
        }
      }
      NoCharNotContains(s[1..], sub);
    }
  }

  /** An occurrence of `sep` that begins inside `pre` and runs past its end
      into `sep + y` makes a proper suffix of `sep` equal to a prefix of it. */
  lemma StraddleIsBorder(pre: string, sep: string, y: string, j: nat)
    requires j < |pre| < j + |sep|
    ensures StartsWith((pre + (sep + y))[j..], sep) ==>
              sep[|pre| - j..] == sep[..|sep| - (|pre| - j)]
  {
    var s := pre + (sep + y);
    var k := |pre| - j;
    if StartsWith(s[j..], sep) {
      forall m | 0 <= m < |sep| - k
        ensures sep[k..][m] == sep[..|sep| - k][m]
      {
        assert s[j..][k + m] == sep[k + m];
        assert s[j..][k + m] == s[|pre| + m];
      }
    }
  }

  /** If a border-free separator does not occur in `pre`, its first
      occurrence in `pre + sep + y` is the one right after `pre`. */
  lemma NoOccurrenceBefore(pre: string, sep: string, y: string)
    requires |sep| > 0 && BorderFree(sep) && !Contains(pre, sep)
    ensures forall j :: 0 <= j < |pre| ==> !StartsWith((pre + (sep + y))[j..], sep)
  {
    var s := pre + (sep + y);
    forall j | 0 <= j < |pre|
      ensures !StartsWith(s[j..], sep)
    {
      if j + |sep| <= |pre| {
        OccursContains(pre, sep, j);
        assert s[j..][..|sep|] == pre[j..j + |sep|];
      } else {
        StraddleIsBorder(pre, sep, y, j);
      }
    }
  }

  // ---------------------------------------------------------------------
  // Lemmas about stripping whitespace

  lemma {:induction false} TrimStartSpaces(w: string, u: string)
    requires AllSpace(w) && |u| > 0 && !IsSpace(u[0])
    ensures TrimStart(w + u) == u
    decreases |w|
  {
    if |w| == 0 {
      assert w + u == u;
    } else {
      assert (w + u)[1..] == w[1..] + u;
      TrimStartSpaces(w[1..], u);
    }
  }

  lemma {:induction false} TrimEndSpaces(u: string, w: string)
    requires AllSpace(w) && |u| > 0 && !IsSpace(u[|u| - 1])
    ensures TrimEnd(u + w) == u
    decreases |w|
  {
    if |w| == 0 {
      assert u + w == u;
    } else {
      var w' := w[..|w| - 1];
      assert (u + w)[..|u + w| - 1] == u + w';
      TrimEndSpaces(u, w');
    }
  }

  /** Stripping removes exactly the surrounding whitespace of a token that
      begins and ends with a non-space character. */
  lemma StripPadded(w1: string, t: string, w2: string)
    requires AllSpace(w1) && AllSpace(w2)
    requires |t| > 0 && !IsSpace(t[0]) && !IsSpace(t[|t| - 1])
    ensures Strip(w1 + t + w2) == t
  {
    assert w1 + t + w2 == w1 + (t + w2);
    TrimStartSpaces(w1, t + w2);
    TrimEndSpaces(t, w2);
  }
}
