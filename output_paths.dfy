/** Where the three charts are written: the log file's path with its
    extension replaced by "_loss.png", "_top1.png" or "_top5.png"
    (`os.path.splitext(path)[0] + suffix`). The path separators are a
    parameter: `{'/'}` on POSIX, `{'\\', '/'}` on Windows. */
module OutputPaths {

  const LossSuffix := "_loss.png"
  const Top1Suffix := "_top1.png"
  const Top5Suffix := "_top5.png"

  /** `p.rfind(c)` for any `c` in `cs`: the last index holding one of them,
      or -1. */
  function LastIndexIn(p: string, cs: set<char>): (r: int)
    ensures -1 <= r < |p|
    ensures r >= 0 ==> p[r] in cs
    ensures forall j :: r < j < |p| ==> p[j] !in cs
    decreases |p|
  {
    if |p| == 0 then -1
    else if p[|p| - 1] in cs then |p| - 1
    else LastIndexIn(p[..|p| - 1], cs)
  }

  /** Every character of `p[lo..hi]` is a dot. */
  predicate AllDots(p: string, lo: int, hi: int)
    requires 0 <= lo && hi <= |p|
  {
    forall j :: lo <= j < hi ==> p[j] == '.'
  }

  /** `os.path.splitext`: the extension starts at the last dot of the last
      path component, unless only dots precede it in that component (a
      leading-dot name such as ".bashrc" has no extension). */
  function SplitExt(p: string, seps: set<char>): (string, string)
  {
    var sepIndex := LastIndexIn(p, seps);
    var dotIndex := LastIndexIn(p, {'.'});
    if dotIndex > sepIndex && !AllDots(p, sepIndex + 1, dotIndex) then (p[..dotIndex], p[dotIndex..])
    else (p, "")
  }

  /** The path a chart is written to. */
  function OutputPath(p: string, seps: set<char>, suffix: string): string
  {
    SplitExt(p, seps).0 + suffix
  }

  function LossPlotPath(p: string, seps: set<char>): string
  {
    OutputPath(p, seps, LossSuffix)
  }

  function Top1PlotPath(p: string, seps: set<char>): string
  {
    OutputPath(p, seps, Top1Suffix)
  }

  function Top5PlotPath(p: string, seps: set<char>): string
  {
    OutputPath(p, seps, Top5Suffix)
  }

  /** Root and extension put back together give the path; the extension is
      empty or a dot followed by neither dots nor separators; a non-empty
      extension is preceded, in its path component, by a character other
      than a dot. */
  lemma SplitExtSpec(p: string, seps: set<char>)
    requires '.' !in seps
    ensures SplitExt(p, seps).0 + SplitExt(p, seps).1 == p
    ensures var ext := SplitExt(p, seps).1;
      ext == "" || (ext[0] == '.' && forall j :: 0 < j < |ext| ==> ext[j] != '.' && ext[j] !in seps)
    ensures var (root, ext) := SplitExt(p, seps);
      ext != "" ==> exists j :: 0 <= j < |root| && root[j] != '.' && forall k :: j < k < |root| ==> root[k] !in seps
  {
    var sepIndex := LastIndexIn(p, seps);
    var dotIndex := LastIndexIn(p, {'.'});
    var (root, ext) := SplitExt(p, seps);
    if ext != "" {
      assert ext == p[dotIndex..];
      assert root == p[..dotIndex];
      forall j | 0 < j < |ext| ensures ext[j] != '.' && ext[j] !in seps {
        assert ext[j] == p[dotIndex + j];
      }
      var j :| sepIndex + 1 <= j < dotIndex && p[j] != '.';
      assert root[j] == p[j];
    }
  }

  /** A path whose last component is a name, a dot and a dot-free,
      separator-free extension splits there. */
  lemma SplitExtOf(dir: string, name: string, ext: string, seps: set<char>)
    requires '.' !in seps
    requires |name| > 0 && name[0] != '.' && forall j :: 0 <= j < |name| ==> name[j] !in seps
    requires forall j :: 0 <= j < |ext| ==> ext[j] != '.' && ext[j] !in seps
    ensures SplitExt(dir + name + "." + ext, seps) == (dir + name, "." + ext)
  {
    var p := dir + name + "." + ext;
    var d := |dir| + |name|;
    assert p[d] == '.';
    forall j | d < j < |p| ensures p[j] != '.' && p[j] !in seps {
      assert p[j] == ext[j - d - 1];
    }
    forall j | |dir| <= j < d ensures p[j] !in seps {
      assert p[j] == name[j - |dir|];
    }
    var sepIndex := LastIndexIn(p, seps);
    var dotIndex := LastIndexIn(p, {'.'});
    assert dotIndex == d;
    assert sepIndex < |dir|;
    assert p[|dir|] == name[0];
    assert !AllDots(p, sepIndex + 1, dotIndex);
    assert p[..d] == dir + name;
    assert p[d..] == "." + ext;
  }

  /** A file name made of one leading dot and a dot-free name has no
      extension, with or without a directory in front: ".bashrc" and
      "logs/.bashrc" stay whole. */
  lemma DotNameHasNoExt(dir: string, name: string, seps: set<char>)
    requires '.' !in seps && (|dir| == 0 || dir[|dir| - 1] in seps)
    requires forall j :: 0 <= j < |name| ==> name[j] != '.' && name[j] !in seps
    ensures SplitExt(dir + "." + name, seps) == (dir + "." + name, "")
  {
    var p := dir + "." + name;
    forall j | |dir| < j < |p| ensures p[j] != '.' && p[j] !in seps {
      assert p[j] == name[j - |dir| - 1];
    }
    var sepIndex := LastIndexIn(p, seps);
    var dotIndex := LastIndexIn(p, {'.'});
    assert p[|dir|] == '.';
    if |dir| > 0 {
      assert p[|dir| - 1] in seps;
    }
    assert sepIndex == |dir| - 1;
    assert dotIndex == |dir|;
  }

  /** The three charts share the stem of the log's path, each ends in its
      own suffix, and no two of them, and none of them and the log itself,
      are the same path. */
  lemma PlotPathsDistinct(p: string, seps: set<char>)
    requires '.' !in seps
    ensures var stem := SplitExt(p, seps).0;
      && LossPlotPath(p, seps) == stem + LossSuffix
      && Top1PlotPath(p, seps) == stem + Top1Suffix
      && Top5PlotPath(p, seps) == stem + Top5Suffix
    ensures LossPlotPath(p, seps) != Top1PlotPath(p, seps)
    ensures LossPlotPath(p, seps) != Top5PlotPath(p, seps)
    ensures Top1PlotPath(p, seps) != Top5PlotPath(p, seps)
    ensures LossPlotPath(p, seps) != p && Top1PlotPath(p, seps) != p && Top5PlotPath(p, seps) != p
  {
    var (stem, ext) := SplitExt(p, seps);
    SplitExtSpec(p, seps);
    var n := |stem|;
    assert LossPlotPath(p, seps) == stem + LossSuffix;
    assert Top1PlotPath(p, seps) == stem + Top1Suffix;
    assert Top5PlotPath(p, seps) == stem + Top5Suffix;
    assert LossPlotPath(p, seps)[n + 1] == 'l';
    assert Top1PlotPath(p, seps)[n + 1] == 't' && Top1PlotPath(p, seps)[n + 4] == '1';
    assert Top5PlotPath(p, seps)[n + 1] == 't' && Top5PlotPath(p, seps)[n + 4] == '5';
    forall suffix | suffix in {LossSuffix, Top1Suffix, Top5Suffix} ensures OutputPath(p, seps, suffix) != p {
      if |p| >= n + |suffix| {
        assert OutputPath(p, seps, suffix)[n] == '_';
        assert p[n] == ext[0];
      }
    }
  }
}
