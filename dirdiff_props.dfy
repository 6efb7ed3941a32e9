/**
 * What `Differ.diff` promises about its three lists, proved about the
 * functions `Walk` and `DiffResult` that the class methods are proved to
 * compute.
 *
 * `Reported` is an independent description of the result: the relative paths,
 * as sequences of names, that belong in each list, defined level by level from
 * the classification `dircmp` makes. The main theorem says the walk reports
 * exactly the paths those name sequences spell.
 */
module DirDiffProperties {
  import opened Wrappers
  import opened StringOrder
  import opened PosixPath
  import opened FileCmp
  import opened DirDiff

  /** Whether `_diff` reports the common file `n` as differing: a file `dircmp`
      could not compare is never reported; any other is reported when its
      bytes differ (no custom `match`) or when `match` rejects its two paths. */
  predicate ReportedDifferent(matcher: Option<PathMatch>, d: DirCmp, n: string)
    requires d.Valid() && n in d.FileSet()
  {
    d.VerdictOf(n) != Uncomparable &&
    match matcher
    case None => d.leftDir.entries[n].content != d.rightDir.entries[n].content
    case Some(f) => (Join(d.left, n), Join(d.right, n)) !in f
  }

  /** Whether one level contributes the name `n` to list `b`. */
  predicate InLevel(matcher: Option<PathMatch>, d: DirCmp, b: Bucket, n: string)
    requires d.Valid()
  {
    match b
    case LeftOnlyBucket => n in d.LeftNames() && n !in d.RightNames()
    case RightOnlyBucket => n in d.RightNames() && n !in d.LeftNames()
    case DiffFilesBucket => n in d.FileSet() && ReportedDifferent(matcher, d, n)
  }

  /** Whether the relative path `ns`, as a sequence of names, belongs in list
      `b`: a name this level contributes, or a common subdirectory's name
      followed by a path that belongs in `b` for that subdirectory. */
  predicate Reported(matcher: Option<PathMatch>, d: DirCmp, b: Bucket, ns: seq<string>)
    requires d.Valid()
    decreases |ns|
  {
    if |ns| == 0 then false
    else if |ns| == 1 then InLevel(matcher, d, b, ns[0])
    else ns[0] in d.DirSet() && Reported(matcher, d.Subdir(ns[0]), b, ns[1..])
  }

  /** A file some side cannot open, among those `dircmp` found shallow-equal. */
  predicate HasUnopenableSameFile(d: DirCmp)
    requires d.Valid()
  {
    exists n :: n in d.SameSet() && !(d.leftDir.entries[n].readable && d.rightDir.entries[n].readable)
  }

  /** The names one level reports as differing are exactly the comparable
      common files whose bytes differ (no custom `match`) or whose paths
      `match` rejects, each once. */
  lemma LevelMembers(matcher: Option<PathMatch>, d: DirCmp)
    requires d.Valid() && LevelDiffFiles(matcher, d).Ok?
    ensures forall n :: n in LevelDiffFiles(matcher, d).value <==> n in d.FileSet() && ReportedDifferent(matcher, d, n)
    ensures Distinct(LevelDiffFiles(matcher, d).value)
  {
    var mf := MatchFuncFor(matcher);
    var extra := FilterDifferent(mf, d, d.SameFiles());
    var kept := if matcher.Some? then FilterDifferent(mf, d, d.DiffFiles()) else Ok(d.DiffFiles());
    assert kept.Ok? && extra.Ok?;
    assert LevelDiffFiles(matcher, d).value == kept.value + extra.value;
    forall n ensures n in kept.value + extra.value <==> n in d.FileSet() && ReportedDifferent(matcher, d, n) {
      if n in d.FileSet() {
        var l, r := d.leftDir.entries[n], d.rightDir.entries[n];
        if d.VerdictOf(n) == Equal {
          assert n in d.SameFiles();
          assert |l.content| == |r.content|;
        } else if d.VerdictOf(n) == Unequal {
          assert n in d.DiffFiles();
        }
      }
    }
    LevelDistinct(matcher, d);
  }

  /** One level reports each differing name once. */
  lemma LevelDistinct(matcher: Option<PathMatch>, d: DirCmp)
    requires d.Valid() && LevelDiffFiles(matcher, d).Ok?
    ensures Distinct(LevelDiffFiles(matcher, d).value)
  {
    var mf := MatchFuncFor(matcher);
    var extra := FilterDifferent(mf, d, d.SameFiles());
    var kept := if matcher.Some? then FilterDifferent(mf, d, d.DiffFiles()) else Ok(d.DiffFiles());
    assert kept.Ok? && extra.Ok?;
    assert LevelDiffFiles(matcher, d).value == kept.value + extra.value;
    FilterDifferentDistinct(mf, d, d.SameFiles());
    if matcher.Some? {
      FilterDifferentDistinct(mf, d, d.DiffFiles());
    }
    DistinctConcat(kept.value, extra.value);
  }

  /** Filtering keeps a list of names free of duplicates. */
  lemma {:induction false} FilterDifferentDistinct(mf: MatchFunc, d: DirCmp, names: seq<string>)
    requires d.Valid()
    requires forall n :: n in names ==> n in d.FileSet()
    requires Distinct(names) && FilterDifferent(mf, d, names).Ok?
    ensures Distinct(FilterDifferent(mf, d, names).value)
  {
    if names != [] {
      assert Distinct(names[1..]) by {
        forall i, j | 0 <= i < j < |names[1..]| ensures names[1..][i] != names[1..][j] {
          assert names[1..][i] == names[i + 1] && names[1..][j] == names[j + 1];
        }
      }
      FilterDifferentDistinct(mf, d, names[1..]);
      assert names[0] !in names[1..];
    }
  }

  /** Filtering fails exactly when the match function fails on one of the
      names. */
  lemma FilterFails(mf: MatchFunc, d: DirCmp, names: seq<string>)
    requires d.Valid()
    requires forall n :: n in names ==> n in d.FileSet()
    ensures FilterDifferent(mf, d, names).Err? <==> exists n :: n in names && IsSame(mf, d, n).Err?
  {
  }

  /** A level fails when one of its two directories cannot be listed, with
      the `OSError` naming it (the left one first); otherwise only the byte
      comparison fails, and it fails exactly when a file that `dircmp` found
      shallow-equal cannot be opened, with an `IOError`. */
  lemma LevelErrors(matcher: Option<PathMatch>, d: DirCmp)
    requires d.Valid()
    ensures LevelDiffFiles(matcher, d).Err? <==> d.ListError().Some? || (matcher.None? && HasUnopenableSameFile(d))
    ensures d.ListError().Some? ==> LevelDiffFiles(matcher, d) == Err(OSError(d.ListError().value))
    ensures d.ListError().None? && LevelDiffFiles(matcher, d).Err? ==> LevelDiffFiles(matcher, d).error.IOError?
  {
    if d.ListError().Some? {
      return;
    }
    var mf := MatchFuncFor(matcher);
    FilterFails(mf, d, d.SameFiles());
    if matcher.Some? {
      FilterFails(mf, d, d.DiffFiles());
    } else {
      if HasUnopenableSameFile(d) {
        var n :| n in d.SameSet() && !(d.leftDir.entries[n].readable && d.rightDir.entries[n].readable);
        assert n in d.SameFiles();
        assert |d.leftDir.entries[n].content| == |d.rightDir.entries[n].content|;
        assert IsSame(mf, d, n).Err?;
      }
      assert FilterDifferent(mf, d, d.SameFiles()).Err? ==> HasUnopenableSameFile(d);
    }
  }

  /** How one call of `_diff` arranges its list `b`: everything below, then
      this level's names under `leadingPath`. */
  lemma WalkGet(matcher: Option<PathMatch>, d: DirCmp, leadingPath: string, b: Bucket)
    requires d.Valid() && Walk(matcher, d, leadingPath).Ok?
    ensures LevelDiffFiles(matcher, d).Ok?
    ensures WalkSubdirs(matcher, d, leadingPath, |d.CommonDirs()|).Ok?
    ensures Walk(matcher, d, leadingPath).value.Get(b)
         == WalkSubdirs(matcher, d, leadingPath, |d.CommonDirs()|).value.Get(b)
            + Prefixed(leadingPath, Buckets(d.LeftOnly(), d.RightOnly(), LevelDiffFiles(matcher, d).value).Get(b))
  {
  }

  /** How the calls on the first `count` common subdirectories arrange list
      `b`: those on the first `j`, then the call on the `j`-th, the last. */
  lemma SubdirsGet(matcher: Option<PathMatch>, d: DirCmp, leadingPath: string, count: nat, j: nat, b: Bucket)
    requires d.Valid() && 0 < count <= |d.CommonDirs()| && j == count - 1
    requires WalkSubdirs(matcher, d, leadingPath, count).Ok?
    ensures WalkSubdirs(matcher, d, leadingPath, j).Ok?
    ensures Walk(matcher, d.Subdir(d.CommonDirs()[j]), Join(leadingPath, d.CommonDirs()[j])).Ok?
    ensures WalkSubdirs(matcher, d, leadingPath, count).value.Get(b)
         == WalkSubdirs(matcher, d, leadingPath, j).value.Get(b)
            + Walk(matcher, d.Subdir(d.CommonDirs()[j]), Join(leadingPath, d.CommonDirs()[j])).value.Get(b)
  {
    var name := d.CommonDirs()[j];
    var before := WalkSubdirs(matcher, d, leadingPath, j);
    var sub := Walk(matcher, d.Subdir(name), Join(leadingPath, name));
    assert before.Ok? && sub.Ok?;
    assert WalkSubdirs(matcher, d, leadingPath, count).value == before.value.Append(sub.value);
  }

  /** A name is in this level's list `b` exactly when `InLevel` says so. */
  lemma LevelListMembers(matcher: Option<PathMatch>, d: DirCmp, b: Bucket)
    requires d.Valid() && LevelDiffFiles(matcher, d).Ok?
    ensures forall n :: n in Buckets(d.LeftOnly(), d.RightOnly(), LevelDiffFiles(matcher, d).value).Get(b)
                        <==> InLevel(matcher, d, b, n)
  {
    LevelMembers(matcher, d);
  }

  /** What the call on the `k`-th common subdirectory reports is among what
      the calls on the first `count` of them report. */
  lemma {:induction false} SubdirsIncludes(matcher: Option<PathMatch>, d: DirCmp, leadingPath: string, count: nat,
                                           b: Bucket, k: nat, p: string)
    requires d.Valid() && k < count <= |d.CommonDirs()|
    requires WalkSubdirs(matcher, d, leadingPath, count).Ok?
    ensures Walk(matcher, d.Subdir(d.CommonDirs()[k]), Join(leadingPath, d.CommonDirs()[k])).Ok?
    ensures p in Walk(matcher, d.Subdir(d.CommonDirs()[k]), Join(leadingPath, d.CommonDirs()[k])).value.Get(b)
            ==> p in WalkSubdirs(matcher, d, leadingPath, count).value.Get(b)
  {
    if count == k + 1 {
      SubdirsGet(matcher, d, leadingPath, count, k, b);
    } else {
      var j := count - 1;
      SubdirsGet(matcher, d, leadingPath, count, j, b);
      SubdirsIncludes(matcher, d, leadingPath, j, b, k, p);
    }
  }

  /** Whatever the calls on the first `count` common subdirectories report
      comes from the call on one of them. */
  lemma {:induction false} SubdirsOrigin(matcher: Option<PathMatch>, d: DirCmp, leadingPath: string, count: nat,
                                         b: Bucket, p: string)
    returns (k: nat)
    requires d.Valid() && count <= |d.CommonDirs()|
    requires WalkSubdirs(matcher, d, leadingPath, count).Ok?
    requires p in WalkSubdirs(matcher, d, leadingPath, count).value.Get(b)
    ensures k < count
    ensures Walk(matcher, d.Subdir(d.CommonDirs()[k]), Join(leadingPath, d.CommonDirs()[k])).Ok?
    ensures p in Walk(matcher, d.Subdir(d.CommonDirs()[k]), Join(leadingPath, d.CommonDirs()[k])).value.Get(b)
  {
    var j := count - 1;
    SubdirsGet(matcher, d, leadingPath, count, j, b);
    if p in WalkSubdirs(matcher, d, leadingPath, j).value.Get(b) {
      k := SubdirsOrigin(matcher, d, leadingPath, j, b, p);
    } else {
      k := j;
    }
  }

  /** A name this level contributes to list `b` is reported there, under the
      leading path. */
  lemma WalkHasLevel(matcher: Option<PathMatch>, d: DirCmp, pre: seq<string>, b: Bucket, n: string)
    requires d.Valid() && Walk(matcher, d, Render(pre)).Ok?
    requires InLevel(matcher, d, b, n)
    ensures Render(pre + [n]) in Walk(matcher, d, Render(pre)).value.Get(b)
  {
    var lead := Render(pre);
    WalkGet(matcher, d, lead, b);
    var names := Buckets(d.LeftOnly(), d.RightOnly(), LevelDiffFiles(matcher, d).value).Get(b);
    LevelListMembers(matcher, d, b);
    var i :| 0 <= i < |names| && names[i] == n;
    RenderSnoc(pre, n);
    assert Prefixed(lead, names)[i] == Render(pre + [n]);
  }

  /** What the call on a common subdirectory reports is reported by the walk. */
  lemma WalkHasBelow(matcher: Option<PathMatch>, d: DirCmp, pre: seq<string>, b: Bucket, n: string, p: string)
    requires d.Valid() && Walk(matcher, d, Render(pre)).Ok?
    requires n in d.DirSet()
    ensures Walk(matcher, d.Subdir(n), Render(pre + [n])).Ok?
    ensures p in Walk(matcher, d.Subdir(n), Render(pre + [n])).value.Get(b)
            ==> p in Walk(matcher, d, Render(pre)).value.Get(b)
  {
    var lead := Render(pre);
    WalkGet(matcher, d, lead, b);
    var dirs := d.CommonDirs();
    var k :| 0 <= k < |dirs| && dirs[k] == n;
    SubdirsIncludes(matcher, d, lead, |dirs|, b, k, p);
    RenderSnoc(pre, n);
  }

  /** Each path `make_path` produced is a name of the list under the leading path. */
  lemma PrefixedOrigin(leadingPath: string, names: seq<string>, p: string) returns (n: string)
    requires p in Prefixed(leadingPath, names)
    ensures n in names && p == Join(leadingPath, n)
  {
    var i :| 0 <= i < |names| && p == Prefixed(leadingPath, names)[i];
    n := names[i];
  }

  /** A path the walk reports outside the calls on common subdirectories is a
      name this level contributes, under the leading path. */
  lemma WalkLevelOrigin(matcher: Option<PathMatch>, d: DirCmp, pre: seq<string>, b: Bucket, p: string)
    returns (n: string)
    requires d.Valid() && Walk(matcher, d, Render(pre)).Ok?
    requires p in Walk(matcher, d, Render(pre)).value.Get(b)
    requires p !in WalkSubdirs(matcher, d, Render(pre), |d.CommonDirs()|).value.Get(b)
    ensures InLevel(matcher, d, b, n) && Reported(matcher, d, b, [n]) && p == Render(pre + [n])
  {
    var lead := Render(pre);
    WalkGet(matcher, d, lead, b);
    var names := Buckets(d.LeftOnly(), d.RightOnly(), LevelDiffFiles(matcher, d).value).Get(b);
    n := PrefixedOrigin(lead, names, p);
    LevelListMembers(matcher, d, b);
    RenderSnoc(pre, n);
  }

  /** A path the calls on common subdirectories report comes from the call on
      one of them. */
  lemma WalkBelowOrigin(matcher: Option<PathMatch>, d: DirCmp, pre: seq<string>, b: Bucket, p: string)
    returns (n: string)
    requires d.Valid() && Walk(matcher, d, Render(pre)).Ok?
    requires p in WalkSubdirs(matcher, d, Render(pre), |d.CommonDirs()|).value.Get(b)
    ensures n in d.DirSet()
    ensures Walk(matcher, d.Subdir(n), Render(pre + [n])).Ok?
    ensures p in Walk(matcher, d.Subdir(n), Render(pre + [n])).value.Get(b)
  {
    var lead := Render(pre);
    WalkGet(matcher, d, lead, b);
    var k := SubdirsOrigin(matcher, d, lead, |d.CommonDirs()|, b, p);
    n := d.CommonDirs()[k];
    RenderSnoc(pre, n);
  }

  /** Every name sequence `Reported` for `d` is reported by the walk below
      `d`, under the path of `pre`. */
  lemma {:induction false} WalkComplete(matcher: Option<PathMatch>, d: DirCmp, pre: seq<string>, b: Bucket, ns: seq<string>)
    requires d.Valid() && Walk(matcher, d, Render(pre)).Ok?
    requires Reported(matcher, d, b, ns)
    ensures Render(pre + ns) in Walk(matcher, d, Render(pre)).value.Get(b)
    decreases d.leftDir
  {
    if |ns| == 1 {
      WalkHasLevel(matcher, d, pre, b, ns[0]);
    } else {
      ConsAfter(pre, ns);
      WalkHasBelow(matcher, d, pre, b, ns[0], Render(pre + ns));
      WalkComplete(matcher, d.Subdir(ns[0]), pre + [ns[0]], b, ns[1..]);
    }
  }

  /** A name sequence reported below the subdirectory `n` is, with `n` in
      front, reported for `d`, and its path under `pre` is unchanged. */
  lemma ReportedCons(matcher: Option<PathMatch>, d: DirCmp, b: Bucket, pre: seq<string>, n: string, rest: seq<string>)
    requires d.Valid() && n in d.DirSet()
    requires Reported(matcher, d.Subdir(n), b, rest)
    ensures Reported(matcher, d, b, [n] + rest)
    ensures Render(pre + [n] + rest) == Render(pre + ([n] + rest))
  {
    assert rest != [];
    assert ([n] + rest)[1..] == rest;
    ConsAfter(pre, [n] + rest);
  }

  /** Every path the walk below `d` reports, under the path of `pre`, is that
      of a name sequence `Reported` for `d`. */
  lemma {:induction false} WalkSound(matcher: Option<PathMatch>, d: DirCmp, pre: seq<string>, b: Bucket, p: string)
    returns (ns: seq<string>)
    requires d.Valid() && Walk(matcher, d, Render(pre)).Ok?
    requires p in Walk(matcher, d, Render(pre)).value.Get(b)
    ensures Reported(matcher, d, b, ns) && p == Render(pre + ns)
    decreases d.leftDir
  {
    if p in WalkSubdirs(matcher, d, Render(pre), |d.CommonDirs()|).value.Get(b) {
      var n := WalkBelowOrigin(matcher, d, pre, b, p);
      var rest := WalkSound(matcher, d.Subdir(n), pre + [n], b, p);
      ns := [n] + rest;
      ReportedCons(matcher, d, b, pre, n, rest);
    } else {
      var n := WalkLevelOrigin(matcher, d, pre, b, p);
      ns := [n];
    }
  }

  /** Whether both directories of every level reached through common
      subdirectories can be listed. */
  predicate AllListed(d: DirCmp)
    requires d.Valid()
    decreases d.leftDir
  {
    d.ListError().None? && forall n :: n in d.DirSet() ==> AllListed(d.Subdir(n))
  }

  /** Whether, at this level and below, both directories can be listed and
      the byte comparison can open every file it is asked about (always, with
      a custom `match`). */
  predicate Comparable(matcher: Option<PathMatch>, d: DirCmp)
    requires d.Valid()
    decreases d.leftDir
  {
    d.ListError().None? &&
    (matcher.None? ==> !HasUnopenableSameFile(d)) &&
    forall n :: n in d.DirSet() ==> Comparable(matcher, d.Subdir(n))
  }

  /** One call more: the calls on the first `count` common subdirectories
      succeed exactly when those on the first `j` and the one on the `j`-th do. */
  lemma SubdirsStep(matcher: Option<PathMatch>, d: DirCmp, leadingPath: string, count: nat, j: nat)
    requires d.Valid() && 0 < count <= |d.CommonDirs()| && j == count - 1
    ensures WalkSubdirs(matcher, d, leadingPath, count).Ok?
        <==> WalkSubdirs(matcher, d, leadingPath, j).Ok?
             && Walk(matcher, d.Subdir(d.CommonDirs()[j]), Join(leadingPath, d.CommonDirs()[j])).Ok?
  {
    if WalkSubdirs(matcher, d, leadingPath, count).Ok? {
      SubdirsGet(matcher, d, leadingPath, count, j, LeftOnlyBucket);
    } else {
      SubdirsStepError(matcher, d, leadingPath, count, j);
    }
  }

  /** ... and otherwise fail with the error of the first call that failed. */
  lemma SubdirsStepError(matcher: Option<PathMatch>, d: DirCmp, leadingPath: string, count: nat, j: nat)
    requires d.Valid() && 0 < count <= |d.CommonDirs()| && j == count - 1
    requires WalkSubdirs(matcher, d, leadingPath, count).Err?
    ensures var before := WalkSubdirs(matcher, d, leadingPath, j);
            var sub := Walk(matcher, d.Subdir(d.CommonDirs()[j]), Join(leadingPath, d.CommonDirs()[j]));
            var failure := WalkSubdirs(matcher, d, leadingPath, count);
            (before.Err? && failure.error == before.error) ||
            (before.Ok? && sub.Err? && failure.error == sub.error)
  {
    var before := WalkSubdirs(matcher, d, leadingPath, j);
    var name := d.CommonDirs()[j];
    if before.Err? {
      assert WalkSubdirs(matcher, d, leadingPath, count) == Err(before.error);
    } else {
      var sub := Walk(matcher, d.Subdir(name), Join(leadingPath, name));
      assert WalkSubdirs(matcher, d, leadingPath, count) == Err(sub.error);
    }
  }

  /** With a custom `match` a tree is comparable exactly when every
      directory the walk reaches can be listed. */
  lemma {:induction false} CustomComparable(f: PathMatch, d: DirCmp)
    requires d.Valid()
    ensures Comparable(Some(f), d) <==> AllListed(d)
    decreases d.leftDir
  {
    forall n | n in d.DirSet() ensures Comparable(Some(f), d.Subdir(n)) <==> AllListed(d.Subdir(n)) {
      CustomComparable(f, d.Subdir(n));
    }
  }

  /** The walk succeeds exactly when every directory it reaches can be listed
      and every file the byte comparison opens can be opened. */
  lemma {:induction false} WalkOkIff(matcher: Option<PathMatch>, d: DirCmp, pre: seq<string>)
    requires d.Valid()
    ensures Walk(matcher, d, Render(pre)).Ok? <==> Comparable(matcher, d)
    decreases d.leftDir, 1
  {
    LevelErrors(matcher, d);
    if Walk(matcher, d, Render(pre)).Ok? {
      WalkGet(matcher, d, Render(pre), LeftOnlyBucket);
      forall n | n in d.DirSet() ensures Comparable(matcher, d.Subdir(n)) {
        WalkHasBelow(matcher, d, pre, LeftOnlyBucket, n, "");
        WalkOkIff(matcher, d.Subdir(n), pre + [n]);
      }
    } else if Comparable(matcher, d) {
      SubdirsOk(matcher, d, pre, |d.CommonDirs()|);
      assert false;
    }
  }

  /** The calls on comparable subdirectories all succeed. */
  lemma {:induction false} SubdirsOk(matcher: Option<PathMatch>, d: DirCmp, pre: seq<string>, count: nat)
    requires d.Valid() && count <= |d.CommonDirs()| && Comparable(matcher, d)
    ensures WalkSubdirs(matcher, d, Render(pre), count).Ok?
    decreases d.leftDir, 0, count
  {
    if count > 0 {
      var j := count - 1;
      var n := d.CommonDirs()[j];
      SubdirsStep(matcher, d, Render(pre), count, j);
      SubdirsOk(matcher, d, pre, j);
      RenderSnoc(pre, n);
      WalkOkIff(matcher, d.Subdir(n), pre + [n]);
    }
  }

  /** The walk fails with an `IOError` only without a custom `match`, and with
      an `OSError` only when a directory it reaches cannot be listed. */
  lemma {:induction false} WalkErrors(matcher: Option<PathMatch>, d: DirCmp, leadingPath: string)
    requires d.Valid() && Walk(matcher, d, leadingPath).Err?
    ensures Walk(matcher, d, leadingPath).error.IOError? ==> matcher.None?
    ensures Walk(matcher, d, leadingPath).error.OSError? ==> !AllListed(d)
    decreases d.leftDir, 1
  {
    LevelErrors(matcher, d);
    if LevelDiffFiles(matcher, d).Ok? {
      SubdirsErrors(matcher, d, leadingPath, |d.CommonDirs()|);
    }
  }

  lemma {:induction false} SubdirsErrors(matcher: Option<PathMatch>, d: DirCmp, leadingPath: string, count: nat)
    requires d.Valid() && count <= |d.CommonDirs()|
    requires WalkSubdirs(matcher, d, leadingPath, count).Err?
    ensures WalkSubdirs(matcher, d, leadingPath, count).error.IOError? ==> matcher.None?
    ensures WalkSubdirs(matcher, d, leadingPath, count).error.OSError? ==> !AllListed(d)
    decreases d.leftDir, 0, count
  {
    var j := count - 1;
    var n := d.CommonDirs()[j];
    SubdirsStepError(matcher, d, leadingPath, count, j);
    if WalkSubdirs(matcher, d, leadingPath, j).Err? {
      SubdirsErrors(matcher, d, leadingPath, j);
    } else {
      WalkErrors(matcher, d.Subdir(n), Join(leadingPath, n));
    }
  }
}
