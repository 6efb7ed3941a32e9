/**
 * What `Differ.diff` returns, stated against the independent description
 * `Reported`: when it fails and with which error, that each list holds exactly
 * the paths `Reported` names, sorted and each once, that no path is in two
 * lists, that a tree compared with itself shows no difference, and that
 * comparing the trees the other way round swaps the one-sided lists.
 */
module DirDiffTheorems {
  import opened Wrappers
  import opened StringOrder
  import opened PosixPath
  import opened FileCmp
  import opened DirDiff
  import opened DirDiffProperties

  /** The `dircmp` `diff` starts from, once both roots are directories that
      can be listed. */
  function RootCmp(ignore: Option<seq<string>>, dir1: string, tree1: Option<Node>,
                   dir2: string, tree2: Option<Node>): (d: DirCmp)
    requires Listable(tree1) && Listable(tree2)
    ensures d.Valid() && d.leftDir == tree1.value && d.rightDir == tree2.value
    ensures d.left == dir1 && d.right == dir2
  {
    MakeDirCmp(dir1, dir2, tree1.value, tree2.value, ignore)
  }

  /** `diff` fails for a root that is missing, not a directory or not
      readable, the left one first; otherwise it fails exactly when the walk
      meets a directory it cannot list (an `OSError`) or the byte comparison
      meets a file it cannot open (an `IOError`, which never happens with a
      custom `match`). */
  lemma DiffErrors(matcher: Option<PathMatch>, ignore: Option<seq<string>>,
                   dir1: string, tree1: Option<Node>, dir2: string, tree2: Option<Node>)
    ensures var r := DiffResult(matcher, ignore, dir1, tree1, dir2, tree2);
            r.Ok? <==> Listable(tree1) && Listable(tree2) && Comparable(matcher, RootCmp(ignore, dir1, tree1, dir2, tree2))
    ensures var r := DiffResult(matcher, ignore, dir1, tree1, dir2, tree2);
            !Listable(tree1) ==> r == Err(OSError(dir1))
    ensures var r := DiffResult(matcher, ignore, dir1, tree1, dir2, tree2);
            Listable(tree1) && !Listable(tree2) ==> r == Err(OSError(dir2))
    ensures var r := DiffResult(matcher, ignore, dir1, tree1, dir2, tree2);
            Listable(tree1) && Listable(tree2) && r.Err? ==>
              (r.error.IOError? ==> matcher.None?) &&
              (r.error.OSError? ==> !AllListed(RootCmp(ignore, dir1, tree1, dir2, tree2)))
  {
    if Listable(tree1) && Listable(tree2) {
      var d := RootCmp(ignore, dir1, tree1, dir2, tree2);
      assert Render([]) == "";
      WalkOkIff(matcher, d, []);
      if Walk(matcher, d, "").Err? {
        WalkErrors(matcher, d, "");
      }
    }
  }

  /** With a custom `match`, `diff` fails only to list a directory: it
      succeeds exactly when both roots and every directory the walk reaches
      can be listed. */
  lemma CustomFailsOnlyListing(f: PathMatch, ignore: Option<seq<string>>,
                               dir1: string, tree1: Option<Node>, dir2: string, tree2: Option<Node>)
    ensures DiffResult(Some(f), ignore, dir1, tree1, dir2, tree2).Ok? <==>
            Listable(tree1) && Listable(tree2) && AllListed(RootCmp(ignore, dir1, tree1, dir2, tree2))
    ensures DiffResult(Some(f), ignore, dir1, tree1, dir2, tree2).Err? ==>
            DiffResult(Some(f), ignore, dir1, tree1, dir2, tree2).error.OSError?
  {
    if !(Listable(tree1) && Listable(tree2)) {
      DiffErrors(Some(f), ignore, dir1, tree1, dir2, tree2);
      return;
    }
    CustomComparable(f, RootCmp(ignore, dir1, tree1, dir2, tree2));
    DiffErrors(Some(f), ignore, dir1, tree1, dir2, tree2);
  }

  /** Sorting each list of the walk's result, list by list. */
  lemma SortEachGet(found: Buckets, b: Bucket)
    ensures Buckets(Sort(found.leftOnly), Sort(found.rightOnly), Sort(found.diffFiles)).Get(b) == Sort(found.Get(b))
  {
  }

  /** Each list `diff` returns is sorted, and holds the walk's paths with their
      multiplicities. */
  lemma DiffSorted(matcher: Option<PathMatch>, ignore: Option<seq<string>>,
                   dir1: string, tree1: Option<Node>, dir2: string, tree2: Option<Node>, b: Bucket)
    requires DiffResult(matcher, ignore, dir1, tree1, dir2, tree2).Ok?
    ensures Listable(tree1) && Listable(tree2)
    ensures var found := Walk(matcher, RootCmp(ignore, dir1, tree1, dir2, tree2), "");
            found.Ok? &&
            Sorted(DiffResult(matcher, ignore, dir1, tree1, dir2, tree2).value.Get(b)) &&
            multiset(DiffResult(matcher, ignore, dir1, tree1, dir2, tree2).value.Get(b)) == multiset(found.value.Get(b))
  {
    SortEachGet(Walk(matcher, RootCmp(ignore, dir1, tree1, dir2, tree2), "").value, b);
  }

  /** Every path in a list of `diff`'s result is one `Reported` puts there. */
  lemma DiffSound(matcher: Option<PathMatch>, ignore: Option<seq<string>>,
                  dir1: string, tree1: Option<Node>, dir2: string, tree2: Option<Node>, b: Bucket, p: string)
    returns (ns: seq<string>)
    requires DiffResult(matcher, ignore, dir1, tree1, dir2, tree2).Ok?
    requires p in DiffResult(matcher, ignore, dir1, tree1, dir2, tree2).value.Get(b)
    ensures Listable(tree1) && Listable(tree2)
    ensures Reported(matcher, RootCmp(ignore, dir1, tree1, dir2, tree2), b, ns) && p == Render(ns)
  {
    var d := RootCmp(ignore, dir1, tree1, dir2, tree2);
    DiffSorted(matcher, ignore, dir1, tree1, dir2, tree2, b);
    assert p in multiset(DiffResult(matcher, ignore, dir1, tree1, dir2, tree2).value.Get(b));
    assert Render([]) == "";
    ns := WalkSound(matcher, d, [], b, p);
    assert [] + ns == ns;
  }

  /** Every path `Reported` puts in a list is in that list of `diff`'s result. */
  lemma DiffComplete(matcher: Option<PathMatch>, ignore: Option<seq<string>>,
                     dir1: string, tree1: Option<Node>, dir2: string, tree2: Option<Node>, b: Bucket, ns: seq<string>)
    requires DiffResult(matcher, ignore, dir1, tree1, dir2, tree2).Ok?
    requires Listable(tree1) && Listable(tree2)
    requires Reported(matcher, RootCmp(ignore, dir1, tree1, dir2, tree2), b, ns)
    ensures Render(ns) in DiffResult(matcher, ignore, dir1, tree1, dir2, tree2).value.Get(b)
  {
    var d := RootCmp(ignore, dir1, tree1, dir2, tree2);
    DiffSorted(matcher, ignore, dir1, tree1, dir2, tree2, b);
    assert Render([]) == "";
    WalkComplete(matcher, d, [], b, ns);
    assert [] + ns == ns;
    assert Render(ns) in multiset(Walk(matcher, d, "").value.Get(b));
  }

  /** Both trees hold only names a listing can return. */
  predicate TreesWellFormed(d: DirCmp)
  {
    WellFormed(d.leftDir) && WellFormed(d.rightDir)
  }

  /** A reported path is a non-empty sequence of listable names, none of them
      ignored or hidden. */
  lemma {:induction false} ReportedShape(matcher: Option<PathMatch>, d: DirCmp, b: Bucket, ns: seq<string>)
    requires d.Valid() && TreesWellFormed(d) && Reported(matcher, d, b, ns)
    ensures ns != [] && ValidNames(ns)
    ensures forall k :: 0 <= k < |ns| ==> d.Shown(ns[k])
    decreases |ns|
  {
    assert ns[0] in d.leftDir.entries || ns[0] in d.rightDir.entries;
    if |ns| > 1 {
      var sub := d.Subdir(ns[0]);
      ReportedShape(matcher, sub, b, ns[1..]);
      forall k | 0 < k < |ns| ensures ValidName(ns[k]) && d.Shown(ns[k]) {
        assert ns[k] == ns[1..][k - 1];
      }
    }
  }

  /** No path is reported in two lists. */
  lemma {:induction false} ReportedExclusive(matcher: Option<PathMatch>, d: DirCmp, b1: Bucket, b2: Bucket, ns: seq<string>)
    requires d.Valid() && Reported(matcher, d, b1, ns) && Reported(matcher, d, b2, ns)
    ensures b1 == b2
    decreases |ns|
  {
    if |ns| > 1 {
      ReportedExclusive(matcher, d.Subdir(ns[0]), b1, b2, ns[1..]);
    }
  }

  /** The first name of a reported path is never one `dircmp` could not
      classify: neither a common name of two different kinds nor a common file
      `cmpfiles` could not compare. */
  lemma ReportedNotFunny(matcher: Option<PathMatch>, d: DirCmp, b: Bucket, ns: seq<string>)
    requires d.Valid() && Reported(matcher, d, b, ns)
    ensures ns[0] !in d.CommonFunny() && ns[0] !in d.FunnyFiles()
  {
  }

  /** A common subdirectory's trees are well formed too, and its name is a
      listable one. */
  lemma SubdirWellFormed(d: DirCmp, n: string)
    requires d.Valid() && TreesWellFormed(d) && n in d.DirSet()
    ensures TreesWellFormed(d.Subdir(n)) && ValidName(n)
  {
  }

  /** A path below `pre`: first the name of a subdirectory, then a path in it. */
  lemma ExtendValid(pre: seq<string>, n: string, ns: seq<string>)
    requires ValidNames(pre) && ValidName(n) && ValidNames(ns)
    ensures ValidNames(pre + [n] + ns) && (pre + [n] + ns)[|pre|] == n
  {
  }

  /** The names one level contributes to a list are listable and distinct. */
  lemma LevelListDistinct(matcher: Option<PathMatch>, d: DirCmp, b: Bucket)
    requires d.Valid() && TreesWellFormed(d) && LevelDiffFiles(matcher, d).Ok?
    ensures var names := Buckets(d.LeftOnly(), d.RightOnly(), LevelDiffFiles(matcher, d).value).Get(b);
            Distinct(names) && forall n :: n in names ==> ValidName(n)
  {
    LevelMembers(matcher, d);
    LevelListMembers(matcher, d, b);
  }

  /** Joining distinct listable names onto the same path gives distinct paths. */
  lemma PrefixedDistinct(pre: seq<string>, names: seq<string>)
    requires ValidNames(pre) && Distinct(names) && forall n :: n in names ==> ValidName(n)
    ensures Distinct(Prefixed(Render(pre), names))
  {
    var r := Prefixed(Render(pre), names);
    forall i, j | 0 <= i < j < |r| ensures r[i] != r[j] {
      var ni, nj := names[i], names[j];
      RenderSnoc(pre, ni);
      RenderSnoc(pre, nj);
      if r[i] == r[j] {
        ExtendValid(pre, ni, []);
        ExtendValid(pre, nj, []);
        assert pre + [ni] + [] == pre + [ni] && pre + [nj] + [] == pre + [nj];
        RenderInjective(pre + [ni], pre + [nj]);
        assert false;
      }
    }
  }

  /** A path found below a common subdirectory is not also found at this
      level: it has more names. */
  lemma BelowLevelSeparate(matcher: Option<PathMatch>, d: DirCmp, pre: seq<string>, b: Bucket, p: string)
    requires d.Valid() && TreesWellFormed(d) && ValidNames(pre) && Walk(matcher, d, Render(pre)).Ok?
    requires LevelDiffFiles(matcher, d).Ok?
    requires WalkSubdirs(matcher, d, Render(pre), |d.CommonDirs()|).Ok?
    requires p in WalkSubdirs(matcher, d, Render(pre), |d.CommonDirs()|).value.Get(b)
    ensures p !in Prefixed(Render(pre), Buckets(d.LeftOnly(), d.RightOnly(), LevelDiffFiles(matcher, d).value).Get(b))
  {
    var names := Buckets(d.LeftOnly(), d.RightOnly(), LevelDiffFiles(matcher, d).value).Get(b);
    var n := WalkBelowOrigin(matcher, d, pre, b, p);
    SubdirWellFormed(d, n);
    var ns := WalkSound(matcher, d.Subdir(n), pre + [n], b, p);
    ReportedShape(matcher, d.Subdir(n), b, ns);
    ExtendValid(pre, n, ns);
    if p in Prefixed(Render(pre), names) {
      var m := PrefixedOrigin(Render(pre), names, p);
      LevelListDistinct(matcher, d, b);
      RenderSnoc(pre, m);
      ExtendValid(pre, m, []);
      assert pre + [m] + [] == pre + [m];
      RenderInjective(pre + [n] + ns, pre + [m]);
      assert false;
    }
  }

  /** A path found below an earlier common subdirectory is not also found below
      a later one: the first of its names tells them apart. */
  lemma SubdirsSeparate(matcher: Option<PathMatch>, d: DirCmp, pre: seq<string>, j: nat, b: Bucket, p: string)
    requires d.Valid() && TreesWellFormed(d) && ValidNames(pre) && j < |d.CommonDirs()|
    requires WalkSubdirs(matcher, d, Render(pre), j).Ok?
    requires Walk(matcher, d.Subdir(d.CommonDirs()[j]), Render(pre + [d.CommonDirs()[j]])).Ok?
    requires p in WalkSubdirs(matcher, d, Render(pre), j).value.Get(b)
    ensures p !in Walk(matcher, d.Subdir(d.CommonDirs()[j]), Render(pre + [d.CommonDirs()[j]])).value.Get(b)
  {
    var dirs := d.CommonDirs();
    var k := SubdirsOrigin(matcher, d, Render(pre), j, b, p);
    var nk, nj := dirs[k], dirs[j];
    RenderSnoc(pre, nk);
    SubdirWellFormed(d, nk);
    var ns := WalkSound(matcher, d.Subdir(nk), pre + [nk], b, p);
    ReportedShape(matcher, d.Subdir(nk), b, ns);
    ExtendValid(pre, nk, ns);
    if p in Walk(matcher, d.Subdir(nj), Render(pre + [nj])).value.Get(b) {
      SubdirWellFormed(d, nj);
      var ms := WalkSound(matcher, d.Subdir(nj), pre + [nj], b, p);
      ReportedShape(matcher, d.Subdir(nj), b, ms);
      ExtendValid(pre, nj, ms);
      RenderInjective(pre + [nk] + ns, pre + [nj] + ms);
      assert false;
    }
  }

  /** The calls on the common subdirectories report each path at most once. */
  lemma {:induction false} SubdirsDistinct(matcher: Option<PathMatch>, d: DirCmp, pre: seq<string>, count: nat, b: Bucket)
    requires d.Valid() && TreesWellFormed(d) && ValidNames(pre) && count <= |d.CommonDirs()|
    requires WalkSubdirs(matcher, d, Render(pre), count).Ok?
    ensures Distinct(WalkSubdirs(matcher, d, Render(pre), count).value.Get(b))
    decreases d.leftDir, 0, count
  {
    if count > 0 {
      var j := count - 1;
      var n := d.CommonDirs()[j];
      SubdirsGet(matcher, d, Render(pre), count, j, b);
      SubdirsDistinct(matcher, d, pre, j, b);
      RenderSnoc(pre, n);
      SubdirWellFormed(d, n);
      ExtendValid(pre, n, []);
      assert pre + [n] + [] == pre + [n];
      WalkDistinct(matcher, d.Subdir(n), pre + [n], b);
      var before := WalkSubdirs(matcher, d, Render(pre), j).value.Get(b);
      var sub := Walk(matcher, d.Subdir(n), Render(pre + [n])).value.Get(b);
      forall p | p in before ensures p !in sub {
        SubdirsSeparate(matcher, d, pre, j, b, p);
      }
      DistinctConcat(before, sub);
    }
  }

  /** The walk reports each path at most once in each list. */
  lemma {:induction false} WalkDistinct(matcher: Option<PathMatch>, d: DirCmp, pre: seq<string>, b: Bucket)
    requires d.Valid() && TreesWellFormed(d) && ValidNames(pre) && Walk(matcher, d, Render(pre)).Ok?
    ensures Distinct(Walk(matcher, d, Render(pre)).value.Get(b))
    decreases d.leftDir, 1
  {
    WalkGet(matcher, d, Render(pre), b);
    SubdirsDistinct(matcher, d, pre, |d.CommonDirs()|, b);
    var names := Buckets(d.LeftOnly(), d.RightOnly(), LevelDiffFiles(matcher, d).value).Get(b);
    LevelListDistinct(matcher, d, b);
    PrefixedDistinct(pre, names);
    var below := WalkSubdirs(matcher, d, Render(pre), |d.CommonDirs()|).value.Get(b);
    forall p | p in below ensures p !in Prefixed(Render(pre), names) {
      BelowLevelSeparate(matcher, d, pre, b, p);
    }
    DistinctConcat(below, Prefixed(Render(pre), names));
  }

  /** Each list `diff` returns holds a path at most once. */
  lemma DiffDistinct(matcher: Option<PathMatch>, ignore: Option<seq<string>>,
                     dir1: string, tree1: Option<Node>, dir2: string, tree2: Option<Node>, b: Bucket)
    requires DiffResult(matcher, ignore, dir1, tree1, dir2, tree2).Ok?
    requires tree1.Some? && tree2.Some? && WellFormed(tree1.value) && WellFormed(tree2.value)
    ensures Distinct(DiffResult(matcher, ignore, dir1, tree1, dir2, tree2).value.Get(b))
  {
    var d := RootCmp(ignore, dir1, tree1, dir2, tree2);
    DiffSorted(matcher, ignore, dir1, tree1, dir2, tree2, b);
    assert Render([]) == "";
    WalkDistinct(matcher, d, [], b);
    DistinctPermutation(Walk(matcher, d, "").value.Get(b), DiffResult(matcher, ignore, dir1, tree1, dir2, tree2).value.Get(b));
  }

  /** No path is in two of the lists `diff` returns. */
  lemma DiffDisjoint(matcher: Option<PathMatch>, ignore: Option<seq<string>>,
                     dir1: string, tree1: Option<Node>, dir2: string, tree2: Option<Node>,
                     b1: Bucket, b2: Bucket, p: string)
    requires DiffResult(matcher, ignore, dir1, tree1, dir2, tree2).Ok?
    requires tree1.Some? && tree2.Some? && WellFormed(tree1.value) && WellFormed(tree2.value)
    requires p in DiffResult(matcher, ignore, dir1, tree1, dir2, tree2).value.Get(b1)
    requires p in DiffResult(matcher, ignore, dir1, tree1, dir2, tree2).value.Get(b2)
    ensures b1 == b2
  {
    var ns := DiffSound(matcher, ignore, dir1, tree1, dir2, tree2, b1, p);
    var ms := DiffSound(matcher, ignore, dir1, tree1, dir2, tree2, b2, p);
    var d := RootCmp(ignore, dir1, tree1, dir2, tree2);
    ReportedShape(matcher, d, b1, ns);
    ReportedShape(matcher, d, b2, ms);
    RenderInjective(ns, ms);
    ReportedExclusive(matcher, d, b1, b2, ns);
  }

  /** Every path `diff` reports spells a sequence of listable names none of
      which is ignored (the caller's `ignore` list, or `dircmp`'s default) or
      hidden. */
  lemma DiffShown(matcher: Option<PathMatch>, ignore: Option<seq<string>>,
                  dir1: string, tree1: Option<Node>, dir2: string, tree2: Option<Node>, b: Bucket, p: string)
    returns (ns: seq<string>)
    requires DiffResult(matcher, ignore, dir1, tree1, dir2, tree2).Ok?
    requires tree1.Some? && tree2.Some? && WellFormed(tree1.value) && WellFormed(tree2.value)
    requires p in DiffResult(matcher, ignore, dir1, tree1, dir2, tree2).value.Get(b)
    ensures p == Render(ns) && ns != [] && ValidNames(ns)
    ensures forall k :: 0 <= k < |ns| ==>
              ns[k] !in (if ignore.None? then DefaultIgnore else ignore.value) && ns[k] !in DefaultHide
  {
    ns := DiffSound(matcher, ignore, dir1, tree1, dir2, tree2, b, p);
    ReportedShape(matcher, RootCmp(ignore, dir1, tree1, dir2, tree2), b, ns);
  }

  /** Both sides of `d` are the same tree, which `diff` can compare with
      itself: every directory can be listed, every file readable when the
      bytes are compared, and with a
      custom `match`, the same path on both sides and a `match` that accepts a
      path paired with itself. */
  ghost predicate SelfCmp(matcher: Option<PathMatch>, d: DirCmp)
  {
    d.leftDir == d.rightDir && AllListable(d.leftDir) &&
    (matcher.None? ==> AllReadable(d.leftDir)) &&
    (matcher.Some? ==> d.left == d.right && forall q: string :: (q, q) in matcher.value)
  }

  lemma SelfSubdir(matcher: Option<PathMatch>, d: DirCmp, n: string)
    requires d.Valid() && SelfCmp(matcher, d) && n in d.DirSet()
    ensures SelfCmp(matcher, d.Subdir(n))
  {
  }

  /** Nothing is reported when a tree is compared with itself. */
  lemma {:induction false} SelfNotReported(matcher: Option<PathMatch>, d: DirCmp, b: Bucket, ns: seq<string>)
    requires d.Valid() && SelfCmp(matcher, d)
    ensures !Reported(matcher, d, b, ns)
    decreases |ns|
  {
    if |ns| == 1 && b == DiffFilesBucket && ns[0] in d.FileSet() {
      var n := ns[0];
      assert d.VerdictOf(n) == Equal;
      if matcher.Some? {
        assert (Join(d.left, n), Join(d.right, n)) in matcher.value;
      }
    } else if |ns| > 1 && ns[0] in d.DirSet() {
      SelfSubdir(matcher, d, ns[0]);
      SelfNotReported(matcher, d.Subdir(ns[0]), b, ns[1..]);
    }
  }

  /** A tree compared with itself can be compared throughout. */
  lemma {:induction false} SelfComparable(matcher: Option<PathMatch>, d: DirCmp)
    requires d.Valid() && SelfCmp(matcher, d)
    ensures Comparable(matcher, d)
    decreases d.leftDir
  {
    if matcher.None? {
      forall n | n in d.SameSet() ensures d.leftDir.entries[n].readable {
        assert AllReadable(d.leftDir.entries[n]);
      }
    }
    forall n | n in d.DirSet() ensures Comparable(matcher, d.Subdir(n)) {
      SelfSubdir(matcher, d, n);
      SelfComparable(matcher, d.Subdir(n));
    }
  }

  /** `diff(dir, dir)` on a directory finds no difference. */
  lemma DiffSelf(matcher: Option<PathMatch>, ignore: Option<seq<string>>, dir: string, tree: Option<Node>)
    requires Listable(tree) && AllListable(tree.value)
    requires matcher.None? ==> AllReadable(tree.value)
    requires matcher.Some? ==> forall q: string :: (q, q) in matcher.value
    ensures DiffResult(matcher, ignore, dir, tree, dir, tree) == Ok(NoPaths)
  {
    var d := RootCmp(ignore, dir, tree, dir, tree);
    SelfComparable(matcher, d);
    DiffErrors(matcher, ignore, dir, tree, dir, tree);
    var r := DiffResult(matcher, ignore, dir, tree, dir, tree).value;
    forall b: Bucket ensures r.Get(b) == [] {
      if r.Get(b) != [] {
        var ns := DiffSound(matcher, ignore, dir, tree, dir, tree, b, r.Get(b)[0]);
        SelfNotReported(matcher, d, b, ns);
      }
    }
    assert r.Get(LeftOnlyBucket) == [] && r.Get(RightOnlyBucket) == [] && r.Get(DiffFilesBucket) == [];
  }

  // ---------------------------------------------------------------------------
  // Comparing the trees the other way round

  /** The `dircmp` of the same two directories given in the other order. */
  function Swapped(d: DirCmp): DirCmp
  {
    DirCmp(d.right, d.left, d.rightDir, d.leftDir, d.ignore, d.hidden)
  }

  /** The list a path belongs in once the two sides change places. */
  function Mirror(b: Bucket): Bucket
  {
    match b
    case LeftOnlyBucket => RightOnlyBucket
    case RightOnlyBucket => LeftOnlyBucket
    case DiffFilesBucket => DiffFilesBucket
  }

  /** Swapping the sides swaps the shown names of each side and keeps the
      common files and subdirectories, whose `dircmp`s are swapped in turn. */
  lemma SwappedLevel(d: DirCmp)
    requires d.Valid()
    ensures Swapped(d).Valid()
    ensures Swapped(d).LeftNames() == d.RightNames() && Swapped(d).RightNames() == d.LeftNames()
    ensures Swapped(d).DirSet() == d.DirSet() && Swapped(d).FileSet() == d.FileSet()
    ensures forall n :: n in d.DirSet() ==> Swapped(d).Subdir(n) == Swapped(d.Subdir(n))
  {
  }

  /** The byte comparison judges a common file the same from either side. */
  lemma SwappedDifferent(d: DirCmp, n: string)
    requires d.Valid() && n in d.FileSet()
    ensures Swapped(d).Valid() && n in Swapped(d).FileSet()
    ensures ReportedDifferent(None, Swapped(d), n) == ReportedDifferent(None, d, n)
  {
    SwappedLevel(d);
  }

  /** A path belongs in a list exactly when, with the trees swapped, it belongs
      in the mirrored list; for the differing files this holds under the byte
      comparison, which is symmetric. */
  lemma {:induction false} ReportedSwapped(matcher: Option<PathMatch>, d: DirCmp, b: Bucket, ns: seq<string>)
    requires d.Valid() && (matcher.None? || b != DiffFilesBucket)
    ensures Swapped(d).Valid()
    ensures Reported(matcher, d, b, ns) <==> Reported(matcher, Swapped(d), Mirror(b), ns)
    decreases |ns|
  {
    SwappedLevel(d);
    if |ns| == 1 && b == DiffFilesBucket && ns[0] in d.FileSet() {
      SwappedDifferent(d, ns[0]);
    } else if |ns| > 1 && ns[0] in d.DirSet() {
      ReportedSwapped(matcher, d.Subdir(ns[0]), b, ns[1..]);
    }
  }

  /** `diff(dir2, dir1)` returns in the mirrored list what `diff(dir1, dir2)`
      returns in list `b`, when both return. */
  lemma DiffSwappedList(matcher: Option<PathMatch>, ignore: Option<seq<string>>,
                        dir1: string, tree1: Option<Node>, dir2: string, tree2: Option<Node>, b: Bucket)
    requires DiffResult(matcher, ignore, dir1, tree1, dir2, tree2).Ok?
    requires DiffResult(matcher, ignore, dir2, tree2, dir1, tree1).Ok?
    requires tree1.Some? && tree2.Some? && WellFormed(tree1.value) && WellFormed(tree2.value)
    requires matcher.None? || b != DiffFilesBucket
    ensures DiffResult(matcher, ignore, dir2, tree2, dir1, tree1).value.Get(Mirror(b))
         == DiffResult(matcher, ignore, dir1, tree1, dir2, tree2).value.Get(b)
  {
    var r1 := DiffResult(matcher, ignore, dir1, tree1, dir2, tree2).value.Get(b);
    var r2 := DiffResult(matcher, ignore, dir2, tree2, dir1, tree1).value.Get(Mirror(b));
    DiffSorted(matcher, ignore, dir1, tree1, dir2, tree2, b);
    DiffSorted(matcher, ignore, dir2, tree2, dir1, tree1, Mirror(b));
    DiffDistinct(matcher, ignore, dir1, tree1, dir2, tree2, b);
    DiffDistinct(matcher, ignore, dir2, tree2, dir1, tree1, Mirror(b));
    var d := RootCmp(ignore, dir1, tree1, dir2, tree2);
    assert RootCmp(ignore, dir2, tree2, dir1, tree1) == Swapped(d);
    forall p | p in r1 ensures p in r2 {
      var ns := DiffSound(matcher, ignore, dir1, tree1, dir2, tree2, b, p);
      ReportedSwapped(matcher, d, b, ns);
      DiffComplete(matcher, ignore, dir2, tree2, dir1, tree1, Mirror(b), ns);
    }
    forall p | p in r2 ensures p in r1 {
      var ns := DiffSound(matcher, ignore, dir2, tree2, dir1, tree1, Mirror(b), p);
      ReportedSwapped(matcher, d, b, ns);
      DiffComplete(matcher, ignore, dir1, tree1, dir2, tree2, b, ns);
    }
    SortedSameElements(r2, r1);
  }

  /** Comparing the trees the other way round swaps the two one-sided lists
      and, under the byte comparison, keeps the differing files, when both
      calls return. */
  lemma DiffSymmetric(matcher: Option<PathMatch>, ignore: Option<seq<string>>,
                      dir1: string, tree1: Option<Node>, dir2: string, tree2: Option<Node>)
    requires DiffResult(matcher, ignore, dir1, tree1, dir2, tree2).Ok?
    requires DiffResult(matcher, ignore, dir2, tree2, dir1, tree1).Ok?
    requires tree1.Some? && tree2.Some? && WellFormed(tree1.value) && WellFormed(tree2.value)
    ensures DiffResult(matcher, ignore, dir1, tree1, dir2, tree2).value.leftOnly
         == DiffResult(matcher, ignore, dir2, tree2, dir1, tree1).value.rightOnly
    ensures DiffResult(matcher, ignore, dir1, tree1, dir2, tree2).value.rightOnly
         == DiffResult(matcher, ignore, dir2, tree2, dir1, tree1).value.leftOnly
    ensures matcher.None? ==>
              DiffResult(matcher, ignore, dir1, tree1, dir2, tree2).value.diffFiles
              == DiffResult(matcher, ignore, dir2, tree2, dir1, tree1).value.diffFiles
  {
    var r := DiffResult(matcher, ignore, dir1, tree1, dir2, tree2).value;
    var s := DiffResult(matcher, ignore, dir2, tree2, dir1, tree1).value;
    DiffSwappedList(matcher, ignore, dir1, tree1, dir2, tree2, LeftOnlyBucket);
    assert s.Get(Mirror(LeftOnlyBucket)) == s.rightOnly && r.Get(LeftOnlyBucket) == r.leftOnly;
    DiffSwappedList(matcher, ignore, dir1, tree1, dir2, tree2, RightOnlyBucket);
    assert s.Get(Mirror(RightOnlyBucket)) == s.leftOnly && r.Get(RightOnlyBucket) == r.rightOnly;
    if matcher.None? {
      DiffSwappedList(matcher, ignore, dir1, tree1, dir2, tree2, DiffFilesBucket);
      assert s.Get(Mirror(DiffFilesBucket)) == s.diffFiles && r.Get(DiffFilesBucket) == r.diffFiles;
    }
  }
}
