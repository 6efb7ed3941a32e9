/**
 * `Differ` from molt/general/dirdiff.py: a recursive comparison of two
 * directory trees that reports the paths found only on the left, only on the
 * right, and the common files that do not match, each list sorted.
 *
 * The walk is specified by the functions `Walk` and `WalkSubdirs`, which compute
 * what one call of `_diff` appends to the result lists; `DiffResult` is what
 * `diff` returns. The class methods are proved to compute exactly these.
 */
module DirDiff {
  import opened Wrappers
  import opened StringOrder
  import opened PosixPath
  import opened FileCmp

  /** A caller-supplied `match(path1, path2)`. */
  type PathMatch = iset<(string, string)>

  /** The function `Differ` asks whether two files are the same: the byte
      comparison `Differ.contents_match`, or the caller's `match`. */
  datatype MatchFunc = ContentsMatch | Custom(f: PathMatch)

  /** `OSError` from listing a path that is missing, not a directory or not
      readable; `IOError` from opening a file that cannot be read. */
  datatype Error = OSError(path: string) | IOError(path: string)

  /** The three result lists, in the order `diff` returns them. */
  datatype Buckets = Buckets(leftOnly: seq<string>, rightOnly: seq<string>, diffFiles: seq<string>)
  {
    function Append(other: Buckets): Buckets
    {
      Buckets(leftOnly + other.leftOnly, rightOnly + other.rightOnly, diffFiles + other.diffFiles)
    }

    function Get(b: Bucket): seq<string>
    {
      match b
      case LeftOnlyBucket => leftOnly
      case RightOnlyBucket => rightOnly
      case DiffFilesBucket => diffFiles
    }
  }

  datatype Bucket = LeftOnlyBucket | RightOnlyBucket | DiffFilesBucket

  const NoPaths := Buckets([], [], [])

  /** What `__init__` stores as `match_func`. */
  function MatchFuncFor(matcher: Option<PathMatch>): MatchFunc
  {
    if matcher.None? then ContentsMatch else Custom(matcher.value)
  }

  /** `Differ.contents_match(path1, path2)`, that is `filecmp.cmp(path1, path2,
      shallow=False)`, on the nodes found at the two paths: anything but two
      regular files is unequal, files of different sizes are unequal without
      being opened, and otherwise both are opened (the first one first) and
      their bytes compared. A `Special` node is taken to be one `os.stat`
      resolves; `_is_same` only ever passes two regular files. */
  function ContentsMatchAt(path1: string, path2: string, f1: Node, f2: Node): (r: Result<bool, Error>)
    ensures r == Ok(true) <==> f1.File? && f2.File? && f1.readable && f2.readable && f1.content == f2.content
    ensures r.Err? <==> f1.File? && f2.File? && |f1.content| == |f2.content| && !(f1.readable && f2.readable)
    ensures r.Err? ==> r.error == IOError(if f1.readable then path2 else path1)
  {
    if !f1.File? || !f2.File? then Ok(false)
    else if |f1.content| != |f2.content| then Ok(false)
    else if !f1.readable then Err(IOError(path1))
    else if !f2.readable then Err(IOError(path2))
    else Ok(f1.content == f2.content)
  }

  /** `_is_same(dcmp, name)`: the match function applied to the name's path
      under each side's directory. */
  function IsSame(matchFunc: MatchFunc, dcmp: DirCmp, name: string): (r: Result<bool, Error>)
    requires dcmp.Valid() && name in dcmp.FileSet()
    ensures r.Err? ==> matchFunc == ContentsMatch && r.error.IOError?
    ensures matchFunc == ContentsMatch ==>
              (r == Ok(true) <==> dcmp.leftDir.entries[name].readable && dcmp.rightDir.entries[name].readable
                                  && dcmp.leftDir.entries[name].content == dcmp.rightDir.entries[name].content)
    ensures matchFunc.Custom? ==> (r == Ok(true) <==> (Join(dcmp.left, name), Join(dcmp.right, name)) in matchFunc.f)
  {
    var path1, path2 := Join(dcmp.left, name), Join(dcmp.right, name);
    match matchFunc
    case ContentsMatch => ContentsMatchAt(path1, path2, dcmp.leftDir.entries[name], dcmp.rightDir.entries[name])
    case Custom(f) => Ok((path1, path2) in f)
  }

  /** `filter(is_different, names)`: the names the match function calls not
      the same, in order; the first error raised, if any. */
  function FilterDifferent(matchFunc: MatchFunc, dcmp: DirCmp, names: seq<string>): (r: Result<seq<string>, Error>)
    requires dcmp.Valid()
    requires forall n :: n in names ==> n in dcmp.FileSet()
    ensures r.Ok? ==> forall k :: 0 <= k < |names| ==> IsSame(matchFunc, dcmp, names[k]).Ok?
    ensures r.Ok? ==> forall n :: n in r.value <==> n in names && IsSame(matchFunc, dcmp, n) == Ok(false)
    ensures r.Err? ==> exists k :: 0 <= k < |names| && IsSame(matchFunc, dcmp, names[k]) == Err(r.error)
                                   && forall i :: 0 <= i < k ==> IsSame(matchFunc, dcmp, names[i]).Ok?
  {
    if names == [] then Ok([])
    else
      var same :- IsSame(matchFunc, dcmp, names[0]);
      var rest :- FilterDifferent(matchFunc, dcmp, names[1..]);
      assert forall k :: 1 <= k < |names| ==> names[k] == names[1..][k - 1];
      Ok(if same then rest else [names[0]] + rest)
  }

  /** The names `_diff` reports as differing at one level. Reading
      `dcmp.diff_files` first lists both directories, which fails for one that
      cannot be listed. Then, with a custom `match`, both of `dcmp`'s lists of
      comparable common files are re-tested by it; with none, `dcmp.diff_files`
      is kept as it is and only `dcmp.same_files` is re-tested by a full byte
      comparison. */
  function LevelDiffFiles(matcher: Option<PathMatch>, dcmp: DirCmp): Result<seq<string>, Error>
    requires dcmp.Valid()
  {
    if dcmp.ListError().Some? then Err(OSError(dcmp.ListError().value))
    else
      var kept :- if matcher.Some? then FilterDifferent(MatchFuncFor(matcher), dcmp, dcmp.DiffFiles())
                  else Ok(dcmp.DiffFiles());
      var extra :- FilterDifferent(MatchFuncFor(matcher), dcmp, dcmp.SameFiles());
      Ok(kept + extra)
  }

  /** `make_path` applied to each name: the name under `leadingPath`. */
  function Prefixed(leadingPath: string, names: seq<string>): (r: seq<string>)
    ensures |r| == |names|
    ensures forall k :: 0 <= k < |names| ==> r[k] == Join(leadingPath, names[k])
  {
    seq(|names|, k requires 0 <= k < |names| => Join(leadingPath, names[k]))
  }

  /** What `_diff(dcmp, results, leadingPath)` appends to the three lists:
      first everything below each common subdirectory, then this level's
      left-only, right-only and differing names, all under `leadingPath`. */
  function Walk(matcher: Option<PathMatch>, dcmp: DirCmp, leadingPath: string): Result<Buckets, Error>
    requires dcmp.Valid()
    decreases dcmp.leftDir, 1
  {
    var diffFiles :- LevelDiffFiles(matcher, dcmp);
    var below :- WalkSubdirs(matcher, dcmp, leadingPath, |dcmp.CommonDirs()|);
    Ok(below.Append(Buckets(Prefixed(leadingPath, dcmp.LeftOnly()),
                            Prefixed(leadingPath, dcmp.RightOnly()),
                            Prefixed(leadingPath, diffFiles))))
  }

  /** What the recursive calls on the first `count` common subdirectories of
      `dcmp`, in order, append. */
  function WalkSubdirs(matcher: Option<PathMatch>, dcmp: DirCmp, leadingPath: string, count: nat): Result<Buckets, Error>
    requires dcmp.Valid()
    requires count <= |dcmp.CommonDirs()|
    decreases dcmp.leftDir, 0, count
  {
    if count == 0 then Ok(NoPaths)
    else
      var name := dcmp.CommonDirs()[count - 1];
      var before :- WalkSubdirs(matcher, dcmp, leadingPath, count - 1);
      var sub :- Walk(matcher, dcmp.Subdir(name), Join(leadingPath, name));
      Ok(before.Append(sub))
  }

  /** The node at `path` is a directory that `os.listdir` can read. */
  predicate Listable(tree: Option<Node>)
  {
    tree.Some? && tree.value.Dir? && tree.value.listable
  }

  /** What `diff(dir1, dir2)` returns when `tree1` and `tree2` are what is found
      at those paths (`None`: nothing): an error naming the first path that
      cannot be listed, or the walk's three lists, each sorted. */
  function DiffResult(matcher: Option<PathMatch>, ignore: Option<seq<string>>,
                      dir1: string, tree1: Option<Node>, dir2: string, tree2: Option<Node>): Result<Buckets, Error>
  {
    if !Listable(tree1) then Err(OSError(dir1))
    else if !Listable(tree2) then Err(OSError(dir2))
    else
      var found :- Walk(matcher, MakeDirCmp(dir1, dir2, tree1.value, tree2.value, ignore), "");
      Ok(Buckets(Sort(found.leftOnly), Sort(found.rightOnly), Sort(found.diffFiles)))
  }

  /** The `results` tuple `diff` threads through the walk: three lists that
      `_diff` extends in place. */
  class Results {
    var leftOnly: seq<string>
    var rightOnly: seq<string>
    var diffFiles: seq<string>

    function Contents(): Buckets
      reads this
    {
      Buckets(leftOnly, rightOnly, diffFiles)
    }

    constructor ()
      ensures Contents() == NoPaths
    {
      leftOnly, rightOnly, diffFiles := [], [], [];
    }

    /** Sorts each of the three lists in place. */
    method SortEach()
      modifies this
      ensures Contents() == Buckets(Sort(old(leftOnly)), Sort(old(rightOnly)), Sort(old(diffFiles)))
    {
      leftOnly := Sort(leftOnly);
      rightOnly := Sort(rightOnly);
      diffFiles := Sort(diffFiles);
    }
  }

  class Differ {
    const ignore: Option<seq<string>>
    const matcher: Option<PathMatch>
    const matchFunc: MatchFunc

    /** `match_func` is the caller's `match`, or the byte comparison when
        there is none. */
    ghost predicate Valid()
    {
      matchFunc == MatchFuncFor(matcher)
    }

    /** `__init__(match=None, ignore=None)`. */
    constructor (matcher: Option<PathMatch>, ignore: Option<seq<string>>)
      ensures Valid()
      ensures this.matcher == matcher && this.ignore == ignore
      ensures matchFunc == if matcher.None? then ContentsMatch else Custom(matcher.value)
    {
      this.ignore := ignore;
      this.matcher := matcher;
      this.matchFunc := if matcher.None? then ContentsMatch else Custom(matcher.value);
    }

    /** The start of `_diff`: the names it reports as differing at this level,
        as `LevelDiffFiles` says. */
    method LevelDiff(dcmp: DirCmp) returns (r: Result<seq<string>, Error>)
      requires Valid() && dcmp.Valid()
      ensures r == LevelDiffFiles(matcher, dcmp)
    {
      var listError := dcmp.ListError();
      if listError.Some? {
        return Err(OSError(listError.value));
      }
      var diffFiles := dcmp.DiffFiles();
      if matcher.Some? {
        // A custom `match` raises nothing, so this filter cannot fail.
        var filtered := FilterDifferent(matchFunc, dcmp, diffFiles);
        diffFiles := filtered.value;
      }
      var newDiffFiles := FilterDifferent(matchFunc, dcmp, dcmp.SameFiles());
      if newDiffFiles.Err? {
        return Err(newDiffFiles.error);
      }
      r := Ok(diffFiles + newDiffFiles.value);
    }

    /** `_diff(dcmp, results, leading_path)`: extends the three lists in place
        with what `Walk` computes, or stops at the first error (leaving the
        lists partly extended, which `diff` then discards). */
    method WalkInto(dcmp: DirCmp, results: Results, leadingPath: string) returns (raised: Option<Error>)
      requires Valid() && dcmp.Valid()
      modifies results
      decreases dcmp.leftDir, 1
      ensures raised.None? <==> Walk(matcher, dcmp, leadingPath).Ok?
      ensures raised.Some? ==> Walk(matcher, dcmp, leadingPath) == Err(raised.value)
      ensures raised.None? ==> results.Contents() == old(results.Contents()).Append(Walk(matcher, dcmp, leadingPath).value)
    {
      var level := LevelDiff(dcmp);
      if level.Err? {
        assert !level.Ok?;
        return Some(level.error);
      }
      var diffFiles := level.value;

      ghost var start := results.Contents();
      raised := WalkSubdirsInto(dcmp, results, leadingPath);
      if raised.Some? {
        WalkStopsBelow(matcher, dcmp, leadingPath);
        return;
      }
      ghost var below := WalkSubdirs(matcher, dcmp, leadingPath, |dcmp.CommonDirs()|).value;

      var here := Buckets(Prefixed(leadingPath, dcmp.LeftOnly()), Prefixed(leadingPath, dcmp.RightOnly()),
                          Prefixed(leadingPath, diffFiles));
      WalkStep(matcher, dcmp, leadingPath, diffFiles);
      AppendAssoc(start, below, here);
      results.leftOnly := results.leftOnly + here.leftOnly;
      results.rightOnly := results.rightOnly + here.rightOnly;
      results.diffFiles := results.diffFiles + here.diffFiles;
    }

    /** The loop of `_diff` over the common subdirectories: one recursive call
        per subdirectory, in order, stopping at the first error. */
    method WalkSubdirsInto(dcmp: DirCmp, results: Results, leadingPath: string) returns (raised: Option<Error>)
      requires Valid() && dcmp.Valid()
      modifies results
      decreases dcmp.leftDir, 0
      ensures raised.None? <==> WalkSubdirs(matcher, dcmp, leadingPath, |dcmp.CommonDirs()|).Ok?
      ensures raised.Some? ==>
                WalkSubdirs(matcher, dcmp, leadingPath, |dcmp.CommonDirs()|) == Err(raised.value)
      ensures raised.None? ==>
                results.Contents()
                == old(results.Contents()).Append(WalkSubdirs(matcher, dcmp, leadingPath, |dcmp.CommonDirs()|).value)
    {
      var dirs := dcmp.CommonDirs();
      ghost var start := results.Contents();
      ghost var below := NoPaths;
      AppendNoPathsRight(start);
      var i := 0;
      while i < |dirs|
        invariant 0 <= i <= |dirs|
        invariant WalkSubdirs(matcher, dcmp, leadingPath, i) == Ok(below)
        invariant results.Contents() == start.Append(below)
      {
        var name := dirs[i];
        raised := WalkInto(dcmp.Subdir(name), results, Join(leadingPath, name));
        if raised.Some? {
          SubdirsStop(matcher, dcmp, leadingPath, i, raised.value);
          return;
        }
        ghost var sub := SubdirsAdvance(matcher, dcmp, leadingPath, i);
        AppendAssoc(start, below, sub);
        below := below.Append(sub);
        i := i + 1;
      }
      raised := None;
    }

    /** `diff(dir1, dir2)`, with `tree1` and `tree2` the nodes found at the two
        paths: fails for a root that cannot be listed (the left one first),
        otherwise returns the walk's lists, each sorted, and fails only if a
        directory below could not be listed or a file had to be opened and
        could not be. */
    method Diff(dir1: string, tree1: Option<Node>, dir2: string, tree2: Option<Node>) returns (r: Result<Buckets, Error>)
      requires Valid()
      ensures r == DiffResult(matcher, ignore, dir1, tree1, dir2, tree2)
    {
      if !Listable(tree1) {
        return Err(OSError(dir1));
      }
      if !Listable(tree2) {
        return Err(OSError(dir2));
      }
      var dcmp := MakeDirCmp(dir1, dir2, tree1.value, tree2.value, ignore);
      var results := new Results();
      var raised := WalkInto(dcmp, results, "");
      if raised.Some? {
        return Err(raised.value);
      }
      AppendNoPaths(Walk(matcher, dcmp, "").value);
      results.SortEach();
      r := Ok(results.Contents());
    }
  }

  /** A level whose differing names and subdirectories were found without error. */
  lemma WalkStep(matcher: Option<PathMatch>, dcmp: DirCmp, leadingPath: string, diffFiles: seq<string>)
    requires dcmp.Valid()
    requires LevelDiffFiles(matcher, dcmp) == Ok(diffFiles)
    requires WalkSubdirs(matcher, dcmp, leadingPath, |dcmp.CommonDirs()|).Ok?
    ensures Walk(matcher, dcmp, leadingPath)
         == Ok(WalkSubdirs(matcher, dcmp, leadingPath, |dcmp.CommonDirs()|).value.Append(
                 Buckets(Prefixed(leadingPath, dcmp.LeftOnly()), Prefixed(leadingPath, dcmp.RightOnly()),
                         Prefixed(leadingPath, diffFiles))))
  {
  }

  /** One more subdirectory walked without error: its lists `sub` are appended. */
  lemma SubdirsAdvance(matcher: Option<PathMatch>, dcmp: DirCmp, leadingPath: string, i: nat) returns (sub: Buckets)
    requires dcmp.Valid() && i < |dcmp.CommonDirs()|
    requires WalkSubdirs(matcher, dcmp, leadingPath, i).Ok?
    requires Walk(matcher, dcmp.Subdir(dcmp.CommonDirs()[i]), Join(leadingPath, dcmp.CommonDirs()[i])).Ok?
    ensures sub == Walk(matcher, dcmp.Subdir(dcmp.CommonDirs()[i]), Join(leadingPath, dcmp.CommonDirs()[i])).value
    ensures WalkSubdirs(matcher, dcmp, leadingPath, i + 1)
         == Ok(WalkSubdirs(matcher, dcmp, leadingPath, i).value.Append(sub))
  {
    sub := Walk(matcher, dcmp.Subdir(dcmp.CommonDirs()[i]), Join(leadingPath, dcmp.CommonDirs()[i])).value;
  }

  /** An error `e` in the call on the `i`-th common subdirectory, after the
      calls before it succeeded, is the error of the calls on all of them. */
  lemma SubdirsStop(matcher: Option<PathMatch>, dcmp: DirCmp, leadingPath: string, i: nat, e: Error)
    requires dcmp.Valid() && i < |dcmp.CommonDirs()|
    requires WalkSubdirs(matcher, dcmp, leadingPath, i).Ok?
    requires Walk(matcher, dcmp.Subdir(dcmp.CommonDirs()[i]), Join(leadingPath, dcmp.CommonDirs()[i])) == Err(e)
    ensures WalkSubdirs(matcher, dcmp, leadingPath, |dcmp.CommonDirs()|) == Err(e)
  {
    SubdirsUnfold(matcher, dcmp, leadingPath, i + 1);
    PrefixErrorStops(matcher, dcmp, leadingPath, i + 1);
  }

  /** The last of the first `count` recursive calls, spelled out: an error
      before it, else its own error, else its lists appended. */
  lemma SubdirsUnfold(matcher: Option<PathMatch>, dcmp: DirCmp, leadingPath: string, count: nat)
    requires dcmp.Valid() && 0 < count <= |dcmp.CommonDirs()|
    ensures WalkSubdirs(matcher, dcmp, leadingPath, count)
         == (var name := dcmp.CommonDirs()[count - 1];
             var before := WalkSubdirs(matcher, dcmp, leadingPath, count - 1);
             var sub := Walk(matcher, dcmp.Subdir(name), Join(leadingPath, name));
             if before.Err? then Err(before.error) else if sub.Err? then Err(sub.error) else Ok(before.value.Append(sub.value)))
  {
  }

  /** An error below a level whose own names were compared without error is
      the error of the whole walk. */
  lemma WalkStopsBelow(matcher: Option<PathMatch>, dcmp: DirCmp, leadingPath: string)
    requires dcmp.Valid()
    requires LevelDiffFiles(matcher, dcmp).Ok?
    requires WalkSubdirs(matcher, dcmp, leadingPath, |dcmp.CommonDirs()|).Err?
    ensures Walk(matcher, dcmp, leadingPath) == Err(WalkSubdirs(matcher, dcmp, leadingPath, |dcmp.CommonDirs()|).error)
  {
  }

  lemma AppendNoPaths(b: Buckets)
    ensures NoPaths.Append(b) == b
  {
    assert [] + b.leftOnly == b.leftOnly;
    assert [] + b.rightOnly == b.rightOnly;
    assert [] + b.diffFiles == b.diffFiles;
  }

  lemma AppendNoPathsRight(b: Buckets)
    ensures b.Append(NoPaths) == b
  {
    assert b.leftOnly + [] == b.leftOnly;
    assert b.rightOnly + [] == b.rightOnly;
    assert b.diffFiles + [] == b.diffFiles;
  }

  lemma AppendAssoc(a: Buckets, b: Buckets, c: Buckets)
    ensures a.Append(b).Append(c) == a.Append(b.Append(c))
  {
    assert (a.leftOnly + b.leftOnly) + c.leftOnly == a.leftOnly + (b.leftOnly + c.leftOnly);
    assert (a.rightOnly + b.rightOnly) + c.rightOnly == a.rightOnly + (b.rightOnly + c.rightOnly);
    assert (a.diffFiles + b.diffFiles) + c.diffFiles == a.diffFiles + (b.diffFiles + c.diffFiles);
  }

  /** An error among the recursive calls on the first `j` common
      subdirectories is an error of the calls on all of them. */
  lemma {:induction false} PrefixErrorStops(matcher: Option<PathMatch>, dcmp: DirCmp, leadingPath: string, j: nat)
    requires dcmp.Valid()
    requires 0 < j <= |dcmp.CommonDirs()|
    requires WalkSubdirs(matcher, dcmp, leadingPath, j).Err?
    ensures WalkSubdirs(matcher, dcmp, leadingPath, |dcmp.CommonDirs()|) == WalkSubdirs(matcher, dcmp, leadingPath, j)
    decreases |dcmp.CommonDirs()| - j
  {
    if j < |dcmp.CommonDirs()| {
      PrefixErrorStops(matcher, dcmp, leadingPath, j + 1);
    }
  }
}
