/**
 * The part of Python 2's `filecmp` module the comparison code rests on, over an
 * in-memory tree: the shallow file comparison `cmp(a, b, shallow=True)` that
 * `cmpfiles` applies, and the one-level classification `dircmp` computes.
 */
module FileCmp {
  import opened Wrappers
  import opened StringOrder
  import opened PosixPath

  /** What a path names: a regular file (its bytes, its modification time and
      whether it can be opened for reading), a directory (its entries and
      whether `os.listdir` can read it), or anything else (a device, a socket,
      a dangling link: neither of the other two to `stat`). */
  datatype Node =
    | File(content: seq<bv8>, mtime: int, readable: bool)
    | Dir(entries: map<string, Node>, listable: bool)
    | Special

  /** Every directory below holds only names a listing can return. */
  predicate WellFormed(n: Node)
  {
    n.Dir? ==> forall k :: k in n.entries ==> ValidName(k) && WellFormed(n.entries[k])
  }

  /** Every regular file below can be opened. */
  predicate AllReadable(n: Node)
  {
    match n
    case File(_, _, readable) => readable
    case Dir(entries, _) => forall k :: k in entries ==> AllReadable(entries[k])
    case Special => true
  }

  /** Every directory, this one included, can be listed. */
  predicate AllListable(n: Node)
  {
    match n
    case File(_, _, _) => true
    case Dir(entries, listable) => listable && forall k :: k in entries ==> AllListable(entries[k])
    case Special => true
  }

  /** The three lists `cmpfiles` sorts a common file into. */
  datatype Verdict = Equal | Unequal | Uncomparable

  /** `cmp(a, b, shallow=True)`, with an error while opening reported as
      `Uncomparable`: equal signatures (size and modification time) are
      trusted, different sizes are unequal, and otherwise the bytes decide. */
  function ShallowCmp(a: Node, b: Node): (v: Verdict)
    requires a.File? && b.File?
    ensures |a.content| == |b.content| && a.mtime == b.mtime ==> v == Equal
    ensures |a.content| != |b.content| ==> v == Unequal
    ensures v == Uncomparable <==> |a.content| == |b.content| && a.mtime != b.mtime && !(a.readable && b.readable)
    ensures v == Equal <==> (|a.content| == |b.content| && a.mtime == b.mtime)
                            || (a.readable && b.readable && a.content == b.content)
    ensures v == Unequal ==> a.content != b.content
  {
    if |a.content| == |b.content| && a.mtime == b.mtime then Equal
    else if |a.content| != |b.content| then Unequal
    else if !a.readable || !b.readable then Uncomparable
    else if a.content == b.content then Equal
    else Unequal
  }

  /** Python 2's defaults for `dircmp(a, b, ignore=None, hide=None)`. */
  const DefaultIgnore: seq<string> := ["RCS", "CVS", "tags"]
  const DefaultHide: seq<string> := [".", ".."]

  /** A `dircmp` object: two directory paths, the directories found there, and
      the names left out of the comparison. Its lists come out in ascending
      order (Python 2 leaves them in dictionary order). */
  datatype DirCmp = DirCmp(left: string, right: string, leftDir: Node, rightDir: Node,
                           ignore: seq<string>, hidden: seq<string>)
  {
    predicate Valid()
    {
      leftDir.Dir? && rightDir.Dir?
    }

    /** The path named by the `OSError` of the `os.listdir` calls `dircmp`
        makes, the left side first, the first time one of its lists is read;
        `None` when both sides can be listed. */
    function ListError(): (e: Option<string>)
      requires Valid()
      ensures e.None? <==> leftDir.listable && rightDir.listable
      ensures e.Some? ==> e.value == if leftDir.listable then right else left
    {
      if !leftDir.listable then Some(left)
      else if !rightDir.listable then Some(right)
      else None
    }

    predicate Shown(n: string)
    {
      n !in hidden && n !in ignore
    }

    function LeftNames(): set<string>
      requires Valid()
    {
      set n | n in leftDir.entries && Shown(n)
    }

    function RightNames(): set<string>
      requires Valid()
    {
      set n | n in rightDir.entries && Shown(n)
    }

    function CommonNames(): set<string>
      requires Valid()
    {
      LeftNames() * RightNames()
    }

    function DirSet(): set<string>
      requires Valid()
    {
      set n | n in CommonNames() && leftDir.entries[n].Dir? && rightDir.entries[n].Dir?
    }

    function FileSet(): (r: set<string>)
      requires Valid()
      ensures forall n :: n in r ==> n in leftDir.entries && n in rightDir.entries
    {
      set n | n in CommonNames() && leftDir.entries[n].File? && rightDir.entries[n].File?
    }

    function VerdictOf(n: string): Verdict
      requires Valid() && n in FileSet()
    {
      ShallowCmp(leftDir.entries[n], rightDir.entries[n])
    }

    function SameSet(): set<string>
      requires Valid()
    {
      set n | n in FileSet() && VerdictOf(n) == Equal
    }

    function DiffSet(): set<string>
      requires Valid()
    {
      set n | n in FileSet() && VerdictOf(n) == Unequal
    }

    function FunnySet(): set<string>
      requires Valid()
    {
      set n | n in FileSet() && VerdictOf(n) == Uncomparable
    }

    function LeftOnly(): seq<string>
      requires Valid()
    {
      SortedSeq(LeftNames() - RightNames())
    }

    function RightOnly(): seq<string>
      requires Valid()
    {
      SortedSeq(RightNames() - LeftNames())
    }

    function CommonDirs(): (r: seq<string>)
      requires Valid()
      ensures forall k :: 0 <= k < |r| ==> r[k] in DirSet()
    {
      SortedSeq(DirSet())
    }

    function CommonFiles(): seq<string>
      requires Valid()
    {
      SortedSeq(FileSet())
    }

    /** Common names that are not a directory on both sides nor a regular
        file on both sides. */
    function CommonFunny(): seq<string>
      requires Valid()
    {
      SortedSeq(CommonNames() - DirSet() - FileSet())
    }

    function SameFiles(): seq<string>
      requires Valid()
    {
      SortedSeq(SameSet())
    }

    function DiffFiles(): seq<string>
      requires Valid()
    {
      SortedSeq(DiffSet())
    }

    function FunnyFiles(): seq<string>
      requires Valid()
    {
      SortedSeq(FunnySet())
    }

    /** The `dircmp` of a common subdirectory: the same names left out, the
        paths extended by the name. */
    function Subdir(n: string): (sub: DirCmp)
      requires Valid() && n in DirSet()
      ensures sub.Valid()
    {
      DirCmp(Join(left, n), Join(right, n), leftDir.entries[n], rightDir.entries[n], ignore, hidden)
    }
  }

  /** `dircmp(a, b, ignore)` on the trees found at `a` and `b`. */
  function MakeDirCmp(a: string, b: string, leftDir: Node, rightDir: Node,
                      ignore: Option<seq<string>>): DirCmp
  {
    DirCmp(a, b, leftDir, rightDir, if ignore.None? then DefaultIgnore else ignore.value, DefaultHide)
  }

  function Indicator(b: bool): nat
  {
    if b then 1 else 0
  }

  /** Each shown name of either side lands in exactly one of the lists. */
  lemma Partition(d: DirCmp, n: string)
    requires d.Valid()
    ensures n in d.LeftNames() + d.RightNames() ==>
      Indicator(n in d.LeftOnly()) + Indicator(n in d.RightOnly()) + Indicator(n in d.CommonDirs())
      + Indicator(n in d.CommonFunny()) + Indicator(n in d.SameFiles()) + Indicator(n in d.DiffFiles())
      + Indicator(n in d.FunnyFiles()) == 1
    ensures n in d.CommonFiles() <==> n in d.SameFiles() || n in d.DiffFiles() || n in d.FunnyFiles()
    ensures n !in d.LeftNames() + d.RightNames() ==>
      n !in d.LeftOnly() && n !in d.RightOnly() && n !in d.CommonDirs() && n !in d.CommonFiles()
      && n !in d.CommonFunny()
  {
    assert (n in d.LeftOnly()) == (n in d.LeftNames() - d.RightNames());
    assert (n in d.RightOnly()) == (n in d.RightNames() - d.LeftNames());
    assert (n in d.CommonDirs()) == (n in d.DirSet());
    assert (n in d.CommonFiles()) == (n in d.FileSet());
    assert (n in d.CommonFunny()) == (n in d.CommonNames() - d.DirSet() - d.FileSet());
    assert (n in d.SameFiles()) == (n in d.SameSet());
    assert (n in d.DiffFiles()) == (n in d.DiffSet());
    assert (n in d.FunnyFiles()) == (n in d.FunnySet());
  }
}
