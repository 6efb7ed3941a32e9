/**
 * The two `os.path` operations the comparison code relies on, as Python 2's
 * `posixpath` defines them, and the relative path a sequence of names spells.
 */
module PosixPath {

  /** A name that can appear in a directory listing: not empty, no separator,
      and not one of the entries `os.listdir` never returns. */
  predicate ValidName(n: string)
  {
    n != "" && '/' !in n && n != "." && n != ".."
  }

  predicate ValidNames(ns: seq<string>)
  {
    forall k :: 0 <= k < |ns| ==> ValidName(ns[k])
  }

  /** `os.path.join(a, b)`: an absolute `b` replaces `a`; otherwise one
      separator is put between them unless `a` is empty or already ends in one. */
  function Join(a: string, b: string): string
  {
    if |b| > 0 && b[0] == '/' then b
    else if a == "" || a[|a| - 1] == '/' then a + b
    else a + "/" + b
  }

  /** Index just past the last separator in `p`, 0 when there is none. */
  function TailStart(p: string): (i: nat)
    ensures i <= |p|
    ensures i == 0 || p[i - 1] == '/'
    ensures forall k :: i <= k < |p| ==> p[k] != '/'
  {
    if p == "" then 0
    else if p[|p| - 1] == '/' then |p|
    else TailStart(p[..|p| - 1])
  }

  predicate AllSlashes(s: string)
  {
    forall k :: 0 <= k < |s| ==> s[k] == '/'
  }

  /** `s.rstrip('/')`. */
  function RStripSlashes(s: string): string
  {
    if s != "" && s[|s| - 1] == '/' then RStripSlashes(s[..|s| - 1]) else s
  }

  /** `os.path.split(p)`: the part after the last separator is the tail; the
      head keeps its trailing separators only when it is nothing but separators. */
  function Split(p: string): (string, string)
  {
    var i := TailStart(p);
    var head, tail := p[..i], p[i..];
    if head != "" && !AllSlashes(head) then (RStripSlashes(head), tail) else (head, tail)
  }

  /** A directory path that `Join` extends with exactly one separator, or none. */
  predicate JoinableDir(a: string)
  {
    a == "" || a[|a| - 1] != '/' || AllSlashes(a)
  }

  /** Splitting undoes joining a name onto a directory path. */
  lemma SplitJoin(a: string, n: string)
    requires ValidName(n) && JoinableDir(a)
    ensures Split(Join(a, n)) == (a, n)
  {
    var p := Join(a, n);
    if a == "" {
      assert p == n;
      assert TailStart(p) == 0;
    } else if a[|a| - 1] == '/' {
      assert p == a + n;
      assert p[|a| - 1] == '/';
      assert TailStart(p) == |a|;
      assert p[..|a|] == a && p[|a|..] == n;
    } else {
      assert p == a + "/" + n;
      assert p[|a|] == '/';
      assert TailStart(p) == |a| + 1;
      var head := p[..|a| + 1];
      assert head == a + "/" && p[|a| + 1..] == n;
      assert !AllSlashes(head) by { assert head[|a| - 1] != '/'; }
      assert RStripSlashes(head) == RStripSlashes(a) == a by { assert head[..|head| - 1] == a; }
    }
  }

  /** A part without separators put after a separator, or at the start, is the tail. */
  lemma {:induction false} TailStartAfter(p: string, n: string)
    requires p == "" || p[|p| - 1] == '/'
    requires '/' !in n
    ensures TailStart(p + n) == |p|
    decreases |n|
  {
    if n == "" {
      assert p + n == p;
    } else {
      var init := n[..|n| - 1];
      assert (p + n)[..|p + n| - 1] == p + init;
      assert (p + n)[|p + n| - 1] == n[|n| - 1];
      TailStartAfter(p, init);
    }
  }

  /** The relative path a sequence of names spells: each name joined onto the
      path of the names before it, starting from the empty path. */
  function Render(ns: seq<string>): string
  {
    if ns == [] then "" else Join(Render(ns[..|ns| - 1]), ns[|ns| - 1])
  }

  lemma RenderSnoc(ns: seq<string>, n: string)
    ensures Render(ns + [n]) == Join(Render(ns), n)
  {
    assert (ns + [n])[..|ns|] == ns;
  }

  /** A name sequence split after its first name, regrouped. */
  lemma ConsAfter(pre: seq<string>, ns: seq<string>)
    requires ns != []
    ensures pre + ns == pre + [ns[0]] + ns[1..]
  {
    assert ns == [ns[0]] + ns[1..];
  }

  /** The path of a non-empty sequence of names is not empty and does not end
      in a separator; that of the empty sequence is empty. */
  lemma {:induction false} RenderShape(ns: seq<string>)
    requires ValidNames(ns)
    ensures Render(ns) == "" <==> ns == []
    ensures JoinableDir(Render(ns))
  {
    if ns != [] {
      var init, last := ns[..|ns| - 1], ns[|ns| - 1];
      assert ValidName(last);
      RenderShape(init);
      var p := Render(ns);
      assert p == Render(init) + last || p == Render(init) + "/" + last;
      assert p[|p| - 1] == last[|last| - 1];
      assert last[|last| - 1] != '/';
    }
  }

  /** Different name sequences spell different paths. */
  lemma {:induction false} RenderInjective(ns: seq<string>, ms: seq<string>)
    requires ValidNames(ns) && ValidNames(ms)
    requires Render(ns) == Render(ms)
    ensures ns == ms
    decreases |ns|
  {
    RenderShape(ns);
    RenderShape(ms);
    if ns != [] && ms != [] {
      var ni, mi := ns[..|ns| - 1], ms[..|ms| - 1];
      assert ValidNames(ni) && ValidNames(mi);
      RenderShape(ni);
      RenderShape(mi);
      SplitJoin(Render(ni), ns[|ns| - 1]);
      SplitJoin(Render(mi), ms[|ms| - 1]);
      RenderInjective(ni, mi);
      assert ns == ni + [ns[|ns| - 1]] && ms == mi + [ms[|ms| - 1]];
    }
  }

  /** Python 2 `str.lower()` on a byte string in the C locale: ASCII letters only. */
  function Lower(s: string): (r: string)
    ensures |r| == |s|
    ensures forall k :: 0 <= k < |s| ==> r[k] == LowerChar(s[k])
  {
    if s == "" then "" else [LowerChar(s[0])] + Lower(s[1..])
  }

  function LowerChar(c: char): char
  {
    if 'A' <= c <= 'Z' then (c as int + 32) as char else c
  }

  /** Lowering leaves no ASCII capital and lowering again changes nothing. */
  lemma LowerIdempotent(s: string)
    ensures forall k :: 0 <= k < |s| ==> !('A' <= Lower(s)[k] <= 'Z')
    ensures Lower(Lower(s)) == Lower(s)
  {
  }

  /** `s.startswith(prefix)`. */
  predicate StartsWith(s: string, prefix: string)
  {
    |prefix| <= |s| && s[..|prefix|] == prefix
  }
}

/** Python's `filter` over a list, as the code uses it to drop names. */
module Lists {

  function Filter<T(==)>(s: seq<T>, keep: T -> bool): (r: seq<T>)
    ensures |r| <= |s|
    ensures forall k :: 0 <= k < |r| ==> keep(r[k]) && r[k] in s
    ensures forall k :: 0 <= k < |s| && keep(s[k]) ==> s[k] in r
  {
    if s == [] then [] else (if keep(s[0]) then [s[0]] else []) + Filter(s[1..], keep)
  }

  /** Filtering a concatenation filters each part and keeps them in order, so the
      kept elements stay in their original order. */
  lemma {:induction false} FilterAppend<T>(a: seq<T>, b: seq<T>, keep: T -> bool)
    ensures Filter(a + b, keep) == Filter(a, keep) + Filter(b, keep)
  {
    if a != [] {
      assert (a + b)[1..] == a[1..] + b;
      FilterAppend(a[1..], b, keep);
    } else {
      assert a + b == b;
    }
  }
}
