/**
 * Python's ordering of strings and the two sorts the model needs: `list.sort()`
 * on a list of paths, and the ascending listing of a set of names.
 */
module StringOrder {

  /** Python's `a <= b` on strings: character codes compared left to right,
      a proper prefix coming first. */
  predicate Le(a: string, b: string)
  {
    if a == [] then true
    else if b == [] then false
    else if a[0] != b[0] then a[0] < b[0]
    else Le(a[1..], b[1..])
  }

  lemma {:induction false} LeReflexive(a: string)
    ensures Le(a, a)
  {
    if a != [] {
      LeReflexive(a[1..]);
    }
  }

  lemma {:induction false} LeAntisymmetric(a: string, b: string)
    requires Le(a, b) && Le(b, a)
    ensures a == b
  {
    if a != [] && b != [] {
      LeAntisymmetric(a[1..], b[1..]);
      assert a == [a[0]] + a[1..] && b == [b[0]] + b[1..];
    }
  }

  lemma {:induction false} LeTransitive(a: string, b: string, c: string)
    requires Le(a, b) && Le(b, c)
    ensures Le(a, c)
  {
    if a != [] && b != [] && c != [] && a[0] == b[0] == c[0] {
      LeTransitive(a[1..], b[1..], c[1..]);
    }
  }

  lemma {:induction false} LeTotal(a: string, b: string)
    ensures Le(a, b) || Le(b, a)
  {
    if a != [] && b != [] && a[0] == b[0] {
      LeTotal(a[1..], b[1..]);
    }
  }

  /** Every pair of positions is in order. */
  predicate Sorted(s: seq<string>)
  {
    forall i, j :: 0 <= i < j < |s| ==> Le(s[i], s[j])
  }

  /** `x` comes no later than any element of `s`. */
  predicate LeAll(x: string, s: seq<string>)
  {
    forall k :: 0 <= k < |s| ==> Le(x, s[k])
  }

  /** Putting in front an element no larger than the rest keeps a sequence sorted. */
  lemma ConsSorted(h: string, t: seq<string>)
    requires LeAll(h, t) && Sorted(t)
    ensures Sorted([h] + t)
  {
  }

  /** Inserts `x` into the sorted `s` before the first element it does not exceed. */
  function Insert(x: string, s: seq<string>): (r: seq<string>)
    requires Sorted(s)
    ensures Sorted(r)
    ensures multiset(r) == multiset(s) + multiset{x}
  {
    if s == [] then [x]
    else if Le(x, s[0]) then
      assert forall k :: 0 < k < |s| ==> Le(x, s[k]) by {
        forall k | 0 < k < |s| ensures Le(x, s[k]) { LeTransitive(x, s[0], s[k]); }
      }
      [x] + s
    else
      var rest := Insert(x, s[1..]);
      LeTotal(x, s[0]);
      assert LeAll(s[0], s[1..]);
      forall k | 0 <= k < |rest| ensures Le(s[0], rest[k]) {
        assert rest[k] in multiset(rest);
        if rest[k] != x {
          assert rest[k] in multiset(s[1..]);
          var i :| 0 <= i < |s[1..]| && s[1..][i] == rest[k];
        }
      }
      ConsSorted(s[0], rest);
      assert s == [s[0]] + s[1..];
      [s[0]] + rest
  }

  /** Python's `list.sort()` on a list of strings, as a function of the list. */
  function Sort(s: seq<string>): (r: seq<string>)
    ensures Sorted(r)
    ensures multiset(r) == multiset(s)
  {
    if s == [] then []
    else
      assert s == [s[0]] + s[1..];
      Insert(s[0], Sort(s[1..]))
  }

  /** A sorted list is determined by its elements: two sorted permutations of
      one another are the same list. */
  lemma {:induction false} SortedPermutationUnique(a: seq<string>, b: seq<string>)
    requires Sorted(a) && Sorted(b)
    requires multiset(a) == multiset(b)
    ensures a == b
  {
    if a == [] {
      assert |b| == |multiset(b)| == 0;
    } else {
      assert b != [] by { assert a[0] in multiset(b); }
      FirstIsLeast(a, b[0]);
      FirstIsLeast(b, a[0]);
      LeAntisymmetric(a[0], b[0]);
      HeadTail(a);
      HeadTail(b);
      SortedPermutationUnique(a[1..], b[1..]);
      SameHeadSameTail(a, b);
    }
  }

  /** Two non-empty sequences with the same first element and the same rest
      are equal. */
  lemma SameHeadSameTail(a: seq<string>, b: seq<string>)
    requires a != [] && b != [] && a[0] == b[0] && a[1..] == b[1..]
    ensures a == b
  {
    assert a == [a[0]] + a[1..] && b == [b[0]] + b[1..];
  }

  lemma FirstIsLeast(s: seq<string>, x: string)
    requires Sorted(s) && x in multiset(s)
    ensures s != [] && Le(s[0], x)
  {
    var i :| 0 <= i < |s| && s[i] == x;
    if i == 0 { LeReflexive(x); }
  }

  lemma HeadTail(s: seq<string>)
    requires s != []
    ensures multiset(s[1..]) == multiset(s) - multiset{s[0]}
    ensures Sorted(s) ==> Sorted(s[1..])
  {
    assert s == [s[0]] + s[1..];
  }

  /** No element occurs twice. */
  predicate Distinct<T(==)>(s: seq<T>)
  {
    forall i, j :: 0 <= i < j < |s| ==> s[i] != s[j]
  }

  /** No element occurs twice exactly when every element occurs at most once
      in the multiset of the sequence. */
  lemma {:induction false} DistinctCounts<T>(s: seq<T>)
    ensures Distinct(s) <==> forall x :: multiset(s)[x] <= 1
  {
    if s != [] {
      DistinctCounts(s[1..]);
      assert s == [s[0]] + s[1..];
      if Distinct(s) {
        assert s[0] !in s[1..];
        assert Distinct(s[1..]) by {
          forall i, j | 0 <= i < j < |s[1..]| ensures s[1..][i] != s[1..][j] {
            assert s[1..][i] == s[i + 1] && s[1..][j] == s[j + 1];
          }
        }
      } else {
        var i, j :| 0 <= i < j < |s| && s[i] == s[j];
        if i == 0 {
          assert s[j] in s[1..] by { assert s[1..][j - 1] == s[j]; }
          assert multiset(s)[s[0]] == multiset(s[1..])[s[0]] + 1;
        } else {
          assert s[1..][i - 1] == s[i] && s[1..][j - 1] == s[j];
          assert !Distinct(s[1..]);
          var x :| multiset(s[1..])[x] > 1;
          assert multiset(s)[x] >= multiset(s[1..])[x];
        }
      }
    }
  }

  /** Two sorted lists without repeats that hold the same elements are equal. */
  lemma SortedSameElements(s: seq<string>, t: seq<string>)
    requires Sorted(s) && Sorted(t) && Distinct(s) && Distinct(t)
    requires forall x :: x in s <==> x in t
    ensures s == t
  {
    DistinctCounts(s);
    DistinctCounts(t);
    forall x ensures multiset(s)[x] == multiset(t)[x] {
      assert x in s <==> x in multiset(s);
      assert x in t <==> x in multiset(t);
    }
    assert multiset(s) == multiset(t);
    SortedPermutationUnique(s, t);
  }

  /** Two sequences with the same elements, one of them free of duplicates:
      so is the other. */
  lemma DistinctPermutation<T>(s: seq<T>, t: seq<T>)
    requires Distinct(s) && multiset(s) == multiset(t)
    ensures Distinct(t)
  {
    DistinctCounts(s);
    DistinctCounts(t);
  }

  /** Joining two duplicate-free sequences with no element in common gives a
      duplicate-free sequence. */
  lemma DistinctConcat<T>(a: seq<T>, b: seq<T>)
    requires Distinct(a) && Distinct(b)
    requires forall x :: x in a ==> x !in b
    ensures Distinct(a + b)
  {
    forall i, j | 0 <= i < j < |a + b| ensures (a + b)[i] != (a + b)[j] {
      if j < |a| {
        assert (a + b)[i] == a[i] && (a + b)[j] == a[j];
      } else if i >= |a| {
        assert (a + b)[i] == b[i - |a|] && (a + b)[j] == b[j - |a|];
      } else {
        assert (a + b)[i] == a[i] && (a + b)[j] == b[j - |a|];
        assert a[i] in a && b[j - |a|] in b;
      }
    }
  }

  /** `m` is the least element of `s`. */
  predicate IsLeast(m: string, s: set<string>)
  {
    m in s && forall y :: y in s ==> Le(m, y)
  }

  lemma {:induction false} LeastExists(s: set<string>)
    requires s != {}
    ensures exists m :: IsLeast(m, s)
    decreases |s|
  {
    var x :| x in s;
    if s - {x} == {} {
      assert s == {x};
      LeReflexive(x);
      assert IsLeast(x, s);
    } else {
      LeastExists(s - {x});
      var m :| IsLeast(m, s - {x});
      LeTotal(m, x);
      if Le(m, x) {
        assert IsLeast(m, s);
      } else {
        forall y | y in s ensures Le(x, y) {
          if y == x { LeReflexive(x); } else { LeTransitive(x, m, y); }
        }
        assert IsLeast(x, s);
      }
    }
  }

  lemma LeastUnique(s: set<string>)
    ensures forall m, m' :: IsLeast(m, s) && IsLeast(m', s) ==> m == m'
  {
    forall m, m' | IsLeast(m, s) && IsLeast(m', s) ensures m == m' {
      LeAntisymmetric(m, m');
    }
  }

  /** The elements of a finite set of names, in ascending order. */
  function SortedSeq(s: set<string>): (r: seq<string>)
    ensures Sorted(r) && Distinct(r)
    ensures forall x :: x in r <==> x in s
    ensures |r| == |s|
    decreases |s|
  {
    if s == {} then []
    else
      LeastExists(s);
      LeastUnique(s);
      var m :| IsLeast(m, s);
      var rest := SortedSeq(s - {m});
      forall k | 0 <= k < |rest| ensures Le(m, rest[k]) {
        assert rest[k] in s - {m};
      }
      [m] + rest
  }
}
