/** Strictly sorted sequences: existence (an insertion sort) and uniqueness.
    Shared by the admission scheduler and the genesis builder, whose results are
    canonical because a set has only one strictly sorted enumeration. */
module Sorting {

  /** `lt` is irreflexive, transitive and connects any two different members of `s`. */
  ghost predicate StrictOrder<T(!new)>(lt: (T, T) -> bool, s: set<T>) {
    && (forall a :: a in s ==> !lt(a, a))
    && (forall a, b :: a in s && b in s && a != b ==> lt(a, b) || lt(b, a))
    && (forall a, b, c :: a in s && b in s && c in s && lt(a, b) && lt(b, c) ==> lt(a, c))
  }

  ghost predicate StrictlySorted<T>(lt: (T, T) -> bool, s: seq<T>) {
    forall i, j :: 0 <= i < j < |s| ==> lt(s[i], s[j])
  }

  ghost predicate Distinct<T>(s: seq<T>) {
    forall i, j :: 0 <= i < j < |s| ==> s[i] != s[j]
  }

  ghost function Elements<T>(s: seq<T>): set<T> {
    set x | x in s
  }

  /** Python's `sort` on lists without ties: any stable sort gives this list. */
  function Sort<T>(lt: (T, T) -> bool, s: seq<T>): (r: seq<T>) {
    if s == [] then [] else Insert(lt, Sort(lt, s[..|s| - 1]), s[|s| - 1])
  }

  function Insert<T>(lt: (T, T) -> bool, s: seq<T>, x: T): (r: seq<T>) {
    if s == [] || lt(s[|s| - 1], x) then s + [x]
    else Insert(lt, s[..|s| - 1], x) + [s[|s| - 1]]
  }

  lemma {:induction false} InsertSorts<T(!new)>(lt: (T, T) -> bool, s: seq<T>, x: T)
    requires StrictOrder(lt, Elements(s) + {x}) && StrictlySorted(lt, s) && x !in s
    ensures Elements(Insert(lt, s, x)) == Elements(s) + {x}
    ensures StrictlySorted(lt, Insert(lt, s, x))
    ensures |Insert(lt, s, x)| == |s| + 1
  {
    if s == [] || lt(s[|s| - 1], x) {
    } else {
      var front, last := s[..|s| - 1], s[|s| - 1];
      assert s == front + [last];
      assert last in s && x != last && lt(x, last);
      InsertSorts(lt, front, x);
      var r := Insert(lt, front, x);
      forall y | y in r
        ensures lt(y, last)
      {
        assert y in Elements(front) + {x};
      }
      assert forall y :: y in Insert(lt, s, x) <==> y in Elements(r) || y == last;
    }
  }

  /** Sorting distinct items yields a strictly sorted list of exactly those items. */
  lemma {:induction false} SortSorts<T(!new)>(lt: (T, T) -> bool, s: seq<T>)
    requires StrictOrder(lt, Elements(s)) && Distinct(s)
    ensures Elements(Sort(lt, s)) == Elements(s)
    ensures StrictlySorted(lt, Sort(lt, s))
    ensures |Sort(lt, s)| == |s|
  {
    if s != [] {
      var front, last := s[..|s| - 1], s[|s| - 1];
      assert s == front + [last];
      assert Elements(s) == Elements(front) + {last};
      SortSorts(lt, front);
      assert last !in Elements(front);
      InsertSorts(lt, Sort(lt, front), last);
    }
  }

  lemma SortedIsDistinct<T(!new)>(lt: (T, T) -> bool, s: seq<T>)
    requires StrictOrder(lt, Elements(s)) && StrictlySorted(lt, s)
    ensures Distinct(s)
  {
    forall i, j | 0 <= i < j < |s|
      ensures s[i] != s[j]
    {
      assert s[i] in Elements(s);
    }
  }

  /** A list has as many distinct items as entries only if no two entries agree. */
  lemma {:induction false} DistinctCardinality<T>(s: seq<T>)
    ensures |Elements(s)| <= |s|
    ensures |Elements(s)| == |s| <==> Distinct(s)
  {
    if s != [] {
      var front, last := s[..|s| - 1], s[|s| - 1];
      assert s == front + [last];
      assert Elements(s) == Elements(front) + {last};
      DistinctCardinality(front);
      if last in front {
        var i :| 0 <= i < |front| && front[i] == last;
        assert Elements(s) == Elements(front);
        assert s[i] == s[|s| - 1];
      } else {
        assert forall i :: 0 <= i < |front| ==> s[i] == front[i] && front[i] in front;
      }
    }
  }

  /** A set has at most one strictly sorted enumeration. */
  lemma {:induction false} SortedUnique<T(!new)>(lt: (T, T) -> bool, s: seq<T>, t: seq<T>)
    requires Elements(s) == Elements(t) && StrictOrder(lt, Elements(s))
    requires StrictlySorted(lt, s) && StrictlySorted(lt, t)
    ensures s == t
  {
    if s == [] {
      SortedIsDistinct(lt, t);
      DistinctCardinality(t);
    } else {
      assert s[0] in Elements(t);
      assert t != [] && t[0] in Elements(s);
      assert s[0] == t[0] by {
        var i :| 0 <= i < |t| && t[i] == s[0];
        var j :| 0 <= j < |s| && s[j] == t[0];
      }
      SortedIsDistinct(lt, s);
      SortedIsDistinct(lt, t);
      assert s == [s[0]] + s[1..] && t == [t[0]] + t[1..];
      assert Elements(s[1..]) == Elements(s) - {s[0]};
      assert Elements(t[1..]) == Elements(t) - {t[0]};
      SortedUnique(lt, s[1..], t[1..]);
    }
  }

  /** Whatever is listed but not among the first items comes after them. */
  lemma RestIsAbove<T>(lt: (T, T) -> bool, s: seq<T>, i: nat, x: T)
    requires StrictlySorted(lt, s) && i < |s| && x in s && x !in s[..i] && x != s[i]
    ensures lt(s[i], x)
  {
    var j :| 0 <= j < |s| && s[j] == x;
    assert forall k :: 0 <= k < i ==> s[k] in s[..i];
  }

  /** A set can be listed without repetition. */
  lemma {:induction false} Enumeration<T>(s: set<T>) returns (listed: seq<T>)
    ensures Elements(listed) == s && Distinct(listed)
  {
    if s == {} {
      listed := [];
    } else {
      var x :| x in s;
      var rest := Enumeration(s - {x});
      listed := rest + [x];
      assert x !in Elements(rest);
      assert Elements(listed) == Elements(rest) + {x};
    }
  }

  ghost function Below<T>(lt: (T, T) -> bool, s: set<T>, x: T): set<T> {
    set u | u in s && lt(u, x)
  }

  /** The members below `s[p]` are exactly the `p` items before it. */
  lemma RankInSorted<T(!new)>(lt: (T, T) -> bool, s: seq<T>, p: nat)
    requires p < |s| && StrictOrder(lt, Elements(s)) && StrictlySorted(lt, s)
    ensures Below(lt, Elements(s), s[p]) == Elements(s[..p])
    ensures |Below(lt, Elements(s), s[p])| == p
  {
    forall u | u in Below(lt, Elements(s), s[p])
      ensures u in s[..p]
    {
      var i :| 0 <= i < |s| && s[i] == u;
      assert s[p] in Elements(s);
      assert i < p;
      assert s[..p][i] == u;
    }
    SortedIsDistinct(lt, s);
    DistinctCardinality(s[..p]);
  }

  /** Some enumeration of a finite set. */
  ghost function Enumerate<T>(s: set<T>): (r: seq<T>)
    ensures Elements(r) == s && Distinct(r)
  {
    if s == {} then []
    else
      var x :| x in s;
      var r := Enumerate(s - {x});
      assert Elements(r + [x]) == Elements(r) + {x};
      assert forall i :: 0 <= i < |r| ==> r[i] in Elements(r);
      r + [x]
  }

  lemma SubsetSmaller<T>(a: set<T>, b: set<T>)
    requires a <= b
    ensures |a| <= |b|
    ensures a != b ==> |a| < |b|
  {
    assert b == a + (b - a);
    assert |b| == |a| + |b - a|;
  }
}
