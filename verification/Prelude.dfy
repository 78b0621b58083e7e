/** Option, Result and the few facts about sequences that every other module uses. */
module Prelude {

  datatype Option<+T> = None | Some(value: T)

  datatype Result<+T, +E> = Ok(value: T) | Err(error: E)

  ghost predicate Distinct<T>(s: seq<T>) {
    forall i, j :: 0 <= i < j < |s| ==> s[i] != s[j]
  }

  lemma SplitLast<T>(s: seq<T>)
    requires s != []
    ensures s == s[..|s| - 1] + [s[|s| - 1]]
  {
  }

  /** The elements of s that satisfy p, in order. */
  function Filter<T>(s: seq<T>, p: T -> bool): seq<T> {
    if s == [] then []
    else Filter(s[..|s| - 1], p) + if p(s[|s| - 1]) then [s[|s| - 1]] else []
  }

  /** The part of s before the first element that fails p. */
  function Accepted<T>(s: seq<T>, p: T -> bool): (r: seq<T>)
    ensures r <= s
    ensures forall k :: 0 <= k < |r| ==> p(s[k])
    ensures r == s || !p(s[|r|])
  {
    if s == [] || !p(s[0]) then [] else [s[0]] + Accepted(s[1..], p)
  }

  lemma AcceptedIs<T>(s: seq<T>, p: T -> bool, n: nat)
    requires n <= |s|
    requires forall k :: 0 <= k < n ==> p(s[k])
    requires n == |s| || !p(s[n])
    ensures Accepted(s, p) == s[..n]
  {
  }

  lemma {:induction false} FilterMembers<T>(s: seq<T>, p: T -> bool)
    ensures forall x :: x in Filter(s, p) <==> x in s && p(x)
  {
    if s == [] {
    } else {
      FilterMembers(s[..|s| - 1], p);
      assert s == s[..|s| - 1] + [s[|s| - 1]];
    }
  }

  /** Filtering looks at p only on the elements of s. */
  lemma {:induction false} FilterAgrees<T>(s: seq<T>, p: T -> bool, q: T -> bool)
    requires forall x | x in s :: p(x) == q(x)
    ensures Filter(s, p) == Filter(s, q)
  {
    if s == [] {
    } else {
      FilterAgrees(s[..|s| - 1], p, q);
    }
  }

  lemma {:induction false} FilterAppend<T>(s: seq<T>, t: seq<T>, p: T -> bool)
    ensures Filter(s + t, p) == Filter(s, p) + Filter(t, p)
  {
    if t == [] {
      assert s + t == s;
    } else {
      var n := |t| - 1;
      assert (s + t)[..|s| + n] == s + t[..n];
      FilterAppend(s, t[..n], p);
    }
  }

  lemma {:induction false} FilterAll<T>(s: seq<T>, p: T -> bool)
    requires forall x | x in s :: p(x)
    ensures Filter(s, p) == s
  {
    if s == [] {
    } else {
      var n := |s| - 1;
      FilterAll(s[..n], p);
      assert s == s[..n] + [s[n]] && s[n] in s;
    }
  }

  lemma {:induction false} FilterNone<T>(s: seq<T>, p: T -> bool)
    requires forall x | x in s :: !p(x)
    ensures Filter(s, p) == []
  {
    if s == [] {
    } else {
      FilterNone(s[..|s| - 1], p);
    }
  }

  /** The lists made from the elements of s, one after the other. */
  function Gathered<A, B>(f: A -> seq<B>, s: seq<A>): seq<B> {
    if s == [] then [] else Gathered(f, s[..|s| - 1]) + f(s[|s| - 1])
  }

  lemma GatheredStep<A, B>(f: A -> seq<B>, s: seq<A>, i: nat)
    requires i < |s|
    ensures Gathered(f, s[..i + 1]) == Gathered(f, s[..i]) + f(s[i])
  {
    assert s[..i + 1][..i] == s[..i];
  }

  lemma {:induction false} GatheredAppend<A, B>(f: A -> seq<B>, s: seq<A>, t: seq<A>)
    ensures Gathered(f, s + t) == Gathered(f, s) + Gathered(f, t)
  {
    if t == [] {
      assert s + t == s;
    } else {
      var n := |t| - 1;
      assert (s + t)[..|s| + n] == s + t[..n];
      GatheredAppend(f, s, t[..n]);
    }
  }

  lemma {:induction false} GatheredMembers<A, B>(f: A -> seq<B>, s: seq<A>, x: B)
    ensures x in Gathered(f, s) <==> exists k :: 0 <= k < |s| && x in f(s[k])
  {
    if s == [] {
    } else {
      var n := |s| - 1;
      GatheredMembers(f, s[..n], x);
    }
  }

  /** An element that makes nothing can be left out. */
  lemma {:induction false} GatheredWithout<A, B>(f: A -> seq<B>, s: seq<A>, i: nat)
    requires i < |s| && f(s[i]) == []
    ensures Gathered(f, s[..i] + s[i + 1..]) == Gathered(f, s)
  {
    var n, fewer := |s| - 1, s[..i] + s[i + 1..];
    if i == n {
      assert fewer == s[..n];
    } else {
      GatheredWithout(f, s[..n], i);
      assert fewer[..n - 1] == s[..n][..i] + s[..n][i + 1..] && fewer[n - 1] == s[n];
    }
  }

  function Each<A, B>(f: A -> B, s: seq<A>): (r: seq<B>)
    ensures |r| == |s| && forall i :: 0 <= i < |s| ==> r[i] == f(s[i])
  {
    seq(|s|, i requires 0 <= i < |s| => f(s[i]))
  }

  lemma {:induction false} FilterEach<A, B>(f: A -> B, s: seq<A>, p: B -> bool, q: A -> bool)
    requires forall i :: 0 <= i < |s| ==> q(s[i]) == p(f(s[i]))
    ensures Filter(Each(f, s), p) == Each(f, Filter(s, q))
  {
    if s == [] {
    } else {
      var n := |s| - 1;
      FilterEach(f, s[..n], p, q);
      assert Each(f, s)[..n] == Each(f, s[..n]);
      assert Each(f, Filter(s, q)) == Each(f, Filter(s[..n], q)) + if q(s[n]) then [f(s[n])] else [];
    }
  }

  lemma AcceptedEach<A, B>(f: A -> B, s: seq<A>, p: B -> bool, q: A -> bool)
    requires forall i :: 0 <= i < |s| ==> q(s[i]) == p(f(s[i]))
    ensures Accepted(Each(f, s), p) == Each(f, Accepted(s, q))
  {
    var n := |Accepted(s, q)|;
    AcceptedIs(Each(f, s), p, n);
    assert Each(f, s)[..n] == Each(f, s[..n]);
  }

  ghost predicate Sorted<T>(s: seq<T>, rank: T -> int) {
    forall i, j :: 0 <= i < j < |s| ==> rank(s[i]) < rank(s[j])
  }

  lemma SortedHead<T>(s: seq<T>, t: seq<T>, rank: T -> int)
    requires s != [] && t != [] && Sorted(s, rank) && Sorted(t, rank)
    requires s[0] in t && t[0] in s
    ensures s[0] == t[0] && s[0] !in s[1..]
  {
    var i :| 0 <= i < |s| && s[i] == t[0];
    var j :| 0 <= j < |t| && t[j] == s[0];
    assert rank(s[0]) <= rank(s[i]) && rank(t[0]) <= rank(t[j]);
  }

  /** Two lists with the same members, both sorted by one rank, are the same list. */
  lemma {:induction false} SortedUnique<T(!new)>(s: seq<T>, t: seq<T>, rank: T -> int)
    requires Sorted(s, rank) && Sorted(t, rank)
    requires forall x :: x in s <==> x in t
    ensures s == t
  {
    assert |s| > 0 ==> s[0] in t;
    assert |t| > 0 ==> t[0] in s;
    if s != [] {
      SortedHead(s, t, rank);
      SortedHead(t, s, rank);
      assert s == [s[0]] + s[1..] && t == [t[0]] + t[1..];
      forall x ensures x in s[1..] <==> x in t[1..] {
        assert x in s <==> x == s[0] || x in s[1..];
        assert x in t <==> x == t[0] || x in t[1..];
      }
      SortedUnique(s[1..], t[1..], rank);
    }
  }

  lemma {:induction false} FilterSorted<T(!new)>(s: seq<T>, rank: T -> int, p: T -> bool)
    requires Sorted(s, rank)
    ensures Sorted(Filter(s, p), rank)
  {
    if |s| == 0 {
    } else {
      var n := |s| - 1;
      FilterSorted(s[..n], rank, p);
      FilterMembers(s[..n], p);
      forall x | x in Filter(s[..n], p) ensures rank(x) < rank(s[n]) {
        assert x in s[..n];
        var i :| 0 <= i < n && s[..n][i] == x;
      }
    }
  }
}
