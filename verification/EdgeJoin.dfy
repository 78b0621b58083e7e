/**
 * What the eager loaders of account_query.go promise, as functions of the parents' keys and of the
 * rows the child query returned.  EdgeLoading holds the loops that compute them.
 */
module EdgeJoin {
  import opened Prelude

  datatype Group = Group(id: int, name: string)
  datatype Proxy = Proxy(id: int, name: string)
  datatype UsageLog = UsageLog(id: int, accountID: int)
  datatype AccountGroup = AccountGroup(accountID: int, groupID: int)

  /** A row of the joined many-to-many query: the leading account_id column, then the group. */
  datatype JoinRow = JoinRow(accountID: int, group: Group)

  datatype LoadError = QueryFailed(message: string) | Unexpected(edge: string, key: int)

  // ----- many-to-many -----------------------------------------------------------------------

  predicate Seen(rows: seq<JoinRow>, g: int) {
    exists r | r in rows :: r.group.id == g
  }

  predicate Joined(rows: seq<JoinRow>, a: int, g: int) {
    exists r | r in rows :: r.accountID == a && r.group.id == g
  }

  /** The group nodes built while scanning: one for the first row of each group. */
  function FirstRows(rows: seq<JoinRow>): seq<Group> {
    if rows == [] then []
    else
      var before, last := rows[..|rows| - 1], rows[|rows| - 1].group;
      FirstRows(before) + if Seen(before, last.id) then [] else [last]
  }

  /** No later parent carries the identifier of parent j: the map built by the loaders points at j. */
  predicate IsLast(ids: seq<int>, j: nat)
    requires j < |ids|
  {
    forall k :: j < k < |ids| ==> ids[k] != ids[j]
  }

  function Related(rows: seq<JoinRow>, neighbors: seq<Group>, a: int): seq<Group> {
    Filter(neighbors, (g: Group) => Joined(rows, a, g.id))
  }

  /** The neighbors before the first one whose group no row named. */
  function Known(rows: seq<JoinRow>, neighbors: seq<Group>): seq<Group> {
    Accepted(neighbors, (g: Group) => Seen(rows, g.id))
  }

  /** The groups the loader leaves on parent j, when the interceptors handed on `neighbors`. */
  function GroupsOf(ids: seq<int>, rows: seq<JoinRow>, neighbors: seq<Group>, j: nat): seq<Group>
    requires j < |ids|
  {
    if IsLast(ids, j) then Related(rows, Known(rows, neighbors), ids[j]) else []
  }

  /** Where a group is first met among the rows. */
  function FirstIndex(rows: seq<JoinRow>, g: int): (k: nat)
    requires Seen(rows, g)
    ensures k < |rows| && rows[k].group.id == g && !Seen(rows[..k], g)
  {
    if rows[0].group.id == g then 0
    else
      assert Seen(rows[1..], g);
      var k := FirstIndex(rows[1..], g);
      assert rows[..k + 1] == [rows[0]] + rows[1..][..k];
      k + 1
  }

  /** The pushed-down IN predicate: the query returns rows of the queried accounts only. */
  predicate PushedDown(ids: seq<int>, rows: seq<JoinRow>) {
    forall r | r in rows :: r.accountID in ids
  }

  /** Groups ranked by their first row. */
  function RankOf(rows: seq<JoinRow>): Group -> int {
    (g: Group) => if Seen(rows, g.id) then FirstIndex(rows, g.id) else |rows|
  }

  /** The group is related by some row, and is as its first row describes it. */
  predicate Described(rows: seq<JoinRow>, g: Group) {
    Seen(rows, g.id) && rows[FirstIndex(rows, g.id)].group == g
  }

  /**
   * The nested-loop join, as a property of a list: exactly the groups some row relates to account a,
   * each as its first row describes it, and ordered by that first row (hence each once).
   */
  ghost predicate IsJoinOf(rows: seq<JoinRow>, a: int, groups: seq<Group>) {
    && (forall x | x in groups :: Joined(rows, a, x.id) && Described(rows, x))
    && (forall r | r in rows && r.accountID == a :: exists x :: x in groups && x.id == r.group.id)
    && Sorted(groups, RankOf(rows))
  }

  lemma FirstIndexIs(rows: seq<JoinRow>, g: int, k: nat)
    requires k < |rows| && rows[k].group.id == g && !Seen(rows[..k], g)
    ensures Seen(rows, g) && FirstIndex(rows, g) == k
  {
    var f := FirstIndex(rows, g);
    forall m | 0 <= m < k ensures rows[m].group.id != g {
      assert rows[m] in rows[..k];
    }
    forall m | 0 <= m < f ensures rows[m].group.id != g {
      assert rows[m] in rows[..f];
    }
  }

  /** One more row leaves the first index of a group already seen. */
  lemma FirstIndexStays(before: seq<JoinRow>, row: JoinRow, g: int)
    requires Seen(before, g)
    ensures Seen(before + [row], g) && FirstIndex(before + [row], g) == FirstIndex(before, g)
  {
    var k := FirstIndex(before, g);
    assert (before + [row])[..k] == before[..k];
    FirstIndexIs(before + [row], g, k);
  }

  /** found is one node per group of the rows, in the order of the groups' first rows. */
  ghost predicate OnePerGroup(rows: seq<JoinRow>, found: seq<Group>) {
    && (forall x | x in found :: Described(rows, x))
    && (forall g | Seen(rows, g) :: exists x :: x in found && x.id == g)
    && Sorted(found, RankOf(rows))
  }

  lemma OnePerGroupOld(before: seq<JoinRow>, row: JoinRow, found: seq<Group>)
    requires OnePerGroup(before, found) && Seen(before, row.group.id)
    ensures OnePerGroup(before + [row], found)
  {
    var rows := before + [row];
    forall x | x in found ensures Described(rows, x) && RankOf(rows)(x) == RankOf(before)(x) {
      FirstIndexStays(before, row, x.id);
    }
    forall g | Seen(rows, g) ensures Seen(before, g) {
    }
  }

  lemma OnePerGroupNew(before: seq<JoinRow>, row: JoinRow, found: seq<Group>)
    requires OnePerGroup(before, found) && !Seen(before, row.group.id)
    ensures OnePerGroup(before + [row], found + [row.group])
  {
    var rows, n := before + [row], |before|;
    assert rows[..n] == before && rows[n] == row;
    FirstIndexIs(rows, row.group.id, n);
    forall x | x in found ensures Described(rows, x) && RankOf(rows)(x) == RankOf(before)(x) < n {
      FirstIndexStays(before, row, x.id);
    }
    forall g | Seen(rows, g) ensures exists x :: x in found + [row.group] && x.id == g {
      if Seen(before, g) {
        var x :| x in found && x.id == g;
        assert x in found + [row.group];
      } else {
        assert row.group in found + [row.group];
      }
    }
  }

  lemma {:induction false} FirstRowsExact(rows: seq<JoinRow>)
    ensures OnePerGroup(rows, FirstRows(rows))
  {
    if rows == [] {
    } else {
      var n := |rows| - 1;
      FirstRowsExact(rows[..n]);
      assert rows == rows[..n] + [rows[n]];
      if Seen(rows[..n], rows[n].group.id) {
        OnePerGroupOld(rows[..n], rows[n], FirstRows(rows[..n]));
      } else {
        OnePerGroupNew(rows[..n], rows[n], FirstRows(rows[..n]));
      }
    }
  }

  /** Scanning once and sharing each group's node yields the nested-loop join of every account. */
  lemma RelatedIsJoin(rows: seq<JoinRow>, a: int)
    ensures IsJoinOf(rows, a, Related(rows, FirstRows(rows), a))
  {
    var p := (g: Group) => Joined(rows, a, g.id);
    FirstRowsExact(rows);
    FilterSorted(FirstRows(rows), RankOf(rows), p);
    FilterMembers(FirstRows(rows), p);
    forall r | r in rows && r.accountID == a
      ensures exists x :: x in Related(rows, FirstRows(rows), a) && x.id == r.group.id
    {
      assert Seen(rows, r.group.id);
      var x :| x in FirstRows(rows) && x.id == r.group.id;
      assert p(x);
    }
  }

  /** The nested-loop join of an account is one list, so IsJoinOf leaves no choice. */
  lemma JoinIsUnique(rows: seq<JoinRow>, a: int, s: seq<Group>, t: seq<Group>)
    requires IsJoinOf(rows, a, s) && IsJoinOf(rows, a, t)
    ensures s == t
  {
    var rank := RankOf(rows);
    SameMembers(rows, a, s, t);
    SameMembers(rows, a, t, s);
    SortedUnique(s, t, rank);
  }

  lemma SameMembers(rows: seq<JoinRow>, a: int, s: seq<Group>, t: seq<Group>)
    requires IsJoinOf(rows, a, s) && IsJoinOf(rows, a, t)
    ensures forall x | x in s :: x in t
  {
    forall x | x in s ensures x in t {
      var r :| r in rows && r.accountID == a && r.group.id == x.id;
      var y :| y in t && y.id == r.group.id;
    }
  }

  /** Without interceptors every group handed back was named by a row: no error is possible. */
  lemma AllKnown(rows: seq<JoinRow>)
    ensures Known(rows, FirstRows(rows)) == FirstRows(rows)
  {
    FirstRowsExact(rows);
    var p := (g: Group) => Seen(rows, g.id);
    var found := FirstRows(rows);
    forall k | 0 <= k < |found| ensures p(found[k]) {
      assert Described(rows, found[k]);
    }
    AcceptedIs(found, p, |found|);
  }

  /** What loadGroups leaves on every parent is the join, for all rows, exactly when no ID repeats. */
  lemma GroupsRefineJoin(ids: seq<int>)
    ensures (forall rows, j :: PushedDown(ids, rows) && 0 <= j < |ids| ==>
               IsJoinOf(rows, ids[j], GroupsOf(ids, rows, FirstRows(rows), j)))
            <==> Distinct(ids)
  {
    if Distinct(ids) {
      forall rows, j | PushedDown(ids, rows) && 0 <= j < |ids|
        ensures IsJoinOf(rows, ids[j], GroupsOf(ids, rows, FirstRows(rows), j))
      {
        AllKnown(rows);
        RelatedIsJoin(rows, ids[j]);
      }
    } else {
      var i, j :| 0 <= i < j < |ids| && ids[i] == ids[j];
      var rows := [JoinRow(ids[i], Group(0, ""))];
      assert rows[0] in rows;
      assert PushedDown(ids, rows) && GroupsOf(ids, rows, FirstRows(rows), i) == [];
      assert !IsJoinOf(rows, ids[i], []);
    }
  }

  // ----- one-to-many ------------------------------------------------------------------------

  function LogOwner(l: UsageLog): int { l.accountID }

  function MembershipOwner(m: AccountGroup): int { m.accountID }

  /** The neighbors before the first one whose foreign key names no parent. */
  function Owned<N>(ids: seq<int>, neighbors: seq<N>, fk: N -> int): seq<N> {
    Accepted(neighbors, (n: N) => fk(n) in ids)
  }

  lemma OwnedIs<N>(ids: seq<int>, neighbors: seq<N>, fk: N -> int, t: nat)
    requires t <= |neighbors|
    requires forall k :: 0 <= k < t ==> fk(neighbors[k]) in ids
    requires t == |neighbors| || fk(neighbors[t]) !in ids
    ensures Owned(ids, neighbors, fk) == neighbors[..t]
  {
    AcceptedIs(neighbors, (n: N) => fk(n) in ids, t);
  }

  /** The nested-loop join: the neighbors whose foreign key is a, in order. */
  function OwnChildren<N>(neighbors: seq<N>, fk: N -> int, a: int): seq<N> {
    Filter(neighbors, (n: N) => fk(n) == a)
  }

  lemma OwnChildrenMembers<N(!new)>(neighbors: seq<N>, fk: N -> int, a: int)
    ensures forall x :: x in OwnChildren(neighbors, fk, a) <==> x in neighbors && fk(x) == a
  {
    FilterMembers(neighbors, (n: N) => fk(n) == a);
  }

  /** The children the loader leaves on parent j. */
  function ChildrenOf<N>(ids: seq<int>, neighbors: seq<N>, fk: N -> int, j: nat): seq<N>
    requires j < |ids|
  {
    if IsLast(ids, j) then OwnChildren(neighbors, fk, ids[j]) else []
  }

  /** The children of all parents, parent by parent. */
  function AllChildren<N>(ids: seq<int>, neighbors: seq<N>, fk: N -> int): seq<seq<N>> {
    seq(|ids|, j requires 0 <= j < |ids| => ChildrenOf(ids, neighbors, fk, j))
  }

  function Flatten<N>(lists: seq<seq<N>>): seq<N> {
    if lists == [] then [] else Flatten(lists[..|lists| - 1]) + lists[|lists| - 1]
  }

  /** Every identifier has a last parent, the one the map points at. */
  lemma {:induction false} LastOwner(ids: seq<int>, i: nat) returns (k: nat)
    requires i < |ids|
    ensures k < |ids| && ids[k] == ids[i] && IsLast(ids, k)
    decreases |ids| - i
  {
    if j :| i < j < |ids| && ids[j] == ids[i] {
      k := LastOwner(ids, j);
    } else {
      k := i;
    }
  }

  lemma ChildrenStep<N>(ids: seq<int>, neighbors: seq<N>, x: N, fk: N -> int, j: nat)
    requires j < |ids|
    ensures ChildrenOf(ids, neighbors + [x], fk, j) ==
      ChildrenOf(ids, neighbors, fk, j) + if ids[j] == fk(x) && IsLast(ids, j) then [x] else []
  {
    assert (neighbors + [x])[..|neighbors|] == neighbors;
  }

  /** One more element in one of the lists is one more element of them all. */
  lemma {:induction false} FlattenStep<N>(lists: seq<seq<N>>, k: nat, x: N)
    requires k < |lists|
    ensures multiset(Flatten(lists[k := lists[k] + [x]])) == multiset(Flatten(lists)) + multiset{x}
  {
    var n := |lists| - 1;
    var more := lists[k := lists[k] + [x]];
    if k == n {
      assert more[..n] == lists[..n];
    } else {
      FlattenStep(lists[..n], k, x);
      assert more[..n] == lists[..n][k := lists[..n][k] + [x]];
    }
  }

  lemma {:induction false} FlattenEmpty<N>(lists: seq<seq<N>>)
    requires forall k :: 0 <= k < |lists| ==> lists[k] == []
    ensures Flatten(lists) == []
  {
    if lists == [] {
    } else {
      FlattenEmpty(lists[..|lists| - 1]);
    }
  }

  /** Conservation: every neighbor lands on exactly one parent, whether or not identifiers repeat. */
  lemma {:induction false} ChildrenConserved<N>(ids: seq<int>, neighbors: seq<N>, fk: N -> int)
    requires forall i :: 0 <= i < |neighbors| ==> fk(neighbors[i]) in ids
    ensures multiset(Flatten(AllChildren(ids, neighbors, fk))) == multiset(neighbors)
  {
    if neighbors == [] {
      FlattenEmpty(AllChildren(ids, neighbors, fk));
    } else {
      var n := |neighbors| - 1;
      var before, x := neighbors[..n], neighbors[n];
      assert neighbors == before + [x];
      ChildrenConserved(ids, before, fk);
      OneMoreChild(ids, before, x, fk);
    }
  }

  lemma OneMoreChild<N>(ids: seq<int>, before: seq<N>, x: N, fk: N -> int)
    requires fk(x) in ids
    ensures multiset(Flatten(AllChildren(ids, before + [x], fk))) ==
      multiset(Flatten(AllChildren(ids, before, fk))) + multiset{x}
  {
    var i :| 0 <= i < |ids| && ids[i] == fk(x);
    var k := LastOwner(ids, i);
    var lists := AllChildren(ids, before, fk);
    var more := lists[k := lists[k] + [x]];
    forall j | 0 <= j < |ids| ensures ChildrenOf(ids, before + [x], fk, j) == more[j] {
      ChildrenStep(ids, before, x, fk, j);
    }
    assert AllChildren(ids, before + [x], fk) == more;
    FlattenStep(lists, k, x);
  }

  /**
   * Each parent holds precisely its own children, for all children, exactly when no ID repeats; `child`
   * makes a child with a given key.
   */
  lemma ChildrenPartition<N(!new)>(ids: seq<int>, fk: N -> int, child: int -> N)
    requires forall k :: fk(child(k)) == k
    ensures (forall neighbors: seq<N>, j :: (forall x | x in neighbors :: fk(x) in ids) && 0 <= j < |ids| ==>
               ChildrenOf(ids, neighbors, fk, j) == OwnChildren(neighbors, fk, ids[j]))
            <==> Distinct(ids)
  {
    if Distinct(ids) {
    } else {
      var i, j :| 0 <= i < j < |ids| && ids[i] == ids[j];
      var neighbors := [child(ids[i])];
      assert !IsLast(ids, i);
      OwnChildrenMembers(neighbors, fk, ids[i]);
      assert neighbors[0] in OwnChildren(neighbors, fk, ids[i]);
      assert forall x | x in neighbors :: fk(x) in ids;
    }
  }

  // ----- many-to-one ------------------------------------------------------------------------

  function ProxyKey(p: Proxy): int { p.id }

  /** The foreign keys sent to the child query: each present key once, in order of first use. */
  function Queried(fks: seq<Option<int>>): seq<int> {
    if fks == [] then []
    else
      var before, last := fks[..|fks| - 1], fks[|fks| - 1];
      Queried(before) + if last.None? || last in before then [] else [last.value]
  }

  lemma {:induction false} QueriedExact(fks: seq<Option<int>>)
    ensures Distinct(Queried(fks))
    ensures forall k :: k in Queried(fks) <==> Some(k) in fks
  {
    if fks == [] {
    } else {
      var n := |fks| - 1;
      QueriedExact(fks[..n]);
      assert fks == fks[..n] + [fks[n]];
    }
  }

  /** The neighbors before the first one that no parent's foreign key names. */
  function Referenced<N>(fks: seq<Option<int>>, neighbors: seq<N>, key: N -> int): seq<N> {
    Accepted(neighbors, (n: N) => Some(key(n)) in fks)
  }

  lemma ReferencedIs<N>(fks: seq<Option<int>>, neighbors: seq<N>, key: N -> int, t: nat)
    requires t <= |neighbors|
    requires forall k :: 0 <= k < t ==> Some(key(neighbors[k])) in fks
    requires t == |neighbors| || Some(key(neighbors[t])) !in fks
    ensures Referenced(fks, neighbors, key) == neighbors[..t]
  {
    AcceptedIs(neighbors, (n: N) => Some(key(n)) in fks, t);
  }

  /** The neighbor the loader leaves on a parent: the last one its foreign key names. */
  function MatchOf<N>(neighbors: seq<N>, key: N -> int, fk: Option<int>, initial: Option<N>): Option<N> {
    if neighbors == [] then initial
    else
      var n := |neighbors| - 1;
      if fk == Some(key(neighbors[n])) then Some(neighbors[n]) else MatchOf(neighbors[..n], key, fk, initial)
  }

  lemma MatchStep<N>(neighbors: seq<N>, key: N -> int, fk: Option<int>, initial: Option<N>, t: nat)
    requires t < |neighbors|
    ensures MatchOf(neighbors[..t + 1], key, fk, initial) ==
      if fk == Some(key(neighbors[t])) then Some(neighbors[t]) else MatchOf(neighbors[..t], key, fk, initial)
  {
    assert neighbors[..t + 1][..t] == neighbors[..t];
  }

  /** When no two neighbors share a key, a parent gets its neighbor, and nothing if there is none. */
  lemma {:induction false} MatchExact<N>(neighbors: seq<N>, key: N -> int, fk: Option<int>)
    requires forall i, j :: 0 <= i < j < |neighbors| ==> key(neighbors[i]) != key(neighbors[j])
    ensures forall x :: MatchOf(neighbors, key, fk, None) == Some(x) <==> x in neighbors && fk == Some(key(x))
  {
    if neighbors == [] {
    } else {
      var n := |neighbors| - 1;
      MatchExact(neighbors[..n], key, fk);
      assert neighbors == neighbors[..n] + [neighbors[n]];
    }
  }
}
