/**
 * Many-to-one loading, for any node type: the distinct foreign keys of the nodes are queried once, and
 * every node is found again under its key, however many nodes share it.
 */
module ManyToOne {
  import opened Prelude
  import opened EdgeJoin

  function Keys<A>(nodes: seq<A>, fk: A -> Option<int>): (fks: seq<Option<int>>)
    ensures |fks| == |nodes| && forall j :: 0 <= j < |nodes| ==> fks[j] == fk(nodes[j])
  {
    seq(|nodes|, j requires 0 <= j < |nodes| => fk(nodes[j]))
  }

  function TargetError<N>(edge: string, fks: seq<Option<int>>, query: seq<int> -> Result<seq<N>, string>, key: N -> int)
    : Option<LoadError>
  {
    if Queried(fks) == [] then None
    else
      match query(Queried(fks))
      case Err(m) => Some(QueryFailed(m))
      case Ok(neighbors) =>
        var known := Referenced(fks, neighbors, key);
        if |known| == |neighbors| then None else Some(Unexpected(edge, key(neighbors[|known|])))
  }

  /** The neighbors taken into account: none without foreign keys, as then no query runs. */
  function TargetsUsed<N>(fks: seq<Option<int>>, query: seq<int> -> Result<seq<N>, string>, key: N -> int): seq<N> {
    if Queried(fks) == [] || query(Queried(fks)).Err? then []
    else Referenced(fks, query(Queried(fks)).value, key)
  }

  /** A loader that reports no error took every neighbor into account. */
  lemma AllUsed<N>(edge: string, fks: seq<Option<int>>, query: seq<int> -> Result<seq<N>, string>, key: N -> int)
    requires Queried(fks) != [] && TargetError(edge, fks, query, key).None?
    ensures query(Queried(fks)).Ok? && TargetsUsed(fks, query, key) == query(Queried(fks)).value
  {
  }

  function ByKey<A>(nodes: seq<A>, fk: A -> Option<int>, k: int): seq<A> {
    Filter(nodes, (n: A) => fk(n) == Some(k))
  }

  lemma ByKeyStep<A>(nodes: seq<A>, fk: A -> Option<int>, i: nat, k: int)
    requires i < |nodes|
    ensures ByKey(nodes[..i + 1], fk, k) ==
      if fk(nodes[i]) == Some(k) then ByKey(nodes[..i], fk, k) + [nodes[i]] else ByKey(nodes[..i], fk, k)
  {
    assert nodes[..i + 1][..i] == nodes[..i];
  }

  lemma {:induction false} ByKeyOnly<A>(nodes: seq<A>, fk: A -> Option<int>, k: int, i: nat)
    requires i < |ByKey(nodes, fk, k)|
    ensures ByKey(nodes, fk, k)[i] in nodes && fk(ByKey(nodes, fk, k)[i]) == Some(k)
  {
    var n := |nodes| - 1;
    assert nodes[..n + 1] == nodes;
    ByKeyStep(nodes, fk, n, k);
    if i < |ByKey(nodes[..n], fk, k)| {
      ByKeyOnly(nodes[..n], fk, k, i);
    }
  }

  lemma {:induction false} ByKeyAll<A>(nodes: seq<A>, fk: A -> Option<int>, k: int, j: nat)
    requires j < |nodes| && fk(nodes[j]) == Some(k)
    ensures nodes[j] in ByKey(nodes, fk, k)
  {
    var n := |nodes| - 1;
    assert nodes[..n + 1] == nodes;
    ByKeyStep(nodes, fk, n, k);
    if j < n {
      ByKeyAll(nodes[..n], fk, k, j);
    }
  }

  lemma ByKeyMembers<A>(nodes: seq<A>, fk: A -> Option<int>, k: int)
    ensures var found := ByKey(nodes, fk, k);
      && (forall i :: 0 <= i < |found| ==> found[i] in nodes && fk(found[i]) == Some(k))
      && (forall j :: 0 <= j < |nodes| && fk(nodes[j]) == Some(k) ==> nodes[j] in found)
  {
    var found := ByKey(nodes, fk, k);
    forall i | 0 <= i < |found| ensures found[i] in nodes && fk(found[i]) == Some(k) {
      ByKeyOnly(nodes, fk, k, i);
    }
    forall j | 0 <= j < |nodes| && fk(nodes[j]) == Some(k) ensures nodes[j] in found {
      ByKeyAll(nodes, fk, k, j);
    }
  }

  lemma {:induction false} ByKeyEmpty<A>(nodes: seq<A>, fk: A -> Option<int>, k: int)
    ensures ByKey(nodes, fk, k) == [] <==> Some(k) !in Keys(nodes, fk)
  {
    if nodes == [] {
    } else {
      var n := |nodes| - 1;
      ByKeyEmpty(nodes[..n], fk, k);
      assert Keys(nodes, fk) == Keys(nodes[..n], fk) + [fk(nodes[n])];
    }
  }

  lemma QueriedStep<A>(nodes: seq<A>, fk: A -> Option<int>, i: nat)
    requires i < |nodes|
    ensures var fks, last := Keys(nodes[..i], fk), fk(nodes[i]);
      && Keys(nodes[..i + 1], fk) == fks + [last]
      && Queried(fks + [last]) == (if last.None? || last in fks then Queried(fks) else Queried(fks) + [last.value])
      && (last.Some? ==> (last in fks <==> ByKey(nodes[..i], fk, last.value) != []))
  {
    var fks, last := Keys(nodes[..i], fk), fk(nodes[i]);
    assert Keys(nodes[..i + 1], fk) == fks + [last];
    assert (fks + [last])[..i] == fks;
    if last.Some? {
      ByKeyEmpty(nodes[..i], fk, last.value);
    }
  }

  /** The first loop of a many-to-one loader; a nil key is skipped. */
  method IndexByKey<A>(nodes: seq<A>, fk: A -> Option<int>) returns (ids: seq<int>, nodeids: map<int, seq<A>>)
    ensures ids == Queried(Keys(nodes, fk))
    ensures forall k :: k in nodeids <==> Some(k) in Keys(nodes, fk)
    ensures forall k :: k in nodeids ==> nodeids[k] == ByKey(nodes, fk, k)
  {
    ids, nodeids := [], map[];
    for i := 0 to |nodes|
      invariant ids == Queried(Keys(nodes[..i], fk))
      invariant forall k :: k in nodeids <==> Some(k) in Keys(nodes[..i], fk)
      invariant forall k :: k in nodeids ==> nodeids[k] == ByKey(nodes[..i], fk, k)
    {
      QueriedStep(nodes, fk, i);
      forall k: int
        ensures ByKey(nodes[..i + 1], fk, k) ==
          if fk(nodes[i]) == Some(k) then ByKey(nodes[..i], fk, k) + [nodes[i]] else ByKey(nodes[..i], fk, k)
      {
        ByKeyStep(nodes, fk, i, k);
      }
      if fk(nodes[i]).None? {
        continue;
      }
      var key := fk(nodes[i]).value;
      if key !in nodeids {
        ids := ids + [key];
      }
      nodeids := nodeids[key := (if key in nodeids then nodeids[key] else []) + [nodes[i]]];
    }
    assert nodes[..|nodes|] == nodes;
  }
}
