/** Lists cut into records: a starting line opens a record, and every later line is added to the open one. */
module Blocks {

  /** The positions of the starting lines. */
  function Starts<L>(lines: seq<L>, start: L -> bool): (bs: seq<nat>)
    ensures forall k :: 0 <= k < |bs| ==> bs[k] < |lines| && start(lines[bs[k]])
    ensures forall j, k :: 0 <= j < k < |bs| ==> bs[j] < bs[k]
  {
    if |lines| == 0 then []
    else
      var n := |lines| - 1;
      Starts(lines[..n], start) + if start(lines[n]) then [n] else []
  }

  lemma {:induction false} EveryStart<L>(lines: seq<L>, start: L -> bool)
    ensures forall i :: 0 <= i < |lines| && start(lines[i]) ==> i in Starts(lines, start)
  {
    if |lines| == 0 {
    } else {
      EveryStart(lines[..|lines| - 1], start);
    }
  }

  /** The lines of record k: from its start up to the next one. */
  function Block<L>(lines: seq<L>, start: L -> bool, k: nat): seq<L>
    requires k < |Starts(lines, start)|
  {
    var bs := Starts(lines, start);
    lines[bs[k]..if k + 1 < |bs| then bs[k + 1] else |lines|]
  }

  function Fold<L, R>(block: seq<L>, empty: R, add: (R, L) -> R): R {
    if |block| == 0 then empty else add(Fold(block[..|block| - 1], empty, add), block[|block| - 1])
  }

  /** The records after some lines, the last one still open. */
  function Records<L, R>(lines: seq<L>, start: L -> bool, empty: R, add: (R, L) -> R): seq<R> {
    if |lines| == 0 then []
    else
      var before, last := Records(lines[..|lines| - 1], start, empty, add), lines[|lines| - 1];
      if start(last) then before + [add(empty, last)]
      else if |before| == 0 then []
      else before[..|before| - 1] + [add(before[|before| - 1], last)]
  }

  lemma StartsStep<L>(before: seq<L>, line: L, start: L -> bool)
    ensures Starts(before + [line], start) == Starts(before, start) + if start(line) then [|before|] else []
  {
    assert (before + [line])[..|before|] == before;
  }

  /** One more line goes into the last block, or opens its own. */
  lemma BlockStep<L>(before: seq<L>, line: L, start: L -> bool, k: nat)
    requires k < |Starts(before, start)|
    ensures k < |Starts(before + [line], start)|
    ensures Block(before + [line], start, k) ==
      Block(before, start, k) + if !start(line) && k + 1 == |Starts(before, start)| then [line] else []
  {
    StartsStep(before, line, start);
  }

  lemma FoldStep<L, R>(block: seq<L>, line: L, empty: R, add: (R, L) -> R)
    ensures Fold(block + [line], empty, add) == add(Fold(block, empty, add), line)
  {
    assert (block + [line])[..|block|] == block;
  }

  /** Record k is what the lines of block k add up to. */
  ghost predicate BlocksMatch<L, R>(lines: seq<L>, start: L -> bool, empty: R, add: (R, L) -> R, records: seq<R>) {
    && |records| == |Starts(lines, start)|
    && forall k :: 0 <= k < |records| ==> records[k] == Fold(Block(lines, start, k), empty, add)
  }

  lemma BlocksMatchStart<L, R>(before: seq<L>, line: L, start: L -> bool, empty: R, add: (R, L) -> R, records: seq<R>)
    requires BlocksMatch(before, start, empty, add, records) && start(line)
    ensures BlocksMatch(before + [line], start, empty, add, records + [add(empty, line)])
  {
    var n := |records|;
    StartsStep(before, line, start);
    assert Block(before + [line], start, n) == [] + [line];
    FoldStep([], line, empty, add);
    forall k | 0 <= k < n ensures Block(before + [line], start, k) == Block(before, start, k) {
      BlockStep(before, line, start, k);
    }
  }

  lemma BlocksMatchOther<L, R>(before: seq<L>, line: L, start: L -> bool, empty: R, add: (R, L) -> R, records: seq<R>)
    requires BlocksMatch(before, start, empty, add, records) && !start(line) && |records| > 0
    ensures BlocksMatch(before + [line], start, empty, add,
                        records[..|records| - 1] + [add(records[|records| - 1], line)])
  {
    var n := |records| - 1;
    StartsStep(before, line, start);
    BlockStep(before, line, start, n);
    FoldStep(Block(before, start, n), line, empty, add);
    forall k | 0 <= k < n ensures Block(before + [line], start, k) == Block(before, start, k) {
      BlockStep(before, line, start, k);
    }
  }

  /** Exactly one record per starting line, in order, each made of its own block. */
  lemma {:induction false} RecordsAreBlocks<L, R>(lines: seq<L>, start: L -> bool, empty: R, add: (R, L) -> R)
    ensures BlocksMatch(lines, start, empty, add, Records(lines, start, empty, add))
  {
    if |lines| == 0 {
    } else {
      var before, line := lines[..|lines| - 1], lines[|lines| - 1];
      var records := Records(before, start, empty, add);
      RecordsAreBlocks(before, start, empty, add);
      assert lines == before + [line];
      StartsStep(before, line, start);
      if start(line) {
        BlocksMatchStart(before, line, start, empty, add, records);
      } else if |records| > 0 {
        BlocksMatchOther(before, line, start, empty, add, records);
      }
    }
  }

  /** Whatever a start establishes and every line keeps holds of all records. */
  lemma {:induction false} RecordsSatisfy<L, R(!new)>(
    lines: seq<L>, start: L -> bool, empty: R, add: (R, L) -> R, p: R -> bool)
    requires forall l | l in lines && start(l) :: p(add(empty, l))
    requires forall l, r | l in lines && p(r) :: p(add(r, l))
    ensures forall k :: 0 <= k < |Records(lines, start, empty, add)| ==> p(Records(lines, start, empty, add)[k])
  {
    if |lines| == 0 {
    } else {
      RecordsSatisfy(lines[..|lines| - 1], start, empty, add, p);
    }
  }

  /** Appending one whole block appends its record. */
  lemma {:induction false} AppendBlock<L, R>(lines: seq<L>, block: seq<L>, start: L -> bool, empty: R, add: (R, L) -> R)
    requires |block| > 0 && start(block[0]) && forall k :: 1 <= k < |block| ==> !start(block[k])
    ensures Records(lines + block, start, empty, add) == Records(lines, start, empty, add) + [Fold(block, empty, add)]
  {
    var n := |block| - 1;
    assert (lines + block)[..|lines| + n] == lines + block[..n];
    if n == 0 {
      assert block == [] + [block[0]];
      FoldStep([], block[0], empty, add);
      assert lines + block[..0] == lines;
    } else {
      AppendBlock(lines, block[..n], start, empty, add);
    }
  }
}
