/** Searches over the block index: common ancestors, the active chain, and where a block forks off it. */
module BlockChains {
  import opened BlockIndexes

  /** All blocks known, in one tree. */
  class BlockTree {
    var blocks: set<BlockIndex>
    var genesis: BlockIndex?

    ghost predicate Valid()
      reads this, blocks
    {
      && (genesis == null <==> blocks == {})
      && forall b <- blocks :: Holds(b)
    }

    ghost predicate Holds(b: BlockIndex)
      requires b in blocks
      reads this, blocks
    {
      (forall a <- b.line :: a in blocks) && b.Valid() && b.Built() && b.line[0] == genesis
    }

    constructor ()
      ensures Valid() && blocks == {}
    {
      blocks, genesis := {}, null;
    }

    /** Add a block below a known one, or the first block. */
    method Insert(parent: BlockIndex?, time: nat) returns (b: BlockIndex)
      requires Valid() && if parent == null then blocks == {} else parent in blocks
      modifies this
      ensures Valid() && fresh(b) && blocks == old(blocks) + {b}
      ensures b.prev == parent && b.time == time
      ensures b.line == (if parent == null then [] else parent.line) + [b]
    {
      b := new BlockIndex(parent, time);
      if parent != null {
        b.BuildSkip();
        assert forall i | 0 < i < b.height :: b.line[i] == parent.line[i];
        assert parent.Built();
      } else {
        genesis := b;
      }
      ghost var known := blocks;
      blocks := blocks + {b};
      forall x <- known ensures Holds(x) { assert old(Holds(x)); }
      assert Holds(b) by { if parent != null { assert Holds(parent); } }
    }
  }

  /** `r` is an ancestor of both, and no common ancestor is higher. */
  ghost predicate HighestCommon(a: BlockIndex, b: BlockIndex, r: BlockIndex)
    reads a, b, r
  {
    && r.height < |a.line| && r.height < |b.line|
    && r == a.line[r.height] == b.line[r.height]
    && ApartAbove(a, b, r.height)
  }

  /** The lines of two blocks share nothing above a height. */
  ghost predicate ApartAbove(a: BlockIndex, b: BlockIndex, h: nat)
    reads a, b
  {
    forall k | h < k < |a.line| && k < |b.line| :: a.line[k] != b.line[k]
  }

  lemma {:induction false} ApartFrom(a: BlockIndex, b: BlockIndex, h: nat, to: nat)
    requires a.Valid() && b.Valid() && to < h <= a.height && h <= b.height && ApartAbove(a, b, h)
    requires a.line[to + 1] != b.line[to + 1]
    ensures ApartAbove(a, b, to)
  {
    forall k | to < k < |a.line| && k < |b.line| ensures a.line[k] != b.line[k] {
      if a.line[k] == b.line[k] { AgreeBelow(a, b, k, to + 1); }
    }
  }

  /** Two lines that agree at a height agree below it. */
  lemma {:induction false} AgreeBelow(a: BlockIndex, b: BlockIndex, k: nat, i: nat)
    requires a.Valid() && b.Valid() && i <= k <= a.height && k <= b.height && a.line[k] == b.line[k]
    ensures a.line[i] == b.line[i]
  {
    assert a.Placed(k) && b.Placed(k);
    assert a.line[..k + 1][i] == b.line[..k + 1][i];
  }

  /** The last common ancestor, by skip links. */
  method LastCommonAncestor(first: BlockIndex, second: BlockIndex) returns (r: BlockIndex)
    requires first.Valid() && first.Built() && second.Valid() && second.Built()
    requires first.line[0] == second.line[0]
    ensures HighestCommon(first, second, r)
  {
    hide ApartAbove, first.Placed, first.Built;
    var a, b, h := SameHeight(first, second);
    while a != b
      invariant 0 <= h < |first.line| && h < |second.line| && a == first.line[h] && b == second.line[h] && ApartAbove(first, second, h)
      decreases h
    {
      a, b, h := SkipBack(first, second, a, b, h);
      a, b, h := StepBack(first, second, a, b, h);
    }
    first.AncestorValid(h);
    return a;
  }

  /** Bring the higher block down to the height of the other. */
  method SameHeight(first: BlockIndex, second: BlockIndex) returns (a: BlockIndex, b: BlockIndex, ghost h: nat)
    requires first.Valid() && second.Valid()
    ensures h < |first.line| && h < |second.line| && a == first.line[h] && b == second.line[h] && ApartAbove(first, second, h)
  {
    a, b := first, second;
    h := if first.height > second.height then second.height else first.height;
    if a.height > b.height {
      var found, _ := a.GetAncestor(b.height);
      a := found;
    } else if b.height > a.height {
      var found, _ := b.GetAncestor(a.height);
      b := found;
    }
  }

  method StepBack(ghost first: BlockIndex, ghost second: BlockIndex, a0: BlockIndex, b0: BlockIndex, ghost h0: nat) returns (a: BlockIndex, b: BlockIndex, ghost h: nat)
    requires first.Valid() && second.Valid() && ApartAbove(first, second, h0)
    requires 0 < h0 <= first.height && h0 <= second.height && a0 == first.line[h0] && b0 == second.line[h0] && a0 != b0
    ensures h == h0 - 1 && a == first.line[h] && b == second.line[h] && ApartAbove(first, second, h)
  {
    assert first.Placed(h0) && second.Placed(h0);
    ApartFrom(first, second, h0, h0 - 1);
    a, b, h := a0.prev, b0.prev, h0 - 1;
  }

  /** Jump back until the blocks differ but their skip links lead to the same block. */
  method SkipBack(ghost first: BlockIndex, ghost second: BlockIndex, a0: BlockIndex, b0: BlockIndex, ghost h0: nat) returns (a: BlockIndex, b: BlockIndex, ghost h: nat)
    requires first.Valid() && first.Built() && second.Valid() && second.Built() && first.line[0] == second.line[0]
    requires h0 <= first.height && h0 <= second.height && a0 == first.line[h0] && b0 == second.line[h0] && a0 != b0
    requires ApartAbove(first, second, h0)
    ensures 0 < h <= h0 && h <= first.height && h <= second.height && a == first.line[h] && b == second.line[h] && a != b
    ensures a.skip == b.skip && ApartAbove(first, second, h)
  {
    hide ApartAbove;
    a, b, h := a0, b0, h0;
    assert first.Placed(h) && second.Placed(h);
    while a.skip != b.skip
      invariant 0 < h <= h0 && a == first.line[h] && b == second.line[h] && a != b
      invariant first.Placed(h) && second.Placed(h) && ApartAbove(first, second, h)
      decreases h
    {
      ghost var to := GetSkipHeight(h);
      if first.line[to + 1] == second.line[to + 1] { AgreeBelow(first, second, to + 1, to); }
      ApartFrom(first, second, h, to);
      a, b, h := a.skip, b.skip, to;
      assert first.Placed(h) && second.Placed(h);
    }
  }

  /** The block of a chain at a height. */
  function At(chain: seq<BlockIndex?>, h: int): BlockIndex? {
    if 0 <= h < |chain| then chain[h] else null
  }

  class Chain {
    var chain: seq<BlockIndex?>

    /** The chain is empty or holds all ancestors of its last block. */
    ghost predicate Valid()
      reads this, set b: BlockIndex | b in chain
    {
      chain == [] || IsLine(chain)
    }

    constructor ()
      ensures Valid() && chain == []
    {
      chain := [];
    }

    predicate Contains(b: BlockIndex)
      reads this, b
    {
      At(chain, b.height) == b
    }

    /** Make a block the tip, rewriting the chain only down to where it already agrees. */
    method SetTip(block: BlockIndex)
      requires Valid() && block.Valid()
      modifies this
      ensures Valid() && chain == block.line
    {
      ghost var was := chain;
      var n := block.height + 1;
      chain := if |chain| >= n then chain[..n] else chain + seq(n - |chain|, _ => null);
      chain := Rewrite(chain, was, block);
    }

    static method Rewrite(resized: seq<BlockIndex?>, ghost was: seq<BlockIndex?>, block: BlockIndex) returns (r: seq<BlockIndex?>)
      requires block.Valid() && (was == [] || IsLine(was)) && |resized| == block.height + 1
      requires forall i | 0 <= i < |resized| :: resized[i] == At(was, i)
      ensures r == block.line
    {
      r := resized;
      var b: BlockIndex? := block;
      ghost var h: int := block.height;
      while b != null && r[b.height] != b
        invariant |r| == |resized| && -1 <= h < |r| && b == At(block.line, h) && (b != null ==> b.height == h)
        invariant forall i | 0 <= i <= h :: r[i] == resized[i]
        invariant forall i | h < i < |r| :: r[i] == block.line[i]
        decreases h
      {
        assert block.Placed(h);
        r := r[b.height := b];
        b := b.prev;
        h := h - 1;
        assert h >= 0 ==> block.Placed(h);
      }
      if b != null { LinesAgree(was, block, h); }
    }

    /** The highest ancestor of a block that is on the chain, if any. */
    method FindFork(block: BlockIndex) returns (r: BlockIndex?)
      requires Valid() && block.Valid()
      ensures r == null ==> forall i | 0 <= i < |block.line| && i < |chain| :: block.line[i] != chain[i]
      ensures r != null ==> chain != [] && HighestCommon(block, chain[|chain| - 1], r)
    {
      r := block;
      if block.height > |chain| - 1 {
        var found, _ := block.GetAncestor(|chain| - 1);
        r := found;
      }
      ghost var h: int := if block.height > |chain| - 1 then |chain| - 1 else block.height;
      assert h >= 0 ==> block.Placed(h);
      while r != null && !Contains(r)
        invariant -1 <= h < |chain| && h <= block.height && r == At(block.line, h) && (r != null ==> r.height == h)
        invariant forall i | h < i < |block.line| && i < |chain| :: block.line[i] != chain[i]
        decreases h
      {
        assert block.Placed(h);
        r := r.prev;
        h := h - 1;
        assert h >= 0 ==> block.Placed(h);
      }
    }
  }

  ghost predicate IsLine(chain: seq<BlockIndex?>)
    reads set b: BlockIndex | b in chain
  {
    && chain != [] && chain[|chain| - 1] != null
    && chain[|chain| - 1].line == chain && chain[|chain| - 1].Valid()
  }

  /** If a chain and a line agree at a height, they agree below it. */
  lemma {:induction false} LinesAgree(was: seq<BlockIndex?>, block: BlockIndex, h: nat)
    requires IsLine(was) && block.Valid() && h <= block.height && h < |was| && was[h] == block.line[h]
    ensures forall i | 0 <= i <= h :: was[i] == block.line[i]
  {
    forall i | 0 <= i <= h ensures was[i] == block.line[i] {
      AgreeBelow(was[|was| - 1], block, h, i);
    }
  }

  // Finding a block by time.

  /** The highest of the first timestamps, up to and including position `i`. */
  function MaxTime(times: seq<nat>, i: nat): nat
    requires i < |times|
  {
    if i == 0 then times[0] else Max(MaxTime(times, i - 1), times[i])
  }

  lemma {:induction false} MaxTimeGrows(times: seq<nat>, i: nat, j: nat)
    requires i <= j < |times|
    ensures times[i] <= MaxTime(times, i) <= MaxTime(times, j)
    decreases j
  {
    if i < j { MaxTimeGrows(times, i, j - 1); }
  }

  /** A block at or above a height, where the time was reached by it or by any block before it. */
  predicate Reached(times: seq<nat>, t: int, h: int, i: nat)
    requires i < |times|
  {
    MaxTime(times, i) >= t && i >= h
  }

  ghost predicate FirstReached(times: seq<nat>, t: int, h: int, i: nat) {
    i < |times| && Reached(times, t, h, i) && forall j: nat | j < i :: !Reached(times, t, h, j)
  }

  ghost predicate NeverReached(times: seq<nat>, t: int, h: int) {
    forall i: nat | i < |times| :: !Reached(times, t, h, i)
  }

  /** The earliest block at or above a height whose own timestamp is late enough. */
  ghost predicate Earliest(times: seq<nat>, t: int, h: int, i: nat) {
    i < |times| && i >= h && times[i] >= t && forall j: nat | j < i && j >= h :: times[j] < t
  }

  /** Once reached, a time stays reached: the search order is sorted. */
  lemma {:induction false} ReachedStays(times: seq<nat>, t: int, h: int, i: nat, j: nat)
    requires i <= j < |times| && Reached(times, t, h, i)
    ensures Reached(times, t, h, j)
  {
    MaxTimeGrows(times, i, j);
  }

  /** When the block found is the earliest with a late enough timestamp: unless an earlier block below the height was later. */
  lemma {:induction false} EarliestExactly(times: seq<nat>, t: int, h: int, i: nat)
    requires FirstReached(times, t, h, i)
    ensures Earliest(times, t, h, i) <==> !(0 < h < |times| && MaxTime(times, h - 1) >= t && times[h] < t)
  {
    MaxTimeGrows(times, i, i);
    forall j: nat | j < i && j >= h ensures times[j] < t {
      assert !Reached(times, t, h, j);
      MaxTimeGrows(times, j, j);
    }
    if 0 < h < |times| && MaxTime(times, h - 1) >= t {
      MaxTimeGrows(times, h - 1, h);
      assert Reached(times, t, h, h);
      assert i == h;
    } else if i > 0 {
      if i > h { assert !Reached(times, t, h, i - 1); }
    }
  }

  /** The block found need not have a late enough timestamp. */
  lemma {:induction false} NotEarliest()
    ensures FirstReached([10, 1], 10, 1, 1) && !Earliest([10, 1], 10, 1, 1)
  {
    assert MaxTime([10, 1], 0) == 10;
  }

  ghost function Times(b: BlockIndex): seq<nat>
    reads b, b.line
  {
    seq(|b.line|, i requires 0 <= i < |b.line| reads b, b.line => b.line[i].time)
  }

  lemma {:induction false} TimeMaxIs(b: BlockIndex, i: nat)
    requires b.Valid() && i < |b.line|
    ensures b.line[i].timeMax == MaxTime(Times(b), i)
    decreases i
  {
    assert b.Placed(i);
    if i > 0 { TimeMaxIs(b, i - 1); }
  }

  /** Search a chain by halving for the first block that reached a time, at or above a height. */
  method FindEarliestAtLeast(chain: seq<BlockIndex>, t: int, h: int) returns (r: BlockIndex?)
    requires chain == [] || (chain[|chain| - 1].Valid() && chain[|chain| - 1].line == chain)
    ensures r == null ==> chain == [] || NeverReached(Times(chain[|chain| - 1]), t, h)
    ensures r != null ==> chain != [] && r.height < |chain| && r == chain[r.height] && FirstReached(Times(chain[|chain| - 1]), t, h, r.height)
  {
    if chain == [] { return null; }
    ghost var tip := chain[|chain| - 1];
    var first, count := 0, |chain|;
    while count > 0
      invariant 0 <= first && 0 <= count && first + count <= |chain|
      invariant forall i: nat | i < first :: !Reached(Times(tip), t, h, i)
      invariant forall i: nat | first + count <= i < |chain| :: Reached(Times(tip), t, h, i)
    {
      var step := count / 2;
      var b := chain[first + step];
      TimeMaxIs(tip, first + step);
      assert tip.Placed(first + step);
      if b.timeMax < t || b.height < h {
        forall i: nat | i <= first + step ensures !Reached(Times(tip), t, h, i) {
          if Reached(Times(tip), t, h, i) { ReachedStays(Times(tip), t, h, i, first + step); }
        }
        first := first + step + 1;
        count := count - step - 1;
      } else {
        forall i: nat | first + step <= i < |chain| ensures Reached(Times(tip), t, h, i) {
          ReachedStays(Times(tip), t, h, first + step, i);
        }
        count := step;
      }
    }
    if first == |chain| { return null; }
    assert tip.Placed(first);
    return chain[first];
  }
}
