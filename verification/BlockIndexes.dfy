/** The tree of block index entries: links to the parent and to one ancestor further back. */
module BlockIndexes {

  /** Clear the lowest set bit. */
  function InvertLowestOne(n: nat): (r: nat)
    ensures r <= n && (n > 0 ==> r < n)
    ensures n > 0 && n % 2 == 0 ==> r % 2 == 0
  {
    if n == 0 then 0 else if n % 2 == 1 then n - 1 else 2 * InvertLowestOne(n / 2)
  }

  lemma {:induction false} InvertDouble(v: nat)
    ensures InvertLowestOne(2 * v + 1) == 2 * v && InvertLowestOne(2 * v) == 2 * InvertLowestOne(v) && InvertLowestOne(0) == 0
  {
    assert (2 * v) % 2 == 0 && 2 * v / 2 == v;
  }

  predicate Odd(n: bv32) { n & 1 == 1 }

  function Half(n: bv32): bv32 { n >> 1 }

  function Cleared(n: bv32): bv32 { n & (n - 1) }

  /** The number that the lowest bits stand for. */
  ghost function Value(n: bv32, bits: nat): nat {
    if bits == 0 then 0 else 2 * Value(Half(n), bits - 1) + if Odd(n) then 1 else 0
  }

  lemma {:induction false} OddCleared(n: bv32)
    requires Odd(n)
    ensures Half(Cleared(n)) == Half(n) && !Odd(Cleared(n))
  {
    assert n & (n - 1) == n - 1;
  }

  lemma {:induction false} EvenCleared(n: bv32)
    requires !Odd(n)
    ensures Half(Cleared(n)) == Cleared(Half(n)) && !Odd(Cleared(n))
  {
    assert n & 1 == 0;
  }

  /** Of a 32-bit number, and of its lowest bits, `n & (n - 1)` clears the lowest one that is set. */
  lemma {:induction false} LowestOneBits(n: bv32, bits: nat)
    ensures Value(Cleared(n), bits) == InvertLowestOne(Value(n, bits))
    decreases bits
  {
    hide Odd, Half, Cleared, InvertLowestOne;
    InvertDouble(if bits > 0 then Value(Half(n), bits - 1) else 0);
    if bits > 0 {
      if Odd(n) {
        OddCleared(n);
      } else {
        EvenCleared(n);
        LowestOneBits(Half(n), bits - 1);
      }
    }
  }

  /** The height a skip link leads back to: a lower one, of the same parity. */
  function GetSkipHeight(height: nat): (r: nat)
    ensures height > 0 ==> r < height
    ensures height >= 2 ==> r % 2 == height % 2
  {
    if height < 2 then 0
    else if height % 2 == 1 then InvertLowestOne(InvertLowestOne(height - 1)) + 1
    else InvertLowestOne(height)
  }

  /** On 32-bit numbers, the expression of the code for the height a skip link leads back to. */
  function SkipBits(n: bv32): bv32 {
    if Odd(n) then Cleared(Cleared(n - 1)) + 1 else Cleared(n)
  }

  lemma {:induction false} OddNeighbours(n: bv32)
    ensures Odd(n) ==> Half(n - 1) == Half(n) && !Odd(n - 1)
    ensures !Odd(n) ==> Half(n + 1) == Half(n) && Odd(n + 1)
  {}

  lemma {:induction false} ValueNext(n: bv32, bits: nat)
    requires bits > 0
    ensures Odd(n) <==> Value(n, bits) % 2 == 1
    ensures if Odd(n) then Value(n - 1, bits) == Value(n, bits) - 1 else Value(n + 1, bits) == Value(n, bits) + 1
  {
    hide Odd, Half;
    OddNeighbours(n);
  }

  lemma {:induction false} SkipHeightBits(n: bv32)
    requires Value(n, 32) >= 2
    ensures Value(SkipBits(n), 32) == GetSkipHeight(Value(n, 32))
  {
    hide Odd, Half, Cleared, Value, InvertLowestOne;
    ValueNext(n, 32);
    LowestOneBits(n, 32);
    if Odd(n) {
      var a := Cleared(n - 1);
      OddNeighbours(n);
      EvenCleared(n - 1);
      EvenCleared(a);
      LowestOneBits(n - 1, 32);
      LowestOneBits(a, 32);
      ValueNext(Cleared(a), 32);
    }
  }

  function Max(a: nat, b: nat): nat { if a < b then b else a }

  /** The height that the search for height `t` goes to from height `a` if all skip links are there. */
  function NextHeight(a: nat, t: nat): (r: nat)
    requires t < a
    ensures t <= r < a
  {
    var skipTo, skipPrev := GetSkipHeight(a), GetSkipHeight(a - 1);
    if skipTo == t || (skipTo > t && !(skipPrev < skipTo - 2 && skipPrev >= t)) then skipTo else a - 1
  }

  /** The number of steps of the search. */
  ghost function Steps(a: nat, t: nat): nat
    requires t <= a
  {
    if t == a then 0 else 1 + Steps(NextHeight(a, t), t)
  }

  class BlockIndex {
    var prev: BlockIndex?
    var skip: BlockIndex?
    var height: nat
    var time: nat
    var timeMax: nat
    // All ancestors, from the first block to this one.
    ghost var line: seq<BlockIndex>

    ghost predicate Placed(i: nat)
      requires i < |line|
      reads this, line
    {
      var b := line[i];
      && b.height == i && b.line == line[..i + 1]
      && b.prev == (if i == 0 then null else line[i - 1])
      && b.timeMax == (if i == 0 then b.time else Max(line[i - 1].timeMax, b.time))
      && (b.skip == null || (i > 0 && b.skip == line[GetSkipHeight(i)]))
    }

    ghost predicate Valid()
      reads this, line
    {
      && |line| == height + 1 && line[height] == this
      && forall i | 0 <= i <= height :: Placed(i)
    }

    /** Every block but the first has its skip link. */
    ghost predicate Built()
      requires Valid()
      reads this, line
    {
      forall i | 0 < i <= height :: line[i].skip != null
    }

    constructor (parent: BlockIndex?, time: nat)
      requires parent != null ==> parent.Valid()
      ensures Valid() && fresh(this)
      ensures prev == parent && skip == null && this.time == time
      ensures line == (if parent == null then [] else parent.line) + [this]
    {
      prev, skip := parent, null;
      height := if parent == null then 0 else parent.height + 1;
      this.time := time;
      timeMax := if parent == null then time else Max(parent.timeMax, time);
      new;
      line := (if parent == null then [] else parent.line) + [this];
      forall i | 0 <= i <= height ensures Placed(i) {
        if i < height {
          assert parent.Placed(i) && line[..i + 1] == parent.line[..i + 1];
        } else {
          assert parent != null ==> parent.Placed(i - 1);
        }
      }
    }

    /** The ancestor at a height, by skip links where they help: what the walk over parents finds. */
    method GetAncestor(h: int) returns (r: BlockIndex?, ghost steps: nat)
      requires Valid()
      ensures r == if 0 <= h <= height then line[h] else null
      ensures Built() && 0 <= h <= height ==> steps == Steps(height, h)
    {
      steps := 0;
      if h > height || h < 0 { return null, 0; }
      var walk, at := this, height;
      while at > h
        invariant h <= at <= height && walk == line[at]
        invariant Built() ==> steps + Steps(at, h) == Steps(height, h)
        decreases at
      {
        steps := steps + 1;
        var skipTo, skipPrev := GetSkipHeight(at), GetSkipHeight(at - 1);
        assert Placed(at);
        if walk.skip != null && (skipTo == h || (skipTo > h && !(skipPrev < skipTo - 2 && skipPrev >= h))) {
          walk := walk.skip;
          at := skipTo;
        } else {
          walk := walk.prev;
          at := at - 1;
        }
      }
      return walk, steps;
    }

    method BuildSkip()
      requires Valid()
      modifies `skip
      ensures Valid() && line == old(line)
      ensures prev != null ==> skip == line[GetSkipHeight(height)]
      ensures prev == null ==> skip == old(skip)
    {
      assert Placed(height);
      if prev != null {
        AncestorValid(height - 1);
        var found, _ := prev.GetAncestor(GetSkipHeight(height));
        skip := found;
      }
      forall i | 0 <= i <= height ensures Placed(i) { assert old(Placed(i)); }
    }

    /** Every ancestor is itself valid. */
    lemma AncestorValid(i: nat)
      requires Valid() && i <= height
      ensures line[i].Valid() && line[i].height == i && line[i].line == line[..i + 1]
      ensures Built() ==> line[i].Built()
    {
      assert Placed(i);
      var b := line[i];
      forall k | 0 <= k <= i ensures b.Placed(k) {
        assert Placed(k) && b.line[..k + 1] == line[..k + 1];
      }
    }
  }
}
