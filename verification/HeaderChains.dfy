/** Chains of block headers: linkage, difficulty, work, one-bit commitments, and headers stored without their link. */
module HeaderChains {

  type Hash = nat

  datatype Header = Header(version: int, prev: Hash, merkle: Hash, time: nat, bits: nat, height: nat, nonce: nat, mix: Hash)

  /** A header without the hash of its predecessor. */
  datatype Compressed = Compressed(version: int, merkle: Hash, time: nat, bits: nat, height: nat, nonce: nat, mix: Hash) {
    function Full(prev: Hash): Header {
      Header(version, prev, merkle, time, bits, height, nonce, mix)
    }
  }

  function Compress(h: Header): (c: Compressed)
    ensures c.Full(h.prev) == h && c.bits == h.bits
  {
    Compressed(h.version, h.merkle, h.time, h.bits, h.height, h.nonce, h.mix)
  }

  /** Where the sync starts, what it aims for, and the functions it relies on. */
  datatype Params = Params(start: Header, startHeight: nat, startWork: nat, minWork: nat, period: nat, offset: nat, bufferSize: nat, maxCommitments: nat,
                           hash: Header -> Hash, permitted: (nat, nat, nat) -> bool, bit: Hash -> bool, proof: Header -> nat)
  {
    ghost predicate Valid() {
      period > 0 && offset < period && bufferSize > 0
    }

    /** The hash that the header at position `i` of a chain has to link to. */
    ghost function HashBefore(hs: seq<Header>, i: nat): Hash
      requires i <= |hs|
    {
      if i == 0 then hash(start) else hash(hs[i - 1])
    }

    ghost function BitsBefore(hs: seq<Header>, i: nat): nat
      requires i <= |hs|
    {
      if i == 0 then start.bits else hs[i - 1].bits
    }

    ghost predicate LinkedAt(hs: seq<Header>, i: nat)
      requires i < |hs|
    {
      hs[i].prev == HashBefore(hs, i)
    }

    ghost predicate PermittedAt(hs: seq<Header>, i: nat)
      requires i < |hs|
    {
      permitted(startHeight + 1 + i, BitsBefore(hs, i), hs[i].bits)
    }

    /** A chain of headers that follow each other from the start. */
    ghost predicate Linked(hs: seq<Header>) {
      forall i | 0 <= i < |hs| :: LinkedAt(hs, i)
    }

    ghost predicate Permitted(hs: seq<Header>) {
      forall i | 0 <= i < |hs| :: PermittedAt(hs, i)
    }

    ghost function Work(hs: seq<Header>): nat {
      if hs == [] then startWork else Work(hs[..|hs| - 1]) + proof(hs[|hs| - 1])
    }

    predicate Commits(height: nat)
      requires period > 0
    {
      height % period == offset
    }

    /** The commitment bits of a chain, one for every height that has one. */
    ghost function Bits(hs: seq<Header>): seq<bool>
      requires period > 0
    {
      if hs == [] then []
      else Bits(hs[..|hs| - 1]) + if Commits(startHeight + |hs|) then [bit(hash(hs[|hs| - 1]))] else []
    }

    /** Stored headers with their links restored, the first linking to `prev`. */
    ghost function Expanded(buffer: seq<Compressed>, prev: Hash): seq<Header> {
      if buffer == [] then [] else [buffer[0].Full(prev)] + Expanded(buffer[1..], hash(buffer[0].Full(prev)))
    }
  }

  lemma {:induction false} NextWork(p: Params, hs: seq<Header>, h: Header)
    ensures p.Work(hs + [h]) == p.Work(hs) + p.proof(h)
  {
    assert (hs + [h])[..|hs|] == hs;
  }

  lemma {:induction false} NextBits(p: Params, hs: seq<Header>, h: Header)
    requires p.period > 0
    ensures p.Bits(hs + [h]) == p.Bits(hs) + if p.Commits(p.startHeight + |hs| + 1) then [p.bit(p.hash(h))] else []
  {
    assert (hs + [h])[..|hs|] == hs;
  }

  lemma {:induction false} NextLinked(p: Params, hs: seq<Header>, h: Header)
    requires p.Linked(hs) && h.prev == p.HashBefore(hs, |hs|)
    ensures p.Linked(hs + [h])
  {
    forall i | 0 <= i < |hs + [h]| ensures p.LinkedAt(hs + [h], i) { if i < |hs| { assert p.LinkedAt(hs, i); } }
  }

  lemma {:induction false} NextPermitted(p: Params, hs: seq<Header>, h: Header)
    requires p.Permitted(hs) && p.permitted(p.startHeight + 1 + |hs|, p.BitsBefore(hs, |hs|), h.bits)
    ensures p.Permitted(hs + [h])
  {
    forall i | 0 <= i < |hs + [h]| ensures p.PermittedAt(hs + [h], i) { if i < |hs| { assert p.PermittedAt(hs, i); } }
  }

  /** Work only grows along a chain. */
  lemma {:induction false} WorkGrows(p: Params, hs: seq<Header>, k: nat)
    requires k <= |hs|
    ensures p.Work(hs[..k]) <= p.Work(hs)
    decreases |hs|
  {
    if k < |hs| {
      assert hs[..|hs| - 1][..k] == hs[..k];
      WorkGrows(p, hs[..|hs| - 1], k);
    } else {
      assert hs[..k] == hs;
    }
  }

  /** How many heights up to `height` have a commitment, counted from some height below all others. */
  function CommitsUpTo(height: int, period: nat, offset: nat): int
    requires period > 0
  {
    (height - offset) / period
  }

  lemma {:induction false} CommitsNext(height: int, period: nat, offset: nat)
    requires 0 <= offset < period
    ensures CommitsUpTo(height, period, offset) == CommitsUpTo(height - 1, period, offset) + if height % period == offset then 1 else 0
  {
    var q, r := height / period, height % period;
    assert height == q * period + r;
    if r >= offset {
      DivIs(height - offset, period, q, r - offset);
    } else {
      assert (q - 1) * period == q * period - period;
      DivIs(height - offset, period, q - 1, r - offset + period);
    }
    if r - 1 >= offset {
      DivIs(height - 1 - offset, period, q, r - 1 - offset);
    } else {
      assert (q - 1) * period == q * period - period;
      DivIs(height - 1 - offset, period, q - 1, r - 1 - offset + period);
    }
  }

  lemma {:induction false} DivIs(x: int, d: nat, q: int, r: int)
    requires d > 0 && x == q * d + r && 0 <= r < d
    ensures x / d == q
  {
    var k := x / d;
    assert (k - q) * d == r - x % d;
    if k > q { MulAtLeast(k - q, d); }
    if k < q { MulAtLeast(q - k, d); }
  }

  lemma {:induction false} MulAtLeast(m: int, d: nat)
    requires m >= 1
    ensures m * d >= d && (-m) * d == -(m * d)
  {}

  /** A chain has one commitment for every height after the start that is the offset modulo the period, in the order of heights. */
  lemma {:induction false} BitsExactly(p: Params, hs: seq<Header>, i: nat)
    requires p.Valid() && i < |hs|
    ensures |p.Bits(hs)| == CommitsUpTo(p.startHeight + |hs|, p.period, p.offset) - CommitsUpTo(p.startHeight, p.period, p.offset)
    ensures var height := p.startHeight + 1 + i;
            height % p.period == p.offset ==>
              var k := CommitsUpTo(height - 1, p.period, p.offset) - CommitsUpTo(p.startHeight, p.period, p.offset);
              0 <= k < |p.Bits(hs)| && p.Bits(hs)[k] == p.bit(p.hash(hs[i]))
    decreases |hs|
  {
    hide CommitsUpTo;
    var n := |hs| - 1;
    var most := hs[..n];
    CommitsNext(p.startHeight + |hs|, p.period, p.offset);
    if n > 0 { BitsExactly(p, most, if i < n then i else 0); }
  }

  /** The commitments of a prefix come first among those of the whole chain. */
  lemma {:induction false} BitsPrefix(p: Params, hs: seq<Header>, k: nat)
    requires p.period > 0 && k <= |hs|
    ensures p.Bits(hs[..k]) <= p.Bits(hs)
    decreases |hs|
  {
    if k < |hs| {
      assert hs[..|hs| - 1][..k] == hs[..k];
      BitsPrefix(p, hs[..|hs| - 1], k);
    } else {
      assert hs[..k] == hs;
    }
  }

  ghost function LastHash(p: Params, hs: seq<Header>, prev: Hash): Hash {
    if hs == [] then prev else p.hash(hs[|hs| - 1])
  }

  /** Storing one more header, if it links to the last one. */
  lemma {:induction false} ExpandedPush(p: Params, buffer: seq<Compressed>, prev: Hash, h: Header)
    requires h.prev == LastHash(p, p.Expanded(buffer, prev), prev)
    ensures p.Expanded(buffer + [Compress(h)], prev) == p.Expanded(buffer, prev) + [h]
    decreases |buffer|
  {
    var more := buffer + [Compress(h)];
    if buffer == [] {
      assert more[0] == Compress(h) && more[1..] == [];
    } else {
      var first := buffer[0].Full(prev);
      assert more[0] == buffer[0] && more[1..] == buffer[1..] + [Compress(h)];
      ExpandedPush(p, buffer[1..], p.hash(first), h);
    }
  }

  lemma {:induction false} ExpandedPop(p: Params, buffer: seq<Compressed>, prev: Hash)
    requires buffer != []
    ensures var first := buffer[0].Full(prev);
            p.Expanded(buffer, prev) == [first] + p.Expanded(buffer[1..], p.hash(first))
  {}

  lemma {:induction false} ExpandedLength(p: Params, buffer: seq<Compressed>, prev: Hash)
    ensures |p.Expanded(buffer, prev)| == |buffer|
    ensures buffer != [] ==> p.Expanded(buffer, prev)[|buffer| - 1].bits == buffer[|buffer| - 1].bits
    decreases |buffer|
  {
    if buffer != [] {
      ExpandedLength(p, buffer[1..], p.hash(buffer[0].Full(prev)));
      if |buffer| > 1 { assert buffer[1..][|buffer| - 2] == buffer[|buffer| - 1]; }
    }
  }
}
