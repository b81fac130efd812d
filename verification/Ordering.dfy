/**
 The order in which chunks, and the transactions of a chunk, are put in a linearization, and why the
 linearization is then at least as good as the chunks.
 */
module Ordering {
  import opened FeeRates
  import opened Forests
  import opened Topology
  import opened Diagrams
  import opened Optimality
  import opened Minimality
  import opened Loading

  /** The sign tells how the first transaction compares with the second. */
  type Comparator = (TxIdx, TxIdx) -> int

  /** A strict total order on transactions. */
  ghost predicate StrongOrder(cmp: Comparator) {
    && (forall a: TxIdx, b: TxIdx :: cmp(a, b) == 0 <==> a == b)
    && (forall a: TxIdx, b: TxIdx :: cmp(a, b) > 0 <==> cmp(b, a) < 0)
    && (forall a: TxIdx, b: TxIdx, c: TxIdx | cmp(a, b) > 0 && cmp(b, c) > 0 :: cmp(a, c) > 0)
  }

  /** What an entry is ordered by: feerate, size, and a transaction to break ties. */
  datatype Key = Key(frac: FeeFrac, tie: TxIdx)

  /** The first entry comes after the second: lower feerate, then larger size, then later by `cmp`. */
  predicate After(cmp: Comparator, a: Key, b: Key) {
    var rates := CompareByRatio(a.frac, b.frac);
    if rates != 0 then rates < 0
    else if a.frac.size != b.frac.size then a.frac.size > b.frac.size
    else cmp(a.tie, b.tie) > 0
  }

  lemma {:induction false} AfterTransitive(cmp: Comparator, a: Key, b: Key, c: Key)
    requires StrongOrder(cmp) && a.frac.size > 0 && b.frac.size > 0 && c.frac.size > 0
    requires After(cmp, a, b) && After(cmp, b, c)
    ensures After(cmp, a, c)
  {
    hide CompareByRatio;
    CompareIsRatioOrder(a.frac, b.frac);
    CompareIsRatioOrder(b.frac, c.frac);
    CompareIsRatioOrder(a.frac, c.frac);
  }

  lemma {:induction false} NotAfterItself(cmp: Comparator, a: Key)
    requires StrongOrder(cmp)
    ensures !After(cmp, a, a)
  {}

  lemma {:induction false} NotAfterRate(cmp: Comparator, a: Key, b: Key)
    requires a.frac.size > 0 && b.frac.size > 0 && !After(cmp, a, b)
    ensures RatioOf(b.frac) <= RatioOf(a.frac)
  {
    CompareIsRatioOrder(a.frac, b.frac);
  }

  /** What does not come after: a higher feerate, or the same and a smaller size, or the same and no higher by `cmp`. */
  lemma {:induction false} NotAfterExactly(cmp: Comparator, a: Key, b: Key)
    requires a.frac.size > 0 && b.frac.size > 0
    ensures !After(cmp, a, b) <==>
            || RatioOf(a.frac) > RatioOf(b.frac)
            || (RatioOf(a.frac) == RatioOf(b.frac) && (a.frac.size < b.frac.size || (a.frac.size == b.frac.size && cmp(a.tie, b.tie) <= 0)))
  {
    hide CompareByRatio, RatioOf;
    CompareIsRatioOrder(a.frac, b.frac);
  }

  ghost predicate PositiveKeys(ready: map<nat, Key>) {
    forall x <- ready :: ready[x].frac.size > 0
  }

  /** The entry that comes after no other. */
  method PopFirst(cmp: Comparator, ready: map<nat, Key>) returns (best: nat)
    requires StrongOrder(cmp) && PositiveKeys(ready) && ready != map[]
    ensures best in ready && forall y <- ready :: !After(cmp, ready[best], ready[y])
  {
    hide After, StrongOrder;
    best :| best in ready;
    var todo := ready.Keys - {best};
    NotAfterItself(cmp, ready[best]);
    while todo != {}
      invariant todo <= ready.Keys && best in ready
      invariant forall y <- ready | y !in todo :: !After(cmp, ready[best], ready[y])
    {
      var z :| z in todo;
      todo := todo - {z};
      if After(cmp, ready[best], ready[z]) {
        forall y <- ready | y !in todo ensures !After(cmp, ready[z], ready[y]) {
          if y == z {
            NotAfterItself(cmp, ready[z]);
          } else if After(cmp, ready[z], ready[y]) {
            AfterTransitive(cmp, ready[best], ready[z], ready[y]);
          }
        }
        best := z;
      }
    }
  }

  ghost predicate IsMax(cmp: Comparator, x: Txs, t: TxIdx) {
    t in x && forall v <- x :: cmp(v, t) <= 0
  }

  lemma {:induction false} MaxUnique(cmp: Comparator, x: Txs, t: TxIdx, u: TxIdx)
    requires StrongOrder(cmp) && IsMax(cmp, x, t) && IsMax(cmp, x, u)
    ensures t == u
  {}

  /** The highest transaction of a chunk. */
  method MaxFallback(cmp: Comparator, x: Txs) returns (t: TxIdx)
    requires StrongOrder(cmp) && x != {}
    ensures IsMax(cmp, x, t)
  {
    t :| t in x;
    var todo := x - {t};
    while todo != {}
      invariant todo <= x && t in x && forall v <- x | v !in todo :: cmp(v, t) <= 0
    {
      var u :| u in todo;
      todo := todo - {u};
      if cmp(u, t) > 0 { t := u; }
    }
  }

  // ----- The order of chunks

  ghost predicate ReadyChunk(n: Net, ch: Chunks, out: Txs, x: Txs) {
    && x in ch.Values && x !! out
    && forall d <- n.deps | d.child in x && d.parent !in x :: d.parent in out
  }

  /** Of the chunks that depend only on what is out, `x` comes first. */
  ghost predicate BestChunk(n: Net, cmp: Comparator, ch: Chunks, out: Txs, x: Txs) {
    && ReadyChunk(n, ch, out, x)
    && forall y, t, u | ReadyChunk(n, ch, out, y) && IsMax(cmp, x, t) && IsMax(cmp, y, u) ::
         !After(cmp, Key(Total(n.fees, x), t), Key(Total(n.fees, y), u))
  }

  ghost function BlockSet(cs: seq<Txs>): set<Txs> { set x <- cs }

  ghost predicate ChunkSequence(n: Net, cmp: Comparator, ch: Chunks, cs: seq<Txs>) {
    forall i | 0 <= i < |cs| :: BestChunk(n, cmp, ch, Union(BlockSet(cs[..i])), cs[i])
  }

  /** Of two chunks that could come next, the one that does has the higher feerate, then the smaller size, then the lower highest transaction. */
  lemma {:induction false} ChunkTies(n: Net, cmp: Comparator, ch: Chunks, cs: seq<Txs>, i: nat, y: Txs, t: TxIdx, u: TxIdx)
    requires ChunkSequence(n, cmp, ch, cs) && i < |cs| && ReadyChunk(n, ch, Union(BlockSet(cs[..i])), y) && PositiveSizes(n.fees)
    requires IsMax(cmp, cs[i], t) && IsMax(cmp, y, u)
    ensures Rate(n.fees, cs[i]) >= Rate(n.fees, y)
    ensures Rate(n.fees, cs[i]) == Rate(n.fees, y) ==> Total(n.fees, cs[i]).size <= Total(n.fees, y).size
    ensures Rate(n.fees, cs[i]) == Rate(n.fees, y) && Total(n.fees, cs[i]).size == Total(n.fees, y).size ==> cmp(t, u) <= 0
  {
    hide After, RatioOf, Total, ReadyChunk;
    var x := cs[i];
    assert BestChunk(n, cmp, ch, Union(BlockSet(cs[..i])), x);
    TotalSizePositive(n.fees, x);
    TotalSizePositive(n.fees, y);
    NotAfterExactly(cmp, Key(Total(n.fees, x), t), Key(Total(n.fees, y), u));
  }

  /** Some chunk at least as good as `x` can come next. */
  lemma {:induction false} ReadyAbove(n: Net, ch: Chunks, rank: map<TxIdx, nat>, done: set<Txs>, v: TxIdx) returns (y: Txs)
    requires Partitions(n.txs, ch) && Ranked(n, ch, rank) && v in ch && done <= ch.Values && ch[v] !in done
    ensures ReadyChunk(n, ch, Union(done), y) && Rate(n.fees, y) >= Rate(n.fees, ch[v])
    decreases rank[v]
  {
    hide Rate;
    ApartFromDone(n.txs, ch, done, v);
    if d :| d in n.deps && d.child in ch[v] && d.parent !in ch[v] && d.parent !in Union(done) {
      assert ch[d.child] == ch[v] && ch[d.parent] != ch[v];
      assert d.parent in ch[d.parent];
      y := ReadyAbove(n, ch, rank, done, d.parent);
    } else {
      y := ch[v];
    }
  }

  lemma {:induction false} ApartFromDone(txs: Txs, ch: Chunks, done: set<Txs>, v: TxIdx)
    requires Partitions(txs, ch) && v in ch && done <= ch.Values && ch[v] !in done
    ensures ch[v] !! Union(done)
  {
    forall b <- done ensures b !! ch[v] {
      BlocksApart(txs, ch, b, ch[v]);
    }
  }

  lemma {:induction false} MaxExists(cmp: Comparator, x: Txs) returns (t: TxIdx)
    requires StrongOrder(cmp) && x != {}
    ensures IsMax(cmp, x, t)
    decreases |x|
  {
    var v :| v in x;
    if x == {v} {
      t := v;
    } else {
      var rest := x - {v};
      assert rest != {} by { assert x == rest + {v}; }
      var u := MaxExists(cmp, rest);
      t := if cmp(v, u) > 0 then v else u;
      forall w <- x ensures cmp(w, t) <= 0 {}
    }
  }

  lemma {:induction false} BestRate(n: Net, cmp: Comparator, ch: Chunks, out: Txs, x: Txs, y: Txs)
    requires ValidNet(n) && Partitions(n.txs, ch) && StrongOrder(cmp) && BestChunk(n, cmp, ch, out, x) && ReadyChunk(n, ch, out, y)
    ensures Rate(n.fees, y) <= Rate(n.fees, x)
  {
    hide After, Total, StrongOrder;
    assert x != {} && y != {};
    var t := MaxExists(cmp, x);
    var u := MaxExists(cmp, y);
    TotalSizePositive(n.fees, x);
    TotalSizePositive(n.fees, y);
    NotAfterRate(cmp, Key(Total(n.fees, x), t), Key(Total(n.fees, y), u));
  }

  lemma {:induction false} SequenceBlocks(n: Net, cmp: Comparator, ch: Chunks, cs: seq<Txs>, i: nat, j: nat)
    requires Partitions(n.txs, ch) && ChunkSequence(n, cmp, ch, cs) && i <= j < |cs|
    ensures cs[j] in ch.Values && BlockSet(cs[..i]) <= ch.Values && cs[j] !in BlockSet(cs[..i])
  {
    hide After;
    assert BestChunk(n, cmp, ch, Union(BlockSet(cs[..j])), cs[j]);
    forall x <- BlockSet(cs[..i]) ensures x in ch.Values && x != cs[j] {
      var k :| 0 <= k < i && cs[k] == x;
      assert BestChunk(n, cmp, ch, Union(BlockSet(cs[..k])), cs[k]);
      assert cs[..j][k] == x && x in BlockSet(cs[..j]);
      assert x <= Union(BlockSet(cs[..j])) && x != {};
    }
  }

  /** Chunks come in an order of non-increasing feerate. */
  lemma {:induction false} RatesFall(n: Net, cmp: Comparator, ch: Chunks, cs: seq<Txs>, i: nat, j: nat)
    requires ValidNet(n) && Partitions(n.txs, ch) && Orderly(n, ch) && StrongOrder(cmp)
    requires ChunkSequence(n, cmp, ch, cs) && i < j < |cs|
    ensures Rate(n.fees, cs[j]) <= Rate(n.fees, cs[i])
  {
    hide Rate, After, StrongOrder, Partitions, BestChunk, ReadyChunk;
    SequenceBlocks(n, cmp, ch, cs, i, j);
    var rank :| Ranked(n, ch, rank);
    var v :| v in ch && ch[v] == cs[j];
    var y := ReadyAbove(n, ch, rank, BlockSet(cs[..i]), v);
    BestRate(n, cmp, ch, Union(BlockSet(cs[..i])), cs[i], y);
  }

  // ----- Prefixes and the diagram

  ghost predicate FallingBlocks(fees: Fees, cs: seq<Txs>) {
    && (forall i | 0 <= i < |cs| :: cs[i] != {})
    && (forall i, j | 0 <= i < j < |cs| :: cs[i] !! cs[j] && Rate(fees, cs[j]) <= Rate(fees, cs[i]))
  }

  lemma {:induction false} LastBlock(fees: Fees, cs: seq<Txs>)
    requires cs != [] && FallingBlocks(fees, cs)
    ensures var rest, x := cs[..|cs| - 1], cs[|cs| - 1];
            && FallingBlocks(fees, rest) && BlockSet(cs) == BlockSet(rest) + {x} && x !in BlockSet(rest)
            && Union(BlockSet(cs)) == Union(BlockSet(rest)) + x && Union(BlockSet(rest)) !! x
  {
    hide Rate;
    var rest, x := cs[..|cs| - 1], cs[|cs| - 1];
    assert cs == rest + [x];
    forall y <- BlockSet(rest) ensures y !! x && y != x {
      var i :| 0 <= i < |rest| && rest[i] == y;
      assert cs[i] == y && cs[i] !! cs[|cs| - 1];
    }
  }

  lemma {:induction false} AllAboveExact(fees: Fees, lam: real, cs: seq<Txs>)
    requires PositiveSizes(fees) && FallingBlocks(fees, cs) && forall i | 0 <= i < |cs| :: Rate(fees, cs[i]) >= lam
    ensures Surplus(fees, lam, Union(BlockSet(cs))) == Diagram(fees, lam, BlockSet(cs))
    decreases |cs|
  {
    hide Rate, Surplus, Gain;
    if cs == [] {
      assert Union(BlockSet(cs)) == {};
      SurplusEmpty(fees, lam);
    } else {
      var rest, x := cs[..|cs| - 1], cs[|cs| - 1];
      LastBlock(fees, cs);
      AllAboveExact(fees, lam, rest);
      hide Diagram, FallingBlocks;
      SurplusUnion(fees, lam, Union(BlockSet(rest)), x);
      DiagramAdd(fees, lam, BlockSet(rest), x);
      GainSign(fees, lam, x);
    }
  }

  /** At every feerate some prefix of the chunks earns all that the chunks can. */
  lemma {:induction false} PrefixReaches(fees: Fees, lam: real, cs: seq<Txs>) returns (k: nat)
    requires PositiveSizes(fees) && FallingBlocks(fees, cs)
    ensures k <= |cs| && Surplus(fees, lam, Union(BlockSet(cs[..k]))) == Diagram(fees, lam, BlockSet(cs))
    decreases |cs|
  {
    hide Rate, Surplus, Gain;
    if cs == [] || Rate(fees, cs[|cs| - 1]) >= lam {
      forall i | 0 <= i < |cs| ensures Rate(fees, cs[i]) >= lam {
        assert i < |cs| - 1 ==> Rate(fees, cs[|cs| - 1]) <= Rate(fees, cs[i]);
      }
      AllAboveExact(fees, lam, cs);
      k := |cs|;
      assert cs[..k] == cs;
    } else {
      var rest, x := cs[..|cs| - 1], cs[|cs| - 1];
      LastBlock(fees, cs);
      k := PrefixReaches(fees, lam, rest);
      assert rest[..k] == cs[..k];
      hide Diagram, FallingBlocks;
      DiagramAdd(fees, lam, BlockSet(rest), x);
      GainSign(fees, lam, x);
    }
  }

  /** `lin` lists the chunks of `cs` one after the other. */
  ghost predicate InBlocks(lin: seq<TxIdx>, cs: seq<Txs>)
    decreases |cs|
  {
    if cs == [] then lin == []
    else
      var x := cs[|cs| - 1];
      |x| <= |lin| && Elems(lin[|lin| - |x|..]) == x && InBlocks(lin[..|lin| - |x|], cs[..|cs| - 1])
  }

  lemma {:induction false} ElemsAppend(a: seq<TxIdx>, b: seq<TxIdx>)
    ensures Elems(a + b) == Elems(a) + Elems(b)
  {}

  lemma {:induction false} BlockPrefix(lin: seq<TxIdx>, cs: seq<Txs>, k: nat) returns (m: nat)
    requires InBlocks(lin, cs) && k <= |cs|
    ensures m <= |lin| && Elems(lin[..m]) == Union(BlockSet(cs[..k]))
    decreases |cs|
  {
    if k == |cs| {
      m := |lin|;
      assert lin[..m] == lin && cs[..k] == cs;
      BlocksCover(lin, cs);
    } else {
      var x := cs[|cs| - 1];
      var rest := lin[..|lin| - |x|];
      m := BlockPrefix(rest, cs[..|cs| - 1], k);
      assert lin[..m] == rest[..m] && cs[..|cs| - 1][..k] == cs[..k];
    }
  }

  lemma {:induction false} BlocksCover(lin: seq<TxIdx>, cs: seq<Txs>)
    requires InBlocks(lin, cs)
    ensures Elems(lin) == Union(BlockSet(cs))
    decreases |cs|
  {
    if cs != [] {
      var x := cs[|cs| - 1];
      var rest := lin[..|lin| - |x|];
      BlocksCover(rest, cs[..|cs| - 1]);
      assert lin == rest + lin[|lin| - |x|..];
      ElemsAppend(rest, lin[|lin| - |x|..]);
      assert cs == cs[..|cs| - 1] + [x];
    }
  }

  /** The first `m` transactions earn at least `amount` above the feerate `lam`. */
  ghost predicate PrefixEarns(fees: Fees, lam: real, lin: seq<TxIdx>, m: nat, amount: real) {
    m <= |lin| && Surplus(fees, lam, Elems(lin[..m])) >= amount
  }

  /** Some prefix earns at least `amount` above the feerate `lam`. */
  ghost predicate SomePrefixEarns(fees: Fees, lam: real, lin: seq<TxIdx>, amount: real) {
    exists m: nat :: PrefixEarns(fees, lam, lin, m, amount)
  }

  /** At every feerate some prefix of the linearization earns at least what the chunks do. */
  ghost predicate ReachesDiagram(fees: Fees, lin: seq<TxIdx>, ch: Chunks) {
    forall lam: real :: SomePrefixEarns(fees, lam, lin, Diagram(fees, lam, ch.Values))
  }

  lemma {:induction false} SequenceFalls(n: Net, cmp: Comparator, ch: Chunks, cs: seq<Txs>)
    requires ValidNet(n) && Partitions(n.txs, ch) && Orderly(n, ch) && StrongOrder(cmp) && ChunkSequence(n, cmp, ch, cs)
    ensures FallingBlocks(n.fees, cs)
  {
    hide Rate, After, StrongOrder, ChunkSequence, Orderly;
    forall i | 0 <= i < |cs| ensures cs[i] != {} {
      SequenceBlocks(n, cmp, ch, cs, i, i);
    }
    forall i, j | 0 <= i < j < |cs| ensures cs[i] !! cs[j] && Rate(n.fees, cs[j]) <= Rate(n.fees, cs[i]) {
      RatesFall(n, cmp, ch, cs, i, j);
      SequenceBlocks(n, cmp, ch, cs, j, j);
      SequenceBlocks(n, cmp, ch, cs, i, i);
      assert cs[i] in BlockSet(cs[..j]) by { assert cs[..j][i] == cs[i]; }
      BlocksApart(n.txs, ch, cs[i], cs[j]);
    }
  }

  lemma {:induction false} BlocksApart(txs: Txs, ch: Chunks, x: Txs, y: Txs)
    requires Partitions(txs, ch) && x in ch.Values && y in ch.Values && x != y
    ensures x !! y
  {
    var u :| u in ch && ch[u] == x;
    var v :| v in ch && ch[v] == y;
    ChunksDisjoint(txs, ch, u, v);
  }

  /** A linearization that lists all chunks in the order of `ChunkSequence` is at least as good as they are. */
  lemma {:induction false} SequenceReaches(n: Net, cmp: Comparator, ch: Chunks, cs: seq<Txs>, lin: seq<TxIdx>)
    requires ValidNet(n) && Partitions(n.txs, ch) && Orderly(n, ch) && StrongOrder(cmp)
    requires ChunkSequence(n, cmp, ch, cs) && BlockSet(cs) == ch.Values && InBlocks(lin, cs)
    ensures ReachesDiagram(n.fees, lin, ch)
  {
    hide Rate, After, StrongOrder, ChunkSequence, Orderly, Surplus, Partitions, Gain;
    SequenceFalls(n, cmp, ch, cs);
    forall lam: real ensures SomePrefixEarns(n.fees, lam, lin, Diagram(n.fees, lam, ch.Values)) {
      var k := PrefixReaches(n.fees, lam, cs);
      var m := BlockPrefix(lin, cs, k);
      assert PrefixEarns(n.fees, lam, lin, m, Diagram(n.fees, lam, ch.Values));
    }
  }

  // ----- The order of transactions

  ghost predicate TxReady(n: Net, out: Txs, v: TxIdx) {
    v in n.txs && v !in out && forall d <- n.deps | d.child == v :: d.parent in out
  }

  /** Of the transactions in its chunk that depend only on what is out, `v` comes first. */
  ghost predicate BestTx(n: Net, cmp: Comparator, ch: Chunks, out: Txs, v: TxIdx) {
    && v in ch && TxReady(n, out, v)
    && forall w <- ch[v] | TxReady(n, out, w) :: !After(cmp, Key(FracOf(n.fees, v), v), Key(FracOf(n.fees, w), w))
  }

  ghost predicate TxSequence(n: Net, cmp: Comparator, ch: Chunks, lin: seq<TxIdx>) {
    forall i | 0 <= i < |lin| :: BestTx(n, cmp, ch, Elems(lin[..i]), lin[i])
  }

  /** Of two transactions of a chunk that could come next, the one that does has the higher feerate, then the smaller size, then is the lower. */
  lemma {:induction false} TxTies(n: Net, cmp: Comparator, ch: Chunks, lin: seq<TxIdx>, i: nat, w: TxIdx)
    requires TxSequence(n, cmp, ch, lin) && i < |lin| && lin[i] in ch && w in ch[lin[i]] && TxReady(n, Elems(lin[..i]), w)
    requires PositiveSizes(n.fees) && lin[i] in n.fees && w in n.fees
    ensures var a, b := n.fees[lin[i]], n.fees[w];
            && RatioOf(a) >= RatioOf(b)
            && (RatioOf(a) == RatioOf(b) ==> a.size <= b.size)
            && (RatioOf(a) == RatioOf(b) && a.size == b.size ==> cmp(lin[i], w) <= 0)
  {
    hide After, RatioOf, TxReady;
    var v := lin[i];
    assert BestTx(n, cmp, ch, Elems(lin[..i]), v);
    NotAfterExactly(cmp, Key(FracOf(n.fees, v), v), Key(FracOf(n.fees, w), w));
  }

  lemma {:induction false} TxSequenceNext(n: Net, cmp: Comparator, ch: Chunks, lin: seq<TxIdx>, v: TxIdx)
    requires TxSequence(n, cmp, ch, lin) && BestTx(n, cmp, ch, Elems(lin), v)
    ensures TxSequence(n, cmp, ch, lin + [v]) && Elems(lin + [v]) == Elems(lin) + {v}
  {
    hide BestTx;
    var next := lin + [v];
    assert next[..|lin|] == lin;
    forall i | 0 <= i < |next| ensures BestTx(n, cmp, ch, Elems(next[..i]), next[i]) {
      if i < |lin| { assert next[..i] == lin[..i]; }
    }
  }

  /** Such a sequence repeats nothing and puts every transaction after those it depends on. */
  lemma {:induction false} TxSequenceClosed(n: Net, cmp: Comparator, ch: Chunks, lin: seq<TxIdx>)
    requires TxSequence(n, cmp, ch, lin)
    ensures AncestorClosed(n.deps, Elems(lin)) && Elems(lin) <= n.txs
    ensures forall i, j | 0 <= i < j < |lin| :: lin[i] != lin[j]
  {
    hide After;
    forall d <- n.deps | d.child in Elems(lin) ensures d.parent in Elems(lin) {
      var i :| 0 <= i < |lin| && lin[i] == d.child;
      assert BestTx(n, cmp, ch, Elems(lin[..i]), lin[i]);
      assert d.parent in lin[..i];
    }
    forall i, j | 0 <= i < j < |lin| ensures lin[i] != lin[j] {
      assert BestTx(n, cmp, ch, Elems(lin[..j]), lin[j]);
      assert lin[..j][i] == lin[i];
    }
    forall v <- Elems(lin) ensures v in n.txs {
      var i :| 0 <= i < |lin| && lin[i] == v;
      assert BestTx(n, cmp, ch, Elems(lin[..i]), lin[i]);
    }
  }

  lemma {:induction false} ChunkSequenceNext(n: Net, cmp: Comparator, ch: Chunks, cs: seq<Txs>, x: Txs)
    requires ChunkSequence(n, cmp, ch, cs) && BestChunk(n, cmp, ch, Union(BlockSet(cs)), x)
    ensures ChunkSequence(n, cmp, ch, cs + [x]) && BlockSet(cs + [x]) == BlockSet(cs) + {x}
  {
    hide BestChunk;
    var next := cs + [x];
    assert next[..|cs|] == cs;
    forall i | 0 <= i < |next| ensures BestChunk(n, cmp, ch, Union(BlockSet(next[..i])), next[i]) {
      if i < |cs| { assert next[..i] == cs[..i]; }
    }
  }

  lemma {:induction false} DistinctLength(lin: seq<TxIdx>)
    requires forall i, j | 0 <= i < j < |lin| :: lin[i] != lin[j]
    ensures |Elems(lin)| == |lin|
    decreases |lin|
  {
    if lin != [] {
      var rest, v := lin[..|lin| - 1], lin[|lin| - 1];
      assert lin == rest + [v];
      ElemsAppend(rest, [v]);
      assert v !in Elems(rest);
      assert Elems(lin) == Elems(rest) + {v};
      DistinctLength(rest);
    }
  }

  lemma {:induction false} PartElems(base: seq<TxIdx>, part: seq<TxIdx>, x: Txs)
    requires Elems(base) !! x && Elems(base + part) == Elems(base) + x
    requires forall i, j | 0 <= i < j < |base + part| :: (base + part)[i] != (base + part)[j]
    ensures Elems(part) == x && |part| == |x|
  {
    ElemsAppend(base, part);
    forall i, j | 0 <= i < |base| && 0 <= j < |part| ensures base[i] != part[j] {
      assert (base + part)[i] == base[i] && (base + part)[|base| + j] == part[j];
    }
    assert Elems(base) !! Elems(part);
    forall i, j | 0 <= i < j < |part| ensures part[i] != part[j] {
      assert (base + part)[|base| + i] == part[i] && (base + part)[|base| + j] == part[j];
    }
    DistinctLength(part);
  }

  /** Appending the transactions of one more chunk. */
  lemma {:induction false} InBlocksNext(base: seq<TxIdx>, lin: seq<TxIdx>, cs: seq<Txs>, x: Txs)
    requires InBlocks(base, cs) && base <= lin && Elems(base) !! x && Elems(lin) == Elems(base) + x
    requires forall i, j | 0 <= i < j < |lin| :: lin[i] != lin[j]
    ensures InBlocks(lin, cs + [x])
  {
    var part, next := lin[|base|..], cs + [x];
    assert lin == base + part;
    PartElems(base, part, x);
    hide Elems;
    assert next[..|next| - 1] == cs && next[|next| - 1] == x;
    assert lin[..|lin| - |x|] == base && lin[|lin| - |x|..] == part;
  }

  // ----- Comparing orders

  ghost predicate Unique(lin: seq<TxIdx>) {
    forall i, j | 0 <= i < j < |lin| :: lin[i] != lin[j]
  }

  /** At every feerate, some prefix of `better` earns at least what any prefix of `lin` does. */
  ghost predicate NoWorse(fees: Fees, better: seq<TxIdx>, lin: seq<TxIdx>) {
    forall lam: real, k: nat | k <= |lin| :: SomePrefixEarns(fees, lam, better, Surplus(fees, lam, Elems(lin[..k])))
  }

  lemma {:induction false} Earns(fees: Fees, lam: real, lin: seq<TxIdx>, m: nat, amount: real)
    requires m <= |lin| && Surplus(fees, lam, Elems(lin[..m])) >= amount
    ensures SomePrefixEarns(fees, lam, lin, amount)
  {
    assert PrefixEarns(fees, lam, lin, m, amount);
  }

  lemma {:induction false} NoWorseItself(fees: Fees, lin: seq<TxIdx>)
    ensures NoWorse(fees, lin, lin)
  {
    hide Surplus, SomePrefixEarns;
    forall lam: real, k: nat | k <= |lin| ensures SomePrefixEarns(fees, lam, lin, Surplus(fees, lam, Elems(lin[..k]))) {
      Earns(fees, lam, lin, k, Surplus(fees, lam, Elems(lin[..k])));
    }
  }

  lemma {:induction false} NoWorseTrans(fees: Fees, a: seq<TxIdx>, b: seq<TxIdx>, c: seq<TxIdx>)
    requires NoWorse(fees, a, b) && NoWorse(fees, b, c)
    ensures NoWorse(fees, a, c)
  {
    hide Surplus;
    forall lam: real, k: nat | k <= |c| ensures SomePrefixEarns(fees, lam, a, Surplus(fees, lam, Elems(c[..k]))) {
      var m: nat :| PrefixEarns(fees, lam, b, m, Surplus(fees, lam, Elems(c[..k])));
      assert SomePrefixEarns(fees, lam, a, Surplus(fees, lam, Elems(b[..m])));
      var j: nat :| PrefixEarns(fees, lam, a, j, Surplus(fees, lam, Elems(b[..m])));
      assert PrefixEarns(fees, lam, a, j, Surplus(fees, lam, Elems(c[..k])));
    }
  }
}
