/**
 Chunk partitions of a cluster: when they are topological, and how merging a chunk with the
 lowest-feerate chunk it depends on restores that.

 Everything is stated for upward merges. A downward merge is an upward merge in the flipped net,
 in which dependencies are reversed and fees negated.
 */
module Topology {
  import opened FeeRates
  import opened Forests

  datatype Net = Net(txs: Txs, deps: set<Dep>, fees: Fees)

  ghost predicate ValidNet(n: Net) {
    PositiveSizes(n.fees) && forall d <- n.deps :: Inside(d, n.txs)
  }

  function Reverse(d: Dep): Dep { Dep(d.child, d.parent) }

  function Flip(n: Net): Net {
    Net(n.txs, set d <- n.deps :: Reverse(d), NegateFees(n.fees))
  }

  lemma {:induction false} FlipValid(n: Net)
    requires ValidNet(n)
    ensures ValidNet(Flip(n))
  {}

  lemma {:induction false} FlipHas(n: Net, d: Dep)
    ensures d in n.deps <==> Reverse(d) in Flip(n).deps
  {
    if Reverse(d) in Flip(n).deps {
      var x :| x in n.deps && Reverse(x) == Reverse(d);
      assert x == d;
    }
  }

  /** The dependency stays inside a chunk, or its child is in a chunk of strictly lower feerate. */
  ghost predicate GoodDep(n: Net, ch: Chunks, d: Dep) {
    && d.parent in ch && d.child in ch
    && (ch[d.parent] == ch[d.child] || Rate(n.fees, ch[d.child]) < Rate(n.fees, ch[d.parent]))
  }

  ghost predicate Topological(n: Net, ch: Chunks) {
    forall d <- n.deps :: GoodDep(n, ch, d)
  }

  lemma {:induction false} FlipTopological(n: Net, ch: Chunks)
    ensures Topological(n, ch) <==> Topological(Flip(n), ch)
  {
    forall d <- n.deps ensures Reverse(d) in Flip(n).deps && (GoodDep(n, ch, d) <==> GoodDep(Flip(n), ch, Reverse(d))) {
      FlipHas(n, d);
      FlipGoodDep(n, ch, d);
    }
    forall r <- Flip(n).deps ensures Reverse(r) in n.deps && (GoodDep(n, ch, Reverse(r)) <==> GoodDep(Flip(n), ch, r)) {
      assert Reverse(Reverse(r)) == r;
      FlipHas(n, Reverse(r));
      FlipGoodDep(n, ch, Reverse(r));
    }
  }

  lemma {:induction false} FlipGoodDep(n: Net, ch: Chunks, d: Dep)
    ensures GoodDep(n, ch, d) <==> GoodDep(Flip(n), ch, Reverse(d))
  {
    hide Rate;
    if d.parent in ch && d.child in ch {
      NegatedRate(n.fees, ch[d.parent]);
      NegatedRate(n.fees, ch[d.child]);
    }
  }

  /** A union of chunks that holds every transaction its members depend on. */
  ghost predicate Region(n: Net, ch: Chunks, r: Txs) {
    && r <= n.txs
    && (forall v <- r :: v in ch && ch[v] <= r)
    && (forall d <- n.deps | d.child in r :: d.parent in r)
  }

  /**
   Only dependencies of the chunk `m` may be bad, and every chunk that depends on `m` has a lower
   feerate than every chunk `m` depends on.
   */
  ghost predicate OnlyBad(n: Net, ch: Chunks, r: Txs, m: Txs) {
    && (forall d <- n.deps | d.child in r && d.child !in m :: GoodDep(n, ch, d))
    && (forall d, e | d in n.deps && e in n.deps && Below(d, r, m) && Above(e, m) && d.child in ch && e.parent in ch ::
          Rate(n.fees, ch[d.child]) < Rate(n.fees, ch[e.parent]))
  }

  ghost predicate Below(d: Dep, r: Txs, m: Txs) {
    d.parent in m && d.child in r && d.child !in m
  }

  /** `e` is a dependency of `m` on another chunk. */
  ghost predicate Above(e: Dep, m: Txs) {
    e.child in m && e.parent !in m
  }

  /** `e` leads from `m` to a chunk of lowest feerate among those `m` depends on, not above `m` itself. */
  ghost predicate LowestAbove(n: Net, ch: Chunks, m: Txs, e: Dep) {
    && e in n.deps && Above(e, m) && e.parent in ch
    && Rate(n.fees, ch[e.parent]) <= Rate(n.fees, m)
    && forall d <- n.deps | Above(d, m) && d.parent in ch :: Rate(n.fees, ch[e.parent]) <= Rate(n.fees, ch[d.parent])
  }

  ghost predicate MergeState(n: Net, ch: Chunks, r: Txs, m: Txs) {
    && ValidNet(n) && Partitions(n.txs, ch)
    && Region(n, ch, r)
    && (exists v <- r :: ch[v] == m)
    && OnlyBad(n, ch, r, m)
  }

  /** Chunks that depend on the grown chunk are below the chunk it absorbed. */
  lemma {:induction false} BelowAbsorbed(n: Net, ch: Chunks, r: Txs, m: Txs, e: Dep, d: Dep)
    requires MergeState(n, ch, r, m) && LowestAbove(n, ch, m, e)
    requires d in n.deps && Below(d, r, m + ch[e.parent])
    ensures Rate(n.fees, ch[d.child]) < Rate(n.fees, ch[e.parent])
  {
    hide Rate;
    if d.parent !in m {
      assert GoodDep(n, ch, d);
      assert ch[d.parent] == ch[e.parent];
    }
  }

  /** Chunks the grown chunk depends on are not below the chunk it absorbed. */
  lemma {:induction false} AboveAbsorbed(n: Net, ch: Chunks, r: Txs, m: Txs, e: Dep, d: Dep)
    requires MergeState(n, ch, r, m) && LowestAbove(n, ch, m, e)
    requires d in n.deps && Above(d, m + ch[e.parent])
    ensures Rate(n.fees, ch[e.parent]) <= Rate(n.fees, ch[d.parent])
  {
    hide Rate;
    var p := ch[e.parent];
    if d.child !in m {
      assert ch[d.child] == p;
      assert e.child in r && e.parent in r && p <= r;
      assert GoodDep(n, ch, d);
    }
  }

  lemma {:induction false} MergedRate(n: Net, ch: Chunks, r: Txs, m: Txs, e: Dep)
    requires MergeState(n, ch, r, m) && LowestAbove(n, ch, m, e)
    ensures m !! ch[e.parent]
    ensures Rate(n.fees, ch[e.parent]) <= Rate(n.fees, m + ch[e.parent]) <= Rate(n.fees, m)
  {
    hide Rate;
    var v :| v in r && ch[v] == m;
    assert ch[e.parent] != m;
    ChunksDisjoint(n.txs, ch, v, e.parent);
    Mediant(n.fees, ch[e.parent], m);
    assert ch[e.parent] + m == m + ch[e.parent];
  }

  lemma {:induction false} MergedOnlyBad(n: Net, ch: Chunks, r: Txs, m: Txs, e: Dep)
    requires MergeState(n, ch, r, m) && LowestAbove(n, ch, m, e)
    ensures OnlyBad(n, MergeChunks(ch, m, ch[e.parent]), r, m + ch[e.parent])
  {
    hide Rate;
    var p := ch[e.parent];
    var k := m + p;
    var after := MergeChunks(ch, m, p);
    MergedRate(n, ch, r, m, e);
    forall d <- n.deps | d.child in r && d.child !in k ensures GoodDep(n, after, d) {
      assert GoodDep(n, ch, d);
      if d.parent in k { BelowAbsorbed(n, ch, r, m, e, d); }
    }
    forall d, a | d in n.deps && a in n.deps && Below(d, r, k) && Above(a, k) && d.child in after && a.parent in after
      ensures Rate(n.fees, after[d.child]) < Rate(n.fees, after[a.parent])
    {
      BelowAbsorbed(n, ch, r, m, e, d);
      AboveAbsorbed(n, ch, r, m, e, a);
    }
  }

  /** One upward merge step keeps the state of a merge sequence. */
  lemma {:induction false} MergeKeepsState(n: Net, ch: Chunks, r: Txs, m: Txs, e: Dep)
    requires MergeState(n, ch, r, m) && LowestAbove(n, ch, m, e)
    ensures MergeState(n, MergeChunks(ch, m, ch[e.parent]), r, m + ch[e.parent])
  {
    MergedOnlyBad(n, ch, r, m, e);
    hide Rate, OnlyBad;
    var v :| v in r && ch[v] == m;
    MergePartitions(n.txs, ch, v, e.parent);
    assert e.parent in r;
    assert MergeChunks(ch, m, ch[e.parent])[v] == m + ch[e.parent];
  }

  ghost predicate TopologicalIn(n: Net, ch: Chunks, r: Txs) {
    forall d <- n.deps | d.child in r :: GoodDep(n, ch, d)
  }

  ghost predicate NoMergeLeft(n: Net, ch: Chunks, m: Txs) {
    forall d <- n.deps | Above(d, m) && d.parent in ch :: Rate(n.fees, m) < Rate(n.fees, ch[d.parent])
  }

  /** When no merge is left, the region is topological. */
  lemma {:induction false} MergeDone(n: Net, ch: Chunks, r: Txs, m: Txs)
    requires MergeState(n, ch, r, m) && NoMergeLeft(n, ch, m)
    ensures TopologicalIn(n, ch, r)
  {
    hide Rate;
    var v :| v in r && ch[v] == m;
    forall d <- n.deps | d.child in r ensures GoodDep(n, ch, d) {
      if d.child in m {
        assert ch[d.child] == m;
        if d.parent in m { assert ch[d.parent] == m; }
      }
    }
  }

  /** A merge sequence reads and changes only the chunks of its region. */
  lemma {:induction false} MergeStateFrame(n: Net, a: Chunks, b: Chunks, r: Txs, m: Txs)
    requires MergeState(n, a, r, m) && Partitions(n.txs, b)
    requires forall v <- r :: a[v] == b[v]
    ensures MergeState(n, b, r, m)
  {
    hide Rate;
    forall d <- n.deps | d.child in r && d.child !in m ensures GoodDep(n, b, d) {
      assert GoodDep(n, a, d);
    }
    var v :| v in r && a[v] == m;
    assert b[v] == m;
    forall d, e | d in n.deps && e in n.deps && Below(d, r, m) && Above(e, m) && d.child in b && e.parent in b
      ensures Rate(n.fees, b[d.child]) < Rate(n.fees, b[e.parent])
    {
      assert e.parent in r && d.child in a && e.parent in a;
    }
  }
}
