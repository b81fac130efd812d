/** Building chunks along an existing linearization: topological, and at least as good as it. */
module Loading {
  import opened FeeRates
  import opened Forests
  import opened Topology
  import opened Diagrams
  import opened Improvement
  import opened Optimality
  import opened DepGraphs

  function Elems(lin: seq<TxIdx>): Txs { set v <- lin }

  /** Every transaction once, after all its ancestors. */
  ghost predicate ValidOrder(g: Graph, lin: seq<TxIdx>) {
    && Elems(lin) == g.anc.Keys
    && (forall i, j | 0 <= i < j < |lin| :: lin[i] != lin[j])
    && (forall i | 0 <= i < |lin| :: lin[i] in g.anc && g.anc[lin[i]] <= Elems(lin[..i + 1]))
  }

  /** The part of a net inside a set of transactions. */
  ghost function Within(n: Net, d: Txs): Net {
    Net(d, (set e <- n.deps | Inside(e, d)), n.fees)
  }

  ghost function Restrict(ch: Chunks, d: Txs): Chunks {
    map v | v in ch && v in d :: ch[v]
  }

  /** The transactions in `done` form chunks among themselves, topologically; the others are still alone. */
  ghost predicate LoadState(n: Net, ch: Chunks, done: Txs) {
    && ValidNet(n) && Partitions(n.txs, ch) && done <= n.txs && AncestorClosed(n.deps, done)
    && (forall v <- done :: ch[v] <= done)
    && (forall v <- n.txs | v !in done :: ch[v] == {v})
    && Topological(Within(n, done), Restrict(ch, done))
  }

  lemma {:induction false} RestrictPartitions(n: Net, ch: Chunks, d: Txs)
    requires Partitions(n.txs, ch) && d <= n.txs && forall v <- d :: ch[v] <= d
    ensures Partitions(d, Restrict(ch, d))
  {}

  lemma {:induction false} WithinValid(n: Net, d: Txs)
    requires ValidNet(n)
    ensures ValidNet(Within(n, d))
  {}

  /** Adding the next transaction as a chunk of its own starts a merge sequence among those loaded. */
  lemma {:induction false} LoadStart(n: Net, ch: Chunks, done: Txs, t: TxIdx)
    requires LoadState(n, ch, done) && t in n.txs && t !in done && AncestorClosed(n.deps, done + {t})
    ensures var d := done + {t};
            MergeState(Within(n, d), Restrict(ch, d), d, {t})
  {
    hide Rate;
    var d := done + {t};
    var m, r := Within(n, d), Restrict(ch, d);
    RestrictPartitions(n, ch, d);
    WithinValid(n, d);
    forall e <- m.deps | e.child in d && e.child != t ensures e.parent in done && GoodDep(m, r, e) {
      assert e in n.deps && e in Within(n, done).deps;
      assert GoodDep(Within(n, done), Restrict(ch, done), e);
    }
    assert r[t] == {t};
  }

  lemma {:induction false} LoadedBlocks(n: Net, ch: Chunks, done: Txs, t: TxIdx)
    requires LoadState(n, ch, done) && t in n.txs && t !in done
    ensures Restrict(ch, done + {t}).Values - {{t}} == Restrict(ch, done).Values
  {
    hide Rate, Topological;
    var a, b := Restrict(ch, done + {t}), Restrict(ch, done);
    forall x <- a.Values - {{t}} ensures x in b.Values {
      var v :| v in a && a[v] == x;
      assert v in done && b[v] == x;
    }
    forall x <- b.Values ensures x in a.Values - {{t}} {
      var v :| v in b && b[v] == x;
      assert a[v] == x && x <= done;
      assert v in x;
    }
  }

  /** A merge along a dependency of a loaded chunk is a merge among the loaded transactions. */
  lemma {:induction false} LowestWithin(n: Net, ch: Chunks, d: Txs, m: Txs, e: Dep)
    requires LowestAbove(n, ch, m, e) && m <= d && AncestorClosed(n.deps, d)
    ensures LowestAbove(Within(n, d), Restrict(ch, d), m, e)
    ensures e.parent in d
  {
    hide Rate;
  }

  lemma {:induction false} NoMergeWithin(n: Net, ch: Chunks, d: Txs, m: Txs)
    requires NoMergeLeft(n, ch, m) && m <= d
    ensures NoMergeLeft(Within(n, d), Restrict(ch, d), m)
  {
    hide Rate;
  }

  lemma {:induction false} RestrictMerged(ch: Chunks, d: Txs, m: Txs, p: Txs)
    ensures Restrict(MergeChunks(ch, m, p), d) == MergeChunks(Restrict(ch, d), m, p)
  {}

  /** The state while the chunk of `t` is merged upward; `before` is the partition when `t` was added. */
  ghost predicate Loads(n: Net, before: Chunks, ch: Chunks, done: Txs, t: TxIdx, m: Txs) {
    var d := done + {t};
    && LoadState(n, before, done) && t in n.txs && t !in done && AncestorClosed(n.deps, d)
    && Partitions(n.txs, ch) && m <= d
    && (forall v <- n.txs | v !in d :: ch[v] == before[v])
    && Sequence(Within(n, d), Restrict(before, d), Restrict(ch, d), d, {t}, m)
  }

  lemma {:induction false} LoadsStart(n: Net, ch: Chunks, done: Txs, t: TxIdx)
    requires LoadState(n, ch, done) && t in n.txs && t !in done && AncestorClosed(n.deps, done + {t})
    ensures Loads(n, ch, ch, done, t, {t})
  {
    hide Rate, Topological, Sequence, MergeState;
    LoadStart(n, ch, done, t);
    SequenceStart(Within(n, done + {t}), Restrict(ch, done + {t}), done + {t}, {t});
  }

  lemma {:induction false} LoadsStep(n: Net, before: Chunks, ch: Chunks, done: Txs, t: TxIdx, m: Txs, e: Dep, u: TxIdx)
    requires Loads(n, before, ch, done, t, m) && LowestAbove(n, ch, m, e) && u in ch && ch[u] == m
    ensures Loads(n, before, MergeChunks(ch, m, ch[e.parent]), done, t, m + ch[e.parent])
  {
    hide Rate, Topological, LoadState, AncestorClosed, Sequence;
    var d := done + {t};
    LowestWithin(n, ch, d, m, e);
    SequenceStep(Within(n, d), Restrict(before, d), Restrict(ch, d), d, {t}, m, e);
    RestrictMerged(ch, d, m, ch[e.parent]);
    MergePartitions(n.txs, ch, u, e.parent);
    LoadsRegion(n, before, ch, done, t, m, e.parent);
  }

  lemma {:induction false} LoadsRegion(n: Net, before: Chunks, ch: Chunks, done: Txs, t: TxIdx, m: Txs, v: TxIdx)
    requires Loads(n, before, ch, done, t, m) && v in done + {t}
    ensures v in ch && ch[v] <= done + {t}
  {
    hide Rate, Topological, LoadState, AncestorClosed, OnlyBad, DiagramHeld;
    var d := done + {t};
    assert Restrict(ch, d)[v] <= d;
  }

  /** What is loaded is topological again, and no worse than it was without the new transaction. */
  lemma {:induction false} LoadsDone(n: Net, before: Chunks, ch: Chunks, done: Txs, t: TxIdx, m: Txs)
    requires Loads(n, before, ch, done, t, m) && NoMergeLeft(n, ch, m)
    ensures LoadState(n, ch, done + {t})
    ensures forall lam: real :: Diagram(n.fees, lam, Restrict(ch, done + {t}).Values) >= Diagram(n.fees, lam, Restrict(before, done).Values)
  {
    hide Rate, GoodDep, OnlyBad, DiagramHeld, Diagram, NoMergeLeft;
    var d := done + {t};
    NoMergeWithin(n, ch, d, m);
    SequenceDone(Within(n, d), Restrict(before, d), Restrict(ch, d), d, {t}, m);
    LoadedBlocks(n, before, done, t);
    forall v <- d ensures ch[v] <= d {
      LoadsRegion(n, before, ch, done, t, m, v);
    }
  }

  lemma {:induction false} LoadedAll(n: Net, ch: Chunks)
    requires LoadState(n, ch, n.txs)
    ensures Topological(n, ch) && Restrict(ch, n.txs) == ch
  {
    hide Rate;
    assert Restrict(ch, n.txs) == ch;
    forall d <- n.deps ensures GoodDep(n, ch, d) {
      assert d in Within(n, n.txs).deps;
      assert GoodDep(Within(n, n.txs), ch, d);
    }
  }

  /** The loaded chunks reach the diagram of the first `i` transactions of the linearization. */
  ghost predicate LoadedWell(n: Net, ch: Chunks, lin: seq<TxIdx>, i: nat)
    requires i <= |lin|
  {
    forall lam: real, k | 0 <= k <= i :: Diagram(n.fees, lam, Restrict(ch, Elems(lin[..i])).Values) >= Surplus(n.fees, lam, Elems(lin[..k]))
  }

  lemma {:induction false} LoadedWellStep(n: Net, before: Chunks, ch: Chunks, lin: seq<TxIdx>, i: nat)
    requires i < |lin| && LoadedWell(n, before, lin, i)
    requires LoadState(n, ch, Elems(lin[..i + 1]))
    requires forall lam: real :: Diagram(n.fees, lam, Restrict(ch, Elems(lin[..i + 1])).Values) >= Diagram(n.fees, lam, Restrict(before, Elems(lin[..i])).Values)
    ensures LoadedWell(n, ch, lin, i + 1)
  {
    hide Diagram, Surplus, Topological;
    var d := Elems(lin[..i + 1]);
    RestrictPartitions(n, ch, d);
    forall lam: real, k | 0 <= k <= i + 1
      ensures Diagram(n.fees, lam, Restrict(ch, d).Values) >= Surplus(n.fees, lam, Elems(lin[..k]))
    {
      if k == i + 1 {
        DiagramCovers(n.fees, lam, d, Restrict(ch, d));
      } else {
        assert Diagram(n.fees, lam, Restrict(before, Elems(lin[..i])).Values) >= Surplus(n.fees, lam, Elems(lin[..k]));
      }
    }
  }

  lemma {:induction false} LoadedWellStart(n: Net, ch: Chunks, lin: seq<TxIdx>)
    ensures LoadedWell(n, ch, lin, 0)
  {
    hide Diagram, Surplus;
    forall lam: real, k | 0 <= k <= 0
      ensures Diagram(n.fees, lam, Restrict(ch, Elems(lin[..0])).Values) >= Surplus(n.fees, lam, Elems(lin[..k]))
    {
      assert Elems(lin[..k]) == {};
      SurplusEmpty(n.fees, lam);
      DiagramNonNegative(n.fees, lam, Restrict(ch, Elems(lin[..0])).Values);
    }
  }

  lemma {:induction false} OrderAt(g: Graph, lin: seq<TxIdx>, i: nat)
    requires ValidOrder(g, lin) && i < |lin|
    ensures lin[i] in g.anc && g.anc[lin[i]] <= Elems(lin[..i + 1])
  {}

  lemma {:induction false} OrderPlace(g: Graph, lin: seq<TxIdx>, i: nat, j: nat)
    requires ValidOrder(g, lin) && i < |lin| && j < |lin| && lin[i] == lin[j]
    ensures i == j
  {}

  /** Where a member of a prefix is. */
  lemma {:induction false} PlaceOf(lin: seq<TxIdx>, m: nat, v: TxIdx) returns (i: nat)
    requires m <= |lin| && v in Elems(lin[..m])
    ensures i < m && lin[i] == v
  {
    i :| 0 <= i < m && lin[..m][i] == v;
  }

  lemma {:induction false} InPrefix(lin: seq<TxIdx>, i: nat, m: nat)
    requires i < m <= |lin|
    ensures lin[i] in Elems(lin[..m])
  {
    assert lin[..m][i] == lin[i];
  }
}
