/**
 When no active dependency has a top of higher feerate than its chunk, no set that contains all its
 members' ancestors earns more, above any feerate, than the chunks do.
 */
module Optimality {
  import opened FeeRates
  import opened Forests
  import opened Diagrams

  /** No active dependency inside `x` has a top of higher feerate than `x`. */
  ghost predicate NothingToSplit(fees: Fees, f: Forest, x: Txs) {
    forall e <- f.active | Inside(e, x) && e in f.top :: Rate(fees, f.top[e]) <= Rate(fees, x)
  }

  ghost predicate AncestorClosed(deps: set<Dep>, s: Txs) {
    forall d <- deps | d.child in s :: d.parent in s
  }

  ghost function Crossing(f: Forest, u: Txs): set<Dep> {
    set e <- f.active | e.parent in u && e.child !in u
  }

  ghost predicate UpClosed(f: Forest, x: Txs, u: Txs) {
    u <= x && forall e <- f.active | Inside(e, x) && e.child in u :: e.parent in u
  }

  /** The two parts that remain of `u` when the chunk is cut on an edge that leaves `u`. */
  lemma {:induction false} CutCrossing(txs: Txs, deps: set<Dep>, f: Forest, x: Txs, u: Txs, e: Dep)
    requires ValidForest(txs, deps, f) && e in f.active && x == f.chunk[e.parent]
    requires UpClosed(f, x, u) && e in Crossing(f, u)
    ensures var t := f.top[e];
            var v, w := (u * t) + (x - t), u * (x - t);
            && UpClosed(f, x, v) && UpClosed(f, x, w)
            && Crossing(f, v) < Crossing(f, u) && Crossing(f, w) < Crossing(f, u)
  {
    assert HasTop(f, e);
    var t := f.top[e];
    var v, w := (u * t) + (x - t), u * (x - t);
    hide Connected;
    forall d <- f.active | d.parent in x || d.child in x ensures Inside(d, x) {
      assert f.chunk[d.parent] == f.chunk[d.child];
    }
    forall d <- f.active | d != e ensures d.parent in t <==> d.child in t {}
    assert e !in Crossing(f, v) && e !in Crossing(f, w);
  }

  lemma {:induction false} CutSurplus(fees: Fees, lam: real, x: Txs, t: Txs, u: Txs)
    requires t <= x && u <= x
    requires Surplus(fees, lam, x) == 0.0
    ensures Surplus(fees, lam, u) ==
            Surplus(fees, lam, (u * t) + (x - t)) + Surplus(fees, lam, u * (x - t)) + Surplus(fees, lam, t)
  {
    hide Surplus;
    SurplusUnion(fees, lam, u * t, x - t);
    SurplusUnion(fees, lam, u * t, u * (x - t));
    SurplusUnion(fees, lam, t, x - t);
    assert u * t + u * (x - t) == u;
    assert t + (x - t) == x;
  }

  lemma {:induction false} NoCrossing(txs: Txs, deps: set<Dep>, f: Forest, y: TxIdx, u: Txs)
    requires ValidForest(txs, deps, f) && y in f.chunk
    requires UpClosed(f, f.chunk[y], u) && Crossing(f, u) == {}
    ensures u == {} || u == f.chunk[y]
  {
    var x := f.chunk[y];
    if u != {} {
      forall e <- f.active | Inside(e, x) ensures e.parent in u <==> e.child in u {
        assert e !in Crossing(f, u);
      }
      assert ClosedPart(f.active, x, u);
    }
  }

  /**
   A part of a chunk that holds the in-chunk parents of its members has no higher feerate than the
   chunk: its weight is the sum of the weights of the tops of the edges that leave it.
   */
  lemma {:induction false} UpClosedPartLow(txs: Txs, deps: set<Dep>, fees: Fees, f: Forest, y: TxIdx, u: Txs)
    requires ValidForest(txs, deps, f) && PositiveSizes(fees) && y in f.chunk
    requires NothingToSplit(fees, f, f.chunk[y]) && UpClosed(f, f.chunk[y], u)
    ensures Surplus(fees, Rate(fees, f.chunk[y]), u) <= 0.0
    decreases |Crossing(f, u)|
  {
    hide Rate, Surplus, Connected, TopSet;
    var x := f.chunk[y];
    var theta := Rate(fees, x);
    SurplusSign(fees, theta, x);
    if Crossing(f, u) == {} {
      NoCrossing(txs, deps, f, y, u);
      SurplusEmpty(fees, theta);
    } else {
      var e :| e in Crossing(f, u);
      assert f.chunk[e.parent] == x;
      CrossingTop(txs, deps, fees, f, y, e);
      CutCrossing(txs, deps, f, x, u, e);
      var t := f.top[e];
      SmallerSubset(Crossing(f, (u * t) + (x - t)), Crossing(f, u));
      SmallerSubset(Crossing(f, u * (x - t)), Crossing(f, u));
      UpClosedPartLow(txs, deps, fees, f, y, (u * t) + (x - t));
      UpClosedPartLow(txs, deps, fees, f, y, u * (x - t));
      CutSurplus(fees, theta, x, t, u);
    }
  }

  lemma {:induction false} CrossingTop(txs: Txs, deps: set<Dep>, fees: Fees, f: Forest, y: TxIdx, e: Dep)
    requires ValidForest(txs, deps, f) && PositiveSizes(fees) && y in f.chunk
    requires NothingToSplit(fees, f, f.chunk[y]) && e in f.active && e.parent in f.chunk[y]
    ensures Surplus(fees, Rate(fees, f.chunk[y]), f.top[e]) <= 0.0
    ensures f.top[e] <= f.chunk[y]
  {
    hide Rate, Surplus, Connected;
    assert HasTop(f, e);
    assert f.chunk[e.parent] == f.chunk[e.child] == f.chunk[y];
    assert Inside(e, f.chunk[y]);
    SurplusSign(fees, Rate(fees, f.chunk[y]), f.top[e]);
  }

  lemma {:induction false} SmallerSubset<T>(a: set<T>, b: set<T>)
    requires a < b
    ensures |a| < |b|
  {
    assert b == a + (b - a);
    var e :| e in b && e !in a;
    assert e in b - a;
  }

  /** The part of an ancestor-closed set in one chunk earns at most what the chunk gains. */
  lemma {:induction false} ChunkBound(txs: Txs, deps: set<Dep>, fees: Fees, f: Forest, y: TxIdx, s: Txs, lam: real)
    requires ValidForest(txs, deps, f) && PositiveSizes(fees) && y in f.chunk
    requires NothingToSplit(fees, f, f.chunk[y]) && AncestorClosed(deps, s)
    ensures Surplus(fees, lam, s * f.chunk[y]) <= Gain(fees, lam, f.chunk[y])
  {
    hide Rate, Surplus, Gain, Connected, HasTop, NothingToSplit;
    var x := f.chunk[y];
    var u, theta := s * x, Rate(fees, x);
    assert UpClosed(f, x, u);
    UpClosedPartLow(txs, deps, fees, f, y, u);
    PartBound(fees, lam, x, u);
  }

  lemma {:induction false} PartBound(fees: Fees, lam: real, x: Txs, u: Txs)
    requires PositiveSizes(fees) && x != {} && u <= x && Surplus(fees, Rate(fees, x), u) <= 0.0
    ensures Surplus(fees, lam, u) <= Gain(fees, lam, x)
  {
    hide Rate, Surplus, Gain;
    var theta := Rate(fees, x);
    var w := x - u;
    assert u + w == x;
    SurplusUnion(fees, lam, u, w);
    SurplusUnion(fees, theta, u, w);
    SurplusSign(fees, theta, x);
    GainSign(fees, lam, x);
    SurplusEmpty(fees, lam);
    if u != {} { SurplusSign(fees, lam, u); SurplusSign(fees, theta, u); }
    if w != {} { SurplusSign(fees, lam, w); SurplusSign(fees, theta, w); }
  }

  lemma {:induction false} SumBounds(fees: Fees, lam: real, bs: Blocks, s: Txs)
    requires Disjoint(bs)
    requires forall x <- bs :: Surplus(fees, lam, s * x) <= Gain(fees, lam, x)
    ensures Surplus(fees, lam, s * Union(bs)) <= Diagram(fees, lam, bs)
    decreases |bs|
  {
    hide Surplus, Gain;
    if bs == {} {
      assert s * Union(bs) == {};
      SurplusEmpty(fees, lam);
    } else {
      var x := PickBlock(bs);
      var rest := bs - {x};
      SumBounds(fees, lam, rest, s);
      assert s * Union(bs) == s * x + s * Union(rest);
      assert s * x !! s * Union(rest);
      SurplusUnion(fees, lam, s * x, s * Union(rest));
    }
  }

  /** The optimality theorem: no ancestor-closed set beats the diagram of the chunks, at any feerate. */
  lemma {:induction false} DiagramIsOptimal(txs: Txs, deps: set<Dep>, fees: Fees, f: Forest, s: Txs, lam: real)
    requires ValidForest(txs, deps, f) && PositiveSizes(fees)
    requires forall v <- f.chunk :: NothingToSplit(fees, f, f.chunk[v])
    requires s <= txs && AncestorClosed(deps, s)
    ensures Surplus(fees, lam, s) <= Diagram(fees, lam, f.chunk.Values)
  {
    hide Surplus, Gain, Connected, HasTop, NothingToSplit, AncestorClosed;
    PartitionBlocks(txs, f.chunk);
    forall x <- f.chunk.Values ensures Surplus(fees, lam, s * x) <= Gain(fees, lam, x) {
      var v :| v in f.chunk && f.chunk[v] == x;
      ChunkBound(txs, deps, fees, f, v, s, lam);
    }
    SumBounds(fees, lam, f.chunk.Values, s);
    assert s * txs == s;
  }
}
