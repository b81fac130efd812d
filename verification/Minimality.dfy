/**
 Splitting chunks into parts of equal feerate: it changes no diagram, keeps the chunk graph acyclic,
 and when a search around one pivot transaction finds nothing, there is no such split at all.
 */
module Minimality {
  import opened FeeRates
  import opened Forests
  import opened Topology
  import opened Diagrams
  import opened Improvement
  import opened Optimality

  /** A proper part of `x` with the chunk's feerate that holds all parents its members have in `x`. */
  ghost predicate EvenPart(deps: set<Dep>, fees: Fees, x: Txs, u: Txs) {
    && u <= x && u != {} && u != x
    && (forall d <- deps | d.child in u && d.parent in x :: d.parent in u)
    && Rate(fees, u) == Rate(fees, x)
  }

  ghost predicate Minimal(deps: set<Dep>, fees: Fees, x: Txs) {
    forall u: Txs :: !EvenPart(deps, fees, x, u)
  }

  /** No even part of `x` has the pivot `q` inside (`top`), or outside (not `top`). */
  ghost predicate NoEvenPart(deps: set<Dep>, fees: Fees, x: Txs, q: TxIdx, top: bool) {
    forall u: Txs | EvenPart(deps, fees, x, u) :: (q in u) != top
  }

  lemma {:induction false} BothSidesMinimal(deps: set<Dep>, fees: Fees, x: Txs, q: TxIdx, top: bool)
    requires NoEvenPart(deps, fees, x, q, top) && NoEvenPart(deps, fees, x, q, !top)
    ensures Minimal(deps, fees, x)
  {
    hide EvenPart;
  }

  // ----- Finding an even part around a pivot

  /** An edge that leaves `u` with the pivot on the pivot's own side of it. */
  lemma {:induction false} PivotEdge(txs: Txs, deps: set<Dep>, f: Forest, y: TxIdx, u: Txs, q: TxIdx) returns (e: Dep)
    requires ValidForest(txs, deps, f) && y in f.chunk && q in f.chunk[y]
    requires UpClosed(f, f.chunk[y], u) && u != {} && u != f.chunk[y]
    ensures e in Crossing(f, u) && e in f.top && (q in f.top[e] <==> q in u)
    decreases |Crossing(f, u)|
  {
    hide Connected, TopSet;
    var x := f.chunk[y];
    if Crossing(f, u) == {} {
      NoCrossing(txs, deps, f, y, u);
      assert false;
    }
    e :| e in Crossing(f, u);
    assert HasTop(f, e) && f.chunk[e.parent] == x;
    CrossingSides(f, x, e);
    var t := f.top[e];
    if (q in t) != (q in u) {
      CutCrossing(txs, deps, f, x, u, e);
      var v := if q in u then u * (x - t) else (u * t) + (x - t);
      SmallerSubset(Crossing(f, v), Crossing(f, u));
      var d := PivotEdge(txs, deps, f, y, v, q);
      assert d in Crossing(f, u);
      e := d;
    }
  }

  lemma {:induction false} CrossingSides(f: Forest, x: Txs, e: Dep)
    requires HasTop(f, e) && f.chunk[e.parent] == x
    ensures f.top[e] <= x && e.parent in f.top[e] && e.child in x - f.top[e]
  {}

  /** A part earns at most what the top of any edge that leaves it earns. */
  lemma {:induction false} PartBelowTop(txs: Txs, deps: set<Dep>, fees: Fees, f: Forest, y: TxIdx, u: Txs, e: Dep)
    requires ValidForest(txs, deps, f) && PositiveSizes(fees) && y in f.chunk
    requires NothingToSplit(fees, f, f.chunk[y]) && UpClosed(f, f.chunk[y], u) && e in Crossing(f, u)
    ensures e in f.top && Surplus(fees, Rate(fees, f.chunk[y]), u) <= Surplus(fees, Rate(fees, f.chunk[y]), f.top[e])
  {
    hide Rate, Surplus, Connected, TopSet, NothingToSplit;
    var x := f.chunk[y];
    assert f.chunk[e.parent] == x;
    var t, theta := f.top[e], Rate(fees, x);
    SurplusSign(fees, theta, x);
    CrossingTop(txs, deps, fees, f, y, e);
    CutCrossing(txs, deps, f, x, u, e);
    UpClosedPartLow(txs, deps, fees, f, y, (u * t) + (x - t));
    UpClosedPartLow(txs, deps, fees, f, y, u * (x - t));
    CutSurplus(fees, theta, x, t, u);
  }

  ghost predicate EvenEdge(fees: Fees, f: Forest, x: Txs, e: Dep) {
    e in f.active && Inside(e, x) && e in f.top && Rate(fees, f.top[e]) == Rate(fees, x)
  }

  /** Every even part shows as an active dependency whose top has the chunk's feerate, pivot on the same side. */
  lemma {:induction false} EvenPartEdge(txs: Txs, deps: set<Dep>, fees: Fees, f: Forest, y: TxIdx, u: Txs, q: TxIdx) returns (e: Dep)
    requires ValidForest(txs, deps, f) && PositiveSizes(fees) && y in f.chunk && q in f.chunk[y]
    requires NothingToSplit(fees, f, f.chunk[y]) && EvenPart(deps, fees, f.chunk[y], u)
    ensures EvenEdge(fees, f, f.chunk[y], e) && (q in f.top[e] <==> q in u)
  {
    hide Rate, Surplus, Connected, TopSet;
    var x := f.chunk[y];
    assert UpClosed(f, x, u);
    e := PivotEdge(txs, deps, f, y, u, q);
    assert e.parent in x && f.chunk[e.parent] == x && HasTop(f, e);
    CrossingSides(f, x, e);
    PartBelowTop(txs, deps, fees, f, y, u, e);
    SurplusSign(fees, Rate(fees, x), u);
    SurplusSign(fees, Rate(fees, x), f.top[e]);
    assert Inside(e, x);
  }

  /** If no even edge has the pivot on the given side, then no even part has. */
  lemma {:induction false} PivotSearched(txs: Txs, deps: set<Dep>, fees: Fees, f: Forest, y: TxIdx, q: TxIdx, top: bool)
    requires ValidForest(txs, deps, f) && PositiveSizes(fees) && y in f.chunk && q in f.chunk[y]
    requires NothingToSplit(fees, f, f.chunk[y])
    requires forall e <- f.active | EvenEdge(fees, f, f.chunk[y], e) :: (q in f.top[e]) != top
    ensures NoEvenPart(deps, fees, f.chunk[y], q, top)
  {
    hide ValidForest, NothingToSplit, Rate, EvenPart;
    forall u: Txs | EvenPart(deps, fees, f.chunk[y], u) ensures (q in u) != top {
      var e := EvenPartEdge(txs, deps, fees, f, y, u, q);
    }
  }

  // ----- An even split

  lemma {:induction false} EvenRest(fees: Fees, x: Txs, t: Txs)
    requires PositiveSizes(fees) && t <= x && t != {} && t != x && Rate(fees, t) == Rate(fees, x)
    ensures x - t != {} && Rate(fees, x - t) == Rate(fees, x)
    ensures Surplus(fees, Rate(fees, x), t) == Surplus(fees, Rate(fees, x), x - t) == 0.0
  {
    hide Rate, Surplus;
    OtherPart(fees, x, t);
    SurplusSign(fees, Rate(fees, x), t);
    SurplusSign(fees, Rate(fees, x), x - t);
  }

  /** An even part of the bottom extends to one of the whole chunk. */
  lemma {:induction false} BottomPart(deps: set<Dep>, fees: Fees, x: Txs, t: Txs, u: Txs)
    requires PositiveSizes(fees) && EvenPart(deps, fees, x, t) && EvenPart(deps, fees, x - t, u)
    ensures EvenPart(deps, fees, x, t + u)
  {
    hide Rate;
    EvenRest(fees, x, t);
    Mediant(fees, t, u);
  }

  /** An even part of the top is one of the whole chunk. */
  lemma {:induction false} TopPart(deps: set<Dep>, fees: Fees, x: Txs, t: Txs, u: Txs)
    requires EvenPart(deps, fees, x, t) && EvenPart(deps, fees, t, u)
    ensures EvenPart(deps, fees, x, u)
  {
    hide Rate;
  }

  /** What is known of the pivot's chunk carries over to the part that the pivot is in. */
  lemma {:induction false} PivotInherits(deps: set<Dep>, fees: Fees, x: Txs, t: Txs, q: TxIdx, top: bool)
    requires PositiveSizes(fees) && EvenPart(deps, fees, x, t) && q in x
    requires top == (q !in t)
    requires NoEvenPart(deps, fees, x, q, top)
    ensures NoEvenPart(deps, fees, if q in t then t else x - t, q, top)
  {
    hide Rate, EvenPart;
    forall u: Txs | EvenPart(deps, fees, if q in t then t else x - t, u) ensures (q in u) != top {
      if q in t {
        TopPart(deps, fees, x, t, u);
      } else {
        BottomPart(deps, fees, x, t, u);
      }
    }
  }

  /** The diagram of the chunks is the same after an even split. */
  lemma {:induction false} EvenSplitDiagram(fees: Fees, lam: real, txs: Txs, ch: Chunks, u: TxIdx, t: Txs)
    requires Partitions(txs, ch) && PositiveSizes(fees) && u in ch && t <= ch[u] && t != {} && t != ch[u]
    requires Rate(fees, t) == Rate(fees, ch[u])
    ensures Diagram(fees, lam, SplitChunk(ch, t, ch[u] - t).Values) == Diagram(fees, lam, ch.Values)
  {
    hide Rate, Gain, Surplus, Partitions, Diagram;
    SplitDiagram(fees, lam, txs, ch, u, t);
    EvenRest(fees, ch[u], t);
    GainUnion(fees, lam, t, ch[u] - t);
    assert t + (ch[u] - t) == ch[u];
  }

  // ----- Tops after an even split and after a merge of even chunks

  lemma {:induction false} SurplusWithout(fees: Fees, lam: real, s: Txs, b: Txs)
    requires b <= s && Surplus(fees, lam, b) == 0.0
    ensures Surplus(fees, lam, s - b) == Surplus(fees, lam, s)
  {
    hide Surplus;
    SurplusUnion(fees, lam, s - b, b);
    assert s - b + b == s;
  }

  lemma {:induction false} RateFromSurplus(fees: Fees, theta: real, s: Txs, r: Txs)
    requires PositiveSizes(fees) && s != {} && r != {} && Surplus(fees, theta, s) == Surplus(fees, theta, r)
    ensures Rate(fees, s) <= theta <==> Rate(fees, r) <= theta
  {
    hide Rate, Surplus;
    SurplusSign(fees, theta, s);
    SurplusSign(fees, theta, r);
  }

  lemma {:induction false} EvenCutTop(txs: Txs, deps: set<Dep>, fees: Fees, f: Forest, e: Dep, d: Dep)
    requires ValidForest(txs, deps, f) && PositiveSizes(fees) && e in f.active && d in f.active && d != e
    requires NothingToSplit(fees, f, f.chunk[e.parent]) && Rate(fees, f.top[e]) == Rate(fees, f.chunk[e.parent])
    requires d.parent in f.chunk[e.parent]
    ensures Rate(fees, RemoveEdge(f, e).top[d]) <= Rate(fees, f.chunk[e.parent])
  {
    hide Rate, Surplus, Connected;
    var x, t, s, r := f.chunk[e.parent], f.top[e], f.top[d], RemoveEdge(f, e).top[d];
    assert HasTop(f, e) && HasTop(f, d);
    assert f.chunk[d.parent] == x && f.chunk[d.child] == x && Inside(d, x);
    assert t != x;
    EvenRest(fees, x, t);
    ShrunkTopValid(txs, deps, f, e, d);
    assert d.parent in s && d.parent in r;
    if r != s {
      var w := if d.parent in t then x - t else t;
      assert r == s - w && w <= s;
      SurplusWithout(fees, Rate(fees, x), s, w);
    }
    RateFromSurplus(fees, Rate(fees, x), s, r);
  }

  /** After an even split, neither part has a dependency worth splitting. */
  lemma {:induction false} EvenCutWorked(txs: Txs, deps: set<Dep>, fees: Fees, f: Forest, e: Dep)
    requires ValidForest(txs, deps, f) && PositiveSizes(fees) && e in f.active
    requires NothingToSplit(fees, f, f.chunk[e.parent]) && Rate(fees, f.top[e]) == Rate(fees, f.chunk[e.parent])
    ensures var r := RemoveEdge(f, e);
            NothingToSplit(fees, r, f.top[e]) && NothingToSplit(fees, r, f.chunk[e.parent] - f.top[e])
  {
    assert HasTop(f, e);
    var x, t, r := f.chunk[e.parent], f.top[e], RemoveEdge(f, e);
    CrossingSides(f, x, e);
    hide Rate, Surplus, Connected, ValidForest, HasTop;
    EvenRest(fees, x, t);
    forall d <- r.active | d in r.top && (Inside(d, t) || Inside(d, x - t)) ensures Rate(fees, r.top[d]) <= Rate(fees, x) {
      EvenCutTop(txs, deps, fees, f, e, d);
    }
  }

  lemma {:induction false} EvenJoinTop(txs: Txs, deps: set<Dep>, fees: Fees, f: Forest, e: Dep, d: Dep, theta: real)
    requires ValidForest(txs, deps, f) && PositiveSizes(fees) && e in deps && f.chunk[e.parent] != f.chunk[e.child]
    requires Rate(fees, f.chunk[e.parent]) == theta && Rate(fees, f.chunk[e.child]) == theta
    requires NothingToSplit(fees, f, f.chunk[e.parent]) && NothingToSplit(fees, f, f.chunk[e.child])
    requires d in f.active && (d.parent in f.chunk[e.parent] || d.parent in f.chunk[e.child])
    ensures d in AddEdge(f, e).top && Rate(fees, AddEdge(f, e).top[d]) <= theta
  {
    hide Rate, Surplus, Connected;
    var p, c, s := f.chunk[e.parent], f.chunk[e.child], f.top[d];
    ChunksDisjoint(txs, f.chunk, e.parent, e.child);
    assert HasTop(f, d) && f.chunk[d.parent] == f.chunk[d.child];
    assert Inside(d, f.chunk[d.parent]) && s <= f.chunk[d.parent] && d.parent in s;
    SurplusSign(fees, theta, p);
    SurplusSign(fees, theta, c);
    SurplusUnion(fees, theta, s, if e.parent in s then c else if e.child in s then p else {});
    SurplusEmpty(fees, theta);
    var r := GrownTop(s, e, p, c);
    assert AddEdge(f, e).top[d] == r;
    RateFromSurplus(fees, theta, s, r);
  }

  /** After two chunks of equal feerate merge, the result has no dependency worth splitting either. */
  lemma {:induction false} EvenJoinWorked(txs: Txs, deps: set<Dep>, fees: Fees, f: Forest, e: Dep)
    requires ValidForest(txs, deps, f) && PositiveSizes(fees) && e in deps && f.chunk[e.parent] != f.chunk[e.child]
    requires Rate(fees, f.chunk[e.parent]) == Rate(fees, f.chunk[e.child])
    requires NothingToSplit(fees, f, f.chunk[e.parent]) && NothingToSplit(fees, f, f.chunk[e.child])
    ensures NothingToSplit(fees, AddEdge(f, e), f.chunk[e.parent] + f.chunk[e.child])
  {
    var p, c, r := f.chunk[e.parent], f.chunk[e.child], AddEdge(f, e);
    ChunksDisjoint(txs, f.chunk, e.parent, e.child);
    assert p != {} && c != {} && f.top.Keys == f.active;
    hide Rate, Surplus, Connected, ValidForest, HasTop;
    Mediant(fees, p, c);
    forall d <- r.active | d in r.top && Inside(d, p + c) ensures Rate(fees, r.top[d]) <= Rate(fees, p + c) {
      if d != e { EvenJoinTop(txs, deps, fees, f, e, d, Rate(fees, p)); }
    }
  }

  // ----- The chunk graph

  /** `rank` puts every chunk after the chunks it depends on, none of which has a lower feerate. */
  ghost predicate Ranked(n: Net, ch: Chunks, rank: map<TxIdx, nat>) {
    && rank.Keys == ch.Keys
    && (forall u <- ch, v <- ch | ch[u] == ch[v] :: rank[u] == rank[v])
    && (forall d <- n.deps :: d.parent in ch && d.child in ch)
    && (forall d <- n.deps | ch[d.parent] != ch[d.child] ::
          rank[d.parent] < rank[d.child] && Rate(n.fees, ch[d.child]) <= Rate(n.fees, ch[d.parent]))
  }

  /** The chunk graph is acyclic, and no chunk has a higher feerate than one it depends on. */
  ghost predicate Orderly(n: Net, ch: Chunks) {
    exists rank :: Ranked(n, ch, rank)
  }

  lemma {:induction false} TopologicalOrderly(n: Net, ch: Chunks)
    requires ValidNet(n) && Partitions(n.txs, ch) && Topological(n, ch)
    ensures Orderly(n, ch)
  {
    hide Rate;
    var rank: map<TxIdx, nat> := map v | v in ch :: |AboveRate(n, ch, Rate(n.fees, ch[v]))|;
    forall d <- n.deps ensures d.parent in ch && d.child in ch {
      assert GoodDep(n, ch, d);
    }
    forall d <- n.deps | ch[d.parent] != ch[d.child]
      ensures rank[d.parent] < rank[d.child] && Rate(n.fees, ch[d.child]) <= Rate(n.fees, ch[d.parent])
    {
      assert GoodDep(n, ch, d);
      var a, b := AboveRate(n, ch, Rate(n.fees, ch[d.parent])), AboveRate(n, ch, Rate(n.fees, ch[d.child]));
      assert d.parent in b && d.parent !in a;
      SmallerSubset(a, b);
    }
    assert Ranked(n, ch, rank);
  }

  ghost function SplitRank(rank: map<TxIdx, nat>, b: Txs): map<TxIdx, nat> {
    map v | v in rank :: if v in b then 2 * rank[v] + 1 else 2 * rank[v]
  }

  lemma {:induction false} SplitRankDep(n: Net, ch: Chunks, rank: map<TxIdx, nat>, u: TxIdx, t: Txs, d: Dep)
    requires ValidNet(n) && Partitions(n.txs, ch) && Ranked(n, ch, rank) && u in ch && EvenPart(n.deps, n.fees, ch[u], t) && d in n.deps
    ensures var after, r := SplitChunk(ch, t, ch[u] - t), SplitRank(rank, ch[u] - t);
            && d.parent in after && d.child in after
            && (after[d.parent] != after[d.child] ==>
                r[d.parent] < r[d.child] && Rate(n.fees, after[d.child]) <= Rate(n.fees, after[d.parent]))
  {
    hide Rate;
    var x, b, after := ch[u], ch[u] - t, SplitChunk(ch, t, ch[u] - t);
    EvenRest(n.fees, x, t);
    SplitRate(n, ch, u, t, d.parent);
    SplitRate(n, ch, u, t, d.child);
    if after[d.parent] != after[d.child] && ch[d.parent] == ch[d.child] {
      assert d.parent in x && d.child in x;
      assert d.child in b && d.parent in t;
    }
  }

  lemma {:induction false} SplitRate(n: Net, ch: Chunks, u: TxIdx, t: Txs, v: TxIdx)
    requires ValidNet(n) && Partitions(n.txs, ch) && u in ch && v in ch && EvenPart(n.deps, n.fees, ch[u], t)
    ensures Rate(n.fees, SplitChunk(ch, t, ch[u] - t)[v]) == Rate(n.fees, ch[v])
  {
    hide Rate;
    EvenRest(n.fees, ch[u], t);
  }

  lemma {:induction false} SplitRankSame(txs: Txs, ch: Chunks, rank: map<TxIdx, nat>, u: TxIdx, t: Txs, v: TxIdx, w: TxIdx)
    requires Partitions(txs, ch) && u in ch && t <= ch[u] && v in ch && w in ch && v in rank && w in rank
    requires ch[v] == ch[w] ==> rank[v] == rank[w]
    requires SplitChunk(ch, t, ch[u] - t)[v] == SplitChunk(ch, t, ch[u] - t)[w]
    ensures SplitRank(rank, ch[u] - t)[v] == SplitRank(rank, ch[u] - t)[w]
  {
    var after := SplitChunk(ch, t, ch[u] - t);
    SplitPartitions(txs, ch, u, t);
    assert v in after[v] && w in after[w];
    assert ch[v] == ch[w];
  }

  /** An even split keeps the chunk graph acyclic. */
  lemma {:induction false} EvenSplitOrderly(n: Net, ch: Chunks, u: TxIdx, t: Txs)
    requires ValidNet(n) && Partitions(n.txs, ch) && Orderly(n, ch) && u in ch && EvenPart(n.deps, n.fees, ch[u], t)
    ensures Orderly(n, SplitChunk(ch, t, ch[u] - t))
  {
    hide Rate, EvenPart, Partitions, ValidNet;
    var rank :| Ranked(n, ch, rank);
    var after, r := SplitChunk(ch, t, ch[u] - t), SplitRank(rank, ch[u] - t);
    assert t <= ch[u] by { EvenInside(n.deps, n.fees, ch[u], t); }
    forall v <- after, w <- after | after[v] == after[w] ensures r[v] == r[w] {
      SplitRankSame(n.txs, ch, rank, u, t, v, w);
    }
    forall d <- n.deps
      ensures d.parent in after && d.child in after
      ensures after[d.parent] != after[d.child] ==> r[d.parent] < r[d.child] && Rate(n.fees, after[d.child]) <= Rate(n.fees, after[d.parent])
    {
      SplitRankDep(n, ch, rank, u, t, d);
    }
    assert Ranked(n, after, r);
  }

  lemma {:induction false} EvenInside(deps: set<Dep>, fees: Fees, x: Txs, t: Txs)
    requires EvenPart(deps, fees, x, t)
    ensures t <= x
  {}
}
