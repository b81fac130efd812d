/**
 What an order that does not respect the dependencies costs: for some fees no order that does is as
 good, so an old linearization can be matched whatever the fees exactly if it is valid.
 */
module OldOrders {
  import opened FeeRates
  import opened Forests
  import opened DepGraphs
  import opened Loading
  import opened Ordering

  /** `v` needs `u`; `v` pays all there is, and `u` has all the size. */
  ghost function Against(all: Txs, u: TxIdx, v: TxIdx, n: nat): Fees {
    map w | w in all :: FeeFrac(if w == v then n + 1 else 0, if w == u then n + 1 else 1)
  }

  lemma {:induction false} AgainstRest(all: Txs, u: TxIdx, v: TxIdx, n: nat, s: Txs)
    requires s <= all && u !in s && v !in s
    ensures Total(Against(all, u, v, n), s) == FeeFrac(0, |s|)
    decreases |s|
  {
    var fees := Against(all, u, v, n);
    if s != {} {
      var w :| w in s;
      AgainstRest(all, u, v, n, s - {w});
      TotalUnion(fees, s - {w}, {w});
      TotalSingleton(fees, w);
      assert (s - {w}) + {w} == s;
    }
  }

  /** At feerate 1, whatever holds `v` without `u` earns something, if it is not too large. */
  lemma {:induction false} AgainstEarns(all: Txs, u: TxIdx, v: TxIdx, n: nat, s: Txs)
    requires s <= all && u != v && v in s && u !in s && |s| <= n
    ensures Surplus(Against(all, u, v, n), 1.0, s) > 0.0
  {
    var fees := Against(all, u, v, n);
    AgainstRest(all, u, v, n, s - {v});
    TotalUnion(fees, s - {v}, {v});
    TotalSingleton(fees, v);
    assert (s - {v}) + {v} == s;
  }

  /** And nothing else earns anything. */
  lemma {:induction false} AgainstLow(all: Txs, u: TxIdx, v: TxIdx, n: nat, s: Txs)
    requires s <= all && u != v && (v in s ==> u in s)
    ensures Surplus(Against(all, u, v, n), 1.0, s) <= 0.0
  {
    hide Total;
    var fees := Against(all, u, v, n);
    var rest := s - {u} - {v};
    AgainstRest(all, u, v, n, rest);
    if u in s {
      TotalUnion(fees, rest, {u});
      TotalSingleton(fees, u);
      if v in s {
        TotalUnion(fees, rest + {u}, {v});
        TotalSingleton(fees, v);
        assert rest + {u} + {v} == s;
        assert Total(fees, s) == FeeFrac(n + 1, |rest| + n + 2);
      } else {
        assert rest + {u} == s;
        assert Total(fees, s) == FeeFrac(0, |rest| + n + 1);
      }
    } else {
      assert rest == s;
    }
  }

  /** Positive sizes for all transactions of the graph, with any fees. */
  ghost predicate FeesFor(g: Graph, fees: Fees) {
    fees.Keys == g.anc.Keys && PositiveSizes(fees)
  }

  /** Some order that respects the dependencies is no worse. */
  ghost predicate Matched(g: Graph, fees: Fees, was: seq<TxIdx>) {
    exists lin :: ValidOrder(g, lin) && NoWorse(fees, lin, was)
  }

  lemma {:induction false} ValidPrefix(g: Graph, lin: seq<TxIdx>, m: nat, u: TxIdx, v: TxIdx)
    requires ValidOrder(g, lin) && m <= |lin| && v in g.anc && u in g.anc[v]
    ensures Elems(lin[..m]) <= g.anc.Keys && (v in Elems(lin[..m]) ==> u in Elems(lin[..m]))
  {
    hide ValidOrder, Elems;
    forall w <- Elems(lin[..m]) ensures w in g.anc {
      var j := PlaceOf(lin, m, w);
      OrderAt(g, lin, j);
    }
    if v in Elems(lin[..m]) {
      var j := PlaceOf(lin, m, v);
      OrderAt(g, lin, j);
      var i := PlaceOf(lin, j + 1, u);
      InPrefix(lin, i, m);
    }
  }

  lemma {:induction false} PrefixSize(lin: seq<TxIdx>)
    ensures |Elems(lin)| <= |lin|
    decreases |lin|
  {
    if lin != [] {
      var rest := lin[..|lin| - 1];
      PrefixSize(rest);
      assert lin == rest + [lin[|lin| - 1]];
      ElemsAppend(rest, [lin[|lin| - 1]]);
      assert Elems([lin[|lin| - 1]]) == {lin[|lin| - 1]};
    }
  }

  /** A list that puts a transaction before one it needs is matched by no order that respects the dependencies, for some fees. */
  lemma {:induction false} NotMatched(g: Graph, was: seq<TxIdx>, i: nat, u: TxIdx) returns (fees: Fees)
    requires ClosedGraph(g) && (forall v <- was :: v in g.anc) && i < |was| && u in g.anc[was[i]] && u !in Elems(was[..i + 1])
    ensures FeesFor(g, fees) && !Matched(g, fees, was)
  {
    var all, v, n := g.anc.Keys, was[i], |was|;
    assert v in Elems(was[..i + 1]) by { assert was[..i + 1][i] == v; }
    fees := Against(all, u, v, n);
    PrefixSize(was[..i + 1]);
    forall w <- Elems(was[..i + 1]) ensures w in all { assert w in was; }
    AgainstEarns(all, u, v, n, Elems(was[..i + 1]));
    hide Surplus, ClosedGraph;
    forall lin | ValidOrder(g, lin) ensures !NoWorse(fees, lin, was) { Beaten(g, was, i, u, lin); }
  }

  lemma {:induction false} Beaten(g: Graph, was: seq<TxIdx>, i: nat, u: TxIdx, lin: seq<TxIdx>)
    requires i < |was| && was[i] in g.anc && u in g.anc[was[i]] && u != was[i] && ValidOrder(g, lin)
    requires Surplus(Against(g.anc.Keys, u, was[i], |was|), 1.0, Elems(was[..i + 1])) > 0.0
    ensures !NoWorse(Against(g.anc.Keys, u, was[i], |was|), lin, was)
  {
    hide Surplus, ValidOrder, Against;
    var fees, amount := Against(g.anc.Keys, u, was[i], |was|), Surplus(Against(g.anc.Keys, u, was[i], |was|), 1.0, Elems(was[..i + 1]));
    forall m: nat ensures !PrefixEarns(fees, 1.0, lin, m, amount) {
      if m <= |lin| {
        ValidPrefix(g, lin, m, u, was[i]);
        AgainstLow(g.anc.Keys, u, was[i], |was|, Elems(lin[..m]));
      }
    }
    assert !SomePrefixEarns(fees, 1.0, lin, amount);
  }

  /** An old order can be matched whatever the fees exactly if it respects the dependencies. */
  lemma {:induction false} MatchedExactly(g: Graph, was: seq<TxIdx>)
    requires ClosedGraph(g) && Unique(was) && Elems(was) == g.anc.Keys
    ensures ValidOrder(g, was) <==> forall fees: Fees | FeesFor(g, fees) :: Matched(g, fees, was)
  {
    hide Matched, ClosedGraph, ValidOrder, FeesFor;
    if ValidOrder(g, was) {
      forall fees: Fees | FeesFor(g, fees) ensures Matched(g, fees, was) { MatchesItself(g, fees, was); }
    } else {
      var i, u := FirstBad(g, was);
      var fees := NotMatched(g, was, i, u);
    }
  }

  lemma {:induction false} MatchesItself(g: Graph, fees: Fees, was: seq<TxIdx>)
    requires ValidOrder(g, was)
    ensures Matched(g, fees, was)
  {
    hide ValidOrder, NoWorse;
    NoWorseItself(fees, was);
  }

  lemma {:induction false} FirstBad(g: Graph, was: seq<TxIdx>) returns (i: nat, u: TxIdx)
    requires !ValidOrder(g, was) && Unique(was) && Elems(was) == g.anc.Keys
    ensures i < |was| && (forall v <- was :: v in g.anc) && u in g.anc[was[i]] && u !in Elems(was[..i + 1])
  {
    forall v <- was ensures v in g.anc { assert v in Elems(was); }
    i :| i < |was| && !(g.anc[was[i]] <= Elems(was[..i + 1]));
    u :| u in g.anc[was[i]] && u !in Elems(was[..i + 1]);
  }

  /** One transaction that pays 10 and needs another that pays nothing. */
  function PairGraph(): Graph {
    Graph(map[0 := FeeFrac(0, 1), 1 := FeeFrac(10, 1)], map[0 := {0}, 1 := {0, 1}], map[0 := {0, 1}, 1 := {1}])
  }

  lemma {:induction false} PairTotals()
    ensures var fees := PairGraph().fees;
            Surplus(fees, 5.0, {}) == 0.0 && Surplus(fees, 5.0, {0}) == -5.0 && Surplus(fees, 5.0, {1}) == 5.0 && Surplus(fees, 5.0, {0, 1}) == 0.0
  {
    var fees := PairGraph().fees;
    TotalSingleton(fees, 0);
    TotalSingleton(fees, 1);
    SurplusUnion(fees, 5.0, {0}, {1});
    assert {0} + {1} == {0, 1};
  }

  lemma {:induction false} PairFacts()
    ensures PairGraph().anc.Keys == {0, 1} && PairGraph().anc[0] == {0} && PairGraph().anc[1] == {0, 1}
  {}

  lemma {:induction false} PairPrefix(lin: seq<TxIdx>, m: nat)
    requires ValidOrder(PairGraph(), lin) && m <= |lin|
    ensures Elems(lin[..m]) <= {0, 1} && (1 in Elems(lin[..m]) ==> 0 in Elems(lin[..m]))
  {
    hide PairGraph, ValidOrder;
    PairFacts();
    ValidPrefix(PairGraph(), lin, m, 0, 1);
  }

  lemma {:induction false} PairLow(part: Txs)
    requires part <= {0, 1} && (1 in part ==> 0 in part)
    ensures Surplus(PairGraph().fees, 5.0, part) <= 0.0
  {
    hide Surplus, PairGraph;
    PairTotals();
    assert part == if 1 in part then {0, 1} else if 0 in part then {0} else {};
  }

  lemma {:induction false} PairValid()
    ensures ValidGraph(PairGraph()) && ValidOrder(PairGraph(), [0, 1])
  {
    PairOrder();
    hide ValidOrder;
    var g := PairGraph();
    assert g.anc.Keys == {0, 1} && g.desc.Keys == {0, 1} && g.fees.Keys == {0, 1};
  }

  lemma {:induction false} PairOrder()
    ensures ValidOrder(PairGraph(), [0, 1])
  {
    hide PairGraph;
    PairFacts();
    var lin := [0, 1];
    assert lin[..1] == [0] && lin[..2] == lin;
    assert Elems([0]) == {0} && Elems(lin) == {0, 1};
  }

  /** The pair has an order that respects the dependencies, and none is as good as the one that does not. */
  lemma {:induction false} NotAsGoodAsInvalid()
    ensures ValidGraph(PairGraph()) && ValidOrder(PairGraph(), [0, 1])
    ensures forall lin | ValidOrder(PairGraph(), lin) :: !NoWorse(PairGraph().fees, lin, [1, 0])
  {
    hide Surplus, ValidOrder, PairGraph, ValidGraph;
    PairValid();
    forall lin | ValidOrder(PairGraph(), lin) ensures !NoWorse(PairGraph().fees, lin, [1, 0]) { PairBeaten(lin); }
  }

  lemma {:induction false} PairBeaten(lin: seq<TxIdx>)
    requires ValidOrder(PairGraph(), lin)
    ensures !NoWorse(PairGraph().fees, lin, [1, 0])
  {
    hide Surplus, ValidOrder, PairGraph;
    PairTotals();
    var fees, other := PairGraph().fees, [1, 0];
    assert other[..1] == [1] && Elems([1]) == {1};
    forall m: nat ensures !PrefixEarns(fees, 5.0, lin, m, Surplus(fees, 5.0, Elems(other[..1]))) {
      if m <= |lin| {
        PairPrefix(lin, m);
        PairLow(Elems(lin[..m]));
      }
    }
    assert !SomePrefixEarns(fees, 5.0, lin, Surplus(fees, 5.0, Elems(other[..1])));
  }
}
