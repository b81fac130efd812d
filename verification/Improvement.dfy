/**
 Splitting a chunk on a dependency whose top has a higher feerate, then merging the top upward and
 the bottom downward: the partition is topological again and its diagram has not got worse.
 */
module Improvement {
  import opened FeeRates
  import opened Forests
  import opened Topology
  import opened Diagrams

  ghost function AboveRate(n: Net, ch: Chunks, theta: real): Txs {
    set v <- n.txs | v in ch && Rate(n.fees, ch[v]) > theta
  }

  /** A part above the feerate of the whole leaves a part below it, and the other way around. */
  lemma {:induction false} OtherPart(fees: Fees, x: Txs, t: Txs)
    requires PositiveSizes(fees) && t <= x && t != {} && t != x
    ensures x - t != {}
    ensures Rate(fees, t) > Rate(fees, x) <==> Rate(fees, x - t) < Rate(fees, x)
    ensures Rate(fees, t) < Rate(fees, x) <==> Rate(fees, x - t) > Rate(fees, x)
  {
    hide Rate;
    var q :| q in x && q !in t;
    assert q in x - t;
    assert t + (x - t) == x && (x - t) + t == x;
    Mediant(fees, t, x - t);
    Mediant(fees, x - t, t);
  }

  /** After the split, the chunks above the old feerate form a region in which only `t` may be bad. */
  lemma {:induction false} SplitState(n: Net, ch: Chunks, u: TxIdx, t: Txs)
    requires ValidNet(n) && Partitions(n.txs, ch) && Topological(n, ch)
    requires u in ch && t <= ch[u] && t != {} && t != ch[u]
    requires Rate(n.fees, t) > Rate(n.fees, ch[u])
    requires forall d <- n.deps :: !(d.child in t && d.parent in ch[u] - t)
    ensures var after := SplitChunk(ch, t, ch[u] - t);
            MergeState(n, after, AboveRate(n, after, Rate(n.fees, ch[u])), t)
  {
    hide Rate;
    var x := ch[u];
    var b, theta := x - t, Rate(n.fees, x);
    var after := SplitChunk(ch, t, b);
    var r := AboveRate(n, after, theta);
    SplitPartitions(n.txs, ch, u, t);
    OtherPart(n.fees, x, t);
    forall d <- n.deps | d.child in r
      ensures d.parent in r && (d.child !in t ==> d.parent !in t && GoodDep(n, after, d))
    {
      SplitStateDep(n, ch, u, t, d);
    }
    var p :| p in t;
    assert after[p] == t && p in r;
  }

  lemma {:induction false} SplitStateDep(n: Net, ch: Chunks, u: TxIdx, t: Txs, d: Dep)
    requires ValidNet(n) && Partitions(n.txs, ch) && Topological(n, ch)
    requires u in ch && t <= ch[u] && t != {} && t != ch[u]
    requires Rate(n.fees, t) > Rate(n.fees, ch[u]) > Rate(n.fees, ch[u] - t)
    requires d in n.deps && !(d.child in t && d.parent in ch[u] - t)
    requires var after := SplitChunk(ch, t, ch[u] - t);
             d.child in AboveRate(n, after, Rate(n.fees, ch[u]))
    ensures var after := SplitChunk(ch, t, ch[u] - t);
            && d.parent in AboveRate(n, after, Rate(n.fees, ch[u]))
            && (d.child !in t ==> d.parent !in t && GoodDep(n, after, d))
  {
    hide Rate;
    var x := ch[u];
    assert GoodDep(n, ch, d);
    if d.child in x { assert d.child in t; }
  }

  // ----- A merge sequence from its first to its last step

  ghost predicate SameOutside(a: Chunks, b: Chunks, r: Txs) {
    a.Keys == b.Keys && forall v <- a | v !in r :: a[v] == b[v]
  }

  ghost predicate RatesAbove(n: Net, ch: Chunks, r: Txs, theta: real) {
    forall v <- r :: v in ch && Rate(n.fees, ch[v]) > theta
  }

  ghost predicate DiagramHeld(n: Net, before: Chunks, after: Chunks, first: Txs, m: Txs) {
    forall lam: real :: DiagramKept(n, after, m, lam, Diagram(n.fees, lam, before.Values - {first}))
  }

  ghost predicate ExactBelow(n: Net, before: Chunks, after: Chunks, theta: real) {
    forall lam: real | lam <= theta :: Diagram(n.fees, lam, after.Values) == Diagram(n.fees, lam, before.Values)
  }

  /** A merge sequence that began with the chunk `first` of `before` and has grown it to `m`. */
  ghost predicate Sequence(n: Net, before: Chunks, after: Chunks, r: Txs, first: Txs, m: Txs) {
    && MergeState(n, after, r, m)
    && SameOutside(before, after, r)
    && DiagramHeld(n, before, after, first, m)
  }

  /** A merge sequence among chunks above the feerate `theta`. */
  ghost predicate Running(n: Net, before: Chunks, after: Chunks, r: Txs, first: Txs, m: Txs, theta: real) {
    && Sequence(n, before, after, r, first, m)
    && RatesAbove(n, after, r, theta)
    && ExactBelow(n, before, after, theta)
  }

  ghost predicate Settled(n: Net, before: Chunks, after: Chunks, r: Txs, first: Txs, theta: real) {
    && Partitions(n.txs, after) && Region(n, after, r)
    && TopologicalIn(n, after, r)
    && SameOutside(before, after, r)
    && RatesAbove(n, after, r, theta)
    && (forall lam: real :: Diagram(n.fees, lam, after.Values) >= Diagram(n.fees, lam, before.Values - {first}))
    && ExactBelow(n, before, after, theta)
  }

  lemma {:induction false} SequenceStart(n: Net, ch: Chunks, r: Txs, m: Txs)
    requires MergeState(n, ch, r, m)
    ensures Sequence(n, ch, ch, r, m, m)
  {
    var u :| u in r && ch[u] == m;
    hide Rate, OnlyBad, DiagramKept;
    forall lam: real ensures DiagramKept(n, ch, m, lam, Diagram(n.fees, lam, ch.Values - {m})) {
      DiagramKeptInitially(n, ch, u, lam);
    }
  }

  lemma {:induction false} RunStart(n: Net, ch: Chunks, r: Txs, m: Txs, theta: real)
    requires MergeState(n, ch, r, m) && RatesAbove(n, ch, r, theta)
    ensures Running(n, ch, ch, r, m, m, theta)
  {
    hide Sequence, RatesAbove, MergeState;
    SequenceStart(n, ch, r, m);
  }

  lemma {:induction false} RunStepRates(n: Net, ch: Chunks, r: Txs, m: Txs, e: Dep, theta: real)
    requires MergeState(n, ch, r, m) && RatesAbove(n, ch, r, theta) && LowestAbove(n, ch, m, e)
    ensures RatesAbove(n, MergeChunks(ch, m, ch[e.parent]), r, theta)
  {
    hide Rate, OnlyBad;
    MergedRate(n, ch, r, m, e);
    assert e.parent in r;
  }

  lemma {:induction false} RunStepExact(n: Net, before: Chunks, ch: Chunks, r: Txs, m: Txs, e: Dep, theta: real)
    requires MergeState(n, ch, r, m) && RatesAbove(n, ch, r, theta) && LowestAbove(n, ch, m, e)
    requires ExactBelow(n, before, ch, theta)
    ensures ExactBelow(n, before, MergeChunks(ch, m, ch[e.parent]), theta)
  {
    hide Rate, OnlyBad, Diagram;
    var u :| u in r && ch[u] == m;
    assert e.parent in r;
    forall lam: real | lam <= theta
      ensures Diagram(n.fees, lam, MergeChunks(ch, m, ch[e.parent]).Values) == Diagram(n.fees, lam, before.Values)
    {
      MergeExactBelow(n, ch, u, e.parent, lam);
    }
  }

  lemma {:induction false} SequenceStep(n: Net, before: Chunks, ch: Chunks, r: Txs, first: Txs, m: Txs, e: Dep)
    requires Sequence(n, before, ch, r, first, m) && LowestAbove(n, ch, m, e)
    ensures Sequence(n, before, MergeChunks(ch, m, ch[e.parent]), r, first, m + ch[e.parent])
  {
    var after := MergeChunks(ch, m, ch[e.parent]);
    MergeKeepsState(n, ch, r, m, e);
    assert m <= r && ch[e.parent] <= r by {
      var u :| u in r && ch[u] == m;
      assert e.parent in r;
    }
    hide Rate, OnlyBad, DiagramKept, LowestAbove, Region;
    forall lam: real ensures DiagramKept(n, after, m + ch[e.parent], lam, Diagram(n.fees, lam, before.Values - {first})) {
      MergeKeepsDiagram(n, ch, r, m, e, lam, Diagram(n.fees, lam, before.Values - {first}));
    }
  }

  lemma {:induction false} SequenceDone(n: Net, before: Chunks, ch: Chunks, r: Txs, first: Txs, m: Txs)
    requires Sequence(n, before, ch, r, first, m) && NoMergeLeft(n, ch, m)
    ensures TopologicalIn(n, ch, r)
    ensures forall lam: real :: Diagram(n.fees, lam, ch.Values) >= Diagram(n.fees, lam, before.Values - {first})
  {
    hide Rate, OnlyBad, Diagram;
    MergeDone(n, ch, r, m);
    forall lam: real ensures Diagram(n.fees, lam, ch.Values) >= Diagram(n.fees, lam, before.Values - {first}) {
      assert DiagramKept(n, ch, m, lam, Diagram(n.fees, lam, before.Values - {first}));
    }
  }

  lemma {:induction false} RunStep(n: Net, before: Chunks, ch: Chunks, r: Txs, first: Txs, m: Txs, theta: real, e: Dep)
    requires Running(n, before, ch, r, first, m, theta) && LowestAbove(n, ch, m, e)
    ensures Running(n, before, MergeChunks(ch, m, ch[e.parent]), r, first, m + ch[e.parent], theta)
  {
    SequenceStep(n, before, ch, r, first, m, e);
    hide MergeState, LowestAbove, RatesAbove, ExactBelow;
    RunStepRates(n, ch, r, m, e, theta);
    RunStepExact(n, before, ch, r, m, e, theta);
  }

  lemma {:induction false} RunDone(n: Net, before: Chunks, ch: Chunks, r: Txs, first: Txs, m: Txs, theta: real)
    requires Running(n, before, ch, r, first, m, theta) && NoMergeLeft(n, ch, m)
    ensures Settled(n, before, ch, r, first, theta)
  {
    hide Rate, OnlyBad, ExactBelow, Diagram, NoMergeLeft, DiagramHeld;
    SequenceDone(n, before, ch, r, first, m);
  }

  // ----- The whole improvement

  /** What a split of `ch[u]` into `t` and the rest, followed by the two merge sequences, produces. */
  ghost predicate Improved(n: Net, ch: Chunks, u: TxIdx, t: Txs, mid: Chunks, after: Chunks) {
    && ValidNet(n) && Partitions(n.txs, ch) && Topological(n, ch)
    && u in ch && t <= ch[u] && t != {} && t != ch[u]
    && Rate(n.fees, t) > Rate(n.fees, ch[u])
    && var split, theta := SplitChunk(ch, t, ch[u] - t), Rate(n.fees, ch[u]);
       && Settled(n, split, mid, AboveRate(n, split, theta), t, theta)
       && Settled(Flip(n), mid, after, AboveRate(Flip(n), split, -theta), ch[u] - t, -theta)
  }

  lemma {:induction false} SplitSym(ch: Chunks, t: Txs, b: Txs)
    requires t !! b
    ensures SplitChunk(ch, t, b) == SplitChunk(ch, b, t)
  {}

  lemma {:induction false} FlippedSplitState(n: Net, ch: Chunks, u: TxIdx, t: Txs)
    requires ValidNet(n) && Partitions(n.txs, ch) && Topological(n, ch)
    requires u in ch && t <= ch[u] && t != {} && t != ch[u]
    requires Rate(n.fees, t) > Rate(n.fees, ch[u])
    requires forall d <- n.deps :: !(d.child in t && d.parent in ch[u] - t)
    ensures var split := SplitChunk(ch, t, ch[u] - t);
            MergeState(Flip(n), split, AboveRate(Flip(n), split, -Rate(n.fees, ch[u])), ch[u] - t)
  {
    hide Rate;
    var f, b := Flip(n), ch[u] - t;
    FlipValid(n);
    FlipTopological(n, ch);
    OtherPart(n.fees, ch[u], t);
    NegatedRate(n.fees, ch[u]);
    NegatedRate(n.fees, b);
    forall d <- f.deps ensures !(d.child in b && d.parent in ch[u] - b) {
      assert Reverse(Reverse(d)) == d;
      FlipHas(n, Reverse(d));
    }
    assert ch[u] - b == t;
    SplitState(f, ch, u, b);
    SplitSym(ch, t, b);
  }

  /** The state in which the bottom starts its downward merge sequence. */
  lemma {:induction false} BottomStart(n: Net, ch: Chunks, u: TxIdx, t: Txs, mid: Chunks)
    requires ValidNet(n) && Partitions(n.txs, ch) && Topological(n, ch)
    requires u in ch && t <= ch[u] && t != {} && t != ch[u]
    requires Rate(n.fees, t) > Rate(n.fees, ch[u])
    requires forall d <- n.deps :: !(d.child in t && d.parent in ch[u] - t)
    requires var split, theta := SplitChunk(ch, t, ch[u] - t), Rate(n.fees, ch[u]);
             SameOutside(split, mid, AboveRate(n, split, theta)) && Partitions(n.txs, mid)
    ensures var split, theta := SplitChunk(ch, t, ch[u] - t), Rate(n.fees, ch[u]);
            Running(Flip(n), mid, mid, AboveRate(Flip(n), split, -theta), ch[u] - t, ch[u] - t, -theta)
  {
    hide Rate, Topological, MergeState, Running;
    var b, split, theta := ch[u] - t, SplitChunk(ch, t, ch[u] - t), Rate(n.fees, ch[u]);
    FlippedSplitState(n, ch, u, t);
    var r := AboveRate(Flip(n), split, -theta);
    BelowIsNotAbove(n, split, theta);
    MergeStateFrame(Flip(n), split, mid, r, b);
    RunStart(Flip(n), mid, r, b, -theta);
  }

  lemma {:induction false} BelowIsNotAbove(n: Net, ch: Chunks, theta: real)
    ensures forall v <- n.txs | v in ch :: v in AboveRate(Flip(n), ch, -theta) <==> Rate(n.fees, ch[v]) < theta
    ensures AboveRate(Flip(n), ch, -theta) !! AboveRate(n, ch, theta)
  {
    hide Rate;
    forall v <- n.txs | v in ch ensures v in AboveRate(Flip(n), ch, -theta) <==> Rate(n.fees, ch[v]) < theta {
      NegatedRate(n.fees, ch[v]);
    }
  }

  lemma {:induction false} ImprovedDep(n: Net, ch: Chunks, u: TxIdx, t: Txs, mid: Chunks, after: Chunks, d: Dep)
    requires Improved(n, ch, u, t, mid, after) && d in n.deps
    ensures GoodDep(n, after, d)
  {
    hide Rate, ExactBelow;
    var split, theta := SplitChunk(ch, t, ch[u] - t), Rate(n.fees, ch[u]);
    var up, down := AboveRate(n, split, theta), AboveRate(Flip(n), split, -theta);
    BelowIsNotAbove(n, split, theta);
    OtherPart(n.fees, ch[u], t);
    FlipHas(n, d);
    FlipGoodDep(n, after, d);
    NegatedRate(n.fees, after[d.child]);
    NegatedRate(n.fees, after[d.parent]);
    if d.child in up {
      assert GoodDep(n, mid, d);
      assert d.parent in up;
    } else if d.parent in down {
      assert GoodDep(Flip(n), after, Reverse(d));
    } else {
      assert GoodDep(n, ch, d);
    }
  }

  lemma {:induction false} ImprovedTopological(n: Net, ch: Chunks, u: TxIdx, t: Txs, mid: Chunks, after: Chunks)
    requires Improved(n, ch, u, t, mid, after)
    ensures Topological(n, after)
  {
    forall d <- n.deps ensures GoodDep(n, after, d) {
      ImprovedDep(n, ch, u, t, mid, after, d);
    }
  }

  lemma {:induction false} ImprovedDiagram(n: Net, ch: Chunks, u: TxIdx, t: Txs, mid: Chunks, after: Chunks, lam: real)
    requires Improved(n, ch, u, t, mid, after)
    ensures Diagram(n.fees, lam, after.Values) >= Diagram(n.fees, lam, ch.Values)
  {
    hide Rate, Diagram, Topological, Region, TopologicalIn, SameOutside, RatesAbove, Gain, Surplus;
    var x, b, theta := ch[u], ch[u] - t, Rate(n.fees, ch[u]);
    var split := SplitChunk(ch, t, b);
    OtherPart(n.fees, x, t);
    SplitDiagram(n.fees, lam, n.txs, ch, u, t);
    GainSign(n.fees, lam, x);
    GainSign(n.fees, lam, t);
    GainSign(n.fees, lam, b);
    FlippedPartition(n.fees, lam, n.txs, mid);
    FlippedPartition(n.fees, lam, n.txs, after);
    if lam >= theta {
      assert Diagram(Flip(n).fees, -lam, after.Values) == Diagram(Flip(n).fees, -lam, mid.Values);
      assert Diagram(n.fees, lam, mid.Values) >= Diagram(n.fees, lam, split.Values - {t});
    } else {
      ImprovedBelow(n, ch, u, t, mid, after, lam);
    }
  }

  lemma {:induction false} ImprovedBelow(n: Net, ch: Chunks, u: TxIdx, t: Txs, mid: Chunks, after: Chunks, lam: real)
    requires Improved(n, ch, u, t, mid, after) && lam < Rate(n.fees, ch[u])
    ensures Diagram(n.fees, lam, after.Values) >= Diagram(n.fees, lam, ch.Values)
  {
    hide Rate, Diagram, Topological, Region, TopologicalIn, RatesAbove, Gain, Surplus;
    var x, b, theta := ch[u], ch[u] - t, Rate(n.fees, ch[u]);
    var split := SplitChunk(ch, t, b);
    OtherPart(n.fees, x, t);
    SplitDiagram(n.fees, lam, n.txs, ch, u, t);
    GainSign(n.fees, lam, x);
    GainSign(n.fees, lam, t);
    assert t + b == x;
    SurplusUnion(n.fees, lam, t, b);
    FlippedPartition(n.fees, lam, n.txs, mid);
    FlippedPartition(n.fees, lam, n.txs, after);
    FlippedGain(n.fees, lam, b);
    assert b in mid.Values by {
      BelowIsNotAbove(n, split, theta);
      var q :| q in b;
      assert mid[q] == split[q] == b;
    }
    DiagramRemove(Flip(n).fees, -lam, mid.Values, b);
    assert Diagram(n.fees, lam, mid.Values) == Diagram(n.fees, lam, split.Values);
    assert Diagram(Flip(n).fees, -lam, after.Values) >= Diagram(Flip(n).fees, -lam, mid.Values - {b});
  }

  /** At the feerate of the chunk that was split, the diagram is strictly higher. */
  lemma {:induction false} ImprovedStrictly(n: Net, ch: Chunks, u: TxIdx, t: Txs, mid: Chunks, after: Chunks)
    requires Improved(n, ch, u, t, mid, after)
    ensures Diagram(n.fees, Rate(n.fees, ch[u]), after.Values) > Diagram(n.fees, Rate(n.fees, ch[u]), ch.Values)
  {
    hide Rate, Diagram, Topological, Region, TopologicalIn, SameOutside, RatesAbove, Gain, Surplus;
    var x, b, theta := ch[u], ch[u] - t, Rate(n.fees, ch[u]);
    OtherPart(n.fees, x, t);
    SplitDiagram(n.fees, theta, n.txs, ch, u, t);
    GainSign(n.fees, theta, x);
    GainSign(n.fees, theta, t);
    GainSign(n.fees, theta, b);
    SurplusSign(n.fees, theta, t);
    FlippedPartition(n.fees, theta, n.txs, mid);
    FlippedPartition(n.fees, theta, n.txs, after);
    assert Diagram(n.fees, theta, mid.Values) == Diagram(n.fees, theta, SplitChunk(ch, t, b).Values);
    assert Diagram(Flip(n).fees, -theta, after.Values) == Diagram(Flip(n).fees, -theta, mid.Values);
  }
}
