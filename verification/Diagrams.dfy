/**
 The (convexified) feerate diagram of a chunk partition, through its support function: for every
 feerate `lam`, the most that can be earned above `lam` by picking whole chunks.
 */
module Diagrams {
  import opened FeeRates
  import opened Forests
  import opened Topology

  type Blocks = set<Txs>

  ghost function Gain(fees: Fees, lam: real, x: Txs): real {
    if Surplus(fees, lam, x) > 0.0 then Surplus(fees, lam, x) else 0.0
  }

  ghost function PickBlock(bs: Blocks): (x: Txs)
    requires bs != {}
    ensures x in bs
  {
    var x :| x in bs;
    x
  }

  ghost function Diagram(fees: Fees, lam: real, bs: Blocks): real {
    if bs == {} then 0.0
    else Gain(fees, lam, PickBlock(bs)) + Diagram(fees, lam, bs - {PickBlock(bs)})
  }

  lemma {:induction false} DiagramRemove(fees: Fees, lam: real, bs: Blocks, x: Txs)
    requires x in bs
    ensures Diagram(fees, lam, bs) == Gain(fees, lam, x) + Diagram(fees, lam, bs - {x})
    decreases |bs|
  {
    hide Gain;
    var y := PickBlock(bs);
    if x != y {
      DiagramRemove(fees, lam, bs - {y}, x);
      DiagramRemove(fees, lam, bs - {x}, y);
      assert bs - {y} - {x} == bs - {x} - {y};
    }
  }

  lemma {:induction false} DiagramAdd(fees: Fees, lam: real, bs: Blocks, x: Txs)
    requires x !in bs
    ensures Diagram(fees, lam, bs + {x}) == Gain(fees, lam, x) + Diagram(fees, lam, bs)
  {
    hide Gain;
    DiagramRemove(fees, lam, bs + {x}, x);
    assert bs + {x} - {x} == bs;
  }

  /** Gains of disjoint sets on the same side of `lam` add up; otherwise they can only cancel. */
  lemma {:induction false} GainUnion(fees: Fees, lam: real, a: Txs, b: Txs)
    requires PositiveSizes(fees) && a !! b && a != {} && b != {}
    ensures Gain(fees, lam, a + b) <= Gain(fees, lam, a) + Gain(fees, lam, b)
    ensures lam <= Rate(fees, a) && lam <= Rate(fees, b) ==> Gain(fees, lam, a + b) == Gain(fees, lam, a) + Gain(fees, lam, b)
    ensures lam >= Rate(fees, a) && lam >= Rate(fees, b) ==> Gain(fees, lam, a + b) == Gain(fees, lam, a) + Gain(fees, lam, b)
  {
    hide Rate, Surplus;
    SurplusUnion(fees, lam, a, b);
    SurplusSign(fees, lam, a);
    SurplusSign(fees, lam, b);
  }

  lemma {:induction false} GainSign(fees: Fees, lam: real, a: Txs)
    requires PositiveSizes(fees) && a != {}
    ensures lam >= Rate(fees, a) ==> Gain(fees, lam, a) == 0.0
    ensures lam <= Rate(fees, a) ==> Gain(fees, lam, a) == Surplus(fees, lam, a)
    ensures Gain(fees, lam, a) >= 0.0
  {
    hide Rate, Surplus;
    SurplusSign(fees, lam, a);
  }

  // ----- Blocks of a partition

  lemma {:induction false} MergedBlocks(txs: Txs, ch: Chunks, u: TxIdx, v: TxIdx)
    requires Partitions(txs, ch) && u in ch && v in ch && ch[u] != ch[v]
    ensures MergeChunks(ch, ch[u], ch[v]).Values == ch.Values - {ch[u]} - {ch[v]} + {ch[u] + ch[v]}
    ensures ch[u] + ch[v] !in ch.Values
    ensures ch[u] in ch.Values && ch[v] in ch.Values
  {
    var m, p := ch[u], ch[v];
    var after := MergeChunks(ch, m, p);
    ChunksDisjoint(txs, ch, u, v);
    if w :| w in ch && ch[w] == m + p {
      assert false;
    }
    forall x <- after.Values ensures x in ch.Values - {m} - {p} + {m + p} {
      var w :| w in after && after[w] == x;
      if !(w in m || w in p) { assert ch[w] in ch.Values; }
    }
    forall x <- ch.Values - {m} - {p} + {m + p} ensures x in after.Values {
      if x == m + p {
        assert after[u] == x;
      } else {
        var w :| w in ch && ch[w] == x;
        assert after[w] == x;
      }
    }
  }

  lemma {:induction false} SplitBlocks(txs: Txs, ch: Chunks, u: TxIdx, t: Txs)
    requires Partitions(txs, ch) && u in ch && t <= ch[u] && t != {} && t != ch[u]
    ensures SplitChunk(ch, t, ch[u] - t).Values == ch.Values - {ch[u]} + {t} + {ch[u] - t}
    ensures ch[u] in ch.Values && t !in ch.Values && ch[u] - t !in ch.Values && t != ch[u] - t
  {
    var x := ch[u];
    var b := x - t;
    var after := SplitChunk(ch, t, b);
    var p :| p in t;
    var q :| q in x && q !in t;
    assert ch[p] == x && ch[q] == x;
    assert t !in ch.Values && b !in ch.Values;
    forall y <- after.Values ensures y in ch.Values - {x} + {t} + {b} {
      var w :| w in after && after[w] == y;
      if !(w in t || w in b) { assert ch[w] in ch.Values; }
    }
    forall y <- ch.Values - {x} + {t} + {b} ensures y in after.Values {
      if y == t { assert after[p] == y; }
      else if y == b { assert after[q] == y; }
      else {
        var w :| w in ch && ch[w] == y;
        assert after[w] == y;
      }
    }
  }

  /** The diagram after a merge, in terms of the diagram of the blocks that are not merged. */
  lemma {:induction false} MergedDiagram(fees: Fees, lam: real, txs: Txs, ch: Chunks, u: TxIdx, v: TxIdx)
    requires Partitions(txs, ch) && u in ch && v in ch && ch[u] != ch[v]
    ensures var rest := ch.Values - {ch[u]} - {ch[v]};
            var after := MergeChunks(ch, ch[u], ch[v]);
            && Diagram(fees, lam, ch.Values) == Gain(fees, lam, ch[u]) + Gain(fees, lam, ch[v]) + Diagram(fees, lam, rest)
            && Diagram(fees, lam, ch.Values - {ch[u]}) == Gain(fees, lam, ch[v]) + Diagram(fees, lam, rest)
            && Diagram(fees, lam, after.Values) == Gain(fees, lam, ch[u] + ch[v]) + Diagram(fees, lam, rest)
            && after.Values - {ch[u] + ch[v]} == rest
  {
    hide Gain, MergeChunks, Partitions;
    MergedBlocks(txs, ch, u, v);
    var rest := ch.Values - {ch[u]} - {ch[v]};
    DiagramRemove(fees, lam, ch.Values, ch[u]);
    DiagramRemove(fees, lam, ch.Values - {ch[u]}, ch[v]);
    DiagramAdd(fees, lam, rest, ch[u] + ch[v]);
  }

  lemma {:induction false} SplitDiagram(fees: Fees, lam: real, txs: Txs, ch: Chunks, u: TxIdx, t: Txs)
    requires Partitions(txs, ch) && u in ch && t <= ch[u] && t != {} && t != ch[u]
    ensures var rest := ch.Values - {ch[u]};
            var after := SplitChunk(ch, t, ch[u] - t);
            && Diagram(fees, lam, ch.Values) == Gain(fees, lam, ch[u]) + Diagram(fees, lam, rest)
            && Diagram(fees, lam, after.Values) == Gain(fees, lam, t) + Gain(fees, lam, ch[u] - t) + Diagram(fees, lam, rest)
            && Diagram(fees, lam, after.Values - {t}) == Gain(fees, lam, ch[u] - t) + Diagram(fees, lam, rest)
            && Diagram(fees, lam, after.Values - {ch[u] - t}) == Gain(fees, lam, t) + Diagram(fees, lam, rest)
  {
    hide Gain, SplitChunk, Partitions;
    SplitBlocks(txs, ch, u, t);
    var rest, b := ch.Values - {ch[u]}, ch[u] - t;
    DiagramRemove(fees, lam, ch.Values, ch[u]);
    DiagramAdd(fees, lam, rest, t);
    DiagramAdd(fees, lam, rest + {t}, b);
    DiagramAdd(fees, lam, rest, b);
    assert rest + {t} + {b} - {t} == rest + {b};
    assert rest + {t} + {b} - {b} == rest + {t};
  }

  // ----- A merge sequence does not lower the diagram

  /**
   The diagram is at least `base`; and above the feerate of a chunk that `m` depends on, the chunks
   other than `m` already reach `base`.
   */
  ghost predicate DiagramKept(n: Net, ch: Chunks, m: Txs, lam: real, base: real) {
    && Diagram(n.fees, lam, ch.Values) >= base
    && (forall d <- n.deps | Above(d, m) && d.parent in ch && Rate(n.fees, ch[d.parent]) <= lam ::
          Diagram(n.fees, lam, ch.Values - {m}) >= base)
  }

  lemma {:induction false} DiagramKeptInitially(n: Net, ch: Chunks, u: TxIdx, lam: real)
    requires ValidNet(n) && Partitions(n.txs, ch) && u in ch
    ensures DiagramKept(n, ch, ch[u], lam, Diagram(n.fees, lam, ch.Values - {ch[u]}))
  {
    hide Rate, Partitions;
    assert ch[u] in ch.Values;
    DiagramRemove(n.fees, lam, ch.Values, ch[u]);
  }

  lemma {:induction false} MergeKeepsDiagram(n: Net, ch: Chunks, r: Txs, m: Txs, e: Dep, lam: real, base: real)
    requires MergeState(n, ch, r, m) && LowestAbove(n, ch, m, e)
    requires DiagramKept(n, ch, m, lam, base)
    ensures DiagramKept(n, MergeChunks(ch, m, ch[e.parent]), m + ch[e.parent], lam, base)
  {
    var u :| u in r && ch[u] == m;
    hide Rate, Gain, OnlyBad, Region, Partitions;
    var p := ch[e.parent];
    var after := MergeChunks(ch, m, p);
    MergedRate(n, ch, r, m, e);
    MergedDiagram(n.fees, lam, n.txs, ch, u, e.parent);
    GainUnion(n.fees, lam, m, p);
    GainSign(n.fees, lam, p);
    GainSign(n.fees, lam, m + p);
    if lam >= Rate(n.fees, p) {
      assert Diagram(n.fees, lam, ch.Values - {m}) >= base;
    }
    forall d <- n.deps | Above(d, m + p) && d.parent in after && Rate(n.fees, after[d.parent]) <= lam
      ensures Diagram(n.fees, lam, after.Values - {m + p}) >= base
    {
      AboveAbsorbed(n, ch, r, m, e, d);
      assert after[d.parent] == ch[d.parent];
    }
  }

  /** Below a feerate that both merged chunks exceed, merging leaves the diagram as it is. */
  lemma {:induction false} MergeExactBelow(n: Net, ch: Chunks, u: TxIdx, v: TxIdx, lam: real)
    requires ValidNet(n) && Partitions(n.txs, ch) && u in ch && v in ch && ch[u] != ch[v]
    requires lam <= Rate(n.fees, ch[u]) && lam <= Rate(n.fees, ch[v])
    ensures Diagram(n.fees, lam, MergeChunks(ch, ch[u], ch[v]).Values) == Diagram(n.fees, lam, ch.Values)
  {
    hide Rate, Gain;
    MergedDiagram(n.fees, lam, n.txs, ch, u, v);
    ChunksDisjoint(n.txs, ch, u, v);
    GainUnion(n.fees, lam, ch[u], ch[v]);
  }

  // ----- The flipped diagram

  ghost predicate Disjoint(bs: Blocks) {
    forall x, y | x in bs && y in bs && x != y :: x !! y
  }

  ghost function Union(bs: Blocks): Txs {
    set x <- bs, v <- x :: v
  }

  lemma {:induction false} FlippedGain(fees: Fees, lam: real, x: Txs)
    ensures Gain(NegateFees(fees), -lam, x) == Gain(fees, lam, x) - Surplus(fees, lam, x)
  {
    hide Surplus;
    NegatedSurplus(fees, lam, x);
  }

  /** Seen in the flipped net, a diagram is lower by the surplus of everything it covers. */
  lemma {:induction false} FlippedDiagram(fees: Fees, lam: real, bs: Blocks)
    requires Disjoint(bs)
    ensures Diagram(NegateFees(fees), -lam, bs) == Diagram(fees, lam, bs) - Surplus(fees, lam, Union(bs))
    decreases |bs|
  {
    hide Surplus, Gain;
    if bs == {} {
      assert Union(bs) == {};
      SurplusEmpty(fees, lam);
    } else {
      var x := PickBlock(bs);
      var rest := bs - {x};
      FlippedDiagram(fees, lam, rest);
      FlippedGain(fees, lam, x);
      assert Union(bs) == x + Union(rest);
      assert x !! Union(rest);
      SurplusUnion(fees, lam, x, Union(rest));
    }
  }

  lemma {:induction false} PartitionBlocks(txs: Txs, ch: Chunks)
    requires Partitions(txs, ch)
    ensures Disjoint(ch.Values) && Union(ch.Values) == txs
  {
    forall x, y | x in ch.Values && y in ch.Values && x != y ensures x !! y {
      var u :| u in ch && ch[u] == x;
      var v :| v in ch && ch[v] == y;
      ChunksDisjoint(txs, ch, u, v);
    }
    forall v <- txs ensures v in Union(ch.Values) {
      assert ch[v] in ch.Values && v in ch[v];
    }
  }

  lemma {:induction false} FlippedPartition(fees: Fees, lam: real, txs: Txs, ch: Chunks)
    requires Partitions(txs, ch)
    ensures Diagram(NegateFees(fees), -lam, ch.Values) == Diagram(fees, lam, ch.Values) - Surplus(fees, lam, txs)
  {
    PartitionBlocks(txs, ch);
    hide Partitions;
    FlippedDiagram(fees, lam, ch.Values);
  }

  /** A diagram is never below the surplus of everything it covers. */
  lemma {:induction false} DiagramCovers(fees: Fees, lam: real, txs: Txs, ch: Chunks)
    requires Partitions(txs, ch)
    ensures Diagram(fees, lam, ch.Values) >= Surplus(fees, lam, txs)
    ensures Diagram(fees, lam, ch.Values) >= 0.0
  {
    hide Gain, Surplus;
    FlippedPartition(fees, lam, txs, ch);
    DiagramNonNegative(NegateFees(fees), -lam, ch.Values);
    DiagramNonNegative(fees, lam, ch.Values);
  }

  lemma {:induction false} DiagramNonNegative(fees: Fees, lam: real, bs: Blocks)
    ensures Diagram(fees, lam, bs) >= 0.0
    decreases |bs|
  {
    if bs != {} { DiagramNonNegative(fees, lam, bs - {PickBlock(bs)}); }
  }
}
