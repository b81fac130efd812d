/** Sorting groups by merging and swapping neighbours: what every step keeps. */
module GroupSorting {
  import opened FeeRates
  import opened Loading
  import opened Ordering
  import opened GroupOrders
  import opened GroupLists
  import opened Chunkings
  import opened GroupShapes

  /** `l` followed by `rest` is a valid order of the same transactions as `lin`, no worse, in groups without better prefixes. */
  ghost predicate Sorting(pass: Pass, l: Groups, rest: seq<TxIdx>, lin: seq<TxIdx>) {
    && PositiveSizes(pass.fees)
    && (forall i | 0 <= i < |l| :: Dominated(pass.fees, l[i]))
    && ValidBy(pass.dep, Flat(l) + rest) && Elems(Flat(l) + rest) == Elems(lin)
    && NoWorse(pass.fees, Flat(l) + rest, lin)
  }

  lemma {:induction false} SortingStart(pass: Pass, lin: seq<TxIdx>)
    requires PositiveSizes(pass.fees) && ValidBy(pass.dep, lin)
    ensures Sorting(pass, [], lin, lin)
  {
    assert Flat([]) + lin == lin;
    NoWorseItself(pass.fees, lin);
  }

  lemma {:induction false} SortingAdd(pass: Pass, l: Groups, rest: seq<TxIdx>, lin: seq<TxIdx>)
    requires Sorting(pass, l, rest, lin) && rest != []
    ensures Sorting(pass, l + [[rest[0]]], rest[1..], lin)
    ensures rest[0] in pass.dep && forall i | 0 <= i < |l| :: rest[0] !in Elems(l[i])
  {
    hide Dominated, NoWorse;
    var v := rest[0];
    FlatAppend(l, [[v]]);
    FlatOne([v]);
    assert Flat(l + [[v]]) + rest[1..] == Flat(l) + rest;
    SingleDominated(pass.fees, v);
    assert (Flat(l) + rest)[|Flat(l)|] == v;
    UniqueParts(Flat(l), rest);
    FlatElems(l);
    assert v in Elems(rest);
  }

  lemma {:induction false} CutFlat(l: Groups, k: nat, rest: seq<TxIdx>)
    requires 0 < k < |l|
    ensures Flat(l) + rest == Flat(l[..k - 1]) + l[k - 1] + l[k] + (Flat(l[k + 1..]) + rest)
  {
    hide Flat;
    ThreeParts(l, k, l[k - 1], l[k]);
  }

  lemma {:induction false} SwapFlat(l: Groups, k: nat, rest: seq<TxIdx>)
    requires 0 < k < |l|
    ensures Flat(SwapAt(l, k)) + rest == Flat(l[..k - 1]) + l[k] + l[k - 1] + (Flat(l[k + 1..]) + rest)
  {
    hide Flat;
    var s := SwapAt(l, k);
    assert s[..k - 1] == l[..k - 1] && s[k + 1..] == l[k + 1..];
    CutFlat(s, k, rest);
  }

  lemma {:induction false} MergeFlat(l: Groups, k: nat)
    requires 0 < k < |l|
    ensures Flat(MergeAt(l, k)) == Flat(l)
  {
    hide Flat;
    var a, b, c := l[..k - 1], l[k + 1..], l[k - 1] + l[k];
    ThreeParts(l, k, l[k - 1], l[k]);
    FlatAppend(a + [c], b);
    FlatAppend(a, [c]);
    FlatOne(c);
  }

  lemma {:induction false} ThreeParts(l: Groups, k: nat, p: seq<TxIdx>, c: seq<TxIdx>)
    requires 0 < k < |l| && l[k - 1] == p && l[k] == c
    ensures Flat(l) == Flat(l[..k - 1]) + p + c + Flat(l[k + 1..])
  {
    hide Flat;
    var a, b := l[..k - 1], l[k + 1..];
    assert l == a + [p] + [c] + b;
    FlatAppend(a + [p] + [c], b);
    FlatAppend(a + [p], [c]);
    FlatAppend(a, [p]);
    FlatOne(p);
    FlatOne(c);
  }

  lemma {:induction false} SortingFacts(pass: Pass, l: Groups, rest: seq<TxIdx>, lin: seq<TxIdx>, k: nat)
    requires Sorting(pass, l, rest, lin) && 0 < k < |l|
    ensures PositiveSizes(pass.fees) && Dominated(pass.fees, l[k]) && Dominated(pass.fees, l[k - 1])
    ensures ValidBy(pass.dep, Flat(l) + rest) && Unique(Flat(l) + rest) && NoWorse(pass.fees, Flat(l) + rest, lin)
  {}

  lemma {:induction false} SortingSwap(pass: Pass, l: Groups, rest: seq<TxIdx>, lin: seq<TxIdx>, k: nat)
    requires Sorting(pass, l, rest, lin) && 0 < k < |l| && Rate(pass.fees, Elems(l[k])) > Rate(pass.fees, Elems(l[k - 1]))
    requires DepOf(pass, l[k]) * Elems(l[k - 1]) == {}
    ensures Sorting(pass, SwapAt(l, k), rest, lin)
  {
    hide Rate, Dominated, NoWorse, Elems, Flat, ValidBy, Unique, DepOf;
    SortingFacts(pass, l, rest, lin, k);
    var x, y := Flat(l[..k - 1]), Flat(l[k + 1..]) + rest;
    CutFlat(l, k, rest);
    SwapFlat(l, k, rest);
    SwapNoWorse(pass.fees, x, l[k - 1], l[k], y);
    SwapUnique(x, l[k - 1], l[k], y);
    NoDepsThere(pass, l, rest, k, x, y);
    SwapValid(pass.dep, x, l[k - 1], l[k], y);
    NoWorseTrans(pass.fees, Flat(SwapAt(l, k)) + rest, Flat(l) + rest, lin);
  }

  lemma {:induction false} NoDepsThere(pass: Pass, l: Groups, rest: seq<TxIdx>, k: nat, x: seq<TxIdx>, y: seq<TxIdx>)
    requires 0 < k < |l| && ValidBy(pass.dep, x + l[k - 1] + l[k] + y) && DepOf(pass, l[k]) * Elems(l[k - 1]) == {}
    ensures forall v <- l[k] :: v in pass.dep && pass.dep[v] !! Elems(l[k - 1])
  {
    forall v <- l[k] ensures v in pass.dep && pass.dep[v] !! Elems(l[k - 1]) {
      var j :| 0 <= j < |l[k]| && l[k][j] == v;
      assert (x + l[k - 1] + l[k] + y)[|x + l[k - 1]| + j] == v;
      forall d <- pass.dep[v] ensures d !in Elems(l[k - 1]) {
        assert v in l[k] && d in DepAt(pass, v);
        assert d in DepOf(pass, l[k]);
        assert d !in DepOf(pass, l[k]) * Elems(l[k - 1]);
      }
    }
  }

  lemma {:induction false} SortingMerge(pass: Pass, l: Groups, rest: seq<TxIdx>, lin: seq<TxIdx>, k: nat)
    requires Sorting(pass, l, rest, lin) && 0 < k < |l| && Rate(pass.fees, Elems(l[k])) > Rate(pass.fees, Elems(l[k - 1]))
    ensures Sorting(pass, MergeAt(l, k), rest, lin)
  {
    hide Rate, Dominated, NoWorse, Elems, Flat, ValidBy, Unique;
    SortingFacts(pass, l, rest, lin, k);
    CutFlat(l, k, rest);
    MergeFlat(l, k);
    var x, y := Flat(l[..k - 1]), Flat(l[k + 1..]) + rest;
    assert x + l[k - 1] + l[k] + y == x + (l[k - 1] + l[k]) + y;
    UniqueParts(x + (l[k - 1] + l[k]), y);
    UniqueParts(x, l[k - 1] + l[k]);
    MergedDominated(pass.fees, l[k - 1], l[k]);
    var m := MergeAt(l, k);
    forall i | 0 <= i < |m| ensures Dominated(pass.fees, m[i]) {
      if i != k - 1 { assert m[i] == l[if i < k then i else i + 1]; }
    }
  }

  /** The stored feerates decide whether a group has a higher feerate than the one before it; the first never does. */
  lemma {:induction false} HigherThanPrev(pass: Pass, entries: Entries, l: Groups, k: nat)
    requires ListOk(pass, entries, l) && k < |l| && PositiveSizes(pass.fees)
    ensures TailOf(l[k]) < |entries| && PrevTail(l, k) < |entries|
    ensures k > 0 && CompareByRatio(entries[TailOf(l[k])].feerate, entries[PrevTail(l, k)].feerate) <= 0 ==>
              Rate(pass.fees, Elems(l[k])) <= Rate(pass.fees, Elems(l[k - 1]))
    ensures CompareByRatio(entries[TailOf(l[k])].feerate, entries[PrevTail(l, k)].feerate) > 0 ==>
              && k > 0 && Rate(pass.fees, Elems(l[k])) > Rate(pass.fees, Elems(l[k - 1]))
              && entries[TailOf(l[k])].group == Elems(l[k]) && entries[TailOf(l[k])].deps == DepOf(pass, l[k])
              && entries[TailOf(l[k - 1])].group == Elems(l[k - 1]) && entries[TailOf(l[k - 1])].prevGroup == PrevTail(l, k - 1)
  {
    hide Total, DepOf, Unique, Apart, ListOk, Links;
    ListHead(pass, entries, l);
    ListAt(pass, entries, l, k);
    if k > 0 {
      ListAt(pass, entries, l, k - 1);
      assert l[k][0] in Elems(l[k]) && l[k - 1][0] in Elems(l[k - 1]);
      TotalSizePositive(pass.fees, Elems(l[k]));
      TotalSizePositive(pass.fees, Elems(l[k - 1]));
      hide CompareByRatio, Elems;
      CompareIsRatioOrder(entries[TailOf(l[k])].feerate, entries[TailOf(l[k - 1])].feerate);
    }
  }

  lemma {:induction false} MergePlaces(l: Groups, k: nat)
    requires 0 < k < |l| && l[k] != []
    ensures var m := MergeAt(l, k);
            k - 1 < |m| && TailOf(m[k - 1]) == TailOf(l[k]) && PrevTail(m, k - 1) == PrevTail(l, k - 1) && NextTail(m, k - 1) == NextTail(l, k)
  {}

  lemma {:induction false} SwapPlaces(l: Groups, k: nat)
    requires 0 < k < |l|
    ensures var m := SwapAt(l, k);
            k - 1 < |m| && TailOf(m[k - 1]) == TailOf(l[k]) && PrevTail(m, k - 1) == PrevTail(l, k - 1) && NextTail(m, k - 1) == TailOf(l[k - 1])
  {}

  // ----- Shape

  /** Feerates fall, but for the group at `k`, which is above all behind it. */
  ghost predicate FallingBut(fees: Fees, l: Groups, k: nat) {
    && (forall i, j | 0 <= i < j < |l| && i != k && j != k :: Rate(fees, Elems(l[j])) <= Rate(fees, Elems(l[i])))
    && (forall j | k < j < |l| && k < |l| :: Rate(fees, Elems(l[j])) < Rate(fees, Elems(l[k])))
  }

  /** If everything has at most one dependent: groups are trees, and parts of the one at `k` are below all groups before it. */
  ghost predicate TreesBut(pass: Pass, l: Groups, k: nat) {
    && (forall i | 0 <= i < |l| :: TreeLike(pass, l[i]))
    && (forall i | 0 <= i < k < |l| :: PartsLow(pass, l[k], Rate(pass.fees, Elems(l[i]))))
  }

  /** The state while the group at `k` is moved to its place. */
  ghost predicate Shaping(pass: Pass, l: Groups, k: nat) {
    && k < |l| && (forall i | 0 <= i < |l| :: ChunkLike(pass, l[i]))
    && FallingBut(pass.fees, l, k) && (Chains(pass.dep) ==> TreesBut(pass, l, k))
  }

  ghost predicate Shaped(pass: Pass, l: Groups) {
    && (forall i | 0 <= i < |l| :: ChunkLike(pass, l[i]))
    && Falling(pass.fees, l) && (Chains(pass.dep) ==> forall i | 0 <= i < |l| :: TreeLike(pass, l[i]))
  }

  lemma {:induction false} ShapeAdd(pass: Pass, l: Groups, v: TxIdx)
    requires Shaped(pass, l) && v in pass.dep && v in pass.dep[v]
    ensures Shaping(pass, l + [[v]], |l|)
  {
    hide Rate, ChunkLike, TreeLike, PartsLow, Chains, Elems;
    var m := l + [[v]];
    OneChunkLike(pass, v);
    forall i | 0 <= i < |m| ensures ChunkLike(pass, m[i]) { if i < |l| { assert m[i] == l[i]; } }
    if Chains(pass.dep) {
      forall i | 0 <= i < |m| ensures TreeLike(pass, m[i]) {
        OneTreeLike(pass, v, 0.0);
        if i < |l| { assert m[i] == l[i]; }
      }
      forall i | 0 <= i < |l| ensures PartsLow(pass, m[|l|], Rate(pass.fees, Elems(m[i]))) { OneTreeLike(pass, v, Rate(pass.fees, Elems(m[i]))); }
    }
  }

  lemma {:induction false} ShapeDone(pass: Pass, l: Groups, k: nat)
    requires Shaping(pass, l, k) && (k > 0 ==> Rate(pass.fees, Elems(l[k])) <= Rate(pass.fees, Elems(l[k - 1])))
    ensures Shaped(pass, l)
  {
    hide Rate, ChunkLike, TreeLike, PartsLow, Chains, Elems;
    forall i, j | 0 <= i < j < |l| ensures Rate(pass.fees, Elems(l[j])) <= Rate(pass.fees, Elems(l[i])) {
      if j == k && i < k - 1 { assert Rate(pass.fees, Elems(l[k - 1])) <= Rate(pass.fees, Elems(l[i])); }
    }
  }

  lemma {:induction false} FallingSwap(fees: Fees, l: Groups, k: nat)
    requires 0 < k < |l| && FallingBut(fees, l, k) && Rate(fees, Elems(l[k])) > Rate(fees, Elems(l[k - 1]))
    ensures FallingBut(fees, SwapAt(l, k), k - 1)
  {
    hide Rate, Elems;
    var m := SwapAt(l, k);
    assert m[k - 1] == l[k] && m[k] == l[k - 1];
    forall i, j | 0 <= i < j < |m| && i != k - 1 && j != k - 1 ensures Rate(fees, Elems(m[j])) <= Rate(fees, Elems(m[i])) {
      var a, b := if i == k then k - 1 else i, if j == k then k - 1 else j;
      assert m[i] == l[a] && m[j] == l[b] && a < b && a != k && b != k;
    }
    forall j | k - 1 < j < |m| ensures Rate(fees, Elems(m[j])) < Rate(fees, Elems(m[k - 1])) {
      if j > k { assert m[j] == l[j]; }
    }
  }

  lemma {:induction false} FallingMerge(fees: Fees, l: Groups, k: nat)
    requires 0 < k < |l| && FallingBut(fees, l, k) && Rate(fees, Elems(l[k - 1])) < Rate(fees, Elems(l[k - 1] + l[k]))
    ensures FallingBut(fees, MergeAt(l, k), k - 1)
  {
    hide Rate, Elems;
    var m := MergeAt(l, k);
    forall i, j | 0 <= i < j < |m| && i != k - 1 && j != k - 1 ensures Rate(fees, Elems(m[j])) <= Rate(fees, Elems(m[i])) {
      var a, b := if i < k then i else i + 1, if j < k then j else j + 1;
      assert m[i] == l[a] && m[j] == l[b] && a < b && a != k && b != k;
    }
    forall j | k - 1 < j < |m| ensures Rate(fees, Elems(m[j])) < Rate(fees, Elems(m[k - 1])) {
      assert m[j] == l[j + 1] && m[k - 1] == l[k - 1] + l[k];
      assert Rate(fees, Elems(l[j + 1])) <= Rate(fees, Elems(l[k - 1]));
    }
  }

  lemma {:induction false} ShapeSwap(pass: Pass, l: Groups, k: nat)
    requires Shaping(pass, l, k) && k > 0 && Rate(pass.fees, Elems(l[k])) > Rate(pass.fees, Elems(l[k - 1]))
    ensures Shaping(pass, SwapAt(l, k), k - 1)
  {
    hide Rate, ChunkLike, TreeLike, PartsLow, Chains, Elems, FallingBut;
    FallingSwap(pass.fees, l, k);
    var m := SwapAt(l, k);
    forall i | 0 <= i < |m| ensures m[i] in l && ChunkLike(pass, m[i]) {
      assert m[i] == l[if i == k then k - 1 else if i == k - 1 then k else i];
    }
    if Chains(pass.dep) {
      forall i | 0 <= i < |m| ensures TreeLike(pass, m[i]) { assert m[i] == l[if i == k then k - 1 else if i == k - 1 then k else i]; }
      forall i | 0 <= i < k - 1 ensures PartsLow(pass, m[k - 1], Rate(pass.fees, Elems(m[i]))) { assert m[i] == l[i] && m[k - 1] == l[k]; }
    }
  }

  lemma {:induction false} ShapeMerge(pass: Pass, l: Groups, rest: seq<TxIdx>, k: nat)
    requires Shaping(pass, l, k) && k > 0 && Rate(pass.fees, Elems(l[k])) > Rate(pass.fees, Elems(l[k - 1]))
    requires PositiveSizes(pass.fees) && Transitive(pass.dep) && ValidBy(pass.dep, Flat(l) + rest) && DepOf(pass, l[k]) * Elems(l[k - 1]) != {}
    ensures Shaping(pass, MergeAt(l, k), k - 1)
  {
    hide Rate, ChunkLike, TreeLike, PartsLow, Chains, Elems, FallingBut, ValidBy, Flat, Transitive, DepOf;
    var m, p, c := MergeAt(l, k), l[k - 1], l[k];
    NeighboursApart(pass, l, rest, k);
    MergedBetween(pass.fees, p, c);
    FallingMerge(pass.fees, l, k);
    MergedChunkLike(pass, p, c);
    forall i | 0 <= i < |m| ensures ChunkLike(pass, m[i]) {
      if i != k - 1 { assert m[i] == l[if i < k then i else i + 1]; }
    }
    if Chains(pass.dep) { TreesMerge(pass, l, rest, k); }
  }

  lemma {:induction false} MergedBetween(fees: Fees, p: seq<TxIdx>, c: seq<TxIdx>)
    requires PositiveSizes(fees) && p != [] && c != [] && Elems(p) !! Elems(c) && Rate(fees, Elems(p)) < Rate(fees, Elems(c))
    ensures Rate(fees, Elems(p)) < Rate(fees, Elems(p + c)) < Rate(fees, Elems(c))
  {
    hide Rate;
    NotEmpty(p);
    NotEmpty(c);
    ElemsAppend(p, c);
    Mediant(fees, Elems(p), Elems(c));
  }

  /** Where two neighbouring groups are in the order. */
  lemma {:induction false} NeighboursApart(pass: Pass, l: Groups, rest: seq<TxIdx>, k: nat)
    requires 0 < k < |l| && ValidBy(pass.dep, Flat(l) + rest) && ChunkLike(pass, l[k - 1]) && ChunkLike(pass, l[k])
    ensures Unique(l[k - 1] + l[k]) && Elems(l[k - 1]) !! Elems(l[k]) && l[k - 1] != [] && l[k] != []
    ensures var i, n := |Flat(l[..k - 1])|, |l[k - 1] + l[k]|;
            i + n <= |Flat(l) + rest| && (Flat(l) + rest)[i..i + n] == l[k - 1] + l[k]
  {
    hide Flat;
    CutFlat(l, k, rest);
    var x, p, c, y := Flat(l[..k - 1]), l[k - 1], l[k], Flat(l[k + 1..]) + rest;
    assert Flat(l) + rest == x + (p + c) + y;
    UniqueParts(x + (p + c), y);
    UniqueParts(x, p + c);
    UniqueParts(p, c);
  }

  lemma {:induction false} TreesMerge(pass: Pass, l: Groups, rest: seq<TxIdx>, k: nat)
    requires 0 < k < |l| && TreesBut(pass, l, k) && FallingBut(pass.fees, l, k)
    requires PositiveSizes(pass.fees) && Transitive(pass.dep) && Chains(pass.dep) && ValidBy(pass.dep, Flat(l) + rest)
    requires Rate(pass.fees, Elems(l[k])) > Rate(pass.fees, Elems(l[k - 1])) && DepOf(pass, l[k]) * Elems(l[k - 1]) != {}
    requires ChunkLike(pass, l[k - 1]) && ChunkLike(pass, l[k])
    ensures TreesBut(pass, MergeAt(l, k), k - 1)
  {
    hide Rate, ChunkLike, TreeLike, PartsLow, Chains, Elems, ValidBy, Flat, Transitive, DepOf, Unique;
    var m, p, c := MergeAt(l, k), l[k - 1], l[k];
    NeighboursApart(pass, l, rest, k);
    MergedTreeLike(pass, p, c, Flat(l) + rest, |Flat(l[..k - 1])|);
    forall i | 0 <= i < |m| ensures TreeLike(pass, m[i]) {
      if i != k - 1 { assert m[i] == l[if i < k then i else i + 1]; }
    }
    forall i | 0 <= i < k - 1 ensures PartsLow(pass, m[k - 1], Rate(pass.fees, Elems(m[i]))) {
      assert m[i] == l[i] && m[k - 1] == p + c;
      assert Rate(pass.fees, Elems(p)) <= Rate(pass.fees, Elems(l[i]));
      MergedPartsLow(pass, p, c, Rate(pass.fees, Elems(l[i])));
    }
  }
}
