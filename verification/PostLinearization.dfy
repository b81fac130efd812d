/** Improving a linearization in place, by a backward and a forward pass of merging and swapping groups. */
module PostLinearization {
  import opened Sums
  import opened FeeRates
  import opened Forests
  import opened DepGraphs
  import opened Loading
  import opened Ordering
  import opened Linearization
  import opened GroupOrders
  import opened GroupLists
  import opened GroupShapes
  import opened GroupSorting
  import opened GroupGuarantees
  import opened Chunkings
  import opened MovedLeaves

  /** The group that ends with `v` is at `k` on its way to its place; `before` are the groups before it set out. */
  ghost predicate Settling(pass: Pass, before: Groups, l: Groups, k: nat, rest: seq<TxIdx>, v: TxIdx) {
    && Sorting(pass, l, rest, Flat(before) + rest) && Shaping(pass, l, k) && KeepsAside(pass, before, l, v)
    && l[k] != [] && l[k][|l[k]| - 1] == v && (|before| == 1 ==> l == before)
  }

  lemma {:induction false} SettlingStart(pass: Pass, l: Groups, rest: seq<TxIdx>, lin: seq<TxIdx>)
    requires Sorting(pass, l, rest, lin) && l != [] && Shaping(pass, l, |l| - 1)
    ensures l[|l| - 1] != [] && Settling(pass, l, l, |l| - 1, rest, l[|l| - 1][|l[|l| - 1]| - 1])
  {
    hide Dominated, NoWorse, ValidBy, Flat, KeepsAside, FallingBut, TreesBut, Chains;
    NoWorseItself(pass.fees, Flat(l) + rest);
    assert ChunkLike(pass, l[|l| - 1]);
    KeepsStart(pass, l, l[|l| - 1][|l[|l| - 1]| - 1]);
  }

  lemma {:induction false} SettlingSwap(pass: Pass, before: Groups, l: Groups, k: nat, rest: seq<TxIdx>, v: TxIdx)
    requires Settling(pass, before, l, k, rest, v) && k > 0 && Rate(pass.fees, Elems(l[k])) > Rate(pass.fees, Elems(l[k - 1]))
    requires DepOf(pass, l[k]) * Elems(l[k - 1]) == {}
    ensures Settling(pass, before, SwapAt(l, k), k - 1, rest, v)
  {
    hide Rate, Sorting, Shaping, KeepsAside, Elems, DepOf, Flat;
    assert k < |l| by { ShapingFacts(pass, l, k); }
    SortingSwap(pass, l, rest, Flat(before) + rest, k);
    ShapeSwap(pass, l, k);
    KeepsSwap(pass, before, l, rest, Flat(before) + rest, k, v);
    assert SwapAt(l, k)[k - 1] == l[k];
  }

  lemma {:induction false} SettlingMerge(pass: Pass, before: Groups, l: Groups, k: nat, rest: seq<TxIdx>, v: TxIdx)
    requires Settling(pass, before, l, k, rest, v) && k > 0 && Rate(pass.fees, Elems(l[k])) > Rate(pass.fees, Elems(l[k - 1]))
    requires Transitive(pass.dep) && DepOf(pass, l[k]) * Elems(l[k - 1]) != {}
    ensures Settling(pass, before, MergeAt(l, k), k - 1, rest, v)
  {
    hide Rate, Sorting, Shaping, KeepsAside, Elems, DepOf, Flat, Transitive, ValidBy, PositiveSizes, Dominated, NoWorse, Unique;
    ShapingFacts(pass, l, k);
    SortingFacts(pass, l, rest, Flat(before) + rest, k);
    SortingMerge(pass, l, rest, Flat(before) + rest, k);
    ShapeMerge(pass, l, rest, k);
    KeepsMerge(pass, before, l, k, v);
    assert MergeAt(l, k)[k - 1] == l[k - 1] + l[k];
  }

  lemma {:induction false} ShapingFacts(pass: Pass, l: Groups, k: nat)
    requires Shaping(pass, l, k)
    ensures k < |l| && l[k] != [] && (k > 0 ==> l[k - 1] != [])
  {
    assert ChunkLike(pass, l[k]) && (k > 0 ==> ChunkLike(pass, l[k - 1]));
  }

  /** What a settled group leaves. */
  lemma {:induction false} SettlingDone(pass: Pass, before: Groups, l: Groups, k: nat, rest: seq<TxIdx>, v: TxIdx, lin: seq<TxIdx>)
    requires Settling(pass, before, l, k, rest, v) && Sorting(pass, before, rest, lin)
    requires k > 0 ==> Rate(pass.fees, Elems(l[k])) <= Rate(pass.fees, Elems(l[k - 1]))
    ensures Sorting(pass, l, rest, lin) && Shaped(pass, l) && KeepsAside(pass, before, l, v)
    ensures NoWorse(pass.fees, Flat(l) + rest, Flat(before) + rest) && (|before| == 1 ==> l == before)
  {
    hide Rate, Shaping, KeepsAside, Flat, ValidBy, Dominated, NoWorse, Shaped;
    ShapeDone(pass, l, k);
    NoWorseTrans(pass.fees, Flat(l) + rest, Flat(before) + rest, lin);
  }

  /** Merge the last group with, or move it before, the groups of lower feerate before it. */
  method Settle(entries0: Entries, cur: nat, ghost pass: Pass, ghost l0: Groups, ghost rest: seq<TxIdx>, ghost lin: seq<TxIdx>)
    returns (entries: Entries, ghost l: Groups)
    requires ListOk(pass, entries0, l0) && l0 != [] && cur == TailOf(l0[|l0| - 1]) && 0 < cur < |entries0|
    requires Sorting(pass, l0, rest, lin) && Shaping(pass, l0, |l0| - 1) && Transitive(pass.dep)
    ensures ListOk(pass, entries, l) && |entries| == |entries0|
    ensures Sorting(pass, l, rest, lin) && Shaped(pass, l) && KeepsAside(pass, l0, l, cur - 1)
    ensures NoWorse(pass.fees, Flat(l) + rest, Flat(l0) + rest) && (|l0| == 1 ==> l == l0)
  {
    hide ListOk, Sorting, Shaping, Shaped, KeepsAside, NoWorse, Transitive, PositiveSizes, CompareByRatio, Rate, Elems, DepOf, Flat, Settling;
    entries, l := entries0, l0;
    ghost var k: nat := |l| - 1;
    var next, prev := 0, entries[cur].prevGroup;
    ListAt(pass, entries, l, k);
    SettlingStart(pass, l, rest, lin);
    while true
      invariant ListOk(pass, entries, l) && Settling(pass, l0, l, k, rest, cur - 1) && |entries| == |entries0|
      invariant k < |l| && cur == TailOf(l[k]) && prev == PrevTail(l, k) && next == NextTail(l, k)
      decreases k
    {
      SettlingSizes(pass, l0, l, k, rest, cur - 1);
      HigherThanPrev(pass, entries, l, k);
      if CompareByRatio(entries[cur].feerate, entries[prev].feerate) <= 0 {
        SettlingDone(pass, l0, l, k, rest, cur - 1, lin);
        break;
      }
      if entries[cur].deps * entries[prev].group != {} {
        MergedOk(pass, entries, l, k);
        SettlingMerge(pass, l0, l, k, rest, cur - 1);
        MergePlaces(l, k);
        prev, entries := entries[prev].prevGroup, MergeEntries(entries, cur, prev);
        l, k := MergeAt(l, k), k - 1;
      } else {
        SwappedOk(pass, entries, l, k);
        SettlingSwap(pass, l0, l, k, rest, cur - 1);
        SwapPlaces(l, k);
        var preprev := entries[prev].prevGroup;
        entries := SwapEntries(entries, next, prev, cur, preprev);
        next, prev := prev, preprev;
        l, k := SwapAt(l, k), k - 1;
      }
    }
  }

  lemma {:induction false} SettlingSizes(pass: Pass, before: Groups, l: Groups, k: nat, rest: seq<TxIdx>, v: TxIdx)
    requires Settling(pass, before, l, k, rest, v)
    ensures PositiveSizes(pass.fees)
  {}

  // ----- A whole pass

  ghost function Oriented(rev: bool, s: seq<TxIdx>): seq<TxIdx> {
    if rev then Rev(s) else s
  }

  ghost predicate InRange(g: Graph, range: nat) {
    forall v <- g.anc :: v < range
  }

  /** A valid order of all transactions, seen in the orientation of a pass. */
  lemma {:induction false} OrientedValid(g: Graph, rev: bool, s: seq<TxIdx>)
    requires ClosedGraph(g) && ValidBy(g.anc, s) && Elems(s) == g.anc.Keys
    ensures ValidBy(PassOf(g, rev).dep, Oriented(rev, s)) && Elems(Oriented(rev, s)) == g.anc.Keys
  {
    hide ClosedGraph, ValidBy;
    RevElems(s);
    if rev { RevValid(g, false, s); }
  }

  /** Back in the original orientation, the order is valid and no worse. */
  lemma {:induction false} OrientedBack(g: Graph, rev: bool, s: seq<TxIdx>, t: seq<TxIdx>)
    requires ClosedGraph(g) && Unique(s) && Elems(s) == g.anc.Keys
    requires ValidBy(PassOf(g, rev).dep, t) && Elems(t) == g.anc.Keys && NoWorse(PassOf(g, rev).fees, t, Oriented(rev, s))
    ensures ValidBy(g.anc, Oriented(rev, t)) && Elems(Oriented(rev, t)) == g.anc.Keys && NoWorse(g.fees, Oriented(rev, t), s)
  {
    assert Unique(t);
    hide ClosedGraph, NoWorse, Unique, ValidBy;
    RevElems(s);
    RevElems(t);
    if rev {
      RevValid(g, true, t);
      RevNoWorse(g.fees, t, Rev(s));
    }
  }

  /** Group the transactions of `lin`, in the orientation of the pass. */
  method GroupAll(g: Graph, rev: bool, lin: seq<TxIdx>, entries0: Entries) returns (entries: Entries, ghost l: Groups)
    requires entries0 != [] && entries0[0].feerate == FeeFrac(0, 0)
    requires ValidGraph(g) && ValidBy(g.anc, lin) && Elems(lin) == g.anc.Keys && InRange(g, |entries0| - 1)
    ensures |entries| == |entries0| && ListOk(PassOf(g, rev), entries, l)
    ensures Sorting(PassOf(g, rev), l, [], Oriented(rev, lin)) && Shaped(PassOf(g, rev), l)
    ensures MovedOk(PassOf(g, rev), l, Oriented(rev, lin), |lin|)
  {
    hide ClosedGraph, ValidBy, Unique, ListOk, Sorting, Elems, Acyclic, Shaping, Shaped, Transitive, KeepsAside, NoWorse, MovedOk, Flat;
    ghost var pass, todo := PassOf(g, rev), Oriented(rev, lin);
    OrientedValid(g, rev, lin);
    PassSizes(g, rev);
    entries, l := entries0[0 := entries0[0].(prevGroup := 0)], [];
    EmptyList(pass, entries);
    SortingStart(pass, todo);
    PassTransitive(g, rev);
    NothingShaped(pass);
    MovedStart(pass, todo);
    ValidUnique(pass.dep, todo);
    for i := 0 to |lin|
      invariant |entries| == |entries0| && ListOk(pass, entries, l) && Sorting(pass, l, todo[i..], todo)
      invariant Shaped(pass, l) && MovedOk(pass, l, todo, i) && (i == 0 ==> l == [])
    {
      var v := lin[if rev then |lin| - 1 - i else i];
      assert todo[i..][0] == v && todo[i..][1..] == todo[i + 1..];
      InLin(lin, if rev then |lin| - 1 - i else i);
      SortingAdd(pass, l, todo[i..], todo);
      var feerate := FracOf(g.fees, v);
      PassAt(g, rev, v);
      var dep := if rev then g.desc[v] else g.anc[v];
      if rev { feerate := FeeFrac(-feerate.fee, feerate.size); }
      AddedOk(pass, entries, l, v, dep, feerate);
      ListHead(pass, entries, l);
      entries := AddEntries(entries, v, dep, feerate);
      TransitiveAt(pass.dep, v);
      ShapeAdd(pass, l, v);
      ghost var was := l;
      AddedFlat(l, v, todo, i);
      entries, l := Settle(entries, v + 1, pass, l + [[v]], todo[i + 1..], todo);
      SortedFalls(pass, l);
      MovedNext(pass, was, l, todo, i);
    }
    assert todo[|lin|..] == [];
  }

  lemma {:induction false} NothingShaped(pass: Pass)
    ensures Shaped(pass, [])
  {}

  lemma {:induction false} ValidUnique(dep: map<TxIdx, Txs>, lin: seq<TxIdx>)
    requires ValidBy(dep, lin)
    ensures Unique(lin)
  {}

  lemma {:induction false} TransitiveAt(dep: map<TxIdx, Txs>, v: TxIdx)
    requires Transitive(dep) && v in dep
    ensures v in dep[v]
  {}

  lemma {:induction false} SortedFalls(pass: Pass, l: Groups)
    requires Shaped(pass, l)
    ensures Falling(pass.fees, l)
  {}

  lemma {:induction false} AddedFlat(l: Groups, v: TxIdx, todo: seq<TxIdx>, i: nat)
    requires i < |todo| && todo[i] == v
    ensures Flat(l + [[v]]) + todo[i + 1..] == Flat(l) + todo[i..]
  {
    hide Flat;
    FlatAppend(l, [[v]]);
    FlatOne([v]);
  }

  lemma {:induction false} InLin(lin: seq<TxIdx>, i: nat)
    requires i < |lin|
    ensures lin[i] in Elems(lin)
  {}

  lemma {:induction false} EmptyList(pass: Pass, entries: Entries)
    requires entries != [] && entries[0].feerate == FeeFrac(0, 0) && entries[0].prevGroup == 0
    ensures ListOk(pass, entries, [])
  {}

  lemma {:induction false} PassSizes(g: Graph, rev: bool)
    requires PositiveSizes(g.fees)
    ensures PositiveSizes(PassOf(g, rev).fees)
  {
    NegatedRate(g.fees, {});
  }

  lemma {:induction false} PassAt(g: Graph, rev: bool, v: TxIdx)
    requires ClosedGraph(g) && v in g.anc
    ensures v in g.desc && v in PassOf(g, rev).dep && PassOf(g, rev).dep[v] == if rev then g.desc[v] else g.anc[v]
    ensures FracOf(PassOf(g, rev).fees, v) == if rev then FeeFrac(-FracOf(g.fees, v).fee, FracOf(g.fees, v).size) else FracOf(g.fees, v)
  {}

  // ----- Writing the order back

  ghost predicate Written(rev: bool, a: seq<TxIdx>, w: seq<TxIdx>) {
    |w| <= |a| && if rev then a[..|w|] == Rev(w) else a[|a| - |w|..] == w
  }

  lemma {:induction false} WriteNext(rev: bool, a: seq<TxIdx>, w: seq<TxIdx>, v: TxIdx)
    requires Written(rev, a, w) && |w| < |a|
    ensures Written(rev, if rev then a[|w| := v] else a[|a| - |w| - 1 := v], [v] + w)
  {}

  lemma {:induction false} LinkAt(pass: Pass, entries: Entries, c: seq<TxIdx>, prev: nat, j: nat)
    requires GroupOk(pass, entries, c, prev) && (j < |c| || j == 0)
    ensures j < |c| && c[j] + 1 < |entries| && entries[c[j] + 1].prevTx == if j == 0 then 0 else c[j - 1] + 1
  {
    hide Total, DepOf;
  }

  /** Write the transactions of one group, from the last to the first, next to what was written before. */
  method WriteGroup(rev: bool, entries: Entries, tail: nat, lin: array<TxIdx>, done0: nat, ghost pass: Pass, ghost c: seq<TxIdx>, ghost prev: nat,
                    ghost w: seq<TxIdx>) returns (done: nat)
    requires GroupOk(pass, entries, c, prev) && tail == TailOf(c) && done0 == |w| && |c + w| <= lin.Length && Written(rev, lin[..], w)
    modifies lin
    ensures done == |c + w| && Written(rev, lin[..], c + w)
  {
    hide Written, GroupOk;
    done := done0;
    var cur := tail;
    LinkAt(pass, entries, c, prev, 0);
    ghost var j: nat := |c| - 1;
    assert c[j + 1..] + w == w;
    while true
      invariant j < |c| && cur == c[j] + 1 && done == |c[j + 1..] + w| && Written(rev, lin[..], c[j + 1..] + w)
      decreases j
    {
      LinkAt(pass, entries, c, prev, j);
      WriteNext(rev, lin[..], c[j + 1..] + w, c[j]);
      assert [c[j]] + (c[j + 1..] + w) == c[j..] + w;
      if rev {
        lin[done] := cur - 1;
      } else {
        lin[lin.Length - 1 - done] := cur - 1;
      }
      done := done + 1;
      cur := entries[cur].prevTx;
      if cur == 0 { break; }
      j := j - 1;
    }
    assert c[0..] == c;
  }

  method WriteBack(rev: bool, entries: Entries, lin: array<TxIdx>, ghost pass: Pass, ghost l: Groups)
    requires ListOk(pass, entries, l) && |Flat(l)| == lin.Length
    modifies lin
    ensures lin[..] == Oriented(rev, Flat(l))
  {
    hide Written, ListOk, Flat, GroupOk;
    ListHead(pass, entries, l);
    var cur, done := entries[0].prevGroup, 0;
    ghost var i: nat := |l|;
    NothingWritten(rev, lin[..]);
    FlatNone();
    assert l[|l|..] == [];
    while cur != 0
      invariant i <= |l| && cur == PrevTail(l, i) && done == |Flat(l[i..])| && Written(rev, lin[..], Flat(l[i..]))
      decreases i
    {
      ListAt(pass, entries, l, i - 1);
      FlatRest(l, i - 1);
      done := WriteGroup(rev, entries, cur, lin, done, pass, l[i - 1], PrevTail(l, i - 1), Flat(l[i..]));
      PrevOf(pass, entries, l, i - 1);
      cur := entries[cur].prevGroup;
      i := i - 1;
    }
    if i > 0 { ListAt(pass, entries, l, i - 1); }
    assert l[0..] == l;
    AllWritten(rev, lin[..], Flat(l));
  }

  lemma {:induction false} PrevOf(pass: Pass, entries: Entries, l: Groups, i: nat)
    requires ListOk(pass, entries, l) && i < |l|
    ensures TailOf(l[i]) < |entries| && entries[TailOf(l[i])].prevGroup == PrevTail(l, i)
  {
    hide ListOk, Links;
    ListAt(pass, entries, l, i);
  }

  lemma {:induction false} NothingWritten(rev: bool, a: seq<TxIdx>)
    ensures Written(rev, a, [])
  {}

  lemma {:induction false} AllWritten(rev: bool, a: seq<TxIdx>, w: seq<TxIdx>)
    requires Written(rev, a, w) && |w| == |a|
    ensures a == Oriented(rev, w)
  {
    assert a[..|a|] == a && a[0..] == a;
  }

  lemma {:induction false} FlatRest(l: Groups, i: nat)
    requires i < |l|
    ensures Flat(l[i..]) == l[i] + Flat(l[i + 1..]) && |Flat(l[i..])| <= |Flat(l)|
  {
    hide Flat;
    assert l[i..] == [l[i]] + l[i + 1..];
    FlatAppend([l[i]], l[i + 1..]);
    FlatOne(l[i]);
    assert l == l[..i] + l[i..];
    FlatAppend(l[..i], l[i..]);
  }

  /** One pass over the linearization, from back to front if `rev`. */
  method RunPass(g: Graph, rev: bool, lin: array<TxIdx>, entries0: Entries) returns (entries: Entries, ghost l: Groups)
    requires entries0 != [] && entries0[0].feerate == FeeFrac(0, 0)
    requires ValidGraph(g) && ValidBy(g.anc, lin[..]) && Elems(lin[..]) == g.anc.Keys && InRange(g, |entries0| - 1)
    modifies lin
    ensures ValidBy(g.anc, lin[..]) && Elems(lin[..]) == g.anc.Keys && NoWorse(g.fees, lin[..], old(lin[..]))
    ensures |entries| == |entries0| && entries[0].feerate == FeeFrac(0, 0)
    ensures lin[..] == Oriented(rev, Flat(l)) && Unique(Flat(l)) && Elems(Flat(l)) == g.anc.Keys && Shaped(PassOf(g, rev), l)
    ensures |Oriented(rev, old(lin[..]))| == lin.Length && MovedOk(PassOf(g, rev), l, Oriented(rev, old(lin[..])), lin.Length)
  {
    hide ClosedGraph, ValidBy, Unique, ListOk, Sorting, Elems, Acyclic, NoWorse, Flat, Shaped, MovedOk;
    entries, l := GroupAll(g, rev, lin[..], entries0);
    ListHead(PassOf(g, rev), entries, l);
    SortedAll(g, rev, lin[..], l);
    WriteBack(rev, entries, lin, PassOf(g, rev), l);
  }

  lemma {:induction false} SortedAll(g: Graph, rev: bool, lin: seq<TxIdx>, l: Groups)
    requires ClosedGraph(g) && ValidBy(g.anc, lin) && Elems(lin) == g.anc.Keys && Sorting(PassOf(g, rev), l, [], Oriented(rev, lin))
    ensures |Flat(l)| == |lin| && Unique(Flat(l)) && Elems(Flat(l)) == g.anc.Keys
    ensures var after := Oriented(rev, Flat(l));
            ValidBy(g.anc, after) && Elems(after) == g.anc.Keys && NoWorse(g.fees, after, lin)
  {
    assert Unique(lin) && Unique(Flat(l) + []);
    hide ClosedGraph, Unique, NoWorse, Flat, Dominated;
    assert Flat(l) + [] == Flat(l);
    OrientedValid(g, rev, lin);
    OrientedBack(g, rev, lin, Flat(l));
    SameLength(lin, Flat(l));
  }

  lemma {:induction false} SameLength(a: seq<TxIdx>, b: seq<TxIdx>)
    requires Unique(a) && Unique(b) && Elems(a) == Elems(b)
    ensures |a| == |b|
  {
    DistinctLength(a);
    DistinctLength(b);
  }

  // ----- The guarantees

  /** The order with its last transaction moved to position `k`. */
  ghost function Moved(s: seq<TxIdx>, k: nat): seq<TxIdx>
    requires k < |s|
  {
    s[..k] + [s[|s| - 1]] + s[k..|s| - 1]
  }

  /** No worse than any valid order from which `s` comes by moving one transaction to the end. */
  ghost predicate MovedGood(g: Graph, s: seq<TxIdx>, r: seq<TxIdx>) {
    forall k: nat | k < |s| && ValidBy(g.anc, Moved(s, k)) :: NoWorse(g.fees, r, Moved(s, k))
  }

  /** What the last transaction pays now. */
  ghost function LastFee(g: Graph, s: seq<TxIdx>): int {
    if s != [] && s[|s| - 1] in g.fees then g.fees[s[|s| - 1]].fee else 0
  }

  /** `r` is no worse than the order in which the last transaction of `s` was at `k` and paid `fee`. */
  ghost predicate MovedAndRaised(g: Graph, r: seq<TxIdx>, s: seq<TxIdx>, k: nat, fee: int)
    requires k < |s|
  {
    s[|s| - 1] in g.fees && NoWorseThan(g.fees, r, s[|s| - 1], fee, Moved(s, k))
  }

  lemma {:induction false} LastThere(g: Graph, s: seq<TxIdx>, k: nat)
    requires ClosedGraph(g) && k < |s| && ValidOrder(g, Moved(s, k))
    ensures s[|s| - 1] in g.fees
  {
    assert Moved(s, k)[k] == s[|s| - 1];
    OrderAt(g, Moved(s, k), k);
  }

  lemma {:induction false} RevMoved(s: seq<TxIdx>, k: nat)
    requires k < |s|
    ensures Rev(Moved(s, k)) == Back(Rev(s), |s| - 1 - k) && Elems(Moved(s, k)) == Elems(s)
  {
    hide Rev, Back;
    var t, a, b := [s[|s| - 1]], s[..k], s[k..|s| - 1];
    assert s == a + b + t && Moved(s, k) == a + t + b;
    SameUnion(a, b, t);
    RevThree(a, b, s[|s| - 1]);
  }

  lemma {:induction false} RevThree(a: seq<TxIdx>, b: seq<TxIdx>, v: TxIdx)
    ensures Rev(a + [v] + b) == Back(Rev(a + b + [v]), |b|)
  {
    RevAppend(a + [v], b);
    RevAppend(a, [v]);
    RevAppend(a + b, [v]);
    RevAppend(a, b);
    hide Rev;
    assert Rev([v]) == [v] by { RevOne(v); }
    RevLength(b);
    var r := [v] + (Rev(b) + Rev(a));
    assert Rev(a + b + [v]) == r && r[1..|b| + 1] == Rev(b) && r[|b| + 1..] == Rev(a);
  }

  lemma {:induction false} RevOne(v: TxIdx)
    ensures Rev([v]) == [v]
  {}

  lemma {:induction false} RevAppend(a: seq<TxIdx>, b: seq<TxIdx>)
    ensures Rev(a + b) == Rev(b) + Rev(a)
  {}

  /** A pass from the back is no worse than any order with the last transaction at an earlier place. */
  lemma {:induction false} MovedBack(g: Graph, s: seq<TxIdx>, l: Groups)
    requires ClosedGraph(g) && Unique(s) && Elems(s) == g.anc.Keys && Unique(Flat(l)) && Elems(Flat(l)) == g.anc.Keys
    requires MovedOk(PassOf(g, true), l, Rev(s), |s|)
    ensures MovedGood(g, s, Rev(Flat(l)))
  {
    hide ClosedGraph, Unique, Elems, NoWorse, ValidBy, Flat, Back;
    forall k: nat | k < |s| && ValidBy(g.anc, Moved(s, k)) ensures NoWorse(g.fees, Rev(Flat(l)), Moved(s, k)) {
      MovedBackAt(g, s, l, k);
    }
  }

  lemma {:induction false} MovedBackAt(g: Graph, s: seq<TxIdx>, l: Groups, k: nat)
    requires ClosedGraph(g) && Unique(s) && Elems(s) == g.anc.Keys && Unique(Flat(l)) && Elems(Flat(l)) == g.anc.Keys
    requires MovedOk(PassOf(g, true), l, Rev(s), |s|) && k < |s| && ValidBy(g.anc, Moved(s, k))
    ensures NoWorse(g.fees, Rev(Flat(l)), Moved(s, k))
  {
    hide ClosedGraph, Unique, Elems, NoWorse, ValidBy, Flat, Back, Moved, Rev;
    var m, pass := Moved(s, k), PassOf(g, true);
    RevMoved(s, k);
    RevValid(g, false, m);
    RevLength(s);
    MovedEnd(pass, l, Rev(s), |s| - 1 - k);
    ValidUnique(g.anc, m);
    RevElems(m);
    RevNoWorse(g.fees, Flat(l), Rev(m));
  }

  lemma {:induction false} RevLength(s: seq<TxIdx>)
    ensures |Rev(s)| == |s|
  {}

  lemma {:induction false} MovedEnd(pass: Pass, l: Groups, todo: seq<TxIdx>, n: nat)
    requires n < |todo| && MovedOk(pass, l, todo, |todo|) && ValidBy(pass.dep, Back(todo, n))
    ensures NoWorse(pass.fees, Flat(l), Back(todo, n))
  {
    hide NoWorse, ValidBy, Flat, Back, Aside, Drop;
    assert MovedAt(pass, l, todo, |todo|, n);
    assert Flat(l) + todo[|todo|..] == Flat(l);
  }

  lemma {:induction false} BackwardOptimal(g: Graph, l: Groups)
    requires ValidGraph(g) && OneParent(g) && Shaped(PassOf(g, true), l) && Unique(Flat(l)) && Elems(Flat(l)) == g.anc.Keys
    ensures OptimalBy(PassOf(g, false), Rev(Flat(l)))
  {
    hide ClosedGraph, Acyclic, OneParent, Shaped, Unique, Elems, Flat, OptimalBy, Chains;
    OneParentChains(g);
    PassSizes(g, true);
    TreesOptimal(PassOf(g, true), l);
    RevOptimal(g, Flat(l));
  }

  lemma {:induction false} ForwardOptimal(g: Graph, l: Groups)
    requires ValidGraph(g) && OneChild(g) && Shaped(PassOf(g, false), l) && Unique(Flat(l))
    ensures OptimalBy(PassOf(g, false), Flat(l))
  {
    hide ClosedGraph, Acyclic, OneChild, Shaped, Unique, Flat, OptimalBy, Chains;
    OneChildChains(g);
    TreesOptimal(PassOf(g, false), l);
  }

  lemma {:induction false} OptimalIsOrder(g: Graph, lin: seq<TxIdx>)
    requires Elems(lin) == g.anc.Keys && OptimalBy(PassOf(g, false), lin)
    ensures OptimalOrder(g, lin)
  {
    hide SomePrefixEarns, Surplus;
    forall lam: real, t: Txs | ClosedUpward(g, t) ensures SomePrefixEarns(g.fees, lam, lin, Surplus(g.fees, lam, t)) {
      assert HoldsNeeds(g.anc, t);
    }
  }

  lemma {:induction false} MovedStays(g: Graph, s: seq<TxIdx>, r: seq<TxIdx>, q: seq<TxIdx>)
    requires MovedGood(g, s, r) && NoWorse(g.fees, q, r)
    ensures MovedGood(g, s, q)
  {
    hide NoWorse, ValidBy, Moved;
    forall k: nat | k < |s| && ValidBy(g.anc, Moved(s, k)) ensures NoWorse(g.fees, q, Moved(s, k)) {
      NoWorseTrans(g.fees, q, r, Moved(s, k));
    }
  }

  /** With its fees, `better` is no worse than `lin` was when transaction `t` paid `fee`. */
  ghost predicate NoWorseThan(fees: Fees, better: seq<TxIdx>, t: TxIdx, fee: int, lin: seq<TxIdx>)
    requires t in fees
  {
    var lower := fees[t := FeeFrac(fee, fees[t].size)];
    forall lam: real, k: nat | k <= |lin| :: SomePrefixEarns(fees, lam, better, Surplus(lower, lam, Elems(lin[..k])))
  }

  /** An order no worse than another is no worse than the other was when a transaction paid less for the same size. */
  lemma {:induction false} RaisedFee(fees: Fees, better: seq<TxIdx>, t: TxIdx, fee: int, lin: seq<TxIdx>)
    requires t in fees && fee <= fees[t].fee && NoWorse(fees, better, lin)
    ensures NoWorseThan(fees, better, t, fee, lin)
  {
    hide Surplus;
    var lower := fees[t := FeeFrac(fee, fees[t].size)];
    assert lower[t := FeeFrac(fees[t].fee, lower[t].size)] == fees;
    forall lam: real, k: nat | k <= |lin| ensures SomePrefixEarns(fees, lam, better, Surplus(lower, lam, Elems(lin[..k]))) {
      RaisedSurplus(lower, t, fees[t].fee, lam, Elems(lin[..k]));
      assert SomePrefixEarns(fees, lam, better, Surplus(fees, lam, Elems(lin[..k])));
      var m: nat :| PrefixEarns(fees, lam, better, m, Surplus(fees, lam, Elems(lin[..k])));
      Earns(fees, lam, better, m, Surplus(lower, lam, Elems(lin[..k])));
    }
  }

  lemma {:induction false} RaisedSurplus(fees: Fees, t: TxIdx, fee: int, lam: real, s: Txs)
    requires t in fees && fee >= fees[t].fee
    ensures Surplus(fees[t := FeeFrac(fee, fees[t].size)], lam, s) >= Surplus(fees, lam, s)
  {
    var raised := fees[t := FeeFrac(fee, fees[t].size)];
    hide Surplus;
    RaisedOthers(fees, t, fee, lam, s - {t});
    if t in s {
      SurplusUnion(fees, lam, s - {t}, {t});
      SurplusUnion(raised, lam, s - {t}, {t});
      assert (s - {t}) + {t} == s;
      RaisedOne(fees, t, fee, lam);
    } else {
      assert s - {t} == s;
    }
  }

  lemma {:induction false} RaisedOne(fees: Fees, t: TxIdx, fee: int, lam: real)
    requires t in fees && fee >= fees[t].fee
    ensures Surplus(fees[t := FeeFrac(fee, fees[t].size)], lam, {t}) >= Surplus(fees, lam, {t})
  {
    hide Total;
    var raised := fees[t := FeeFrac(fee, fees[t].size)];
    TotalSingleton(fees, t);
    TotalSingleton(raised, t);
    MoreFee(lam, FracOf(fees, t), FracOf(raised, t));
  }

  lemma {:induction false} MoreFee(lam: real, f: FeeFrac, g: FeeFrac)
    requires g.fee >= f.fee && g.size == f.size
    ensures SurplusOf(lam, g) >= SurplusOf(lam, f)
  {
    var more := FeeFrac(g.fee - f.fee, 0);
    assert g == f.Plus(more);
    SurplusPlus(lam, f, more);
    assert SurplusOf(lam, more) == more.fee as real;
  }

  lemma {:induction false} RaisedOthers(fees: Fees, t: TxIdx, fee: int, lam: real, s: Txs)
    requires t in fees && t !in s
    ensures Surplus(fees[t := FeeFrac(fee, fees[t].size)], lam, s) == Surplus(fees, lam, s)
  {
    var raised := fees[t := FeeFrac(fee, fees[t].size)];
    SumEqual(FeeOf(raised), FeeOf(fees), s);
    SumEqual(SizeOf(raised), SizeOf(fees), s);
  }

  /**
   Improve a linearization in place. `range` is the number of positions of the graph. The result is
   a valid linearization of the same transactions, and no worse. Its chunks are connected. If no
   transaction has more than one parent, or none more than one child, it is optimal. And it is no
   worse than the order was before its last transaction was moved to the end and, possibly, its fee
   was raised.
   */
  method PostLinearize(g: Graph, range: nat, lin: array<TxIdx>)
    requires ValidGraph(g) && InRange(g, range) && ValidOrder(g, lin[..])
    modifies lin
    ensures ValidOrder(g, lin[..]) && NoWorse(g.fees, lin[..], old(lin[..]))
    ensures ConnectedChunks(g, lin[..])
    ensures OneParent(g) || OneChild(g) ==> OptimalOrder(g, lin[..])
    ensures forall k: nat, fee: int | k < |old(lin[..])| && ValidOrder(g, Moved(old(lin[..]), k)) && fee <= LastFee(g, old(lin[..])) ::
              MovedAndRaised(g, lin[..], old(lin[..]), k, fee)
  {
    hide ClosedGraph, ValidBy, Unique, Elems, Acyclic, NoWorse, ValidOrder, PositiveSizes, Shaped, MovedOk, Flat;
    hide OneParent, OneChild, OptimalBy, OptimalOrder, ConnectedChunks, MovedGood, Moved, Rev;
    var entries := seq(range + 1, _ => TxEntry(0, 0, 0, {}, {}, FeeFrac(0, 0)));
    ghost var before := lin[..];
    OrderIsValid(g, before);
    NoWorseItself(g.fees, before);
    ValidUnique(g.anc, before);
    for pass := 0 to 2
      invariant |entries| == range + 1 && entries[0].feerate == FeeFrac(0, 0)
      invariant ValidBy(g.anc, lin[..]) && Elems(lin[..]) == g.anc.Keys && NoWorse(g.fees, lin[..], before)
      invariant pass == 0 ==> lin[..] == before
      invariant pass > 0 ==> MovedGood(g, before, lin[..]) && (OneParent(g) ==> OptimalBy(PassOf(g, false), lin[..]))
      invariant pass > 1 ==> ConnectedChunks(g, lin[..]) && (OneChild(g) ==> OptimalBy(PassOf(g, false), lin[..]))
    {
      ghost var s := lin[..];
      ghost var l;
      entries, l := RunPass(g, pass == 0, lin, entries);
      NoWorseTrans(g.fees, lin[..], s, before);
      if pass == 0 {
        MovedBack(g, before, l);
        if OneParent(g) { BackwardOptimal(g, l); }
      } else {
        ShapedConnected(g, l);
        MovedStays(g, before, s, lin[..]);
        if OneParent(g) { StaysOptimal(PassOf(g, false), lin[..], s); }
        if OneChild(g) { ForwardOptimal(g, l); }
      }
    }
    Guaranteed(g, before, lin[..]);
  }

  lemma {:induction false} Guaranteed(g: Graph, before: seq<TxIdx>, lin: seq<TxIdx>)
    requires ClosedGraph(g) && ValidBy(g.anc, lin) && Elems(lin) == g.anc.Keys && NoWorse(g.fees, lin, before) && MovedGood(g, before, lin)
    requires OneParent(g) || OneChild(g) ==> OptimalBy(PassOf(g, false), lin)
    ensures ValidOrder(g, lin) && NoWorse(g.fees, lin, before)
    ensures OneParent(g) || OneChild(g) ==> OptimalOrder(g, lin)
    ensures forall k: nat, fee: int | k < |before| && ValidOrder(g, Moved(before, k)) && fee <= LastFee(g, before) :: MovedAndRaised(g, lin, before, k, fee)
  {
    hide ClosedGraph, ValidBy, Elems, NoWorse, ValidOrder, OneParent, OneChild, OptimalBy, OptimalOrder, Moved;
    OrderIsValid(g, lin);
    if OneParent(g) || OneChild(g) { OptimalIsOrder(g, lin); }
    hide NoWorseThan;
    forall k: nat, fee: int | k < |before| && ValidOrder(g, Moved(before, k)) && fee <= LastFee(g, before) ensures MovedAndRaised(g, lin, before, k, fee) {
      OrderIsValid(g, Moved(before, k));
      LastThere(g, before, k);
      RaisedFee(g.fees, lin, before[|before| - 1], fee, Moved(before, k));
    }
  }

  lemma {:induction false} OrderIsValid(g: Graph, lin: seq<TxIdx>)
    ensures ValidOrder(g, lin) <==> ValidBy(g.anc, lin) && Elems(lin) == g.anc.Keys
  {}
}
