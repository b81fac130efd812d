/**
 The mathematical content of a spanning-forest state: which dependencies are active, the chunk
 every transaction is in, and the top set of every active dependency.

 Connectivity is stated without paths: a set is connected when no proper non-empty part of it is
 closed under the edges inside it.
 */
module Forests {
  import opened FeeRates

  /** A dependency of `child` on `parent`. */
  datatype Dep = Dep(parent: TxIdx, child: TxIdx)

  type Txs = set<TxIdx>

  ghost predicate Inside(e: Dep, s: Txs) {
    e.parent in s && e.child in s
  }

  /** `t` is a non-empty part of `s` that no edge inside `s` leaves. */
  ghost predicate ClosedPart(edges: set<Dep>, s: Txs, t: Txs) {
    && t <= s && t != {}
    && forall e <- edges | Inside(e, s) :: e.parent in t <==> e.child in t
  }

  ghost predicate Connected(edges: set<Dep>, s: Txs) {
    s != {} && forall t: Txs :: ClosedPart(edges, s, t) ==> t == s
  }

  type Chunks = map<TxIdx, Txs>

  /** `ch` maps every transaction to the block of a partition of `txs` that holds it. */
  ghost predicate Partitions(txs: Txs, ch: Chunks) {
    && ch.Keys == txs
    && (forall v <- ch :: v in ch[v] && ch[v] <= txs)
    && (forall v <- ch, u <- ch | u in ch[v] :: ch[u] == ch[v])
  }

  datatype Forest = Forest(active: set<Dep>, top: map<Dep, Txs>, chunk: Chunks)

  /** `t` is the part on the parent's side when `e` is cut: `e` enters it and nothing else leaves it. */
  ghost predicate TopSet(edges: set<Dep>, chunk: Txs, e: Dep, t: Txs) {
    && e.parent in t && e.child in chunk && e.child !in t && t <= chunk
    && (forall d <- edges | d != e :: d.parent in t <==> d.child in t)
    && Connected(edges - {e}, t)
  }

  ghost predicate HasTop(f: Forest, e: Dep) {
    e in f.top && e.parent in f.chunk && TopSet(f.active, f.chunk[e.parent], e, f.top[e])
  }

  /** `ch` is the partition of `txs` into the components that `edges` connects. */
  ghost predicate Components(txs: Txs, edges: set<Dep>, ch: Chunks) {
    && Partitions(txs, ch)
    && (forall e <- edges :: Inside(e, txs))
    && (forall e <- edges :: ch[e.parent] == ch[e.child])
    && (forall v <- ch :: Connected(edges, ch[v]))
  }

  ghost predicate ValidForest(txs: Txs, deps: set<Dep>, f: Forest) {
    && f.active <= deps && (forall e <- deps :: Inside(e, txs))
    && Components(txs, f.active, f.chunk)
    && f.top.Keys == f.active
    && (forall e <- f.active :: HasTop(f, e))
  }

  // ----- Connectivity

  /** Connectivity of a set depends only on the edges inside it. */
  lemma {:induction false} ConnectedByInnerEdges(a: set<Dep>, b: set<Dep>, s: Txs)
    requires Connected(a, s)
    requires forall e <- a | Inside(e, s) :: e in b
    ensures Connected(b, s)
  {
    forall t: Txs | ClosedPart(b, s, t) ensures t == s {
      assert ClosedPart(a, s, t);
    }
  }

  /** A closed part that meets a connected set holds all of it. */
  lemma {:induction false} TouchedWhole(edges: set<Dep>, whole: Txs, u: Txs, s: Txs, x: TxIdx)
    requires ClosedPart(edges, whole, u) && s <= whole && Connected(edges, s) && x in s && x in u
    ensures s <= u
  {
    assert x in u * s;
    assert ClosedPart(edges, s, u * s);
  }

  /** Two connected sets joined by an edge form a connected set. */
  lemma {:induction false} JoinConnected(edges: set<Dep>, s: Txs, t: Txs, e: Dep)
    requires Connected(edges, s) && Connected(edges, t) && e in edges
    requires (e.parent in s && e.child in t) || (e.parent in t && e.child in s)
    ensures Connected(edges, s + t)
  {
    forall u: Txs | ClosedPart(edges, s + t, u) ensures u == s + t {
      var x :| x in u;
      if x in s {
        TouchedWhole(edges, s + t, u, s, x);
        TouchedWhole(edges, s + t, u, t, if e.parent in t then e.parent else e.child);
      } else {
        TouchedWhole(edges, s + t, u, t, x);
        TouchedWhole(edges, s + t, u, s, if e.parent in s then e.parent else e.child);
      }
    }
  }

  /** What lies on the child's side of a cut edge is connected as well. */
  lemma {:induction false} BottomConnected(edges: set<Dep>, chunk: Txs, e: Dep, t: Txs)
    requires Connected(edges, chunk) && e in edges && TopSet(edges, chunk, e, t)
    ensures Connected(edges - {e}, chunk - t)
  {
    var b := chunk - t;
    assert e.child in b;
    forall u: Txs | ClosedPart(edges - {e}, b, u) ensures u == b {
      var w := if e.child in u then u + t else u;
      forall d <- edges | Inside(d, chunk) ensures d.parent in w <==> d.child in w {
        if d != e {
          assert d in edges - {e};
          assert d.parent in t <==> d.child in t;
          if d.parent !in t { assert Inside(d, b); }
        }
      }
      assert ClosedPart(edges, chunk, w);
      assert w == chunk;
    }
  }

  /** A closed connected set that holds the parent is the top set: it is determined by the edges. */
  lemma {:induction false} TopSetUnique(edges: set<Dep>, chunk: Txs, e: Dep, t: Txs, s: Txs)
    requires TopSet(edges, chunk, e, t)
    requires TopSet(edges, chunk, e, s)
    ensures s == t
  {
    assert e.parent in s * t;
    assert ClosedPart(edges - {e}, s, s * t);
    assert ClosedPart(edges - {e}, t, s * t);
  }

  // ----- Activating a dependency

  function MergeChunks(ch: Chunks, a: Txs, b: Txs): Chunks {
    map v | v in ch :: if v in a || v in b then a + b else ch[v]
  }

  /** Top set of an edge after the chunks `p` and `c` are joined by `e`. */
  function GrownTop(t: Txs, e: Dep, p: Txs, c: Txs): Txs {
    if e.parent in t then t + c else if e.child in t then t + p else t
  }

  ghost function AddEdge(f: Forest, e: Dep): Forest
    requires e.parent in f.chunk && e.child in f.chunk && f.top.Keys == f.active
  {
    var p, c := f.chunk[e.parent], f.chunk[e.child];
    Forest(f.active + {e},
           map d | d in f.active + {e} :: if d == e then p else GrownTop(f.top[d], e, p, c),
           MergeChunks(f.chunk, p, c))
  }

  lemma {:induction false} MergePartitions(txs: Txs, ch: Chunks, u: TxIdx, v: TxIdx)
    requires Partitions(txs, ch) && u in ch && v in ch
    ensures Partitions(txs, MergeChunks(ch, ch[u], ch[v]))
  {}

  lemma {:induction false} ChunksDisjoint(txs: Txs, ch: Chunks, u: TxIdx, v: TxIdx)
    requires Partitions(txs, ch) && u in ch && v in ch && ch[u] != ch[v]
    ensures ch[u] !! ch[v]
  {}

  lemma {:induction false} MergedConnected(txs: Txs, edges: set<Dep>, ch: Chunks, e: Dep, v: TxIdx)
    requires Components(txs, edges, ch) && Inside(e, txs) && v in ch
    ensures Connected(edges + {e}, MergeChunks(ch, ch[e.parent], ch[e.child])[v])
  {
    var p, c := ch[e.parent], ch[e.child];
    if v in p || v in c {
      ConnectedByInnerEdges(edges, edges + {e}, p);
      ConnectedByInnerEdges(edges, edges + {e}, c);
      JoinConnected(edges + {e}, p, c, e);
    } else {
      ConnectedByInnerEdges(edges, edges + {e}, ch[v]);
    }
  }

  lemma {:induction false} MergeComponents(txs: Txs, edges: set<Dep>, ch: Chunks, e: Dep)
    requires Components(txs, edges, ch) && Inside(e, txs)
    ensures Components(txs, edges + {e}, MergeChunks(ch, ch[e.parent], ch[e.child]))
  {
    hide Connected;
    var r := MergeChunks(ch, ch[e.parent], ch[e.child]);
    MergePartitions(txs, ch, e.parent, e.child);
    forall d <- edges + {e} ensures Inside(d, txs) && r[d.parent] == r[d.child] {
      if d != e {
        assert ch[d.parent] == ch[d.child];
      }
    }
    forall v <- r ensures Connected(edges + {e}, r[v]) {
      MergedConnected(txs, edges, ch, e, v);
    }
  }

  /** The top set of `d`, in the chunk `x`, once `e` joins the chunks `p` and `c`. */
  lemma {:induction false} GrownTopValid(edges: set<Dep>, e: Dep, d: Dep, p: Txs, c: Txs, x: Txs, t: Txs)
    requires e.parent in p && e.child in c && p !! c && (x == p || x == c || (x !! p && x !! c))
    requires Connected(edges, p) && Connected(edges, c)
    requires forall a <- edges :: a.parent in p <==> a.child in p
    requires forall a <- edges :: a.parent in c <==> a.child in c
    requires d in edges && TopSet(edges, x, d, t)
    ensures TopSet(edges + {e}, if x == p || x == c then p + c else x, d, GrownTop(t, e, p, c))
  {
    var rest := edges + {e} - {d};
    ConnectedByInnerEdges(edges - {d}, rest, t);
    if e.parent in t {
      ConnectedByInnerEdges(edges, rest, c);
      JoinConnected(rest, t, c, e);
    } else if e.child in t {
      ConnectedByInnerEdges(edges, rest, p);
      JoinConnected(rest, t, p, e);
    }
  }

  lemma {:induction false} NewTopValid(txs: Txs, deps: set<Dep>, f: Forest, e: Dep)
    requires ValidForest(txs, deps, f)
    requires e in deps && f.chunk[e.parent] != f.chunk[e.child]
    ensures e !in f.active
    ensures TopSet(f.active + {e}, f.chunk[e.parent] + f.chunk[e.child], e, f.chunk[e.parent])
  {
    ChunksDisjoint(txs, f.chunk, e.parent, e.child);
    assert f.active + {e} - {e} == f.active;
  }

  lemma {:induction false} OldTopValid(txs: Txs, deps: set<Dep>, f: Forest, e: Dep, d: Dep)
    requires ValidForest(txs, deps, f)
    requires e in deps && f.chunk[e.parent] != f.chunk[e.child] && d in f.active
    ensures var p, c := f.chunk[e.parent], f.chunk[e.child];
            TopSet(f.active + {e}, MergeChunks(f.chunk, p, c)[d.parent], d, GrownTop(f.top[d], e, p, c))
  {
    var p, c, x := f.chunk[e.parent], f.chunk[e.child], f.chunk[d.parent];
    ChunksDisjoint(txs, f.chunk, e.parent, e.child);
    if x != p { ChunksDisjoint(txs, f.chunk, d.parent, e.parent); }
    if x != c { ChunksDisjoint(txs, f.chunk, d.parent, e.child); }
    GrownTopValid(f.active, e, d, p, c, x, f.top[d]);
  }

  lemma {:induction false} AddEdgeTop(txs: Txs, deps: set<Dep>, f: Forest, e: Dep, d: Dep)
    requires ValidForest(txs, deps, f)
    requires e in deps && f.chunk[e.parent] != f.chunk[e.child] && (d == e || d in f.active)
    ensures HasTop(AddEdge(f, e), d)
  {
    NewTopValid(txs, deps, f, e);
    if d != e { OldTopValid(txs, deps, f, e, d); }
  }

  /** Activating a dependency between two chunks keeps the whole forest invariant. */
  lemma {:induction false} AddEdgeValid(txs: Txs, deps: set<Dep>, f: Forest, e: Dep)
    requires ValidForest(txs, deps, f)
    requires e in deps && f.chunk[e.parent] != f.chunk[e.child]
    ensures ValidForest(txs, deps, AddEdge(f, e))
  {
    hide Connected, TopSet;
    MergeComponents(txs, f.active, f.chunk, e);
    forall d <- AddEdge(f, e).active ensures HasTop(AddEdge(f, e), d) == true {
      AddEdgeTop(txs, deps, f, e, d);
    }
  }

  // ----- Deactivating a dependency

  function SplitChunk(ch: Chunks, t: Txs, b: Txs): Chunks {
    map v | v in ch :: if v in t then t else if v in b then b else ch[v]
  }

  /** Top set of an edge `d` after `e` is cut, leaving `t` on the parent's side and `b` on the child's. */
  function ShrunkTop(s: Txs, d: Dep, e: Dep, t: Txs, b: Txs): Txs {
    if d.parent in t then (if e.parent in s then s - b else s)
    else (if e.child in s then s - t else s)
  }

  ghost function RemoveEdge(f: Forest, e: Dep): Forest
    requires e in f.active && e.parent in f.chunk && f.top.Keys == f.active
  {
    var t := f.top[e];
    var b := f.chunk[e.parent] - t;
    Forest(f.active - {e},
           map d | d in f.active - {e} :: ShrunkTop(f.top[d], d, e, t, b),
           SplitChunk(f.chunk, t, b))
  }

  /**
   Cutting `e`, whose ends are `a` in `near` and `z` in `far`, leaves of the top set `s` of an edge
   `d` inside `near` exactly its part in `near`.
   */
  lemma {:induction false} CutTop(edges: set<Dep>, e: Dep, d: Dep, a: TxIdx, z: TxIdx, near: Txs, far: Txs, s: Txs)
    requires e in edges && d in edges && d != e
    requires (e.parent == a && e.child == z) || (e.parent == z && e.child == a)
    requires a in near && z in far && near !! far && Inside(d, near)
    requires Connected(edges - {e}, far)
    requires forall x <- edges | x != e :: x.parent in far <==> x.child in far
    requires TopSet(edges, near + far, d, s)
    ensures TopSet(edges - {e}, near, d, if a in s then s - far else s)
    ensures a in s ==> far <= s
  {
    assert !Inside(d, far);
    assert a in s <==> z in s by {
      assert e.parent in s <==> e.child in s;
    }
    if s * far != {} {
      forall x <- edges - {e} | Inside(x, far) ensures x.parent in s * far <==> x.child in s * far {}
      assert ClosedPart(edges - {e}, far, s * far);
      assert s * far == far;
      assert z in s;
    }
    if a !in s {
      forall x <- s ensures x in near { assert x !in s * far; }
    } else {
      assert z in s * far;
    }
    var r := if a in s then s - far else s;
    var rest := edges - {e} - {d};
    forall u: Txs | ClosedPart(rest, r, u) ensures u == r {
      var w := if a in u then u + (s * far) else u;
      forall x <- edges - {d} | Inside(x, s) ensures x.parent in w <==> x.child in w {
        if x != e {
          assert x in rest;
          assert x.parent in far <==> x.child in far;
          if x.parent !in far { assert Inside(x, r); }
        }
      }
      assert ClosedPart(edges - {d}, s, w);
      assert w == s;
    }
  }

  lemma {:induction false} ShrunkTopValid(txs: Txs, deps: set<Dep>, f: Forest, e: Dep, d: Dep)
    requires ValidForest(txs, deps, f)
    requires e in f.active && d in f.active && d != e
    ensures HasTop(RemoveEdge(f, e), d)
    ensures var t, b, s := f.top[e], f.chunk[e.parent] - f.top[e], f.top[d];
            && (d.parent in t && e.parent in s ==> b <= s)
            && (d.parent in b && e.child in s ==> t <= s)
  {
    var x, t := f.chunk[e.parent], f.top[e];
    var b := x - t;
    var s := f.top[d];
    var r := RemoveEdge(f, e);
    assert TopSet(f.active, x, e, t);
    BottomConnected(f.active, x, e, t);
    if d.parent in t {
      assert d.child in t;
      assert f.chunk[d.parent] == x == t + b;
      CutTop(f.active, e, d, e.parent, e.child, t, b, s);
    } else if d.parent in x {
      assert f.chunk[d.parent] == x == b + t;
      assert d.child in b;
      CutTop(f.active, e, d, e.child, e.parent, b, t, s);
    } else {
      assert f.chunk[d.parent] != x;
      assert TopSet(f.active, f.chunk[d.parent], d, s);
      assert !Inside(e, s);
      ConnectedByInnerEdges(f.active - {d}, r.active - {d}, s);
    }
  }

  lemma {:induction false} SplitPartitions(txs: Txs, ch: Chunks, v: TxIdx, t: Txs)
    requires Partitions(txs, ch) && v in ch && t <= ch[v]
    ensures Partitions(txs, SplitChunk(ch, t, ch[v] - t))
  {}

  lemma {:induction false} SplitConnected(txs: Txs, edges: set<Dep>, ch: Chunks, e: Dep, t: Txs, v: TxIdx)
    requires Components(txs, edges, ch) && e in edges && TopSet(edges, ch[e.parent], e, t) && v in ch
    ensures Connected(edges - {e}, SplitChunk(ch, t, ch[e.parent] - t)[v])
  {
    if v in ch[e.parent] {
      BottomConnected(edges, ch[e.parent], e, t);
    } else {
      assert !Inside(e, ch[v]);
      ConnectedByInnerEdges(edges, edges - {e}, ch[v]);
    }
  }

  lemma {:induction false} SplitSameSide(txs: Txs, edges: set<Dep>, ch: Chunks, e: Dep, t: Txs, d: Dep)
    requires Components(txs, edges, ch) && e in edges && TopSet(edges, ch[e.parent], e, t) && d in edges && d != e
    ensures Inside(d, txs) && SplitChunk(ch, t, ch[e.parent] - t)[d.parent] == SplitChunk(ch, t, ch[e.parent] - t)[d.child]
  {
    hide Connected;
    assert ch[d.parent] == ch[d.child];
  }

  lemma {:induction false} SplitComponents(txs: Txs, edges: set<Dep>, ch: Chunks, e: Dep, t: Txs)
    requires Components(txs, edges, ch) && e in edges && TopSet(edges, ch[e.parent], e, t)
    ensures Components(txs, edges - {e}, SplitChunk(ch, t, ch[e.parent] - t))
  {
    assert t <= ch[e.parent];
    hide Connected, TopSet;
    var r := SplitChunk(ch, t, ch[e.parent] - t);
    SplitPartitions(txs, ch, e.parent, t);
    forall d <- edges - {e} ensures Inside(d, txs) && r[d.parent] == r[d.child] {
      SplitSameSide(txs, edges, ch, e, t, d);
    }
    forall v <- r ensures Connected(edges - {e}, r[v]) {
      SplitConnected(txs, edges, ch, e, t, v);
    }
  }

  /** Deactivating a dependency splits its chunk in two and keeps the whole forest invariant. */
  lemma {:induction false} RemoveEdgeValid(txs: Txs, deps: set<Dep>, f: Forest, e: Dep)
    requires ValidForest(txs, deps, f) && e in f.active
    ensures ValidForest(txs, deps, RemoveEdge(f, e))
  {
    hide Connected, TopSet, ShrunkTop;
    assert HasTop(f, e);
    SplitComponents(txs, f.active, f.chunk, e, f.top[e]);
    forall d <- RemoveEdge(f, e).active ensures HasTop(RemoveEdge(f, e), d) == true {
      ShrunkTopValid(txs, deps, f, e, d);
    }
  }

  // ----- Consequences

  ghost function EdgesIn(f: Forest, s: Txs): set<Dep> {
    set e <- f.active | Inside(e, s)
  }

  lemma {:induction false} CutEdges(txs: Txs, deps: set<Dep>, f: Forest, e: Dep)
    requires ValidForest(txs, deps, f) && e in f.active
    ensures var x, t, r := f.chunk[e.parent], f.top[e], RemoveEdge(f, e);
            && EdgesIn(f, x) == EdgesIn(r, t) + EdgesIn(r, x - t) + {e}
            && EdgesIn(r, t) !! EdgesIn(r, x - t)
            && e !in EdgesIn(r, t) + EdgesIn(r, x - t)
            && t <= x && r.chunk[e.parent] == t && r.chunk[e.child] == x - t
  {
    assert HasTop(f, e);
    var x, t, r := f.chunk[e.parent], f.top[e], RemoveEdge(f, e);
    forall d <- EdgesIn(f, x) | d != e ensures d in EdgesIn(r, t) + EdgesIn(r, x - t) {
      assert d.parent in t <==> d.child in t;
    }
  }

  lemma {:induction false} NoEdgeNoNeighbour(edges: set<Dep>, x: Txs, v: TxIdx)
    requires Connected(edges, x) && v in x
    requires forall e <- edges :: !Inside(e, x)
    ensures x == {v}
  {
    assert ClosedPart(edges, x, {v});
  }

  lemma {:induction false} CountParts(x: Txs, t: Txs, all: set<Dep>, up: set<Dep>, down: set<Dep>, e: Dep)
    requires t <= x && all == up + down + {e} && up !! down && e !in up + down
    requires |up| == |t| - 1 && |down| == |x - t| - 1
    ensures |all| == |x| - 1
  {
    assert x == t + (x - t);
    assert |up + down| == |up| + |down|;
  }

  /** Every chunk of N transactions has exactly N - 1 active dependencies. */
  lemma {:induction false} EdgeCount(txs: Txs, deps: set<Dep>, f: Forest, v: TxIdx)
    requires ValidForest(txs, deps, f) && v in f.chunk
    ensures |EdgesIn(f, f.chunk[v])| == |f.chunk[v]| - 1
    decreases |f.active|
  {
    hide Connected, TopSet;
    var x := f.chunk[v];
    if e :| e in f.active && Inside(e, x) {
      assert f.chunk[e.parent] == x;
      SplitEdgeCount(txs, deps, f, e);
    } else {
      NoEdgeNoNeighbour(f.active, x, v);
      assert EdgesIn(f, x) == {};
    }
  }

  lemma {:induction false} SplitEdgeCount(txs: Txs, deps: set<Dep>, f: Forest, e: Dep)
    requires ValidForest(txs, deps, f) && e in f.active
    ensures |EdgesIn(f, f.chunk[e.parent])| == |f.chunk[e.parent]| - 1
    decreases |f.active|, 0
  {
    hide Connected, TopSet, HasTop;
    var x, t, r := f.chunk[e.parent], f.top[e], RemoveEdge(f, e);
    CutEdges(txs, deps, f, e);
    RemoveEdgeValid(txs, deps, f, e);
    EdgeCount(txs, deps, r, e.parent);
    EdgeCount(txs, deps, r, e.child);
    CountParts(x, t, EdgesIn(f, x), EdgesIn(r, t), EdgesIn(r, x - t), e);
  }

  lemma {:induction false} ComponentsUnique(txs: Txs, edges: set<Dep>, a: Chunks, b: Chunks, v: TxIdx)
    requires Components(txs, edges, a) && Components(txs, edges, b) && v in txs
    ensures a[v] <= b[v]
  {
    forall e <- edges ensures e.parent in b[v] <==> e.child in b[v] {
      assert b[e.parent] == b[e.child];
    }
    MeetsWhole(edges, a[v], b[v], v);
  }

  lemma {:induction false} MeetsWhole(edges: set<Dep>, s: Txs, t: Txs, v: TxIdx)
    requires Connected(edges, s) && v in s && v in t
    requires forall e <- edges :: e.parent in t <==> e.child in t
    ensures s <= t
  {
    assert v in s * t;
    assert ClosedPart(edges, s, s * t);
  }

  /** The active dependencies determine every chunk and every top set. */
  lemma {:induction false} ForestUnique(txs: Txs, deps: set<Dep>, f: Forest, g: Forest)
    requires ValidForest(txs, deps, f) && ValidForest(txs, deps, g)
    requires f.active == g.active
    ensures f == g
  {
    hide Connected, TopSet;
    forall v <- txs ensures f.chunk[v] == g.chunk[v] {
      ComponentsUnique(txs, f.active, f.chunk, g.chunk, v);
      ComponentsUnique(txs, f.active, g.chunk, f.chunk, v);
    }
    assert f.chunk == g.chunk;
    forall d <- f.active ensures f.top[d] == g.top[d] {
      assert HasTop(f, d) && HasTop(g, d);
      TopSetUnique(f.active, f.chunk[d.parent], d, f.top[d], g.top[d]);
    }
  }

  /** Deactivating what was just activated restores the forest. */
  lemma {:induction false} AddThenRemove(txs: Txs, deps: set<Dep>, f: Forest, e: Dep)
    requires ValidForest(txs, deps, f)
    requires e in deps && f.chunk[e.parent] != f.chunk[e.child]
    ensures RemoveEdge(AddEdge(f, e), e) == f
  {
    hide Connected, TopSet, HasTop, ShrunkTop, GrownTop, SplitChunk;
    NewTopValid(txs, deps, f, e);
    AddEdgeValid(txs, deps, f, e);
    RemoveEdgeValid(txs, deps, AddEdge(f, e), e);
    assert RemoveEdge(AddEdge(f, e), e).active == f.active;
    ForestUnique(txs, deps, f, RemoveEdge(AddEdge(f, e), e));
  }
}
