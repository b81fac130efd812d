/**
 The stored form of a spanning-forest state: per-transaction data, an array of sets shared by chunks
 and top sets, and reachable transactions per chunk. What it means is a `Forest`.
 */
module ForestStore {
  import opened FeeRates
  import opened Forests
  import opened DepGraphs

  type SetIdx = nat

  /** `depTop` gives, for every active child, the index of the dependency's top set. */
  datatype TxData = TxData(depTop: map<TxIdx, SetIdx>, parents: Txs, children: Txs, active: Txs, chunk: SetIdx)

  /** A set of transactions with its aggregate fee and size. */
  datatype SetInfo = SetInfo(txs: Txs, frac: FeeFrac) {
    function Join(other: SetInfo): SetInfo {
      SetInfo(txs + other.txs, frac.Plus(other.frac))
    }
    function Without(other: SetInfo): SetInfo {
      SetInfo(txs - other.txs, frac.Minus(other.frac))
    }
  }

  /** Transactions outside a chunk that its members depend on, and that depend on its members. */
  datatype Reach = Reach(up: Txs, down: Txs)

  type TxMap = map<TxIdx, TxData>

  datatype Store = Store(tx: TxMap, sets: seq<SetInfo>, reach: seq<Reach>, chunks: set<SetIdx>)

  function ReachOf(tx: TxMap, s: Txs): Reach
    requires s <= tx.Keys
  {
    Reach((set v <- s, p <- tx[v].parents :: p) - s, (set v <- s, c <- tx[v].children :: c) - s)
  }

  // ----- Representation

  ghost predicate TxOk(g: Graph, s: Store, v: TxIdx)
    requires ClosedGraph(g) && v in g.anc && v in s.tx
  {
    && s.tx[v].parents == ReducedParents(g, v)
    && s.tx[v].children == ReducedChildren(g, v)
    && s.tx[v].active <= s.tx[v].children && s.tx[v].active <= s.tx[v].depTop.Keys
    && s.tx[v].chunk in s.chunks
    && forall c <- s.tx[v].active :: s.tx[v].depTop[c] < |s.sets| && s.tx[v].depTop[c] !in s.chunks
  }

  ghost predicate TopsDistinct(tx: TxMap) {
    forall v, c, w, d | v in tx && c in tx[v].active && c in tx[v].depTop && w in tx && d in tx[w].active && d in tx[w].depTop
      && tx[v].depTop[c] == tx[w].depTop[d] :: v == w && c == d
  }

  ghost predicate ChunkOk(g: Graph, s: Store, x: SetIdx)
    requires s.tx.Keys == g.anc.Keys
  {
    && x < |s.sets| && x < |s.reach|
    && s.sets[x].txs != {} && s.sets[x].txs <= s.tx.Keys
    && (forall v <- s.tx :: v in s.sets[x].txs <==> s.tx[v].chunk == x)
    && s.reach[x] == ReachOf(s.tx, s.sets[x].txs)
  }

  ghost predicate RepOk(g: Graph, s: Store) {
    && ValidGraph(g)
    && s.tx.Keys == g.anc.Keys && |s.sets| == |s.reach|
    && (forall v <- s.tx :: TxOk(g, s, v))
    && TopsDistinct(s.tx)
    && (forall x <- s.chunks :: ChunkOk(g, s, x))
    && (forall i | 0 <= i < |s.sets| :: s.sets[i].frac == Total(g.fees, s.sets[i].txs))
  }

  // ----- Meaning

  ghost function ActiveDeps(tx: TxMap): set<Dep> {
    set p <- tx, c <- tx[p].active :: Dep(p, c)
  }

  lemma {:induction false} ActiveDep(tx: TxMap, d: Dep)
    ensures d in ActiveDeps(tx) <==> d.parent in tx && d.child in tx[d.parent].active
  {
    if d.parent in tx && d.child in tx[d.parent].active {
      assert Dep(d.parent, d.child) == d;
    }
  }

  ghost function TopIdx(s: Store, d: Dep): SetIdx {
    if d.parent in s.tx && d.child in s.tx[d.parent].depTop then s.tx[d.parent].depTop[d.child] else 0
  }

  ghost function SetTxs(s: Store, i: SetIdx): Txs {
    if i < |s.sets| then s.sets[i].txs else {}
  }

  ghost function ChunksOf(s: Store): Chunks {
    map v | v in s.tx :: SetTxs(s, s.tx[v].chunk)
  }

  ghost function Meaning(s: Store): Forest {
    Forest(ActiveDeps(s.tx),
           map d | d in ActiveDeps(s.tx) :: SetTxs(s, TopIdx(s, d)),
           ChunksOf(s))
  }

  ghost predicate ValidStore(g: Graph, s: Store) {
    RepOk(g, s) && ValidForest(g.anc.Keys, DepsOf(g), Meaning(s))
  }

  // ----- Growing and shrinking top sets

  /** The indices of the top sets of the active dependencies whose parent is in `txs`. */
  ghost function TopIdxs(tx: TxMap, txs: Txs): set<SetIdx> {
    set v <- txs, c <- (if v in tx then tx[v].active else {}) | c in tx[v].depTop :: tx[v].depTop[c]
  }

  ghost function GrowSets(sets: seq<SetInfo>, idxs: set<SetIdx>, pivot: TxIdx, add: SetInfo): seq<SetInfo> {
    seq(|sets|, i requires 0 <= i < |sets| => if i in idxs && pivot in sets[i].txs then sets[i].Join(add) else sets[i])
  }

  ghost function ShrinkSets(sets: seq<SetInfo>, idxs: set<SetIdx>, pivot: TxIdx, sub: SetInfo): seq<SetInfo> {
    seq(|sets|, i requires 0 <= i < |sets| => if i in idxs && pivot in sets[i].txs then sets[i].Without(sub) else sets[i])
  }

  function JoinReach(a: Reach, b: Reach, s: Txs): Reach {
    Reach(a.up + b.up - s, a.down + b.down - s)
  }

  /** The store after the dependency of `c` on `p` is activated. */
  ghost function Activated(s: Store, p: TxIdx, c: TxIdx): Store
    requires p in s.tx && c in s.tx && s.tx[p].chunk < |s.sets| == |s.reach| && s.tx[c].chunk < |s.sets|
  {
    var pi, ci := s.tx[p].chunk, s.tx[c].chunk;
    var top, bottom := s.sets[pi], s.sets[ci];
    var grown := GrowSets(GrowSets(s.sets, TopIdxs(s.tx, top.txs), p, bottom), TopIdxs(s.tx, bottom.txs), c, top);
    Store(map v | v in s.tx ::
            if v == p then s.tx[v].(chunk := ci, active := s.tx[v].active + {c}, depTop := s.tx[v].depTop[c := pi])
            else if v in top.txs then s.tx[v].(chunk := ci) else s.tx[v],
          grown[ci := bottom.Join(top)],
          s.reach[ci := JoinReach(s.reach[ci], s.reach[pi], bottom.txs + top.txs)],
          s.chunks - {pi})
  }

  /** The transaction data after the active dependency of `c` on `p` is cut, with top set `top` at index `pi`. */
  function CutTx(tx: TxMap, p: TxIdx, c: TxIdx, top: Txs, pi: SetIdx): TxMap {
    map v | v in tx ::
      if v == p then tx[v].(chunk := pi, active := tx[v].active - {c})
      else if v in top then tx[v].(chunk := pi) else tx[v]
  }

  /** The store after the active dependency of `c` on `p` is deactivated. */
  ghost function Deactivated(s: Store, p: TxIdx, c: TxIdx): Store
    requires p in s.tx && c in s.tx[p].depTop && s.tx[p].chunk < |s.sets| == |s.reach| && s.tx[p].depTop[c] < |s.sets|
    requires (s.sets[s.tx[p].depTop[c]].txs + s.sets[s.tx[p].chunk].txs) <= s.tx.Keys
  {
    var pi, ci := s.tx[p].depTop[c], s.tx[p].chunk;
    var top, bottom := s.sets[pi], s.sets[ci].Without(s.sets[pi]);
    var cut := CutTx(s.tx, p, c, top.txs, pi);
    var shrunk := ShrinkSets(ShrinkSets(s.sets[ci := bottom], TopIdxs(cut, top.txs), p, bottom), TopIdxs(cut, bottom.txs), c, top);
    Store(cut, shrunk,
          s.reach[pi := ReachOf(s.tx, top.txs)][ci := ReachOf(s.tx, bottom.txs)],
          s.chunks + {pi})
  }

  // ----- The parts of the invariant, one by one

  lemma {:induction false} StoreFacts(g: Graph, s: Store)
    requires RepOk(g, s)
    ensures ValidGraph(g) && s.tx.Keys == g.anc.Keys && |s.sets| == |s.reach| && TopsDistinct(s.tx)
  {}

  lemma {:induction false} TxFacts(g: Graph, s: Store, v: TxIdx)
    requires RepOk(g, s) && v in s.tx
    ensures ClosedGraph(g) && v in g.anc && TxOk(g, s, v)
  {}

  lemma {:induction false} ChunkFacts(g: Graph, s: Store, x: SetIdx)
    requires RepOk(g, s) && x in s.chunks
    ensures s.tx.Keys == g.anc.Keys && ChunkOk(g, s, x)
  {}

  lemma {:induction false} FracFact(g: Graph, s: Store, i: SetIdx)
    requires RepOk(g, s) && i < |s.sets|
    ensures s.sets[i].frac == Total(g.fees, s.sets[i].txs)
  {}

  // ----- What activating does

  lemma {:induction false} ChunkSets(g: Graph, s: Store, v: TxIdx)
    requires RepOk(g, s) && v in s.tx
    ensures s.tx[v].chunk in s.chunks && s.tx[v].chunk < |s.sets| && v in s.sets[s.tx[v].chunk].txs
    ensures ChunksOf(s)[v] == s.sets[s.tx[v].chunk].txs
  {
    assert TxOk(g, s, v);
    assert ChunkOk(g, s, s.tx[v].chunk);
  }

  /** Two transactions share a chunk index exactly if they share the chunk. */
  lemma {:induction false} SameChunk(g: Graph, s: Store, u: TxIdx, v: TxIdx)
    requires RepOk(g, s) && u in s.tx && v in s.tx
    ensures s.tx[u].chunk == s.tx[v].chunk <==> ChunksOf(s)[u] == ChunksOf(s)[v]
    ensures u in ChunksOf(s)[v] <==> s.tx[u].chunk == s.tx[v].chunk
  {
    ChunkSets(g, s, u);
    ChunkSets(g, s, v);
    assert ChunkOk(g, s, s.tx[u].chunk) && ChunkOk(g, s, s.tx[v].chunk);
  }

  lemma {:induction false} TopIdxOf(g: Graph, s: Store, d: Dep)
    requires RepOk(g, s) && d in ActiveDeps(s.tx)
    ensures d.parent in s.tx && d.child in s.tx[d.parent].active && d.child in s.tx[d.parent].depTop
    ensures TopIdx(s, d) == s.tx[d.parent].depTop[d.child] < |s.sets| && TopIdx(s, d) !in s.chunks
  {
    ActiveDep(s.tx, d);
    assert TxOk(g, s, d.parent);
  }

  /** The index of a top set tells where its dependency starts. */
  lemma {:induction false} TopIdxsWhere(tx: TxMap, d: Dep, x: Txs)
    requires TopsDistinct(tx) && d.parent in tx && d.child in tx[d.parent].active && d.child in tx[d.parent].depTop
    ensures tx[d.parent].depTop[d.child] in TopIdxs(tx, x) <==> d.parent in x
  {
    if tx[d.parent].depTop[d.child] in TopIdxs(tx, x) {
      var v, c :| v in x && v in tx && c in tx[v].active && c in tx[v].depTop && tx[v].depTop[c] == tx[d.parent].depTop[d.child];
      assert v == d.parent;
    }
  }

  lemma {:induction false} TopIdxWhere(g: Graph, s: Store, d: Dep, x: Txs)
    requires RepOk(g, s) && d in ActiveDeps(s.tx)
    ensures TopIdx(s, d) in TopIdxs(s.tx, x) <==> d.parent in x
  {
    hide RepOk;
    StoreFacts(g, s);
    TopIdxOf(g, s, d);
    TopIdxsWhere(s.tx, d, x);
  }

  /** Facts about the two chunks that an activation joins. */
  ghost predicate Joins(g: Graph, s: Store, p: TxIdx, c: TxIdx) {
    && ValidStore(g, s) && Dep(p, c) in DepsOf(g)
    && p in s.tx && c in s.tx && s.tx[p].chunk != s.tx[c].chunk
  }

  lemma {:induction false} JoinFacts(g: Graph, s: Store, p: TxIdx, c: TxIdx)
    requires Joins(g, s, p, c)
    ensures s.tx[p].chunk < |s.sets| == |s.reach| && s.tx[c].chunk < |s.sets|
    ensures var f, pi, ci := Meaning(s), s.tx[p].chunk, s.tx[c].chunk;
            && pi in s.chunks && ci in s.chunks
            && s.sets[pi].txs == f.chunk[p] && s.sets[ci].txs == f.chunk[c]
            && f.chunk[p] !! f.chunk[c] && p in f.chunk[p] && c in f.chunk[c]
            && c !in s.tx[p].active
  {
    hide DepsOf, Connected, HasTop;
    ChunkSets(g, s, p);
    ChunkSets(g, s, c);
    SameChunk(g, s, p, c);
    ChunksDisjoint(g.anc.Keys, Meaning(s).chunk, p, c);
    ActiveDep(s.tx, Dep(p, c));
  }

  /** A top set lies in the chunk of its dependency, so it avoids every other chunk. */
  lemma {:induction false} TopPlace(g: Graph, s: Store, d: Dep, v: TxIdx)
    requires ValidStore(g, s) && d in ActiveDeps(s.tx) && v in s.tx
    ensures var f := Meaning(s);
            && f.top[d] == SetTxs(s, TopIdx(s, d)) && d.parent in f.chunk
            && (d.parent in f.chunk[v] ==> f.top[d] <= f.chunk[v])
            && (d.parent !in f.chunk[v] ==> f.top[d] !! f.chunk[v])
  {
    hide Connected, DepsOf, RepOk;
    var f := Meaning(s);
    assert HasTop(f, d);
    if d.parent !in f.chunk[v] {
      ChunksDisjoint(g.anc.Keys, f.chunk, d.parent, v);
    }
  }

  lemma {:induction false} ActivatedSet(s: Store, p: TxIdx, c: TxIdx, i: SetIdx, inP: bool, inC: bool)
    requires p in s.tx && c in s.tx && s.tx[p].chunk < |s.sets| == |s.reach| && s.tx[c].chunk < |s.sets|
    requires i < |s.sets| && i != s.tx[c].chunk
    requires var pt, ct := s.sets[s.tx[p].chunk].txs, s.sets[s.tx[c].chunk].txs;
             && p in pt && c in ct && pt !! ct
             && (i in TopIdxs(s.tx, pt) <==> inP) && (i in TopIdxs(s.tx, ct) <==> inC)
             && (if inP then s.sets[i].txs <= pt else s.sets[i].txs !! pt)
             && (if inC then s.sets[i].txs <= ct else s.sets[i].txs !! ct)
    ensures var pt, ct := s.sets[s.tx[p].chunk].txs, s.sets[s.tx[c].chunk].txs;
            && |Activated(s, p, c).sets| == |s.sets|
            && Activated(s, p, c).sets[i].txs == GrownTop(s.sets[i].txs, Dep(p, c), pt, ct)
  {
    hide TopIdxs;
  }

  lemma {:induction false} ActivatedTopIdx(s: Store, p: TxIdx, c: TxIdx, d: Dep)
    requires p in s.tx && c in s.tx && s.tx[p].chunk < |s.sets| == |s.reach| && s.tx[c].chunk < |s.sets|
    requires d in ActiveDeps(s.tx) && d != Dep(p, c)
    ensures var r := Activated(s, p, c);
            d in ActiveDeps(r.tx) && TopIdx(r, d) == TopIdx(s, d)
  {
    ActiveDep(s.tx, d);
    ActiveDep(Activated(s, p, c).tx, d);
    hide GrowSets, ActiveDeps;
  }

  lemma {:induction false} ActivatedTop(g: Graph, s: Store, p: TxIdx, c: TxIdx, d: Dep)
    requires Joins(g, s, p, c) && d in ActiveDeps(s.tx)
    requires s.tx[p].chunk < |s.sets| == |s.reach| && s.tx[c].chunk < |s.sets|
    ensures var f, r := Meaning(s), Activated(s, p, c);
            && d in ActiveDeps(r.tx) && TopIdx(r, d) == TopIdx(s, d)
            && SetTxs(r, TopIdx(r, d)) == GrownTop(f.top[d], Dep(p, c), f.chunk[p], f.chunk[c])
  {
    hide RepOk, ValidForest, DepsOf, TopIdxs, GrownTop, Activated, ActiveDeps, TopIdx;
    JoinFacts(g, s, p, c);
    TopIdxOf(g, s, d);
    var f := Meaning(s);
    TopIdxWhere(g, s, d, f.chunk[p]);
    TopIdxWhere(g, s, d, f.chunk[c]);
    TopPlace(g, s, d, p);
    TopPlace(g, s, d, c);
    ActivatedTopIdx(s, p, c, d);
    ActivatedSet(s, p, c, TopIdx(s, d), d.parent in f.chunk[p], d.parent in f.chunk[c]);
  }

  lemma {:induction false} PartitionOf(g: Graph, s: Store)
    requires ValidStore(g, s)
    ensures Partitions(g.anc.Keys, Meaning(s).chunk)
  {}

  lemma {:induction false} ChunkNotTop(g: Graph, s: Store, x: SetIdx, txs: Txs)
    requires RepOk(g, s) && x in s.chunks
    ensures x !in TopIdxs(s.tx, txs)
    ensures x < |s.sets| == |s.reach|
  {
    assert ChunkOk(g, s, x);
  }

  lemma {:induction false} ActivatedOtherSet(s: Store, p: TxIdx, c: TxIdx, x: SetIdx)
    requires p in s.tx && c in s.tx && s.tx[p].chunk < |s.sets| == |s.reach| && s.tx[c].chunk < |s.sets|
    requires x < |s.sets|
    requires x !in TopIdxs(s.tx, s.sets[s.tx[p].chunk].txs) && x !in TopIdxs(s.tx, s.sets[s.tx[c].chunk].txs)
    ensures var r := Activated(s, p, c);
            && |r.sets| == |s.sets| && |r.reach| == |s.reach|
            && r.sets[x] == (if x == s.tx[c].chunk then s.sets[x].Join(s.sets[s.tx[p].chunk]) else s.sets[x])
            && r.reach[x] == (if x == s.tx[c].chunk
                              then JoinReach(s.reach[x], s.reach[s.tx[p].chunk], s.sets[x].txs + s.sets[s.tx[p].chunk].txs)
                              else s.reach[x])
  {
    hide TopIdxs;
  }

  /** Activation changes the sets of no chunk but the one that grows. */
  lemma {:induction false} ActivatedChunkSet(g: Graph, s: Store, p: TxIdx, c: TxIdx, x: SetIdx)
    requires Joins(g, s, p, c) && x in s.chunks
    requires s.tx[p].chunk < |s.sets| == |s.reach| && s.tx[c].chunk < |s.sets|
    ensures var r := Activated(s, p, c);
            && x < |r.sets| == |s.sets| && |r.reach| == |s.reach|
            && r.sets[x] == (if x == s.tx[c].chunk then s.sets[x].Join(s.sets[s.tx[p].chunk]) else s.sets[x])
            && r.reach[x] == (if x == s.tx[c].chunk
                              then JoinReach(s.reach[x], s.reach[s.tx[p].chunk], s.sets[x].txs + s.sets[s.tx[p].chunk].txs)
                              else s.reach[x])
  {
    hide RepOk, ValidForest, DepsOf, TopIdxs, Activated, Meaning;
    ChunkNotTop(g, s, x, s.sets[s.tx[p].chunk].txs);
    ChunkNotTop(g, s, x, s.sets[s.tx[c].chunk].txs);
    ActivatedOtherSet(s, p, c, x);
  }

  lemma {:induction false} ActivatedActive(s: Store, p: TxIdx, c: TxIdx)
    requires p in s.tx && c in s.tx && s.tx[p].chunk < |s.sets| == |s.reach| && s.tx[c].chunk < |s.sets|
    ensures ActiveDeps(Activated(s, p, c).tx) == ActiveDeps(s.tx) + {Dep(p, c)}
  {
    forall d ensures d in ActiveDeps(Activated(s, p, c).tx) <==> d in ActiveDeps(s.tx) + {Dep(p, c)} {
      ActiveDep(s.tx, d);
      ActiveDep(Activated(s, p, c).tx, d);
      hide ActiveDeps, GrowSets;
    }
  }

  lemma {:induction false} ActivatedTxs(s: Store, p: TxIdx, c: TxIdx, v: TxIdx)
    requires p in s.tx && c in s.tx && s.tx[p].chunk < |s.sets| == |s.reach| && s.tx[c].chunk < |s.sets| && v in s.tx
    requires p in s.sets[s.tx[p].chunk].txs
    ensures var r := Activated(s, p, c);
            && r.tx.Keys == s.tx.Keys && r.chunks == s.chunks - {s.tx[p].chunk}
            && r.tx[v].chunk == (if v in s.sets[s.tx[p].chunk].txs then s.tx[c].chunk else s.tx[v].chunk)
            && r.tx[v].parents == s.tx[v].parents && r.tx[v].children == s.tx[v].children
            && r.tx[v].active == (if v == p then s.tx[v].active + {c} else s.tx[v].active)
            && r.tx[v].depTop == (if v == p then s.tx[v].depTop[c := s.tx[p].chunk] else s.tx[v].depTop)
  {
    hide GrowSets;
  }

  lemma {:induction false} ActivatedChunkOf(g: Graph, s: Store, p: TxIdx, c: TxIdx, v: TxIdx)
    requires Joins(g, s, p, c) && v in s.tx
    requires s.tx[p].chunk < |s.sets| == |s.reach| && s.tx[c].chunk < |s.sets|
    ensures v in ChunksOf(Activated(s, p, c))
    ensures var f := Meaning(s);
            ChunksOf(Activated(s, p, c))[v] == MergeChunks(f.chunk, f.chunk[p], f.chunk[c])[v]
  {
    hide RepOk, ValidForest, DepsOf, Activated;
    var f := Meaning(s);
    JoinFacts(g, s, p, c);
    SameChunk(g, s, v, p);
    SameChunk(g, s, v, c);
    ChunkSets(g, s, v);
    ActivatedTxs(s, p, c, v);
    ActivatedChunkSet(g, s, p, c, s.tx[v].chunk);
    ActivatedChunkSet(g, s, p, c, s.tx[c].chunk);
    assert f.chunk[c] + f.chunk[p] == f.chunk[p] + f.chunk[c];
  }

  lemma {:induction false} ActivatedNewTop(g: Graph, s: Store, p: TxIdx, c: TxIdx)
    requires Joins(g, s, p, c)
    requires s.tx[p].chunk < |s.sets| == |s.reach| && s.tx[c].chunk < |s.sets|
    ensures var r := Activated(s, p, c);
            SetTxs(r, TopIdx(r, Dep(p, c))) == Meaning(s).chunk[p]
  {
    hide RepOk, ValidForest, DepsOf, Activated;
    JoinFacts(g, s, p, c);
    ActivatedTxs(s, p, c, p);
    ActivatedChunkSet(g, s, p, c, s.tx[p].chunk);
  }

  /** Activating in the store is adding the edge to the forest. */
  lemma {:induction false} ActivatedMeaning(g: Graph, s: Store, p: TxIdx, c: TxIdx)
    requires Joins(g, s, p, c)
    requires s.tx[p].chunk < |s.sets| == |s.reach| && s.tx[c].chunk < |s.sets|
    ensures Meaning(Activated(s, p, c)) == AddEdge(Meaning(s), Dep(p, c))
  {
    hide RepOk, ValidForest, DepsOf, Activated, ActiveDeps, GrownTop, SetTxs, TopIdx;
    var r, f, e := Activated(s, p, c), Meaning(s), Dep(p, c);
    var h := AddEdge(f, e);
    JoinFacts(g, s, p, c);
    ActivatedActive(s, p, c);
    ActivatedTxs(s, p, c, p);
    forall v <- s.tx ensures v in ChunksOf(r) && ChunksOf(r)[v] == h.chunk[v] {
      ActivatedChunkOf(g, s, p, c, v);
    }
    assert ChunksOf(r) == h.chunk;
    forall d <- f.active ensures SetTxs(r, TopIdx(r, d)) == GrownTop(f.top[d], e, f.chunk[p], f.chunk[c]) {
      ActivatedTop(g, s, p, c, d);
    }
    ActivatedNewTop(g, s, p, c);
    assert Meaning(r).top == h.top;
  }

  // ----- Activating keeps the representation

  lemma {:induction false} ReachSame(a: TxMap, b: TxMap, s: Txs)
    requires s <= a.Keys && s <= b.Keys
    requires forall v <- s :: a[v].parents == b[v].parents && a[v].children == b[v].children
    ensures ReachOf(a, s) == ReachOf(b, s)
  {
    var ra, rb := ReachOf(a, s), ReachOf(b, s);
    assert ra.up == rb.up;
    assert ra.down == rb.down;
  }

  lemma {:induction false} ReachJoin(tx: TxMap, a: Txs, b: Txs)
    requires a <= tx.Keys && b <= tx.Keys
    ensures JoinReach(ReachOf(tx, a), ReachOf(tx, b), a + b) == ReachOf(tx, a + b)
  {
    var l, r := JoinReach(ReachOf(tx, a), ReachOf(tx, b), a + b), ReachOf(tx, a + b);
    assert l.up == r.up;
    assert l.down == r.down;
  }

  lemma {:induction false} ActivatedTxOk(g: Graph, s: Store, p: TxIdx, c: TxIdx, v: TxIdx)
    requires Joins(g, s, p, c) && v in s.tx
    requires s.tx[p].chunk < |s.sets| == |s.reach| && s.tx[c].chunk < |s.sets|
    ensures ClosedGraph(g) && v in Activated(s, p, c).tx && v in g.anc && TxOk(g, Activated(s, p, c), v)
  {
    hide RepOk, ValidForest, DepsOf, Activated, ReducedParents, ReducedChildren, ClosedGraph, Meaning;
    TxFacts(g, s, v);
    TxFacts(g, s, p);
    ChildOf(g, s, p, c);
    JoinFacts(g, s, p, c);
    ActivatedTxs(s, p, c, v);
    ActivatedChunkSet(g, s, p, c, s.tx[c].chunk);
    InChunk(g, s, v, p);
  }

  lemma {:induction false} InChunk(g: Graph, s: Store, u: TxIdx, v: TxIdx)
    requires RepOk(g, s) && u in s.tx && v in s.tx
    ensures s.tx[v].chunk < |s.sets| && (u in s.sets[s.tx[v].chunk].txs <==> s.tx[u].chunk == s.tx[v].chunk)
  {
    hide RepOk;
    TxFacts(g, s, v);
    ChunkFacts(g, s, s.tx[v].chunk);
  }

  lemma {:induction false} ChildOf(g: Graph, s: Store, p: TxIdx, c: TxIdx)
    requires RepOk(g, s) && Dep(p, c) in DepsOf(g) && p in s.tx && c in s.tx
    ensures c in s.tx[p].children && p in s.tx[c].parents
  {
    TxFacts(g, s, p);
    TxFacts(g, s, c);
    hide RepOk, DepsOf, ReducedParents, ReducedChildren;
    DepMeaning(g, Dep(p, c));
    ReductionIsDual(g, p, c);
  }

  lemma {:induction false} DistinctWithNew(tx: TxMap, r: TxMap, p: TxIdx, c: TxIdx, pi: SetIdx)
    requires TopsDistinct(tx) && p in tx && r.Keys == tx.Keys && c !in tx[p].active
    requires forall v, a | v in tx && a in tx[v].active :: a in tx[v].depTop && tx[v].depTop[a] != pi
    requires forall v <- tx :: && r[v].active == (if v == p then tx[v].active + {c} else tx[v].active)
                               && r[v].depTop == (if v == p then tx[v].depTop[c := pi] else tx[v].depTop)
    ensures TopsDistinct(r)
  {}

  lemma {:induction false} ActivatedTopsDistinct(g: Graph, s: Store, p: TxIdx, c: TxIdx)
    requires Joins(g, s, p, c)
    requires s.tx[p].chunk < |s.sets| == |s.reach| && s.tx[c].chunk < |s.sets|
    ensures TopsDistinct(Activated(s, p, c).tx)
  {
    hide RepOk, ValidForest, DepsOf, Activated, ClosedGraph, TopsDistinct, Meaning;
    var r, pi := Activated(s, p, c), s.tx[p].chunk;
    JoinFacts(g, s, p, c);
    StoreFacts(g, s);
    forall v, a | v in s.tx && a in s.tx[v].active ensures a in s.tx[v].depTop && s.tx[v].depTop[a] != pi {
      TxFacts(g, s, v);
    }
    forall v <- s.tx ensures v in r.tx && r.tx[v].active == (if v == p then s.tx[v].active + {c} else s.tx[v].active)
      && r.tx[v].depTop == (if v == p then s.tx[v].depTop[c := pi] else s.tx[v].depTop)
    {
      ActivatedTxs(s, p, c, v);
    }
    ActivatedTxs(s, p, c, p);
    DistinctWithNew(s.tx, r.tx, p, c, pi);
  }

  lemma {:induction false} ActivatedMembers(g: Graph, s: Store, p: TxIdx, c: TxIdx, x: SetIdx, v: TxIdx)
    requires Joins(g, s, p, c) && x in s.chunks && x != s.tx[p].chunk && v in s.tx
    requires s.tx[p].chunk < |s.sets| == |s.reach| && s.tx[c].chunk < |s.sets|
    ensures v in Activated(s, p, c).tx && x < |Activated(s, p, c).sets|
    ensures v in Activated(s, p, c).sets[x].txs <==> Activated(s, p, c).tx[v].chunk == x
  {
    hide RepOk, ValidForest, DepsOf, Activated, Meaning;
    JoinFacts(g, s, p, c);
    ChunkFacts(g, s, x);
    InChunk(g, s, v, p);
    InChunk(g, s, v, c);
    ActivatedChunkSet(g, s, p, c, x);
    ActivatedTxs(s, p, c, v);
  }

  lemma {:induction false} ActivatedReach(g: Graph, s: Store, p: TxIdx, c: TxIdx, x: SetIdx)
    requires Joins(g, s, p, c) && x in s.chunks && x != s.tx[p].chunk
    requires s.tx[p].chunk < |s.sets| == |s.reach| && s.tx[c].chunk < |s.sets|
    ensures var r := Activated(s, p, c);
            && x < |r.sets| == |r.reach| && r.sets[x].txs != {} && r.sets[x].txs <= r.tx.Keys && r.tx.Keys == s.tx.Keys
            && r.reach[x] == ReachOf(r.tx, r.sets[x].txs)
  {
    hide RepOk, ValidForest, DepsOf, Activated, ReachOf, JoinReach, Meaning;
    var r, pi, ci := Activated(s, p, c), s.tx[p].chunk, s.tx[c].chunk;
    JoinFacts(g, s, p, c);
    ChunkFacts(g, s, x);
    ChunkFacts(g, s, pi);
    ActivatedChunkSet(g, s, p, c, x);
    ActivatedTxs(s, p, c, p);
    forall v <- s.tx ensures r.tx[v].parents == s.tx[v].parents && r.tx[v].children == s.tx[v].children {
      ActivatedTxs(s, p, c, v);
    }
    ReachSame(s.tx, r.tx, r.sets[x].txs);
    if x == ci { ReachJoin(s.tx, s.sets[ci].txs, s.sets[pi].txs); }
  }

  lemma {:induction false} ActivatedChunkOk(g: Graph, s: Store, p: TxIdx, c: TxIdx, x: SetIdx)
    requires Joins(g, s, p, c) && x in s.chunks && x != s.tx[p].chunk
    requires s.tx[p].chunk < |s.sets| == |s.reach| && s.tx[c].chunk < |s.sets|
    ensures Activated(s, p, c).tx.Keys == g.anc.Keys && ChunkOk(g, Activated(s, p, c), x)
  {
    hide RepOk, ValidForest, DepsOf, Activated, ReachOf, Meaning;
    StoreFacts(g, s);
    ActivatedReach(g, s, p, c, x);
    forall v <- s.tx ensures v in Activated(s, p, c).sets[x].txs <==> Activated(s, p, c).tx[v].chunk == x {
      ActivatedMembers(g, s, p, c, x, v);
    }
  }

  lemma {:induction false} GrownFrac(g: Graph, a: SetInfo, b: SetInfo)
    requires a.frac == Total(g.fees, a.txs) && b.frac == Total(g.fees, b.txs) && a.txs !! b.txs
    ensures a.Join(b).frac == Total(g.fees, a.Join(b).txs)
  {
    TotalUnion(g.fees, a.txs, b.txs);
  }

  /** A top set whose dependency starts in the chunk of `v` lies in that chunk. */
  lemma {:induction false} TopIdxsPlace(g: Graph, s: Store, v: TxIdx, i: SetIdx)
    requires ValidStore(g, s) && v in s.tx && i < |s.sets| && i in TopIdxs(s.tx, ChunksOf(s)[v])
    ensures s.sets[i].txs <= ChunksOf(s)[v]
  {
    hide RepOk, ValidForest;
    var a, b :| a in ChunksOf(s)[v] && a in s.tx && b in s.tx[a].active && b in s.tx[a].depTop && s.tx[a].depTop[b] == i;
    ActiveDep(s.tx, Dep(a, b));
    TopPlace(g, s, Dep(a, b), v);
  }

  lemma {:induction false} ActivatedFrac(g: Graph, s: Store, p: TxIdx, c: TxIdx, i: SetIdx)
    requires Joins(g, s, p, c) && i < |s.sets|
    requires s.tx[p].chunk < |s.sets| == |s.reach| && s.tx[c].chunk < |s.sets|
    ensures var r := Activated(s, p, c);
            i < |r.sets| && r.sets[i].frac == Total(g.fees, r.sets[i].txs)
  {
    hide RepOk, ValidForest, DepsOf, TopIdxs, Total;
    var pi, ci := s.tx[p].chunk, s.tx[c].chunk;
    JoinFacts(g, s, p, c);
    var top, bottom := s.sets[pi], s.sets[ci];
    FracFact(g, s, i);
    FracFact(g, s, pi);
    FracFact(g, s, ci);
    if i in TopIdxs(s.tx, top.txs) {
      TopIdxsPlace(g, s, p, i);
      GrownFrac(g, s.sets[i], bottom);
    }
    if i in TopIdxs(s.tx, bottom.txs) {
      TopIdxsPlace(g, s, c, i);
      GrownFrac(g, s.sets[i], top);
    }
    GrownFrac(g, bottom, top);
  }

  /** Activating keeps the stored form consistent and the forest valid. */
  lemma {:induction false} ActivatedValid(g: Graph, s: Store, p: TxIdx, c: TxIdx)
    requires Joins(g, s, p, c)
    requires s.tx[p].chunk < |s.sets| == |s.reach| && s.tx[c].chunk < |s.sets|
    ensures ValidStore(g, Activated(s, p, c))
    ensures Meaning(Activated(s, p, c)) == AddEdge(Meaning(s), Dep(p, c))
  {
    hide Activated, ValidForest, TxOk, ChunkOk, TopsDistinct, DepsOf, Total, ClosedGraph;
    var r := Activated(s, p, c);
    JoinFacts(g, s, p, c);
    StoreFacts(g, s);
    ActivatedMeaning(g, s, p, c);
    ActivatedTxs(s, p, c, p);
    ActivatedChunkSet(g, s, p, c, s.tx[c].chunk);
    AddEdgeValid(g.anc.Keys, DepsOf(g), Meaning(s), Dep(p, c));
    ActivatedTopsDistinct(g, s, p, c);
    forall v <- r.tx ensures TxOk(g, r, v) { ActivatedTxOk(g, s, p, c, v); }
    forall x <- r.chunks ensures ChunkOk(g, r, x) { ActivatedChunkOk(g, s, p, c, x); }
    forall i | 0 <= i < |r.sets| ensures r.sets[i].frac == Total(g.fees, r.sets[i].txs) { ActivatedFrac(g, s, p, c, i); }
  }

  // ----- What deactivating does

  ghost predicate Cuts(g: Graph, s: Store, p: TxIdx, c: TxIdx) {
    ValidStore(g, s) && Dep(p, c) in ActiveDeps(s.tx)
  }

  /** The indices and sets that a deactivation works with are in range. */
  ghost predicate CutRange(s: Store, p: TxIdx, c: TxIdx) {
    && p in s.tx && c in s.tx[p].depTop && s.tx[p].chunk < |s.sets| == |s.reach| && s.tx[p].depTop[c] < |s.sets|
    && (s.sets[s.tx[p].depTop[c]].txs + s.sets[s.tx[p].chunk].txs) <= s.tx.Keys
  }

  lemma {:induction false} CutFacts(g: Graph, s: Store, p: TxIdx, c: TxIdx)
    requires Cuts(g, s, p, c)
    ensures CutRange(s, p, c)
    ensures var f, pi, ci, e := Meaning(s), s.tx[p].depTop[c], s.tx[p].chunk, Dep(p, c);
            && pi !in s.chunks && ci in s.chunks && c in s.tx && e in f.active
            && s.sets[pi].txs == f.top[e] && s.sets[ci].txs == f.chunk[p]
            && f.top[e] <= f.chunk[p] && p in f.top[e] && c in f.chunk[p] - f.top[e]
  {
    hide Connected, RepOk, DepsOf, TopsDistinct, ValidGraph, ReachOf, ReducedParents, ReducedChildren;
    TopIdxOf(g, s, Dep(p, c));
    ChunkSets(g, s, p);
    StoreFacts(g, s);
    ChunkFacts(g, s, s.tx[p].chunk);
    assert HasTop(Meaning(s), Dep(p, c));
  }

  lemma {:induction false} CutTxs(tx: TxMap, p: TxIdx, c: TxIdx, top: Txs, pi: SetIdx, v: TxIdx)
    requires p in top && v in tx
    ensures var r := CutTx(tx, p, c, top, pi);
            && r.Keys == tx.Keys
            && r[v].chunk == (if v in top then pi else tx[v].chunk)
            && r[v].parents == tx[v].parents && r[v].children == tx[v].children && r[v].depTop == tx[v].depTop
            && r[v].active == (if v == p then tx[v].active - {c} else tx[v].active)
  {}

  lemma {:induction false} CutTopsDistinct(tx: TxMap, p: TxIdx, c: TxIdx, top: Txs, pi: SetIdx)
    requires TopsDistinct(tx)
    ensures TopsDistinct(CutTx(tx, p, c, top, pi))
  {}

  lemma {:induction false} CutActive(tx: TxMap, p: TxIdx, c: TxIdx, top: Txs, pi: SetIdx)
    requires p in tx
    ensures ActiveDeps(CutTx(tx, p, c, top, pi)) == ActiveDeps(tx) - {Dep(p, c)}
  {
    forall d ensures d in ActiveDeps(CutTx(tx, p, c, top, pi)) <==> d in ActiveDeps(tx) - {Dep(p, c)} {
      ActiveDep(tx, d);
      ActiveDep(CutTx(tx, p, c, top, pi), d);
      hide ActiveDeps;
    }
  }

  /** An index that is no top set's of the dependencies that stay active keeps its set. */
  lemma {:induction false} DeactivatedOtherSet(s: Store, p: TxIdx, c: TxIdx, i: SetIdx)
    requires CutRange(s, p, c) && i < |s.sets|
    requires var pi, ci := s.tx[p].depTop[c], s.tx[p].chunk;
             var cut := CutTx(s.tx, p, c, s.sets[pi].txs, pi);
             i !in TopIdxs(cut, s.sets[pi].txs) && i !in TopIdxs(cut, s.sets[ci].txs - s.sets[pi].txs)
    ensures var r, pi, ci := Deactivated(s, p, c), s.tx[p].depTop[c], s.tx[p].chunk;
            && |r.sets| == |s.sets| && |r.reach| == |s.reach|
            && r.sets[i] == (if i == ci then s.sets[ci].Without(s.sets[pi]) else s.sets[i])
            && (pi != ci ==> r.reach[i] == (if i == ci then ReachOf(s.tx, s.sets[ci].txs - s.sets[pi].txs)
                                            else if i == pi then ReachOf(s.tx, s.sets[pi].txs) else s.reach[i]))
  {
    hide TopIdxs, CutTx, ReachOf;
  }

  lemma {:induction false} NotRemainingTop(g: Graph, s: Store, p: TxIdx, c: TxIdx, i: SetIdx, x: Txs)
    requires Cuts(g, s, p, c) && CutRange(s, p, c)
    requires i in s.chunks || i == s.tx[p].depTop[c]
    ensures i !in TopIdxs(CutTx(s.tx, p, c, s.sets[s.tx[p].depTop[c]].txs, s.tx[p].depTop[c]), x)
  {
    hide RepOk, ValidForest, CutTx;
    CutFacts(g, s, p, c);
    var pi := s.tx[p].depTop[c];
    var cut := CutTx(s.tx, p, c, s.sets[pi].txs, pi);
    if i in TopIdxs(cut, x) {
      var v, a :| v in x && v in cut && a in cut[v].active && a in cut[v].depTop && cut[v].depTop[a] == i;
      CutTxs(s.tx, p, c, s.sets[pi].txs, pi, p);
      CutTxs(s.tx, p, c, s.sets[pi].txs, pi, v);
      RemainingTop(g, s, p, c, v, a);
    }
  }

  lemma {:induction false} RemainingTop(g: Graph, s: Store, p: TxIdx, c: TxIdx, v: TxIdx, a: TxIdx)
    requires Cuts(g, s, p, c) && CutRange(s, p, c)
    requires v in s.tx && a in s.tx[v].active && a in s.tx[v].depTop && (v != p || a != c)
    ensures s.tx[v].depTop[a] !in s.chunks && s.tx[v].depTop[a] != s.tx[p].depTop[c] && s.tx[v].depTop[a] < |s.sets|
  {
    hide RepOk, ValidForest;
    ActiveDep(s.tx, Dep(p, c));
    TxFacts(g, s, v);
    StoreFacts(g, s);
  }

  lemma {:induction false} DeactivatedSet(s: Store, p: TxIdx, c: TxIdx, i: SetIdx, inT: bool, inB: bool)
    requires CutRange(s, p, c) && i < |s.sets| && i != s.tx[p].chunk
    requires !(inT && inB)
    requires var pi, ci := s.tx[p].depTop[c], s.tx[p].chunk;
             var cut := CutTx(s.tx, p, c, s.sets[pi].txs, pi);
             && (i in TopIdxs(cut, s.sets[pi].txs) <==> inT) && (i in TopIdxs(cut, s.sets[ci].txs - s.sets[pi].txs) <==> inB)
    ensures var r, top, bottom := Deactivated(s, p, c), s.sets[s.tx[p].depTop[c]], s.sets[s.tx[p].chunk].Without(s.sets[s.tx[p].depTop[c]]);
            && |r.sets| == |s.sets|
            && r.sets[i] == (if inT && p in s.sets[i].txs then s.sets[i].Without(bottom)
                             else if inB && c in s.sets[i].txs then s.sets[i].Without(top) else s.sets[i])
  {
    hide TopIdxs, CutTx, ReachOf;
  }

  /** What is stored for the top of a dependency that stays active. */
  lemma {:induction false} DeactivatedTopInfo(g: Graph, s: Store, p: TxIdx, c: TxIdx, d: Dep)
    requires Cuts(g, s, p, c) && CutRange(s, p, c) && d in ActiveDeps(s.tx) && d != Dep(p, c)
    ensures var r, i := Deactivated(s, p, c), TopIdx(s, d);
            var top, bottom := s.sets[s.tx[p].depTop[c]], s.sets[s.tx[p].chunk].Without(s.sets[s.tx[p].depTop[c]]);
            && TopIdx(r, d) == i < |s.sets| == |r.sets|
            && r.sets[i] == (if d.parent in top.txs && p in s.sets[i].txs then s.sets[i].Without(bottom)
                             else if d.parent in bottom.txs && c in s.sets[i].txs then s.sets[i].Without(top) else s.sets[i])
  {
    hide RepOk, ValidForest, TopIdxs, ReachOf, CutTx, Deactivated, Meaning, ActiveDeps, TopsDistinct;
    var pi := s.tx[p].depTop[c];
    var t, b := s.sets[pi].txs, s.sets[s.tx[p].chunk].txs - s.sets[pi].txs;
    var cut := CutTx(s.tx, p, c, t, pi);
    CutFacts(g, s, p, c);
    StoreFacts(g, s);
    TopIdxOf(g, s, d);
    DeactivatedParts(s, p, c);
    CutTxs(s.tx, p, c, t, pi, d.parent);
    CutTopsDistinct(s.tx, p, c, t, pi);
    TopIdxsWhere(cut, d, t);
    TopIdxsWhere(cut, d, b);
    DeactivatedSet(s, p, c, TopIdx(s, d), d.parent in t, d.parent in b);
  }

  lemma {:induction false} DeactivatedTop(g: Graph, s: Store, p: TxIdx, c: TxIdx, d: Dep)
    requires Cuts(g, s, p, c) && CutRange(s, p, c) && d in ActiveDeps(s.tx) && d != Dep(p, c)
    ensures var f, r, e := Meaning(s), Deactivated(s, p, c), Dep(p, c);
            && d.parent in f.chunk
            && SetTxs(r, TopIdx(r, d)) == ShrunkTop(f.top[d], d, e, f.top[e], f.chunk[p] - f.top[e])
  {
    hide RepOk, ValidForest, Deactivated, ActiveDeps, TopIdx;
    CutFacts(g, s, p, c);
    DeactivatedTopInfo(g, s, p, c, d);
    TopPlace(g, s, d, p);
  }

  lemma {:induction false} DeactivatedParts(s: Store, p: TxIdx, c: TxIdx)
    requires CutRange(s, p, c)
    ensures var r, pi := Deactivated(s, p, c), s.tx[p].depTop[c];
            && r.tx == CutTx(s.tx, p, c, s.sets[pi].txs, pi) && r.chunks == s.chunks + {pi}
            && |r.sets| == |s.sets| && |r.reach| == |s.reach|
  {}

  lemma {:induction false} DeactivatedChunkSet(g: Graph, s: Store, p: TxIdx, c: TxIdx, x: SetIdx)
    requires Cuts(g, s, p, c) && CutRange(s, p, c) && (x in s.chunks || x == s.tx[p].depTop[c])
    ensures var r, pi, ci := Deactivated(s, p, c), s.tx[p].depTop[c], s.tx[p].chunk;
            && x < |s.sets| == |r.sets| == |r.reach|
            && r.sets[x] == (if x == ci then s.sets[ci].Without(s.sets[pi]) else s.sets[x])
            && r.reach[x] == (if x == ci then ReachOf(s.tx, s.sets[ci].txs - s.sets[pi].txs)
                              else if x == pi then ReachOf(s.tx, s.sets[pi].txs) else s.reach[x])
  {
    hide RepOk, ValidForest, Deactivated, TopIdxs, ReachOf, CutTx;
    CutFacts(g, s, p, c);
    if x in s.chunks { ChunkFacts(g, s, x); }
    NotRemainingTop(g, s, p, c, x, s.sets[s.tx[p].depTop[c]].txs);
    NotRemainingTop(g, s, p, c, x, s.sets[s.tx[p].chunk].txs - s.sets[s.tx[p].depTop[c]].txs);
    DeactivatedOtherSet(s, p, c, x);
  }

  lemma {:induction false} DeactivatedChunkOf(g: Graph, s: Store, p: TxIdx, c: TxIdx, v: TxIdx)
    requires Cuts(g, s, p, c) && CutRange(s, p, c) && v in s.tx
    ensures v in ChunksOf(Deactivated(s, p, c))
    ensures var f, e := Meaning(s), Dep(p, c);
            ChunksOf(Deactivated(s, p, c))[v] == SplitChunk(f.chunk, f.top[e], f.chunk[p] - f.top[e])[v]
  {
    hide RepOk, ValidForest, Deactivated, CutTx, ReachOf;
    var pi := s.tx[p].depTop[c];
    CutFacts(g, s, p, c);
    DeactivatedParts(s, p, c);
    CutTxs(s.tx, p, c, s.sets[pi].txs, pi, v);
    ChunkSets(g, s, v);
    SameChunk(g, s, v, p);
    DeactivatedChunkSet(g, s, p, c, s.tx[v].chunk);
    DeactivatedChunkSet(g, s, p, c, pi);
  }

  /** Deactivating in the store is removing the edge from the forest. */
  lemma {:induction false} DeactivatedMeaning(g: Graph, s: Store, p: TxIdx, c: TxIdx)
    requires Cuts(g, s, p, c) && CutRange(s, p, c)
    ensures var f, e := Meaning(s), Dep(p, c);
            e in f.active && p in f.chunk && Meaning(Deactivated(s, p, c)) == RemoveEdge(f, e)
  {
    hide RepOk, ValidForest, Deactivated, ActiveDeps, ShrunkTop, SetTxs, TopIdx, CutTx;
    var r, f, e, pi := Deactivated(s, p, c), Meaning(s), Dep(p, c), s.tx[p].depTop[c];
    CutFacts(g, s, p, c);
    DeactivatedParts(s, p, c);
    CutTxs(s.tx, p, c, s.sets[pi].txs, pi, p);
    CutActive(s.tx, p, c, s.sets[pi].txs, pi);
    var h := RemoveEdge(f, e);
    forall v <- s.tx ensures v in ChunksOf(r) && ChunksOf(r)[v] == h.chunk[v] {
      DeactivatedChunkOf(g, s, p, c, v);
    }
    assert ChunksOf(r) == h.chunk;
    forall d <- f.active | d != e ensures SetTxs(r, TopIdx(r, d)) == ShrunkTop(f.top[d], d, e, f.top[e], f.chunk[p] - f.top[e]) {
      DeactivatedTop(g, s, p, c, d);
    }
    assert Meaning(r).top == h.top;
  }

  // ----- Deactivating keeps the representation

  lemma {:induction false} DeactivatedTxOk(g: Graph, s: Store, p: TxIdx, c: TxIdx, v: TxIdx)
    requires Cuts(g, s, p, c) && CutRange(s, p, c) && v in s.tx
    ensures ClosedGraph(g) && v in Deactivated(s, p, c).tx && v in g.anc && TxOk(g, Deactivated(s, p, c), v)
  {
    hide RepOk, ValidForest, Deactivated, CutTx, ReducedParents, ReducedChildren, ClosedGraph, Meaning;
    var pi := s.tx[p].depTop[c];
    TxFacts(g, s, v);
    CutFacts(g, s, p, c);
    DeactivatedParts(s, p, c);
    CutTxs(s.tx, p, c, s.sets[pi].txs, pi, v);
    forall a <- s.tx[v].active | v != p || a != c ensures s.tx[v].depTop[a] !in s.chunks + {pi} {
      RemainingTop(g, s, p, c, v, a);
    }
  }

  lemma {:induction false} DeactivatedMembers(g: Graph, s: Store, p: TxIdx, c: TxIdx, x: SetIdx, v: TxIdx)
    requires Cuts(g, s, p, c) && CutRange(s, p, c) && (x in s.chunks || x == s.tx[p].depTop[c]) && v in s.tx
    ensures var r := Deactivated(s, p, c);
            v in r.tx && x < |r.sets| && (v in r.sets[x].txs <==> r.tx[v].chunk == x)
  {
    hide RepOk, ValidForest, Deactivated, CutTx, ReachOf;
    var pi := s.tx[p].depTop[c];
    CutFacts(g, s, p, c);
    DeactivatedParts(s, p, c);
    CutTxs(s.tx, p, c, s.sets[pi].txs, pi, v);
    DeactivatedChunkSet(g, s, p, c, x);
    InChunk(g, s, v, p);
    TxFacts(g, s, v);
    if x in s.chunks { ChunkFacts(g, s, x); }
  }

  lemma {:induction false} DeactivatedReach(g: Graph, s: Store, p: TxIdx, c: TxIdx, x: SetIdx)
    requires Cuts(g, s, p, c) && CutRange(s, p, c) && (x in s.chunks || x == s.tx[p].depTop[c])
    ensures var r := Deactivated(s, p, c);
            && x < |r.sets| == |r.reach| && r.sets[x].txs != {} && r.sets[x].txs <= r.tx.Keys && r.tx.Keys == s.tx.Keys
            && r.reach[x] == ReachOf(r.tx, r.sets[x].txs)
  {
    hide RepOk, ValidForest, Deactivated, CutTx, ReachOf, Meaning;
    var r, pi := Deactivated(s, p, c), s.tx[p].depTop[c];
    CutFacts(g, s, p, c);
    DeactivatedParts(s, p, c);
    DeactivatedChunkSet(g, s, p, c, x);
    CutTxs(s.tx, p, c, s.sets[pi].txs, pi, p);
    forall v <- s.tx ensures r.tx[v].parents == s.tx[v].parents && r.tx[v].children == s.tx[v].children {
      CutTxs(s.tx, p, c, s.sets[pi].txs, pi, v);
    }
    if x in s.chunks { ChunkFacts(g, s, x); }
    ReachSame(s.tx, r.tx, r.sets[x].txs);
  }

  lemma {:induction false} DeactivatedChunkOk(g: Graph, s: Store, p: TxIdx, c: TxIdx, x: SetIdx)
    requires Cuts(g, s, p, c) && CutRange(s, p, c) && (x in s.chunks || x == s.tx[p].depTop[c])
    ensures Deactivated(s, p, c).tx.Keys == g.anc.Keys && ChunkOk(g, Deactivated(s, p, c), x)
  {
    hide RepOk, ValidForest, Deactivated, ReachOf, Meaning;
    StoreFacts(g, s);
    DeactivatedReach(g, s, p, c, x);
    forall v <- s.tx ensures v in Deactivated(s, p, c).sets[x].txs <==> Deactivated(s, p, c).tx[v].chunk == x {
      DeactivatedMembers(g, s, p, c, x, v);
    }
  }

  lemma {:induction false} ShrunkFrac(g: Graph, a: SetInfo, b: SetInfo)
    requires a.frac == Total(g.fees, a.txs) && b.frac == Total(g.fees, b.txs) && b.txs <= a.txs
    ensures a.Without(b).frac == Total(g.fees, a.Without(b).txs)
  {
    TotalSplit(g.fees, a.txs, b.txs);
  }

  lemma {:induction false} DeactivatedTopFrac(g: Graph, s: Store, p: TxIdx, c: TxIdx, d: Dep)
    requires Cuts(g, s, p, c) && CutRange(s, p, c) && d in ActiveDeps(s.tx) && d != Dep(p, c)
    ensures var r, i := Deactivated(s, p, c), TopIdx(s, d);
            i < |r.sets| && r.sets[i].frac == Total(g.fees, r.sets[i].txs)
  {
    hide RepOk, ValidForest, Deactivated, ActiveDeps, TopIdx, Total, HasTop, RemoveEdge;
    CutFacts(g, s, p, c);
    DeactivatedTopInfo(g, s, p, c, d);
    TopPlace(g, s, d, p);
    StoreFacts(g, s);
    ShrunkTopValid(g.anc.Keys, DepsOf(g), Meaning(s), Dep(p, c), d);
    var i, pi, ci := TopIdx(s, d), s.tx[p].depTop[c], s.tx[p].chunk;
    FracFact(g, s, i);
    FracFact(g, s, pi);
    FracFact(g, s, ci);
    ShrunkFrac(g, s.sets[ci], s.sets[pi]);
    if d.parent in s.sets[pi].txs && p in s.sets[i].txs {
      ShrunkFrac(g, s.sets[i], s.sets[ci].Without(s.sets[pi]));
    } else if d.parent in s.sets[ci].txs - s.sets[pi].txs && c in s.sets[i].txs {
      ShrunkFrac(g, s.sets[i], s.sets[pi]);
    }
  }

  lemma {:induction false} DeactivatedFrac(g: Graph, s: Store, p: TxIdx, c: TxIdx, i: SetIdx)
    requires Cuts(g, s, p, c) && CutRange(s, p, c) && i < |s.sets|
    ensures var r := Deactivated(s, p, c);
            i < |r.sets| && r.sets[i].frac == Total(g.fees, r.sets[i].txs)
  {
    hide RepOk, ValidForest, Deactivated, Total, CutTx, Meaning;
    CutFacts(g, s, p, c);
    DeactivatedParts(s, p, c);
    var pi, ci := s.tx[p].depTop[c], s.tx[p].chunk;
    var t, b := s.sets[pi].txs, s.sets[ci].txs - s.sets[pi].txs;
    var cut := CutTx(s.tx, p, c, t, pi);
    FracFact(g, s, i);
    FracFact(g, s, pi);
    FracFact(g, s, ci);
    ShrunkFrac(g, s.sets[ci], s.sets[pi]);
    if i in TopIdxs(cut, t) {
      RemainingTopFrac(g, s, p, c, i, t);
    } else if i in TopIdxs(cut, b) {
      RemainingTopFrac(g, s, p, c, i, b);
    } else {
      DeactivatedOtherSet(s, p, c, i);
    }
  }

  lemma {:induction false} RemainingTopFrac(g: Graph, s: Store, p: TxIdx, c: TxIdx, i: SetIdx, x: Txs)
    requires Cuts(g, s, p, c) && CutRange(s, p, c) && i < |s.sets|
    requires i in TopIdxs(CutTx(s.tx, p, c, s.sets[s.tx[p].depTop[c]].txs, s.tx[p].depTop[c]), x)
    ensures var r := Deactivated(s, p, c);
            i < |r.sets| && r.sets[i].frac == Total(g.fees, r.sets[i].txs)
  {
    hide RepOk, ValidForest, Deactivated, Total, CutTx, ActiveDeps, Meaning;
    CutFacts(g, s, p, c);
    var pi := s.tx[p].depTop[c];
    var cut := CutTx(s.tx, p, c, s.sets[pi].txs, pi);
    CutTxs(s.tx, p, c, s.sets[pi].txs, pi, p);
    var v, a :| v in x && v in cut && a in cut[v].active && a in cut[v].depTop && cut[v].depTop[a] == i;
    CutTxs(s.tx, p, c, s.sets[pi].txs, pi, v);
    ActiveDep(s.tx, Dep(v, a));
    DeactivatedTopFrac(g, s, p, c, Dep(v, a));
  }

  /** Deactivating keeps the stored form consistent and the forest valid. */
  lemma {:induction false} DeactivatedValid(g: Graph, s: Store, p: TxIdx, c: TxIdx)
    requires Cuts(g, s, p, c) && CutRange(s, p, c)
    ensures ValidStore(g, Deactivated(s, p, c))
    ensures var f, e := Meaning(s), Dep(p, c);
            e in f.active && p in f.chunk && Meaning(Deactivated(s, p, c)) == RemoveEdge(f, e)
  {
    hide Deactivated, ValidForest, TxOk, ChunkOk, TopsDistinct, DepsOf, Total, ClosedGraph, CutTx;
    var r, pi := Deactivated(s, p, c), s.tx[p].depTop[c];
    StoreFacts(g, s);
    CutFacts(g, s, p, c);
    DeactivatedMeaning(g, s, p, c);
    RemoveEdgeValid(g.anc.Keys, DepsOf(g), Meaning(s), Dep(p, c));
    DeactivatedParts(s, p, c);
    CutTxs(s.tx, p, c, s.sets[pi].txs, pi, p);
    CutTopsDistinct(s.tx, p, c, s.sets[pi].txs, pi);
    forall v <- r.tx ensures TxOk(g, r, v) { DeactivatedTxOk(g, s, p, c, v); }
    forall x <- r.chunks ensures ChunkOk(g, r, x) { DeactivatedChunkOk(g, s, p, c, x); }
    forall i | 0 <= i < |r.sets| ensures r.sets[i].frac == Total(g.fees, r.sets[i].txs) { DeactivatedFrac(g, s, p, c, i); }
  }

  // ----- Activation and deactivation as relations between stores

  ghost predicate JoinRange(s: Store, p: TxIdx, c: TxIdx) {
    p in s.tx && c in s.tx && s.tx[p].chunk < |s.sets| == |s.reach| && s.tx[c].chunk < |s.sets|
  }

  ghost predicate Activates(s: Store, r: Store, p: TxIdx, c: TxIdx) {
    JoinRange(s, p, c) && r == Activated(s, p, c)
  }

  ghost predicate Deactivates(s: Store, r: Store, p: TxIdx, c: TxIdx) {
    CutRange(s, p, c) && r == Deactivated(s, p, c)
  }
}
