/** Producing a linearization from the chunks: dependency counts, what is ready, and why it never stalls. */
module Emitting {
  import opened Sums
  import opened FeeRates
  import opened Forests
  import opened Topology
  import opened Diagrams
  import opened Minimality
  import opened Loading
  import opened DepGraphs
  import opened ForestStore
  import opened Merging
  import opened ForestSteps
  import opened Ordering

  /** Unmet dependencies of every transaction, and of every chunk on other chunks. */
  datatype Counts = Counts(tx: map<TxIdx, int>, chunk: map<SetIdx, int>)

  // ----- What the counts mean

  /** Parents of `v` that are not out; `t` is going out and the children in `told` know. */
  ghost function Left(s: Store, out: Txs, t: TxIdx, told: Txs, v: TxIdx): Txs {
    (if v in s.tx then s.tx[v].parents else {}) - out - (if v in told then {t} else {})
  }

  ghost function LeftOutside(s: Store, out: Txs, t: TxIdx, told: Txs, x: Txs): TxIdx -> int {
    (v: TxIdx) => |Left(s, out, t, told, v) - x|
  }

  /** The number of unmet dependencies of `x` on other chunks. */
  ghost function ChunkLeft(s: Store, out: Txs, t: TxIdx, told: Txs, x: SetIdx): int {
    Sum(LeftOutside(s, out, t, told, SetTxs(s, x)), SetTxs(s, x))
  }

  ghost predicate CountsOk(s: Store, out: Txs, t: TxIdx, told: Txs, c: Counts) {
    && c.tx.Keys == s.tx.Keys && (forall v <- s.tx :: c.tx[v] == |Left(s, out, t, told, v)|)
    && c.chunk.Keys == s.chunks && (forall x <- s.chunks :: c.chunk[x] == ChunkLeft(s, out, t, told, x))
  }

  lemma {:induction false} NothingLeft(a: Txs, b: Txs)
    ensures |a - b| == 0 <==> a <= b
  {
    if a <= b {
      assert a - b == {};
    } else {
      var v :| v in a && v !in b;
      assert v in a - b;
    }
  }

  lemma {:induction false} OutsideZero(s: Store, out: Txs, x: Txs, v: TxIdx)
    requires v in s.tx
    ensures LeftOutside(s, out, 0, {}, x)(v) == 0 <==> s.tx[v].parents <= out + x
  {
    LeftAtRest(s, out, v);
    assert Left(s, out, 0, {}, v) - x == s.tx[v].parents - (out + x);
    NothingLeft(s.tx[v].parents, out + x);
  }

  lemma {:induction false} OutsideNatural(s: Store, out: Txs, x: Txs)
    ensures forall v :: LeftOutside(s, out, 0, {}, x)(v) >= 0
  {}

  lemma {:induction false} ChunkLeftZero(s: Store, out: Txs, x: SetIdx)
    requires SetTxs(s, x) <= s.tx.Keys
    ensures ChunkLeft(s, out, 0, {}, x) == 0 <==> forall v <- SetTxs(s, x) :: s.tx[v].parents <= out + SetTxs(s, x)
  {
    hide Sum, LeftOutside, Left;
    var w := LeftOutside(s, out, 0, {}, SetTxs(s, x));
    OutsideNatural(s, out, SetTxs(s, x));
    SumZero(w, SetTxs(s, x));
    forall v <- SetTxs(s, x) ensures w(v) == 0 <==> s.tx[v].parents <= out + SetTxs(s, x) {
      OutsideZero(s, out, SetTxs(s, x), v);
    }
  }

  /** A chunk has no unmet dependency on another exactly if its count is zero. */
  lemma {:induction false} ZeroChunk(s: Store, out: Txs, c: Counts, x: SetIdx)
    requires CountsOk(s, out, 0, {}, c) && x in s.chunks && SetTxs(s, x) <= s.tx.Keys
    ensures c.chunk[x] == 0 <==> forall v <- SetTxs(s, x) :: s.tx[v].parents <= out + SetTxs(s, x)
  {
    hide ChunkLeft, Left;
    ChunkLeftZero(s, out, x);
  }

  /** A transaction has no unmet dependency exactly if its count is zero. */
  lemma {:induction false} ZeroTx(s: Store, out: Txs, c: Counts, v: TxIdx)
    requires CountsOk(s, out, 0, {}, c) && v in s.tx
    ensures c.tx[v] == 0 <==> s.tx[v].parents <= out
  {
    hide ChunkLeft, Left;
    assert Left(s, out, 0, {}, v) == s.tx[v].parents - out by { LeftAtRest(s, out, v); }
    NothingLeft(s.tx[v].parents, out);
  }

  lemma {:induction false} LeftAtRest(s: Store, out: Txs, v: TxIdx)
    requires v in s.tx
    ensures Left(s, out, 0, {}, v) == s.tx[v].parents - out
  {}

  /** The counts after the child `k` of `t` has been told. */
  function CountDown(s: Store, c: Counts, t: TxIdx, k: TxIdx): Counts
    requires t in s.tx && k in s.tx && k in c.tx && s.tx[k].chunk in c.chunk
  {
    Counts(c.tx[k := c.tx[k] - 1],
           if s.tx[k].chunk != s.tx[t].chunk then c.chunk[s.tx[k].chunk := c.chunk[s.tx[k].chunk] - 1] else c.chunk)
  }

  lemma {:induction false} TellLeft(s: Store, out: Txs, t: TxIdx, told: Txs, k: TxIdx, v: TxIdx)
    ensures v != k ==> Left(s, out, t, told + {k}, v) == Left(s, out, t, told, v)
    ensures k in s.tx && t in s.tx[k].parents && t !in out && k !in told ==>
              t in Left(s, out, t, told, k) && Left(s, out, t, told + {k}, k) == Left(s, out, t, told, k) - {t}
  {}

  lemma {:induction false} TellChunk(g: Graph, s: Store, out: Txs, t: TxIdx, told: Txs, k: TxIdx, x: SetIdx)
    requires RepOk(g, s) && t in s.tx && k in s.tx && t in s.tx[k].parents && t !in out && k !in told && x in s.chunks
    ensures ChunkLeft(s, out, t, told + {k}, x) ==
            ChunkLeft(s, out, t, told, x) - (if x == s.tx[k].chunk && x != s.tx[t].chunk then 1 else 0)
  {
    hide RepOk, Sum, Left;
    var txs := SetTxs(s, x);
    var w, w' := LeftOutside(s, out, t, told, txs), LeftOutside(s, out, t, told + {k}, txs);
    ChunkIs(g, s, x, k);
    ChunkIs(g, s, x, t);
    forall v <- txs | v != k ensures w(v) == w'(v) { TellLeft(s, out, t, told, k, v); }
    if x == s.tx[k].chunk {
      TellLeft(s, out, t, told, k, k);
      var left := Left(s, out, t, told, k);
      assert left - {t} - txs == (left - txs) - {t};
      SumChange(w, w', txs, k);
    } else {
      SumEqual(w, w', txs);
    }
  }

  lemma {:induction false} ChunkLeftNatural(s: Store, out: Txs, t: TxIdx, told: Txs, x: SetIdx)
    ensures ChunkLeft(s, out, t, told, x) >= 0
  {
    SumZero(LeftOutside(s, out, t, told, SetTxs(s, x)), SetTxs(s, x));
  }

  lemma {:induction false} TellOne(g: Graph, s: Store, out: Txs, t: TxIdx, told: Txs, c: Counts, k: TxIdx)
    requires RepOk(g, s) && CountsOk(s, out, t, told, c)
    requires t in s.tx && k in s.tx && t in s.tx[k].parents && t !in out && k !in told && s.tx[k].chunk in s.chunks
    ensures CountsOk(s, out, t, told + {k}, CountDown(s, c, t, k)) && c.tx[k] > 0
    ensures s.tx[k].chunk != s.tx[t].chunk ==> c.chunk[s.tx[k].chunk] > 0
  {
    hide RepOk, ChunkLeft, Left;
    ChunkLeftNatural(s, out, t, told + {k}, s.tx[k].chunk);
    var c' := CountDown(s, c, t, k);
    TellLeft(s, out, t, told, k, k);
    forall v <- s.tx ensures c'.tx[v] == |Left(s, out, t, told + {k}, v)| {
      TellLeft(s, out, t, told, k, v);
    }
    assert c.tx[k] > 0 by { assert t in Left(s, out, t, told, k); }
    forall x <- s.chunks ensures c'.chunk[x] == ChunkLeft(s, out, t, told + {k}, x) {
      TellChunk(g, s, out, t, told, k, x);
    }
  }

  lemma {:induction false} SameLeft(s: Store, a: Txs, t: TxIdx, told: Txs, b: Txs, u: TxIdx, told': Txs, c: Counts)
    requires CountsOk(s, a, t, told, c)
    requires forall v <- s.tx :: Left(s, a, t, told, v) == Left(s, b, u, told', v)
    requires forall x <- s.chunks :: SetTxs(s, x) <= s.tx.Keys
    ensures CountsOk(s, b, u, told', c)
  {
    hide Left;
    forall x <- s.chunks ensures ChunkLeft(s, a, t, told, x) == ChunkLeft(s, b, u, told', x) {
      hide Sum;
      SumEqual(LeftOutside(s, a, t, told, SetTxs(s, x)), LeftOutside(s, b, u, told', SetTxs(s, x)), SetTxs(s, x));
    }
    hide ChunkLeft;
  }

  lemma {:induction false} ChunksInside(g: Graph, s: Store)
    requires RepOk(g, s)
    ensures forall x <- s.chunks :: SetTxs(s, x) <= s.tx.Keys
  {
    hide RepOk;
    forall x <- s.chunks ensures SetTxs(s, x) <= s.tx.Keys { ChunkMembers(g, s, x); }
  }

  lemma {:induction false} Dual(g: Graph, s: Store, t: TxIdx, v: TxIdx)
    requires RepOk(g, s) && t in s.tx && v in s.tx
    ensures v in s.tx[t].children <==> t in s.tx[v].parents
    ensures s.tx[t].children <= s.tx.Keys && s.tx[t].parents <= s.tx.Keys && s.tx[t].chunk in s.chunks
    ensures v in s.tx[t].children ==> v != t
  {
    hide RepOk, ReducedParents, ReducedChildren, TopsDistinct;
    StoreFacts(g, s);
    TxFacts(g, s, t);
    TxFacts(g, s, v);
    ReductionIsDual(g, t, v);
    NeighboursInside(g, t);
    if v in s.tx[t].children { NotOwnChild(g, t); }
  }

  lemma {:induction false} NotOwnChild(g: Graph, v: TxIdx)
    requires ClosedGraph(g) && v in g.anc
    ensures v !in ReducedChildren(g, v)
  {}

  lemma {:induction false} TellStart(g: Graph, s: Store, out: Txs, t: TxIdx, c: Counts)
    requires RepOk(g, s) && CountsOk(s, out, 0, {}, c)
    ensures CountsOk(s, out, t, {}, c)
  {
    hide RepOk, CountsOk;
    ChunksInside(g, s);
    SameLeft(s, out, 0, {}, out, t, {}, c);
  }

  lemma {:induction false} TellDone(g: Graph, s: Store, out: Txs, t: TxIdx, c: Counts)
    requires RepOk(g, s) && t in s.tx && CountsOk(s, out, t, s.tx[t].children, c)
    ensures CountsOk(s, out + {t}, 0, {}, c)
  {
    hide RepOk, CountsOk;
    ChunksInside(g, s);
    forall v <- s.tx ensures Left(s, out, t, s.tx[t].children, v) == Left(s, out + {t}, 0, {}, v) {
      Dual(g, s, t, v);
    }
    SameLeft(s, out, t, s.tx[t].children, out + {t}, 0, {}, c);
  }

  // ----- What is ready

  /** The transactions of chunk `x` that are not gone and have no unmet dependency. */
  ghost predicate ReadyTxsOk(g: Graph, s: Store, x: SetIdx, gone: Txs, c: Counts, ready: map<TxIdx, Key>) {
    && (forall v :: v in ready <==> v in SetTxs(s, x) && v !in gone && v in c.tx && c.tx[v] == 0)
    && (forall v <- ready :: ready[v] == Key(FracOf(g.fees, v), v))
  }

  /** The chunks that have not been started and have no unmet dependency. */
  ghost predicate ReadyChunksOk(s: Store, cmp: Comparator, started: set<SetIdx>, c: Counts, ready: map<SetIdx, Key>) {
    && (forall x :: x in ready <==> x in s.chunks && x !in started && x in c.chunk && c.chunk[x] == 0)
    && (forall x <- ready :: x < |s.sets| && ready[x].frac == s.sets[x].frac && IsMax(cmp, SetTxs(s, x), ready[x].tie))
  }

  /** Count the dependencies of every transaction and every chunk. */
  method CountAll(g: Graph, s: Store) returns (c: Counts)
    requires RepOk(g, s)
    ensures CountsOk(s, {}, 0, {}, c)
  {
    hide RepOk, CountsOk, CountedPart;
    c := Counts(map[], map x: SetIdx | x in s.chunks :: 0);
    var todo := s.tx.Keys;
    CountNone(s);
    while todo != {}
      invariant todo <= s.tx.Keys && CountedPart(s, s.tx.Keys - todo, c)
    {
      var v :| v in todo;
      TxInChunk(g, s, v);
      ghost var done := s.tx.Keys - todo;
      CountNext(g, s, done, c, v);
      var x := s.tx[v].chunk;
      c := Counts(c.tx[v := |s.tx[v].parents|], c.chunk[x := c.chunk[x] + |s.tx[v].parents - s.sets[x].txs|]);
      todo := todo - {v};
      assert s.tx.Keys - todo == done + {v};
    }
    assert s.tx.Keys - todo == s.tx.Keys;
    CountDone(g, s, c);
  }

  ghost function PartLeft(s: Store, done: Txs, x: SetIdx): int {
    Sum(LeftOutside(s, {}, 0, {}, SetTxs(s, x)), SetTxs(s, x) * done)
  }

  /** The counts over the transactions in `done` only. */
  ghost predicate CountedPart(s: Store, done: Txs, c: Counts) {
    && c.tx.Keys == done <= s.tx.Keys && (forall v <- done :: c.tx[v] == |s.tx[v].parents|)
    && c.chunk.Keys == s.chunks && (forall x <- s.chunks :: c.chunk[x] == PartLeft(s, done, x))
  }

  lemma {:induction false} TxInChunk(g: Graph, s: Store, v: TxIdx)
    requires RepOk(g, s) && v in s.tx
    ensures s.tx[v].chunk in s.chunks && s.tx[v].chunk < |s.sets|
  {
    hide RepOk;
    ChunkSets(g, s, v);
  }

  lemma {:induction false} CountNone(s: Store)
    ensures CountedPart(s, s.tx.Keys - s.tx.Keys, Counts(map[], map x: SetIdx | x in s.chunks :: 0))
  {
    forall x <- s.chunks ensures PartLeft(s, s.tx.Keys - s.tx.Keys, x) == 0 {
      assert SetTxs(s, x) * (s.tx.Keys - s.tx.Keys) == {};
    }
  }

  lemma {:induction false} PartLeftNext(g: Graph, s: Store, done: Txs, v: TxIdx, y: SetIdx)
    requires RepOk(g, s) && v in s.tx && v !in done && y in s.chunks
    ensures PartLeft(s, done + {v}, y) == PartLeft(s, done, y) + (if y == s.tx[v].chunk then |s.tx[v].parents - SetTxs(s, y)| else 0)
  {
    hide RepOk, Sum;
    var w := LeftOutside(s, {}, 0, {}, SetTxs(s, y));
    ChunkIs(g, s, y, v);
    var part := SetTxs(s, y) * (done + {v});
    if y == s.tx[v].chunk {
      SumRemove(w, part, v);
      assert part - {v} == SetTxs(s, y) * done;
      LeftAtRest(s, {}, v);
      assert Left(s, {}, 0, {}, v) - SetTxs(s, y) == s.tx[v].parents - SetTxs(s, y);
    } else {
      assert part == SetTxs(s, y) * done;
    }
  }

  lemma {:induction false} CountNext(g: Graph, s: Store, done: Txs, c: Counts, v: TxIdx)
    requires RepOk(g, s) && CountedPart(s, done, c) && v in s.tx && v !in done && s.tx[v].chunk in s.chunks && s.tx[v].chunk < |s.sets|
    ensures var x := s.tx[v].chunk;
            && x in c.chunk
            && CountedPart(s, done + {v}, Counts(c.tx[v := |s.tx[v].parents|], c.chunk[x := c.chunk[x] + |s.tx[v].parents - s.sets[x].txs|]))
  {
    hide RepOk, PartLeft;
    forall y <- s.chunks
      ensures PartLeft(s, done + {v}, y) == PartLeft(s, done, y) + (if y == s.tx[v].chunk then |s.tx[v].parents - SetTxs(s, y)| else 0)
    {
      PartLeftNext(g, s, done, v, y);
    }
  }

  lemma {:induction false} CountDone(g: Graph, s: Store, c: Counts)
    requires RepOk(g, s) && CountedPart(s, s.tx.Keys, c)
    ensures CountsOk(s, {}, 0, {}, c)
  {
    hide RepOk, Sum;
    forall v <- s.tx ensures c.tx[v] == |Left(s, {}, 0, {}, v)| {
      LeftAtRest(s, {}, v);
      assert s.tx[v].parents - {} == s.tx[v].parents;
    }
    ChunksInside(g, s);
    forall x <- s.chunks ensures PartLeft(s, s.tx.Keys, x) == ChunkLeft(s, {}, 0, {}, x) {
      assert SetTxs(s, x) * s.tx.Keys == SetTxs(s, x);
    }
    hide PartLeft, ChunkLeft, Left;
  }

  // ----- One transaction goes out

  lemma {:induction false} TellReadyTx(g: Graph, s: Store, x: SetIdx, gone: Txs, c: Counts, c': Counts, ready: map<TxIdx, Key>, k: TxIdx)
    requires ReadyTxsOk(g, s, x, gone, c, ready) && k in c.tx && c.tx[k] > 0 && k !in gone && c'.tx == c.tx[k := c.tx[k] - 1]
    ensures ReadyTxsOk(g, s, x, gone, c', if c'.tx[k] == 0 && k in SetTxs(s, x) then ready[k := Key(FracOf(g.fees, k), k)] else ready)
  {
    hide FracOf;
  }

  lemma {:induction false} TellReadyChunk(s: Store, cmp: Comparator, started: set<SetIdx>, c: Counts, c': Counts, ready: map<SetIdx, Key>,
                                          y: SetIdx, key: Key)
    requires ReadyChunksOk(s, cmp, started, c, ready) && y in s.chunks && y !in started && y in c.chunk && c.chunk[y] > 0
    requires c'.chunk == c.chunk[y := c.chunk[y] - 1] && y < |s.sets|
    requires c'.chunk[y] == 0 ==> key.frac == s.sets[y].frac && IsMax(cmp, SetTxs(s, y), key.tie)
    ensures ReadyChunksOk(s, cmp, started, c', if c'.chunk[y] == 0 then ready[y := key] else ready)
  {
    hide IsMax;
  }

  lemma {:induction false} ReadyChunksSame(s: Store, cmp: Comparator, started: set<SetIdx>, c: Counts, c': Counts, ready: map<SetIdx, Key>)
    requires ReadyChunksOk(s, cmp, started, c, ready) && c'.chunk == c.chunk
    ensures ReadyChunksOk(s, cmp, started, c', ready)
  {
    hide IsMax;
  }

  lemma {:induction false} CountKeys(s: Store, out: Txs, t: TxIdx, told: Txs, c: Counts)
    requires CountsOk(s, out, t, told, c)
    ensures c.tx.Keys == s.tx.Keys && c.chunk.Keys == s.chunks
  {}

  lemma {:induction false} ChunkHasTxs(g: Graph, s: Store, x: SetIdx)
    requires RepOk(g, s) && x in s.chunks
    ensures x < |s.sets| && s.sets[x].txs != {} && s.sets[x].txs <= s.tx.Keys
  {
    hide RepOk, ReachOf;
    ChunkFacts(g, s, x);
  }

  /** Transaction `t` of chunk `x` goes out: its children have one unmet dependency less. */
  method TellChildren(g: Graph, s: Store, cmp: Comparator, x: SetIdx, t: TxIdx, c0: Counts, chunks0: map<SetIdx, Key>, txs0: map<TxIdx, Key>,
                      ghost out: Txs, ghost started: set<SetIdx>)
    returns (c: Counts, chunks: map<SetIdx, Key>, txs: map<TxIdx, Key>)
    requires RepOk(g, s) && StrongOrder(cmp) && t in s.tx && s.tx[t].chunk == x && x in s.chunks && t !in out
    requires CountsOk(s, out, 0, {}, c0) && ReadyTxsOk(g, s, x, out + {t}, c0, txs0) && ReadyChunksOk(s, cmp, started, c0, chunks0)
    requires forall k <- s.tx[t].children :: k !in out && k in s.tx && (s.tx[k].chunk == x || s.tx[k].chunk !in started)
    ensures CountsOk(s, out + {t}, 0, {}, c) && ReadyTxsOk(g, s, x, out + {t}, c, txs) && ReadyChunksOk(s, cmp, started, c, chunks)
  {
    hide RepOk, CountsOk, ReadyTxsOk, ReadyChunksOk, StrongOrder, IsMax, FracOf;
    c, chunks, txs := c0, chunks0, txs0;
    ChunkHasTxs(g, s, x);
    TellStart(g, s, out, t, c);
    var todo := s.tx[t].children;
    ghost var told: Txs := {};
    while todo != {}
      invariant todo <= s.tx[t].children && told == s.tx[t].children - todo
      invariant CountsOk(s, out, t, told, c) && ReadyTxsOk(g, s, x, out + {t}, c, txs) && ReadyChunksOk(s, cmp, started, c, chunks)
    {
      var k :| k in todo;
      todo := todo - {k};
      Dual(g, s, t, k);
      Dual(g, s, k, t);
      ghost var before := c;
      var y := s.tx[k].chunk;
      ChunkHasTxs(g, s, y);
      CountKeys(s, out, t, told, c);
      TellOne(g, s, out, t, told, c, k);
      c := CountDown(s, c, t, k);
      TellReadyTx(g, s, x, out + {t}, before, c, txs, k);
      if c.tx[k] == 0 && k in s.sets[x].txs {
        txs := txs[k := Key(FracOf(g.fees, k), k)];
      }
      if y != x {
        var key := Key(s.sets[y].frac, 0);
        if c.chunk[y] == 0 {
          var tie := MaxFallback(cmp, s.sets[y].txs);
          key := Key(s.sets[y].frac, tie);
        }
        TellReadyChunk(s, cmp, started, before, c, chunks, y, key);
        if c.chunk[y] == 0 {
          chunks := chunks[y := key];
        }
      } else {
        ReadyChunksSame(s, cmp, started, before, c, chunks);
      }
      told := told + {k};
    }
    assert told == s.tx[t].children;
    TellDone(g, s, out, t, c);
  }

  // ----- One chunk goes out

  lemma {:induction false} StoredReady(g: Graph, s: Store, out: Txs, v: TxIdx)
    requires RepOk(g, s) && ClosedGraph(g)
    ensures TxReady(NetOf(g), out, v) <==> v in s.tx && v !in out && s.tx[v].parents <= out
  {
    hide RepOk, ReducedParents, ReducedChildren, DepsOf, ClosedGraph, TopsDistinct;
    StoreFacts(g, s);
    if v in s.tx {
      TxFacts(g, s, v);
      forall p <- s.tx[v].parents ensures Dep(p, v) in DepsOf(g) { DepMeaning(g, Dep(p, v)); }
      forall d <- DepsOf(g) | d.child == v ensures d.parent in s.tx[v].parents { DepMeaning(g, d); }
      if TxReady(NetOf(g), out, v) {
        forall p <- s.tx[v].parents ensures p in out { assert Dep(p, v).child == v; }
      }
    }
  }

  /** Chunk `x` is going out after `base`, and `lin` is what is out. */
  ghost predicate Underway(g: Graph, s: Store, cmp: Comparator, x: SetIdx, base: seq<TxIdx>, lin: seq<TxIdx>, started: set<SetIdx>) {
    && ClosedGraph(g) && base <= lin && TxSequence(NetOf(g), cmp, ChunksOf(s), lin)
    && x in started && started <= s.chunks && Elems(lin) <= Elems(base) + SetTxs(s, x)
    && (forall y <- started | y != x :: SetTxs(s, y) <= Elems(base))
    && (forall v <- SetTxs(s, x) :: v in s.tx && s.tx[v].parents <= Elems(base) + SetTxs(s, x))
  }

  lemma {:induction false} ChildrenStay(g: Graph, s: Store, cmp: Comparator, x: SetIdx, base: seq<TxIdx>, lin: seq<TxIdx>, started: set<SetIdx>,
                                        t: TxIdx, k: TxIdx)
    requires RepOk(g, s) && Underway(g, s, cmp, x, base, lin, started) && t in s.tx && t !in Elems(lin) && k in s.tx[t].children
    ensures k !in Elems(lin) && k in s.tx && (s.tx[k].chunk == x || s.tx[k].chunk !in started)
  {
    hide RepOk, TxSequence, ReducedParents, ReducedChildren, DepsOf, ClosedGraph, ChunksOf;
    TxSequenceClosed(NetOf(g), cmp, ChunksOf(s), lin);
    Dual(g, s, t, t);
    Dual(g, s, t, k);
    TxFacts(g, s, k);
    DepMeaning(g, Dep(t, k));
    assert Dep(t, k) in NetOf(g).deps;
    if s.tx[k].chunk in started && s.tx[k].chunk != x {
      ChunkIs(g, s, s.tx[k].chunk, k);
      PrefixElems(base, lin);
      assert false;
    }
  }

  lemma {:induction false} PrefixElems(base: seq<TxIdx>, lin: seq<TxIdx>)
    requires base <= lin
    ensures Elems(base) <= Elems(lin)
  {}

  lemma {:induction false} PoppedTx(g: Graph, s: Store, cmp: Comparator, x: SetIdx, base: seq<TxIdx>, lin: seq<TxIdx>, started: set<SetIdx>,
                                    c: Counts, ready: map<TxIdx, Key>, t: TxIdx)
    requires RepOk(g, s) && Underway(g, s, cmp, x, base, lin, started) && CountsOk(s, Elems(lin), 0, {}, c)
    requires ReadyTxsOk(g, s, x, Elems(lin), c, ready) && t in ready && forall v <- ready :: !After(cmp, ready[t], ready[v])
    ensures t in s.tx && s.tx[t].chunk == x && t !in Elems(lin) && t in SetTxs(s, x)
    ensures Underway(g, s, cmp, x, base, lin + [t], started) && Elems(lin + [t]) == Elems(lin) + {t}
    ensures ReadyTxsOk(g, s, x, Elems(lin) + {t}, c, ready - {t})
  {
    hide RepOk, After, FracOf, CountsOk, ClosedGraph, DepsOf, TxSequence, TopsDistinct;
    var n, ch, out := NetOf(g), ChunksOf(s), Elems(lin);
    CountKeys(s, out, 0, {}, c);
    ChunkIs(g, s, x, t);
    ChunkSets(g, s, t);
    ZeroTx(s, out, c, t);
    StoredReady(g, s, out, t);
    forall w <- ch[t] | TxReady(n, out, w) ensures !After(cmp, Key(FracOf(n.fees, t), t), Key(FracOf(n.fees, w), w)) {
      StoredReady(g, s, out, w);
      ZeroTx(s, out, c, w);
      assert w in ready;
    }
    assert BestTx(n, cmp, ch, out, t);
    TxSequenceNext(n, cmp, ch, lin, t);
  }

  /** As long as a transaction of the chunk is not out, some transaction of it is ready. */
  lemma {:induction false} NoStall(g: Graph, s: Store, x: Txs, base: Txs, out: Txs, v: TxIdx) returns (u: TxIdx)
    requires RepOk(g, s) && base <= out && v in x && v !in out
    requires forall w <- x :: w in s.tx && s.tx[w].parents <= base + x
    ensures u in x && u !in out && u in s.tx && s.tx[u].parents <= out
    ensures v in g.anc && u in g.anc
    decreases if v in g.anc then |g.anc[v]| else 0
  {
    hide RepOk, ReducedParents, ReducedChildren, TopsDistinct, ClosedGraph;
    StoreFacts(g, s);
    TxFacts(g, s, v);
    if s.tx[v].parents <= out {
      u := v;
    } else {
      var p :| p in s.tx[v].parents && p !in out;
      ParentBefore(g, v, p);
      u := NoStall(g, s, x, base, out, p);
    }
  }

  lemma {:induction false} ParentBefore(g: Graph, v: TxIdx, p: TxIdx)
    requires ValidGraph(g) && v in g.anc && p in ReducedParents(g, v)
    ensures p in g.anc && |g.anc[p]| < |g.anc[v]|
  {
    StrictAncestors(g, p, v);
  }

  lemma {:induction false} ChunkComplete(g: Graph, s: Store, cmp: Comparator, x: SetIdx, base: seq<TxIdx>, lin: seq<TxIdx>, started: set<SetIdx>,
                                         c: Counts)
    requires RepOk(g, s) && Underway(g, s, cmp, x, base, lin, started) && CountsOk(s, Elems(lin), 0, {}, c)
    requires ReadyTxsOk(g, s, x, Elems(lin), c, map[])
    ensures SetTxs(s, x) <= Elems(lin)
  {
    hide RepOk, CountsOk, ClosedGraph, DepsOf, TxSequence;
    PrefixElems(base, lin);
    CountKeys(s, Elems(lin), 0, {}, c);
    if v :| v in SetTxs(s, x) && v !in Elems(lin) {
      var u := NoStall(g, s, SetTxs(s, x), Elems(base), Elems(lin), v);
      ZeroTx(s, Elems(lin), c, u);
      assert false;
    }
  }

  /** The transactions of chunk `x` that are ready when its turn comes. */
  method ReadyTxs(g: Graph, s: Store, x: SetIdx, c: Counts, ghost out: Txs) returns (ready: map<TxIdx, Key>)
    requires RepOk(g, s) && x in s.chunks && CountsOk(s, out, 0, {}, c) && SetTxs(s, x) !! out
    ensures ReadyTxsOk(g, s, x, out, c, ready)
  {
    hide RepOk, CountsOk, FracOf;
    ChunkHasTxs(g, s, x);
    CountKeys(s, out, 0, {}, c);
    ready := map v | v in s.sets[x].txs && c.tx[v] == 0 :: Key(FracOf(g.fees, v), v);
  }

  lemma {:induction false} ReadyTxKeys(g: Graph, s: Store, x: SetIdx, gone: Txs, c: Counts, ready: map<TxIdx, Key>)
    requires RepOk(g, s) && ReadyTxsOk(g, s, x, gone, c, ready)
    ensures PositiveKeys(ready)
  {
    hide RepOk, TopsDistinct;
    StoreFacts(g, s);
  }

  /** Put the transactions of chunk `x` out, those that come first among the ready ones first. */
  method EmitChunk(g: Graph, s: Store, cmp: Comparator, x: SetIdx, base: seq<TxIdx>, c0: Counts, chunks0: map<SetIdx, Key>,
                   ghost started: set<SetIdx>)
    returns (lin: seq<TxIdx>, c: Counts, chunks: map<SetIdx, Key>)
    requires RepOk(g, s) && StrongOrder(cmp) && x in s.chunks && SetTxs(s, x) !! Elems(base)
    requires Underway(g, s, cmp, x, base, base, started)
    requires CountsOk(s, Elems(base), 0, {}, c0) && ReadyChunksOk(s, cmp, started, c0, chunks0)
    ensures Underway(g, s, cmp, x, base, lin, started) && SetTxs(s, x) <= Elems(lin)
    ensures CountsOk(s, Elems(lin), 0, {}, c) && ReadyChunksOk(s, cmp, started, c, chunks)
  {
    hide RepOk, CountsOk, ReadyTxsOk, ReadyChunksOk, StrongOrder, Underway, After, PositiveKeys;
    lin, c, chunks := base, c0, chunks0;
    ChunkHasTxs(g, s, x);
    var ready := ReadyTxs(g, s, x, c, Elems(base));
    ghost var todo := SetTxs(s, x);
    while ready != map[]
      invariant Underway(g, s, cmp, x, base, lin, started) && todo == SetTxs(s, x) - Elems(lin)
      invariant CountsOk(s, Elems(lin), 0, {}, c) && ReadyTxsOk(g, s, x, Elems(lin), c, ready) && ReadyChunksOk(s, cmp, started, c, chunks)
      decreases todo
    {
      ReadyTxKeys(g, s, x, Elems(lin), c, ready);
      var t := PopFirst(cmp, ready);
      PoppedTx(g, s, cmp, x, base, lin, started, c, ready, t);
      forall k <- s.tx[t].children ensures k !in Elems(lin) && k in s.tx && (s.tx[k].chunk == x || s.tx[k].chunk !in started) {
        ChildrenStay(g, s, cmp, x, base, lin, started, t, k);
      }
      ready := ready - {t};
      c, chunks, ready := TellChildren(g, s, cmp, x, t, c, chunks, ready, Elems(lin), started);
      lin := lin + [t];
      todo := todo - {t};
    }
    ChunkComplete(g, s, cmp, x, base, lin, started, c);
  }

  // ----- All chunks go out

  lemma {:induction false} StoredChunkReady(g: Graph, s: Store, out: Txs, x: SetIdx)
    requires RepOk(g, s) && ClosedGraph(g) && x in s.chunks
    ensures SetTxs(s, x) <= s.tx.Keys && SetTxs(s, x) in ChunksOf(s).Values
    ensures ReadyChunk(NetOf(g), ChunksOf(s), out, SetTxs(s, x)) <==>
            SetTxs(s, x) !! out && forall v <- SetTxs(s, x) :: s.tx[v].parents <= out + SetTxs(s, x)
  {
    hide RepOk, ReducedParents, ReducedChildren, DepsOf, ClosedGraph, TopsDistinct;
    ChunkHasTxs(g, s, x);
    var txs := SetTxs(s, x);
    var u :| u in txs;
    ChunkIs(g, s, x, u);
    assert ChunksOf(s)[u] == txs;
    forall v <- txs, p ensures p in s.tx[v].parents <==> Dep(p, v) in DepsOf(g) {
      TxFacts(g, s, v);
      DepMeaning(g, Dep(p, v));
    }
    if ReadyChunk(NetOf(g), ChunksOf(s), out, txs) {
      forall v <- txs, p <- s.tx[v].parents ensures p in out + txs { assert Dep(p, v).child in txs; }
    }
    if forall v <- txs :: s.tx[v].parents <= out + txs {
      forall d <- DepsOf(g) | d.child in txs && d.parent !in txs ensures d.parent in out { assert d == Dep(d.parent, d.child); }
    }
  }

  /** What is out is the chunks started, in their order, each complete. */
  ghost predicate Emission(g: Graph, s: Store, cmp: Comparator, lin: seq<TxIdx>, cs: seq<Txs>, started: set<SetIdx>) {
    && ClosedGraph(g) && TxSequence(NetOf(g), cmp, ChunksOf(s), lin) && ChunkSequence(NetOf(g), cmp, ChunksOf(s), cs)
    && InBlocks(lin, cs) && started <= s.chunks && BlockSet(cs) == (set x <- started :: SetTxs(s, x))
  }

  lemma {:induction false} EmissionStart(g: Graph, s: Store, cmp: Comparator)
    requires ClosedGraph(g)
    ensures Emission(g, s, cmp, [], [], {})
  {}

  lemma {:induction false} EmissionOut(g: Graph, s: Store, cmp: Comparator, lin: seq<TxIdx>, cs: seq<Txs>, started: set<SetIdx>, x: SetIdx)
    requires RepOk(g, s) && Emission(g, s, cmp, lin, cs, started) && x in s.chunks
    ensures Elems(lin) == Union(BlockSet(cs))
    ensures if x in started then SetTxs(s, x) <= Elems(lin) else SetTxs(s, x) !! Elems(lin)
  {
    hide RepOk, ReadyChunk, BestChunk, TxSequence, ChunkSequence, InBlocks;
    BlocksCover(lin, cs);
    ChunkMembers(g, s, x);
    if x !in started {
      forall y <- started ensures SetTxs(s, y) !! SetTxs(s, x) {
        ChunkMembers(g, s, y);
        forall v <- SetTxs(s, y) ensures v !in SetTxs(s, x) {
          ChunkIs(g, s, x, v);
          ChunkIs(g, s, y, v);
        }
      }
    }
  }

  lemma {:induction false} StoredBestChunk(g: Graph, s: Store, cmp: Comparator, out: Txs, started: set<SetIdx>, c: Counts,
                                           ready: map<SetIdx, Key>, x: SetIdx)
    requires RepOk(g, s) && ClosedGraph(g) && StrongOrder(cmp) && CountsOk(s, out, 0, {}, c) && ReadyChunksOk(s, cmp, started, c, ready)
    requires x in ready && (forall y <- ready :: !After(cmp, ready[x], ready[y]))
    requires forall y <- s.chunks :: if y in started then SetTxs(s, y) <= out else SetTxs(s, y) !! out
    ensures x in s.chunks && BestChunk(NetOf(g), cmp, ChunksOf(s), out, SetTxs(s, x))
  {
    hide RepOk, After, CountsOk, ClosedGraph, DepsOf, IsMax, StrongOrder, ReadyChunk, Total, TopsDistinct;
    var n, ch := NetOf(g), ChunksOf(s);
    StoreFacts(g, s);
    StoredChunkReady(g, s, out, x);
    ZeroChunk(s, out, c, x);
    FracFact(g, s, x);
    forall y, t, u | ReadyChunk(n, ch, out, y) && IsMax(cmp, SetTxs(s, x), t) && IsMax(cmp, y, u)
      ensures !After(cmp, Key(Total(n.fees, SetTxs(s, x)), t), Key(Total(n.fees, y), u))
    {
      var z := ChunkIndex(g, s, out, y);
      StoredChunkReady(g, s, out, z);
      CountKeys(s, out, 0, {}, c);
      ZeroChunk(s, out, c, z);
      ChunkHasTxs(g, s, z);
      assert z in ready;
      FracFact(g, s, z);
      MaxUnique(cmp, SetTxs(s, x), t, ready[x].tie);
      MaxUnique(cmp, y, u, ready[z].tie);
    }
  }

  lemma {:induction false} ChunkIndex(g: Graph, s: Store, out: Txs, y: Txs) returns (z: SetIdx)
    requires RepOk(g, s) && ClosedGraph(g) && ReadyChunk(NetOf(g), ChunksOf(s), out, y)
    ensures z in s.chunks && SetTxs(s, z) == y
  {
    hide RepOk, DepsOf, ClosedGraph;
    var v :| v in ChunksOf(s) && ChunksOf(s)[v] == y;
    ChunkSets(g, s, v);
    z := s.tx[v].chunk;
  }

  /** The chunk that comes first among the ready ones is started. */
  lemma {:induction false} EmissionPick(g: Graph, s: Store, cmp: Comparator, lin: seq<TxIdx>, cs: seq<Txs>, started: set<SetIdx>, c: Counts,
                                        ready: map<SetIdx, Key>, x: SetIdx)
    requires RepOk(g, s) && StrongOrder(cmp) && Emission(g, s, cmp, lin, cs, started)
    requires CountsOk(s, Elems(lin), 0, {}, c) && ReadyChunksOk(s, cmp, started, c, ready)
    requires x in ready && forall y <- ready :: !After(cmp, ready[x], ready[y])
    ensures x in s.chunks && x !in started && BestChunk(NetOf(g), cmp, ChunksOf(s), Elems(lin), SetTxs(s, x)) && SetTxs(s, x) !! Elems(lin)
    ensures Underway(g, s, cmp, x, lin, lin, started + {x})
    ensures ReadyChunksOk(s, cmp, started + {x}, c, ready - {x})
  {
    hide RepOk, After, CountsOk, ClosedGraph, DepsOf, IsMax, StrongOrder, BestChunk, TxSequence, ChunkSequence, InBlocks, ReadyChunk, ChunksOf;
    forall y <- s.chunks ensures if y in started then SetTxs(s, y) <= Elems(lin) else SetTxs(s, y) !! Elems(lin) {
      EmissionOut(g, s, cmp, lin, cs, started, y);
    }
    StoredBestChunk(g, s, cmp, Elems(lin), started, c, ready, x);
    ChunkHasTxs(g, s, x);
    ZeroChunk(s, Elems(lin), c, x);
  }

  lemma {:induction false} EmissionNext(g: Graph, s: Store, cmp: Comparator, base: seq<TxIdx>, lin: seq<TxIdx>, cs: seq<Txs>, started: set<SetIdx>,
                                        x: SetIdx)
    requires RepOk(g, s) && Emission(g, s, cmp, base, cs, started) && x in s.chunks && SetTxs(s, x) !! Elems(base)
    requires BestChunk(NetOf(g), cmp, ChunksOf(s), Elems(base), SetTxs(s, x))
    requires Underway(g, s, cmp, x, base, lin, started + {x}) && SetTxs(s, x) <= Elems(lin)
    ensures Emission(g, s, cmp, lin, cs + [SetTxs(s, x)], started + {x})
  {
    hide RepOk, ClosedGraph, DepsOf, BestChunk, TxSequence, ChunkSequence, InBlocks, ChunksOf;
    var n, ch := NetOf(g), ChunksOf(s);
    EmissionOut(g, s, cmp, base, cs, started, x);
    ChunkSequenceNext(n, cmp, ch, cs, SetTxs(s, x));
    TxSequenceClosed(n, cmp, ch, lin);
    PrefixElems(base, lin);
    assert Elems(lin) == Elems(base) + SetTxs(s, x);
    InBlocksNext(base, lin, cs, SetTxs(s, x));
  }

  /** When no chunk is ready, all are out. */
  lemma {:induction false} EmissionComplete(g: Graph, s: Store, cmp: Comparator, lin: seq<TxIdx>, cs: seq<Txs>, started: set<SetIdx>, c: Counts)
    requires ValidStore(g, s) && Emission(g, s, cmp, lin, cs, started) && Orderly(NetOf(g), ChunksOf(s))
    requires CountsOk(s, Elems(lin), 0, {}, c) && ReadyChunksOk(s, cmp, started, c, map[])
    ensures started == s.chunks
  {
    hide RepOk, ValidForest, CountsOk, ClosedGraph, DepsOf, BestChunk, TxSequence, ChunkSequence, InBlocks, ChunksOf, Ranked, ReadyChunk,
      Partitions, ValidNet, TopsDistinct;
    NetFacts(g, s);
    var n, ch := NetOf(g), ChunksOf(s);
    var rank :| Ranked(n, ch, rank);
    if x :| x in s.chunks && x !in started {
      var v := ChunkStarts(g, s, x);
      BlocksAreChunks(g, s, cmp, lin, cs, started);
      EmissionOut(g, s, cmp, lin, cs, started, x);
      var y := ReadyAbove(n, ch, rank, BlockSet(cs), v);
      var z := ChunkIndex(g, s, Elems(lin), y);
      StoredChunkReady(g, s, Elems(lin), z);
      EmissionOut(g, s, cmp, lin, cs, started, z);
      ChunkHasTxs(g, s, z);
      CountKeys(s, Elems(lin), 0, {}, c);
      ZeroChunk(s, Elems(lin), c, z);
      assert false;
    }
  }

  lemma {:induction false} ChunkStarts(g: Graph, s: Store, x: SetIdx) returns (v: TxIdx)
    requires RepOk(g, s) && x in s.chunks
    ensures v in ChunksOf(s) && ChunksOf(s)[v] == SetTxs(s, x) && v in SetTxs(s, x)
  {
    hide RepOk;
    ChunkHasTxs(g, s, x);
    v :| v in s.sets[x].txs;
    ChunkIs(g, s, x, v);
  }

  lemma {:induction false} BlocksAreChunks(g: Graph, s: Store, cmp: Comparator, lin: seq<TxIdx>, cs: seq<Txs>, started: set<SetIdx>)
    requires RepOk(g, s) && Emission(g, s, cmp, lin, cs, started)
    ensures BlockSet(cs) <= ChunksOf(s).Values
    ensures forall x <- s.chunks | x !in started :: SetTxs(s, x) !in BlockSet(cs)
    ensures started == s.chunks ==> BlockSet(cs) == ChunksOf(s).Values
  {
    hide RepOk, TxSequence, ChunkSequence, InBlocks;
    forall b <- BlockSet(cs) ensures b in ChunksOf(s).Values {
      var y :| y in started && SetTxs(s, y) == b;
      var v := ChunkStarts(g, s, y);
    }
    forall x <- s.chunks | x !in started ensures SetTxs(s, x) !in BlockSet(cs) {
      forall y <- started ensures SetTxs(s, y) != SetTxs(s, x) {
        var v := ChunkStarts(g, s, x);
        ChunkIs(g, s, x, v);
        ChunkIs(g, s, y, v);
      }
    }
    if started == s.chunks {
      forall b <- ChunksOf(s).Values ensures b in BlockSet(cs) {
        var v :| v in ChunksOf(s) && ChunksOf(s)[v] == b;
        ChunkSets(g, s, v);
      }
    }
  }

  /** A complete sequence puts every transaction after its ancestors. */
  lemma {:induction false} TxSequenceValid(g: Graph, cmp: Comparator, ch: Chunks, lin: seq<TxIdx>)
    requires ValidGraph(g) && TxSequence(NetOf(g), cmp, ch, lin) && Elems(lin) == g.anc.Keys
    ensures ValidOrder(g, lin)
  {
    hide DepsOf, ClosedGraph, Acyclic, PositiveSizes, BestTx;
    TxSequenceClosed(NetOf(g), cmp, ch, lin);
    forall i | 0 <= i < |lin| ensures lin[i] in g.anc && g.anc[lin[i]] <= Elems(lin[..i + 1]) {
      var part := lin[..i + 1];
      forall j | 0 <= j < |part| ensures BestTx(NetOf(g), cmp, ch, Elems(part[..j]), part[j]) {
        assert part[..j] == lin[..j] && part[j] == lin[j];
      }
      TxSequenceClosed(NetOf(g), cmp, ch, part);
      ClosedByReduction(g, Elems(part));
      assert part[i] == lin[i] && lin[i] in Elems(part);
    }
  }

  lemma {:induction false} EmissionDone(g: Graph, s: Store, cmp: Comparator, lin: seq<TxIdx>, cs: seq<Txs>)
    requires ValidStore(g, s) && StrongOrder(cmp) && Emission(g, s, cmp, lin, cs, s.chunks) && Orderly(NetOf(g), ChunksOf(s))
    ensures ValidOrder(g, lin) && ReachesDiagram(g.fees, lin, ChunksOf(s)) && BlockSet(cs) == ChunksOf(s).Values
  {
    hide RepOk, ValidForest, ClosedGraph, DepsOf, StrongOrder, TxSequence, ChunkSequence, InBlocks, ChunksOf, Orderly, ValidNet, Partitions,
      TopsDistinct, ValidOrder, ReachesDiagram, ValidGraph;
    NetFacts(g, s);
    var n, ch := NetOf(g), ChunksOf(s);
    BlocksAreChunks(g, s, cmp, lin, cs, s.chunks);
    PartitionBlocks(n.txs, ch);
    BlocksCover(lin, cs);
    TxSequenceValid(g, cmp, ch, lin);
    SequenceReaches(n, cmp, ch, cs, lin);
  }

  /** The chunks that are ready at first. */
  method ReadyChunks(g: Graph, s: Store, cmp: Comparator, c: Counts) returns (ready: map<SetIdx, Key>)
    requires RepOk(g, s) && StrongOrder(cmp) && CountsOk(s, {}, 0, {}, c)
    ensures ReadyChunksOk(s, cmp, {}, c, ready)
  {
    hide RepOk, CountsOk, StrongOrder, IsMax;
    ready := map[];
    CountKeys(s, {}, 0, {}, c);
    var todo := s.chunks;
    while todo != {}
      invariant todo <= s.chunks && ReadyChunksOk(s, cmp, todo, c, ready)
    {
      var x :| x in todo;
      todo := todo - {x};
      if c.chunk[x] == 0 {
        ChunkHasTxs(g, s, x);
        var tie := MaxFallback(cmp, s.sets[x].txs);
        ready := ready[x := Key(s.sets[x].frac, tie)];
      }
    }
  }

  lemma {:induction false} ReadyChunkKeys(g: Graph, s: Store, cmp: Comparator, started: set<SetIdx>, c: Counts, ready: map<SetIdx, Key>)
    requires RepOk(g, s) && ReadyChunksOk(s, cmp, started, c, ready)
    ensures PositiveKeys(ready)
  {
    hide RepOk, TopsDistinct, IsMax, Total;
    StoreFacts(g, s);
    forall x <- ready ensures ready[x].frac.size > 0 {
      ChunkHasTxs(g, s, x);
      FracFact(g, s, x);
      TotalSizePositive(g.fees, s.sets[x].txs);
    }
  }

  /**
   The linearization of the chunks: the chunk that comes first among those with no unmet dependency
   goes out next, and within a chunk the transaction that does.
   */
  method GetLinearization(g: Graph, s: Store, cmp: Comparator) returns (lin: seq<TxIdx>, ghost cs: seq<Txs>)
    requires ValidStore(g, s) && ClosedGraph(g) && Orderly(NetOf(g), ChunksOf(s)) && StrongOrder(cmp)
    ensures ValidOrder(g, lin) && ReachesDiagram(g.fees, lin, ChunksOf(s))
    ensures BlockSet(cs) == ChunksOf(s).Values && InBlocks(lin, cs)
    ensures ChunkSequence(NetOf(g), cmp, ChunksOf(s), cs) && TxSequence(NetOf(g), cmp, ChunksOf(s), lin)
  {
    hide RepOk, ValidForest, ClosedGraph, DepsOf, StrongOrder, ChunksOf, Orderly, TopsDistinct, ValidOrder, ReachesDiagram, ChunkSequence,
      TxSequence, InBlocks, Underway, CountsOk, ReadyChunksOk, BestChunk, After, Emission, PositiveKeys;
    var c := CountAll(g, s);
    var ready := ReadyChunks(g, s, cmp, c);
    lin, cs := [], [];
    ghost var started: set<SetIdx> := {};
    EmissionStart(g, s, cmp);
    assert Elems([]) == {};
    while ready != map[]
      invariant started <= s.chunks && Emission(g, s, cmp, lin, cs, started)
      invariant CountsOk(s, Elems(lin), 0, {}, c) && ReadyChunksOk(s, cmp, started, c, ready)
      decreases s.chunks - started
    {
      ReadyChunkKeys(g, s, cmp, started, c, ready);
      var x := PopFirst(cmp, ready);
      EmissionPick(g, s, cmp, lin, cs, started, c, ready, x);
      var next, left, chunks := EmitChunk(g, s, cmp, x, lin, c, ready - {x}, started + {x});
      EmissionNext(g, s, cmp, lin, next, cs, started, x);
      lin, c, ready := next, left, chunks;
      cs, started := cs + [SetTxs(s, x)], started + {x};
    }
    EmissionComplete(g, s, cmp, lin, cs, started, c);
    EmissionDone(g, s, cmp, lin, cs);
    EmissionParts(g, s, cmp, lin, cs, started);
  }

  lemma {:induction false} EmissionParts(g: Graph, s: Store, cmp: Comparator, lin: seq<TxIdx>, cs: seq<Txs>, started: set<SetIdx>)
    requires Emission(g, s, cmp, lin, cs, started)
    ensures ClosedGraph(g) && TxSequence(NetOf(g), cmp, ChunksOf(s), lin) && ChunkSequence(NetOf(g), cmp, ChunksOf(s), cs) && InBlocks(lin, cs)
  {}
}
