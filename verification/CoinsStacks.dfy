/** A database and a stack of caches of any depth over it; reading and writing go through the stack. */
module CoinsStacks {
  import opened Wrappers
  import opened CoinsCaches

  /** What level `k` presents: the database at level 0, the cache `caches[k - 1]` above. */
  ghost function LevelView(db: View, caches: seq<Cache>, k: nat): View
    requires k <= |caches|
  {
    if k == 0 then db else ViewOver(caches[k - 1].coins, LevelView(db, caches, k - 1))
  }

  ghost predicate StackOk(db: View, caches: seq<Cache>) {
    forall k | 0 <= k < |caches| :: CacheOk(caches[k], LevelView(db, caches, k))
  }

  /** Every level presents the same in both. */
  ghost predicate SameViews(db: View, a: seq<Cache>, b: seq<Cache>) {
    |a| == |b| && forall k | 0 <= k <= |a| :: LevelView(db, a, k) == LevelView(db, b, k)
  }

  lemma {:induction false} SameViewsTrans(db: View, a: seq<Cache>, b: seq<Cache>, c: seq<Cache>)
    requires SameViews(db, a, b) && SameViews(db, b, c)
    ensures SameViews(db, a, c)
  {
    hide LevelView;
    forall k | 0 <= k <= |a| ensures LevelView(db, a, k) == LevelView(db, c, k) {
      assert LevelView(db, a, k) == LevelView(db, b, k) && LevelView(db, b, k) == LevelView(db, c, k);
    }
  }

  /** A level depends only on the database and the caches below it. */
  lemma {:induction false} ViewBelow(db: View, a: seq<Cache>, b: seq<Cache>, k: nat)
    requires k <= |a| && k <= |b| && forall i | 0 <= i < k :: a[i] == b[i]
    ensures LevelView(db, a, k) == LevelView(db, b, k)
    decreases k
  {
    if k > 0 { ViewBelow(db, a, b, k - 1); }
  }

  /** Replacing a cache by one with the same view changes no view. */
  lemma {:induction false} ReplaceSame(db: View, caches: seq<Cache>, i: nat, c: Cache)
    requires i < |caches| && ViewOver(c.coins, LevelView(db, caches, i)) == ViewOver(caches[i].coins, LevelView(db, caches, i))
    ensures SameViews(db, caches, caches[i := c])
  {
    forall k | 0 <= k <= |caches| ensures LevelView(db, caches, k) == LevelView(db, caches[i := c], k) {
      ReplaceSameAt(db, caches, i, c, k);
    }
  }

  lemma {:induction false} ReplaceSameAt(db: View, caches: seq<Cache>, i: nat, c: Cache, k: nat)
    requires i < |caches| && ViewOver(c.coins, LevelView(db, caches, i)) == ViewOver(caches[i].coins, LevelView(db, caches, i)) && k <= |caches|
    ensures LevelView(db, caches, k) == LevelView(db, caches[i := c], k)
    decreases k
  {
    hide ViewOver;
    if k <= i {
      ViewBelow(db, caches, caches[i := c], k);
    } else {
      ReplaceSameAt(db, caches, i, c, k - 1);
    }
  }

  /** With the same views, the other caches stay valid. */
  lemma {:induction false} ReplaceOk(db: View, caches: seq<Cache>, i: nat, c: Cache)
    requires StackOk(db, caches) && i < |caches| && CacheOk(c, LevelView(db, caches, i))
    requires ViewOver(c.coins, LevelView(db, caches, i)) == ViewOver(caches[i].coins, LevelView(db, caches, i))
    ensures StackOk(db, caches[i := c]) && SameViews(db, caches, caches[i := c])
  {
    hide CacheOk, ViewOver, LevelView;
    ReplaceSame(db, caches, i, c);
    var after := caches[i := c];
    forall k | 0 <= k < |after| ensures CacheOk(after[k], LevelView(db, after, k)) {
      assert LevelView(db, caches, k) == LevelView(db, after, k);
    }
  }

  /** The topmost cache may be replaced by any that is valid; nothing below it changes. */
  lemma {:induction false} ReplaceTop(db: View, caches: seq<Cache>, c: Cache)
    requires StackOk(db, caches) && caches != [] && CacheOk(c, LevelView(db, caches, |caches| - 1))
    ensures var after := caches[|caches| - 1 := c];
            && StackOk(db, after) && (forall k | 0 <= k < |caches| :: LevelView(db, after, k) == LevelView(db, caches, k))
            && LevelView(db, after, |caches|) == ViewOver(c.coins, LevelView(db, caches, |caches| - 1))
  {
    hide CacheOk, ViewOver, LevelView, StackOk;
    SplitTop(db, caches);
    NewTop(db, caches, c);
  }

  lemma {:induction false} LevelStep(db: View, caches: seq<Cache>, k: nat)
    requires k < |caches|
    ensures LevelView(db, caches, k + 1) == ViewOver(caches[k].coins, LevelView(db, caches, k))
  {}

  lemma {:induction false} StackAt(db: View, caches: seq<Cache>, k: nat)
    requires StackOk(db, caches) && k < |caches|
    ensures CacheOk(caches[k], LevelView(db, caches, k)) && LevelView(db, caches, k + 1) == ViewOver(caches[k].coins, LevelView(db, caches, k))
  {}

  // ----- What the operations do to the caches

  /** Reading at level `k` gets down to the cache of index `i`: no cache above it knows the coin. */
  ghost predicate Reached(a: seq<Cache>, k: nat, i: nat, op: OutPoint)
    requires k <= |a|
  {
    forall j | i < j < k :: op !in a[j].coins
  }

  /** Of the caches below index `m`, those that reading at level `k` got down to without finding the coin have a clean copy of it, if it exists. */
  ghost predicate FilledDown(db: View, a: seq<Cache>, b: seq<Cache>, k: nat, m: nat, op: OutPoint) {
    |a| == |b| && m <= k <= |a| &&
    forall i | 0 <= i < m ::
      b[i] == if Reached(a, k, i, op) && op !in a[i].coins && op in LevelView(db, a, i + 1) then
                Stored(a[i], op, Entry(Some(LevelView(db, a, i + 1)[op]), false, false))
              else a[i]
  }

  lemma {:induction false} FilledNone(db: View, a: seq<Cache>, k: nat, op: OutPoint)
    requires k <= |a| && (k == 0 || op in a[k - 1].coins)
    ensures FilledDown(db, a, a, k, k, op)
  {
    hide LevelView, Stored;
  }

  lemma {:induction false} FilledNext(db: View, a: seq<Cache>, b: seq<Cache>, c: seq<Cache>, k: nat, op: OutPoint)
    requires FilledDown(db, a, b, k, k, op) && k < |a| && op !in a[k].coins && |c| == |a| && c[..k] == b[..k]
    requires c[k] == if op in LevelView(db, a, k + 1) then Stored(a[k], op, Entry(Some(LevelView(db, a, k + 1)[op]), false, false)) else a[k]
    ensures FilledDown(db, a, c, k + 1, k + 1, op)
  {
    hide LevelView, Stored;
    forall i | 0 <= i < k ensures c[i] == b[i] && (Reached(a, k + 1, i, op) <==> Reached(a, k, i, op)) {
      assert c[i] == c[..k][i] && b[i] == b[..k][i];
    }
    assert Reached(a, k + 1, k, op);
  }

  lemma {:induction false} FilledBelow(db: View, a: seq<Cache>, b: seq<Cache>, c: seq<Cache>, k: nat, op: OutPoint)
    requires FilledDown(db, a, b, k, k, op) && k > 0 && |c| == |b| && forall i | 0 <= i < k - 1 :: c[i] == b[i]
    ensures FilledDown(db, a, c, k, k - 1, op)
  {
    hide LevelView, Stored;
  }

  /** The entries of `done` were written to the level below: it keeps FRESH of its own, takes it over for a coin it did not know, and forgets a coin that is spent before the next level knows it. */
  ghost predicate WrittenDown(parent: Coins, top: Coins, done: set<OutPoint>, after: Coins) {
    forall op: OutPoint ::
      if op in done && op in top then
        && (op in after <==> top[op].coin.Some? || op !in parent || !parent[op].isFresh)
        && (op in after ==> after[op] == Entry(top[op].coin, true, if op in parent then parent[op].isFresh else top[op].isFresh))
      else
        (op in after <==> op in parent) && (op in after ==> after[op] == parent[op])
  }

  lemma {:induction false} WrittenNone(parent: Coins, top: Coins)
    ensures WrittenDown(parent, top, {}, parent)
  {}

  lemma {:induction false} WrittenNext(parent: Coins, top: Coins, done: set<OutPoint>, after: Cache, op: OutPoint)
    requires WrittenDown(parent, top, done, after.coins) && op !in done && op in top && (top[op].coin.None? ==> !top[op].isFresh)
    requires Written(after, op, top[op]).Some?
    ensures WrittenDown(parent, top, done + {op}, Written(after, op, top[op]).value.coins)
  {
    hide WithoutOp;
  }

  ghost function DirtyOps(coins: Coins): set<OutPoint> {
    set op <- coins | coins[op].dirty
  }

  /** The unspent coins of a cache, as clean entries. */
  ghost function CleanCoins(coins: Coins): Coins {
    map op | op in coins && coins[op].coin.Some? :: Entry(coins[op].coin, false, false)
  }

  class CoinsStack {
    var db: View
    var caches: seq<Cache>

    ghost predicate Valid()
      reads this
    {
      StackOk(db, caches)
    }

    ghost function V(k: nat): View
      requires k <= |caches|
      reads this
    {
      LevelView(db, caches, k)
    }

    constructor (coins: View)
      ensures Valid() && db == coins && caches == []
    {
      db, caches := coins, [];
    }

    /** Put an empty cache on top. */
    method Push()
      requires Valid()
      modifies `caches
      ensures Valid() && caches == old(caches) + [EmptyCache()] && V(|caches|) == old(V(|caches|))
      ensures forall k | 0 <= k <= |old(caches)| :: LevelView(db, caches, k) == LevelView(db, old(caches), k)
    {
      hide CacheOk, ViewOver;
      ghost var was := caches;
      caches := caches + [EmptyCache()];
      forall k | 0 <= k <= |was| ensures LevelView(db, caches, k) == LevelView(db, was, k) { ViewBelow(db, was, caches, k); }
      EmptyOk(LevelView(db, was, |was|));
    }

    /** The entry of `op` in the cache of level `k`, read through the levels below if it is not there yet. */
    method FetchCoin(k: nat, op: OutPoint) returns (found: bool)
      requires Valid() && 0 < k <= |caches|
      modifies `caches
      ensures Valid() && SameViews(db, old(caches), caches) && (forall i | k <= i < |caches| :: caches[i] == old(caches)[i])
      ensures found <==> op in caches[k - 1].coins
      ensures found || op !in V(k)
      ensures op in old(caches[k - 1]).coins ==> caches == old(caches)
      ensures found ==> op in old(caches[k - 1]).coins || op in V(k)
      ensures op in V(k) <==> found && caches[k - 1].coins[op].coin.Some?
      ensures op in V(k) ==> caches[k - 1].coins[op].coin == Some(V(k)[op])
      ensures FilledDown(db, old(caches), caches, k, k, op)
      decreases k, 0
    {
      hide CacheOk, ViewOver, LevelView, StackOk, FilledDown, Stored;
      SameViewsItself(db, caches);
      if op in caches[k - 1].coins { FilledNone(db, caches, k, op); }
      StackAt(db, caches, k - 1);
      ViewAt(caches[k - 1].coins, LevelView(db, caches, k - 1), op);
      if op in caches[k - 1].coins { return true; }
      ghost var was := caches;
      var coin := GetCoin(k - 1, op);
      assert caches[k - 1] == was[k - 1];
      SameLevel(db, was, caches, k - 1);
      SameLevel(db, was, caches, k);
      StackAt(db, caches, k - 1);
      if coin.None? {
        FilledNext(db, was, caches, caches, k - 1, op);
        return false;
      }
      ghost var mid, base := caches, LevelView(db, caches, k - 1);
      var e := Entry(coin, false, false);
      StoredOk(caches[k - 1], op, e, base);
      StoredHas(caches[k - 1], op, e);
      CleanStored(caches[k - 1].coins, base, op);
      ReplaceOk(db, caches, k - 1, Stored(caches[k - 1], op, e));
      caches := caches[k - 1 := Stored(caches[k - 1], op, e)];
      SameViewsTrans(db, was, mid, caches);
      SameLevel(db, mid, caches, k);
      FilledNext(db, was, mid, caches, k - 1, op);
      return true;
    }

    /** The unspent coin at level `k`, if there is one. */
    method GetCoin(k: nat, op: OutPoint) returns (coin: Option<Coin>)
      requires Valid() && k <= |caches|
      modifies `caches
      ensures Valid() && SameViews(db, old(caches), caches) && (forall i | k <= i < |caches| :: caches[i] == old(caches)[i])
      ensures coin == if op in V(k) then Some(V(k)[op]) else None
      ensures FilledDown(db, old(caches), caches, k, k, op)
      decreases k, 1
    {
      hide CacheOk, ViewOver, StackOk, FilledDown;
      SameViewsItself(db, caches);
      if k == 0 {
        FilledNone(db, caches, 0, op);
        coin := if op in db then Some(db[op]) else None;
      } else {
        var found := FetchCoin(k, op);
        coin := if found then caches[k - 1].coins[op].coin else None;
      }
    }

    /** The unspent coin at level `k`, if there is one, without filling any cache. */
    method PeekCoin(k: nat, op: OutPoint) returns (coin: Option<Coin>)
      requires k <= |caches|
      ensures coin == if op in V(k) then Some(V(k)[op]) else None
    {
      var i: nat := k;
      while i > 0
        invariant i <= k && (op in V(k) <==> op in V(i)) && (op in V(k) ==> V(k)[op] == V(i)[op])
      {
        hide ViewOver;
        ViewAt(caches[i - 1].coins, LevelView(db, caches, i - 1), op);
        if op in caches[i - 1].coins {
          return caches[i - 1].coins[op].coin;
        }
        i := i - 1;
      }
      coin := if op in db then Some(db[op]) else None;
    }

    // ----- Changing the topmost cache

    /**
     Add a coin. Without `overwrite` the view must not hold the coin yet: a coin cached as unspent is
     an error, and one that only a level below holds is for the caller to exclude.
     */
    method AddCoin(op: OutPoint, coin: Coin, overwrite: bool) returns (ok: bool)
      requires Valid() && caches != []
      requires !overwrite && op !in caches[|caches| - 1].coins ==> op !in V(|caches| - 1)
      modifies `caches
      ensures Valid() && |caches| == |old(caches)| && (forall k | 0 <= k < |caches| :: LevelView(db, caches, k) == LevelView(db, old(caches), k))
      ensures ok <==> coin.unspendable || overwrite || !old(CachedUnspent(caches[|caches| - 1], op))
      ensures V(|caches|) == if ok && !coin.unspendable then old(V(|caches|))[op := coin] else old(V(|caches|))
      ensures var top := old(caches)[|caches| - 1];
              var known := op in top.coins;
              var isFresh := (known && top.coins[op].isFresh) || (!overwrite && (!known || !top.coins[op].dirty));
              caches == if ok && !coin.unspendable then old(caches)[|caches| - 1 := Stored(top, op, Entry(Some(coin), true, isFresh))] else old(caches)
    {
      hide CacheOk, ViewOver, StackOk, LevelView;
      if coin.unspendable { return true; }
      var top, n := caches[|caches| - 1], |caches|;
      if !overwrite && op in top.coins && top.coins[op].coin.Some? { return false; }
      ghost var base := LevelView(db, caches, n - 1);
      StackAt(db, caches, n - 1);
      var e := Entry(Some(coin), true, (op in top.coins && top.coins[op].isFresh) || (!overwrite && !(op in top.coins && top.coins[op].dirty)));
      AddedEntry(top, op, coin, overwrite, base);
      StoredOk(top, op, e, base);
      ReplaceTop(db, caches, Stored(top, op, e));
      caches := caches[n - 1 := Stored(top, op, e)];
      return true;
    }

    /** Spend a coin. True if there was an entry for it, which is the case whenever it was unspent. */
    method SpendCoin(op: OutPoint) returns (found: bool, moved: Option<Coin>)
      requires Valid() && caches != []
      modifies `caches
      ensures Valid() && |caches| == |old(caches)| && (forall k | 0 <= k < |caches| :: LevelView(db, caches, k) == LevelView(db, old(caches), k))
      ensures V(|caches|) == old(V(|caches|)) - {op}
      ensures moved == if op in old(V(|caches|)) then Some(old(V(|caches|))[op]) else None
      ensures op in old(V(|caches|)) ==> found
      ensures found ==> op in old(V(|caches|)) || op in old(caches[|caches| - 1].coins)
      ensures var was := old(caches)[|caches| - 1].coins;
              caches[|caches| - 1].coins == if !found then was else if op in was && was[op].isFresh then was - {op} else was[op := Entry(None, true, false)]
      ensures FilledDown(db, old(caches), caches, |caches|, |caches| - 1, op)
    {
      hide CacheOk, ViewOver, StackOk, LevelView, FilledDown;
      ghost var was := caches;
      found := FetchCoin(|caches|, op);
      var n := |caches|;
      SameLevel(db, was, caches, n);
      LevelsSame(db, was, caches);
      FilledTop(db, was, caches, op);
      if !found {
        assert LevelView(db, caches, n) - {op} == LevelView(db, caches, n);
        FilledBelow(db, was, caches, caches, n, op);
        return false, None;
      }
      ghost var mid, base := caches, LevelView(db, caches, n - 1);
      var top := caches[n - 1];
      StackAt(db, caches, n - 1);
      EntryAt(top, op, base);
      moved := top.coins[op].coin;
      var next;
      if top.coins[op].isFresh {
        ErasedOk(top, op, base);
        FlaggedFacts(top, base);
        SpentFresh(LevelView(db, caches, n), op, base);
        next := Erase(top, op);
      } else {
        StoredOk(top, op, Entry(None, true, false), base);
        next := Stored(top, op, Entry(None, true, false));
      }
      ReplaceTop(db, caches, next);
      caches := caches[n - 1 := next];
      LevelsTrans(db, was, mid, caches);
      FilledBelow(db, was, mid, caches, n, op);
    }

    /** Drop the entry of `op` from the topmost cache if it is not dirty. */
    method Uncache(op: OutPoint)
      requires Valid() && caches != []
      modifies `caches
      ensures Valid() && SameViews(db, old(caches), caches)
      ensures var top := old(caches)[|caches| - 1];
              caches == if op in top.coins && !top.coins[op].dirty then old(caches)[|caches| - 1 := Erased(top, op)] else old(caches)
    {
      hide CacheOk, ViewOver, StackOk, LevelView;
      var n, top := |caches|, caches[|caches| - 1];
      SameViewsItself(db, caches);
      if op in top.coins && !top.coins[op].dirty {
        ghost var base := LevelView(db, caches, n - 1);
        StackAt(db, caches, n - 1);
        EntryAt(top, op, base);
        ErasedOk(top, op, base);
        FlaggedFacts(top, base);
        UncachedView(top.coins, base, op);
        var next := Erase(top, op);
        ReplaceOk(db, caches, n - 1, next);
        caches := caches[n - 1 := next];
      }
    }

    /** Empty the topmost cache, losing what was not written. */
    method Reset()
      requires Valid() && caches != []
      modifies `caches
      ensures Valid() && |caches| == |old(caches)| && (forall k | 0 <= k < |caches| :: LevelView(db, caches, k) == LevelView(db, old(caches), k))
      ensures V(|caches|) == V(|caches| - 1) && caches == old(caches)[|caches| - 1 := EmptyCache()]
    {
      hide CacheOk, ViewOver, StackOk, LevelView;
      EmptyOk(LevelView(db, caches, |caches| - 1));
      ReplaceTop(db, caches, EmptyCache());
      caches := caches[|caches| - 1 := EmptyCache()];
    }

    /** Take the topmost cache off the stack, losing what was not written. */
    method Pop()
      requires Valid() && caches != []
      modifies `caches
      ensures Valid() && caches == old(caches)[..|old(caches)| - 1]
      ensures forall k | 0 <= k <= |caches| :: LevelView(db, caches, k) == LevelView(db, old(caches), k)
    {
      hide CacheOk, ViewOver;
      ghost var was := caches;
      caches := caches[..|caches| - 1];
      forall k | 0 <= k <= |caches| ensures LevelView(db, caches, k) == LevelView(db, was, k) { ViewBelow(db, was, caches, k); }
    }

    // ----- Writing the topmost cache to the level below

    /** Write the dirty entries of the topmost cache, in the order in which they became dirty. */
    method BatchWrite() returns (ok: bool)
      requires Valid() && caches != []
      modifies `db, `caches
      ensures ok && |caches| == |old(caches)| && caches[|caches| - 1] == old(caches)[|caches| - 1]
      ensures StackOk(db, caches[..|caches| - 1])
      ensures LevelView(db, caches, |caches| - 1) == old(V(|caches|))
      ensures forall k | 0 <= k < |caches| - 1 :: LevelView(db, caches, k) == LevelView(old(db), old(caches), k)
      ensures WroteDown(old(db), old(caches), db, caches)
    {
      hide CacheOk, ViewOver, StackOk, LevelView, Merged, WrittenDown;
      var n, top := |caches|, caches[|caches| - 1];
      ghost var base, done := LevelView(db, caches, n - 1), {};
      StackAt(db, caches, n - 1);
      MergedNone(top.coins, base);
      FlaggedFacts(top, base);
      SplitTop(db, caches);
      var below := caches[..n - 1];
      if n > 1 { WrittenNone(below[n - 2].coins, top.coins); }
      for i := 0 to |top.flagged|
        invariant |below| == n - 1 && StackOk(db, below) && LevelView(db, below, n - 1) == Merged(top.coins, base, done)
        invariant done == set op <- top.flagged[..i]
        invariant forall k | 0 <= k < n - 1 :: LevelView(db, below, k) == LevelView(old(db), old(caches), k)
        invariant n > 1 ==> db == old(db) && below[..n - 2] == old(caches)[..n - 2] && WrittenDown(old(caches)[n - 2].coins, top.coins, done, below[n - 2].coins)
      {
        var op := top.flagged[i];
        var e := top.coins[op];
        NotDone(top.flagged, i);
        EntryStays(top, base, done, op);
        MergedNext(top.coins, base, done, op);
        if n == 1 {
          ViewOfDb(db, below);
          db := if e.coin.Some? then db[op := e.coin.value] else db - {op};
          ViewOfDb(db, below);
        } else {
          ghost var lower := LevelView(db, below, n - 2);
          StackAt(db, below, n - 2);
          WrittenOk(below[n - 2], op, e, lower);
          FlaggedFacts(below[n - 2], lower);
          var parent := WriteEntry(below[n - 2], op, e);
          if parent.None? { return false; }
          EntryAt(top, op, base);
          WrittenNext(old(caches)[n - 2].coins, top.coins, done, below[n - 2], op);
          ghost var was := below;
          ReplaceTop(db, below, parent.value);
          below := below[n - 2 := parent.value];
          LevelsBelow(db, was, below, n - 2);
        }
        assert top.flagged[..i + 1] == top.flagged[..i] + [op];
        done := done + {op};
      }
      assert top.flagged[..|top.flagged|] == top.flagged;
      MergedAll(top, base, done);
      FlaggedAreDirty(top, base);
      caches := below + [top];
      JoinTop(db, below, top);
      ok := true;
    }

    /** Write the topmost cache to the level below and empty it. */
    method Flush() returns (ok: bool)
      requires Valid() && caches != []
      modifies `db, `caches
      ensures ok && Valid() && |caches| == |old(caches)| && caches[|caches| - 1] == EmptyCache()
      ensures V(|caches|) == old(V(|caches|)) && V(|caches| - 1) == old(V(|caches|))
      ensures forall k | 0 <= k < |caches| - 1 :: LevelView(db, caches, k) == LevelView(old(db), old(caches), k)
      ensures WroteDown(old(db), old(caches), db, caches)
    {
      hide CacheOk, ViewOver, StackOk, LevelView, WroteDown;
      ok := BatchWrite();
      WroteTop(old(db), old(caches), db, caches, EmptyCache());
      ghost var mid := caches;
      EmptyOk(LevelView(db, caches, |caches| - 1));
      NewTop(db, caches, EmptyCache());
      caches := caches[|caches| - 1 := EmptyCache()];
      LevelsOf(db, mid, caches);
    }

    /** Write the topmost cache to the level below and keep its unspent coins, now clean. */
    method Sync() returns (ok: bool)
      requires Valid() && caches != []
      modifies `db, `caches
      ensures ok && Valid() && |caches| == |old(caches)|
      ensures V(|caches|) == old(V(|caches|)) && V(|caches| - 1) == old(V(|caches|))
      ensures caches[|caches| - 1].flagged == [] && caches[|caches| - 1].dirtyCount == 0
      ensures caches[|caches| - 1].coins == CleanCoins(old(caches)[|caches| - 1].coins)
      ensures forall k | 0 <= k < |caches| - 1 :: LevelView(db, caches, k) == LevelView(old(db), old(caches), k)
      ensures WroteDown(old(db), old(caches), db, caches)
    {
      hide CacheOk, ViewOver, StackOk, LevelView, ListsOk, WroteDown, CleanCoins;
      var n, top := |caches|, caches[|caches| - 1];
      ghost var view := LevelView(db, caches, n);
      StackAt(db, caches, n - 1);
      CleanStart(top, LevelView(db, caches, n - 1));
      ok := BatchWrite();
      var c := CleanAll(top, view);
      ghost var mid := caches;
      WroteTop(old(db), old(caches), db, caches, c);
      NewTop(db, caches, c);
      caches := caches[n - 1 := c];
      LevelsOf(db, mid, caches);
    }
  }

  /** All dirty entries of the topmost cache were written to the level below, and nothing further down changed. */
  ghost predicate WroteDown(db: View, a: seq<Cache>, db': View, b: seq<Cache>) {
    |a| == |b| > 0 &&
    var n := |a|;
    n > 1 ==> db' == db && b[..n - 2] == a[..n - 2] && WrittenDown(a[n - 2].coins, a[n - 1].coins, DirtyOps(a[n - 1].coins), b[n - 2].coins)
  }

  lemma {:induction false} WroteTop(db: View, a: seq<Cache>, db': View, b: seq<Cache>, c: Cache)
    requires WroteDown(db, a, db', b)
    ensures WroteDown(db, a, db', b[|b| - 1 := c])
  {
    hide WrittenDown;
    if |b| > 1 { assert b[|b| - 1 := c][..|b| - 2] == b[..|b| - 2]; }
  }

  lemma {:induction false} FilledTop(db: View, a: seq<Cache>, b: seq<Cache>, op: OutPoint)
    requires a != [] && FilledDown(db, a, b, |a|, |a|, op)
    ensures b[|b| - 1] == if op !in a[|a| - 1].coins && op in LevelView(db, a, |a|) then
                            Stored(a[|a| - 1], op, Entry(Some(LevelView(db, a, |a|)[op]), false, false))
                          else a[|a| - 1]
  {
    hide LevelView, Stored;
    assert Reached(a, |a|, |a| - 1, op);
  }

  lemma {:induction false} StoredHas(c: Cache, op: OutPoint, e: Entry)
    ensures Stored(c, op, e).coins == c.coins[op := e]
  {}

  ghost predicate CachedUnspent(c: Cache, op: OutPoint) {
    op in c.coins && c.coins[op].coin.Some?
  }

  /** The flags of an added coin are right for the level below. */
  lemma {:induction false} AddedEntry(c: Cache, op: OutPoint, coin: Coin, overwrite: bool, base: View)
    requires CacheOk(c, base) && (!overwrite ==> !CachedUnspent(c, op)) && (!overwrite && op !in c.coins ==> op !in base)
    ensures EntryOk(Entry(Some(coin), true, (op in c.coins && c.coins[op].isFresh) || (!overwrite && !(op in c.coins && c.coins[op].dirty))), op, base)
  {
    hide FlaggedOk, CountersOk;
    if op in c.coins { EntryAt(c, op, base); }
  }

  lemma {:induction false} LevelsSame(db: View, a: seq<Cache>, b: seq<Cache>)
    requires SameViews(db, a, b)
    ensures forall k | 0 <= k <= |a| :: LevelView(db, b, k) == LevelView(db, a, k)
  {
    hide LevelView;
  }

  lemma {:induction false} LevelsTrans(db: View, a: seq<Cache>, b: seq<Cache>, c: seq<Cache>)
    requires |a| == |b| == |c|
    requires forall k | 0 <= k <= |a| :: LevelView(db, b, k) == LevelView(db, a, k)
    requires forall k | 0 <= k < |a| :: LevelView(db, c, k) == LevelView(db, b, k)
    ensures forall k | 0 <= k < |a| :: LevelView(db, c, k) == LevelView(db, a, k)
  {
    hide LevelView;
    forall k | 0 <= k < |a| ensures LevelView(db, c, k) == LevelView(db, a, k) {
      assert LevelView(db, c, k) == LevelView(db, b, k) && LevelView(db, b, k) == LevelView(db, a, k);
    }
  }

  lemma {:induction false} SpentFresh(v: View, op: OutPoint, base: View)
    requires op !in base
    ensures (if op in base then v[op := base[op]] else v - {op}) == v - {op}
  {}

  lemma {:induction false} UncachedView(coins: Coins, base: View, op: OutPoint)
    requires op in coins && op in base && coins[op].coin == Some(base[op])
    ensures ViewOver(coins, base)[op := base[op]] == ViewOver(coins, base)
  {}

  lemma {:induction false} FlaggedFacts(c: Cache, base: View)
    requires CacheOk(c, base)
    ensures forall i | 0 <= i < |c.flagged| :: c.flagged[i] in c.coins
    ensures forall i, j | 0 <= i < j < |c.flagged| :: c.flagged[i] != c.flagged[j]
    ensures forall op <- c.coins | c.coins[op].dirty :: op in c.flagged
  {
    forall i | 0 <= i < |c.flagged| ensures c.flagged[i] in c.coins { assert c.flagged[i] in c.flagged; }
  }

  lemma {:induction false} FlaggedAreDirty(c: Cache, base: View)
    requires CacheOk(c, base)
    ensures (set op <- c.flagged) == DirtyOps(c.coins)
  {}

  lemma {:induction false} NotDone(s: seq<OutPoint>, i: nat)
    requires i < |s| && forall i, j | 0 <= i < j < |s| :: s[i] != s[j]
    ensures s[i] !in (set op <- s[..i])
  {}

  lemma {:induction false} ViewOfDb(db: View, caches: seq<Cache>)
    ensures LevelView(db, caches, 0) == db
    ensures caches == [] ==> StackOk(db, caches)
  {}

  /** The caches below the topmost one are a valid stack with the same views. */
  lemma {:induction false} SplitTop(db: View, caches: seq<Cache>)
    requires StackOk(db, caches) && caches != []
    ensures var below := caches[..|caches| - 1];
            && StackOk(db, below) && forall k | 0 <= k < |caches| :: LevelView(db, below, k) == LevelView(db, caches, k)
  {
    hide CacheOk, ViewOver;
    var below := caches[..|caches| - 1];
    forall k | 0 <= k < |caches| ensures LevelView(db, below, k) == LevelView(db, caches, k) { ViewBelow(db, caches, below, k); }
  }

  lemma {:induction false} JoinTop(db: View, below: seq<Cache>, top: Cache)
    ensures var caches := below + [top];
            caches[..|below|] == below && forall k | 0 <= k <= |below| :: LevelView(db, caches, k) == LevelView(db, below, k)
  {
    hide ViewOver;
    var caches := below + [top];
    forall k | 0 <= k <= |below| ensures LevelView(db, caches, k) == LevelView(db, below, k) { ViewBelow(db, caches, below, k); }
  }

  lemma {:induction false} LevelsBelow(db: View, a: seq<Cache>, b: seq<Cache>, n: nat)
    requires |a| == |b| == n + 1 && forall k | 0 <= k < |a| :: LevelView(db, b, k) == LevelView(db, a, k)
    ensures forall k | 0 <= k <= n :: LevelView(db, b, k) == LevelView(db, a, k)
  {}

  /** A valid topmost cache over a valid stack. */
  lemma {:induction false} NewTop(db: View, caches: seq<Cache>, c: Cache)
    requires caches != [] && StackOk(db, caches[..|caches| - 1]) && CacheOk(c, LevelView(db, caches, |caches| - 1))
    ensures var after := caches[|caches| - 1 := c];
            && StackOk(db, after) && (forall k | 0 <= k < |caches| :: LevelView(db, after, k) == LevelView(db, caches, k))
            && LevelView(db, after, |caches|) == ViewOver(c.coins, LevelView(db, caches, |caches| - 1))
  {
    hide CacheOk, ViewOver, LevelView;
    var after, below := caches[|caches| - 1 := c], caches[..|caches| - 1];
    LevelStep(db, after, |caches| - 1);
    forall k | 0 <= k < |caches| ensures LevelView(db, after, k) == LevelView(db, caches, k) == LevelView(db, below, k) {
      ViewBelow(db, caches, after, k);
      ViewBelow(db, caches, below, k);
    }
    forall k | 0 <= k < |after| ensures CacheOk(after[k], LevelView(db, after, k)) {
      if k < |below| { assert after[k] == below[k]; }
    }
  }

  lemma {:induction false} LevelsOf(db: View, a: seq<Cache>, b: seq<Cache>)
    requires |a| == |b| && forall k | 0 <= k < |a| :: LevelView(db, b, k) == LevelView(db, a, k)
    ensures forall k | 0 <= k < |a| - 1 :: LevelView(db, b, k) == LevelView(db, a, k)
  {}

  /** Clean entries agree with the view; dirty ones are what the view says. */
  ghost predicate Cleaning(coins: Coins, view: View) {
    forall op <- coins :: && (if coins[op].coin.Some? then op in view && coins[op].coin == Some(view[op]) else op !in view)
                          && (coins[op].coin.None? ==> coins[op].dirty) && (coins[op].isFresh ==> coins[op].dirty)
  }

  lemma {:induction false} CleanStart(c: Cache, base: View)
    requires CacheOk(c, base)
    ensures ListsOk(c) && Cleaning(c.coins, ViewOver(c.coins, base))
  {
    hide FlaggedOk, CountersOk;
    forall op <- c.coins ensures EntryOk(c.coins[op], op, base) { EntryAt(c, op, base); }
  }

  lemma {:induction false} CleanedNext(c: Cache, view: View)
    requires ListsOk(c) && Cleaning(c.coins, view) && c.flagged != [] && c.flagged[0] in c.coins
    ensures Cleaning(Cleaned(c, c.flagged[0]).coins, view)
  {
    hide ListsOk;
  }

  lemma {:induction false} CleanedSame(c: Cache)
    requires c.flagged != [] && c.flagged[0] in c.coins
    ensures CleanCoins(Cleaned(c, c.flagged[0]).coins) == CleanCoins(c.coins)
  {}

  lemma {:induction false} CleanDone(c: Cache, view: View)
    requires ListsOk(c) && Cleaning(c.coins, view) && c.flagged == []
    ensures CacheOk(c, view) && ViewOver(c.coins, view) == view && c.dirtyCount == 0 && CleanCoins(c.coins) == c.coins
  {
    forall op <- c.coins ensures !c.coins[op].dirty {}
    assert forall op <- c.coins :: EntryOk(c.coins[op], op, view);
  }

  // ----- Executable forms

  method Without(s: seq<OutPoint>, op: OutPoint) returns (r: seq<OutPoint>)
    requires forall i, j | 0 <= i < j < |s| :: s[i] != s[j]
    ensures r == WithoutOp(s, op)
  {
    hide WithoutOp;
    var i := 0;
    assert s[0..] == s && s[..0] == [];
    while i < |s| && s[i] != op
      invariant 0 <= i <= |s| && WithoutOp(s, op) == s[..i] + WithoutOp(s[i..], op)
    {
      WithoutStep(s, i, op);
      assert s[..i + 1] == s[..i] + [s[i]];
      i := i + 1;
    }
    WithoutStep(s, i, op);
    if i < |s| {
      r := s[..i] + s[i + 1..];
    } else {
      assert s[..i] == s;
      r := s;
    }
  }

  lemma {:induction false} WithoutStep(s: seq<OutPoint>, i: nat, op: OutPoint)
    requires i <= |s|
    ensures WithoutOp(s[i..], op) == if i == |s| then [] else if s[i] == op then s[i + 1..] else [s[i]] + WithoutOp(s[i + 1..], op)
  {
    if i < |s| { assert s[i..][0] == s[i] && s[i..][1..] == s[i + 1..]; }
  }

  method Erase(c: Cache, op: OutPoint) returns (r: Cache)
    requires op in c.coins && forall i, j | 0 <= i < j < |c.flagged| :: c.flagged[i] != c.flagged[j]
    ensures r == Erased(c, op)
  {
    var flagged := c.flagged;
    if c.coins[op].dirty { flagged := Without(c.flagged, op); }
    r := Cache(c.coins - {op}, flagged, if c.coins[op].dirty then c.dirtyCount - 1 else c.dirtyCount, c.usage - UsageOf(c.coins[op]));
  }

  method WriteEntry(parent: Cache, op: OutPoint, e: Entry) returns (r: Option<Cache>)
    requires forall i, j | 0 <= i < j < |parent.flagged| :: parent.flagged[i] != parent.flagged[j]
    ensures r == Written(parent, op, e)
  {
    hide Erased, Stored;
    if op !in parent.coins {
      if e.isFresh && e.coin.None? {
        r := Some(parent);
      } else {
        r := Some(Stored(parent, op, Entry(e.coin, true, e.isFresh)));
      }
    } else {
      var p := parent.coins[op];
      if e.isFresh && p.coin.Some? { return None; }
      if p.isFresh && e.coin.None? {
        var c := Erase(parent, op);
        r := Some(c);
      } else {
        r := Some(Stored(parent, op, Entry(e.coin, true, p.isFresh)));
      }
    }
  }

  /** Walk the list of dirty entries, cleaning those that are unspent and dropping those that are spent. */
  method CleanAll(c0: Cache, ghost view: View) returns (c: Cache)
    requires ListsOk(c0) && Cleaning(c0.coins, view)
    ensures CacheOk(c, view) && ViewOver(c.coins, view) == view && c.flagged == [] && c.dirtyCount == 0
    ensures c.coins == CleanCoins(c0.coins)
  {
    hide ListsOk, CacheOk, ViewOver, Cleaning, CleanCoins;
    c := c0;
    while c.flagged != []
      invariant ListsOk(c) && Cleaning(c.coins, view) && CleanCoins(c.coins) == CleanCoins(c0.coins)
      decreases |c.flagged|
    {
      CleanedLists(c);
      CleanedNext(c, view);
      CleanedSame(c);
      c := CleanFirst(c);
    }
    CleanDone(c, view);
  }

  method CleanFirst(c: Cache) returns (r: Cache)
    requires c.flagged != [] && c.flagged[0] in c.coins
    ensures r == Cleaned(c, c.flagged[0])
  {
    var op := c.flagged[0];
    if c.coins[op].coin.None? {
      r := c.(coins := c.coins - {op}, flagged := c.flagged[1..], dirtyCount := c.dirtyCount - 1);
    } else {
      r := c.(coins := c.coins[op := Entry(c.coins[op].coin, false, false)], flagged := c.flagged[1..], dirtyCount := c.dirtyCount - 1);
    }
  }

  lemma {:induction false} SameViewsItself(db: View, a: seq<Cache>)
    ensures SameViews(db, a, a)
  {}

  lemma {:induction false} SameLevel(db: View, a: seq<Cache>, b: seq<Cache>, k: nat)
    requires SameViews(db, a, b) && k <= |a|
    ensures |b| == |a| && LevelView(db, a, k) == LevelView(db, b, k)
  {}

  /** A clean copy of a coin of the level below does not change the view. */
  lemma {:induction false} CleanStored(coins: Coins, base: View, op: OutPoint)
    requires op !in coins && op in base
    ensures ViewOver(coins, base)[op := base[op]] == ViewOver(coins, base)
  {}
}
