/** One level of a stack of write-back caches over the set of unspent coins, and what every change of it means. */
module CoinsCaches {
  import opened Wrappers
  import opened Sums

  type OutPoint = nat

  /** An unspent coin. `usage` is the memory it takes. */
  datatype Coin = Coin(value: nat, height: nat, unspendable: bool, usage: nat)

  /** What a cache or the database presents: the unspent coins. */
  type View = map<OutPoint, Coin>

  /** A cached coin, None if it is spent. DIRTY: may differ from the level below. FRESH: not unspent in the level below. */
  datatype Entry = Entry(coin: Option<Coin>, dirty: bool, isFresh: bool)

  type Coins = map<OutPoint, Entry>

  /** `flagged` lists the dirty entries, in the order in which they became so. */
  datatype Cache = Cache(coins: Coins, flagged: seq<OutPoint>, dirtyCount: int, usage: int)

  function EmptyCache(): Cache { Cache(map[], [], 0, 0) }

  /** The view of a cache over the view `base`. */
  ghost function ViewOver(coins: Coins, base: View): View {
    map op | op in coins.Keys + base.Keys && (op in coins ==> coins[op].coin.Some?) :: if op in coins then coins[op].coin.value else base[op]
  }

  // ----- Validity

  /** The four states a cached coin can be in, and what its flags say about the level below. */
  ghost predicate EntryOk(e: Entry, op: OutPoint, base: View) {
    && (e.coin.None? ==> e.dirty && !e.isFresh)
    && (e.isFresh ==> e.dirty && op !in base)
    && (!e.dirty ==> op in base && e.coin == Some(base[op]))
  }

  function UsageOf(e: Entry): int {
    if e.coin.Some? then e.coin.value.usage else 0
  }

  ghost function UsageAt(coins: Coins): OutPoint -> int {
    (op: OutPoint) => if op in coins then UsageOf(coins[op]) else 0
  }

  ghost function TotalUsage(coins: Coins): int {
    Sum(UsageAt(coins), coins.Keys)
  }

  ghost predicate FlaggedOk(coins: Coins, flagged: seq<OutPoint>) {
    && (forall i, j | 0 <= i < j < |flagged| :: flagged[i] != flagged[j])
    && (forall op <- flagged :: op in coins && coins[op].dirty)
    && (forall op <- coins | coins[op].dirty :: op in flagged)
  }

  ghost predicate CountersOk(c: Cache) {
    c.dirtyCount == |c.flagged| && c.usage == TotalUsage(c.coins)
  }

  ghost predicate CacheOk(c: Cache, base: View) {
    && (forall op <- c.coins :: EntryOk(c.coins[op], op, base))
    && FlaggedOk(c.coins, c.flagged) && CountersOk(c)
  }

  lemma {:induction false} EmptyOk(base: View)
    ensures CacheOk(EmptyCache(), base) && ViewOver(EmptyCache().coins, base) == base
  {}

  // ----- Elementary changes

  /** Store `e` for `op`, with the list of dirty entries and the counters brought up to date. */
  function Stored(c: Cache, op: OutPoint, e: Entry): Cache {
    var was := op in c.coins && c.coins[op].dirty;
    Cache(c.coins[op := e],
          if e.dirty && !was then c.flagged + [op] else c.flagged,
          if e.dirty && !was then c.dirtyCount + 1 else c.dirtyCount,
          c.usage - (if op in c.coins then UsageOf(c.coins[op]) else 0) + UsageOf(e))
  }

  ghost function WithoutOp(s: seq<OutPoint>, op: OutPoint): seq<OutPoint> {
    if s == [] then [] else if s[0] == op then s[1..] else [s[0]] + WithoutOp(s[1..], op)
  }

  lemma {:induction false} WithoutOpFacts(s: seq<OutPoint>, op: OutPoint)
    requires forall i, j | 0 <= i < j < |s| :: s[i] != s[j]
    ensures forall x :: x in WithoutOp(s, op) <==> x in s && x != op
    ensures forall i, j | 0 <= i < j < |WithoutOp(s, op)| :: WithoutOp(s, op)[i] != WithoutOp(s, op)[j]
    ensures |WithoutOp(s, op)| == if op in s then |s| - 1 else |s|
    decreases |s|
  {
    if s != [] {
      assert s == [s[0]] + s[1..];
      forall i, j | 0 <= i < j < |s[1..]| ensures s[1..][i] != s[1..][j] {}
      WithoutOpFacts(s[1..], op);
      assert forall k | 0 <= k < |s[1..]| :: s[1..][k] != s[0];
      assert s[0] !in s[1..] && s[0] !in WithoutOp(s[1..], op);
    }
  }

  lemma {:induction false} UsageStored(coins: Coins, op: OutPoint, e: Entry)
    ensures TotalUsage(coins[op := e]) == TotalUsage(coins) - (if op in coins then UsageOf(coins[op]) else 0) + UsageOf(e)
  {
    var w, w', rest := UsageAt(coins), UsageAt(coins[op := e]), coins.Keys - {op};
    assert coins[op := e].Keys == rest + {op} && (rest + {op}) - {op} == rest;
    SumRemove(w', rest + {op}, op);
    SumEqual(w, w', rest);
    if op in coins { SumRemove(w, coins.Keys, op); } else { assert rest == coins.Keys; }
  }

  lemma {:induction false} UsageErased(coins: Coins, op: OutPoint)
    requires op in coins
    ensures TotalUsage(coins - {op}) == TotalUsage(coins) - UsageOf(coins[op])
  {
    var w, w', rest := UsageAt(coins), UsageAt(coins - {op}), coins.Keys - {op};
    assert (coins - {op}).Keys == rest;
    SumRemove(w, coins.Keys, op);
    SumEqual(w, w', rest);
  }

  lemma {:induction false} StoredFlagged(c: Cache, op: OutPoint, e: Entry)
    requires FlaggedOk(c.coins, c.flagged) && (op in c.coins && c.coins[op].dirty ==> e.dirty)
    ensures FlaggedOk(Stored(c, op, e).coins, Stored(c, op, e).flagged)
  {
    hide UsageOf;
    var r := Stored(c, op, e);
    if e.dirty && !(op in c.coins && c.coins[op].dirty) {
      assert op !in c.flagged;
      forall x <- r.coins | r.coins[x].dirty ensures x in r.flagged {}
    }
  }

  /** Storing an entry that is right for the level below keeps the cache right, and changes the view at `op` only. */
  lemma {:induction false} StoredOk(c: Cache, op: OutPoint, e: Entry, base: View)
    requires CacheOk(c, base) && EntryOk(e, op, base) && (op in c.coins && c.coins[op].dirty ==> e.dirty)
    ensures CacheOk(Stored(c, op, e), base)
    ensures var v := ViewOver(c.coins, base);
            ViewOver(Stored(c, op, e).coins, base) == if e.coin.Some? then v[op := e.coin.value] else v - {op}
  {
    hide FlaggedOk, TotalUsage, ViewOver;
    StoredFlagged(c, op, e);
    UsageStored(c.coins, op, e);
    StoredView(c.coins, op, e, base);
  }

  lemma {:induction false} StoredView(coins: Coins, op: OutPoint, e: Entry, base: View)
    ensures var v := ViewOver(coins, base);
            ViewOver(coins[op := e], base) == if e.coin.Some? then v[op := e.coin.value] else v - {op}
  {}

  /** Drop the entry of `op`. */
  ghost function Erased(c: Cache, op: OutPoint): Cache
    requires op in c.coins
  {
    Cache(c.coins - {op}, if c.coins[op].dirty then WithoutOp(c.flagged, op) else c.flagged,
          if c.coins[op].dirty then c.dirtyCount - 1 else c.dirtyCount, c.usage - UsageOf(c.coins[op]))
  }

  lemma {:induction false} ErasedFlagged(c: Cache, op: OutPoint)
    requires FlaggedOk(c.coins, c.flagged) && op in c.coins
    ensures FlaggedOk(Erased(c, op).coins, Erased(c, op).flagged)
    ensures |Erased(c, op).flagged| == if c.coins[op].dirty then |c.flagged| - 1 else |c.flagged|
  {
    hide WithoutOp, UsageOf;
    WithoutOpFacts(c.flagged, op);
  }

  lemma {:induction false} ErasedOk(c: Cache, op: OutPoint, base: View)
    requires CacheOk(c, base) && op in c.coins
    ensures CacheOk(Erased(c, op), base)
    ensures var v := ViewOver(c.coins, base);
            ViewOver(Erased(c, op).coins, base) == if op in base then v[op := base[op]] else v - {op}
  {
    hide FlaggedOk, TotalUsage, WithoutOp;
    ErasedFlagged(c, op);
    UsageErased(c.coins, op);
  }

  // ----- Writing one entry of a child cache

  /** What becomes of the parent's cache, None if the child's FRESH flag contradicts it. */
  ghost function Written(parent: Cache, op: OutPoint, e: Entry): Option<Cache> {
    if op !in parent.coins then
      if e.isFresh && e.coin.None? then Some(parent) else Some(Stored(parent, op, Entry(e.coin, true, e.isFresh)))
    else
      var p := parent.coins[op];
      if e.isFresh && p.coin.Some? then None
      else if p.isFresh && e.coin.None? then Some(Erased(parent, op))
      else Some(Stored(parent, op, Entry(e.coin, true, p.isFresh)))
  }

  /** Writing an entry that is right over the parent's view never fails, and gives the parent's view that coin. */
  lemma {:induction false} WrittenOk(parent: Cache, op: OutPoint, e: Entry, base: View)
    requires CacheOk(parent, base) && EntryOk(e, op, ViewOver(parent.coins, base))
    ensures Written(parent, op, e).Some? && CacheOk(Written(parent, op, e).value, base)
    ensures var v := ViewOver(parent.coins, base);
            ViewOver(Written(parent, op, e).value.coins, base) == if e.coin.Some? then v[op := e.coin.value] else v - {op}
  {
    hide CacheOk, Stored, Erased, ViewOver;
    var v := ViewOver(parent.coins, base);
    ViewAt(parent.coins, base, op);
    if op !in parent.coins {
      StoredOk(parent, op, Entry(e.coin, true, e.isFresh), base);
    } else {
      var p := parent.coins[op];
      EntryAt(parent, op, base);
      if p.isFresh && e.coin.None? {
        ErasedOk(parent, op, base);
      } else {
        StoredOk(parent, op, Entry(e.coin, true, p.isFresh), base);
      }
    }
  }

  lemma {:induction false} ViewAt(coins: Coins, base: View, op: OutPoint)
    ensures op in ViewOver(coins, base) <==> if op in coins then coins[op].coin.Some? else op in base
    ensures op in ViewOver(coins, base) ==> ViewOver(coins, base)[op] == if op in coins then coins[op].coin.value else base[op]
  {}

  lemma {:induction false} EntryAt(c: Cache, op: OutPoint, base: View)
    requires CacheOk(c, base) && op in c.coins
    ensures EntryOk(c.coins[op], op, base)
  {}

  // ----- Writing all dirty entries

  /** `base` with the coins that the cache holds for `done`. */
  ghost function Merged(coins: Coins, base: View, done: set<OutPoint>): View {
    map op | op in coins.Keys + base.Keys && (if op in coins && op in done then coins[op].coin.Some? else op in base)
      :: if op in coins && op in done then coins[op].coin.value else base[op]
  }

  lemma {:induction false} MergedNone(coins: Coins, base: View)
    ensures Merged(coins, base, {}) == base
  {}

  lemma {:induction false} MergedNext(coins: Coins, base: View, done: set<OutPoint>, op: OutPoint)
    requires op in coins
    ensures var v := Merged(coins, base, done);
            Merged(coins, base, done + {op}) == if coins[op].coin.Some? then v[op := coins[op].coin.value] else v - {op}
  {}

  /** With all dirty entries written, the level below presents the view of the cache. */
  lemma {:induction false} MergedAll(c: Cache, base: View, done: set<OutPoint>)
    requires CacheOk(c, base) && forall op <- c.coins | c.coins[op].dirty :: op in done
    ensures Merged(c.coins, base, done) == ViewOver(c.coins, base)
  {}

  /** An entry not written yet is still right for the level below. */
  lemma {:induction false} EntryStays(c: Cache, base: View, done: set<OutPoint>, op: OutPoint)
    requires CacheOk(c, base) && op in c.coins && op !in done
    ensures EntryOk(c.coins[op], op, Merged(c.coins, base, done))
  {}

  // ----- After a write without erasing: clean what is unspent, drop what is spent

  ghost function Cleaned(c: Cache, op: OutPoint): Cache
    requires op in c.coins && c.flagged != []
  {
    if c.coins[op].coin.None? then c.(coins := c.coins - {op}, flagged := c.flagged[1..], dirtyCount := c.dirtyCount - 1)
    else c.(coins := c.coins[op := Entry(c.coins[op].coin, false, false)], flagged := c.flagged[1..], dirtyCount := c.dirtyCount - 1)
  }

  /** Everything the cache needs but that its entries fit the level below. */
  ghost predicate ListsOk(c: Cache) {
    FlaggedOk(c.coins, c.flagged) && CountersOk(c)
  }

  lemma {:induction false} CleanedFlagged(c: Cache)
    requires FlaggedOk(c.coins, c.flagged) && c.flagged != []
    ensures c.flagged[0] in c.coins && FlaggedOk(Cleaned(c, c.flagged[0]).coins, Cleaned(c, c.flagged[0]).flagged)
  {
    var op := c.flagged[0];
    assert op in c.flagged;
    var r := Cleaned(c, op);
    forall x <- c.flagged[1..] ensures x in c.flagged && x != op {
      var k :| 0 <= k < |c.flagged[1..]| && c.flagged[1..][k] == x;
      assert c.flagged[k + 1] == x;
    }
    forall x <- r.coins | r.coins[x].dirty ensures x in r.flagged {
      var k :| 0 <= k < |c.flagged| && c.flagged[k] == x;
      assert c.flagged[1..][k - 1] == x;
    }
  }

  lemma {:induction false} CleanedLists(c: Cache)
    requires ListsOk(c) && c.flagged != []
    ensures c.flagged[0] in c.coins && ListsOk(Cleaned(c, c.flagged[0]))
  {
    hide TotalUsage, FlaggedOk;
    CleanedFlagged(c);
    var op := c.flagged[0];
    if c.coins[op].coin.None? { UsageErased(c.coins, op); } else { UsageStored(c.coins, op, Entry(c.coins[op].coin, false, false)); }
  }
}
