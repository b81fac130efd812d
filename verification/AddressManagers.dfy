/** The address manager: every operation keeps all its tables in agreement. */
module AddressManagers {
  import opened Wrappers
  import opened AddressTables

  const REPLACEMENT := 4 * 60 * 60
  const TEST_WINDOW := 40 * 60

  /** What no operation undoes: ids are never reused for another entry, and an occupied tried slot stays occupied. */
  ghost predicate Grows(a: Tables, b: Tables) {
    && a.idCount <= b.idCount && a.tried.Keys <= b.tried.Keys
    && forall id <- b.info | id < a.idCount :: id in a.info && b.info[id].addr == a.info[id].addr
  }

  lemma {:induction false} GrowsTrans(a: Tables, b: Tables, c: Tables)
    requires Grows(a, b) && Grows(b, c)
    ensures Grows(a, c)
  {}

  /** Entries waiting to replace a tried one, as far as they still exist, belong in an occupied slot. */
  ghost predicate CollisionsOk(h: Hashes, t: Tables, collisions: set<Id>) {
    forall id <- collisions :: id < t.idCount && (id in t.info ==> h.TriedSlot(t.info[id].addr) in t.tried)
  }

  lemma {:induction false} CollisionsStay(h: Hashes, a: Tables, b: Tables, collisions: set<Id>)
    requires CollisionsOk(h, a, collisions) && Grows(a, b)
    ensures CollisionsOk(h, b, collisions)
  {}

  lemma {:induction false} FindFacts(h: Hashes, t: Tables, loose: set<Id>, transit: set<Id>, a: Service)
    requires Agree(h, t, loose, transit)
    ensures a in t.addrs ==> t.addrs[a] in t.info && t.info[t.addrs[a]].addr == a && t.addrs[a] < t.idCount
    ensures forall id <- t.info | t.info[id].addr == a :: a in t.addrs && t.addrs[a] == id
  {}

  lemma {:induction false} BucketFacts(h: Hashes, t: Tables, loose: set<Id>, transit: set<Id>, a: Service, b: Service)
    requires Agree(h, t, loose, transit)
    ensures h.newBucket(a, b) < NEW_BUCKETS
  {}

  lemma {:induction false} NewFacts(h: Hashes, t: Tables, loose: set<Id>, transit: set<Id>)
    requires Agree(h, t, loose, transit)
    ensures NewOk(h, t)
  {}

  lemma {:induction false} IdFacts(h: Hashes, t: Tables, loose: set<Id>, transit: set<Id>, id: Id)
    requires Agree(h, t, loose, transit) && id in t.info
    ensures id < t.idCount && 0 <= t.info[id].randomPos < |t.random| && t.random[t.info[id].randomPos] == id
    ensures t.info[id].addr in t.addrs && t.addrs[t.info[id].addr] == id
    ensures t.info[id].lastTry >= 0 && t.info[id].lastSuccess >= 0
    ensures id !in loose + transit && !t.info[id].inTried ==> 0 < t.info[id].refCount <= MAX_REFS
    ensures t.info[id].inTried ==> h.TriedSlot(t.info[id].addr) in t.tried && t.info[id].lastSuccess > 0
  {
    AgreeEntry(h, t, loose, transit, id);
  }

  /** In bucket order from `start`, all buckets of the entry come no earlier than the `n`-th. */
  ghost predicate BucketsFrom(t: Tables, id: Id, start: nat, n: nat) {
    forall s <- t.recent | t.recent[s] == id :: (s.bucket - start) % NEW_BUCKETS >= n
  }

  function BucketOf(start: nat, n: nat): nat {
    (start + n) % NEW_BUCKETS
  }

  lemma {:induction false} BucketAt(start: nat, n: nat, b: nat)
    requires start < NEW_BUCKETS && n < NEW_BUCKETS && b < NEW_BUCKETS
    ensures (b - start) % NEW_BUCKETS == n <==> b == BucketOf(start, n)
  {
    if b >= start { assert (b - start) % NEW_BUCKETS == b - start; } else { assert (b - start) % NEW_BUCKETS == b - start + NEW_BUCKETS; }
    if start + n >= NEW_BUCKETS { assert (start + n) % NEW_BUCKETS == start + n - NEW_BUCKETS; } else { assert (start + n) % NEW_BUCKETS == start + n; }
  }

  lemma {:induction false} NextBucket(h: Hashes, t: Tables, r: Tables, id: Id, start: nat, n: nat, slot: Slot)
    requires BucketsFrom(t, id, start, n) && NewOk(h, t) && id in t.info && start < NEW_BUCKETS && n < NEW_BUCKETS
    requires slot == h.NewSlot(t.info[id].addr, BucketOf(start, n))
    requires r.recent == if slot in t.recent && t.recent[slot] == id then t.recent - {slot} else t.recent
    ensures BucketsFrom(r, id, start, n + 1)
  {
    forall s <- r.recent | r.recent[s] == id ensures (s.bucket - start) % NEW_BUCKETS >= n + 1 {
      assert s in t.recent && t.recent[s] == id;
      BucketAt(start, n, s.bucket);
    }
  }

  lemma {:induction false} NoBucketLeft(h: Hashes, t: Tables, loose: set<Id>, transit: set<Id>, id: Id, start: nat)
    requires Agree(h, t, loose, transit) && BucketsFrom(t, id, start, NEW_BUCKETS) && id in t.info && !t.info[id].inTried
    ensures t.info[id].refCount == 0
  {
    AgreeEntry(h, t, loose, transit, id);
    assert SlotsOf(t.recent, id) == {};
  }

  // ----- What is said of entries

  const HORIZON := 30 * 24 * 60 * 60
  const RETRIES := 3
  const MAX_FAILURES := 10
  const MIN_FAIL := 7 * 24 * 60 * 60

  /** The entry is not worth keeping: from the future, not seen for long, or tried in vain too often. */
  predicate Terrible(i: AddrInfo, now: int) {
    && now - i.lastTry > 60
    && (|| i.time > now + 600
        || now - i.time > HORIZON
        || (i.lastSuccess == 0 && i.attempts >= RETRIES)
        || (now - i.lastSuccess > MIN_FAIL && i.attempts >= MAX_FAILURES))
  }

  /** When an entry is terrible and when it is not, with times in seconds. */
  lemma {:induction false} TerribleCases(i: AddrInfo, now: int)
    ensures now - i.lastTry <= 60 ==> !Terrible(i, now)
    ensures now - i.lastTry > 60 && i.time - now > 600 ==> Terrible(i, now)
    ensures now - i.lastTry > 60 && now - i.time > 2_592_000 ==> Terrible(i, now)
    ensures now - i.lastTry > 60 && i.lastSuccess == 0 && i.attempts >= 3 ==> Terrible(i, now)
    ensures now - i.lastTry > 60 && now - i.lastSuccess > 604_800 && i.attempts >= 10 ==> Terrible(i, now)
    ensures -600 <= now - i.time <= 2_592_000 && 0 < i.lastSuccess && now - i.lastSuccess <= 604_800 ==> !Terrible(i, now)
    ensures -600 <= now - i.time <= 2_592_000 && i.attempts < 3 ==> !Terrible(i, now)
    ensures -600 <= now - i.time <= 2_592_000 && 0 < i.lastSuccess && i.attempts < 10 ==> !Terrible(i, now)
  {}

  /** Of how many draws one lets an entry with so many references have another. */
  function Odds(refs: nat): (r: nat)
    ensures r > 0
  {
    if refs == 0 then 1 else 2 * Odds(refs - 1)
  }

  lemma {:induction false} OddsAre()
    ensures Odds(1) == 2 && Odds(2) == 4 && Odds(3) == 8 && Odds(4) == 16 && Odds(5) == 32 && Odds(6) == 64 && Odds(7) == 128
  {
    assert Odds(1) == 2 && Odds(2) == 4 && Odds(3) == 8 && Odds(4) == 16;
  }

  /** What is known of an entry after it was heard of again. */
  function Heard(i: AddrInfo, time: int, services: set<nat>, penalty: int, now: int): AddrInfo {
    var interval := if now - time < 24 * 3600 then 3600 else 24 * 3600;
    i.(services := i.services + services, time := if i.time >= time - interval - penalty then i.time else if time < penalty then 0 else time - penalty)
  }

  /** An entry with so many references may take the slot: it is free, or another entry is there that may go. */
  predicate MayTake(t: Tables, s: Slot, id: Id, refs: int, now: int) {
    s in t.recent ==> t.recent[s] != id && t.recent[s] in t.info && (Terrible(t.info[t.recent[s]], now) || (t.info[t.recent[s]].refCount > 1 && refs == 0))
  }

  /** A known entry may go to one more bucket: there is news, it is not tried, not referenced too often, and the draw is lucky. */
  predicate MayMove(i: AddrInfo, time: int, draw: nat) {
    time > i.time && !i.inTried && 0 <= i.refCount < 8 && draw % Odds(i.refCount) == 0
  }

  /** An address heard of gets another slot of the new table. */
  predicate Accepts(h: Hashes, t: Tables, addr: Service, source: Service, time: int, penalty: int, now: int, draw: nat) {
    var s := h.NewSlot(addr, h.newBucket(addr, source));
    if addr in t.addrs && t.addrs[addr] in t.info then
      var i := Heard(t.info[t.addrs[addr]], time, {}, penalty, now);
      MayMove(i, time, draw) && MayTake(t, s, t.addrs[addr], i.refCount, now)
    else
      MayTake(t, s, t.idCount, 0, now)
  }

  /** An entry as it is before it goes to any table. */
  function Unplaced(addr: Service, source: Service, time: int, services: set<nat>): AddrInfo {
    AddrInfo(addr, source, time, services, 0, 0, 0, 0, 0, false, -1)
  }

  /** The entries are the same but for the number of buckets they are in and their place in the random order. */
  ghost predicate SameFacts(i: AddrInfo, j: AddrInfo) {
    j == i.(refCount := j.refCount, randomPos := j.randomPos)
  }

  /** The entries are the same but for the tables and the place in the random order they are in. */
  ghost predicate SameHistory(i: AddrInfo, j: AddrInfo) {
    j == i.(refCount := j.refCount, inTried := j.inTried, randomPos := j.randomPos)
  }

  /** The slot of the new table that an entry has by its own source. */
  function Home(h: Hashes, i: AddrInfo): Slot {
    h.NewSlot(i.addr, h.newBucket(i.addr, i.source))
  }

  /** The new table without the entry. */
  ghost function Vacated(recent: Table, id: Id): Table {
    map s | s in recent && recent[s] != id :: recent[s]
  }

  lemma {:induction false} VacatedSame(a: Table, b: Table, slot: Slot, id: Id)
    requires b == a || (slot in a && a[slot] == id && b == a - {slot})
    ensures Vacated(b, id) == Vacated(a, id)
  {}

  lemma {:induction false} VacatedAll(h: Hashes, t: Tables, loose: set<Id>, transit: set<Id>, id: Id)
    requires Agree(h, t, loose, transit) && id in loose + transit
    ensures Vacated(t.recent, id) == t.recent
  {
    hide Agree;
    LooseFacts(h, t, loose, transit, id);
    forall s <- t.recent ensures t.recent[s] != id { assert s !in SlotsOf(t.recent, id); }
  }

  /** The new table after an entry has moved to the tried table: without it, and with the entry that was in its way in its own slot. */
  ghost function AfterMove(h: Hashes, t: Tables, id: Id): Table
    requires id in t.info
  {
    var left, slot := Vacated(t.recent, id), h.TriedSlot(t.info[id].addr);
    if slot in t.tried && t.tried[slot] in t.info then left[Home(h, t.info[t.tried[slot]]) := t.tried[slot]] else left
  }

  /** Entries other than `id` are the same, and none but `id` and the one in the slot is gone. */
  ghost predicate RestKept(a: Tables, b: Tables, s: Slot, id: Id) {
    && (forall x <- b.info | x != id :: x in a.info && SameHistory(a.info[x], b.info[x]))
    && (forall x <- a.info | x !in b.info :: x == id || (s in a.recent && a.recent[s] == x))
  }

  lemma {:induction false} RestAfter(a: Tables, b: Tables, c: Tables, s: Slot, id: Id)
    requires RestKept(b, c, s, id) && a.recent == b.recent
    requires (forall x <- b.info | x != id :: x in a.info && a.info[x] == b.info[x]) && (forall x <- a.info :: x in b.info)
    ensures RestKept(a, c, s, id)
  {}

  /** The entry of an address tells what was told of it: news for a known one, all of it for a new one. */
  ghost predicate Learned(a: Tables, b: Tables, addr: Service, source: Service, time: int, services: set<nat>, penalty: int, now: int) {
    addr in b.addrs && b.addrs[addr] in b.info &&
    if addr in a.addrs && a.addrs[addr] in a.info then
      b.addrs[addr] == a.addrs[addr] && SameFacts(Heard(a.info[a.addrs[addr]], time, services, penalty, now), b.info[b.addrs[addr]])
    else
      SameFacts(Unplaced(addr, source, if time < penalty then 0 else time - penalty, services), b.info[b.addrs[addr]])
  }

  lemma {:induction false} UnplacedFacts(addr: Service, source: Service, time: int, services: set<nat>)
    ensures var i := Unplaced(addr, source, time, services);
            && i.addr == addr && i.source == source && i.time == time && i.services == services && !i.inTried && i.refCount == 0
            && i.lastTry == 0 && i.lastCount == 0 && i.lastSuccess == 0 && i.attempts == 0
  {}

  /** No entry was added, and all keep their history. */
  ghost predicate Histories(a: Infos, b: Infos) {
    b.Keys <= a.Keys && forall x <- b :: SameHistory(a[x], b[x])
  }

  lemma {:induction false} HistoriesTrans(a: Infos, b: Infos, c: Infos)
    requires Histories(a, b) && Histories(b, c)
    ensures Histories(a, c)
  {}

  /** Entries other than the one in the slot `s` are the same but for their place in the random order. */
  ghost predicate OthersSame(a: Tables, b: Tables, s: Slot) {
    forall id <- a.info | s in a.recent ==> a.recent[s] != id :: id in b.info && SameEntry(a.info[id], b.info[id])
  }

  lemma {:induction false} OthersSameAt(a: Tables, b: Tables, s: Slot, id: Id)
    requires OthersSame(a, b, s) && id in a.info && (s in a.recent ==> a.recent[s] != id)
    ensures id in b.info && SameEntry(a.info[id], b.info[id])
  {}

  lemma {:induction false} HistoriesOne(a: Infos, b: Infos, id: Id)
    requires id in a && id in b && SameHistory(a[id], b[id]) && b == a[id := b[id]]
    ensures Histories(a, b)
  {}

  /** An address someone tells of; `draw` is the random number used for it. */
  datatype Announced = Announced(addr: Service, time: int, services: set<nat>, routable: bool, draw: nat)

  /** What adding an announced address does, and whether it went to a bucket. */
  ghost predicate Adds(h: Hashes, a: Tables, b: Tables, x: Announced, source: Service, penalty0: int, now: int, inserted: bool) {
    var penalty, s, id := if x.addr == source then 0 else penalty0, h.NewSlot(x.addr, h.newBucket(x.addr, source)), if x.addr in a.addrs then a.addrs[x.addr] else a.idCount;
    && (!x.routable ==> b == a) && b.tried == a.tried && RestKept(a, b, s, id)
    && (inserted <==> x.routable && Accepts(h, a, x.addr, source, x.time, penalty, now, x.draw))
    && (if inserted then x.addr in b.addrs && b.addrs[x.addr] == id && b.recent == a.recent[s := id] else b.recent == a.recent && b.info.Keys == a.info.Keys)
    && (x.routable && (inserted || x.addr in a.addrs) ==> Learned(a, b, x.addr, source, x.time, x.services, penalty, now))
  }

  /** The tables after each of the announced addresses was added in turn, and which of them went to a bucket. */
  ghost predicate AddsAll(h: Hashes, ts: seq<Tables>, ins: seq<bool>, list: seq<Announced>, source: Service, penalty: int, now: int) {
    |ts| == |ins| + 1 && |ins| == |list| && forall k | 0 <= k < |list| :: Adds(h, ts[k], ts[k + 1], list[k], source, penalty, now, ins[k])
  }

  lemma {:induction false} AddsNext(h: Hashes, ts: seq<Tables>, ins: seq<bool>, list: seq<Announced>, x: Announced, source: Service, penalty: int, now: int, t: Tables, inserted: bool)
    requires AddsAll(h, ts, ins, list, source, penalty, now) && Adds(h, ts[|list|], t, x, source, penalty, now, inserted)
    ensures AddsAll(h, ts + [t], ins + [inserted], list + [x], source, penalty, now)
  {
    hide Adds;
  }

  class AddrMan {
    const h: Hashes
    var idCount: Id
    var info: Infos
    var addrs: map<Service, Id>
    var random: seq<Id>
    var nTried: int
    var nNew: int
    var tried: Table
    var recent: Table
    var counts: map<Net, Count>
    var lastGood: int
    var collisions: set<Id>

    ghost function T(): Tables
      reads this
    {
      Tables(idCount, info, addrs, random, nTried, nNew, tried, recent, counts)
    }

    ghost predicate Valid()
      reads this
    {
      Agree(h, T(), {}, {}) && CollisionsOk(h, T(), collisions)
    }

    constructor (hashes: Hashes)
      requires hashes.Valid()
      ensures Valid() && h == hashes && info == map[] && tried == map[] && recent == map[]
    {
      h := hashes;
      idCount, info, addrs, random, nTried, nNew := 0, map[], map[], [], 0, 0;
      tried, recent, counts, lastGood, collisions := map[], map[], map[], 1, {};
      new;
      EmptyOk(h);
    }

    /** The one entry with this address, if there is one. */
    method Find(addr: Service) returns (id: Option<Id>)
      requires Agree(h, T(), {}, {})
      ensures id.Some? ==> id.value in info && info[id.value].addr == addr
      ensures forall x <- info | info[x].addr == addr :: id == Some(x)
    {
      hide Agree;
      FindFacts(h, T(), {}, {}, addr);
      if addr in addrs && addrs[addr] in info { id := Some(addrs[addr]); } else { id := None; }
    }

    /** A new entry, in no bucket. */
    method Create(i: AddrInfo, ghost loose: set<Id>, ghost transit: set<Id>) returns (id: Id)
      requires Agree(h, T(), loose, transit) && i.addr !in addrs && !i.inTried && i.refCount == 0 && i.lastTry >= 0 && i.lastSuccess >= 0
      modifies this
      ensures id == old(idCount) && id !in old(info) && T() == Created(h, old(T()), i) && Agree(h, T(), loose + {id}, transit)
      ensures lastGood == old(lastGood) && collisions == old(collisions)
    {
      hide Agree, CountNew;
      CreatedOk(h, T(), i, loose, transit);
      id := idCount;
      idCount := idCount + 1;
      info := info[id := i.(randomPos := |random|)];
      addrs := addrs[i.addr := id];
      random := random + [id];
      nNew := nNew + 1;
      counts := CountNew(counts, h.network(i.addr), 1);
    }

    method SwapRandom(i: nat, j: nat, ghost loose: set<Id>, ghost transit: set<Id>)
      requires Agree(h, T(), loose, transit) && i < |random| && j < |random|
      modifies `info, `random
      ensures Agree(h, T(), loose, transit) && SameButPos(old(info), info) && |random| == |old(random)|
      ensures random == if i == j then old(random) else old(random)[i := old(random)[j]][j := old(random)[i]]
      ensures forall x <- info :: var p := old(info)[x].randomPos; info[x].randomPos == if p == i then j else if p == j then i else p
    {
      hide Agree;
      SwappedOk(h, T(), i, j, loose, transit);
      SwappedPlaces(h, T(), i, j, loose, transit);
      if i == j { return; }
      var a, b := random[i], random[j];
      info := info[a := info[a].(randomPos := j)];
      info := info[b := info[b].(randomPos := i)];
      random := random[i := b][j := a];
    }

    /** Remove a loose entry. */
    method Delete(id: Id, ghost loose: set<Id>, ghost transit: set<Id>)
      requires Agree(h, T(), loose, transit) && id in loose && id in info
      modifies this
      ensures Agree(h, T(), loose - {id}, transit) && idCount == old(idCount) && tried == old(tried) && recent == old(recent)
      ensures info.Keys == old(info.Keys) - {id} && (forall x <- info :: SameEntry(old(info)[x], info[x]))
      ensures lastGood == old(lastGood) && collisions == old(collisions)
    {
      hide Agree;
      IdFacts(h, T(), loose, transit, id);
      SwapRandom(info[id].randomPos, |random| - 1, loose, transit);
      DropLast(id, loose, transit);
    }

    /** Remove a loose entry that is last in the random order. */
    method DropLast(id: Id, ghost loose: set<Id>, ghost transit: set<Id>)
      requires Agree(h, T(), loose, transit) && id in loose && id in info && info[id].randomPos == |random| - 1
      modifies `counts, `random, `addrs, `info, `nNew
      ensures Agree(h, T(), loose - {id}, transit) && info == old(info) - {id}
    {
      hide Agree, CountNew;
      LooseFacts(h, T(), loose, transit, id);
      DroppedOk(h, T(), id, loose, transit);
      counts := CountNew(counts, h.network(info[id].addr), -1);
      random := random[..|random| - 1];
      addrs := addrs - {info[id].addr};
      info := info - {id};
      nNew := nNew - 1;
    }

    /** Free a slot of the new table, removing its entry if it was in no other. */
    method ClearNew(s: Slot, ghost loose: set<Id>, ghost transit: set<Id>)
      requires Agree(h, T(), loose, transit)
      modifies this
      ensures Agree(h, T(), loose, transit) && recent == old(recent) - {s} && idCount == old(idCount) && tried == old(tried)
      ensures OthersSame(old(T()), T(), s) && Histories(old(info), info)
      ensures lastGood == old(lastGood) && collisions == old(collisions)
    {
      hide Agree;
      if s in recent {
        var id := recent[s];
        ClearedOk(h, T(), s, loose, transit);
        info := info[id := info[id].(refCount := info[id].refCount - 1)];
        recent := recent - {s};
        if info[id].refCount == 0 {
          Delete(id, loose + {id}, transit);
          assert loose + {id} - {id} == loose;
        }
      } else {
        assert recent - {s} == recent;
      }
    }

    /** Take the entry out of all buckets of the new table. */
    method LeaveNew(id: Id)
      requires Agree(h, T(), {}, {}) && id in info && !info[id].inTried
      modifies `info, `recent
      ensures Agree(h, T(), {id}, {}) && info.Keys == old(info.Keys) && recent == Vacated(old(recent), id)
      ensures info[id] == old(info)[id].(refCount := 0) && (forall x <- info | x != id :: info[x] == old(info)[x])
    {
      hide Agree, BucketsFrom, Vacated;
      BucketFacts(h, T(), {}, {}, info[id].addr, info[id].source);
      var start := h.newBucket(info[id].addr, info[id].source);
      IdFacts(h, T(), {}, {}, id);
      AllBuckets(T(), id, start);
      var n := 0;
      while n < NEW_BUCKETS && info[id].refCount != 0
        invariant 0 <= n <= NEW_BUCKETS && id in info && info.Keys == old(info.Keys) && info[id].refCount >= 0
        invariant info[id] == old(info)[id].(refCount := info[id].refCount) && (forall x <- info | x != id :: info[x] == old(info)[x])
        invariant Vacated(recent, id) == Vacated(old(recent), id)
        invariant Agree(h, T(), if info[id].refCount == 0 then {id} else {}, {}) && BucketsFrom(T(), id, start, n)
      {
        LeaveBucket(id, start, n);
        n := n + 1;
      }
      if info[id].refCount != 0 { NoBucketLeft(h, T(), {}, {}, id, start); }
      VacatedAll(h, T(), {id}, {}, id);
    }

    /** Take the entry out of the `n`-th bucket from `start`, if it is there. */
    method LeaveBucket(id: Id, start: nat, n: nat)
      requires Agree(h, T(), {}, {}) && id in info && info[id].refCount > 0 && start < NEW_BUCKETS && n < NEW_BUCKETS
      requires BucketsFrom(T(), id, start, n)
      modifies `info, `recent
      ensures id in info && info == old(info)[id := old(info)[id].(refCount := info[id].refCount)] && info[id].refCount >= 0
      ensures Agree(h, T(), if info[id].refCount == 0 then {id} else {}, {}) && BucketsFrom(T(), id, start, n + 1)
      ensures Vacated(recent, id) == Vacated(old(recent), id)
    {
      hide Agree, NewOk, BucketsFrom, BucketOf, Vacated;
      NewFacts(h, T(), {}, {});
      var slot := h.NewSlot(info[id].addr, BucketOf(start, n));
      if slot in recent && recent[slot] == id {
        LeaveSlot(id, slot);
      }
      NextBucket(h, old(T()), T(), id, start, n, slot);
      VacatedSame(old(recent), recent, slot, id);
    }

    /** Take the entry out of one bucket. */
    method LeaveSlot(id: Id, slot: Slot)
      requires Agree(h, T(), {}, {}) && id in info && slot in recent && recent[slot] == id
      modifies `info, `recent
      ensures id in info && Agree(h, T(), if info[id].refCount == 0 then {id} else {}, {}) && recent == old(recent) - {slot}
      ensures info == old(info)[id := old(info)[id].(refCount := old(info)[id].refCount - 1)] && info[id].refCount >= 0
    {
      hide Agree;
      ClearedOk(h, T(), slot, {}, {});
      assert {} + {id} == {id};
      recent := recent - {slot};
      info := info[id := info[id].(refCount := info[id].refCount - 1)];
    }

    /** Move an entry from the new to the tried table; the entry in its way goes back to the new table. */
    method MakeTried(id: Id)
      requires Agree(h, T(), {}, {}) && id in info && !info[id].inTried && info[id].lastSuccess > 0
      modifies this
      ensures Histories(old(info), info) && Agree(h, T(), {}, {}) && Grows(old(T()), T()) && lastGood == old(lastGood) && collisions == old(collisions)
      ensures id in info && info[id] == old(info)[id].(refCount := 0, inTried := true, randomPos := info[id].randomPos)
      ensures var slot := h.TriedSlot(old(info)[id].addr);
              && tried == old(tried)[slot := id]
              && (slot in old(tried) ==> old(tried)[slot] in info && !info[old(tried)[slot]].inTried)
      ensures recent == AfterMove(h, old(T()), id)
    {
      hide Agree, Grows, Histories, Vacated;
      MoveOut(id);
      var slot := h.TriedSlot(info[id].addr);
      if slot in tried {
        HistoryOf(old(info), info, tried[slot], h, T(), id);
        ghost var was := info;
        MakeRoom(id, slot);
        HistoriesTrans(old(info), was, info);
      }
      ghost var was := info;
      EnterTried(id, slot);
      HistoriesTrans(old(info), was, info);
      GrowsByHistory(old(T()), T());
    }

    /** Take the entry out of the new table. */
    method MoveOut(id: Id)
      requires Agree(h, T(), {}, {}) && id in info && !info[id].inTried
      modifies `info, `recent, `nNew, `counts
      ensures Agree(h, T(), {}, {id}) && Histories(old(info), info) && id in info && info[id] == old(info)[id].(refCount := 0)
      ensures recent == Vacated(old(recent), id)
    {
      hide Agree, Vacated;
      LeaveNew(id);
      Depart(id);
    }

    /** Stop counting the entry as new. */
    method Depart(id: Id)
      requires Agree(h, T(), {id}, {}) && id in info
      modifies `nNew, `counts
      ensures Agree(h, T(), {}, {id})
    {
      hide Agree, CountNew;
      LooseFacts(h, T(), {id}, {}, id);
      DepartedOk(h, T(), id, {id}, {});
      assert {id} - {id} == {} && {} + {id} == {id};
      nNew := nNew - 1;
      counts := CountNew(counts, h.network(info[id].addr), -1);
    }

    method EnterTried(id: Id, slot: Slot)
      requires Agree(h, T(), {}, {id}) && id in info && !info[id].inTried && info[id].lastSuccess > 0
      requires slot == h.TriedSlot(info[id].addr) && slot !in tried
      modifies `tried, `nTried, `info, `counts
      ensures Agree(h, T(), {}, {}) && Histories(old(info), info)
      ensures tried == old(tried)[slot := id] && info == old(info)[id := old(info)[id].(inTried := true)]
    {
      hide Agree, CountTried;
      PromotedOk(h, T(), id, {}, {id});
      assert {id} - {id} == {};
      tried := tried[slot := id];
      nTried := nTried + 1;
      info := info[id := info[id].(inTried := true)];
      counts := CountTried(counts, h.network(info[id].addr), 1);
    }

    /** Move the entry in a tried slot to the new table, where it takes the place of whatever is there. */
    method MakeRoom(ghost id: Id, slot: Slot)
      requires Agree(h, T(), {}, {id}) && id in info && slot in tried && slot == h.TriedSlot(info[id].addr)
      modifies this
      ensures Agree(h, T(), {}, {id}) && tried == old(tried) - {slot} && idCount == old(idCount) && Histories(old(info), info)
      ensures id in info && SameEntry(old(info)[id], info[id])
      ensures old(tried)[slot] in info && !info[old(tried)[slot]].inTried && old(tried)[slot] != id && old(tried)[slot] in old(info)
      ensures recent == old(recent)[Home(h, old(info)[old(tried)[slot]]) := old(tried)[slot]]
      ensures lastGood == old(lastGood) && collisions == old(collisions)
    {
      hide Agree, CountTried;
      EvictedOk(h, T(), slot, {}, {id});
      var evict := tried[slot];
      info := info[evict := info[evict].(inTried := false)];
      tried := tried - {slot};
      nTried := nTried - 1;
      counts := CountTried(counts, h.network(info[evict].addr), -1);
      assert {id} + {evict} == {id, evict};
      Reenter(evict, id);
    }

    /** Put an entry that has left the tried table in the bucket of the new table it belongs to. */
    method Reenter(evict: Id, ghost id: Id)
      requires Agree(h, T(), {}, {id, evict}) && id in info && evict in info && !info[evict].inTried && id != evict
      modifies this
      ensures Agree(h, T(), {}, {id}) && tried == old(tried) && idCount == old(idCount) && Histories(old(info), info)
      ensures id in info && SameEntry(old(info)[id], info[id]) && evict in info && !info[evict].inTried
      ensures recent == old(recent)[Home(h, old(info)[evict]) := evict]
      ensures lastGood == old(lastGood) && collisions == old(collisions)
    {
      hide Agree, CountNew, Grows, OthersSame, Histories;
      BucketFacts(h, T(), {}, {id, evict}, info[evict].addr, info[evict].source);
      var bucket := h.newBucket(info[evict].addr, info[evict].source);
      var s := h.NewSlot(info[evict].addr, bucket);
      if s in recent { SlotFacts(h, T(), s, {}, {id, evict}); }
      ghost var before := T();
      ClearNew(s, {}, {id, evict});
      OthersSameAt(before, T(), s, evict);
      OthersSameAt(before, T(), s, id);
      ghost var cleared := info;
      EnterNew(evict, s, id);
      HistoriesOne(cleared, info, evict);
      HistoriesTrans(before.info, cleared, info);
    }

    method EnterNew(evict: Id, s: Slot, ghost id: Id)
      requires Agree(h, T(), {}, {id, evict}) && evict in info && !info[evict].inTried && id != evict
      requires s !in recent && s.bucket < NEW_BUCKETS && s == h.NewSlot(info[evict].addr, s.bucket)
      modifies `info, `recent, `nNew, `counts
      ensures Agree(h, T(), {}, {id}) && info == old(info)[evict := old(info)[evict].(refCount := 1)] && recent == old(recent)[s := evict]
    {
      hide Agree, CountNew;
      ReturnedOk(h, T(), s, evict, {}, {id, evict});
      assert {id, evict} - {evict} == {id};
      info := info[evict := info[evict].(refCount := 1)];
      recent := recent[s := evict];
      nNew := nNew + 1;
      counts := CountNew(counts, h.network(info[evict].addr), 1);
    }

    // ----- Operations

    /** Add one address as learned from `source`, to one more bucket of the new table if that is allowed. */
    method AddSingle(x: Announced, source: Service, penalty0: int, now: int) returns (inserted: bool)
      requires Valid()
      modifies this
      ensures Valid() && Grows(old(T()), T()) && collisions == old(collisions) && lastGood == old(lastGood)
      ensures Adds(h, old(T()), T(), x, source, penalty0, now, inserted)
    {
      hide Agree, CollisionsOk, Grows, Heard, MayMove, MayTake, SameFacts, Unplaced, RestKept;
      var addr := x.addr;
      UnplacedFacts(addr, source, Max0(x.time - (if addr == source then 0 else penalty0)), x.services);
      GrowsSame(T());
      RestSame(T(), h.NewSlot(addr, h.newBucket(addr, source)), if addr in addrs then addrs[addr] else idCount);
      if !x.routable { return false; }
      var penalty := if addr == source then 0 else penalty0;
      var found := Find(addr);
      FindFacts(h, T(), {}, {}, addr);
      if found.Some? {
        HeardFacts(info[found.value], x.time, {}, penalty, now);
        inserted := AddKnown(found.value, source, x.time, x.services, penalty, now, x.draw);
      } else {
        inserted := AddNew(Unplaced(addr, source, Max0(x.time - penalty), x.services), now);
      }
      CollisionsStay(h, old(T()), T(), collisions);
    }

    /** Put a known entry in one more bucket. */
    method AddKnown(id: Id, source: Service, time: int, services: set<nat>, penalty: int, now: int, draw: nat) returns (inserted: bool)
      requires Agree(h, T(), {}, {}) && id in info
      modifies this
      ensures Agree(h, T(), {}, {}) && Grows(old(T()), T()) && tried == old(tried) && collisions == old(collisions) && lastGood == old(lastGood)
      ensures var i := Heard(old(info)[id], time, {}, penalty, now);
              inserted <==> MayMove(i, time, draw) && MayTake(old(T()), h.NewSlot(i.addr, h.newBucket(i.addr, source)), id, i.refCount, now)
      ensures !inserted ==> recent == old(recent) && info.Keys == old(info.Keys)
      ensures var addr := old(info)[id].addr;
              && addr in addrs && addrs[addr] == id
              && (inserted ==> recent == old(recent)[h.NewSlot(addr, h.newBucket(addr, source)) := id])
      ensures id in info && SameFacts(Heard(old(info)[id], time, services, penalty, now), info[id])
      ensures RestKept(old(T()), T(), h.NewSlot(old(info)[id].addr, h.newBucket(old(info)[id].addr, source)), id)
    {
      hide Agree, Grows, Heard, MayMove, MayTake, RestKept;
      HeardFacts(old(info)[id], time, services, penalty, now);
      var more := Refresh(id, time, services, penalty, now, draw);
      ghost var before, slot := T(), h.NewSlot(info[id].addr, h.newBucket(info[id].addr, source));
      RestSame(before, slot, id);
      if !more {
        IdFacts(h, T(), {}, {}, id);
        RestAfter(old(T()), before, T(), slot, id);
        return false;
      }
      PlaceReady(h, T(), {}, id, source);
      MayTakeSame(old(T()), before, h.NewSlot(info[id].addr, h.newBucket(info[id].addr, source)), id, info[id].refCount, now);
      inserted := Place(id, h.newBucket(info[id].addr, source), now, {});
      GrowsTrans(old(T()), before, T());
      RestAfter(old(T()), before, T(), slot, id);
      IdFacts(h, T(), {}, {}, id);
    }

    /** Create an entry, and put it in its bucket or drop it again. */
    method AddNew(i: AddrInfo, now: int) returns (inserted: bool)
      requires Agree(h, T(), {}, {}) && i.addr !in addrs && !i.inTried && i.refCount == 0 && i.lastTry >= 0 && i.lastSuccess >= 0
      modifies this
      ensures Agree(h, T(), {}, {}) && Grows(old(T()), T()) && tried == old(tried) && collisions == old(collisions) && lastGood == old(lastGood)
      ensures var s := h.NewSlot(i.addr, h.newBucket(i.addr, i.source));
              && (inserted <==> MayTake(old(T()), s, old(idCount), 0, now))
              && (inserted ==> i.addr in addrs && recent == old(recent)[s := addrs[i.addr]])
              && (inserted ==> addrs[i.addr] == old(idCount) && addrs[i.addr] in info && SameFacts(i, info[addrs[i.addr]]))
      ensures !inserted ==> recent == old(recent) && info.Keys == old(info.Keys)
      ensures RestKept(old(T()), T(), h.NewSlot(i.addr, h.newBucket(i.addr, i.source)), old(idCount))
    {
      hide Agree, Grows, CountNew, MayTake, RestKept;
      var id := Create(i, {}, {});
      assert {} + {id} == {id};
      ghost var before := T();
      GrowsCreated(h, old(T()), i);
      PlaceReady(h, T(), {id}, id, i.source);
      NewFacts(h, old(T()), {}, {});
      MayTakeSame(old(T()), before, h.NewSlot(i.addr, h.newBucket(i.addr, i.source)), id, 0, now);
      inserted := Place(id, h.newBucket(i.addr, i.source), now, {id});
      GrowsTrans(old(T()), before, T());
      RestAfter(old(T()), before, T(), h.NewSlot(i.addr, h.newBucket(i.addr, i.source)), id);
      if inserted { IdFacts(h, T(), {}, {}, id); }
    }

    /** Update what is known of an entry; true if it may go to one more bucket. */
    method Refresh(id: Id, time: int, services: set<nat>, penalty: int, now: int, draw: nat) returns (more: bool)
      requires Agree(h, T(), {}, {}) && id in info
      modifies `info
      ensures Agree(h, T(), {}, {}) && Grows(old(T()), T()) && info == old(info)[id := Heard(old(info)[id], time, services, penalty, now)]
      ensures more <==> MayMove(info[id], time, draw)
    {
      hide Agree, Grows, Odds;
      var interval := if now - time < 24 * 3600 then 3600 else 24 * 3600;
      IdFacts(h, T(), {}, {}, id);
      var i := info[id];
      if i.time < time - interval - penalty {
        i := i.(time := Max0(time - penalty));
      }
      i := i.(services := i.services + services);
      StatsOk(h, T(), id, i, {}, {});
      info := info[id := i];
      GrowsByParts(old(T()), T());
      if time <= i.time { return false; }
      if i.inTried { return false; }
      if i.refCount == MAX_REFS { return false; }
      return draw % Odds(i.refCount) == 0;
    }

    /** Put the entry in its slot of the given bucket if it may take it; drop the entry if it is in no bucket at all. */
    method Place(id: Id, bucket: nat, now: int, ghost loose: set<Id>) returns (inserted: bool)
      requires Agree(h, T(), loose, {}) && id in info && !info[id].inTried && info[id].refCount < MAX_REFS && bucket < NEW_BUCKETS
      requires loose == (if info[id].refCount == 0 then {id} else {})
      modifies this
      ensures Agree(h, T(), {}, {}) && Grows(old(T()), T()) && tried == old(tried) && collisions == old(collisions) && lastGood == old(lastGood)
      ensures inserted <==> MayTake(old(T()), h.NewSlot(old(info)[id].addr, bucket), id, old(info)[id].refCount, now)
      ensures inserted ==> id in info && recent == old(recent)[h.NewSlot(old(info)[id].addr, bucket) := id]
      ensures !inserted ==> recent == old(recent) && info.Keys == old(info.Keys) - loose
      ensures id in info ==> SameFacts(old(info)[id], info[id])
      ensures RestKept(old(T()), T(), h.NewSlot(old(info)[id].addr, bucket), id)
    {
      hide Agree, Grows, Terrible;
      var s := h.NewSlot(info[id].addr, bucket);
      GrowsSame(T());
      RestSame(T(), s, id);
      inserted := s !in recent;
      if s in recent && recent[s] == id {
        SlotFacts(h, T(), s, loose, {});
        assert info.Keys - loose == info.Keys;
        return;
      }
      if !inserted {
        SlotFacts(h, T(), s, loose, {});
        inserted := Terrible(info[recent[s]], now) || (info[recent[s]].refCount > 1 && info[id].refCount == 0);
      }
      if inserted {
        Insert(id, s, loose);
      } else if info[id].refCount == 0 {
        Delete(id, loose, {});
        assert loose - {id} == {};
        GrowsByParts(old(T()), T());
      }
    }

    /** Give the slot to the entry, whatever is in it. */
    method Insert(id: Id, s: Slot, ghost loose: set<Id>)
      requires Agree(h, T(), loose, {}) && id in info && !info[id].inTried && info[id].refCount < MAX_REFS
      requires loose == (if info[id].refCount == 0 then {id} else {}) && (s in recent ==> recent[s] != id)
      requires s.bucket < NEW_BUCKETS && s == h.NewSlot(info[id].addr, s.bucket)
      modifies this
      ensures Agree(h, T(), {}, {}) && Grows(old(T()), T()) && tried == old(tried) && collisions == old(collisions) && lastGood == old(lastGood)
      ensures id in info && SameFacts(old(info)[id], info[id]) && recent == old(recent)[s := id]
      ensures RestKept(old(T()), T(), s, id)
    {
      hide Agree, Grows, Histories, RestKept, OthersSame;
      ClearNew(s, loose, {});
      OthersSameAt(old(T()), T(), s, id);
      GrowsByHistory(old(T()), T());
      ghost var before := T();
      Fill(id, s, loose);
      RestFilled(old(T()), before, T(), s, id);
      GrowsByParts(before, T());
      GrowsTrans(old(T()), before, T());
    }

    method Fill(id: Id, s: Slot, ghost loose: set<Id>)
      requires Agree(h, T(), loose, {}) && id in info && !info[id].inTried && info[id].refCount < MAX_REFS
      requires loose == (if info[id].refCount == 0 then {id} else {})
      requires s !in recent && s.bucket < NEW_BUCKETS && s == h.NewSlot(info[id].addr, s.bucket)
      modifies `info, `recent
      ensures Agree(h, T(), {}, {}) && recent == old(recent)[s := id] && info == old(info)[id := old(info)[id].(refCount := old(info)[id].refCount + 1)]
    {
      hide Agree;
      FilledOk(h, T(), s, id, loose, {});
      assert loose - {id} == {};
      info := info[id := info[id].(refCount := info[id].refCount + 1)];
      recent := recent[s := id];
    }

    /** Add addresses one after the other; true if any of them went to a bucket. */
    method Add(list: seq<Announced>, source: Service, penalty: int, now: int) returns (any: bool, ghost ts: seq<Tables>, ghost ins: seq<bool>)
      requires Valid()
      modifies this
      ensures Valid() && Grows(old(T()), T()) && collisions == old(collisions) && lastGood == old(lastGood)
      ensures AddsAll(h, ts, ins, list, source, penalty, now) && ts[0] == old(T()) && ts[|list|] == T()
      ensures any <==> true in ins
    {
      hide Agree, CollisionsOk, Grows, Adds;
      any, ts, ins := false, [T()], [];
      GrowsSame(T());
      for k := 0 to |list|
        invariant Valid() && Grows(old(T()), T()) && collisions == old(collisions) && lastGood == old(lastGood)
        invariant AddsAll(h, ts, ins, list[..k], source, penalty, now) && ts[0] == old(T()) && ts[k] == T()
        invariant any <==> true in ins
      {
        ghost var before := T();
        var added := AddSingle(list[k], source, penalty, now);
        GrowsTrans(old(T()), before, T());
        AddsNext(h, ts, ins, list[..k], list[k], source, penalty, now, T(), added);
        assert list[..k] + [list[k]] == list[..k + 1];
        any, ts, ins := any || added, ts + [T()], ins + [added];
      }
      assert list[..|list|] == list;
    }

    /** The address was connected to. Move it to the tried table, or note the collision if its place there is taken. */
    method Good(addr: Service, testBeforeEvict: bool, time: int) returns (moved: bool)
      requires Valid() && time > 0
      modifies this
      ensures Valid() && Grows(old(T()), T()) && lastGood == time
      ensures addr !in old(addrs) ==> !moved && T() == old(T()) && collisions == old(collisions)
      ensures addr in old(addrs) ==> Succeeded(h, old(T()), T(), addr, time)
      ensures addr in old(addrs) && old(addrs)[addr] in old(info) ==>
                var id := old(addrs)[addr];
                var waits := testBeforeEvict && h.TriedSlot(addr) in old(tried) && !old(info)[id].inTried;
                && (moved <==> !old(info)[id].inTried && !waits)
                && id in info && (info[id].inTried <==> old(info)[id].inTried || moved)
                && tried == (if moved then old(tried)[h.TriedSlot(addr) := id] else old(tried))
                && recent == (if moved then AfterMove(h, old(T()), id) else old(recent)) && OthersKept(old(info), info, id)
                && collisions == if waits && |old(collisions)| < 10 then old(collisions) + {id} else old(collisions)
    {
      hide Agree, CollisionsOk, Grows, Succeeded, OthersKept, Histories, AfterMove;
      GrowsSame(T());
      lastGood := time;
      var found := Find(addr);
      FindFacts(h, T(), {}, {}, addr);
      if found.None? { return false; }
      var id := found.value;
      RecordSuccess(id, time);
      if info[id].inTried { return false; }
      IdFacts(h, T(), {}, {}, id);
      var slot := h.TriedSlot(addr);
      if testBeforeEvict && slot in tried {
        if |collisions| < MAX_COLLISIONS {
          CollisionAdded(h, T(), collisions, id);
          collisions := collisions + {id};
        }
        return false;
      }
      ghost var before := T();
      MakeTried(id);
      SucceededStays(h, old(T()), before, T(), addr, time);
      KeptHistories(old(info), before.info, info, id);
      AfterMoveSame(h, old(T()), before, id);
      GrowsTrans(old(T()), before, T());
      CollisionsStay(h, old(T()), T(), collisions);
      return true;
    }

    method RecordSuccess(id: Id, time: int)
      requires Valid() && id in info && time > 0
      modifies `info
      ensures Valid() && Grows(old(T()), T())
      ensures info == old(info)[id := old(info)[id].(lastSuccess := time, lastTry := time, attempts := 0)]
      ensures Succeeded(h, old(T()), T(), info[id].addr, time) && OthersKept(old(info), info, id)
    {
      hide Agree, CollisionsOk, Grows;
      IdFacts(h, T(), {}, {}, id);
      var i := info[id].(lastSuccess := time, lastTry := time, attempts := 0);
      StatsOk(h, T(), id, i, {}, {});
      info := info[id := i];
      GrowsByParts(old(T()), T());
      CollisionsStay(h, old(T()), T(), collisions);
    }

    /** A connection was attempted. */
    method Attempt(addr: Service, countFailure: bool, time: int)
      requires Valid() && time >= 0
      modifies this
      ensures Valid() && Grows(old(T()), T()) && lastGood == old(lastGood) && collisions == old(collisions)
      ensures T() == old(T()).(info := info)
      ensures info == if addr !in addrs then old(info) else
                        var i := old(info)[addrs[addr]];
                        var counts := countFailure && i.lastCount < lastGood;
                        old(info)[addrs[addr] := i.(lastTry := time, lastCount := if counts then time else i.lastCount, attempts := i.attempts + if counts then 1 else 0)]
    {
      hide Agree, CollisionsOk, Grows;
      GrowsSame(T());
      var found := Find(addr);
      FindFacts(h, T(), {}, {}, addr);
      if found.None? { return; }
      var id := found.value;
      IdFacts(h, T(), {}, {}, id);
      var i := info[id].(lastTry := time);
      if countFailure && i.lastCount < lastGood {
        i := i.(lastCount := time, attempts := i.attempts + 1);
      }
      StatsOk(h, T(), id, i, {}, {});
      info := info[id := i];
      GrowsByParts(old(T()), T());
      CollisionsStay(h, old(T()), T(), collisions);
    }

    /** A connection was made, at the given time. */
    method Connected(addr: Service, time: int)
      requires Valid()
      modifies `info
      ensures Valid() && Grows(old(T()), T())
      ensures info == if addr in addrs && time - old(info)[addrs[addr]].time > 20 * 60 then old(info)[addrs[addr] := old(info)[addrs[addr]].(time := time)] else old(info)
    {
      hide Agree, CollisionsOk, Grows;
      GrowsSame(T());
      var found := Find(addr);
      FindFacts(h, T(), {}, {}, addr);
      if found.None? { return; }
      var id := found.value;
      IdFacts(h, T(), {}, {}, id);
      if time - info[id].time > 20 * 60 {
        StatsOk(h, T(), id, info[id].(time := time), {}, {});
        info := info[id := info[id].(time := time)];
        GrowsByParts(old(T()), T());
        CollisionsStay(h, old(T()), T(), collisions);
      }
    }

    method SetServices(addr: Service, services: set<nat>)
      requires Valid()
      modifies `info
      ensures Valid() && Grows(old(T()), T())
      ensures info == if addr in addrs then old(info)[addrs[addr] := old(info)[addrs[addr]].(services := services)] else old(info)
    {
      hide Agree, CollisionsOk, Grows;
      GrowsSame(T());
      var found := Find(addr);
      FindFacts(h, T(), {}, {}, addr);
      if found.None? { return; }
      var id := found.value;
      IdFacts(h, T(), {}, {}, id);
      StatsOk(h, T(), id, info[id].(services := services), {}, {});
      info := info[id := info[id].(services := services)];
      GrowsByParts(old(T()), T());
      CollisionsStay(h, old(T()), T(), collisions);
    }

    /** Decide the pending collisions for which that is possible. */
    method ResolveCollisions(now: int, valid: Service -> bool)
      requires Valid() && now > 0
      modifies this
      ensures Valid() && Grows(old(T()), T()) && collisions <= old(collisions)
      ensures forall s <- old(tried) | Fresh(old(T()), s, now) :: s in tried && tried[s] == old(tried)[s]
      ensures forall id <- old(collisions) - collisions :: Settled(h, T(), id, now, valid)
      ensures forall id <- collisions :: Waits(h, old(T()), id, now, valid)
    {
      hide Agree, CollisionsOk, Grows, Waits, Settled, Replaces, Taken, Resolving;
      GrowsSame(T());
      ResolvingStart(h, T(), collisions, now);
      var todo := collisions;
      while todo != {}
        invariant Valid() && Grows(old(T()), T()) && todo <= collisions <= old(collisions) && Resolving(old(T()), T(), todo, now)
        invariant forall id <- old(collisions) - collisions :: Settled(h, T(), id, now, valid)
        invariant forall id <- collisions - todo :: Waits(h, old(T()), id, now, valid)
        decreases |todo|
      {
        var id :| id in todo;
        ghost var before := T();
        var erase := Resolve(id, now, valid);
        GrowsTrans(old(T()), before, T());
        if Replaces(h, before, id, now, valid) {
          ResolvingNext(h, old(T()), before, T(), todo, id, now, valid);
          forall x <- old(collisions) - collisions ensures Settled(h, T(), x, now, valid) { SettledStays(h, before, T(), id, x, now, valid); }
        } else {
          if erase { NothingToReplace(h, T(), id, now, valid); } else { WaitedBefore(h, old(T()), T(), todo, id, now, valid); }
          ResolvingFewer(old(T()), T(), todo, todo - {id}, now);
        }
        todo := todo - {id};
        if erase {
          CollisionsFewer(h, T(), collisions, collisions - {id});
          collisions := collisions - {id};
        }
      }
      ResolvingKeeps(old(T()), T(), todo, now);
    }

    /** Decide one collision; true if it is settled. */
    method Resolve(id: Id, now: int, valid: Service -> bool) returns (erase: bool)
      requires Valid() && now > 0
      modifies this
      ensures Valid() && Grows(old(T()), T()) && collisions == old(collisions)
      ensures !erase <==> Waits(h, old(T()), id, now, valid)
      ensures if Replaces(h, old(T()), id, now, valid) then erase && Taken(h, old(T()), T(), id, now) else T() == old(T())
    {
      hide Agree, CollisionsOk, Grows, Succeeded, OthersKept, Taken;
      GrowsSame(T());
      if id !in info { return true; }
      var slot, addr := h.TriedSlot(info[id].addr), info[id].addr;
      if !valid(addr) { return true; }
      if slot in tried {
        TriedEntry(h, T(), slot);
        var held := info[tried[slot]];
        if now - held.lastSuccess < REPLACEMENT { return true; }
        if now - held.lastTry < REPLACEMENT {
          if now - held.lastTry > 60 {
            Replace(id, now);
            return true;
          }
          return false;
        }
        if now - info[id].lastSuccess > TEST_WINDOW {
          Replace(id, now);
          return true;
        }
        return false;
      }
      Replace(id, now);
      return true;
    }

    /** Let the waiting entry have its place in the tried table. */
    method Replace(id: Id, now: int)
      requires Valid() && now > 0 && id in info
      modifies this
      ensures Valid() && Grows(old(T()), T()) && collisions == old(collisions) && Taken(h, old(T()), T(), id, now)
    {
      hide Agree, CollisionsOk, Grows;
      IdFacts(h, T(), {}, {}, id);
      var _ := Good(info[id].addr, false, now);
      if old(info)[id].inTried {
        TriedHere(h, old(T()), id);
        assert old(tried)[h.TriedSlot(old(info)[id].addr) := id] == old(tried);
      }
    }

    /** The tried entry that some pending collision would replace. The slot looked up is never empty. */
    method SelectTriedCollision() returns (r: Option<(Service, int)>)
      requires Valid()
      modifies `collisions
      ensures Valid() && collisions <= old(collisions)
      ensures r.None? ==> old(collisions) == {} || exists id :: id in old(collisions) && id !in info && collisions == old(collisions) - {id}
      ensures r.Some? ==> collisions == old(collisions) && exists id :: id in collisions && id in info && HoldsTried(h, T(), h.TriedSlot(info[id].addr), r.value.0, r.value.1)
    {
      hide Agree;
      if collisions == {} { return None; }
      var id :| id in collisions;
      if id !in info {
        CollisionsFewer(h, T(), collisions, collisions - {id});
        collisions := collisions - {id};
        return None;
      }
      var slot := h.TriedSlot(info[id].addr);
      TriedEntry(h, T(), slot);
      var held := info[tried[slot]];
      assert HoldsTried(h, T(), slot, held.addr, held.lastTry);
      return Some((held.addr, held.lastTry));
    }

    /** A random selection of the entries asked for, without repetition; all of them if there are not too many. */
    method GetAddr(maxAddresses: nat, maxPct: nat, f: Filter) returns (list: seq<Service>)
      requires Valid()
      modifies `info, `random
      ensures Valid() && Grows(old(T()), T()) && SameButPos(old(info), info)
      ensures |random| == |old(random)| && |list| <= Wanted(|random|, maxAddresses, maxPct)
      ensures forall k | 0 <= k < |list| :: list[k] in addrs && addrs[list[k]] in info && Qualifies(h, info[addrs[list[k]]], f)
      ensures forall k, m | 0 <= k < m < |list| :: list[k] != list[m]
      ensures |list| < Wanted(|random|, maxAddresses, maxPct) ==> forall x <- info | Qualifies(h, info[x], f) :: info[x].addr in list
    {
      hide Agree, CollisionsOk, Grows, Wanted, Sampled, SameButPos, Qualifies, Terrible;
      var nodes := Wanted(|random|, maxAddresses, maxPct);
      list := [];
      ghost var ids: seq<Id> := [];
      var n := 0;
      SampleStart(h, T(), f);
      while n < |random|
        invariant 0 <= n <= |random| && Agree(h, T(), {}, {}) && SameButPos(old(info), info)
        invariant |list| <= nodes && |random| == |old(random)| && Sampled(h, info, ids, list, n, f)
      {
        if |list| >= nodes { break; }
        var pos :| n <= pos < |random|;
        ghost var before := info;
        SwapRandom(n, pos, {}, {});
        SameTrans(old(info), before, info);
        RandomFacts(h, T(), {}, {}, n);
        SampleSame(h, before, info, ids, list, n, f);
        SampleNext(h, info, ids, list, n, random[n], f);
        var id := random[n];
        n := n + 1;
        QualifiesOr(h, info[id], f);
        if f.network.Some? && h.netClass(info[id].addr) != f.network.value { continue; }
        if Terrible(info[id], f.now) && f.filtered { continue; }
        list := list + [info[id].addr];
        ids := ids + [id];
      }
      SampleDone(h, T(), ids, list, n, f);
      SameGrows(old(T()), T());
      CollisionsStay(h, old(T()), T(), collisions);
    }
  }

  // ----- Pending collisions

  /** The entry in this tried slot was connected to not long ago. */
  predicate Fresh(t: Tables, s: Slot, now: int) {
    s in t.tried && t.tried[s] in t.info && now - t.info[t.tried[s]].lastSuccess < 4 * 60 * 60
  }

  /** The entry in the slot was tried in vain, or could not be tried for too long. */
  predicate Overdue(t: Tables, s: Slot, id: Id, now: int)
    requires id in t.info
  {
    s in t.tried && t.tried[s] in t.info && var held := t.info[t.tried[s]];
    if now - held.lastTry < 4 * 60 * 60 then now - held.lastTry > 60 else now - t.info[id].lastSuccess > 40 * 60
  }

  /** The waiting entry is to take its place in the tried table. */
  predicate Replaces(h: Hashes, t: Tables, id: Id, now: int, valid: Service -> bool) {
    id in t.info && valid(t.info[id].addr) && var s := h.TriedSlot(t.info[id].addr);
    s !in t.tried || (!Fresh(t, s, now) && Overdue(t, s, id, now))
  }

  /** It is too early to decide about the waiting entry. */
  ghost predicate Waits(h: Hashes, t: Tables, id: Id, now: int, valid: Service -> bool) {
    id in t.info && valid(t.info[id].addr) && var s := h.TriedSlot(t.info[id].addr);
    s in t.tried && !Fresh(t, s, now) && !Overdue(t, s, id, now)
  }

  /** There is nothing to wait for: the entry is gone, or its place in the tried table is held by an entry connected to not long ago, such as itself. */
  ghost predicate Settled(h: Hashes, t: Tables, id: Id, now: int, valid: Service -> bool) {
    id in t.info && valid(t.info[id].addr) ==> Fresh(t, h.TriedSlot(t.info[id].addr), now)
  }

  /** No entry was added, and entries other than `id` have their history. */
  ghost predicate OthersKept(a: Infos, b: Infos, id: Id) {
    b.Keys <= a.Keys && forall x <- b | x != id :: SameHistory(a[x], b[x])
  }

  lemma {:induction false} AfterMoveSame(h: Hashes, a: Tables, b: Tables, id: Id)
    requires a.recent == b.recent && a.tried == b.tried && id in a.info && id in b.info && a.info.Keys == b.info.Keys
    requires forall x <- a.info :: b.info[x].addr == a.info[x].addr && b.info[x].source == a.info[x].source
    ensures AfterMove(h, a, id) == AfterMove(h, b, id)
  {
    hide Vacated;
  }

  lemma {:induction false} HistoryOf(a: Infos, b: Infos, x: Id, h: Hashes, t: Tables, id: Id)
    requires Histories(a, b) && b == t.info && Agree(h, t, {}, {id}) && exists s <- t.tried :: t.tried[s] == x
    ensures x in a && x in b && SameHistory(a[x], b[x])
  {}

  lemma {:induction false} KeptHistories(a: Infos, b: Infos, c: Infos, id: Id)
    requires OthersKept(a, b, id) && Histories(b, c)
    ensures OthersKept(a, c, id)
  {}

  /** The entry has taken its place in the tried table, with a success recorded. */
  ghost predicate Taken(h: Hashes, a: Tables, b: Tables, id: Id, now: int) {
    && id in a.info && id in b.info && b.info[id].addr == a.info[id].addr && b.info[id].lastSuccess == now
    && b.tried == a.tried[h.TriedSlot(a.info[id].addr) := id] && OthersKept(a.info, b.info, id)
  }

  /** The slot holds the entry it held, with the same history. */
  ghost predicate HeldAsBefore(a: Tables, b: Tables, s: Slot) {
    && s in a.tried && s in b.tried && a.tried[s] == b.tried[s] && a.tried[s] in a.info && a.tried[s] in b.info
    && SameHistory(a.info[a.tried[s]], b.info[a.tried[s]])
  }

  /**
   While collisions are decided: an entry connected to not long ago keeps its slot, a slot that is not held by such an entry is as it was,
   and so are the entries still to be decided about.
   */
  ghost predicate Resolving(a: Tables, b: Tables, todo: set<Id>, now: int) {
    && (forall s <- a.tried | Fresh(a, s, now) :: s in b.tried && b.tried[s] == a.tried[s] && Fresh(b, s, now))
    && (forall s <- b.tried :: Fresh(b, s, now) || HeldAsBefore(a, b, s))
    && (forall x <- todo | x in b.info :: x in a.info && SameHistory(a.info[x], b.info[x]))
  }

  lemma {:induction false} ResolvingStart(h: Hashes, t: Tables, todo: set<Id>, now: int)
    requires Agree(h, t, {}, {})
    ensures Resolving(t, t, todo, now)
  {
    hide Agree;
    forall s <- t.tried ensures HeldAsBefore(t, t, s) { TriedEntry(h, t, s); }
  }

  lemma {:induction false} ResolvingFewer(a: Tables, b: Tables, todo: set<Id>, less: set<Id>, now: int)
    requires Resolving(a, b, todo, now) && less <= todo
    ensures Resolving(a, b, less, now)
  {
    hide Fresh, HeldAsBefore;
  }

  lemma {:induction false} ResolvingKeeps(a: Tables, b: Tables, todo: set<Id>, now: int)
    requires Resolving(a, b, todo, now)
    ensures forall s <- a.tried | Fresh(a, s, now) :: s in b.tried && b.tried[s] == a.tried[s]
  {
    hide Fresh, HeldAsBefore;
  }

  /** A slot held by an entry connected to not long ago is not given away. */
  lemma {:induction false} FreshStays(h: Hashes, a: Tables, b: Tables, id: Id, s: Slot, now: int, valid: Service -> bool)
    requires Agree(h, b, {}, {}) && Replaces(h, a, id, now, valid) && Taken(h, a, b, id, now) && Fresh(a, s, now)
    ensures s in b.tried && b.tried[s] == a.tried[s] && Fresh(b, s, now)
  {
    hide Agree;
    TriedEntry(h, b, s);
  }

  lemma {:induction false} TakenFresh(h: Hashes, a: Tables, b: Tables, id: Id, now: int)
    requires Taken(h, a, b, id, now)
    ensures Fresh(b, h.TriedSlot(b.info[id].addr), now)
  {}

  lemma {:induction false} HeldStays(h: Hashes, a: Tables, b: Tables, c: Tables, id: Id, s: Slot, now: int)
    requires Agree(h, c, {}, {}) && Taken(h, b, c, id, now) && HeldAsBefore(a, b, s) && s in c.tried
    ensures Fresh(c, s, now) || HeldAsBefore(a, c, s)
  {
    hide Agree;
    TriedEntry(h, c, s);
  }

  lemma {:induction false} ResolvingNext(h: Hashes, a: Tables, b: Tables, c: Tables, todo: set<Id>, id: Id, now: int, valid: Service -> bool)
    requires Agree(h, c, {}, {}) && Resolving(a, b, todo, now) && Replaces(h, b, id, now, valid) && Taken(h, b, c, id, now) && id in todo
    ensures Resolving(a, c, todo - {id}, now) && Settled(h, c, id, now, valid)
  {
    hide Agree, Fresh, HeldAsBefore, Replaces;
    TakenFresh(h, b, c, id, now);
    forall s <- a.tried | Fresh(a, s, now) ensures s in c.tried && c.tried[s] == a.tried[s] && Fresh(c, s, now) {
      FreshStays(h, b, c, id, s, now, valid);
    }
    forall s <- c.tried ensures Fresh(c, s, now) || HeldAsBefore(a, c, s) {
      if s != h.TriedSlot(b.info[id].addr) {
        if Fresh(b, s, now) { FreshStays(h, b, c, id, s, now, valid); } else { HeldStays(h, a, b, c, id, s, now); }
      }
    }
  }

  lemma {:induction false} SettledStays(h: Hashes, a: Tables, b: Tables, id: Id, x: Id, now: int, valid: Service -> bool)
    requires Agree(h, b, {}, {}) && Replaces(h, a, id, now, valid) && Taken(h, a, b, id, now) && Settled(h, a, x, now, valid)
    ensures Settled(h, b, x, now, valid)
  {
    hide Agree, Replaces, Fresh;
    if x in b.info && valid(b.info[x].addr) { FreshStays(h, a, b, id, h.TriedSlot(a.info[x].addr), now, valid); }
  }

  lemma {:induction false} NothingToReplace(h: Hashes, t: Tables, id: Id, now: int, valid: Service -> bool)
    requires !Replaces(h, t, id, now, valid) && !Waits(h, t, id, now, valid)
    ensures Settled(h, t, id, now, valid)
  {
    hide Fresh, Overdue;
  }

  lemma {:induction false} WaitedBefore(h: Hashes, a: Tables, b: Tables, todo: set<Id>, id: Id, now: int, valid: Service -> bool)
    requires Resolving(a, b, todo, now) && id in todo && Waits(h, b, id, now, valid)
    ensures Waits(h, a, id, now, valid)
  {}

  /** An entry of the tried table is in its slot. */
  lemma {:induction false} TriedHere(h: Hashes, t: Tables, id: Id)
    requires Agree(h, t, {}, {}) && id in t.info && t.info[id].inTried
    ensures h.TriedSlot(t.info[id].addr) in t.tried && t.tried[h.TriedSlot(t.info[id].addr)] == id
  {
    AgreeEntry(h, t, {}, {}, id);
  }

  // ----- A selection

  /** Which entries are asked for: of one network class or of any, and whether without the terrible ones. */
  datatype Filter = Filter(network: Option<Net>, filtered: bool, now: int)

  ghost predicate Qualifies(h: Hashes, i: AddrInfo, f: Filter) {
    (f.network.None? || h.netClass(i.addr) == f.network.value) && !(Terrible(i, f.now) && f.filtered)
  }

  lemma {:induction false} QualifiesOr(h: Hashes, i: AddrInfo, f: Filter)
    ensures Qualifies(h, i, f) <==> !(f.network.Some? && h.netClass(i.addr) != f.network.value) && !(Terrible(i, f.now) && f.filtered)
  {}

  /** The number of addresses to give: at most the given share of all, and at most the given number. */
  function Wanted(all: nat, maxAddresses: nat, maxPct: nat): (r: nat)
    ensures r <= all && (maxAddresses != 0 ==> r <= maxAddresses) && (0 < maxPct <= 100 ==> 100 * r <= maxPct * all)
    ensures r == all || (maxAddresses != 0 && r == maxAddresses) || (maxPct < 100 && 100 * (r + 1) > maxPct * all)
  {
    var share := if maxPct == 0 || maxPct >= 100 then all else maxPct * all / 100;
    assert maxPct < 100 ==> maxPct * all <= 100 * all;
    if maxAddresses != 0 && maxAddresses < share then maxAddresses else share
  }

  /** `list` are the addresses of the entries `ids`, all different: those that qualify of the first `n` in the random order. */
  ghost predicate Sampled(h: Hashes, info: Infos, ids: seq<Id>, list: seq<Service>, n: nat, f: Filter) {
    && |list| == |ids|
    && (forall k | 0 <= k < |ids| :: ids[k] in info && info[ids[k]].addr == list[k] && info[ids[k]].randomPos < n && Qualifies(h, info[ids[k]], f))
    && (forall k, m | 0 <= k < m < |ids| :: ids[k] != ids[m])
    && (forall x <- info | info[x].randomPos < n && Qualifies(h, info[x], f) :: x in ids)
  }

  lemma {:induction false} SampleStart(h: Hashes, t: Tables, f: Filter)
    requires Agree(h, t, {}, {})
    ensures Sampled(h, t.info, [], [], 0, f) && SameButPos(t.info, t.info)
  {
    hide Qualifies, Agree;
    forall x <- t.info ensures t.info[x].randomPos >= 0 { IdFacts(h, t, {}, {}, x); }
  }

  lemma {:induction false} SameTrans(a: Infos, b: Infos, c: Infos)
    requires SameButPos(a, b) && SameButPos(b, c)
    ensures SameButPos(a, c)
  {}

  lemma {:induction false} SameGrows(a: Tables, b: Tables)
    requires a.idCount == b.idCount && a.tried == b.tried && SameButPos(a.info, b.info)
    ensures Grows(a, b)
  {}

  lemma {:induction false} SampleSame(h: Hashes, a: Infos, b: Infos, ids: seq<Id>, list: seq<Service>, n: nat, f: Filter)
    requires Sampled(h, a, ids, list, n, f) && SameButPos(a, b)
    requires forall x <- b | a[x].randomPos < n || b[x].randomPos < n :: a[x].randomPos == b[x].randomPos
    ensures Sampled(h, b, ids, list, n, f)
  {
    hide Qualifies;
    forall x <- b | a[x].randomPos < n || b[x].randomPos < n ensures b[x] == a[x] { assert SameEntry(a[x], b[x]); }
  }

  lemma {:induction false} SampleNext(h: Hashes, info: Infos, ids: seq<Id>, list: seq<Service>, n: nat, id: Id, f: Filter)
    requires Sampled(h, info, ids, list, n, f) && id in info && info[id].randomPos == n
    requires forall x <- info | info[x].randomPos == n :: x == id
    ensures if Qualifies(h, info[id], f) then Sampled(h, info, ids + [id], list + [info[id].addr], n + 1, f) else Sampled(h, info, ids, list, n + 1, f)
  {
    hide Qualifies;
  }

  lemma {:induction false} SampleDone(h: Hashes, t: Tables, ids: seq<Id>, list: seq<Service>, n: nat, f: Filter)
    requires Agree(h, t, {}, {}) && Sampled(h, t.info, ids, list, n, f)
    ensures forall k | 0 <= k < |list| :: list[k] in t.addrs && t.addrs[list[k]] in t.info && Qualifies(h, t.info[t.addrs[list[k]]], f)
    ensures forall k, m | 0 <= k < m < |list| :: list[k] != list[m]
    ensures n == |t.random| ==> forall x <- t.info | Qualifies(h, t.info[x], f) :: t.info[x].addr in list
  {
    hide Agree, Qualifies;
    forall k | 0 <= k < |list| ensures list[k] in t.addrs && t.addrs[list[k]] == ids[k] { IdFacts(h, t, {}, {}, ids[k]); }
    forall x <- t.info | n == |t.random| && Qualifies(h, t.info[x], f) ensures t.info[x].addr in list {
      IdFacts(h, t, {}, {}, x);
      var k :| 0 <= k < |ids| && ids[k] == x;
      assert list[k] == t.info[x].addr;
    }
  }

  /** A success was recorded for the address, which is all that changed in its entry but its place in the tables. */
  ghost predicate Succeeded(h: Hashes, a: Tables, b: Tables, addr: Service, time: int) {
    addr in a.addrs && a.addrs[addr] in a.info && a.addrs[addr] in b.info &&
    var i := b.info[a.addrs[addr]];
    i == a.info[a.addrs[addr]].(lastSuccess := time, lastTry := time, attempts := 0, refCount := i.refCount, inTried := i.inTried, randomPos := i.randomPos)
  }

  lemma {:induction false} SucceededStays(h: Hashes, a: Tables, b: Tables, c: Tables, addr: Service, time: int)
    requires Succeeded(h, a, b, addr, time) && a.addrs[addr] in c.info
    requires var i, j := b.info[a.addrs[addr]], c.info[a.addrs[addr]];
             j == i.(refCount := j.refCount, inTried := j.inTried, randomPos := j.randomPos)
    ensures Succeeded(h, a, c, addr, time)
  {}

  function Max0(x: int): int { if x < 0 then 0 else x }

  ghost predicate HoldsTried(h: Hashes, t: Tables, s: Slot, a: Service, lastTry: int) {
    s in t.tried && t.tried[s] in t.info && t.info[t.tried[s]].inTried && t.info[t.tried[s]].addr == a && t.info[t.tried[s]].lastTry == lastTry
  }

  lemma {:induction false} GrowsSame(t: Tables)
    ensures Grows(t, t)
  {}

  lemma {:induction false} HeardFacts(i: AddrInfo, time: int, services: set<nat>, penalty: int, now: int)
    ensures var a, b := Heard(i, time, services, penalty, now), Heard(i, time, {}, penalty, now);
            && a == b.(services := a.services) && a == i.(time := a.time, services := a.services)
            && forall draw: nat :: (MayMove(a, time, draw) <==> MayMove(b, time, draw)) && (MayMove(a, time, draw) ==> !a.inTried && a.refCount < MAX_REFS)
  {}

  /** Whether an entry may take a slot depends on the entry in it only. */
  lemma {:induction false} MayTakeSame(a: Tables, b: Tables, s: Slot, id: Id, refs: int, now: int)
    requires a.recent == b.recent && (forall x <- a.info | x != id :: x in b.info && b.info[x] == a.info[x])
    requires forall x <- b.info | x != id :: x in a.info
    ensures MayTake(a, s, id, refs, now) <==> MayTake(b, s, id, refs, now)
  {
    hide Terrible;
  }

  lemma {:induction false} RestFilled(a: Tables, b: Tables, c: Tables, s: Slot, id: Id)
    requires OthersSame(a, b, s) && Histories(a.info, b.info) && id in b.info && c.info.Keys == b.info.Keys && forall x <- b.info | x != id :: c.info[x] == b.info[x]
    ensures RestKept(a, c, s, id)
  {}

  lemma {:induction false} RestSame(t: Tables, s: Slot, id: Id)
    ensures RestKept(t, t, s, id)
  {}

  lemma {:induction false} GrowsCreated(h: Hashes, t: Tables, i: AddrInfo)
    ensures Grows(t, Created(h, t, i))
  {
    hide CountNew;
  }

  lemma {:induction false} PlaceReady(h: Hashes, t: Tables, loose: set<Id>, id: Id, source: Service)
    requires Agree(h, t, loose, {}) && id in t.info && !t.info[id].inTried && (loose == {} || loose == {id})
    ensures loose == if t.info[id].refCount == 0 then {id} else {}
    ensures h.newBucket(t.info[id].addr, source) < NEW_BUCKETS
  {
    AgreeEntry(h, t, loose, {}, id);
  }

  lemma {:induction false} CollisionAdded(h: Hashes, t: Tables, collisions: set<Id>, id: Id)
    requires CollisionsOk(h, t, collisions) && id < t.idCount && id in t.info && h.TriedSlot(t.info[id].addr) in t.tried
    ensures CollisionsOk(h, t, collisions + {id})
  {}

  lemma {:induction false} CollisionsFewer(h: Hashes, t: Tables, a: set<Id>, b: set<Id>)
    requires CollisionsOk(h, t, a) && b <= a
    ensures CollisionsOk(h, t, b)
  {}

  lemma {:induction false} TriedEntry(h: Hashes, t: Tables, s: Slot)
    requires Agree(h, t, {}, {}) && s in t.tried
    ensures t.tried[s] in t.info && t.info[t.tried[s]].inTried
  {}

  lemma {:induction false} GrowsByParts(a: Tables, b: Tables)
    requires a.idCount <= b.idCount && a.tried.Keys <= b.tried.Keys && b.info.Keys <= a.info.Keys
    requires forall id <- b.info :: b.info[id].addr == a.info[id].addr
    ensures Grows(a, b)
  {}

  lemma {:induction false} GrowsByHistory(a: Tables, b: Tables)
    requires a.idCount <= b.idCount && a.tried.Keys <= b.tried.Keys && Histories(a.info, b.info)
    ensures Grows(a, b)
  {}

  lemma {:induction false} EmptyOk(h: Hashes)
    requires h.Valid()
    ensures Agree(h, Tables(0, map[], map[], [], 0, 0, map[], map[], map[]), {}, {})
  {
    var t := Tables(0, map[], map[], [], 0, 0, map[], map[], map[]);
    assert NewIds(t.info, {}) == {} && TriedIds(t.info) == {};
    forall n ensures InNet(h, t.info, NewIds(t.info, {}), n) == {} && InNet(h, t.info, TriedIds(t.info), n) == {} {}
  }

  lemma {:induction false} RandomFacts(h: Hashes, t: Tables, loose: set<Id>, transit: set<Id>, i: nat)
    requires Agree(h, t, loose, transit) && i < |t.random|
    ensures t.random[i] in t.info && t.info[t.random[i]].randomPos == i
    ensures forall x <- t.info | t.info[x].randomPos == i :: x == t.random[i]
  {}

  lemma {:induction false} SwappedPlaces(h: Hashes, t: Tables, i: nat, j: nat, loose: set<Id>, transit: set<Id>)
    requires Agree(h, t, loose, transit) && i < |t.random| && j < |t.random| && t.random[i] in t.info && t.random[j] in t.info
    ensures forall x <- t.info :: var p, info := t.info[x].randomPos, Swapped(t, i, j).info;
                                  x in info && info[x].randomPos == if p == i then j else if p == j then i else p
  {
    hide Agree;
    RandomFacts(h, t, loose, transit, i);
    RandomFacts(h, t, loose, transit, j);
  }

  lemma {:induction false} AllBuckets(t: Tables, id: Id, start: nat)
    ensures BucketsFrom(t, id, start, 0)
  {}
}
