/**
 The tables of an address manager: entries by id, ids by address, ids in random order, the tables of
 new and tried addresses, and counters. What makes them agree, and why every elementary change keeps
 them in agreement.
 */
module AddressTables {

  type Id = nat
  type Service = nat
  type Net = nat

  /** A place in a table: bucket and position. */
  datatype Slot = Slot(bucket: nat, pos: nat)

  datatype AddrInfo = AddrInfo(addr: Service, source: Service, time: int, services: set<nat>, lastTry: int, lastCount: int, lastSuccess: int,
                               attempts: int, refCount: int, inTried: bool, randomPos: int)

  datatype Count = Count(recent: int, tried: int)

  const NEW_BUCKETS := 1024
  const TRIED_BUCKETS := 256
  const BUCKET_SIZE := 64
  const MAX_REFS := 8
  const MAX_COLLISIONS := 10

  /** The keyed hashes that place an address, the network of an address, and the class of network it belongs to. */
  datatype Hashes = Hashes(triedBucket: Service -> nat, newBucket: (Service, Service) -> nat, position: (Service, bool, nat) -> nat,
                           network: Service -> Net, netClass: Service -> Net)
  {
    ghost predicate Valid() {
      && (forall a :: triedBucket(a) < 256)
      && (forall a, b :: newBucket(a, b) < 1024)
      && (forall a, n, b :: position(a, n, b) < 64)
    }

    function TriedSlot(a: Service): Slot {
      Slot(triedBucket(a), position(a, false, triedBucket(a)))
    }

    function NewSlot(a: Service, bucket: nat): Slot {
      Slot(bucket, position(a, true, bucket))
    }
  }

  type Infos = map<Id, AddrInfo>
  type Table = map<Slot, Id>

  datatype Tables = Tables(idCount: Id, info: Infos, addrs: map<Service, Id>, random: seq<Id>, nTried: int, nNew: int,
                           tried: Table, recent: Table, counts: map<Net, Count>)

  // ----- Agreement

  ghost predicate MapsAgree(t: Tables) {
    && (forall id <- t.info :: id < t.idCount && t.info[id].addr in t.addrs && t.addrs[t.info[id].addr] == id)
    && (forall a <- t.addrs :: t.addrs[a] in t.info && t.info[t.addrs[a]].addr == a)
  }

  ghost predicate RandomAgrees(info: Infos, random: seq<Id>) {
    && (forall id <- info :: 0 <= info[id].randomPos < |random| && random[info[id].randomPos] == id)
    && (forall i | 0 <= i < |random| :: random[i] in info && info[random[i]].randomPos == i)
  }

  /** The slots of the new table that hold `id`. */
  ghost function SlotsOf(recent: Table, id: Id): set<Slot> {
    set s <- recent | recent[s] == id
  }

  /** `loose` entries count as new but are in no bucket; entries in `transit` count neither as new nor as tried. */
  ghost predicate EntryOk(h: Hashes, t: Tables, loose: set<Id>, transit: set<Id>, id: Id)
    requires id in t.info
  {
    var i := t.info[id];
    && i.lastTry >= 0 && i.lastSuccess >= 0
    && if i.inTried then
         i.refCount == 0 && i.lastSuccess > 0 && id !in loose && id !in transit
         && h.TriedSlot(i.addr) in t.tried && t.tried[h.TriedSlot(i.addr)] == id
       else
         i.refCount == |SlotsOf(t.recent, id)| <= 8 && (i.refCount == 0 <==> id in loose || id in transit)
  }

  ghost predicate TriedOk(h: Hashes, t: Tables) {
    forall s <- t.tried :: t.tried[s] in t.info && t.info[t.tried[s]].inTried && h.TriedSlot(t.info[t.tried[s]].addr) == s
  }

  ghost predicate NewOk(h: Hashes, t: Tables) {
    forall s <- t.recent :: && t.recent[s] in t.info && !t.info[t.recent[s]].inTried
                           && s.bucket < 1024 && s == h.NewSlot(t.info[t.recent[s]].addr, s.bucket)
  }

  ghost function NewIds(info: Infos, transit: set<Id>): set<Id> {
    set id <- info | !info[id].inTried && id !in transit
  }

  ghost function TriedIds(info: Infos): set<Id> {
    set id <- info | info[id].inTried
  }

  ghost function InNet(h: Hashes, info: Infos, ids: set<Id>, n: Net): set<Id> {
    set id <- ids | id in info && h.network(info[id].addr) == n
  }

  function CountOf(counts: map<Net, Count>, n: Net): Count {
    if n in counts then counts[n] else Count(0, 0)
  }

  ghost predicate CountsOk(h: Hashes, t: Tables, transit: set<Id>) {
    && t.nNew == |NewIds(t.info, transit)| && t.nTried == |TriedIds(t.info)|
    && forall n :: CountOf(t.counts, n) == Count(|InNet(h, t.info, NewIds(t.info, transit), n)|, |InNet(h, t.info, TriedIds(t.info), n)|)
  }

  ghost predicate Agree(h: Hashes, t: Tables, loose: set<Id>, transit: set<Id>) {
    && h.Valid() && MapsAgree(t) && RandomAgrees(t.info, t.random)
    && (loose + transit) <= t.info.Keys && loose !! transit
    && (forall id <- t.info :: EntryOk(h, t, loose, transit, id))
    && TriedOk(h, t) && NewOk(h, t) && CountsOk(h, t, transit)
  }

  lemma {:induction false} AgreeFacts(h: Hashes, t: Tables, loose: set<Id>, transit: set<Id>)
    requires Agree(h, t, loose, transit)
    ensures h.Valid() && MapsAgree(t) && RandomAgrees(t.info, t.random)
    ensures (loose + transit) <= t.info.Keys && loose !! transit
    ensures TriedOk(h, t) && NewOk(h, t) && CountsOk(h, t, transit)
  {}

  lemma {:induction false} AgreeEntry(h: Hashes, t: Tables, loose: set<Id>, transit: set<Id>, id: Id)
    requires Agree(h, t, loose, transit) && id in t.info
    ensures EntryOk(h, t, loose, transit, id)
  {}

  lemma {:induction false} AgreeByParts(h: Hashes, t: Tables, loose: set<Id>, transit: set<Id>)
    requires h.Valid() && MapsAgree(t) && RandomAgrees(t.info, t.random)
    requires (loose + transit) <= t.info.Keys && loose !! transit
    requires forall id <- t.info :: EntryOk(h, t, loose, transit, id)
    requires TriedOk(h, t) && NewOk(h, t) && CountsOk(h, t, transit)
    ensures Agree(h, t, loose, transit)
  {}

  // ----- Counting

  function One(b: bool): int { if b then 1 else 0 }

  /** How a change of the one entry `id` changes the number of elements of a set that others stay in. */
  lemma {:induction false} CardMove<T>(a: set<T>, b: set<T>, x: T)
    requires forall y | y != x :: y in a <==> y in b
    ensures |b| == |a| - One(x in a) + One(x in b)
  {
    if x in a && x !in b {
      assert b == a - {x};
    } else if x !in a && x in b {
      assert b == a + {x};
    } else {
      assert a == b;
    }
  }

  /** Entries other than `id` are counted the same in both. */
  ghost predicate CountedSame(a: Infos, ta: set<Id>, b: Infos, tb: set<Id>, id: Id) {
    forall x | x != id :: (x in a <==> x in b) && (x in a ==> a[x].addr == b[x].addr && a[x].inTried == b[x].inTried && (x in ta <==> x in tb))
  }

  ghost predicate CountsAs(info: Infos, transit: set<Id>, id: Id, tried: bool) {
    id in info && info[id].inTried == tried && (tried || id !in transit)
  }

  lemma {:induction false} CountsMove(h: Hashes, a: Tables, ta: set<Id>, b: Tables, tb: set<Id>, id: Id, addr: Service)
    requires CountsOk(h, a, ta) && CountedSame(a.info, ta, b.info, tb, id)
    requires (id in a.info ==> a.info[id].addr == addr) && (id in b.info ==> b.info[id].addr == addr)
    requires var dn, dt := One(CountsAs(b.info, tb, id, false)) - One(CountsAs(a.info, ta, id, false)),
                           One(CountsAs(b.info, tb, id, true)) - One(CountsAs(a.info, ta, id, true));
             && b.nNew == a.nNew + dn && b.nTried == a.nTried + dt
             && forall n :: CountOf(b.counts, n) == if n == h.network(addr) then Count(CountOf(a.counts, n).recent + dn, CountOf(a.counts, n).tried + dt)
                                                    else CountOf(a.counts, n)
    ensures CountsOk(h, b, tb)
  {
    hide CountOf;
    CardMove(NewIds(a.info, ta), NewIds(b.info, tb), id);
    CardMove(TriedIds(a.info), TriedIds(b.info), id);
    forall n ensures CountOf(b.counts, n) == Count(|InNet(h, b.info, NewIds(b.info, tb), n)|, |InNet(h, b.info, TriedIds(b.info), n)|) {
      CardMove(InNet(h, a.info, NewIds(a.info, ta), n), InNet(h, b.info, NewIds(b.info, tb), n), id);
      CardMove(InNet(h, a.info, TriedIds(a.info), n), InNet(h, b.info, TriedIds(b.info), n), id);
    }
  }

  function CountNew(counts: map<Net, Count>, n: Net, k: int): map<Net, Count> {
    counts[n := CountOf(counts, n).(recent := CountOf(counts, n).recent + k)]
  }

  function CountTried(counts: map<Net, Count>, n: Net, k: int): map<Net, Count> {
    counts[n := CountOf(counts, n).(tried := CountOf(counts, n).tried + k)]
  }

  // ----- What stays the same

  /** The entry is the same but for its place in the random order. */
  ghost predicate SameEntry(i: AddrInfo, j: AddrInfo) {
    j == i.(randomPos := j.randomPos)
  }

  lemma {:induction false} EntryFrame(h: Hashes, a: Tables, la: set<Id>, ta: set<Id>, b: Tables, lb: set<Id>, tb: set<Id>, x: Id)
    requires x in a.info && x in b.info && EntryOk(h, a, la, ta, x) && SameEntry(a.info[x], b.info[x])
    requires SlotsOf(a.recent, x) == SlotsOf(b.recent, x) && (x in la <==> x in lb) && (x in ta <==> x in tb)
    requires h.TriedSlot(a.info[x].addr) in a.tried ==>
               h.TriedSlot(a.info[x].addr) in b.tried && b.tried[h.TriedSlot(a.info[x].addr)] == a.tried[h.TriedSlot(a.info[x].addr)]
    ensures EntryOk(h, b, lb, tb, x)
  {}

  /** Entries keep their address and their place in the random order. */
  ghost predicate SamePlaces(a: Tables, b: Tables) {
    && b.idCount == a.idCount && b.addrs == a.addrs && b.random == a.random && b.info.Keys == a.info.Keys
    && forall id <- a.info :: b.info[id].addr == a.info[id].addr && b.info[id].randomPos == a.info[id].randomPos
  }

  lemma {:induction false} PlacesFrame(a: Tables, b: Tables)
    requires MapsAgree(a) && RandomAgrees(a.info, a.random) && SamePlaces(a, b)
    ensures MapsAgree(b) && RandomAgrees(b.info, b.random)
  {}

  // ----- A new entry

  function Created(h: Hashes, t: Tables, i: AddrInfo): Tables {
    var id := t.idCount;
    t.(idCount := id + 1, info := t.info[id := i.(randomPos := |t.random|)], addrs := t.addrs[i.addr := id], random := t.random + [id],
       nNew := t.nNew + 1, counts := CountNew(t.counts, h.network(i.addr), 1))
  }

  lemma {:induction false} CreatedPlaces(h: Hashes, t: Tables, i: AddrInfo)
    requires MapsAgree(t) && RandomAgrees(t.info, t.random) && i.addr !in t.addrs
    ensures t.idCount !in t.info && MapsAgree(Created(h, t, i)) && RandomAgrees(Created(h, t, i).info, Created(h, t, i).random)
  {
    hide CountNew;
  }

  lemma {:induction false} NoSlots(h: Hashes, t: Tables, id: Id)
    requires NewOk(h, t) && id !in t.info
    ensures SlotsOf(t.recent, id) == {}
  {}

  lemma {:induction false} CreatedTables(h: Hashes, t: Tables, i: AddrInfo)
    requires TriedOk(h, t) && NewOk(h, t) && t.idCount !in t.info
    ensures TriedOk(h, Created(h, t, i)) && NewOk(h, Created(h, t, i))
  {
    hide CountNew;
  }

  lemma {:induction false} CreatedCounts(h: Hashes, t: Tables, i: AddrInfo, transit: set<Id>)
    requires CountsOk(h, t, transit) && t.idCount !in t.info && t.idCount !in transit && !i.inTried
    ensures CountsOk(h, Created(h, t, i), transit)
  {
    hide CountsOk;
    CountsMove(h, t, transit, Created(h, t, i), transit, t.idCount, i.addr);
  }

  /** A new entry, in no bucket yet. */
  lemma {:induction false} CreatedOk(h: Hashes, t: Tables, i: AddrInfo, loose: set<Id>, transit: set<Id>)
    requires Agree(h, t, loose, transit) && i.addr !in t.addrs && !i.inTried && i.refCount == 0 && i.lastTry >= 0 && i.lastSuccess >= 0
    ensures Agree(h, Created(h, t, i), loose + {t.idCount}, transit) && t.idCount !in t.info
  {
    hide Agree, MapsAgree, RandomAgrees, TriedOk, NewOk, CountsOk;
    var r, id := Created(h, t, i), t.idCount;
    AgreeFacts(h, t, loose, transit);
    CreatedPlaces(h, t, i);
    CreatedTables(h, t, i);
    CreatedCounts(h, t, i, transit);
    NoSlots(h, t, id);
    forall x <- r.info ensures EntryOk(h, r, loose + {id}, transit, x) {
      if x != id {
        AgreeEntry(h, t, loose, transit, x);
        EntryFrame(h, t, loose, transit, r, loose + {id}, transit, x);
      }
    }
    AgreeByParts(h, r, loose + {id}, transit);
  }

  // ----- Another random order

  function SwapPos(info: Infos, random: seq<Id>, i: nat, j: nat): Infos
    requires i < |random| && j < |random| && random[i] in info && random[j] in info
  {
    var a := info[random[i] := info[random[i]].(randomPos := j)];
    a[random[j] := a[random[j]].(randomPos := i)]
  }

  function Swapped(t: Tables, i: nat, j: nat): Tables
    requires i < |t.random| && j < |t.random| && t.random[i] in t.info && t.random[j] in t.info
  {
    if i == j then t
    else t.(info := SwapPos(t.info, t.random, i, j), random := t.random[i := t.random[j]][j := t.random[i]])
  }

  ghost predicate SameButPos(a: Infos, b: Infos) {
    a.Keys == b.Keys && forall id <- a :: SameEntry(a[id], b[id])
  }

  lemma {:induction false} PosChangeTables(h: Hashes, t: Tables, info: Infos, random: seq<Id>)
    requires SameButPos(t.info, info) && MapsAgree(t) && TriedOk(h, t) && NewOk(h, t)
    ensures var r := t.(info := info, random := random);
            MapsAgree(r) && TriedOk(h, r) && NewOk(h, r)
  {}

  lemma {:induction false} NoNextId(t: Tables)
    requires MapsAgree(t)
    ensures t.idCount !in t.info
  {}

  lemma {:induction false} PosChange(h: Hashes, t: Tables, info: Infos, random: seq<Id>, loose: set<Id>, transit: set<Id>)
    requires Agree(h, t, loose, transit) && SameButPos(t.info, info) && RandomAgrees(info, random)
    ensures Agree(h, t.(info := info, random := random), loose, transit)
  {
    hide Agree, MapsAgree, RandomAgrees, TriedOk, NewOk, CountsOk;
    var r := t.(info := info, random := random);
    AgreeFacts(h, t, loose, transit);
    PosChangeTables(h, t, info, random);
    assert t.idCount !in t.info by { NoNextId(t); }
    CountsMove(h, t, transit, r, transit, t.idCount, 0);
    forall x <- r.info ensures EntryOk(h, r, loose, transit, x) {
      AgreeEntry(h, t, loose, transit, x);
      EntryFrame(h, t, loose, transit, r, loose, transit, x);
    }
    AgreeByParts(h, r, loose, transit);
  }

  lemma {:induction false} SwappedRandom(info: Infos, random: seq<Id>, i: nat, j: nat)
    requires RandomAgrees(info, random) && i < |random| && j < |random| && i != j
    ensures random[i] in info && random[j] in info
    ensures SameButPos(info, SwapPos(info, random, i, j))
    ensures RandomAgrees(SwapPos(info, random, i, j), random[i := random[j]][j := random[i]])
  {}

  lemma {:induction false} SwappedOk(h: Hashes, t: Tables, i: nat, j: nat, loose: set<Id>, transit: set<Id>)
    requires Agree(h, t, loose, transit) && i < |t.random| && j < |t.random|
    ensures t.random[i] in t.info && t.random[j] in t.info
    ensures Agree(h, Swapped(t, i, j), loose, transit) && SameButPos(t.info, Swapped(t, i, j).info)
  {
    AgreeFacts(h, t, loose, transit);
    assert t.random[i] in t.info && t.random[j] in t.info;
    hide Agree, MapsAgree, RandomAgrees, TriedOk, NewOk, CountsOk, SwapPos;
    if i != j {
      SwappedRandom(t.info, t.random, i, j);
      PosChange(h, t, SwapPos(t.info, t.random, i, j), t.random[i := t.random[j]][j := t.random[i]], loose, transit);
    }
  }

  // ----- Removing an entry

  /** The entry `id`, last in the random order, is removed. */
  function Dropped(h: Hashes, t: Tables, id: Id): Tables
    requires id in t.info && t.random != []
  {
    t.(info := t.info - {id}, addrs := t.addrs - {t.info[id].addr}, random := t.random[..|t.random| - 1],
       nNew := t.nNew - 1, counts := CountNew(t.counts, h.network(t.info[id].addr), -1))
  }

  lemma {:induction false} DroppedPlaces(h: Hashes, t: Tables, id: Id)
    requires MapsAgree(t) && RandomAgrees(t.info, t.random) && id in t.info && t.info[id].randomPos == |t.random| - 1
    ensures MapsAgree(Dropped(h, t, id)) && RandomAgrees(Dropped(h, t, id).info, Dropped(h, t, id).random)
  {
    hide CountNew;
  }

  lemma {:induction false} DroppedTables(h: Hashes, t: Tables, id: Id)
    requires TriedOk(h, t) && NewOk(h, t) && id in t.info && t.random != [] && !t.info[id].inTried && SlotsOf(t.recent, id) == {}
    ensures TriedOk(h, Dropped(h, t, id)) && NewOk(h, Dropped(h, t, id))
  {
    hide CountNew;
    forall s <- t.recent ensures t.recent[s] != id { assert s !in SlotsOf(t.recent, id); }
  }

  lemma {:induction false} DroppedOk(h: Hashes, t: Tables, id: Id, loose: set<Id>, transit: set<Id>)
    requires Agree(h, t, loose, transit) && id in loose && id in t.info && !t.info[id].inTried && t.info[id].randomPos == |t.random| - 1
    ensures t.random != [] && Agree(h, Dropped(h, t, id), loose - {id}, transit)
  {
    hide Agree, MapsAgree, RandomAgrees, TriedOk, NewOk, CountsOk, SlotsOf, EntryOk;
    AgreeFacts(h, t, loose, transit);
    LooseFacts(h, t, loose, transit, id);
    var r := Dropped(h, t, id);
    DroppedPlaces(h, t, id);
    DroppedTables(h, t, id);
    CountsMove(h, t, transit, r, transit, id, t.info[id].addr);
    forall x <- r.info ensures EntryOk(h, r, loose - {id}, transit, x) {
      AgreeEntry(h, t, loose, transit, x);
      EntryFrame(h, t, loose, transit, r, loose - {id}, transit, x);
    }
    AgreeByParts(h, r, loose - {id}, transit);
  }

  /** An entry that is loose or in transit is in no bucket of the new table. */
  lemma {:induction false} LooseFacts(h: Hashes, t: Tables, loose: set<Id>, transit: set<Id>, id: Id)
    requires Agree(h, t, loose, transit) && id in loose + transit
    ensures id in t.info && !t.info[id].inTried && t.info[id].refCount == 0 && SlotsOf(t.recent, id) == {} && t.random != []
    ensures t.info[id].lastTry >= 0 && t.info[id].lastSuccess >= 0
  {
    AgreeEntry(h, t, loose, transit, id);
  }

  // ----- The new table

  function WithRefs(info: Infos, id: Id, refs: int): Infos
    requires id in info
  {
    info[id := info[id].(refCount := refs)]
  }

  function Cleared(t: Tables, s: Slot): Tables
    requires s in t.recent && t.recent[s] in t.info
  {
    t.(recent := t.recent - {s}, info := WithRefs(t.info, t.recent[s], t.info[t.recent[s]].refCount - 1))
  }

  lemma {:induction false} ClearedSlots(recent: Table, s: Slot, x: Id)
    requires s in recent
    ensures SlotsOf(recent - {s}, x) == SlotsOf(recent, x) - {s}
    ensures x != recent[s] ==> SlotsOf(recent - {s}, x) == SlotsOf(recent, x)
    ensures x == recent[s] ==> |SlotsOf(recent - {s}, x)| == |SlotsOf(recent, x)| - 1
  {
    if x == recent[s] { assert s in SlotsOf(recent, x); }
  }

  lemma {:induction false} ClearedTables(h: Hashes, t: Tables, s: Slot)
    requires TriedOk(h, t) && NewOk(h, t) && s in t.recent
    ensures t.recent[s] in t.info && TriedOk(h, Cleared(t, s)) && NewOk(h, Cleared(t, s))
  {}

  lemma {:induction false} SlotFacts(h: Hashes, t: Tables, s: Slot, loose: set<Id>, transit: set<Id>)
    requires Agree(h, t, loose, transit) && s in t.recent
    ensures var id := t.recent[s];
            && id in t.info && !t.info[id].inTried && t.info[id].refCount == |SlotsOf(t.recent, id)| > 0 && t.info[id].refCount <= MAX_REFS
            && id !in transit && id !in loose && t.info[id].lastTry >= 0 && t.info[id].lastSuccess >= 0
  {
    AgreeEntry(h, t, loose, transit, t.recent[s]);
    assert s in SlotsOf(t.recent, t.recent[s]);
  }

  lemma {:induction false} ClearedEntry(h: Hashes, t: Tables, s: Slot, loose: set<Id>, transit: set<Id>, x: Id)
    requires Agree(h, t, loose, transit) && s in t.recent && t.recent[s] in t.info && x in t.info
    ensures EntryOk(h, Cleared(t, s), if t.info[t.recent[s]].refCount == 1 then loose + {t.recent[s]} else loose, transit, x)
  {
    hide Agree, SlotsOf;
    SlotFacts(h, t, s, loose, transit);
    ClearedSlots(t.recent, s, x);
    AgreeEntry(h, t, loose, transit, x);
  }

  lemma {:induction false} ClearedCounts(h: Hashes, t: Tables, s: Slot, id: Id, transit: set<Id>)
    requires MapsAgree(t) && RandomAgrees(t.info, t.random) && CountsOk(h, t, transit) && s in t.recent && t.recent[s] == id && id in t.info && !t.info[id].inTried
    ensures var r := Cleared(t, s);
            MapsAgree(r) && RandomAgrees(r.info, r.random) && CountsOk(h, r, transit)
  {
    hide MapsAgree, RandomAgrees, CountsOk;
    var r := Cleared(t, s);
    PlacesFrame(t, r);
    CountsMove(h, t, transit, r, transit, id, t.info[id].addr);
  }

  /** One bucket less holds the entry; if it was the last, the entry is loose. */
  lemma {:induction false} ClearedOk(h: Hashes, t: Tables, s: Slot, loose: set<Id>, transit: set<Id>)
    requires Agree(h, t, loose, transit) && s in t.recent
    ensures t.recent[s] in t.info && t.info[t.recent[s]].refCount > 0 && !t.info[t.recent[s]].inTried && t.recent[s] !in transit && t.recent[s] !in loose
    ensures Agree(h, Cleared(t, s), if t.info[t.recent[s]].refCount == 1 then loose + {t.recent[s]} else loose, transit)
  {
    hide Agree, MapsAgree, RandomAgrees, TriedOk, NewOk, CountsOk, SlotsOf, EntryOk;
    AgreeFacts(h, t, loose, transit);
    SlotFacts(h, t, s, loose, transit);
    var id := t.recent[s];
    var r, now := Cleared(t, s), if t.info[id].refCount == 1 then loose + {id} else loose;
    ClearedTables(h, t, s);
    ClearedCounts(h, t, s, t.recent[s], transit);
    forall x <- r.info ensures EntryOk(h, r, now, transit, x) { ClearedEntry(h, t, s, loose, transit, x); }
    AgreeByParts(h, r, now, transit);
  }

  function Filled(t: Tables, s: Slot, id: Id): Tables
    requires id in t.info
  {
    t.(recent := t.recent[s := id], info := WithRefs(t.info, id, t.info[id].refCount + 1))
  }

  lemma {:induction false} FilledSlots(recent: Table, s: Slot, id: Id, x: Id)
    requires s !in recent
    ensures x != id ==> SlotsOf(recent[s := id], x) == SlotsOf(recent, x)
    ensures x == id ==> |SlotsOf(recent[s := id], x)| == |SlotsOf(recent, x)| + 1
  {
    if x == id { assert SlotsOf(recent[s := id], x) == SlotsOf(recent, x) + {s}; }
    else { assert SlotsOf(recent[s := id], x) == SlotsOf(recent, x); }
  }

  lemma {:induction false} FilledTables(h: Hashes, t: Tables, s: Slot, id: Id)
    requires TriedOk(h, t) && NewOk(h, t) && s !in t.recent && id in t.info && !t.info[id].inTried
    requires s.bucket < NEW_BUCKETS && s == h.NewSlot(t.info[id].addr, s.bucket)
    ensures TriedOk(h, Filled(t, s, id)) && NewOk(h, Filled(t, s, id))
  {}

  lemma {:induction false} FilledEntry(h: Hashes, t: Tables, s: Slot, id: Id, loose: set<Id>, transit: set<Id>, x: Id)
    requires Agree(h, t, loose, transit) && s !in t.recent && id in t.info && !t.info[id].inTried && t.info[id].refCount < MAX_REFS
    requires id !in transit && x in t.info
    ensures EntryOk(h, Filled(t, s, id), loose - {id}, transit, x)
  {
    hide Agree, SlotsOf;
    FilledSlots(t.recent, s, id, x);
    AgreeEntry(h, t, loose, transit, x);
  }

  lemma {:induction false} FilledCounts(h: Hashes, t: Tables, s: Slot, id: Id, transit: set<Id>)
    requires MapsAgree(t) && RandomAgrees(t.info, t.random) && CountsOk(h, t, transit) && id in t.info && !t.info[id].inTried
    ensures var r := Filled(t, s, id);
            MapsAgree(r) && RandomAgrees(r.info, r.random) && CountsOk(h, r, transit)
  {
    hide MapsAgree, RandomAgrees, CountsOk;
    var r := Filled(t, s, id);
    PlacesFrame(t, r);
    CountsMove(h, t, transit, r, transit, id, t.info[id].addr);
  }

  /** One bucket more holds the entry. */
  lemma {:induction false} FilledOk(h: Hashes, t: Tables, s: Slot, id: Id, loose: set<Id>, transit: set<Id>)
    requires Agree(h, t, loose, transit) && s !in t.recent && id in t.info && !t.info[id].inTried && t.info[id].refCount < MAX_REFS
    requires s.bucket < NEW_BUCKETS && s == h.NewSlot(t.info[id].addr, s.bucket) && id !in transit
    ensures Agree(h, Filled(t, s, id), loose - {id}, transit)
  {
    hide Agree, MapsAgree, RandomAgrees, TriedOk, NewOk, CountsOk, SlotsOf, EntryOk;
    AgreeFacts(h, t, loose, transit);
    var r := Filled(t, s, id);
    FilledTables(h, t, s, id);
    FilledCounts(h, t, s, id, transit);
    forall x <- r.info ensures EntryOk(h, r, loose - {id}, transit, x) { FilledEntry(h, t, s, id, loose, transit, x); }
    AgreeByParts(h, r, loose - {id}, transit);
  }

  // ----- Moving between the tables

  /** A loose entry no longer counts as new. */
  function Departed(h: Hashes, t: Tables, id: Id): Tables
    requires id in t.info
  {
    t.(nNew := t.nNew - 1, counts := CountNew(t.counts, h.network(t.info[id].addr), -1))
  }

  lemma {:induction false} DepartedEntry(h: Hashes, t: Tables, id: Id, loose: set<Id>, transit: set<Id>, x: Id)
    requires Agree(h, t, loose, transit) && id in loose && id in t.info && !t.info[id].inTried && x in t.info
    ensures EntryOk(h, Departed(h, t, id), loose - {id}, transit + {id}, x)
  {
    hide Agree, SlotsOf;
    AgreeEntry(h, t, loose, transit, x);
  }

  lemma {:induction false} DepartedCounts(h: Hashes, t: Tables, id: Id, transit: set<Id>)
    requires MapsAgree(t) && RandomAgrees(t.info, t.random) && CountsOk(h, t, transit) && id in t.info && !t.info[id].inTried && id !in transit
    ensures var r := Departed(h, t, id);
            MapsAgree(r) && RandomAgrees(r.info, r.random) && CountsOk(h, r, transit + {id})
  {
    hide MapsAgree, RandomAgrees, CountsOk;
    var r := Departed(h, t, id);
    PlacesFrame(t, r);
    CountsMove(h, t, transit, r, transit + {id}, id, t.info[id].addr);
  }

  lemma {:induction false} DepartedOk(h: Hashes, t: Tables, id: Id, loose: set<Id>, transit: set<Id>)
    requires Agree(h, t, loose, transit) && id in loose && id in t.info && !t.info[id].inTried
    ensures Agree(h, Departed(h, t, id), loose - {id}, transit + {id})
  {
    hide Agree, MapsAgree, RandomAgrees, TriedOk, NewOk, CountsOk, SlotsOf, EntryOk;
    AgreeFacts(h, t, loose, transit);
    var r := Departed(h, t, id);
    DepartedCounts(h, t, id, transit);
    SameTables(h, t, r);
    forall x <- r.info ensures EntryOk(h, r, loose - {id}, transit + {id}, x) { DepartedEntry(h, t, id, loose, transit, x); }
    AgreeByParts(h, r, loose - {id}, transit + {id});
  }

  lemma {:induction false} SameTables(h: Hashes, a: Tables, b: Tables)
    requires a.info == b.info && a.tried == b.tried && a.recent == b.recent && TriedOk(h, a) && NewOk(h, a)
    ensures TriedOk(h, b) && NewOk(h, b)
  {}

  /** The entry in a slot of the tried table leaves it. */
  function Evicted(h: Hashes, t: Tables, s: Slot): Tables
    requires s in t.tried && t.tried[s] in t.info
  {
    var id := t.tried[s];
    t.(info := t.info[id := t.info[id].(inTried := false)], tried := t.tried - {s}, nTried := t.nTried - 1,
       counts := CountTried(t.counts, h.network(t.info[id].addr), -1))
  }

  lemma {:induction false} EvictedTables(h: Hashes, t: Tables, s: Slot)
    requires TriedOk(h, t) && NewOk(h, t) && s in t.tried
    ensures t.tried[s] in t.info && t.info[t.tried[s]].inTried && h.TriedSlot(t.info[t.tried[s]].addr) == s
    ensures TriedOk(h, Evicted(h, t, s)) && NewOk(h, Evicted(h, t, s)) && SlotsOf(t.recent, t.tried[s]) == {}
  {
    hide CountTried;
  }

  lemma {:induction false} EvictedFacts(h: Hashes, t: Tables, s: Slot, loose: set<Id>, transit: set<Id>)
    requires Agree(h, t, loose, transit) && s in t.tried
    ensures var id := t.tried[s];
            && id in t.info && t.info[id].inTried && t.info[id].refCount == 0 && id !in loose && id !in transit && t.info[id].lastSuccess > 0
            && h.TriedSlot(t.info[id].addr) == s && SlotsOf(t.recent, id) == {} && t.info[id].lastTry >= 0
  {
    AgreeFacts(h, t, loose, transit);
    AgreeEntry(h, t, loose, transit, t.tried[s]);
    EvictedTables(h, t, s);
  }

  lemma {:induction false} EvictedEntry(h: Hashes, t: Tables, s: Slot, loose: set<Id>, transit: set<Id>, x: Id)
    requires Agree(h, t, loose, transit) && s in t.tried && t.tried[s] in t.info && x in t.info
    ensures EntryOk(h, Evicted(h, t, s), loose, transit + {t.tried[s]}, x)
  {
    hide Agree, SlotsOf, CountTried;
    EvictedFacts(h, t, s, loose, transit);
    AgreeEntry(h, t, loose, transit, x);
  }

  lemma {:induction false} EvictedCounts(h: Hashes, t: Tables, s: Slot, id: Id, transit: set<Id>)
    requires MapsAgree(t) && RandomAgrees(t.info, t.random) && CountsOk(h, t, transit) && s in t.tried && t.tried[s] == id && id in t.info && t.info[id].inTried
    ensures var r := Evicted(h, t, s);
            MapsAgree(r) && RandomAgrees(r.info, r.random) && CountsOk(h, r, transit + {id})
  {
    hide MapsAgree, RandomAgrees, CountsOk;
    var r := Evicted(h, t, s);
    PlacesFrame(t, r);
    CountsMove(h, t, transit, r, transit + {id}, id, t.info[id].addr);
  }

  lemma {:induction false} EvictedOk(h: Hashes, t: Tables, s: Slot, loose: set<Id>, transit: set<Id>)
    requires Agree(h, t, loose, transit) && s in t.tried
    ensures t.tried[s] in t.info && t.info[t.tried[s]].inTried && t.info[t.tried[s]].refCount == 0 && t.tried[s] !in loose + transit
    ensures Agree(h, Evicted(h, t, s), loose, transit + {t.tried[s]})
  {
    hide Agree, MapsAgree, RandomAgrees, TriedOk, NewOk, CountsOk, SlotsOf, EntryOk;
    AgreeFacts(h, t, loose, transit);
    EvictedFacts(h, t, s, loose, transit);
    EvictedTables(h, t, s);
    var id, r := t.tried[s], Evicted(h, t, s);
    EvictedCounts(h, t, s, t.tried[s], transit);
    forall x <- r.info ensures EntryOk(h, r, loose, transit + {id}, x) { EvictedEntry(h, t, s, loose, transit, x); }
    AgreeByParts(h, r, loose, transit + {id});
  }

  /** An entry in transit enters the new table, in the slot `s`. */
  function Returned(h: Hashes, t: Tables, s: Slot, id: Id): Tables
    requires id in t.info
  {
    t.(recent := t.recent[s := id], info := WithRefs(t.info, id, 1), nNew := t.nNew + 1, counts := CountNew(t.counts, h.network(t.info[id].addr), 1))
  }

  lemma {:induction false} ReturnedEntry(h: Hashes, t: Tables, s: Slot, id: Id, loose: set<Id>, transit: set<Id>, x: Id)
    requires Agree(h, t, loose, transit) && s !in t.recent && id in transit && id in t.info && !t.info[id].inTried && x in t.info
    ensures EntryOk(h, Returned(h, t, s, id), loose, transit - {id}, x)
  {
    hide Agree, SlotsOf, CountNew;
    LooseFacts(h, t, loose, transit, id);
    AgreeDisjoint(h, t, loose, transit, id);
    FilledSlots(t.recent, s, id, x);
    AgreeEntry(h, t, loose, transit, x);
  }

  lemma {:induction false} AgreeDisjoint(h: Hashes, t: Tables, loose: set<Id>, transit: set<Id>, id: Id)
    requires Agree(h, t, loose, transit) && id in transit
    ensures id !in loose
  {}

  lemma {:induction false} ReturnedCounts(h: Hashes, t: Tables, s: Slot, id: Id, transit: set<Id>)
    requires MapsAgree(t) && RandomAgrees(t.info, t.random) && CountsOk(h, t, transit) && id in t.info && !t.info[id].inTried && id in transit
    ensures var r := Returned(h, t, s, id);
            MapsAgree(r) && RandomAgrees(r.info, r.random) && CountsOk(h, r, transit - {id})
  {
    hide MapsAgree, RandomAgrees, CountsOk;
    var r := Returned(h, t, s, id);
    PlacesFrame(t, r);
    CountsMove(h, t, transit, r, transit - {id}, id, t.info[id].addr);
  }

  lemma {:induction false} ReturnedOk(h: Hashes, t: Tables, s: Slot, id: Id, loose: set<Id>, transit: set<Id>)
    requires Agree(h, t, loose, transit) && s !in t.recent && id in transit && id in t.info && !t.info[id].inTried
    requires s.bucket < NEW_BUCKETS && s == h.NewSlot(t.info[id].addr, s.bucket)
    ensures Agree(h, Returned(h, t, s, id), loose, transit - {id})
  {
    hide Agree, MapsAgree, RandomAgrees, TriedOk, NewOk, CountsOk, SlotsOf, EntryOk;
    AgreeFacts(h, t, loose, transit);
    LooseFacts(h, t, loose, transit, id);
    var r := Returned(h, t, s, id);
    FilledTables(h, t, s, id);
    SameTables(h, Filled(t, s, id), r);
    ReturnedCounts(h, t, s, id, transit);
    forall x <- r.info ensures EntryOk(h, r, loose, transit - {id}, x) { ReturnedEntry(h, t, s, id, loose, transit, x); }
    AgreeByParts(h, r, loose, transit - {id});
  }

  /** An entry in transit enters its slot of the tried table, which is free. */
  function Promoted(h: Hashes, t: Tables, id: Id): Tables
    requires id in t.info
  {
    t.(info := t.info[id := t.info[id].(inTried := true)], tried := t.tried[h.TriedSlot(t.info[id].addr) := id], nTried := t.nTried + 1,
       counts := CountTried(t.counts, h.network(t.info[id].addr), 1))
  }

  lemma {:induction false} PromotedTables(h: Hashes, t: Tables, id: Id)
    requires TriedOk(h, t) && NewOk(h, t) && id in t.info && SlotsOf(t.recent, id) == {}
    ensures TriedOk(h, Promoted(h, t, id)) && NewOk(h, Promoted(h, t, id))
  {
    hide CountTried;
    forall s <- t.recent ensures t.recent[s] != id { assert s !in SlotsOf(t.recent, id); }
  }

  lemma {:induction false} PromotedEntry(h: Hashes, t: Tables, id: Id, loose: set<Id>, transit: set<Id>, x: Id)
    requires Agree(h, t, loose, transit) && id in transit && id in t.info && t.info[id].lastSuccess > 0 && x in t.info
    requires h.TriedSlot(t.info[id].addr) !in t.tried
    ensures EntryOk(h, Promoted(h, t, id), loose, transit - {id}, x)
  {
    hide Agree, SlotsOf, CountTried;
    LooseFacts(h, t, loose, transit, id);
    AgreeDisjoint(h, t, loose, transit, id);
    AgreeEntry(h, t, loose, transit, x);
  }

  lemma {:induction false} PromotedCounts(h: Hashes, t: Tables, id: Id, transit: set<Id>)
    requires MapsAgree(t) && RandomAgrees(t.info, t.random) && CountsOk(h, t, transit) && id in t.info && !t.info[id].inTried && id in transit
    ensures var r := Promoted(h, t, id);
            MapsAgree(r) && RandomAgrees(r.info, r.random) && CountsOk(h, r, transit - {id})
  {
    hide MapsAgree, RandomAgrees, CountsOk;
    var r := Promoted(h, t, id);
    PlacesFrame(t, r);
    CountsMove(h, t, transit, r, transit - {id}, id, t.info[id].addr);
  }

  lemma {:induction false} PromotedOk(h: Hashes, t: Tables, id: Id, loose: set<Id>, transit: set<Id>)
    requires Agree(h, t, loose, transit) && id in transit && id in t.info && !t.info[id].inTried && t.info[id].lastSuccess > 0
    requires h.TriedSlot(t.info[id].addr) !in t.tried
    ensures Agree(h, Promoted(h, t, id), loose, transit - {id})
  {
    hide Agree, MapsAgree, RandomAgrees, TriedOk, NewOk, CountsOk, SlotsOf, EntryOk;
    AgreeFacts(h, t, loose, transit);
    LooseFacts(h, t, loose, transit, id);
    PromotedTables(h, t, id);
    var r := Promoted(h, t, id);
    PromotedCounts(h, t, id, transit);
    forall x <- r.info ensures EntryOk(h, r, loose, transit - {id}, x) { PromotedEntry(h, t, id, loose, transit, x); }
    AgreeByParts(h, r, loose, transit - {id});
  }

  // ----- Statistics

  /** Fields that the tables do not depend on. */
  ghost predicate OnlyStats(i: AddrInfo, j: AddrInfo) {
    && j.addr == i.addr && j.source == i.source && j.refCount == i.refCount && j.inTried == i.inTried && j.randomPos == i.randomPos
    && j.lastTry >= 0 && j.lastSuccess >= 0 && (i.inTried ==> j.lastSuccess > 0)
  }

  lemma {:induction false} StatsTables(h: Hashes, t: Tables, id: Id, j: AddrInfo)
    requires TriedOk(h, t) && NewOk(h, t) && id in t.info && OnlyStats(t.info[id], j)
    ensures TriedOk(h, t.(info := t.info[id := j])) && NewOk(h, t.(info := t.info[id := j]))
  {}

  lemma {:induction false} StatsEntry(h: Hashes, t: Tables, id: Id, j: AddrInfo, loose: set<Id>, transit: set<Id>, x: Id)
    requires Agree(h, t, loose, transit) && id in t.info && OnlyStats(t.info[id], j) && x in t.info
    ensures EntryOk(h, t.(info := t.info[id := j]), loose, transit, x)
  {
    hide Agree, SlotsOf;
    AgreeEntry(h, t, loose, transit, x);
  }

  lemma {:induction false} StatsCounts(h: Hashes, t: Tables, id: Id, j: AddrInfo, transit: set<Id>)
    requires MapsAgree(t) && RandomAgrees(t.info, t.random) && CountsOk(h, t, transit) && id in t.info && OnlyStats(t.info[id], j)
    ensures var r := t.(info := t.info[id := j]);
            MapsAgree(r) && RandomAgrees(r.info, r.random) && CountsOk(h, r, transit)
  {
    hide MapsAgree, RandomAgrees, CountsOk;
    var r := t.(info := t.info[id := j]);
    PlacesFrame(t, r);
    CountsMove(h, t, transit, r, transit, id, t.info[id].addr);
  }

  lemma {:induction false} StatsOk(h: Hashes, t: Tables, id: Id, j: AddrInfo, loose: set<Id>, transit: set<Id>)
    requires Agree(h, t, loose, transit) && id in t.info && OnlyStats(t.info[id], j)
    ensures Agree(h, t.(info := t.info[id := j]), loose, transit)
  {
    hide Agree, MapsAgree, RandomAgrees, TriedOk, NewOk, CountsOk, SlotsOf, EntryOk;
    AgreeFacts(h, t, loose, transit);
    var r := t.(info := t.info[id := j]);
    StatsTables(h, t, id, j);
    StatsCounts(h, t, id, j, transit);
    forall x <- r.info ensures EntryOk(h, r, loose, transit, x) { StatsEntry(h, t, id, j, loose, transit, x); }
    AgreeByParts(h, r, loose, transit);
  }

  // ----- The consistency check

  /** What the consistency check demands of an entry; the numbers are those it reports. */
  ghost predicate CheckEntry(t: Tables, id: Id)
    requires id in t.info
  {
    var i := t.info[id];
    && (if i.inTried then i.lastSuccess != 0 && i.refCount == 0                                             // -1, -2
        else 0 < i.refCount <= MAX_REFS)                                                                    // -3, -4
    && i.addr in t.addrs && t.addrs[i.addr] == id                                                           // -5
    && 0 <= i.randomPos < |t.random| && t.random[i.randomPos] == id                                         // -14
    && i.lastTry >= 0 && i.lastSuccess >= 0                                                                 // -6, -8
  }

  ghost predicate CheckTables(h: Hashes, t: Tables) {
    && (forall s <- t.tried :: && t.tried[s] in t.info && t.info[t.tried[s]].inTried                        // -11
                               && s == h.TriedSlot(t.info[t.tried[s]].addr))                                // -17, -18
    && (forall s <- t.recent :: && t.recent[s] in t.info && !t.info[t.recent[s]].inTried                    // -12
                                && s.pos == h.position(t.info[t.recent[s]].addr, true, s.bucket))           // -19
    && (forall id <- t.info | t.info[id].inTried :: exists s :: s in t.tried && t.tried[s] == id)           // -13
    && (forall id <- t.info | !t.info[id].inTried :: |SlotsOf(t.recent, id)| == t.info[id].refCount)        // -15
  }

  ghost predicate CheckCounts(h: Hashes, t: Tables) {
    && |t.random| == t.nTried + t.nNew                                                                      // -7
    && |TriedIds(t.info)| == t.nTried && |NewIds(t.info, {})| == t.nNew                                     // -9, -10
    && (forall id <- t.info :: h.network(t.info[id].addr) in t.counts)                                      // -20
    && (forall n <- t.counts :: t.counts[n] == Count(|InNet(h, t.info, NewIds(t.info, {}), n)|, |InNet(h, t.info, TriedIds(t.info), n)|)) // -21
  }

  ghost function IdsIn(s: seq<Id>): set<Id> { set x <- s }

  lemma {:induction false} RandomSize(info: Infos, random: seq<Id>)
    requires RandomAgrees(info, random)
    ensures |random| == |info.Keys|
  {
    ListSize(random);
    assert IdsIn(random) == info.Keys;
  }

  lemma {:induction false} ListSize(s: seq<Id>)
    requires forall i, j | 0 <= i < j < |s| :: s[i] != s[j]
    ensures |IdsIn(s)| == |s|
    decreases |s|
  {
    if s != [] {
      var rest, x := s[..|s| - 1], s[|s| - 1];
      ListSize(rest);
      assert IdsIn(s) == IdsIn(rest) + {x};
      assert x !in IdsIn(rest);
    }
  }

  lemma {:induction false} AllCounted(info: Infos)
    ensures |info.Keys| == |NewIds(info, {})| + |TriedIds(info)|
  {
    assert info.Keys == NewIds(info, {}) + TriedIds(info);
    assert NewIds(info, {}) !! TriedIds(info);
  }

  lemma {:induction false} NetCounted(h: Hashes, t: Tables, id: Id)
    requires CountsOk(h, t, {}) && id in t.info
    ensures h.network(t.info[id].addr) in t.counts
  {
    var n := h.network(t.info[id].addr);
    assert id in InNet(h, t.info, if t.info[id].inTried then TriedIds(t.info) else NewIds(t.info, {}), n);
  }

  /** Between operations the consistency check finds nothing. */
  lemma {:induction false} AgreePassesCheck(h: Hashes, t: Tables)
    requires Agree(h, t, {}, {})
    ensures CheckTables(h, t) && CheckCounts(h, t) && forall id <- t.info :: CheckEntry(t, id)
  {
    hide Agree, CheckTables, CheckCounts, CheckEntry, MapsAgree, RandomAgrees, EntryOk, TriedOk, NewOk, CountsOk;
    AgreeFacts(h, t, {}, {});
    forall id <- t.info ensures EntryOk(h, t, {}, {}, id) && CheckEntry(t, id) {
      AgreeEntry(h, t, {}, {}, id);
      EntryPasses(h, t, id);
    }
    TablesPass(h, t);
    CountsPass(h, t);
  }

  lemma {:induction false} EntryPasses(h: Hashes, t: Tables, id: Id)
    requires MapsAgree(t) && RandomAgrees(t.info, t.random) && id in t.info && EntryOk(h, t, {}, {}, id)
    ensures CheckEntry(t, id)
  {}

  lemma {:induction false} TablesPass(h: Hashes, t: Tables)
    requires TriedOk(h, t) && NewOk(h, t) && forall id <- t.info :: EntryOk(h, t, {}, {}, id)
    ensures CheckTables(h, t)
  {
    hide SlotsOf;
    forall id <- t.info | t.info[id].inTried ensures exists s :: s in t.tried && t.tried[s] == id {
      assert EntryOk(h, t, {}, {}, id);
      assert h.TriedSlot(t.info[id].addr) in t.tried;
    }
    forall id <- t.info | !t.info[id].inTried ensures |SlotsOf(t.recent, id)| == t.info[id].refCount { assert EntryOk(h, t, {}, {}, id); }
  }

  lemma {:induction false} CountsPass(h: Hashes, t: Tables)
    requires RandomAgrees(t.info, t.random) && CountsOk(h, t, {})
    ensures CheckCounts(h, t)
  {
    hide InNet, CountsOk, RandomAgrees, NewIds, TriedIds;
    RandomSize(t.info, t.random);
    AllCounted(t.info);
    CountedAll(h, t);
    forall id <- t.info ensures h.network(t.info[id].addr) in t.counts { NetCounted(h, t, id); }
    forall n <- t.counts ensures t.counts[n] == Count(|InNet(h, t.info, NewIds(t.info, {}), n)|, |InNet(h, t.info, TriedIds(t.info), n)|) {
      CountedNet(h, t, n);
    }
  }

  lemma {:induction false} CountedAll(h: Hashes, t: Tables)
    requires CountsOk(h, t, {})
    ensures t.nNew == |NewIds(t.info, {})| && t.nTried == |TriedIds(t.info)|
  {}

  lemma {:induction false} CountedNet(h: Hashes, t: Tables, n: Net)
    requires CountsOk(h, t, {}) && n in t.counts
    ensures t.counts[n] == Count(|InNet(h, t.info, NewIds(t.info, {}), n)|, |InNet(h, t.info, TriedIds(t.info), n)|)
  {
    assert CountOf(t.counts, n) == t.counts[n];
  }
}
