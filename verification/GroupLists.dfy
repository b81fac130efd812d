/** Groups of transactions kept as linked lists in one vector of entries. */
module GroupLists {
  import opened FeeRates
  import opened Forests
  import opened Loading
  import opened Ordering
  import opened GroupOrders

  /**
   The entry of transaction `t` is at index `t + 1`; index 0 is the sentinel. The fields after the
   first are in use only for the last transaction of a group.
   */
  datatype TxEntry = TxEntry(prevTx: nat, firstTx: nat, prevGroup: nat, group: Txs, deps: Txs, feerate: FeeFrac)

  type Entries = seq<TxEntry>
  type Groups = seq<seq<TxIdx>>

  ghost function Flat(l: Groups): seq<TxIdx> {
    if l == [] then [] else Flat(l[..|l| - 1]) + l[|l| - 1]
  }

  lemma {:induction false} FlatAppend(a: Groups, b: Groups)
    ensures Flat(a + b) == Flat(a) + Flat(b)
    decreases |b|
  {
    if b == [] {
      assert a + b == a;
    } else {
      var rest, c := b[..|b| - 1], b[|b| - 1];
      FlatAppend(a, rest);
      assert (a + b)[..|a + b| - 1] == a + rest && (a + b)[|a + b| - 1] == c;
      assert Flat(a) + Flat(rest) + c == Flat(a) + (Flat(rest) + c);
    }
  }

  lemma {:induction false} FlatNone()
    ensures Flat([]) == []
  {}

  lemma {:induction false} FlatOne(c: seq<TxIdx>)
    ensures Flat([c]) == c
  {
    assert [c][..0] == [];
  }

  ghost predicate Apart(l: Groups) {
    && (forall i | 0 <= i < |l| :: Unique(l[i]))
    && (forall i, j | 0 <= i < j < |l| :: Elems(l[i]) !! Elems(l[j]))
  }

  lemma {:induction false} FlatElems(l: Groups)
    ensures forall i | 0 <= i < |l| :: Elems(l[i]) <= Elems(Flat(l))
    decreases |l|
  {
    if l != [] {
      var rest, c := l[..|l| - 1], l[|l| - 1];
      FlatElems(rest);
      ElemsAppend(Flat(rest), c);
      forall i | 0 <= i < |l| ensures Elems(l[i]) <= Elems(Flat(l)) {
        if i < |rest| { assert rest[i] == l[i]; }
      }
    }
  }

  lemma {:induction false} FlatApart(l: Groups)
    requires Unique(Flat(l))
    ensures Apart(l)
    decreases |l|
  {
    hide Unique;
    if l != [] {
      var rest, c := l[..|l| - 1], l[|l| - 1];
      UniqueParts(Flat(rest), c);
      FlatApart(rest);
      FlatElems(rest);
      forall i | 0 <= i < |l| ensures Unique(l[i]) {
        if i < |rest| { assert rest[i] == l[i]; }
      }
      forall i, j | 0 <= i < j < |l| ensures Elems(l[i]) !! Elems(l[j]) {
        assert rest[i] == l[i];
        if j < |rest| { assert rest[j] == l[j]; }
      }
    }
  }

  // ----- The representation

  ghost function TailOf(c: seq<TxIdx>): nat {
    if c == [] then 0 else c[|c| - 1] + 1
  }

  /** The tail of the group before position `i`, or the sentinel. */
  ghost function PrevTail(l: Groups, i: nat): nat
    requires i <= |l|
  {
    if i == 0 then 0 else TailOf(l[i - 1])
  }

  /** The tail of the group after position `i`, or the sentinel. */
  ghost function NextTail(l: Groups, i: nat): nat
    requires i < |l|
  {
    if i == |l| - 1 then 0 else TailOf(l[i + 1])
  }

  ghost function DepAt(pass: Pass, v: TxIdx): Txs {
    if v in pass.dep then pass.dep[v] else {}
  }

  /** Everything that has to come before some member of the group. */
  ghost function DepOf(pass: Pass, c: seq<TxIdx>): Txs {
    set v <- c, d <- DepAt(pass, v) :: d
  }

  ghost predicate Links(entries: Entries, c: seq<TxIdx>) {
    && (forall j | 0 <= j < |c| :: c[j] + 1 < |entries|)
    && (forall j | 0 <= j < |c| :: entries[c[j] + 1].prevTx == if j == 0 then 0 else c[j - 1] + 1)
  }

  ghost predicate TailOk(pass: Pass, entries: Entries, c: seq<TxIdx>, prev: nat) {
    && c != [] && TailOf(c) < |entries|
    && var e := entries[TailOf(c)];
       && e.firstTx == c[0] + 1 && e.prevGroup == prev
       && e.group == Elems(c) && e.deps == DepOf(pass, c) && e.feerate == Total(pass.fees, Elems(c))
  }

  ghost predicate GroupOk(pass: Pass, entries: Entries, c: seq<TxIdx>, prev: nat) {
    Links(entries, c) && TailOk(pass, entries, c, prev)
  }

  /** A circular list of groups: the sentinel points to the last group, every group to the one before it. */
  ghost predicate ListOk(pass: Pass, entries: Entries, l: Groups) {
    && entries != [] && entries[0].feerate == FeeFrac(0, 0) && entries[0].prevGroup == PrevTail(l, |l|)
    && Apart(l) && (forall i | 0 <= i < |l| :: GroupOk(pass, entries, l[i], PrevTail(l, i)))
  }

  lemma {:induction false} ListAt(pass: Pass, entries: Entries, l: Groups, i: nat)
    requires ListOk(pass, entries, l) && i < |l|
    ensures GroupOk(pass, entries, l[i], PrevTail(l, i)) && Unique(l[i]) && l[i] != []
    ensures 0 < TailOf(l[i]) < |entries|
  {}

  lemma {:induction false} ListHead(pass: Pass, entries: Entries, l: Groups)
    requires ListOk(pass, entries, l)
    ensures entries != [] && entries[0].feerate == FeeFrac(0, 0) && entries[0].prevGroup == PrevTail(l, |l|) && Apart(l)
  {}

  lemma {:induction false} ListByParts(pass: Pass, entries: Entries, l: Groups)
    requires entries != [] && entries[0].feerate == FeeFrac(0, 0) && entries[0].prevGroup == PrevTail(l, |l|) && Apart(l)
    requires forall i | 0 <= i < |l| :: GroupOk(pass, entries, l[i], PrevTail(l, i))
    ensures ListOk(pass, entries, l)
  {}

  lemma {:induction false} ApartAt(l: Groups, i: nat, j: nat)
    requires Apart(l) && i < |l| && j < |l| && i != j
    ensures Elems(l[i]) !! Elems(l[j]) && Unique(l[i])
  {
    assert Elems(l[if i < j then i else j]) !! Elems(l[if i < j then j else i]);
  }

  lemma {:induction false} TailMember(c: seq<TxIdx>)
    requires c != []
    ensures TailOf(c) - 1 in Elems(c) && TailOf(c) > 0
  {}

  /** A group is represented the same as long as the entries of its members are. */
  lemma {:induction false} GroupFrame(pass: Pass, a: Entries, b: Entries, c: seq<TxIdx>, prev: nat)
    requires GroupOk(pass, a, c, prev) && |a| == |b| && forall v <- c :: v + 1 < |a| ==> b[v + 1] == a[v + 1]
    ensures GroupOk(pass, b, c, prev)
  {
    forall j | 0 <= j < |c| ensures b[c[j] + 1] == a[c[j] + 1] { assert c[j] in c; }
  }

  // ----- A new group

  function AddEntries(entries: Entries, v: TxIdx, dep: Txs, feerate: FeeFrac): Entries
    requires v + 1 < |entries|
  {
    entries[v + 1 := TxEntry(0, v + 1, entries[0].prevGroup, {v}, dep, feerate)][0 := entries[0].(prevGroup := v + 1)]
  }

  lemma {:induction false} AddedOk(pass: Pass, entries: Entries, l: Groups, v: TxIdx, dep: Txs, feerate: FeeFrac)
    requires ListOk(pass, entries, l) && v + 1 < |entries| && (forall i | 0 <= i < |l| :: v !in Elems(l[i]))
    requires v in pass.dep && dep == pass.dep[v] && feerate == FracOf(pass.fees, v)
    ensures ListOk(pass, AddEntries(entries, v, dep, feerate), l + [[v]])
  {
    hide Total, FracOf, Unique, ListOk, Apart, GroupOk;
    ListHead(pass, entries, l);
    var after, l' := AddEntries(entries, v, dep, feerate), l + [[v]];
    forall i | 0 <= i < |l'| ensures GroupOk(pass, after, l'[i], PrevTail(l', i)) {
      if i < |l| {
        assert PrevTail(l', i) == PrevTail(l, i);
        ListAt(pass, entries, l, i);
        GroupFrame(pass, entries, after, l[i], PrevTail(l, i));
      } else {
        NewGroupOk(pass, after, v, PrevTail(l, |l|));
      }
    }
    AddApart(l, v);
    ListByParts(pass, after, l');
  }

  lemma {:induction false} OneUnique(v: TxIdx)
    ensures Unique([v]) && Elems([v]) == {v}
  {}

  lemma {:induction false} AddApart(l: Groups, v: TxIdx)
    requires Apart(l) && forall i | 0 <= i < |l| :: v !in Elems(l[i])
    ensures Apart(l + [[v]])
  {
    OneUnique(v);
    hide Unique;
  }

  lemma {:induction false} NewGroupOk(pass: Pass, entries: Entries, v: TxIdx, prev: nat)
    requires v + 1 < |entries| && v in pass.dep && entries[v + 1] == TxEntry(0, v + 1, prev, {v}, pass.dep[v], FracOf(pass.fees, v))
    ensures GroupOk(pass, entries, [v], prev)
  {
    hide Total, FracOf;
    OneUnique(v);
    TotalSingleton(pass.fees, v);
    assert DepOf(pass, [v]) == pass.dep[v] by {
      forall d <- pass.dep[v] ensures d in DepOf(pass, [v]) { assert v in [v] && d in DepAt(pass, v); }
    }
  }

  // ----- Swapping two groups

  ghost function SwapAt(l: Groups, k: nat): Groups
    requires 0 < k < |l|
  {
    l[k - 1 := l[k]][k := l[k - 1]]
  }

  /** The groups at `prev` and `cur` change places between the groups at `preprev` and `next`. */
  function SwapEntries(entries: Entries, next: nat, prev: nat, cur: nat, preprev: nat): Entries
    requires next < |entries| && prev < |entries| && cur < |entries|
  {
    var a := entries[next := entries[next].(prevGroup := prev)];
    var b := a[prev := a[prev].(prevGroup := cur)];
    b[cur := b[cur].(prevGroup := preprev)]
  }

  lemma {:induction false} NewPrevGroup(pass: Pass, a: Entries, b: Entries, c: seq<TxIdx>, was: nat, now: nat)
    requires GroupOk(pass, a, c, was) && Unique(c) && |a| == |b| && b[TailOf(c)] == a[TailOf(c)].(prevGroup := now)
    requires forall v <- c | v + 1 != TailOf(c) && v + 1 < |a| :: b[v + 1] == a[v + 1]
    ensures GroupOk(pass, b, c, now)
  {
    hide Total, DepOf, Unique;
    forall j | 0 <= j < |c| ensures b[c[j] + 1].prevTx == a[c[j] + 1].prevTx {
      assert c[j] in c;
    }
  }

  lemma {:induction false} TailsApart(l: Groups, i: nat, j: nat)
    requires Apart(l) && i < |l| && j < |l| && i != j && l[j] != []
    ensures forall v <- l[i] :: v + 1 != TailOf(l[j])
  {
    hide Unique;
    TailMember(l[j]);
    assert Elems(l[if i < j then i else j]) !! Elems(l[if i < j then j else i]);
  }

  lemma {:induction false} SwapTails(pass: Pass, entries: Entries, l: Groups, k: nat)
    requires ListOk(pass, entries, l) && 0 < k < |l|
    ensures NextTail(l, k) < |entries| && 0 < TailOf(l[k - 1]) < |entries| && 0 < TailOf(l[k]) < |entries|
    ensures NextTail(l, k) != TailOf(l[k - 1]) && NextTail(l, k) != TailOf(l[k]) && TailOf(l[k - 1]) != TailOf(l[k])
    ensures k + 1 < |l| ==> NextTail(l, k) > 0
  {
    hide GroupOk, Unique, Apart, ListOk, Elems;
    ListHead(pass, entries, l);
    ListAt(pass, entries, l, k);
    ListAt(pass, entries, l, k - 1);
    TailsApart(l, k - 1, k);
    TailIn(l[k - 1]);
    TailIn(l[k]);
    if k + 1 < |l| {
      ListAt(pass, entries, l, k + 1);
      TailsApart(l, k - 1, k + 1);
      TailsApart(l, k, k + 1);
    }
  }

  lemma {:induction false} SwappedAt(pass: Pass, entries: Entries, l: Groups, k: nat, i: nat)
    requires ListOk(pass, entries, l) && 0 < k < |l| && i < |l|
    requires NextTail(l, k) < |entries| && TailOf(l[k - 1]) < |entries| && TailOf(l[k]) < |entries|
    ensures var after := SwapEntries(entries, NextTail(l, k), TailOf(l[k - 1]), TailOf(l[k]), PrevTail(l, k - 1));
            GroupOk(pass, after, SwapAt(l, k)[i], PrevTail(SwapAt(l, k), i))
  {
    hide Unique, ListOk, Apart, GroupOk, Elems, SwapEntries;
    ListHead(pass, entries, l);
    var next, prev, cur := NextTail(l, k), TailOf(l[k - 1]), TailOf(l[k]);
    var after := SwapEntries(entries, next, prev, cur, PrevTail(l, k - 1));
    var m := if i == k then k - 1 else if i == k - 1 then k else i;
    ListAt(pass, entries, l, m);
    ListAt(pass, entries, l, k);
    ListAt(pass, entries, l, k - 1);
    SwapTails(pass, entries, l, k);
    SwapEntryAt(entries, next, prev, cur, PrevTail(l, k - 1), 0);
    forall j | 0 <= j < |l| && j != m ensures TailOf(l[j]) != TailOf(l[m]) && forall v <- l[m] :: v + 1 != TailOf(l[j]) {
      ListAt(pass, entries, l, j);
      TailsApart(l, m, j);
      TailsApart(l, j, m);
      TailIn(l[m]);
    }
    forall v <- l[m] | v + 1 != TailOf(l[m]) && v + 1 < |entries| ensures after[v + 1] == entries[v + 1] {
      SwapEntryAt(entries, next, prev, cur, PrevTail(l, k - 1), v + 1);
    }
    SwapEntryAt(entries, next, prev, cur, PrevTail(l, k - 1), TailOf(l[m]));
    SwapPrevTail(l, k, i);
    SameEntry(entries, l[m], PrevTail(l, m), pass);
    NewPrevGroup(pass, entries, after, l[m], PrevTail(l, m), PrevTail(SwapAt(l, k), i));
  }

  lemma {:induction false} SameEntry(entries: Entries, c: seq<TxIdx>, prev: nat, pass: Pass)
    requires GroupOk(pass, entries, c, prev)
    ensures entries[TailOf(c)] == entries[TailOf(c)].(prevGroup := prev)
  {}

  lemma {:induction false} TailIn(c: seq<TxIdx>)
    requires c != []
    ensures TailOf(c) > 0 && TailOf(c) - 1 in c
  {}

  lemma {:induction false} SwapPrevTail(l: Groups, k: nat, i: nat)
    requires 0 < k < |l| && i < |l|
    ensures PrevTail(SwapAt(l, k), i) ==
            if i == k then TailOf(l[k]) else if i == k - 1 then PrevTail(l, k - 1) else if i == k + 1 then TailOf(l[k - 1]) else PrevTail(l, i)
  {}

  lemma {:induction false} SwapEntryAt(entries: Entries, next: nat, prev: nat, cur: nat, preprev: nat, q: nat)
    requires next < |entries| && prev < |entries| && cur < |entries| && q < |entries| && next != prev && prev != cur && next != cur
    ensures var after := SwapEntries(entries, next, prev, cur, preprev);
            && |after| == |entries|
            && after[q] == (if q == next then entries[q].(prevGroup := prev) else if q == prev then entries[q].(prevGroup := cur)
                            else if q == cur then entries[q].(prevGroup := preprev) else entries[q])
  {}

  lemma {:induction false} SwapApart(l: Groups, k: nat)
    requires Apart(l) && 0 < k < |l|
    ensures Apart(SwapAt(l, k))
  {
    hide Unique, Elems;
    var l' := SwapAt(l, k);
    forall i, j | 0 <= i < j < |l'| ensures Elems(l'[i]) !! Elems(l'[j]) {
      var a := if i == k then k - 1 else if i == k - 1 then k else i;
      var b := if j == k then k - 1 else if j == k - 1 then k else j;
      assert l'[i] == l[a] && l'[j] == l[b];
      assert Elems(l[if a < b then a else b]) !! Elems(l[if a < b then b else a]);
    }
  }

  lemma {:induction false} SwappedOk(pass: Pass, entries: Entries, l: Groups, k: nat)
    requires ListOk(pass, entries, l) && 0 < k < |l|
    ensures NextTail(l, k) < |entries| && TailOf(l[k - 1]) < |entries| && TailOf(l[k]) < |entries|
    ensures ListOk(pass, SwapEntries(entries, NextTail(l, k), TailOf(l[k - 1]), TailOf(l[k]), PrevTail(l, k - 1)), SwapAt(l, k))
  {
    hide GroupOk, Unique, Apart, ListOk, SwapEntries, Elems;
    ListHead(pass, entries, l);
    ListAt(pass, entries, l, k);
    ListAt(pass, entries, l, k - 1);
    SwapTails(pass, entries, l, k);
    var after, l' := SwapEntries(entries, NextTail(l, k), TailOf(l[k - 1]), TailOf(l[k]), PrevTail(l, k - 1)), SwapAt(l, k);
    SwapEntryAt(entries, NextTail(l, k), TailOf(l[k - 1]), TailOf(l[k]), PrevTail(l, k - 1), 0);
    SwapApart(l, k);
    forall i | 0 <= i < |l'| ensures GroupOk(pass, after, l'[i], PrevTail(l', i)) {
      SwappedAt(pass, entries, l, k, i);
    }
    ListByParts(pass, after, l');
  }

  // ----- Merging two groups

  ghost function MergeAt(l: Groups, k: nat): Groups
    requires 0 < k < |l|
  {
    l[..k - 1] + [l[k - 1] + l[k]] + l[k + 1..]
  }

  /** The group at `prev` is put in front of the group at `cur`. */
  function MergeEntries(entries: Entries, cur: nat, prev: nat): Entries
    requires cur < |entries| && prev < |entries| && entries[cur].firstTx < |entries|
  {
    var c, p := entries[cur], entries[prev];
    var a := entries[cur := c.(group := c.group + p.group, deps := c.deps + p.deps, feerate := c.feerate.Plus(p.feerate))];
    var b := a[c.firstTx := a[c.firstTx].(prevTx := prev)];
    b[cur := b[cur].(firstTx := p.firstTx, prevGroup := p.prevGroup)]
  }

  lemma {:induction false} MergedLinks(pass: Pass, entries: Entries, p: seq<TxIdx>, c: seq<TxIdx>, before: nat)
    requires GroupOk(pass, entries, p, before) && GroupOk(pass, entries, c, TailOf(p)) && Unique(c) && Elems(p) !! Elems(c)
    requires entries[TailOf(c)].firstTx < |entries|
    ensures Links(MergeEntries(entries, TailOf(c), TailOf(p)), p + c)
  {
    hide Total, DepOf, FeeFrac.Plus;
    var after := MergeEntries(entries, TailOf(c), TailOf(p));
    var pc := p + c;
    forall j | 0 <= j < |pc| ensures pc[j] + 1 < |after| && after[pc[j] + 1].prevTx == (if j == 0 then 0 else pc[j - 1] + 1) {
      if j < |p| {
        assert pc[j] == p[j] && p[j] in Elems(p) && c[0] in Elems(c) && c[|c| - 1] in Elems(c);
      } else {
        assert pc[j] == c[j - |p|];
        if j > |p| { assert c[j - |p|] != c[0]; }
      }
    }
  }

  lemma {:induction false} MergedDeps(pass: Pass, p: seq<TxIdx>, c: seq<TxIdx>)
    ensures DepOf(pass, p + c) == DepOf(pass, c) + DepOf(pass, p)
  {}

  lemma {:induction false} MergedTail(pass: Pass, entries: Entries, p: seq<TxIdx>, c: seq<TxIdx>, before: nat)
    requires GroupOk(pass, entries, p, before) && GroupOk(pass, entries, c, TailOf(p)) && Elems(p) !! Elems(c)
    requires entries[TailOf(c)].firstTx < |entries|
    ensures TailOk(pass, MergeEntries(entries, TailOf(c), TailOf(p)), p + c, before)
  {
    hide Total, DepOf, Links;
    ElemsAppend(p, c);
    MergedDeps(pass, p, c);
    TotalUnion(pass.fees, Elems(c), Elems(p));
    assert Elems(c) + Elems(p) == Elems(p + c);
    assert TailOf(p + c) == TailOf(c);
    TailMember(p);
    TailMember(c);
  }

  lemma {:induction false} MergedFrame(pass: Pass, entries: Entries, l: Groups, k: nat, i: nat)
    requires ListOk(pass, entries, l) && 0 < k < |l| && i < |l| && i != k && i != k - 1
    requires TailOf(l[k]) < |entries| && TailOf(l[k - 1]) < |entries| && entries[TailOf(l[k])].firstTx < |entries|
    ensures GroupOk(pass, MergeEntries(entries, TailOf(l[k]), TailOf(l[k - 1])), l[i], PrevTail(l, i))
  {
    hide Unique, ListOk, Apart, GroupOk, Elems, MergeEntries;
    ListHead(pass, entries, l);
    ListAt(pass, entries, l, i);
    ListAt(pass, entries, l, k);
    TailsApart(l, i, k);
    FirstsApart(pass, entries, l, i, k);
    MergeEntryAt(entries, TailOf(l[k]), TailOf(l[k - 1]), 0);
    forall v <- l[i] | v + 1 < |entries| ensures MergeEntries(entries, TailOf(l[k]), TailOf(l[k - 1]))[v + 1] == entries[v + 1] {
      MergeEntryAt(entries, TailOf(l[k]), TailOf(l[k - 1]), v + 1);
    }
    GroupFrame(pass, entries, MergeEntries(entries, TailOf(l[k]), TailOf(l[k - 1])), l[i], PrevTail(l, i));
  }

  lemma {:induction false} FirstsApart(pass: Pass, entries: Entries, l: Groups, i: nat, k: nat)
    requires ListOk(pass, entries, l) && i < |l| && k < |l| && i != k && TailOf(l[k]) < |entries|
    ensures forall v <- l[i] :: v + 1 != entries[TailOf(l[k])].firstTx
    ensures 0 < entries[TailOf(l[k])].firstTx < |entries|
  {
    hide ListOk, Unique, Apart, Total, DepOf;
    ListHead(pass, entries, l);
    ListAt(pass, entries, l, k);
    ApartAt(l, i, k);
    assert l[k][0] in Elems(l[k]);
  }

  lemma {:induction false} MergeEntryAt(entries: Entries, cur: nat, prev: nat, q: nat)
    requires cur < |entries| && prev < |entries| && entries[cur].firstTx < |entries| && q < |entries|
    ensures |MergeEntries(entries, cur, prev)| == |entries|
    ensures q != cur && q != entries[cur].firstTx ==> MergeEntries(entries, cur, prev)[q] == entries[q]
  {}

  lemma {:induction false} MergeApart(l: Groups, k: nat)
    requires Apart(l) && 0 < k < |l|
    ensures Apart(MergeAt(l, k))
  {
    var p, c, l' := l[k - 1], l[k], MergeAt(l, k);
    assert Unique(p + c) by { assert Elems(p) !! Elems(c); JoinUnique(p, c); }
    ElemsAppend(p, c);
    hide Unique, Elems;
    forall i | 0 <= i < |l'| ensures Unique(l'[i]) {
      if i != k - 1 { assert l'[i] == l[if i < k then i else i + 1]; }
    }
    forall i, j | 0 <= i < j < |l'| ensures Elems(l'[i]) !! Elems(l'[j]) {
      if j == k - 1 {
        assert l'[i] == l[i] && Elems(l[i]) !! Elems(p) && Elems(l[i]) !! Elems(c);
      } else if i == k - 1 {
        assert l'[j] == l[j + 1] && Elems(p) !! Elems(l[j + 1]) && Elems(c) !! Elems(l[j + 1]);
      } else {
        assert l'[i] == l[if i < k then i else i + 1] && l'[j] == l[if j < k then j else j + 1];
      }
    }
  }

  lemma {:induction false} JoinUnique(p: seq<TxIdx>, c: seq<TxIdx>)
    requires Unique(p) && Unique(c) && Elems(p) !! Elems(c)
    ensures Unique(p + c)
  {
    forall i, j | 0 <= i < j < |p + c| ensures (p + c)[i] != (p + c)[j] {
      if i < |p| <= j { assert p[i] in Elems(p) && c[j - |p|] in Elems(c); }
    }
  }

  lemma {:induction false} MergedOk(pass: Pass, entries: Entries, l: Groups, k: nat)
    requires ListOk(pass, entries, l) && 0 < k < |l|
    ensures TailOf(l[k]) < |entries| && TailOf(l[k - 1]) < |entries| && entries[TailOf(l[k])].firstTx < |entries|
    ensures ListOk(pass, MergeEntries(entries, TailOf(l[k]), TailOf(l[k - 1])), MergeAt(l, k))
  {
    hide Unique, Elems, ListOk, Apart, GroupOk, MergeEntries, Links, TailOk;
    var p, c, l' := l[k - 1], l[k], MergeAt(l, k);
    ListHead(pass, entries, l);
    ListAt(pass, entries, l, k);
    ListAt(pass, entries, l, k - 1);
    FirstsApart(pass, entries, l, k - 1, k);
    ApartAt(l, k - 1, k);
    ApartAt(l, k, k - 1);
    var after := MergeEntries(entries, TailOf(c), TailOf(p));
    MergedLinks(pass, entries, p, c, PrevTail(l, k - 1));
    MergedTail(pass, entries, p, c, PrevTail(l, k - 1));
    MergeEntryAt(entries, TailOf(c), TailOf(p), 0);
    MergeApart(l, k);
    assert TailOf(p + c) == TailOf(c);
    forall i | 0 <= i < |l'| ensures GroupOk(pass, after, l'[i], PrevTail(l', i)) {
      if i == k - 1 {
        MergedGroup(pass, after, p + c, PrevTail(l, k - 1));
      } else {
        var m := if i < k then i else i + 1;
        assert l'[i] == l[m] && PrevTail(l', i) == PrevTail(l, m);
        MergedFrame(pass, entries, l, k, m);
      }
    }
    assert PrevTail(l', |l'|) == PrevTail(l, |l|);
    ListByParts(pass, after, l');
  }

  lemma {:induction false} MergedGroup(pass: Pass, entries: Entries, c: seq<TxIdx>, prev: nat)
    requires Links(entries, c) && TailOk(pass, entries, c, prev)
    ensures GroupOk(pass, entries, c, prev)
  {}
}
