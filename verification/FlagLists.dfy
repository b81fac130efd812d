/** The flagged entries of a cache as a circular doubly linked list with a sentinel, relinked in place. */
module FlagLists {
  import opened CoinsCaches

  /** A node of the list: the sentinel, or the entry of an outpoint. */
  datatype Node = Sentinel | Of(op: OutPoint)

  datatype Link = Link(prev: Node, next: Node)

  /** Entries that are not flagged have no links. */
  type Links = map<Node, Link>

  /** Going round from the sentinel: the sentinel, the entries in order, the sentinel again. */
  ghost function At(list: seq<OutPoint>, i: nat): Node {
    if 0 < i <= |list| then Of(list[i - 1]) else Sentinel
  }

  ghost predicate Unique(list: seq<OutPoint>) {
    forall i, j | 0 <= i < j < |list| :: list[i] != list[j]
  }

  /** The links go round through exactly the entries of `list`, in both directions. */
  ghost predicate Linked(links: Links, list: seq<OutPoint>) {
    && Unique(list)
    && (forall n <- links :: n.Sentinel? || n.op in list)
    && Sentinel in links && (forall op <- list :: Of(op) in links)
    && (forall i | 0 <= i <= |list| :: links[At(list, i)].next == At(list, i + 1))
    && (forall i | 0 <= i <= |list| :: links[At(list, i + 1)].prev == At(list, i))
  }

  lemma {:induction false} AtDistinct(list: seq<OutPoint>, i: nat, j: nat)
    requires Unique(list) && i <= |list| && j <= |list| && i != j
    ensures At(list, i) != At(list, j)
  {}

  function Appended(links: Links, op: OutPoint): Links
    requires Sentinel in links && links[Sentinel].prev in links
  {
    var last := links[Sentinel].prev;
    var a := links[Of(op) := Link(last, Sentinel)];
    var b := a[Sentinel := a[Sentinel].(prev := Of(op))];
    b[last := b[last].(next := Of(op))]
  }

  lemma {:induction false} AppendedAt(list: seq<OutPoint>, op: OutPoint, i: nat)
    ensures At(list + [op], i) == if i == |list| + 1 then Of(op) else At(list, i)
  {}

  /** Linking an entry before the sentinel puts it last in the list. */
  lemma {:induction false} AppendedOk(links: Links, list: seq<OutPoint>, op: OutPoint)
    requires Linked(links, list) && Of(op) !in links
    ensures links[Sentinel].prev in links && Linked(Appended(links, op), list + [op])
  {
    var n := |list|;
    assert links[At(list, n + 1)].prev == At(list, n);
    assert n > 0 ==> list[n - 1] in list;
    var r, now := Appended(links, op), list + [op];
    assert op !in list;
    hide At;
    AtEnds(list);
    AtEnds(now);
    forall i | 0 <= i <= n + 1 ensures r[At(now, i)].next == At(now, i + 1) {
      AppendedAt(list, op, i);
      AppendedAt(list, op, i + 1);
      if i < n { AtIn(links, list, i); AtDistinct(list, i, n); }
    }
    forall i | 0 <= i <= n + 1 ensures r[At(now, i + 1)].prev == At(now, i) {
      AppendedAt(list, op, i);
      AppendedAt(list, op, i + 1);
      if i < n { AtIn(links, list, i + 1); AtDistinct(list, i + 1, 0); }
    }
  }

  lemma {:induction false} AtEnds(list: seq<OutPoint>)
    ensures At(list, 0) == Sentinel && At(list, |list| + 1) == Sentinel
    ensures forall i | 0 < i <= |list| :: At(list, i) == Of(list[i - 1])
  {}

  lemma {:induction false} AtIn(links: Links, list: seq<OutPoint>, i: nat)
    requires Linked(links, list)
    ensures At(list, i) in links
  {
    if 0 < i <= |list| { assert list[i - 1] in list; }
  }

  function Removed(links: Links, op: OutPoint): Links
    requires Of(op) in links && links[Of(op)].next in links && links[Of(op)].prev in links
  {
    var l := links[Of(op)];
    var a := links[l.next := links[l.next].(prev := l.prev)];
    var b := a[l.prev := a[l.prev].(next := l.next)];
    b - {Of(op)}
  }

  lemma {:induction false} RemovedAt(list: seq<OutPoint>, k: nat, i: nat)
    requires k < |list|
    ensures At(list[..k] + list[k + 1..], i) == if i <= k then At(list, i) else At(list, i + 1)
  {}

  lemma {:induction false} RemovedUnique(list: seq<OutPoint>, k: nat)
    requires Unique(list) && k < |list|
    ensures Unique(list[..k] + list[k + 1..])
    ensures forall op :: op in list[..k] + list[k + 1..] <==> op in list && op != list[k]
  {
    var now := list[..k] + list[k + 1..];
    forall i | 0 <= i < |now| ensures now[i] == list[if i < k then i else i + 1] {}
    forall op <- list | op != list[k] ensures op in now {
      var j :| 0 <= j < |list| && list[j] == op;
      assert now[if j < k then j else j - 1] == op;
    }
  }

  /** Unlinking an entry takes it out of the list and leaves the others in their order. */
  lemma {:induction false} RemovedOk(links: Links, list: seq<OutPoint>, k: nat)
    requires Linked(links, list) && k < |list|
    ensures Of(list[k]) in links && links[Of(list[k])] == Link(At(list, k), At(list, k + 2)) && At(list, k) in links && At(list, k + 2) in links
    ensures Linked(Removed(links, list[k]), list[..k] + list[k + 1..])
  {
    hide At, Unique, Removed;
    RemovedHere(links, list, k);
    RemovedRest(links, list, k);
    var r, now := Removed(links, list[k]), list[..k] + list[k + 1..];
    AtEnds(now);
    forall i | 0 <= i <= |now| ensures At(now, i) in r && r[At(now, i)].next == At(now, i + 1) {
      RemovedAt(list, k, i);
      RemovedAt(list, k, i + 1);
      RemovedNext(links, list, k, i);
    }
    forall i | 0 <= i <= |now| ensures r[At(now, i + 1)].prev == At(now, i) {
      RemovedAt(list, k, i);
      RemovedAt(list, k, i + 1);
      RemovedPrev(links, list, k, i);
    }
  }

  /** The links of an entry lead to its neighbours. */
  lemma {:induction false} RemovedHere(links: Links, list: seq<OutPoint>, k: nat)
    requires Linked(links, list) && k < |list|
    ensures Of(list[k]) in links && links[Of(list[k])] == Link(At(list, k), At(list, k + 2)) && At(list, k) in links && At(list, k + 2) in links
  {
    assert list[k] in list && At(list, k + 1) == Of(list[k]);
    assert links[At(list, k + 1)].next == At(list, k + 2) && links[At(list, k + 1)].prev == At(list, k);
    AtIn(links, list, k);
    AtIn(links, list, k + 2);
  }

  lemma {:induction false} RemovedRest(links: Links, list: seq<OutPoint>, k: nat)
    requires Linked(links, list) && k < |list| && Of(list[k]) in links
    requires links[Of(list[k])] == Link(At(list, k), At(list, k + 2)) && At(list, k) in links && At(list, k + 2) in links
    ensures var r, now := Removed(links, list[k]), list[..k] + list[k + 1..];
            && Unique(now) && Sentinel in r && (forall n <- r :: n.Sentinel? || n.op in now) && (forall op <- now :: Of(op) in r)
  {
    RemovedUnique(list, k);
    hide At, Unique;
    var r, now := Removed(links, list[k]), list[..k] + list[k + 1..];
    assert r.Keys == links.Keys - {Of(list[k])};
    forall n <- r ensures n.Sentinel? || n.op in now {
      if n.Of? {
        var i :| 0 <= i < |list| && list[i] == n.op;
        assert now[if i < k then i else i - 1] == n.op;
      }
    }
    forall op <- now ensures Of(op) in r { RemovedMember(list, k, op); }
  }

  lemma {:induction false} RemovedMember(list: seq<OutPoint>, k: nat, op: OutPoint)
    requires Unique(list) && k < |list| && op in list[..k] + list[k + 1..]
    ensures op in list && op != list[k]
  {}

  lemma {:induction false} RemovedNext(links: Links, list: seq<OutPoint>, k: nat, i: nat)
    requires Linked(links, list) && k < |list| && i < |list| && Of(list[k]) in links
    requires links[Of(list[k])] == Link(At(list, k), At(list, k + 2)) && At(list, k) in links && At(list, k + 2) in links
    ensures var r, j := Removed(links, list[k]), if i <= k then i else i + 1;
            At(list, j) in r && r[At(list, j)].next == At(list, if i + 1 <= k then i + 1 else i + 2)
  {
    var j := if i <= k then i else i + 1;
    AtIn(links, list, j);
    AtDistinct(list, j, k + 1);
    assert At(list, k + 1) == Of(list[k]);
    if j != k { AtDistinct(list, j, k); }
  }

  lemma {:induction false} RemovedPrev(links: Links, list: seq<OutPoint>, k: nat, i: nat)
    requires Linked(links, list) && k < |list| && i < |list| && Of(list[k]) in links
    requires links[Of(list[k])] == Link(At(list, k), At(list, k + 2)) && At(list, k) in links && At(list, k + 2) in links
    ensures var r, j := Removed(links, list[k]), if i + 1 <= k then i + 1 else i + 2;
            At(list, j) in r && r[At(list, j)].prev == At(list, if i <= k then i else i + 1)
  {
    var j := if i + 1 <= k then i + 1 else i + 2;
    AtIn(links, list, j);
    assert At(list, k + 1) == Of(list[k]);
    var j', m' := if j == |list| + 1 then 0 else j, if k + 2 == |list| + 1 then 0 else k + 2;
    assert At(list, j) == At(list, j') && At(list, k + 2) == At(list, m');
    AtDistinct(list, j', k + 1);
    if j != k + 2 { AtDistinct(list, j', m'); }
  }

  class FlagList {
    var links: Links
    ghost var list: seq<OutPoint>

    ghost predicate Valid()
      reads this
    {
      Linked(links, list)
    }

    /** The empty list: the sentinel points to itself. */
    constructor ()
      ensures Valid() && list == []
    {
      links, list := map[Sentinel := Link(Sentinel, Sentinel)], [];
    }

    /** Flag an entry: append it, unless it is flagged already. */
    method AddFlags(op: OutPoint)
      requires Valid()
      modifies this
      ensures Valid() && list == if op in old(list) then old(list) else old(list) + [op]
    {
      if Of(op) !in links {
        AppendedOk(links, list, op);
        var last := links[Sentinel].prev;
        links := links[Of(op) := Link(last, Sentinel)];
        links := links[Sentinel := links[Sentinel].(prev := Of(op))];
        links := links[last := links[last].(next := Of(op))];
        list := list + [op];
      }
    }

    /** Unflag an entry: take it out, if it is flagged. */
    method SetClean(op: OutPoint)
      requires Valid()
      modifies this
      ensures Valid() && list == WithoutOp(old(list), op)
    {
      if Of(op) in links {
        ghost var k :| 0 <= k < |list| && list[k] == op;
        RemovedOk(links, list, k);
        WithoutAt(list, k);
        var l := links[Of(op)];
        links := links[l.next := links[l.next].(prev := l.prev)];
        links := links[l.prev := links[l.prev].(next := l.next)];
        links := links - {Of(op)};
        list := list[..k] + list[k + 1..];
      } else {
        WithoutAbsent(list, op);
      }
    }

    /**
     The flagged entries, in the order of the list. Unless everything is to be erased afterwards, each entry is unflagged as the walk goes
     past it.
     */
    method Walk(willErase: bool) returns (ops: seq<OutPoint>)
      requires Valid()
      modifies this
      ensures Valid() && ops == old(list) && list == if willErase then old(list) else []
    {
      hide Linked;
      ops := [];
      LinkAt(links, list, 0);
      var cur := links[Sentinel].next;
      while cur != Sentinel
        invariant Valid() && |ops| <= |old(list)| && ops == old(list)[..|ops|] && cur == At(old(list), |ops| + 1)
        invariant list == if willErase then old(list) else old(list)[|ops|..]
        decreases |old(list)| - |ops|
      {
        assert cur == At(list, if willErase then |ops| + 1 else 1);
        LinkAt(links, list, if willErase then |ops| + 1 else 1);
        var next := links[cur].next;
        if !willErase {
          WithoutAt(list, 0);
          SetClean(cur.op);
        }
        ops := ops + [cur.op];
        cur := next;
      }
    }
  }

  lemma {:induction false} LinkAt(links: Links, list: seq<OutPoint>, i: nat)
    requires Linked(links, list) && i <= |list|
    ensures Unique(list) && At(list, i) in links && links[At(list, i)].next == At(list, i + 1)
  {
    if i > 0 { assert list[i - 1] in list; }
  }

  lemma {:induction false} WithoutAt(list: seq<OutPoint>, k: nat)
    requires Unique(list) && k < |list|
    ensures WithoutOp(list, list[k]) == list[..k] + list[k + 1..]
    decreases k
  {
    if k > 0 {
      assert list[0] != list[k];
      WithoutAt(list[1..], k - 1);
      assert list[..k] + list[k + 1..] == [list[0]] + (list[1..][..k - 1] + list[1..][k..]);
    }
  }

  lemma {:induction false} WithoutAbsent(list: seq<OutPoint>, op: OutPoint)
    requires op !in list
    ensures WithoutOp(list, op) == list
    decreases |list|
  {
    if list != [] { WithoutAbsent(list[1..], op); }
  }
}
