/**
 A transaction that nothing needs, moved to the end of a linearization: a pass from the back brings
 it back to where it does at least as well as before.
 */
module MovedLeaves {
  import opened FeeRates
  import opened Forests
  import opened Loading
  import opened Ordering
  import opened GroupOrders
  import opened GroupLists
  import opened Chunkings
  import opened GroupSorting

  /** The groups other than that of `t` alone. */
  ghost function Drop(l: Groups, t: TxIdx): Groups {
    if l == [] then [] else Drop(l[..|l| - 1], t) + if l[|l| - 1] == [t] then [] else [l[|l| - 1]]
  }

  lemma {:induction false} DropAppend(a: Groups, b: Groups, t: TxIdx)
    ensures Drop(a + b, t) == Drop(a, t) + Drop(b, t)
    decreases |b|
  {
    if b == [] {
      assert a + b == a;
    } else {
      var rest, c := b[..|b| - 1], b[|b| - 1];
      DropAppend(a, rest, t);
      assert (a + b)[..|a + b| - 1] == a + rest && (a + b)[|a + b| - 1] == c;
    }
  }

  lemma {:induction false} DropOne(c: seq<TxIdx>, t: TxIdx)
    ensures Drop([c], t) == if c == [t] then [] else [c]
  {
    assert [c][..0] == [];
  }

  lemma {:induction false} DropElems(l: Groups, t: TxIdx)
    ensures Elems(Flat(Drop(l, t))) <= Elems(Flat(l))
    ensures Unique(Flat(l)) ==> Unique(Flat(Drop(l, t)))
    decreases |l|
  {
    hide Unique;
    if l != [] {
      var rest, c := l[..|l| - 1], l[|l| - 1];
      DropElems(rest, t);
      ElemsAppend(Flat(rest), c);
      FlatAppend(Drop(rest, t), [c]);
      FlatOne(c);
      ElemsAppend(Flat(Drop(rest, t)), c);
      assert c == [t] ==> Drop(l, t) == Drop(rest, t);
      if Unique(Flat(l)) {
        UniqueParts(Flat(rest), c);
        if c != [t] { UniqueJoin(Flat(Drop(rest, t)), c); }
      }
    }
  }

  lemma {:induction false} UniqueJoin(a: seq<TxIdx>, b: seq<TxIdx>)
    requires Unique(a) && Unique(b) && Elems(a) !! Elems(b)
    ensures Unique(a + b)
  {
    forall i, j | 0 <= i < j < |a + b| ensures (a + b)[i] != (a + b)[j] {
      if i < |a| <= j { assert a[i] in Elems(a) && b[j - |a|] in Elems(b); }
    }
  }

  /** `t` is a group of its own, and nothing else needs it. */
  ghost predicate Aside(pass: Pass, l: Groups, t: TxIdx) {
    [t] in l && forall i | 0 <= i < |l| && l[i] != [t] :: t !in DepOf(pass, l[i])
  }

  lemma {:induction false} AsideNot(pass: Pass, l: Groups, t: TxIdx, k: nat)
    requires 0 < k < |l| && Aside(pass, l, t) && l[k] != [t] && DepOf(pass, l[k]) * Elems(l[k - 1]) != {}
    ensures l[k - 1] != [t]
  {
    assert Elems([t]) == {t};
  }

  lemma {:induction false} CutDrop(l: Groups, k: nat, t: TxIdx)
    requires 0 < k < |l|
    ensures Drop(l, t) == Drop(l[..k - 1], t) + Drop([l[k - 1]], t) + Drop([l[k]], t) + Drop(l[k + 1..], t)
  {
    hide Drop;
    var a, p, c, b := l[..k - 1], [l[k - 1]], [l[k]], l[k + 1..];
    assert l == a + p + c + b;
    DropAppend(a + p + c, b, t);
    DropAppend(a + p, c, t);
    DropAppend(a, p, t);
  }

  lemma {:induction false} SwapDrop(l: Groups, k: nat, t: TxIdx)
    requires 0 < k < |l|
    ensures Drop(SwapAt(l, k), t) == Drop(l[..k - 1], t) + Drop([l[k]], t) + Drop([l[k - 1]], t) + Drop(l[k + 1..], t)
  {
    hide Drop;
    var m := SwapAt(l, k);
    CutDrop(m, k, t);
    assert m[..k - 1] == l[..k - 1] && m[k + 1..] == l[k + 1..] && m[k - 1] == l[k] && m[k] == l[k - 1];
  }

  lemma {:induction false} FourFlat(a: Groups, p: seq<TxIdx>, c: seq<TxIdx>, b: Groups)
    ensures Flat(a + [p] + [c] + b) == Flat(a) + p + c + Flat(b)
  {
    hide Flat;
    FlatAppend(a + [p] + [c], b);
    FlatAppend(a + [p], [c]);
    FlatAppend(a, [p]);
    FlatOne(p);
    FlatOne(c);
  }

  /** Swapping other groups, or one with `t`, makes the order without `t` no worse. */
  lemma {:induction false} AsideSwap(pass: Pass, l: Groups, k: nat, t: TxIdx)
    requires 0 < k < |l| && Aside(pass, l, t) && l[k] != [t] && PositiveSizes(pass.fees) && Unique(Flat(l))
    requires Dominated(pass.fees, l[k - 1]) && Dominated(pass.fees, l[k]) && Rate(pass.fees, Elems(l[k])) > Rate(pass.fees, Elems(l[k - 1]))
    ensures Aside(pass, SwapAt(l, k), t) && NoWorse(pass.fees, Flat(Drop(SwapAt(l, k), t)), Flat(Drop(l, t)))
  {
    hide Rate, Dominated, NoWorse, Unique, Flat, Drop, Elems, DepOf;
    var m, p, c := SwapAt(l, k), l[k - 1], l[k];
    AsideSame(pass, l, k, t);
    CutDrop(l, k, t);
    SwapDrop(l, k, t);
    DropOne(p, t);
    DropOne(c, t);
    var a, b := Drop(l[..k - 1], t), Drop(l[k + 1..], t);
    if p == [t] {
      assert Drop(m, t) == Drop(l, t);
      NoWorseItself(pass.fees, Flat(Drop(l, t)));
    } else {
      DropElems(l, t);
      FourFlat(a, p, c, b);
      FourFlat(a, c, p, b);
      SwapNoWorse(pass.fees, Flat(a), p, c, Flat(b));
    }
  }

  lemma {:induction false} AsideSame(pass: Pass, l: Groups, k: nat, t: TxIdx)
    requires 0 < k < |l| && Aside(pass, l, t)
    ensures Aside(pass, SwapAt(l, k), t)
  {
    hide DepOf;
    var m := SwapAt(l, k);
    forall i | 0 <= i < |m| && m[i] != [t] ensures t !in DepOf(pass, m[i]) {
      assert m[i] == l[if i == k then k - 1 else if i == k - 1 then k else i];
    }
    var j :| 0 <= j < |l| && l[j] == [t];
    assert m[if j == k then k - 1 else if j == k - 1 then k else j] == [t];
  }

  /** Merging other groups changes nothing but the groups. */
  lemma {:induction false} AsideMerge(pass: Pass, l: Groups, k: nat, t: TxIdx)
    requires 0 < k < |l| && Aside(pass, l, t) && l[k] != [t] && l[k] != [] && l[k - 1] != [] && DepOf(pass, l[k]) * Elems(l[k - 1]) != {}
    ensures Aside(pass, MergeAt(l, k), t) && Flat(Drop(MergeAt(l, k), t)) == Flat(Drop(l, t))
  {
    hide Flat, Drop, Elems, DepOf, Aside;
    AsideNot(pass, l, t, k);
    AsideMerged(pass, l, k, t);
    var a, p, c, b := l[..k - 1], l[k - 1], l[k], l[k + 1..];
    assert MergeAt(l, k) == a + [p + c] + b;
    CutDrop(l, k, t);
    DropOne(p, t);
    DropOne(c, t);
    DropOne(p + c, t);
    DropAppend(a + [p + c], b, t);
    DropAppend(a, [p + c], t);
    FourFlat(Drop(a, t), p, c, Drop(b, t));
    FlatAppend(Drop(a, t) + [p + c], Drop(b, t));
    FlatAppend(Drop(a, t), [p + c]);
    FlatOne(p + c);
    assert |p + c| > 1;
  }

  lemma {:induction false} AsideMerged(pass: Pass, l: Groups, k: nat, t: TxIdx)
    requires 0 < k < |l| && Aside(pass, l, t) && l[k] != [t] && l[k - 1] != [t]
    ensures Aside(pass, MergeAt(l, k), t)
  {
    var m, p, c := MergeAt(l, k), l[k - 1], l[k];
    MergedDeps(pass, p, c);
    forall i | 0 <= i < |m| && m[i] != [t] ensures t !in DepOf(pass, m[i]) {
      if i != k - 1 { assert m[i] == l[if i < k then i else i + 1]; }
    }
    var j :| 0 <= j < |l| && l[j] == [t];
    assert m[if j < k then j else j - 1] == [t];
  }

  /** Whatever is aside, other than `v`, stays aside, and the order without it gets no worse. */
  ghost predicate KeepsAside(pass: Pass, before: Groups, after: Groups, v: TxIdx) {
    forall t: TxIdx | t != v && Aside(pass, before, t) :: Aside(pass, after, t) && NoWorse(pass.fees, Flat(Drop(after, t)), Flat(Drop(before, t)))
  }

  lemma {:induction false} KeepsStart(pass: Pass, l: Groups, v: TxIdx)
    ensures KeepsAside(pass, l, l, v)
  {
    hide Aside, NoWorse, Flat, Drop;
    forall t: TxIdx | t != v && Aside(pass, l, t) ensures NoWorse(pass.fees, Flat(Drop(l, t)), Flat(Drop(l, t))) {
      NoWorseItself(pass.fees, Flat(Drop(l, t)));
    }
  }

  lemma {:induction false} KeepsSwap(pass: Pass, before: Groups, l: Groups, rest: seq<TxIdx>, lin: seq<TxIdx>, k: nat, v: TxIdx)
    requires KeepsAside(pass, before, l, v) && Sorting(pass, l, rest, lin) && 0 < k < |l| && l[k] != [] && l[k][|l[k]| - 1] == v
    requires Rate(pass.fees, Elems(l[k])) > Rate(pass.fees, Elems(l[k - 1]))
    ensures KeepsAside(pass, before, SwapAt(l, k), v)
  {
    hide Rate, Aside, NoWorse, Flat, Drop, Dominated, Sorting, Unique, ValidBy, Elems;
    SortingFacts(pass, l, rest, lin, k);
    UniqueParts(Flat(l), rest);
    forall t: TxIdx | t != v && Aside(pass, before, t)
      ensures Aside(pass, SwapAt(l, k), t) && NoWorse(pass.fees, Flat(Drop(SwapAt(l, k), t)), Flat(Drop(before, t)))
    {
      assert l[k] != [t];
      AsideSwap(pass, l, k, t);
      NoWorseTrans(pass.fees, Flat(Drop(SwapAt(l, k), t)), Flat(Drop(l, t)), Flat(Drop(before, t)));
    }
  }

  lemma {:induction false} KeepsMerge(pass: Pass, before: Groups, l: Groups, k: nat, v: TxIdx)
    requires KeepsAside(pass, before, l, v) && 0 < k < |l| && l[k] != [] && l[k][|l[k]| - 1] == v && l[k - 1] != []
    requires DepOf(pass, l[k]) * Elems(l[k - 1]) != {}
    ensures KeepsAside(pass, before, MergeAt(l, k), v)
  {
    hide Aside, NoWorse, Flat, Drop, Elems, DepOf;
    forall t: TxIdx | t != v && Aside(pass, before, t)
      ensures Aside(pass, MergeAt(l, k), t) && NoWorse(pass.fees, Flat(Drop(MergeAt(l, k), t)), Flat(Drop(before, t)))
    {
      assert l[k] != [t];
      AsideMerge(pass, l, k, t);
    }
  }

  // ----- Back in its place

  lemma {:induction false} NoWorseAppend(fees: Fees, a: seq<TxIdx>, b: seq<TxIdx>, y: seq<TxIdx>)
    requires NoWorse(fees, a, b) && Elems(a) == Elems(b)
    ensures NoWorse(fees, a + y, b + y)
  {
    hide Surplus, SomePrefixEarns;
    forall lam: real, k: nat | k <= |b + y| ensures SomePrefixEarns(fees, lam, a + y, Surplus(fees, lam, Elems((b + y)[..k]))) {
      PrefixUpTo(b, y, k);
      var amount := Surplus(fees, lam, Elems((b + y)[..k]));
      if k <= |b| {
        assert SomePrefixEarns(fees, lam, a, amount);
        LongerEarns(fees, lam, a, y, amount);
      } else {
        var m := |a| + (k - |b|);
        PrefixUpTo(a, y, m);
        Earns(fees, lam, a + y, m, amount);
      }
    }
  }

  lemma {:induction false} LongerEarns(fees: Fees, lam: real, a: seq<TxIdx>, y: seq<TxIdx>, amount: real)
    requires SomePrefixEarns(fees, lam, a, amount)
    ensures SomePrefixEarns(fees, lam, a + y, amount)
  {
    hide Surplus;
    var m: nat :| PrefixEarns(fees, lam, a, m, amount);
    assert (a + y)[..m] == a[..m];
    Earns(fees, lam, a + y, m, amount);
  }

  /** A group in front of groups of no higher feerate is no worse placed than behind them. */
  lemma {:induction false} InFront(fees: Fees, x: seq<TxIdx>, c: seq<TxIdx>, b: Groups, y: seq<TxIdx>)
    requires PositiveSizes(fees) && Dominated(fees, c) && Unique(x + Flat(b) + c + y)
    requires forall i | 0 <= i < |b| :: Dominated(fees, b[i]) && Rate(fees, Elems(b[i])) <= Rate(fees, Elems(c))
    ensures NoWorse(fees, x + c + Flat(b) + y, x + Flat(b) + c + y)
    decreases |b|
  {
    hide Rate, Dominated, NoWorse, Unique, Elems;
    if b == [] {
      assert x + c + Flat(b) + y == x + Flat(b) + c + y;
      NoWorseItself(fees, x + Flat(b) + c + y);
    } else {
      var rest, d := b[..|b| - 1], b[|b| - 1];
      var z := d + y;
      assert x + Flat(b) + c + y == (x + Flat(rest)) + d + c + y;
      SwapNoWorse(fees, x + Flat(rest), d, c, y);
      SwapUnique(x + Flat(rest), d, c, y);
      assert (x + Flat(rest)) + c + d + y == x + Flat(rest) + c + z;
      InFront(fees, x, c, rest, z);
      assert x + c + Flat(b) + y == x + c + Flat(rest) + z;
      NoWorseTrans(fees, x + c + Flat(b) + y, (x + Flat(rest)) + c + d + y, x + Flat(b) + c + y);
    }
  }

  /** Where it is, `t` is no worse placed than at the end. */
  lemma {:induction false} AsideInPlace(pass: Pass, l: Groups, rest: seq<TxIdx>, lin: seq<TxIdx>, t: TxIdx)
    requires Sorting(pass, l, rest, lin) && Falling(pass.fees, l) && Aside(pass, l, t)
    ensures NoWorse(pass.fees, Flat(l) + rest, Flat(Drop(l, t)) + [t] + rest)
    ensures Elems(Flat(Drop(l, t)) + [t]) == Elems(Flat(l))
  {
    hide Rate, Dominated, NoWorse, Unique, Elems, Flat, Drop, DepOf, ValidBy;
    var j :| 0 <= j < |l| && l[j] == [t];
    var a, b := l[..j], l[j + 1..];
    SortingUnique(pass, l, rest, lin);
    AsideParts(l, rest, t, j);
    forall i | 0 <= i < |b| ensures Dominated(pass.fees, b[i]) && Rate(pass.fees, Elems(b[i])) <= Rate(pass.fees, Elems([t])) {
      assert b[i] == l[j + 1 + i];
    }
    InFront(pass.fees, Flat(a), [t], b, rest);
  }

  lemma {:induction false} SortingUnique(pass: Pass, l: Groups, rest: seq<TxIdx>, lin: seq<TxIdx>)
    requires Sorting(pass, l, rest, lin)
    ensures Unique(Flat(l) + rest)
  {}

  lemma {:induction false} AsideParts(l: Groups, rest: seq<TxIdx>, t: TxIdx, j: nat)
    requires j < |l| && l[j] == [t] && Unique(Flat(l) + rest)
    ensures var a, b := l[..j], l[j + 1..];
            && Flat(l) + rest == Flat(a) + [t] + Flat(b) + rest && Flat(Drop(l, t)) + [t] + rest == Flat(a) + Flat(b) + [t] + rest
            && Unique(Flat(a) + Flat(b) + [t] + rest) && Elems(Flat(Drop(l, t)) + [t]) == Elems(Flat(l))
  {
    hide Flat, Drop, Unique, Elems;
    var a, b := l[..j], l[j + 1..];
    assert l == a + [[t]] + b;
    UniqueParts(Flat(l), rest);
    FlatApart(l);
    FlatAppend(a + [[t]], b);
    FlatAppend(a, [[t]]);
    FlatOne([t]);
    DropAppend(a + [[t]], b, t);
    DropAppend(a, [[t]], t);
    DropOne([t], t);
    OnlyAt(l, t, j);
    DropNone(a, t);
    DropNone(b, t);
    assert Drop(l, t) == a + b;
    FlatAppend(a, b);
    SwapUnique(Flat(a), [t], Flat(b), rest);
    assert Flat(a) + [t] + Flat(b) + rest == Flat(l) + rest;
    SameUnion(Flat(a), [t], Flat(b));
  }

  lemma {:induction false} OnlyAt(l: Groups, t: TxIdx, j: nat)
    requires Apart(l) && j < |l| && l[j] == [t]
    ensures [t] !in l[..j] && [t] !in l[j + 1..]
  {
    forall i | 0 <= i < |l| && i != j ensures l[i] != [t] {
      ApartAt(l, i, j);
      assert t in Elems([t]);
    }
  }

  lemma {:induction false} DropNone(l: Groups, t: TxIdx)
    requires [t] !in l
    ensures Drop(l, t) == l
    decreases |l|
  {
    if l != [] {
      DropNone(l[..|l| - 1], t);
      assert l == l[..|l| - 1] + [l[|l| - 1]];
    }
  }

  // ----- A whole pass

  /** `todo` with its first transaction moved `n` places back. */
  ghost function Back(todo: seq<TxIdx>, n: nat): seq<TxIdx>
    requires n < |todo|
  {
    todo[1..n + 1] + [todo[0]] + todo[n + 1..]
  }

  /** Up to the place where the first transaction was, it is aside; from there on, the order is no worse than it was. */
  ghost predicate MovedAt(pass: Pass, l: Groups, todo: seq<TxIdx>, i: nat, n: nat)
    requires i <= |todo| && n < |todo|
  {
    && (1 <= i <= n + 1 ==> Aside(pass, l, todo[0]) && NoWorse(pass.fees, Flat(Drop(l, todo[0])), todo[1..i]))
    && (i >= n + 1 ==> NoWorse(pass.fees, Flat(l) + todo[i..], Back(todo, n)))
  }

  ghost predicate MovedOk(pass: Pass, l: Groups, todo: seq<TxIdx>, i: nat)
    requires i <= |todo|
  {
    forall n: nat | n < |todo| && ValidBy(pass.dep, Back(todo, n)) :: MovedAt(pass, l, todo, i, n)
  }

  lemma {:induction false} MovedStart(pass: Pass, todo: seq<TxIdx>)
    ensures MovedOk(pass, [], todo, 0)
  {}

  /** What came before the moved transaction does not need it. */
  lemma {:induction false} NotNeeded(pass: Pass, todo: seq<TxIdx>, n: nat, i: nat)
    requires n < |todo| && ValidBy(pass.dep, Back(todo, n)) && 1 <= i <= n
    ensures todo[0] !in DepOf(pass, [todo[i]])
  {
    var b, v := Back(todo, n), todo[i];
    assert b[i - 1] == v && b[n] == todo[0];
    ValidAt(pass.dep, b, i - 1);
    forall d <- pass.dep[v] ensures d != todo[0] {
      var m :| 0 <= m < i && b[..i][m] == d;
      assert b[m] != b[n];
    }
  }

  /** One more transaction is taken up and put in its place. */
  lemma {:induction false} MovedNext(pass: Pass, l: Groups, after: Groups, todo: seq<TxIdx>, i: nat)
    requires i < |todo| && Unique(todo) && Sorting(pass, l, todo[i..], todo) && MovedOk(pass, l, todo, i) && (i == 0 ==> l == [])
    requires Sorting(pass, after, todo[i + 1..], todo) && Falling(pass.fees, after)
    requires NoWorse(pass.fees, Flat(after) + todo[i + 1..], Flat(l) + todo[i..])
    requires KeepsAside(pass, l + [[todo[i]]], after, todo[i]) && (i == 0 ==> after == [[todo[0]]])
    ensures MovedOk(pass, after, todo, i + 1)
  {
    hide Sorting, Falling, NoWorse, KeepsAside, ValidBy, MovedAt, Aside, Flat, Drop, Unique;
    forall n: nat | n < |todo| && ValidBy(pass.dep, Back(todo, n)) ensures MovedAt(pass, after, todo, i + 1, n) {
      assert MovedAt(pass, l, todo, i, n);
      if i > n {
        MovedPast(pass, l, after, todo, i, n);
      } else {
        MovedBefore(pass, l, after, todo, i, n);
      }
    }
  }

  lemma {:induction false} MovedPast(pass: Pass, l: Groups, after: Groups, todo: seq<TxIdx>, i: nat, n: nat)
    requires n < i < |todo| && MovedAt(pass, l, todo, i, n)
    requires NoWorse(pass.fees, Flat(after) + todo[i + 1..], Flat(l) + todo[i..])
    ensures MovedAt(pass, after, todo, i + 1, n)
  {
    hide NoWorse, Aside, Flat, Drop;
    NoWorseTrans(pass.fees, Flat(after) + todo[i + 1..], Flat(l) + todo[i..], Back(todo, n));
  }

  lemma {:induction false} MovedBefore(pass: Pass, l: Groups, after: Groups, todo: seq<TxIdx>, i: nat, n: nat)
    requires i <= n < |todo| && Unique(todo) && ValidBy(pass.dep, Back(todo, n)) && MovedAt(pass, l, todo, i, n)
    requires Sorting(pass, l, todo[i..], todo) && Sorting(pass, after, todo[i + 1..], todo) && Falling(pass.fees, after)
    requires KeepsAside(pass, l + [[todo[i]]], after, todo[i]) && (i == 0 ==> l == [] && after == [[todo[0]]])
    ensures MovedAt(pass, after, todo, i + 1, n)
  {
    hide NoWorse, Falling, KeepsAside, Sorting, ValidBy, Flat, Drop, DepOf, Aside, Unique;
    var t := todo[0];
    StillAside(pass, l, after, todo, i, n);
    if i == n {
      AsideInPlace(pass, after, todo[n + 1..], todo, t);
      DropIs(pass, after, todo, n + 1);
      NoWorseAppend(pass.fees, Flat(Drop(after, t)), todo[1..n + 1], [t] + todo[n + 1..]);
      assert Flat(Drop(after, t)) + ([t] + todo[n + 1..]) == Flat(Drop(after, t)) + [t] + todo[n + 1..];
      assert todo[1..n + 1] + ([t] + todo[n + 1..]) == Back(todo, n);
      NoWorseTrans(pass.fees, Flat(after) + todo[n + 1..], Flat(Drop(after, t)) + [t] + todo[n + 1..], Back(todo, n));
    }
  }

  lemma {:induction false} StillAside(pass: Pass, l: Groups, after: Groups, todo: seq<TxIdx>, i: nat, n: nat)
    requires i <= n < |todo| && Unique(todo) && ValidBy(pass.dep, Back(todo, n)) && MovedAt(pass, l, todo, i, n)
    requires Sorting(pass, l, todo[i..], todo) && KeepsAside(pass, l + [[todo[i]]], after, todo[i])
    requires i == 0 ==> l == [] && after == [[todo[0]]]
    ensures Aside(pass, after, todo[0]) && NoWorse(pass.fees, Flat(Drop(after, todo[0])), todo[1..i + 1])
  {
    hide NoWorse, Sorting, ValidBy, Flat, Drop, DepOf, KeepsAside, Unique;
    var t, v := todo[0], todo[i];
    if i == 0 {
      DropOne([t], t);
      assert after[0] == [t];
      FlatNone();
      assert todo[1..1] == [];
      NoWorseItself(pass.fees, []);
    } else {
      SamePlaceNot(todo, i);
      NotNeeded(pass, todo, n, i);
      AsideAdd(pass, l, t, v);
      DropAppend(l, [[v]], t);
      DropOne([v], t);
      FlatAppend(Drop(l, t), [[v]]);
      FlatOne([v]);
      DropIs(pass, l, todo, i);
      NoWorseAppend(pass.fees, Flat(Drop(l, t)), todo[1..i], [v]);
      assert todo[1..i] + [v] == todo[1..i + 1];
      KeptAt(pass, l + [[v]], after, v, t);
      NoWorseTrans(pass.fees, Flat(Drop(after, t)), Flat(Drop(l + [[v]], t)), todo[1..i + 1]);
    }
  }

  lemma {:induction false} SamePlaceNot(todo: seq<TxIdx>, i: nat)
    requires Unique(todo) && 0 < i < |todo|
    ensures todo[i] != todo[0]
  {}

  /** Without the first transaction, the groups hold what else was taken up. */
  lemma {:induction false} DropIs(pass: Pass, l: Groups, todo: seq<TxIdx>, i: nat)
    requires 1 <= i <= |todo| && Unique(todo) && Sorting(pass, l, todo[i..], todo) && Aside(pass, l, todo[0])
    ensures Elems(Flat(Drop(l, todo[0]))) == Elems(todo[1..i])
  {
    hide Flat, Drop, Unique, DepOf, Elems, Dominated, NoWorse;
    var t, rest := todo[0], todo[i..];
    var j :| 0 <= j < |l| && l[j] == [t];
    SortingUnique(pass, l, rest, todo);
    AsideParts(l, rest, t, j);
    assert todo == [t] + todo[1..i] + rest && [t] + todo[1..i] == todo[..i];
    SameFront(Flat(l), todo[..i], rest);
    var d := Flat(Drop(l, t));
    assert d + [t] + rest == Flat(l[..j]) + Flat(l[j + 1..]) + [t] + rest;
    UniqueParts(d + [t], rest);
    UniqueParts(d, [t]);
    UniqueParts([t] + todo[1..i], rest);
    UniqueParts([t], todo[1..i]);
    ElemsAppend(d, [t]);
    ElemsAppend([t], todo[1..i]);
    SameWithout(Elems(d), Elems(todo[1..i]), Elems([t]));
  }

  lemma {:induction false} SameWithout(a: Txs, b: Txs, t: Txs)
    requires a !! t && b !! t && a + t == t + b
    ensures a == b
  {
    assert a == (a + t) - t && b == (t + b) - t;
  }

  lemma {:induction false} SameFront(a: seq<TxIdx>, b: seq<TxIdx>, y: seq<TxIdx>)
    requires Unique(a + y) && Unique(b + y) && Elems(a + y) == Elems(b + y)
    ensures Elems(a) == Elems(b)
  {
    UniqueParts(a, y);
    UniqueParts(b, y);
    ElemsAppend(a, y);
    ElemsAppend(b, y);
    assert Elems(a) == Elems(a + y) - Elems(y) && Elems(b) == Elems(b + y) - Elems(y);
  }

  lemma {:induction false} KeptAt(pass: Pass, before: Groups, after: Groups, v: TxIdx, t: TxIdx)
    requires KeepsAside(pass, before, after, v) && t != v && Aside(pass, before, t)
    ensures Aside(pass, after, t) && NoWorse(pass.fees, Flat(Drop(after, t)), Flat(Drop(before, t)))
  {}

  lemma {:induction false} AsideAdd(pass: Pass, l: Groups, t: TxIdx, v: TxIdx)
    requires Aside(pass, l, t) && t !in DepOf(pass, [v])
    ensures Aside(pass, l + [[v]], t)
  {
    hide DepOf;
    var m := l + [[v]];
    forall i | 0 <= i < |m| && m[i] != [t] ensures t !in DepOf(pass, m[i]) { if i < |l| { assert m[i] == l[i]; } }
  }
}
