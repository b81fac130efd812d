/** Sums of integer weights over finite sets of numbers. */
module Sums {
  ghost function Pick(s: set<nat>): (v: nat)
    requires s != {}
    ensures v in s
  {
    var v :| v in s;
    v
  }

  /** Sum of a weight over a set. */
  ghost function Sum(w: nat -> int, s: set<nat>): int {
    if s == {} then 0 else w(Pick(s)) + Sum(w, s - {Pick(s)})
  }

  lemma {:induction false} SumRemove(w: nat -> int, s: set<nat>, v: nat)
    requires v in s
    ensures Sum(w, s) == w(v) + Sum(w, s - {v})
    decreases |s|
  {
    var u := Pick(s);
    if u != v {
      SumRemove(w, s - {u}, v);
      SumRemove(w, s - {v}, u);
      assert s - {u} - {v} == s - {v} - {u};
    }
  }

  lemma {:induction false} SumUnion(w: nat -> int, a: set<nat>, b: set<nat>)
    requires a !! b
    ensures Sum(w, a + b) == Sum(w, a) + Sum(w, b)
    decreases |a|
  {
    if a == {} {
      assert a + b == b;
    } else {
      var v :| v in a;
      SumRemove(w, a, v);
      SumRemove(w, a + b, v);
      assert (a + b) - {v} == (a - {v}) + b;
      SumUnion(w, a - {v}, b);
    }
  }

  lemma {:induction false} SumPositive(w: nat -> int, s: set<nat>)
    requires forall v :: w(v) > 0
    ensures s != {} ==> Sum(w, s) > 0
    decreases |s|
  {
    if s != {} {
      var v := Pick(s);
      SumPositive(w, s - {v});
    }
  }

  lemma {:induction false} SumSame(w: nat -> int, x: nat -> int, k: int, s: set<nat>)
    requires forall v :: x(v) == k * w(v)
    ensures Sum(x, s) == k * Sum(w, s)
    decreases |s|
  {
    if s != {} {
      var v := Pick(s);
      SumSame(w, x, k, s - {v});
    }
  }

  lemma {:induction false} SumEqual(w: nat -> int, x: nat -> int, s: set<nat>)
    requires forall v <- s :: w(v) == x(v)
    ensures Sum(w, s) == Sum(x, s)
    decreases |s|
  {
    if s != {} { SumEqual(w, x, s - {Pick(s)}); }
  }

  lemma {:induction false} SumChange(w: nat -> int, x: nat -> int, s: set<nat>, c: nat)
    requires c in s && forall v <- s | v != c :: w(v) == x(v)
    ensures Sum(x, s) == Sum(w, s) - w(c) + x(c)
  {
    hide Sum;
    SumRemove(w, s, c);
    SumRemove(x, s, c);
    SumEqual(w, x, s - {c});
  }

  lemma {:induction false} SumZero(w: nat -> int, s: set<nat>)
    requires forall v :: w(v) >= 0
    ensures Sum(w, s) == 0 <==> forall v <- s :: w(v) == 0
    ensures Sum(w, s) >= 0
    decreases |s|
  {
    if s != {} {
      var u := Pick(s);
      SumZero(w, s - {u});
    }
  }

  lemma {:induction false} SumNatural(w: nat -> int, s: set<nat>)
    requires forall v :: w(v) >= 0
    ensures Sum(w, s) >= 0
    decreases |s|
  {
    if s != {} { SumNatural(w, s - {Pick(s)}); }
  }

  lemma {:induction false} SumEmpty(w: nat -> int)
    ensures Sum(w, {}) == 0
  {}
}
