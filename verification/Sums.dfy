/** Finite sums over sets, used to state that money is conserved. */
module Sums {

  /** The sum of f over the finite set s. */
  ghost function SumOver<K(!new)>(s: set<K>, f: K -> int): int {
    if s == {} then 0 else
      var x :| x in s;
      f(x) + SumOver(s - {x}, f)
  }

  /** Any member may be taken out first. */
  lemma {:induction false} SumTakeOut<K(!new)>(s: set<K>, f: K -> int, x: K)
    requires x in s
    ensures SumOver(s, f) == f(x) + SumOver(s - {x}, f)
    decreases |s|
  {
    var y :| y in s && SumOver(s, f) == f(y) + SumOver(s - {y}, f);
    if y != x {
      SumTakeOut(s - {y}, f, x);
      SumTakeOut(s - {x}, f, y);
      assert s - {y} - {x} == s - {x} - {y};
    }
  }

  lemma {:induction false} SumAgree<K(!new)>(s: set<K>, f: K -> int, g: K -> int)
    requires forall x :: x in s ==> f(x) == g(x)
    ensures SumOver(s, f) == SumOver(s, g)
    decreases |s|
  {
    if s != {} {
      var x :| x in s;
      SumTakeOut(s, f, x);
      SumTakeOut(s, g, x);
      SumAgree(s - {x}, f, g);
    }
  }

  lemma {:induction false} SumUnion<K(!new)>(s: set<K>, t: set<K>, f: K -> int)
    requires s !! t
    ensures SumOver(s + t, f) == SumOver(s, f) + SumOver(t, f)
    decreases |s|
  {
    if s == {} {
      assert s + t == t;
    } else {
      var x :| x in s;
      SumTakeOut(s, f, x);
      SumTakeOut(s + t, f, x);
      assert s + t - {x} == s - {x} + t;
      SumUnion(s - {x}, t, f);
    }
  }

  /** Members where f is zero do not matter. */
  lemma {:induction false} SumDropZeros<K(!new)>(s: set<K>, t: set<K>, f: K -> int)
    requires t <= s
    requires forall x :: x in s - t ==> f(x) == 0
    ensures SumOver(s, f) == SumOver(t, f)
  {
    SumUnion(t, s - t, f);
    assert t + (s - t) == s;
    SumZero(s - t, f);
  }

  lemma {:induction false} SumZero<K(!new)>(s: set<K>, f: K -> int)
    requires forall x :: x in s ==> f(x) == 0
    ensures SumOver(s, f) == 0
    decreases |s|
  {
    if s != {} {
      var x :| x in s;
      SumTakeOut(s, f, x);
      SumZero(s - {x}, f);
    }
  }

  lemma {:induction false} SumAdd<K(!new)>(s: set<K>, f: K -> int, g: K -> int, h: K -> int)
    requires forall x :: x in s ==> h(x) == f(x) + g(x)
    ensures SumOver(s, h) == SumOver(s, f) + SumOver(s, g)
    decreases |s|
  {
    if s != {} {
      var x :| x in s;
      SumTakeOut(s, f, x);
      SumTakeOut(s, g, x);
      SumTakeOut(s, h, x);
      SumAdd(s - {x}, f, g, h);
    }
  }

  /** If f and g differ at most at x, their sums differ by that one difference. */
  lemma {:induction false} SumChangeOne<K(!new)>(s: set<K>, f: K -> int, g: K -> int, x: K)
    requires x in s
    requires forall y :: y in s && y != x ==> f(y) == g(y)
    ensures SumOver(s, g) == SumOver(s, f) + g(x) - f(x)
  {
    SumTakeOut(s, f, x);
    SumTakeOut(s, g, x);
    SumAgree(s - {x}, f, g);
  }

  lemma {:induction false} SumPositive<K(!new)>(s: set<K>, f: K -> int)
    requires forall x :: x in s ==> f(x) > 0
    ensures SumOver(s, f) >= |s|
    decreases |s|
  {
    if s != {} {
      var x :| x in s;
      SumTakeOut(s, f, x);
      SumPositive(s - {x}, f);
    }
  }

  lemma {:induction false} SubsetSize<K>(s: set<K>, t: set<K>)
    requires s <= t
    ensures |s| <= |t|
    ensures |s| == |t| ==> s == t
    decreases |s|
  {
    if s != {} {
      var x :| x in s;
      SubsetSize(s - {x}, t - {x});
      assert s == s - {x} + {x} && t == t - {x} + {x};
    }
  }
}
