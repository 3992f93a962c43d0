/** Totals over a sequence, and how they follow an update. */
module Sums {

  function Sum<X>(xs: seq<X>, f: X -> nat): nat {
    if xs == [] then 0 else f(xs[0]) + Sum(xs[1..], f)
  }

  lemma {:induction false} SumUpdate<X>(xs: seq<X>, k: nat, x: X, f: X -> nat)
    requires k < |xs|
    ensures Sum(xs[k := x], f) + f(xs[k]) == Sum(xs, f) + f(x)
  {
    var ys := xs[k := x];
    if k == 0 {
      assert ys[1..] == xs[1..];
    } else {
      assert ys[1..] == xs[1..][k - 1 := x];
      SumUpdate(xs[1..], k - 1, x, f);
    }
  }

  lemma {:induction false} SumConcat<X>(xs: seq<X>, ys: seq<X>, f: X -> nat)
    ensures Sum(xs + ys, f) == Sum(xs, f) + Sum(ys, f)
  {
    if xs == [] {
      assert [] + ys == ys;
    } else {
      assert (xs + ys)[1..] == xs[1..] + ys;
      SumConcat(xs[1..], ys, f);
    }
  }

  lemma SumAppend<X>(xs: seq<X>, x: X, f: X -> nat)
    ensures Sum(xs + [x], f) == Sum(xs, f) + f(x)
  {
    SumConcat(xs, [x], f);
    assert [x][1..] == [];
  }

  lemma {:induction false} SumCovers<X>(xs: seq<X>, k: nat, f: X -> nat)
    requires k < |xs|
    ensures f(xs[k]) <= Sum(xs, f)
  {
    if k == 0 {
    } else {
      SumCovers(xs[1..], k - 1, f);
    }
  }

  lemma {:induction false} SumCoversTwo<X>(xs: seq<X>, j: nat, k: nat, f: X -> nat)
    requires j < k < |xs|
    ensures f(xs[j]) + f(xs[k]) <= Sum(xs, f)
  {
    if j == 0 {
      SumCovers(xs[1..], k - 1, f);
    } else {
      SumCoversTwo(xs[1..], j - 1, k - 1, f);
    }
  }

  lemma {:induction false} SumPositive<X>(xs: seq<X>, f: X -> nat) returns (k: nat)
    requires Sum(xs, f) > 0
    ensures k < |xs| && f(xs[k]) > 0
  {
    if f(xs[0]) > 0 {
      k := 0;
    } else {
      k := SumPositive(xs[1..], f);
      k := k + 1;
    }
  }

  lemma {:induction false} SumZero<X>(xs: seq<X>, f: X -> nat)
    requires forall k :: 0 <= k < |xs| ==> f(xs[k]) == 0
    ensures Sum(xs, f) == 0
  {
    if xs == [] {
    } else {
      SumZero(xs[1..], f);
    }
  }

  lemma {:induction false} SumAgree<X>(xs: seq<X>, ys: seq<X>, f: X -> nat)
    requires |xs| == |ys| && forall k :: 0 <= k < |xs| ==> f(xs[k]) == f(ys[k])
    ensures Sum(xs, f) == Sum(ys, f)
  {
    if xs == [] {
    } else {
      SumAgree(xs[1..], ys[1..], f);
    }
  }

  lemma {:induction false} SumsEqual<X>(xs: seq<X>, f: X -> nat, g: X -> nat)
    requires forall k :: 0 <= k < |xs| ==> f(xs[k]) == g(xs[k])
    ensures Sum(xs, f) == Sum(xs, g)
  {
    if xs == [] {
    } else {
      SumsEqual(xs[1..], f, g);
    }
  }
}
