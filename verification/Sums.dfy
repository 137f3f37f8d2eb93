/** Sums over a sequence, and how they change when one element is removed, replaced or added. */
module Sums {

  function Sum<A>(f: A -> nat, xs: seq<A>): nat {
    if xs == [] then 0 else f(xs[0]) + Sum(f, xs[1..])
  }

  lemma SumOne<A>(f: A -> nat, x: A)
    ensures Sum(f, [x]) == f(x)
  {
    assert [x][1..] == [];
  }

  lemma {:induction false} SumConcat<A>(f: A -> nat, xs: seq<A>, ys: seq<A>)
    ensures Sum(f, xs + ys) == Sum(f, xs) + Sum(f, ys)
  {
    if xs == [] {
      assert xs + ys == ys;
    } else {
      assert (xs + ys)[1..] == xs[1..] + ys;
      SumConcat(f, xs[1..], ys);
    }
  }

  lemma {:induction false} SumSplit<A>(f: A -> nat, xs: seq<A>, i: nat)
    requires i < |xs|
    ensures Sum(f, xs) == Sum(f, xs[..i] + xs[i + 1..]) + f(xs[i])
  {
    var rest := xs[..i] + xs[i + 1..];
    if i == 0 {
      assert rest == xs[1..];
    } else {
      SumSplit(f, xs[1..], i - 1);
      assert rest[0] == xs[0] && rest[1..] == xs[1..][..i - 1] + xs[1..][i..];
    }
  }

  lemma SumUpdate<A>(f: A -> nat, xs: seq<A>, i: nat, y: A)
    requires i < |xs|
    ensures Sum(f, xs[i := y]) + f(xs[i]) == Sum(f, xs) + f(y)
  {
    var ys := xs[i := y];
    assert ys[..i] + ys[i + 1..] == xs[..i] + xs[i + 1..];
    SumSplit(f, xs, i);
    SumSplit(f, ys, i);
  }

  lemma {:induction false} SumConstant<A>(f: A -> nat, xs: seq<A>, c: nat)
    requires forall x :: x in xs ==> f(x) == c
    ensures Sum(f, xs) == |xs| * c
  {
    if xs != [] {
      assert forall x :: x in xs[1..] ==> x in xs;
      SumConstant(f, xs[1..], c);
      assert (|xs| - 1) * c + c == |xs| * c;
    }
  }

  lemma SumAtLeast<A>(f: A -> nat, xs: seq<A>, x: A)
    requires x in xs
    ensures Sum(f, xs) >= f(x)
  {
    var i :| 0 <= i < |xs| && xs[i] == x;
    SumSplit(f, xs, i);
  }

  lemma SumTwoElements<A>(f: A -> nat, xs: seq<A>, i: nat, j: nat)
    requires i < j < |xs|
    ensures Sum(f, xs) >= f(xs[i]) + f(xs[j])
  {
    SumSplit(f, xs, i);
    var rest := xs[..i] + xs[i + 1..];
    assert rest[j - 1] == xs[j];
    SumAtLeast(f, rest, xs[j]);
  }
}
