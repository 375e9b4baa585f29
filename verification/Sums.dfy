// Multiset bookkeeping shared by the interleaving models.
module Sums {

  // What all members of a sequence contribute together.
  ghost function Sum<T(!new)>(f: T -> multiset<nat>, xs: seq<T>): multiset<nat> {
    if xs == [] then multiset{} else f(xs[0]) + Sum(f, xs[1..])
  }

  lemma {:induction false} SumUpdate<T(!new)>(f: T -> multiset<nat>, xs: seq<T>, i: nat, x: T)
    requires i < |xs|
    ensures Sum(f, xs[i := x]) + f(xs[i]) == Sum(f, xs) + f(x)
  {
    var ys := xs[i := x];
    if i == 0 {
      assert ys[1..] == xs[1..];
    } else {
      assert ys[1..] == xs[1..][i - 1 := x];
      SumUpdate(f, xs[1..], i - 1, x);
      var rest := Sum(f, xs[1..][i - 1 := x]);
      assert rest + f(xs[i]) == Sum(f, xs[1..]) + f(x);
      assert f(xs[0]) + rest + f(xs[i]) == f(xs[0]) + (rest + f(xs[i]));
      assert Sum(f, xs) + f(x) == f(xs[0]) + (Sum(f, xs[1..]) + f(x));
    }
  }

  // One member changes: the sum keeps, gains or loses with it.
  lemma SumChange<T(!new)>(f: T -> multiset<nat>, xs: seq<T>, i: nat, x: T)
    requires i < |xs|
    ensures f(x) == f(xs[i]) ==> Sum(f, xs[i := x]) == Sum(f, xs)
    ensures f(xs[i]) == multiset{} ==> Sum(f, xs[i := x]) == Sum(f, xs) + f(x)
    ensures f(x) == multiset{} ==> Sum(f, xs) == Sum(f, xs[i := x]) + f(xs[i])
  {
    SumUpdate(f, xs, i, x);
    forall n: nat ensures Sum(f, xs[i := x])[n] + f(xs[i])[n] == Sum(f, xs)[n] + f(x)[n] {
      assert (Sum(f, xs[i := x]) + f(xs[i]))[n] == (Sum(f, xs) + f(x))[n];
    }
  }

  lemma {:induction false} SumAt<T(!new)>(f: T -> multiset<nat>, xs: seq<T>, i: nat, n: nat)
    requires i < |xs|
    ensures f(xs[i])[n] <= Sum(f, xs)[n]
  {
    if i > 0 { SumAt(f, xs[1..], i - 1, n); }
  }

  // Two members contribute separately.
  lemma SumTwo<T(!new)>(f: T -> multiset<nat>, xs: seq<T>, i: nat, j: nat, empty: T, n: nat)
    requires i < |xs| && j < |xs| && i != j && f(empty) == multiset{}
    ensures f(xs[i])[n] + f(xs[j])[n] <= Sum(f, xs)[n]
  {
    var ys := xs[i := empty];
    SumUpdate(f, xs, i, empty);
    SumAt(f, ys, j, n);
    assert (Sum(f, ys) + f(xs[i]))[n] == (Sum(f, xs) + f(empty))[n];
  }

  lemma {:induction false} SumWitness<T(!new)>(f: T -> multiset<nat>, xs: seq<T>, n: nat) returns (i: nat)
    requires n in Sum(f, xs)
    ensures i < |xs| && n in f(xs[i])
  {
    if n in f(xs[0]) {
      i := 0;
    } else {
      i := SumWitness(f, xs[1..], n);
      i := i + 1;
    }
  }

  lemma {:induction false} SumMono<T(!new)>(f: T -> multiset<nat>, g: T -> multiset<nat>, xs: seq<T>, n: nat)
    requires forall x :: x in xs ==> f(x)[n] <= g(x)[n]
    ensures Sum(f, xs)[n] <= Sum(g, xs)[n]
  {
    if xs != [] {
      assert xs[0] in xs;
      SumMono(f, g, xs[1..], n);
    }
  }

  lemma {:induction false} SumEmpty<T(!new)>(f: T -> multiset<nat>, xs: seq<T>)
    requires forall x :: x in xs ==> f(x) == multiset{}
    ensures Sum(f, xs) == multiset{}
  {
    if xs != [] { SumEmpty(f, xs[1..]); }
  }

  // The identities 1, ..., n - 1, once each.
  ghost function Ids(n: nat): multiset<nat> {
    if n <= 1 then multiset{} else Ids(n - 1) + multiset{n - 1}
  }

  lemma {:induction false} IdsCount(n: nat, x: nat)
    ensures Ids(n)[x] == if 1 <= x < n then 1 else 0
  {
    if n > 1 { IdsCount(n - 1, x); }
  }

  ghost predicate Distinct<T>(s: seq<T>) {
    forall i, j :: 0 <= i < j < |s| ==> s[i] != s[j]
  }

  lemma DistinctFromCount<T>(s: seq<T>)
    requires forall x :: multiset(s)[x] <= 1
    ensures Distinct(s)
  {
    forall i, j | 0 <= i < j < |s| ensures s[i] != s[j] {
      assert s == s[..j] + [s[j]] + s[j + 1..];
      assert multiset(s)[s[j]] == multiset(s[..j])[s[j]] + 1 + multiset(s[j + 1..])[s[j]];
      assert s[j] !in s[..j];
      assert s[i] == s[..j][i];
    }
  }

  lemma {:induction false} CountDistinct<T>(s: seq<T>, x: T)
    requires Distinct(s)
    ensures multiset(s)[x] <= 1
  {
    if s != [] {
      assert s == [s[0]] + s[1..];
      CountDistinct(s[1..], x);
      if s[0] == x { assert x !in s[1..]; }
    }
  }
}
