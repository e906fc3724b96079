/** Sums of a measure over the elements of a sequence. */
module Sums {
  function Sum<T>(f: T -> nat, s: seq<T>): nat {
    if s == [] then 0 else Sum(f, s[..|s|-1]) + f(s[|s|-1])
  }

  lemma {:induction false} SumConcat<T>(f: T -> nat, a: seq<T>, b: seq<T>)
    ensures Sum(f, a + b) == Sum(f, a) + Sum(f, b)
  {
    if b == [] {
      assert a + b == a;
    } else {
      assert (a + b)[..|a + b|-1] == a + b[..|b|-1];
      SumConcat(f, a, b[..|b|-1]);
    }
  }

  lemma SumOne<T>(f: T -> nat, x: T)
    ensures Sum(f, [x]) == f(x)
  {
    assert [x][..0] == [];
  }

  lemma SumFirst<T>(f: T -> nat, s: seq<T>)
    requires s != []
    ensures Sum(f, s) == f(s[0]) + Sum(f, s[1..])
  {
    assert s == [s[0]] + s[1..];
    SumConcat(f, [s[0]], s[1..]);
    SumOne(f, s[0]);
  }

  lemma {:induction false} SumPermutes<T>(f: T -> nat, a: seq<T>, b: seq<T>)
    requires multiset(a) == multiset(b)
    ensures Sum(f, a) == Sum(f, b)
  {
    assert |multiset(a)| == |a| && |multiset(b)| == |b|;
    if a != [] {
      var i := TakeOut(a, b);
      SumPermutes(f, a[..|a|-1], b[..i] + b[i+1..]);
      assert b == (b[..i] + [b[i]]) + b[i+1..];
      SumConcat(f, b[..i] + [b[i]], b[i+1..]);
      SumConcat(f, b[..i], [b[i]]);
      SumConcat(f, b[..i], b[i+1..]);
      SumOne(f, b[i]);
    }
  }

  lemma LastOut<T>(s: seq<T>)
    requires s != []
    ensures multiset(s) == multiset(s[..|s|-1]) + multiset{s[|s|-1]}
  {
    assert s == s[..|s|-1] + [s[|s|-1]];
  }

  lemma OneOut<T>(s: seq<T>, i: nat)
    requires i < |s|
    ensures multiset(s) == multiset(s[..i] + s[i+1..]) + multiset{s[i]}
  {
    assert s == s[..i+1] + s[i+1..];
    LastOut(s[..i+1]);
    assert s[..i+1][..i] == s[..i];
  }

  lemma Cancelled<T>(a: multiset<T>, b: multiset<T>, x: T)
    requires a + multiset{x} == b + multiset{x}
    ensures a == b
  {
    assert a == (a + multiset{x}) - multiset{x};
  }

  lemma TakeOut<T>(a: seq<T>, b: seq<T>) returns (i: nat)
    requires a != [] && multiset(a) == multiset(b)
    ensures i < |b| && b[i] == a[|a|-1] && multiset(a[..|a|-1]) == multiset(b[..i] + b[i+1..])
  {
    var x := a[|a|-1];
    assert x in multiset(a);
    assert x in b;
    i :| 0 <= i < |b| && b[i] == x;
    LastOut(a);
    OneOut(b, i);
    Cancelled(multiset(a[..|a|-1]), multiset(b[..i] + b[i+1..]), x);
  }

  lemma {:induction false} SumHolds<T>(f: T -> nat, s: seq<T>, i: nat)
    requires i < |s|
    ensures f(s[i]) <= Sum(f, s)
  {
    if i + 1 < |s| {
      SumHolds(f, s[..|s|-1], i);
    }
  }

  lemma SumHoldsBoth<T>(f: T -> nat, s: seq<T>, i: nat, k: nat)
    requires i < k < |s|
    ensures f(s[i]) + f(s[k]) <= Sum(f, s)
  {
    assert s == s[..k] + s[k..];
    SumConcat(f, s[..k], s[k..]);
    SumHolds(f, s[..k], i);
    SumHolds(f, s[k..], 0);
  }

  lemma {:induction false} SumSame<T>(f: T -> nat, a: seq<T>, b: seq<T>)
    requires |a| == |b| && forall i :: 0 <= i < |a| ==> f(a[i]) == f(b[i])
    ensures Sum(f, a) == Sum(f, b)
  {
    if a != [] {
      SumSame(f, a[..|a|-1], b[..|b|-1]);
    }
  }
}
