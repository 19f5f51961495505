/** Sums over a sequence, and how they change with one element. */
module Sums {

  function Total<T>(f: (nat, T) -> nat, n: nat, s: seq<T>): nat
  {
    if s == [] then 0 else Total(f, n, s[..|s| - 1]) + f(n, s[|s| - 1])
  }

  lemma {:induction false} TotalAt<T>(f: (nat, T) -> nat, n: nat, s: seq<T>, i: nat, x: T)
    requires i < |s|
    ensures Total(f, n, s[i := x]) + f(n, s[i]) == Total(f, n, s) + f(n, x)
  {
    var last := |s| - 1;
    if i == last {
      assert s[i := x][..last] == s[..last];
    } else {
      TotalAt(f, n, s[..last], i, x);
      assert s[i := x][..last] == s[..last][i := x];
    }
  }

  lemma {:induction false} TotalCat<T>(f: (nat, T) -> nat, n: nat, s: seq<T>, t: seq<T>)
    ensures Total(f, n, s + t) == Total(f, n, s) + Total(f, n, t)
  {
    if t == [] {
      assert s + t == s;
    } else {
      var last := |t| - 1;
      TotalCat(f, n, s, t[..last]);
      assert (s + t)[..|s + t| - 1] == s + t[..last];
    }
  }

  lemma TotalOne<T>(f: (nat, T) -> nat, n: nat, x: T)
    ensures Total(f, n, [x]) == f(n, x)
  {
    assert [x][..0] == [];
  }

  lemma {:induction false} TotalPart<T>(f: (nat, T) -> nat, n: nat, s: seq<T>, i: nat)
    requires i < |s|
    ensures f(n, s[i]) <= Total(f, n, s)
  {
    var last := |s| - 1;
    if i != last {
      TotalPart(f, n, s[..last], i);
      assert s[..last][i] == s[i];
    }
  }

  lemma {:induction false} TotalZero<T>(f: (nat, T) -> nat, n: nat, s: seq<T>)
    ensures Total(f, n, s) == 0 <==> forall i :: 0 <= i < |s| ==> f(n, s[i]) == 0
  {
    if s != [] {
      var last := |s| - 1;
      TotalZero(f, n, s[..last]);
      assert forall i :: 0 <= i < last ==> s[..last][i] == s[i];
    }
  }

  /** Two different elements are both parts of the sum. */
  lemma {:induction false} TotalTwo<T>(f: (nat, T) -> nat, n: nat, s: seq<T>, i: nat, j: nat)
    requires i < j < |s|
    ensures f(n, s[i]) + f(n, s[j]) <= Total(f, n, s)
  {
    var last := |s| - 1;
    if j == last {
      TotalPart(f, n, s[..last], i);
      assert s[..last][i] == s[i];
    } else {
      TotalTwo(f, n, s[..last], i, j);
      assert s[..last][i] == s[i] && s[..last][j] == s[j];
    }
  }

  // ---- Occurrences ----

  function Same(id: nat, x: nat): nat { if x == id then 1 else 0 }

  /** How often id occurs in xs. */
  function Count(xs: seq<nat>, id: nat): nat { Total(Same, id, xs) }

  lemma CountCat(xs: seq<nat>, ys: seq<nat>, id: nat)
    ensures Count(xs + ys, id) == Count(xs, id) + Count(ys, id)
  {
    TotalCat(Same, id, xs, ys);
  }

  lemma CountOne(x: nat, id: nat)
    ensures Count([x], id) == Same(id, x)
  {
    TotalOne(Same, id, x);
  }

  lemma CountFirst(xs: seq<nat>, id: nat)
    requires xs != []
    ensures Count(xs, id) == Same(id, xs[0]) + Count(xs[1..], id)
  {
    assert xs == [xs[0]] + xs[1..];
    CountCat([xs[0]], xs[1..], id);
    CountOne(xs[0], id);
  }

  lemma CountIff(xs: seq<nat>, id: nat)
    ensures Count(xs, id) > 0 <==> id in xs
  {
    TotalZero(Same, id, xs);
    if id in xs {
      var p :| 0 <= p < |xs| && xs[p] == id;
      assert Same(id, xs[p]) == 1;
    } else {
      assert forall p :: 0 <= p < |xs| ==> Same(id, xs[p]) == 0;
    }
  }

  function Elements(xs: seq<nat>): (r: set<nat>)
    ensures forall x :: x in r <==> x in xs
  {
    if xs == [] then {} else Elements(xs[..|xs| - 1]) + {xs[|xs| - 1]}
  }

  function Below(n: nat): (r: set<nat>)
    ensures forall k: nat :: k in r <==> k < n
  {
    if n == 0 then {} else Below(n - 1) + {n - 1}
  }

  /** Distinct numbers below n are at most n many. */
  lemma DistinctBound(xs: seq<nat>, n: nat)
    requires forall id: nat {:trigger Count(xs, id)} :: Count(xs, id) <= if id < n then 1 else 0
    ensures |xs| <= n
  {
    DistinctSize(xs);
    BelowSize(n);
    forall x | x in Elements(xs) ensures x in Below(n) {
      CountIff(xs, x);
    }
    assert Below(n) == Elements(xs) + (Below(n) - Elements(xs));
  }

  lemma {:induction false} DistinctSize(xs: seq<nat>)
    requires forall id: nat {:trigger Count(xs, id)} :: Count(xs, id) <= 1
    ensures |Elements(xs)| == |xs|
  {
    if xs != [] {
      var last := |xs| - 1;
      var rest, x := xs[..last], xs[last];
      assert xs == rest + [x];
      forall id: nat ensures Count(xs, id) == Count(rest, id) + Same(id, x) {
        CountCat(rest, [x], id);
        CountOne(x, id);
      }
      DistinctSize(rest);
      CountIff(rest, x);
      assert Count(xs, x) <= 1;
    }
  }

  lemma {:induction false} BelowSize(n: nat)
    ensures |Below(n)| == n
  {
    if n > 0 {
      BelowSize(n - 1);
    }
  }
}
