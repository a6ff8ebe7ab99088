/** Facts about sequences, stated apart so that longer proofs need not redo them. */
module Seqs {
  lemma Regroup3<X>(a: seq<X>, b: seq<X>, c: seq<X>)
    ensures a + (b + c) == (a + b) + c
    ensures [] + a == a && a + [] == a
  {
  }

  lemma Regroup4<X>(a: seq<X>, b: seq<X>, c: seq<X>, d: seq<X>)
    ensures a + (b + c + d) == ((a + b) + c) + d
    ensures b == [] ==> a + b == a
  {
  }

  lemma ConsConcat<X>(s: seq<X>, t: seq<X>)
    requires s != []
    ensures (s + t)[0] == s[0] && (s + t)[1..] == s[1..] + t
    ensures s + t != []
  {
  }

  lemma SplitAt<X>(s: seq<X>, i: nat)
    requires i < |s|
    ensures s == (s[..i] + [s[i]]) + s[i + 1..]
  {
  }

  lemma Without<T>(s: seq<T>, i: nat)
    requires i < |s|
    ensures forall x :: x in s ==> x == s[i] || x in s[..i] + s[i + 1..]
    ensures forall x :: x in s[..i] + s[i + 1..] ==> x in s
  {
    assert s == s[..i] + [s[i]] + s[i + 1..];
  }

  lemma SomeIn<T(!new)>(s: seq<T>)
    ensures s == [] || exists x :: x in s
  {
    assert |s| > 0 ==> s[0] in s;
  }

  ghost predicate NoRepeats<T>(s: seq<T>) {
    forall i, j :: 0 <= i < j < |s| ==> s[i] != s[j]
  }

  lemma {:induction false} FewDistinct(s: seq<string>, ids: set<string>)
    requires NoRepeats(s) && forall id :: id in s ==> id in ids
    ensures |s| <= |ids|
  {
    if s != [] {
      var n := |s| - 1;
      assert s[n] in ids && s[n] !in s[..n];
      FewDistinct(s[..n], ids - {s[n]});
    }
  }

  /** `xs` walks the set `s`, meeting each element once. */
  ghost predicate Walks(xs: seq<string>, s: set<string>) {
    NoRepeats(xs) && forall x :: x in xs <==> x in s
  }

  lemma {:induction false} WalkLength(xs: seq<string>, s: set<string>)
    requires Walks(xs, s)
    ensures |xs| == |s|
  {
    if xs == [] {
      assert s == {};
    } else {
      var n := |xs| - 1;
      assert xs[n] in s && xs[n] !in xs[..n] && xs == xs[..n] + [xs[n]];
      WalkLength(xs[..n], s - {xs[n]});
    }
  }
}
