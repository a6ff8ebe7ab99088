/** Python's order on `str`, which decides every tie-break in the swarm: code point by code
    point, a proper prefix first. */
module Order {

  predicate Less(a: string, b: string) {
    if b == "" then false
    else if a == "" then true
    else a[0] < b[0] || (a[0] == b[0] && Less(a[1..], b[1..]))
  }

  lemma {:induction false} Irreflexive(a: string)
    ensures !Less(a, a)
  {
    if a != "" {
      Irreflexive(a[1..]);
    }
  }

  lemma {:induction false} Transitive(a: string, b: string, c: string)
    requires Less(a, b) && Less(b, c)
    ensures Less(a, c)
  {
    if a != "" && a[0] == b[0] && b[0] == c[0] {
      Transitive(a[1..], b[1..], c[1..]);
    }
  }

  lemma {:induction false} Total(a: string, b: string)
    ensures a == b || Less(a, b) || Less(b, a)
  {
    if a != "" && b != "" && a[0] == b[0] {
      Total(a[1..], b[1..]);
      if a[1..] == b[1..] {
        assert a == [a[0]] + a[1..] && b == [b[0]] + b[1..];
      }
    }
  }

  /** The three laws at once, in the form proofs about sorted data use. */
  lemma StringOrder()
    ensures forall a :: !Less(a, a)
    ensures forall a, b, c :: Less(a, b) && Less(b, c) ==> Less(a, c)
    ensures forall a, b :: a == b || Less(a, b) || Less(b, a)
  {
    forall a ensures !Less(a, a) { Irreflexive(a); }
    forall a, b, c | Less(a, b) && Less(b, c) ensures Less(a, c) { Transitive(a, b, c); }
    forall a, b ensures a == b || Less(a, b) || Less(b, a) { Total(a, b); }
  }

  /** Which of two strings comes first: the one with the smaller character where they first differ,
      or the one that ends where the other goes on. */
  lemma {:induction false} FirstDifference(p: string, x: char, s: string, y: char, t: string)
    ensures Less(p + [x] + s, p + [y] + t) <==> x < y || (x == y && Less(s, t))
    ensures Less(p, p + [x] + s) && !Less(p + [x] + s, p)
  {
    if p == "" {
      assert (p + [x] + s)[1..] == s && (p + [y] + t)[1..] == t;
    } else {
      FirstDifference(p[1..], x, s, y, t);
      assert (p + [x] + s)[1..] == p[1..] + [x] + s && (p + [y] + t)[1..] == p[1..] + [y] + t;
    }
  }

  ghost predicate Ascending(s: seq<string>) {
    forall i, j :: 0 <= i < j < |s| ==> Less(s[i], s[j])
  }

  /** A set of strings has one ascending listing. */
  lemma {:induction false} AscendingUnique(a: seq<string>, b: seq<string>)
    requires Ascending(a) && Ascending(b)
    requires forall x :: x in a <==> x in b
    ensures a == b
  {
    StringOrder();
    assert b != [] ==> b[0] in b;
    if a != [] {
      assert a[0] in b && b[0] in a;
      forall x ensures x in a[1..] <==> x in b[1..] {
        assert x in a <==> x == a[0] || x in a[1..];
        assert x in b <==> x == b[0] || x in b[1..];
      }
      AscendingUnique(a[1..], b[1..]);
      assert a == [a[0]] + a[1..] && b == [b[0]] + b[1..];
    }
  }

  function Slotted(s: seq<string>, x: string): (r: seq<string>)
    ensures forall y :: y in r <==> y in s || y == x
  {
    if s == [] || Less(x, s[0]) then [x] + s else [s[0]] + Slotted(s[1..], x)
  }

  lemma {:induction false} SlottedAscending(s: seq<string>, x: string)
    requires Ascending(s) && x !in s
    ensures Ascending(Slotted(s, x))
  {
    StringOrder();
    if s != [] && !Less(x, s[0]) {
      SlottedAscending(s[1..], x);
      assert s[0] in s;
      assert forall y :: y in Slotted(s[1..], x) ==> Less(s[0], y);
    }
  }

  /** Python's `sorted` on distinct strings. */
  method Sorted(s: set<string>) returns (r: seq<string>)
    ensures Ascending(r) && forall x :: x in r <==> x in s
  {
    r := [];
    var todo := s;
    while todo != {}
      invariant todo <= s && Ascending(r)
      invariant forall x :: x in r <==> x in s - todo
    {
      var x :| x in todo;
      SlottedAscending(r, x);
      r := Slotted(r, x);
      todo := todo - {x};
    }
  }
}
