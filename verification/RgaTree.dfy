/** The value behind one RGA replica: its elements, the insertion tree they form, and the
    pre-order walk that reads the tree back as text. */
module RgaTree {
  import opened Order
  import opened Seqs

  /** A Lamport counter and the name of the replica that minted the id. */
  datatype Id = Id(counter: int, node: string)

  const ROOT := Id(0, "")

  datatype Elem<T> = Elem(value: T, after: Id, deleted: bool)

  type Doc<T> = map<Id, Elem<T>>

  /** Python's order on `(counter, node)` tuples. */
  predicate Below(a: Id, b: Id) {
    a.counter < b.counter || (a.counter == b.counter && Less(a.node, b.node))
  }

  lemma IdOrder()
    ensures forall a :: !Below(a, a)
    ensures forall a, b, c :: Below(a, b) && Below(b, c) ==> Below(a, c)
    ensures forall a, b :: a == b || Below(a, b) || Below(b, a)
  {
    StringOrder();
  }

  /** The higher counter is the greater id; of equal counters, the one of the greater node. */
  lemma CounterThenNode(a: Id, b: Id)
    requires a.counter > b.counter || (a.counter == b.counter && Less(b.node, a.node))
    ensures Below(b, a) && !Below(a, b)
  {
    StringOrder();
  }

  /** `id` is not the root and follows the root or a present element with a smaller id. */
  ghost predicate Placed<T>(d: Doc<T>, id: Id)
    requires id in d
  {
    && id.counter > 0
    && (d[id].after == ROOT || d[id].after in d)
    && Below(d[id].after, id)
  }

  /** What every reachable replica satisfies. */
  ghost predicate Grounded<T>(d: Doc<T>) {
    forall id {:trigger Placed(d, id)} :: id in d ==> Placed(d, id)
  }

  // ---- Sibling lists -------------------------------------------------------------------

  ghost predicate Descending(s: seq<Id>) {
    forall i, j :: 0 <= i < j < |s| ==> Below(s[j], s[i])
  }

  ghost function ChildSet<T>(d: Doc<T>, p: Id): set<Id> {
    set x | x in d && d[x].after == p
  }

  ghost predicate IsGreatest(m: Id, s: set<Id>) {
    m in s && forall x :: x in s ==> x == m || Below(x, m)
  }

  lemma {:induction false} GreatestExists(s: set<Id>)
    requires s != {}
    ensures exists m :: IsGreatest(m, s)
    decreases |s|
  {
    var m :| m in s;
    IdOrder();
    if s == {m} {
      assert IsGreatest(m, s);
    } else {
      GreatestExists(s - {m});
      var n :| IsGreatest(n, s - {m});
      assert IsGreatest(if Below(m, n) then n else m, s);
    }
  }

  /** `r` lists the members of `s`, greatest first. */
  ghost predicate Listing(r: seq<Id>, s: set<Id>) {
    Descending(r) && forall x :: x in r <==> x in s
  }

  lemma {:induction false} ListingExists(s: set<Id>)
    ensures exists r :: Listing(r, s)
    decreases |s|
  {
    if s == {} {
      assert Listing([], s);
    } else {
      GreatestExists(s);
      var m :| IsGreatest(m, s);
      ListingExists(s - {m});
      var r :| Listing(r, s - {m});
      assert forall x :: x in r ==> Below(x, m);
      assert Listing([m] + r, s);
    }
  }

  /** A set has one descending listing. */
  lemma {:induction false} DescendingUnique(a: seq<Id>, b: seq<Id>)
    requires Descending(a) && Descending(b)
    requires forall x :: x in a <==> x in b
    ensures a == b
  {
    IdOrder();
    assert b != [] ==> b[0] in b;
    if a != [] {
      assert a[0] in b && b[0] in a;
      forall x ensures x in a[1..] <==> x in b[1..] {
        assert x in a <==> x == a[0] || x in a[1..];
        assert x in b <==> x == b[0] || x in b[1..];
      }
      DescendingUnique(a[1..], b[1..]);
      assert a == [a[0]] + a[1..] && b == [b[0]] + b[1..];
    }
  }

  // ---- The walk ------------------------------------------------------------------------

  /** The children of `p` in the order `walk` visits them: higher id first. */
  ghost function Kids<T>(d: Doc<T>, p: Id): (r: seq<Id>)
    ensures Descending(r) && forall x :: x in r <==> x in d && d[x].after == p
  {
    ListingExists(ChildSet(d, p));
    var r :| Listing(r, ChildSet(d, p));
    r
  }

  ghost function IdsAbove<T>(d: Doc<T>, p: Id): set<Id> {
    set x | x in d && Below(p, x)
  }

  ghost predicate ChildrenOf<T>(d: Doc<T>, p: Id, ks: seq<Id>) {
    forall k :: k in ks ==> k in d && d[k].after == p && Below(p, k)
  }

  lemma KidsAreChildren<T>(d: Doc<T>, p: Id)
    requires Grounded(d)
    ensures ChildrenOf(d, p, Kids(d, p))
  {
    forall k | k in Kids(d, p) ensures Below(p, k) { assert Placed(d, k); }
  }

  lemma FewerAbove<T>(d: Doc<T>, p: Id, k: Id)
    requires k in d && Below(p, k)
    ensures IdsAbove(d, k) < IdsAbove(d, p)
  {
    IdOrder();
    assert k in IdsAbove(d, p) && k !in IdsAbove(d, k);
  }

  /** Pre-order listing of the subtrees rooted at `ks`, some children of `p`. */
  ghost function Flatten<T>(d: Doc<T>, p: Id, ks: seq<Id>): seq<Id>
    requires Grounded(d) && ChildrenOf(d, p, ks)
    decreases IdsAbove(d, p), |ks|
  {
    if ks == [] then []
    else
      FewerAbove(d, p, ks[0]);
      KidsAreChildren(d, ks[0]);
      [ks[0]] + Flatten(d, ks[0], Kids(d, ks[0])) + Flatten(d, p, ks[1..])
  }

  /** What lies under `p`, in walk order; tombstones included. */
  ghost function Subtree<T>(d: Doc<T>, p: Id): seq<Id>
    requires Grounded(d)
  {
    KidsAreChildren(d, p);
    Flatten(d, p, Kids(d, p))
  }

  ghost function Walk<T>(d: Doc<T>): seq<Id>
    requires Grounded(d)
  {
    Subtree(d, ROOT)
  }

  function Restrict(s: seq<Id>, keep: set<Id>): (r: seq<Id>) {
    if s == [] then [] else (if s[0] in keep then [s[0]] else []) + Restrict(s[1..], keep)
  }

  lemma {:induction false} RestrictConcat(s: seq<Id>, t: seq<Id>, keep: set<Id>)
    ensures Restrict(s + t, keep) == Restrict(s, keep) + Restrict(t, keep)
  {
    if s == [] {
      Regroup3(t, [], []);
      Regroup3(Restrict(t, keep), [], []);
    } else {
      ConsConcat(s, t);
      RestrictConcat(s[1..], t, keep);
      Regroup3(if s[0] in keep then [s[0]] else [], Restrict(s[1..], keep), Restrict(t, keep));
    }
  }

  lemma {:induction false} RestrictMembers(s: seq<Id>, keep: set<Id>)
    ensures forall x :: x in Restrict(s, keep) <==> x in s && x in keep
    ensures Descending(s) ==> Descending(Restrict(s, keep))
  {
    if s != [] {
      RestrictMembers(s[1..], keep);
      var tail := Restrict(s[1..], keep);
      assert forall x :: x in s <==> x == s[0] || x in s[1..];
      assert forall x :: x in Restrict(s, keep) <==> (s[0] in keep && x == s[0]) || x in tail;
      if Descending(s) {
        assert Descending(s[1..]);
        forall x | x in tail ensures Below(x, s[0]) {}
      }
    }
  }

  // ---- Merging never reorders ----------------------------------------------------------

  /** `e` holds every element of `d`, in the same place of the tree. */
  ghost predicate Extends<T>(e: Doc<T>, d: Doc<T>) {
    forall x :: x in d ==> x in e && e[x].after == d[x].after
  }

  lemma RestrictKids<T>(d: Doc<T>, e: Doc<T>, p: Id)
    requires Extends(e, d)
    ensures Restrict(Kids(e, p), d.Keys) == Kids(d, p)
  {
    RestrictMembers(Kids(e, p), d.Keys);
    DescendingUnique(Restrict(Kids(e, p), d.Keys), Kids(d, p));
  }

  lemma FlattenCons<T>(d: Doc<T>, p: Id, k: Id, ks: seq<Id>)
    requires Grounded(d) && ChildrenOf(d, p, ks)
    requires k in d && d[k].after == p
    ensures ChildrenOf(d, p, [k] + ks)
    ensures Flatten(d, p, [k] + ks) == [k] + Subtree(d, k) + Flatten(d, p, ks)
  {
    assert Placed(d, k);
    assert ([k] + ks)[0] == k && ([k] + ks)[1..] == ks;
  }

  lemma RestrictedChildren<T>(d: Doc<T>, e: Doc<T>, p: Id, ks: seq<Id>)
    requires Extends(e, d) && ChildrenOf(e, p, ks)
    ensures ChildrenOf(d, p, Restrict(ks, d.Keys))
  {
    RestrictMembers(ks, d.Keys);
  }

  /** An element that `d` lacks has nothing of `d` under it. */
  lemma NothingUnderStranger<T>(d: Doc<T>, k: Id)
    requires Grounded(d) && k !in d && k != ROOT
    ensures Subtree(d, k) == []
  {
    forall x | x in d ensures d[x].after != k { assert Placed(d, x); }
    DescendingUnique(Kids(d, k), []);
  }

  lemma {:induction false} RestrictFlatten<T>(d: Doc<T>, e: Doc<T>, p: Id, ks: seq<Id>)
    requires Grounded(d) && Grounded(e) && Extends(e, d)
    requires ChildrenOf(e, p, ks) && ChildrenOf(d, p, Restrict(ks, d.Keys))
    ensures Restrict(Flatten(e, p, ks), d.Keys) == Flatten(d, p, Restrict(ks, d.Keys))
    decreases IdsAbove(e, p), |ks|
  {
    if ks != [] {
      var k, rest := ks[0], ks[1..];
      assert Placed(e, k);
      FewerAbove(e, p, k);
      RestrictSubtree(d, e, k);
      RestrictedChildren(d, e, p, rest);
      RestrictFlatten(d, e, p, rest);
      RestrictConcat([k] + Subtree(e, k), Flatten(e, p, rest), d.Keys);
      RestrictConcat([k], Subtree(e, k), d.Keys);
      if k in d {
        FlattenCons(d, p, k, Restrict(rest, d.Keys));
      } else {
        NothingUnderStranger(d, k);
        assert Restrict([k], d.Keys) == [];
        assert Restrict(ks, d.Keys) == Restrict(rest, d.Keys);
      }
    }
  }

  lemma RestrictSubtree<T>(d: Doc<T>, e: Doc<T>, p: Id)
    requires Grounded(d) && Grounded(e) && Extends(e, d)
    ensures Restrict(Subtree(e, p), d.Keys) == Subtree(d, p)
    decreases IdsAbove(e, p), |Kids(e, p)| + 1
  {
    KidsAreChildren(e, p);
    RestrictKids(d, e, p);
    RestrictFlatten(d, e, p, Kids(e, p));
  }

  /** Growing a document never reorders what it already had: its walk is exactly the larger
      walk with the new elements left out, tombstones included. */
  lemma WalkExtends<T>(d: Doc<T>, e: Doc<T>)
    requires Grounded(d) && Grounded(e) && Extends(e, d)
    ensures Restrict(Walk(e), d.Keys) == Walk(d)
  {
    RestrictSubtree(d, e, ROOT);
  }

  // ---- The walk visits every element exactly once --------------------------------------

  ghost predicate Distinct(s: seq<Id>) {
    forall i, j :: 0 <= i < j < |s| ==> s[i] != s[j]
  }

  ghost function IdsBelow<T>(d: Doc<T>, x: Id): set<Id> {
    set y | y in d && Below(y, x)
  }

  lemma FewerBelow<T>(d: Doc<T>, x: Id)
    requires Grounded(d) && x in d && d[x].after in d
    ensures IdsBelow(d, d[x].after) < IdsBelow(d, x)
  {
    IdOrder();
    assert Placed(d, x);
    assert d[x].after in IdsBelow(d, x) && d[x].after !in IdsBelow(d, d[x].after);
  }

  /** `x` is `k` or hangs, through any number of `after` links, below `k`. */
  ghost predicate Under<T>(d: Doc<T>, x: Id, k: Id)
    requires Grounded(d)
    decreases IdsBelow(d, x)
  {
    if x == k then true
    else if x !in d then false
    else if d[x].after !in d then d[x].after == k
    else
      FewerBelow(d, x);
      Under(d, d[x].after, k)
  }

  lemma {:induction false} UnderIsAbove<T>(d: Doc<T>, x: Id, k: Id)
    requires Grounded(d) && Under(d, x, k)
    ensures x == k || Below(k, x)
    decreases IdsBelow(d, x)
  {
    IdOrder();
    assert x in d ==> Placed(d, x);
    if x != k && d[x].after in d {
      FewerBelow(d, x);
      UnderIsAbove(d, d[x].after, k);
    }
  }

  /** Subtrees of two siblings share no element. */
  lemma {:induction false} SiblingsDisjoint<T>(d: Doc<T>, x: Id, k: Id, l: Id)
    requires Grounded(d) && k in d && l in d && d[k].after == d[l].after
    requires Under(d, x, k) && Under(d, x, l)
    ensures k == l
    decreases IdsBelow(d, x)
  {
    IdOrder();
    if x != k && x != l {
      if d[x].after in d {
        FewerBelow(d, x);
        SiblingsDisjoint(d, d[x].after, k, l);
      }
    } else if k != l {
      var top, deep := if x == k then l else k, x;
      assert Under(d, deep, top) && Placed(d, k) && Placed(d, l);
      if d[deep].after in d { UnderIsAbove(d, d[deep].after, top); }
    }
  }

  lemma {:induction false} UnderTransitive<T>(d: Doc<T>, x: Id, k: Id, p: Id)
    requires Grounded(d) && Under(d, x, k) && Under(d, k, p)
    ensures Under(d, x, p)
    decreases IdsBelow(d, x)
  {
    if x != k && d[x].after in d {
      FewerBelow(d, x);
      UnderTransitive(d, d[x].after, k, p);
    }
  }

  ghost predicate UnderOneOf<T>(d: Doc<T>, x: Id, ks: seq<Id>)
    requires Grounded(d)
  {
    exists k :: k in ks && Under(d, x, k)
  }

  lemma {:induction false} FlattenMembers<T>(d: Doc<T>, p: Id, ks: seq<Id>)
    requires Grounded(d) && ChildrenOf(d, p, ks)
    ensures forall x :: x in Flatten(d, p, ks) ==> x in d && UnderOneOf(d, x, ks)
    decreases IdsAbove(d, p), |ks|
  {
    if ks != [] {
      var k, rest := ks[0], ks[1..];
      FewerAbove(d, p, k);
      KidsAreChildren(d, k);
      FlattenMembers(d, k, Kids(d, k));
      FlattenMembers(d, p, rest);
      forall x | x in Flatten(d, p, ks) ensures x in d && UnderOneOf(d, x, ks) {
        if x == k {
          assert Under(d, x, k);
        } else if x in Subtree(d, k) {
          var c :| c in Kids(d, k) && Under(d, x, c);
          assert Under(d, c, k);
          UnderTransitive(d, x, c, k);
        } else {
          assert x in Flatten(d, p, rest);
          var c :| c in rest && Under(d, x, c);
          assert c in ks;
        }
      }
    }
  }

  lemma {:induction false} FlattenDistinct<T>(d: Doc<T>, p: Id, ks: seq<Id>)
    requires Grounded(d) && ChildrenOf(d, p, ks) && Distinct(ks)
    ensures Distinct(Flatten(d, p, ks))
    decreases IdsAbove(d, p), |ks|
  {
    if ks != [] {
      var k, rest := ks[0], ks[1..];
      FewerAbove(d, p, k);
      KidsAreChildren(d, k);
      IdOrder();
      assert Distinct(Kids(d, k));
      FlattenDistinct(d, k, Kids(d, k));
      FlattenDistinct(d, p, rest);
      SubtreeApart(d, p, k, rest);
      var sub, tail := Subtree(d, k), Flatten(d, p, rest);
      assert forall i :: 0 <= i < |sub| ==> sub[i] in sub;
      assert forall i :: 0 <= i < |tail| ==> tail[i] in tail;
    }
  }

  lemma SubtreeApart<T>(d: Doc<T>, p: Id, k: Id, rest: seq<Id>)
    requires Grounded(d) && ChildrenOf(d, p, [k]) && ChildrenOf(d, p, rest) && k !in rest
    ensures k !in Subtree(d, k) && k !in Flatten(d, p, rest)
    ensures forall x :: x in Subtree(d, k) ==> x !in Flatten(d, p, rest)
  {
    assert k in [k];
    KidsAreChildren(d, k);
    FlattenMembers(d, k, Kids(d, k));
    FlattenMembers(d, p, rest);
    IdOrder();
    forall x | x in Subtree(d, k) ensures x != k && Under(d, x, k) {
      var c :| c in Kids(d, k) && Under(d, x, c);
      UnderIsAbove(d, x, c);
      assert Under(d, c, k);
      UnderTransitive(d, x, c, k);
    }
    forall x | Under(d, x, k) ensures x !in Flatten(d, p, rest) {
      if x in Flatten(d, p, rest) {
        var c :| c in rest && Under(d, x, c);
        SiblingsDisjoint(d, x, k, c);
      }
    }
    assert Under(d, k, k);
  }

  /** Wherever an element is listed, its children are listed too. */
  lemma {:induction false} FlattenClosed<T>(d: Doc<T>, p: Id, ks: seq<Id>, x: Id)
    requires Grounded(d) && ChildrenOf(d, p, ks)
    requires x in d && d[x].after in Flatten(d, p, ks)
    ensures x in Flatten(d, p, ks)
    decreases IdsAbove(d, p), |ks|
  {
    var k, rest, a := ks[0], ks[1..], d[x].after;
    FewerAbove(d, p, k);
    KidsAreChildren(d, k);
    if a == k {
      KidsListed(d, k, Kids(d, k), x);
    } else if a in Subtree(d, k) {
      FlattenClosed(d, k, Kids(d, k), x);
    } else {
      FlattenClosed(d, p, rest, x);
    }
  }

  lemma {:induction false} KidsListed<T>(d: Doc<T>, p: Id, ks: seq<Id>, x: Id)
    requires Grounded(d) && ChildrenOf(d, p, ks) && x in ks
    ensures x in Flatten(d, p, ks)
  {
    if x != ks[0] {
      KidsListed(d, p, ks[1..], x);
    }
  }

  lemma {:induction false} WalkReaches<T>(d: Doc<T>, x: Id)
    requires Grounded(d) && x in d
    ensures x in Walk(d)
    decreases IdsBelow(d, x)
  {
    KidsAreChildren(d, ROOT);
    var a := d[x].after;
    assert Placed(d, x);
    if a == ROOT {
      KidsListed(d, ROOT, Kids(d, ROOT), x);
    } else {
      FewerBelow(d, x);
      WalkReaches(d, a);
      FlattenClosed(d, ROOT, Kids(d, ROOT), x);
    }
  }

  /** The walk is a permutation of the elements. */
  lemma WalkPermutes<T>(d: Doc<T>)
    requires Grounded(d)
    ensures forall x :: x in Walk(d) <==> x in d
    ensures Distinct(Walk(d))
  {
    IdOrder();
    KidsAreChildren(d, ROOT);
    FlattenMembers(d, ROOT, Kids(d, ROOT));
    assert Distinct(Kids(d, ROOT));
    FlattenDistinct(d, ROOT, Kids(d, ROOT));
    forall x | x in d ensures x in Walk(d) { WalkReaches(d, x); }
  }

  // ---- Who comes first -----------------------------------------------------------------

  ghost predicate ComesBefore(s: seq<Id>, x: Id, y: Id) {
    exists i, j :: 0 <= i < j < |s| && s[i] == x && s[j] == y
  }

  lemma BeforeInside(u: seq<Id>, s: seq<Id>, v: seq<Id>, x: Id, y: Id)
    requires ComesBefore(s, x, y)
    ensures ComesBefore(u + s + v, x, y)
  {
    var i, j :| 0 <= i < j < |s| && s[i] == x && s[j] == y;
    assert (u + s + v)[|u| + i] == x && (u + s + v)[|u| + j] == y;
  }

  /** Below `p`, each child is followed by its own subtree. */
  lemma {:induction false} FlattenSplit<T>(d: Doc<T>, p: Id, ks: seq<Id>, k: Id) returns (u: seq<Id>, v: seq<Id>)
    requires Grounded(d) && ChildrenOf(d, p, ks) && k in ks
    ensures Flatten(d, p, ks) == u + ([k] + Subtree(d, k)) + v
    decreases |ks|
  {
    if ks[0] == k {
      u, v := [], Flatten(d, p, ks[1..]);
    } else {
      u, v := FlattenSplit(d, p, ks[1..], k);
      u := [ks[0]] + Subtree(d, ks[0]) + u;
    }
  }

  ghost function UpTo<T>(d: Doc<T>, p: Id): set<Id> {
    if p == ROOT then {} else IdsBelow(d, p) + {p}
  }

  lemma BelowShrinks<T>(d: Doc<T>, p: Id)
    requires Grounded(d) && p in d
    ensures UpTo(d, d[p].after) < UpTo(d, p)
  {
    IdOrder();
    assert Placed(d, p);
    var q := d[p].after;
    if q != ROOT {
      FewerBelow(d, p);
      assert q in IdsBelow(d, p);
      assert p !in IdsBelow(d, q) + {q};
    }
  }

  /** The subtree of every element is one stretch of the walk, right behind the element. */
  lemma {:induction false} SubtreeInside<T>(d: Doc<T>, p: Id) returns (u: seq<Id>, v: seq<Id>)
    requires Grounded(d) && (p == ROOT || p in d)
    ensures Walk(d) == u + Subtree(d, p) + v
    ensures p != ROOT ==> u != [] && u[|u| - 1] == p
    decreases UpTo(d, p)
  {
    if p == ROOT {
      u, v := [], [];
    } else {
      assert Placed(d, p);
      var q := d[p].after;
      BelowShrinks(d, p);
      var a, b := SubtreeInside(d, q);
      KidsAreChildren(d, q);
      var x, y := FlattenSplit(d, q, Kids(d, q), p);
      u, v := a + x + [p], y + b;
      assert a + (x + ([p] + Subtree(d, p)) + y) + b == u + Subtree(d, p) + v;
    }
  }

  lemma {:induction false} GreaterChildFirst<T>(d: Doc<T>, p: Id, ks: seq<Id>, x: Id, y: Id)
    requires Grounded(d) && ChildrenOf(d, p, ks) && Descending(ks) && x in ks && y in ks && Below(y, x)
    ensures ComesBefore(Flatten(d, p, ks), x, y)
    decreases |ks|
  {
    IdOrder();
    if ks[0] == x {
      assert y in ks[1..];
      KidsListed(d, p, ks[1..], y);
      var rest := Flatten(d, p, ks[1..]);
      var j :| 0 <= j < |rest| && rest[j] == y;
      var head := [x] + Subtree(d, x);
      assert (head + rest)[0] == x && (head + rest)[|head| + j] == y;
    } else {
      var i :| 0 <= i < |ks| && ks[i] == x;
      assert i > 0 && Below(ks[i], ks[0]);
      GreaterChildFirst(d, p, ks[1..], x, y);
      BeforeInside([ks[0]] + Subtree(d, ks[0]), Flatten(d, p, ks[1..]), [], x, y);
      assert ([ks[0]] + Subtree(d, ks[0])) + Flatten(d, p, ks[1..]) + [] == Flatten(d, p, ks);
    }
  }

  /** Of two elements inserted behind the same one, the one with the greater id is read first:
      the later counter or, for concurrent inserts of equal counter, the greater node. */
  lemma GreaterSiblingFirst<T>(d: Doc<T>, x: Id, y: Id)
    requires Grounded(d) && x in d && y in d && d[x].after == d[y].after
    requires x.counter > y.counter || (x.counter == y.counter && Less(y.node, x.node))
    ensures ComesBefore(Walk(d), x, y)
  {
    CounterThenNode(x, y);
    assert Placed(d, x);
    var p := d[x].after;
    KidsAreChildren(d, p);
    GreaterChildFirst(d, p, Kids(d, p), x, y);
    var u, v := SubtreeInside(d, p);
    BeforeInside(u, Subtree(d, p), v, x, y);
  }

  /** An element is read behind the one it was inserted after. */
  lemma ParentFirst<T>(d: Doc<T>, x: Id)
    requires Grounded(d) && x in d && d[x].after != ROOT
    ensures ComesBefore(Walk(d), d[x].after, x)
  {
    assert Placed(d, x);
    var p := d[x].after;
    var u, v := SubtreeInside(d, p);
    KidsAreChildren(d, p);
    KidsListed(d, p, Kids(d, p), x);
    var s := Subtree(d, p);
    var j :| 0 <= j < |s| && s[j] == x;
    assert Walk(d)[|u| - 1] == p && Walk(d)[|u| + j] == x;
  }
}
