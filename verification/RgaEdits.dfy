/** Local edits and merges as operations on documents: local edits act on the visible text as
    list edits do, merges satisfy the CRDT laws and never reorder. */
module RgaEdits {
  import opened Seqs
  import opened RgaTree

  ghost function LiveIds<T>(d: Doc<T>): set<Id> {
    set x | x in d && !d[x].deleted
  }

  /** The ids a reader sees, in order. */
  ghost function Visible<T>(d: Doc<T>): seq<Id>
    requires Grounded(d)
  {
    Restrict(Walk(d), LiveIds(d))
  }

  ghost predicate Known<T>(d: Doc<T>, s: seq<Id>) {
    forall i :: 0 <= i < |s| ==> s[i] in d
  }

  function Values<T>(d: Doc<T>, s: seq<Id>): (r: seq<T>)
    requires Known(d, s)
    ensures |r| == |s| && forall i :: 0 <= i < |s| ==> r[i] == d[s[i]].value
  {
    seq(|s|, i requires 0 <= i < |s| => d[s[i]].value)
  }

  ghost function Text<T>(d: Doc<T>): seq<T>
    requires Grounded(d)
  {
    VisibleKnown(d);
    Values(d, Visible(d))
  }

  lemma {:induction false} RestrictDistinct(s: seq<Id>, keep: set<Id>)
    requires Distinct(s)
    ensures Distinct(Restrict(s, keep))
  {
    if s != [] {
      assert forall i :: 0 <= i < |s[1..]| ==> s[1..][i] == s[i + 1];
      RestrictDistinct(s[1..], keep);
      RestrictMembers(s[1..], keep);
      assert s[0] !in s[1..];
      assert s[0] !in Restrict(s[1..], keep);
    }
  }

  lemma VisibleMembers<T>(d: Doc<T>)
    requires Grounded(d)
    ensures forall x :: x in Visible(d) <==> x in d && !d[x].deleted
    ensures Distinct(Visible(d))
  {
    WalkPermutes(d);
    RestrictMembers(Walk(d), LiveIds(d));
    RestrictDistinct(Walk(d), LiveIds(d));
  }

  lemma VisibleKnown<T>(d: Doc<T>)
    requires Grounded(d)
    ensures Known(d, Visible(d))
  {
    VisibleMembers(d);
    assert forall i :: 0 <= i < |Visible(d)| ==> Visible(d)[i] in Visible(d);
  }

  // ---- Inserting -----------------------------------------------------------------------

  function Spliced<X>(s: seq<X>, i: nat, x: X): seq<X>
    requires i <= |s|
  {
    s[..i] + [x] + s[i..]
  }

  /** `e` slipped in directly behind `a`; unchanged when `a` does not occur. */
  ghost function PutAfter(s: seq<Id>, a: Id, e: Id): seq<Id> {
    if s == [] then [] else if s[0] == a then [a, e] + s[1..] else [s[0]] + PutAfter(s[1..], a, e)
  }

  lemma {:induction false} PutAfterAbsent(s: seq<Id>, a: Id, e: Id)
    requires a !in s
    ensures PutAfter(s, a, e) == s
  {
    if s != [] {
      PutAfterAbsent(s[1..], a, e);
      assert s == [s[0]] + s[1..];
    }
  }

  lemma {:induction false} PutAfterConcat(s: seq<Id>, t: seq<Id>, a: Id, e: Id)
    requires a in s ==> a !in t
    ensures PutAfter(s + t, a, e) == PutAfter(s, a, e) + PutAfter(t, a, e)
  {
    if s == [] {
      Regroup3(t, [], []);
      Regroup3(PutAfter(t, a, e), [], []);
    } else {
      ConsConcat(s, t);
      if s[0] == a {
        PutAfterAbsent(t, a, e);
        Regroup3([a, e], s[1..], t);
      } else {
        PutAfterConcat(s[1..], t, a, e);
        Regroup3([s[0]], PutAfter(s[1..], a, e), PutAfter(t, a, e));
      }
    }
  }

  lemma {:induction false} PutAfterRestrict(s: seq<Id>, keep: set<Id>, a: Id, e: Id)
    requires a in keep && e !in keep && e !in s
    ensures Restrict(PutAfter(s, a, e), keep + {e}) == PutAfter(Restrict(s, keep), a, e)
  {
    if s != [] {
      var tail := s[1..];
      if s[0] == a {
        RestrictConcat([a, e], tail, keep + {e});
        assert Restrict([a, e], keep + {e}) == [a] + Restrict([e], keep + {e});
        RestrictIgnores(tail, keep, e);
        assert Restrict(s, keep) == [a] + Restrict(tail, keep);
      } else {
        PutAfterRestrict(tail, keep, a, e);
        RestrictConcat([s[0]], PutAfter(tail, a, e), keep + {e});
        assert Restrict([s[0]], keep + {e}) == Restrict([s[0]], keep);
        assert Restrict(s, keep) == Restrict([s[0]], keep) + Restrict(tail, keep);
        PutAfterAbsent(Restrict([s[0]], keep), a, e);
        PutAfterConcat(Restrict([s[0]], keep), Restrict(tail, keep), a, e);
      }
    }
  }

  lemma {:induction false} RestrictIgnores(s: seq<Id>, keep: set<Id>, e: Id)
    requires e !in s
    ensures Restrict(s, keep + {e}) == Restrict(s, keep)
  {
    if s != [] {
      RestrictIgnores(s[1..], keep, e);
    }
  }

  lemma {:induction false} PutAfterAt(s: seq<Id>, i: nat, e: Id)
    requires i < |s| && Distinct(s)
    ensures PutAfter(s, s[i], e) == Spliced(s, i + 1, e)
  {
    if i > 0 {
      assert forall j :: 0 <= j < |s[1..]| ==> s[1..][j] == s[j + 1];
      PutAfterAt(s[1..], i - 1, e);
    }
  }

  /** What `insert` relies on: the new id is larger than every id already known. */
  ghost predicate Fresh<T>(d: Doc<T>, e: Id) {
    e.counter > 0 && e !in d && forall x :: x in d ==> Below(x, e)
  }

  lemma InsertGrounded<T>(d: Doc<T>, e: Id, v: T, a: Id)
    requires Grounded(d) && Fresh(d, e) && (a == ROOT || a in d)
    ensures Grounded(d[e := Elem(v, a, false)])
  {
    var d' := d[e := Elem(v, a, false)];
    forall x | x in d' ensures Placed(d', x) { assert x != e ==> Placed(d, x); }
  }

  /** What `p` has below it once `e` is the first child of `a`. */
  ghost function Planted(s: seq<Id>, p: Id, a: Id, e: Id): seq<Id> {
    if p == a then [e] + s else s
  }

  /** `d'` is `d` plus one childless element, first among the children of `a`. */
  ghost predicate FreshLeaf<T>(d: Doc<T>, d': Doc<T>, a: Id, e: Id)
    requires Grounded(d) && Grounded(d')
  {
    && d'.Keys == d.Keys + {e} && d'[e].after == a
    && Subtree(d', e) == []
    && (forall x :: x in d ==> d'[x].after == d[x].after)
    && forall p :: Kids(d', p) == Planted(Kids(d, p), p, a, e)
  }

  /** A fresh id sorts first among its siblings. */
  lemma FreshSortsFirst<T>(d: Doc<T>, e: Id, v: T, a: Id)
    requires Grounded(d) && Fresh(d, e) && (a == ROOT || a in d)
    ensures Grounded(d[e := Elem(v, a, false)]) && FreshLeaf(d, d[e := Elem(v, a, false)], a, e)
  {
    IdOrder();
    var d' := d[e := Elem(v, a, false)];
    InsertGrounded(d, e, v, a);
    forall x | x in d ensures d[x].after != e { assert Placed(d, x); }
    DescendingUnique(Kids(d', e), []);
    forall p ensures Kids(d', p) == Planted(Kids(d, p), p, a, e) {
      DescendingUnique(Kids(d', p), Planted(Kids(d, p), p, a, e));
    }
  }

  lemma PutAfterNode(k: Id, sub: seq<Id>, tail: seq<Id>, a: Id, e: Id)
    requires k !in sub && k !in tail && forall x :: x in sub ==> x !in tail
    ensures PutAfter([k] + sub + tail, a, e) ==
            [k] + Planted(PutAfter(sub, a, e), k, a, e) + PutAfter(tail, a, e)
  {
    PutAfterConcat([k] + sub, tail, a, e);
    PutAfterRoot(k, sub, a, e);
    if a in [k] + sub {
      PutAfterAbsent(tail, a, e);
    }
  }

  lemma PutAfterRoot(k: Id, sub: seq<Id>, a: Id, e: Id)
    requires k !in sub
    ensures PutAfter([k] + sub, a, e) == [k] + Planted(PutAfter(sub, a, e), k, a, e)
  {
    assert ([k] + sub)[1..] == sub;
    if k == a {
      PutAfterAbsent(sub, a, e);
    }
  }

  lemma {:induction false} FlattenInsert<T>(d: Doc<T>, d': Doc<T>, e: Id, a: Id, p: Id, ks: seq<Id>)
    requires Grounded(d) && Grounded(d') && FreshLeaf(d, d', a, e)
    requires ChildrenOf(d, p, ks) && ChildrenOf(d', p, ks) && Distinct(ks)
    ensures Flatten(d', p, ks) == PutAfter(Flatten(d, p, ks), a, e)
    decreases IdsAbove(d, p), |ks|
  {
    if ks != [] {
      var k, rest := ks[0], ks[1..];
      FewerAbove(d, p, k);
      assert forall j :: 0 <= j < |rest| ==> rest[j] == ks[j + 1];
      FlattenInsert(d, d', e, a, p, rest);
      SubtreeInsert(d, d', e, a, k);
      SubtreeApart(d, p, k, rest);
      PutAfterNode(k, Subtree(d, k), Flatten(d, p, rest), a, e);
    }
  }

  lemma SubtreeInsert<T>(d: Doc<T>, d': Doc<T>, e: Id, a: Id, p: Id)
    requires Grounded(d) && Grounded(d') && FreshLeaf(d, d', a, e)
    ensures Subtree(d', p) == Planted(PutAfter(Subtree(d, p), a, e), p, a, e)
    decreases IdsAbove(d, p), |Kids(d, p)| + 1
  {
    KidsAreChildren(d, p);
    KidsAreChildren(d', p);
    IdOrder();
    assert Distinct(Kids(d, p));
    assert Kids(d', p) == Planted(Kids(d, p), p, a, e);
    FlattenInsert(d, d', e, a, p, Kids(d, p));
    if p == a {
      FlattenCons(d', p, e, Kids(d, p));
    } else {
      assert Kids(d', p) == Kids(d, p);
    }
  }

  /** The element an insertion at visible position `i` names as its predecessor. */
  ghost function Predecessor<T>(d: Doc<T>, i: nat): Id
    requires Grounded(d) && i <= |Visible(d)|
  {
    if i == 0 then ROOT else Visible(d)[i - 1]
  }

  lemma PredecessorPresent<T>(d: Doc<T>, i: nat)
    requires Grounded(d) && i <= |Visible(d)|
    ensures Predecessor(d, i) == ROOT || Predecessor(d, i) in d
  {
    VisibleMembers(d);
    assert i > 0 ==> Visible(d)[i - 1] in Visible(d);
  }

  /** Inserting at visible position `i` splices the new value into the text there and disturbs
      nothing else, even among tombstones. */
  lemma InsertRefinesList<T>(d: Doc<T>, e: Id, v: T, i: nat, d': Doc<T>)
    requires Grounded(d) && Fresh(d, e) && i <= |Visible(d)|
    requires d' == d[e := Elem(v, Predecessor(d, i), false)]
    ensures Grounded(d')
    ensures Visible(d') == Spliced(Visible(d), i, e)
    ensures |Text(d)| == |Visible(d)| && Text(d') == Spliced(Text(d), i, v)
  {
    var a := Predecessor(d, i);
    PredecessorPresent(d, i);
    FreshSortsFirst(d, e, v, a);
    SubtreeInsert(d, d', e, a, ROOT);
    assert LiveIds(d') == LiveIds(d) + {e};
    assert ROOT in d ==> Placed(d, ROOT);
    WalkPermutes(d);
    RestrictPlanted(Walk(d), LiveIds(d), e, a, i);
    VisibleKnown(d);
    VisibleKnown(d');
    SplicedValues(d, d', Visible(d), i, e);
  }

  lemma RestrictPlanted(w: seq<Id>, live: set<Id>, e: Id, a: Id, i: nat)
    requires Distinct(w) && ROOT !in w && e !in w && e !in live
    requires i <= |Restrict(w, live)|
    requires a == if i == 0 then ROOT else Restrict(w, live)[i - 1]
    ensures Restrict(Planted(PutAfter(w, a, e), ROOT, a, e), live + {e}) == Spliced(Restrict(w, live), i, e)
  {
    if i == 0 {
      PutAfterAbsent(w, ROOT, e);
      RestrictFront(w, live, e);
      SplicedFront(Restrict(w, live), e);
    } else {
      VisibleNotRoot(w, live, i - 1);
      RestrictBehind(w, live, i - 1, e);
    }
  }

  lemma SplicedFront(s: seq<Id>, e: Id)
    ensures Spliced(s, 0, e) == [e] + s
  {
  }

  lemma VisibleNotRoot(w: seq<Id>, live: set<Id>, k: nat)
    requires ROOT !in w && k < |Restrict(w, live)|
    ensures Restrict(w, live)[k] != ROOT
  {
    RestrictMembers(w, live);
    assert Restrict(w, live)[k] in Restrict(w, live);
  }

  lemma RestrictFront(s: seq<Id>, keep: set<Id>, e: Id)
    requires e !in s
    ensures Restrict([e] + s, keep + {e}) == [e] + Restrict(s, keep)
  {
    RestrictConcat([e], s, keep + {e});
    RestrictIgnores(s, keep, e);
  }

  lemma RestrictBehind(s: seq<Id>, keep: set<Id>, i: nat, e: Id)
    requires Distinct(s) && e !in s && e !in keep && i < |Restrict(s, keep)|
    ensures Restrict(PutAfter(s, Restrict(s, keep)[i], e), keep + {e}) == Spliced(Restrict(s, keep), i + 1, e)
  {
    RestrictMembers(s, keep);
    RestrictDistinct(s, keep);
    assert Restrict(s, keep)[i] in Restrict(s, keep);
    PutAfterRestrict(s, keep, Restrict(s, keep)[i], e);
    PutAfterAt(Restrict(s, keep), i, e);
  }

  lemma SplicedValues<T>(d: Doc<T>, d': Doc<T>, s: seq<Id>, i: nat, e: Id)
    requires Known(d, s) && e in d' && i <= |s| && Known(d', Spliced(s, i, e))
    requires forall x :: x in d ==> x in d' && d'[x].value == d[x].value
    ensures Values(d', Spliced(s, i, e)) == Spliced(Values(d, s), i, d'[e].value)
  {
  }

  // ---- Deleting ------------------------------------------------------------------------

  ghost function Tombstoned<T>(d: Doc<T>, x: Id): Doc<T>
    requires x in d
  {
    d[x := d[x].(deleted := true)]
  }

  lemma {:induction false} RestrictAll(s: seq<Id>, keep: set<Id>)
    requires forall x :: x in s ==> x in keep
    ensures Restrict(s, keep) == s
  {
    if s != [] {
      RestrictAll(s[1..], keep);
      assert s == [s[0]] + s[1..];
    }
  }

  lemma RestrictDropAt(s: seq<Id>, keep: set<Id>, j: nat)
    requires Distinct(s) && j < |s|
    ensures Restrict(s, keep - {s[j]}) == Restrict(s[..j], keep) + Restrict(s[j + 1..], keep)
  {
    RestrictAround(s, keep - {s[j]}, j);
    RestrictWithout(s[..j], keep, s[j]);
    RestrictWithout(s[j + 1..], keep, s[j]);
  }

  lemma RestrictDrop(s: seq<Id>, keep: set<Id>, i: nat)
    requires Distinct(s) && i < |Restrict(s, keep)|
    ensures Restrict(s, keep - {Restrict(s, keep)[i]}) == Restrict(s, keep)[..i] + Restrict(s, keep)[i + 1..]
  {
    var r := Restrict(s, keep);
    RestrictMembers(s, keep);
    RestrictDistinct(s, keep);
    assert r[i] in r;
    var j :| 0 <= j < |s| && s[j] == r[i];
    var before, behind := Restrict(s[..j], keep), Restrict(s[j + 1..], keep);
    RestrictAround(s, keep, j);
    RestrictDropAt(s, keep, j);
    DropMiddle(r, before, r[i], behind, i);
  }

  lemma DropMiddle(r: seq<Id>, before: seq<Id>, x: Id, behind: seq<Id>, i: nat)
    requires Distinct(r) && i < |r| && r[i] == x && r == before + [x] + behind
    ensures r[..i] == before && r[i + 1..] == behind
  {
    assert r[|before|] == x;
  }

  lemma RestrictAround(s: seq<Id>, keep: set<Id>, j: nat)
    requires j < |s|
    ensures Restrict(s, keep) ==
            Restrict(s[..j], keep) + (if s[j] in keep then [s[j]] else []) + Restrict(s[j + 1..], keep)
  {
    assert s == s[..j] + s[j..];
    RestrictConcat(s[..j], s[j..], keep);
  }

  lemma {:induction false} RestrictWithout(s: seq<Id>, keep: set<Id>, x: Id)
    requires x !in s
    ensures Restrict(s, keep - {x}) == Restrict(s, keep)
  {
    if s != [] {
      RestrictWithout(s[1..], keep, x);
    }
  }

  /** Tombstoning leaves the tree and its walk as they were. */
  lemma TombstoneKeepsWalk<T>(d: Doc<T>, x: Id)
    requires Grounded(d) && x in d
    ensures Grounded(Tombstoned(d, x)) && Walk(Tombstoned(d, x)) == Walk(d)
  {
    var d' := Tombstoned(d, x);
    forall y | y in d' ensures Placed(d', y) { assert Placed(d, y); }
    WalkExtends(d, d');
    WalkPermutes(d');
    RestrictAll(Walk(d'), d.Keys);
  }

  /** Deleting the element shown at `i` removes exactly position `i` of the text. */
  lemma DeleteRefinesList<T>(d: Doc<T>, i: nat)
    requires Grounded(d) && i < |Visible(d)|
    ensures Visible(d)[i] in d && Grounded(Tombstoned(d, Visible(d)[i]))
    ensures Visible(Tombstoned(d, Visible(d)[i])) == Visible(d)[..i] + Visible(d)[i + 1..]
    ensures |Text(d)| == |Visible(d)|
    ensures Text(Tombstoned(d, Visible(d)[i])) == Text(d)[..i] + Text(d)[i + 1..]
  {
    VisibleKnown(d);
    var x := Visible(d)[i];
    var d' := Tombstoned(d, x);
    TombstoneKeepsWalk(d, x);
    WalkPermutes(d);
    assert LiveIds(d') == LiveIds(d) - {x};
    RestrictDrop(Walk(d), LiveIds(d), i);
    VisibleKnown(d');
    DroppedValues(d, d', Visible(d), i);
  }

  lemma DroppedValues<T>(d: Doc<T>, d': Doc<T>, s: seq<Id>, i: nat)
    requires Known(d, s) && i < |s| && Known(d', s[..i] + s[i + 1..])
    requires forall x :: x in d ==> x in d' && d'[x].value == d[x].value
    ensures Values(d', s[..i] + s[i + 1..]) == Values(d, s)[..i] + Values(d, s)[i + 1..]
  {
  }

  // ---- Merging -------------------------------------------------------------------------

  /** Every element of either side; a tombstone on either side wins. */
  ghost function Merged<T>(a: Doc<T>, b: Doc<T>): Doc<T> {
    map x | x in a.Keys + b.Keys ::
      if x !in a then b[x]
      else if x in b && b[x].deleted then a[x].(deleted := true)
      else a[x]
  }

  /** One id never names two different insertions. */
  ghost predicate Agree<T>(a: Doc<T>, b: Doc<T>) {
    forall x :: x in a && x in b ==> a[x].value == b[x].value && a[x].after == b[x].after
  }

  lemma MergedGrounded<T>(a: Doc<T>, b: Doc<T>)
    requires Grounded(a) && Grounded(b)
    ensures Grounded(Merged(a, b))
  {
    forall x | x in Merged(a, b) ensures Placed(Merged(a, b), x) {
      if x in a { assert Placed(a, x); } else { assert Placed(b, x); }
    }
  }

  lemma MergeCommutes<T>(a: Doc<T>, b: Doc<T>)
    requires Agree(a, b)
    ensures Merged(a, b) == Merged(b, a)
  {
  }

  lemma MergeAssociates<T>(a: Doc<T>, b: Doc<T>, c: Doc<T>)
    ensures Merged(Merged(a, b), c) == Merged(a, Merged(b, c))
  {
  }

  lemma MergeIdempotent<T>(a: Doc<T>, b: Doc<T>)
    requires Agree(a, b)
    ensures Merged(a, a) == a
    ensures Merged(Merged(a, b), b) == Merged(a, b)
    ensures Merged(Merged(a, b), a) == Merged(a, b)
  {
  }

  /** A merge keeps the order both sides had: dropping the other side's additions from the
      merged walk gives back each side's own walk, tombstones included. */
  lemma MergeNeverReorders<T>(a: Doc<T>, b: Doc<T>)
    requires Grounded(a) && Grounded(b) && Agree(a, b)
    ensures Grounded(Merged(a, b))
    ensures Restrict(Walk(Merged(a, b)), a.Keys) == Walk(a)
    ensures Restrict(Walk(Merged(a, b)), b.Keys) == Walk(b)
  {
    MergedGrounded(a, b);
    WalkExtends(a, Merged(a, b));
    WalkExtends(b, Merged(a, b));
  }

  /** A digest applied to an empty replica reproduces the document, hence the text. */
  lemma MergedIntoEmpty<T>(d: Doc<T>)
    ensures Merged(map[], d) == d
  {
  }

  /** The Lamport counter after seeing `d`: `c`, or the largest counter in `d` if that is more. */
  ghost predicate IsLeastBound<T>(m: int, c: int, d: Doc<T>) {
    && m >= c
    && (forall x :: x in d ==> x.counter <= m)
    && (m == c || exists x :: x in d && x.counter == m)
  }

  lemma {:induction false} LeastBoundExists<T>(c: int, d: Doc<T>)
    ensures exists m :: IsLeastBound(m, c, d)
    decreases |d|
  {
    if d == map[] {
      assert IsLeastBound(c, c, d);
    } else {
      var x :| x in d;
      var rest := d - {x};
      assert d.Keys == rest.Keys + {x};
      LeastBoundExists(c, rest);
      var m :| IsLeastBound(m, c, rest);
      assert IsLeastBound(if m < x.counter then x.counter else m, c, d);
    }
  }

  lemma BoundUnique<T>(c: int, d: Doc<T>)
    ensures forall m :: IsLeastBound(m, c, d) ==> m == LeastBound(c, d)
  {
  }

  ghost function LeastBound<T>(c: int, d: Doc<T>): (m: int)
    ensures IsLeastBound(m, c, d)
  {
    LeastBoundExists(c, d);
    var m :| IsLeastBound(m, c, d);
    m
  }

  // ---- What each operation makes of a replica ------------------------------------------

  datatype Node<T> = Node(counter: int, doc: Doc<T>)

  /** What `insert` at `index` makes of a node called `name`. */
  ghost function AfterInsert<T>(name: string, n: Node<T>, index: int, v: T): Node<T>
    requires Grounded(n.doc)
  {
    if index > |Visible(n.doc)| then n
    else
      Node(n.counter + 1,
        n.doc[Id(n.counter + 1, name) := Elem(v, Predecessor(n.doc, if index < 0 then 0 else index), false)])
  }

  ghost function AfterDelete<T>(n: Node<T>, index: int): Node<T>
    requires Grounded(n.doc)
  {
    if index < 0 || index >= |Visible(n.doc)| then n
    else
      VisibleMembers(n.doc);
      assert Visible(n.doc)[index] in Visible(n.doc);
      n.(doc := Tombstoned(n.doc, Visible(n.doc)[index]))
  }

  ghost function AfterReceive<T>(n: Node<T>, d: Doc<T>): Node<T> {
    Node(LeastBound(n.counter, Merged(n.doc, d)), Merged(n.doc, d))
  }
}
