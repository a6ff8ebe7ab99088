/** One replica of the collaborative sequence, updated in place. */
module Rga {
  import opened Seqs
  import opened RgaTree
  import opened RgaEdits

  datatype InsertResult = Inserted(id: Id) | IndexError

  datatype DeleteResult = Deleted(id: Id) | NoSuchIndex

  /** One element as a digest carries it. */
  datatype Record<T> = Record(id: Id, value: T, after: Id, deleted: bool)

  /** The elements a digest describes; a repeated id keeps its last record. */
  function FromRecords<T>(recs: seq<Record<T>>): Doc<T> {
    if recs == [] then map[]
    else
      var last := recs[|recs| - 1];
      FromRecords(recs[..|recs| - 1])[last.id := Elem(last.value, last.after, last.deleted)]
  }

  function PlaceDown(s: seq<Id>, x: Id): seq<Id> {
    if s == [] || Below(s[0], x) then [x] + s else [s[0]] + PlaceDown(s[1..], x)
  }

  /** Python's `sort(reverse=True)` on ids. */
  function SortReverse(s: seq<Id>): seq<Id> {
    if s == [] then [] else PlaceDown(SortReverse(s[1..]), s[0])
  }

  lemma {:induction false} PlaceDownSorted(s: seq<Id>, x: Id)
    requires Descending(s) && x !in s
    ensures Descending(PlaceDown(s, x))
    ensures forall y :: y in PlaceDown(s, x) <==> y in s || y == x
  {
    IdOrder();
    if s != [] && !Below(s[0], x) {
      PlaceDownSorted(s[1..], x);
      assert forall y :: y in s <==> y == s[0] || y in s[1..];
      assert s[0] in s;
      forall y | y in PlaceDown(s[1..], x) ensures Below(y, s[0]) {}
    }
  }

  lemma {:induction false} SortReverseSorted(s: seq<Id>)
    requires Distinct(s)
    ensures Descending(SortReverse(s))
    ensures forall y :: y in SortReverse(s) <==> y in s
  {
    if s != [] {
      assert forall j :: 0 <= j < |s[1..]| ==> s[1..][j] == s[j + 1];
      SortReverseSorted(s[1..]);
      PlaceDownSorted(SortReverse(s[1..]), s[0]);
    }
  }

  /** What a merge has taken over once the ids in `done` are processed. */
  ghost function Part<T>(other: Doc<T>, done: set<Id>): Doc<T> {
    map x | x in other && x in done :: other[x]
  }

  function PlaceUp(s: seq<Id>, x: Id): (r: seq<Id>)
    ensures forall y :: y in r <==> y in s || y == x
  {
    if s == [] || Below(x, s[0]) then [x] + s else [s[0]] + PlaceUp(s[1..], x)
  }

  /** Python's `sorted` on a set of ids. */
  method SortedIds(s: set<Id>) returns (r: seq<Id>)
    ensures forall y :: y in r <==> y in s
    ensures forall i, j :: 0 <= i < j < |r| ==> Below(r[i], r[j])
  {
    r := [];
    var todo := s;
    while todo != {}
      invariant todo <= s
      invariant forall y :: y in r <==> y in s - todo
      invariant forall i, j :: 0 <= i < j < |r| ==> Below(r[i], r[j])
    {
      var x :| x in todo;
      PlaceUpSorted(r, x);
      r := PlaceUp(r, x);
      todo := todo - {x};
    }
  }

  lemma {:induction false} PlaceUpSorted(s: seq<Id>, x: Id)
    requires x !in s && forall i, j :: 0 <= i < j < |s| ==> Below(s[i], s[j])
    ensures forall i, j :: 0 <= i < j < |PlaceUp(s, x)| ==> Below(PlaceUp(s, x)[i], PlaceUp(s, x)[j])
  {
    IdOrder();
    if s != [] && !Below(x, s[0]) {
      PlaceUpSorted(s[1..], x);
      assert s[0] in s;
      assert forall y :: y in PlaceUp(s[1..], x) ==> Below(s[0], y);
    }
  }

  ghost predicate Lists<T>(d: Doc<T>, p: Id, ks: seq<Id>) {
    Descending(ks) && forall x :: x in ks <==> x in d && d[x].after == p
  }

  /** The counter bounds every known id, and `children` is exactly the descending grouping of
      the elements by predecessor. */
  ghost predicate Indexed<T>(counter: int, d: Doc<T>, children: map<Id, seq<Id>>) {
    && counter >= 0
    && (forall x :: x in d ==> x.counter <= counter)
    && ROOT in children
    && (forall x :: x in d ==> x in children && d[x].after in children)
    && forall p :: p in children ==> Lists(d, p, children[p])
  }

  function ChildList(children: map<Id, seq<Id>>, p: Id): seq<Id> {
    if p in children then children[p] else []
  }

  lemma ChildListIsKids<T>(counter: int, d: Doc<T>, children: map<Id, seq<Id>>, p: Id)
    requires Indexed(counter, d, children)
    ensures ChildList(children, p) == Kids(d, p)
  {
    if p in children {
      DescendingUnique(children[p], Kids(d, p));
    } else {
      DescendingUnique([], Kids(d, p));
    }
  }

  lemma SiblingsInsert<T>(d: Doc<T>, p: Id, ks: seq<Id>, e: Id, v: T)
    requires Lists(d, p, ks) && e !in d
    ensures Lists(d[e := Elem(v, p, false)], p, SortReverse(ks + [e]))
  {
    IdOrder();
    assert e !in ks;
    assert Distinct(ks + [e]);
    SortReverseSorted(ks + [e]);
  }

  /** The child lists once `e` is filed under `after` and has an entry of its own. */
  ghost function Refiled(children: map<Id, seq<Id>>, e: Id, after: Id): map<Id, seq<Id>> {
    var filed := children[after := SortReverse(ChildList(children, after) + [e])];
    if e in filed then filed else filed[e := []]
  }

  lemma IndexedAfter<T>(counter: int, d: Doc<T>, children: map<Id, seq<Id>>, e: Id, v: T, after: Id)
    requires Indexed(counter, d, children) && e !in d
    ensures Indexed(if e.counter > counter then e.counter else counter, d[e := Elem(v, after, false)], Refiled(children, e, after))
  {
    var d', filed := d[e := Elem(v, after, false)], Refiled(children, e, after);
    forall p | p in filed ensures Lists(d', p, filed[p]) { RefiledLists(counter, d, children, e, v, after, p); }
  }

  lemma RefiledLists<T>(counter: int, d: Doc<T>, children: map<Id, seq<Id>>, e: Id, v: T, after: Id, p: Id)
    requires Indexed(counter, d, children) && e !in d && p in Refiled(children, e, after)
    ensures Lists(d[e := Elem(v, after, false)], p, Refiled(children, e, after)[p])
  {
    if p == after {
      SiblingsInsert(d, after, ChildList(children, after), e, v);
    } else if p in children {
      assert Lists(d, p, children[p]);
    }
  }

  lemma WalkStep<T>(d: Doc<T>, p: Id, k: Id, rest: seq<Id>)
    requires Grounded(d) && ChildrenOf(d, p, [k] + rest)
    ensures k in d && Below(p, k) && ChildrenOf(d, p, rest)
    ensures Restrict(Flatten(d, p, [k] + rest), LiveIds(d)) ==
            (if d[k].deleted then [] else [k]) + Restrict(Subtree(d, k), LiveIds(d))
            + Restrict(Flatten(d, p, rest), LiveIds(d))
  {
    assert k in [k] + rest;
    assert forall x :: x in rest ==> x in [k] + rest;
    FlattenCons(d, p, k, rest);
    RestrictConcat([k] + Subtree(d, k), Flatten(d, p, rest), LiveIds(d));
    RestrictConcat([k], Subtree(d, k), LiveIds(d));
  }

  lemma TombstoneIndexed<T>(counter: int, d: Doc<T>, children: map<Id, seq<Id>>, x: Id)
    requires Indexed(counter, d, children) && x in d
    ensures Indexed(counter, Tombstoned(d, x), children)
  {
    forall p | p in children ensures Lists(Tombstoned(d, x), p, children[p]) {
      assert Lists(d, p, children[p]);
    }
  }

  /** One round of `merge` for an id not processed before. */
  ghost function MergeRound<T>(cur: Doc<T>, eid: Id, oe: Elem<T>): Doc<T> {
    var cur' := if eid in cur then cur else cur[eid := Elem(oe.value, oe.after, false)];
    if oe.deleted then Tombstoned(cur', eid) else cur'
  }

  lemma MergeRoundAt<T>(before: Doc<T>, part: Doc<T>, eid: Id, oe: Elem<T>, x: Id)
    requires eid !in part
    ensures var round, next := MergeRound(Merged(before, part), eid, oe), Merged(before, part[eid := oe]);
            (x in round <==> x in next) && (x in next ==> round[x] == next[x])
  {
  }

  lemma PartNext<T>(other: Doc<T>, done: set<Id>, eid: Id)
    requires eid in other && eid !in done
    ensures eid !in Part(other, done) && Part(other, done + {eid}) == Part(other, done)[eid := other[eid]]
  {
  }

  /** A later round that changed nothing shows that no earlier one did. */
  lemma MergedUnchanged<T>(before: Doc<T>, part: Doc<T>, eid: Id, oe: Elem<T>)
    requires eid !in part && Merged(before, part[eid := oe]) == before
    ensures Merged(before, part) == before
  {
    var cur := Merged(before, part);
    forall x ensures x in cur <==> x in before { assert x in part ==> x in Merged(before, part[eid := oe]); }
    forall x | x in cur ensures cur[x] == before[x] {
      assert Merged(before, part[eid := oe])[x] == before[x];
    }
  }

  lemma MergeRoundMerges<T>(before: Doc<T>, other: Doc<T>, done: set<Id>, eid: Id)
    requires eid in other && eid !in done
    ensures MergeRound(Merged(before, Part(other, done)), eid, other[eid]) ==
            Merged(before, Part(other, done + {eid}))
    ensures Merged(before, Part(other, done + {eid})) == before ==> Merged(before, Part(other, done)) == before
  {
    PartNext(other, done, eid);
    var part := Part(other, done);
    var round, next := MergeRound(Merged(before, part), eid, other[eid]), Merged(before, part[eid := other[eid]]);
    forall x ensures (x in round <==> x in next) && (x in next ==> round[x] == next[x]) {
      MergeRoundAt(before, part, eid, other[eid], x);
    }
    assert round == next;
    if next == before {
      MergedUnchanged(before, part, eid, other[eid]);
    }
  }

  /** `todo` lists, in ascending order, the ids not yet in `done`. */
  ghost predicate Pending(ids: set<Id>, done: set<Id>, todo: seq<Id>) {
    && (forall x :: x in ids <==> x in done || x in todo)
    && (forall x :: x in todo ==> x !in done)
    && forall i, j :: 0 <= i < j < |todo| ==> Below(todo[i], todo[j])
  }

  lemma PendingNext(ids: set<Id>, done: set<Id>, todo: seq<Id>)
    requires Pending(ids, done, todo) && todo != []
    ensures todo[0] in ids && todo[0] !in done
    ensures Pending(ids, done + {todo[0]}, todo[1..])
  {
    IdOrder();
    assert forall x :: x in todo <==> x == todo[0] || x in todo[1..];
  }

  class Replica<T(==)> {
    const nodeId: string
    var counter: int
    var elems: Doc<T>
    var children: map<Id, seq<Id>>

    ghost predicate Valid()
      reads this
    {
      Indexed(counter, elems, children)
    }

    ghost function Here(): Node<T>
      reads this
    {
      Node(counter, elems)
    }

    constructor (nodeId: string)
      ensures Valid() && this.nodeId == nodeId
      ensures counter == 0 && elems == map[]
    {
      this.nodeId := nodeId;
      counter := 0;
      elems := map[];
      children := map[ROOT := []];
    }

    method NextId() returns (id: Id)
      requires Valid()
      modifies this`counter
      ensures Valid() && counter == old(counter) + 1 && id == Id(counter, nodeId)
      ensures id !in elems && forall x :: x in elems ==> Below(x, id)
    {
      counter := counter + 1;
      id := Id(counter, nodeId);
    }

    method ApplyInsert(eid: Id, value: T, after: Id)
      requires Valid()
      modifies this
      ensures Valid()
      ensures elems == if eid in old(elems) then old(elems) else old(elems)[eid := Elem(value, after, false)]
      ensures counter == if eid in old(elems) || eid.counter < old(counter) then old(counter) else eid.counter
    {
      if eid in elems {
        return;
      }
      ghost var before := elems;
      if eid.counter > counter { counter := eid.counter; }
      elems := elems[eid := Elem(value, after, false)];
      var siblings := ChildList(children, after);
      children := children[after := SortReverse(siblings + [eid])];
      if eid !in children {
        children := children[eid := []];
      }
      IndexedAfter(old(counter), before, old(children), eid, value, after);
    }

    // ---- Reading -----------------------------------------------------------------------

    /** The nested `walk`: appends the visible ids below `pred`, depth first. */
    method WalkFrom(pred: Id, order: seq<Id>) returns (out: seq<Id>)
      requires Valid() && Grounded(elems)
      ensures out == order + Restrict(Subtree(elems, pred), LiveIds(elems))
      decreases IdsAbove(elems, pred)
    {
      out := order;
      var rest := ChildList(children, pred);
      ghost var d, all := elems, order + Restrict(Subtree(elems, pred), LiveIds(elems));
      ChildListIsKids(counter, elems, children, pred);
      KidsAreChildren(elems, pred);
      while rest != []
        invariant elems == d && ChildrenOf(d, pred, rest)
        invariant out + Restrict(Flatten(d, pred, rest), LiveIds(d)) == all
      {
        var child := rest[0];
        ghost var below, later := Restrict(Subtree(d, child), LiveIds(d)), Restrict(Flatten(d, pred, rest[1..]), LiveIds(d));
        ghost var head := if elems[child].deleted then [] else [child];
        assert out + (head + below + later) == all && child in d && Below(pred, child) && ChildrenOf(d, pred, rest[1..]) by {
          assert rest == [child] + rest[1..];
          WalkStep(d, pred, child, rest[1..]);
        }
        Regroup4(out, head, below, later);
        FewerAbove(d, pred, child);
        if !elems[child].deleted {
          out := out + [child];
        }
        out := WalkFrom(child, out);
        rest := rest[1..];
      }
    }

    method VisibleIds() returns (order: seq<Id>)
      requires Valid() && Grounded(elems)
      ensures order == Visible(elems)
    {
      order := WalkFrom(ROOT, []);
    }

    method ToList() returns (values: seq<T>)
      requires Valid() && Grounded(elems)
      ensures values == Text(elems)
    {
      var ids := VisibleIds();
      VisibleKnown(elems);
      values := Values(elems, ids);
    }

    // ---- Local editing -----------------------------------------------------------------

    /** A non-positive index inserts at the front; one past the end is the furthest allowed. */
    method Insert(index: int, value: T) returns (r: InsertResult)
      requires Valid() && Grounded(elems)
      modifies this
      ensures Valid() && Grounded(elems)
      ensures Here() == AfterInsert(nodeId, old(Here()), index, value)
      ensures r.IndexError? <==> index > |old(Text(elems))|
      ensures r.IndexError? ==> elems == old(elems) && counter == old(counter) && children == old(children)
      ensures r.Inserted? ==>
                && r.id == Id(counter, nodeId) && counter == old(counter) + 1
                && r.id !in old(elems)
                && elems == old(elems)[r.id := Elem(value, old(Predecessor(elems, if index < 0 then 0 else index)), false)]
                && Text(elems) == Spliced(old(Text(elems)), if index < 0 then 0 else index, value)
    {
      var visible := VisibleIds();
      if index > 0 && index - 1 >= |visible| {
        return IndexError;
      }
      var after := if index > 0 then visible[index - 1] else ROOT;
      ghost var before := elems;
      var id := NextId();
      ApplyInsert(id, value, after);
      InsertRefinesList(before, id, value, if index < 0 then 0 else index, elems);
      r := Inserted(id);
    }

    method Append(value: T) returns (r: InsertResult)
      requires Valid() && Grounded(elems)
      modifies this
      ensures Valid() && Grounded(elems)
      ensures r.Inserted? && Text(elems) == old(Text(elems)) + [value]
    {
      var visible := VisibleIds();
      VisibleKnown(elems);
      ghost var text := Text(elems);
      assert Spliced(text, |text|, value) == text + [value];
      r := Insert(|visible|, value);
    }

    method Delete(index: int) returns (r: DeleteResult)
      requires Valid() && Grounded(elems)
      modifies this`elems
      ensures Valid() && Grounded(elems)
      ensures Here() == AfterDelete(old(Here()), index)
      ensures r.NoSuchIndex? <==> index < 0 || index >= |old(Text(elems))|
      ensures r.NoSuchIndex? ==> elems == old(elems)
      ensures r.Deleted? ==>
                && r.id in old(elems) && elems == Tombstoned(old(elems), r.id)
                && Text(elems) == old(Text(elems))[..index] + old(Text(elems))[index + 1..]
    {
      var visible := VisibleIds();
      if index < 0 || index >= |visible| {
        return NoSuchIndex;
      }
      var eid := visible[index];
      DeleteRefinesList(elems, index);
      TombstoneIndexed(counter, elems, children, eid);
      elems := elems[eid := elems[eid].(deleted := true)];
      r := Deleted(eid);
    }

    // ---- Replication -------------------------------------------------------------------

    method MergeOne(eid: Id, oe: Elem<T>) returns (changed: bool)
      requires Valid()
      modifies this
      ensures Valid()
      ensures elems == MergeRound(old(elems), eid, oe)
      ensures counter == if eid in old(elems) || eid.counter < old(counter) then old(counter) else eid.counter
      ensures changed <==> elems != old(elems)
    {
      changed := false;
      if eid !in elems {
        ApplyInsert(eid, oe.value, oe.after);
        changed := true;
      }
      if oe.deleted && !elems[eid].deleted {
        TombstoneIndexed(counter, elems, children, eid);
        elems := elems[eid := elems[eid].(deleted := true)];
        changed := true;
      }
    }

    /** Takes over `other` in id order, and reports whether anything changed. */
    method MergeElems(other: Doc<T>) returns (changed: bool)
      requires Valid()
      modifies this
      ensures Valid()
      ensures elems == Merged(old(elems), other)
      ensures IsLeastBound(counter, old(counter), elems)
      ensures changed <==> elems != old(elems)
    {
      changed := false;
      ghost var before := elems;
      var todo := SortedIds(other.Keys);
      ghost var done: set<Id> := {};
      assert elems == Merged(before, Part(other, done));
      while todo != []
        invariant Valid()
        invariant Pending(other.Keys, done, todo)
        invariant elems == Merged(before, Part(other, done))
        invariant counter == old(counter) || (counter > old(counter) && exists x :: x in elems && x.counter == counter)
        invariant changed <==> elems != before
      {
        var eid := todo[0];
        PendingNext(other.Keys, done, todo);
        MergeRoundMerges(before, other, done, eid);
        var now := MergeOne(eid, other[eid]);
        changed := changed || now;
        done := done + {eid};
        todo := todo[1..];
      }
      assert Part(other, done) == other;
    }

    method Merge(other: Replica<T>) returns (changed: bool)
      requires Valid()
      modifies this
      ensures Valid()
      ensures elems == Merged(old(elems), old(other.elems))
      ensures IsLeastBound(counter, old(counter), elems)
      ensures Here() == AfterReceive(old(Here()), old(other.elems))
      ensures changed <==> elems != old(elems)
    {
      BoundUnique(old(counter), Merged(elems, other.elems));
      changed := MergeElems(other.elems);
    }

    method Digest() returns (recs: seq<Record<T>>)
      ensures FromRecords(recs) == elems
    {
      recs := [];
      var todo := elems.Keys;
      while todo != {}
        invariant todo <= elems.Keys
        invariant FromRecords(recs) == Part(elems, elems.Keys - todo)
      {
        var id :| id in todo;
        var e := elems[id];
        recs := recs + [Record(id, e.value, e.after, e.deleted)];
        todo := todo - {id};
        assert recs[..|recs| - 1] + [recs[|recs| - 1]] == recs;
        assert elems.Keys - todo == (elems.Keys - (todo + {id})) + {id};
      }
      assert Part(elems, elems.Keys) == elems;
    }

    method ApplyDigest(recs: seq<Record<T>>) returns (changed: bool)
      requires Valid()
      modifies this
      ensures Valid()
      ensures elems == Merged(old(elems), FromRecords(recs))
      ensures IsLeastBound(counter, old(counter), elems)
      ensures Here() == AfterReceive(old(Here()), FromRecords(recs))
      ensures changed <==> elems != old(elems)
    {
      var peer: Doc<T> := map[];
      for i := 0 to |recs|
        invariant peer == FromRecords(recs[..i])
      {
        assert recs[..i + 1][..i] == recs[..i];
        peer := peer[recs[i].id := Elem(recs[i].value, recs[i].after, recs[i].deleted)];
      }
      assert recs[..|recs|] == recs;
      BoundUnique(old(counter), Merged(elems, peer));
      changed := MergeElems(peer);
    }
  }
}
