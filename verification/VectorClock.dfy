/** Vector clocks: a counter per node, absent counters counting as zero. */
module VectorClock {

  type Clock = map<string, int>

  datatype Ordering = Before | After | Equal | Concurrent

  function At(c: Clock, k: string): int {
    if k in c then c[k] else 0
  }

  ghost predicate Leq(a: Clock, b: Clock) {
    forall k {:trigger At(a, k)} {:trigger At(b, k)} :: At(a, k) <= At(b, k)
  }

  /** `a` happened strictly before `b`. */
  ghost predicate Precedes(a: Clock, b: Clock) {
    Leq(a, b) && !Leq(b, a)
  }

  ghost function Compared(a: Clock, b: Clock): Ordering {
    if Leq(a, b) then if Leq(b, a) then Equal else Before
    else if Leq(b, a) then After else Concurrent
  }

  lemma LeqTransitive(a: Clock, b: Clock, c: Clock)
    requires Leq(a, b) && Leq(b, c)
    ensures Leq(a, c)
  {
    forall k ensures At(a, k) <= At(c, k) { assert At(a, k) <= At(b, k) <= At(c, k); }
  }

  lemma PrecedesTransitive(a: Clock, b: Clock, c: Clock)
    requires Precedes(a, b) && Precedes(b, c)
    ensures Precedes(a, c)
  {
    LeqTransitive(a, b, c);
    if Leq(c, a) {
      LeqTransitive(b, c, a);
    }
  }

  // ---- Counting up -----------------------------------------------------------------------

  function Increment(c: Clock, node: string): Clock {
    c[node := At(c, node) + 1]
  }

  lemma IncrementRises(c: Clock, node: string)
    ensures Precedes(c, Increment(c, node)) && At(Increment(c, node), node) - At(c, node) == 1
    ensures forall k :: k != node ==> At(Increment(c, node), k) == At(c, k)
  {
    assert At(Increment(c, node), node) > At(c, node);
  }

  // ---- Merging ---------------------------------------------------------------------------

  function Merge(a: Clock, b: Clock): Clock {
    map k | k in a.Keys + b.Keys :: if k in b && b[k] > At(a, k) then b[k] else At(a, k)
  }

  ghost predicate IsLub(a: Clock, b: Clock, m: Clock) {
    Leq(a, m) && Leq(b, m) && forall c: Clock :: Leq(a, c) && Leq(b, c) ==> Leq(m, c)
  }

  /** The clocks a swarm builds: every counter that is present has counted. */
  ghost predicate Positive(c: Clock) {
    forall k :: k in c ==> c[k] > 0
  }

  lemma MergeAt(a: Clock, b: Clock, k: string)
    ensures At(Merge(a, b), k) == if k in b && b[k] > At(a, k) then b[k] else At(a, k)
  {
  }

  /** Merging gives the least upper bound exactly when no counter of the left clock is negative
      without a counterpart on the right; so for all clocks that count. */
  lemma MergeIsLubIff(a: Clock, b: Clock)
    ensures IsLub(a, b, Merge(a, b)) <==> forall k :: k in a && k !in b ==> a[k] >= 0
  {
    var m := Merge(a, b);
    if forall k :: k in a && k !in b ==> a[k] >= 0 {
      forall k ensures At(a, k) <= At(m, k) && At(b, k) <= At(m, k) && (At(m, k) == At(a, k) || At(m, k) == At(b, k)) {
        MergeAt(a, b, k);
      }
      assert IsLub(a, b, m);
    } else {
      var k :| k in a && k !in b && a[k] < 0;
      MergeAt(a, b, k);
      assert At(b, k) > At(m, k);
    }
  }

  /** A failing pair: a counter below zero that the other clock does not have stays below zero. */
  lemma MergeOfNegative()
    ensures Merge(map["k" := -1], map[]) == map["k" := -1]
    ensures !Leq(map[], Merge(map["k" := -1], map[])) && !IsLub(map["k" := -1], map[], Merge(map["k" := -1], map[]))
  {
    assert At(map[], "k") > At(Merge(map["k" := -1], map[]), "k");
  }

  lemma SameClock(a: Clock, b: Clock)
    requires Positive(a) && Positive(b) && Leq(a, b) && Leq(b, a)
    ensures a == b
  {
    forall k ensures k in a <==> k in b { assert At(a, k) <= At(b, k) && At(b, k) <= At(a, k); }
    forall k | k in a ensures a[k] == b[k] { assert At(a, k) <= At(b, k) && At(b, k) <= At(a, k); }
  }

  lemma MergePositive(a: Clock, b: Clock)
    requires Positive(a) && Positive(b)
    ensures Positive(Merge(a, b)) && IsLub(a, b, Merge(a, b))
  {
    MergeIsLubIff(a, b);
  }

  lemma LubUnique(a: Clock, b: Clock, m: Clock, n: Clock)
    requires Positive(m) && Positive(n) && IsLub(a, b, m) && IsLub(a, b, n)
    ensures m == n
  {
    SameClock(m, n);
  }

  lemma MergeCommutes(a: Clock, b: Clock)
    requires Positive(a) && Positive(b)
    ensures Merge(a, b) == Merge(b, a)
  {
    MergePositive(a, b);
    MergePositive(b, a);
    LubUnique(a, b, Merge(a, b), Merge(b, a));
  }

  lemma MergeIdempotent(a: Clock)
    ensures Merge(a, a) == a
  {
  }

  lemma MergeAssociates(a: Clock, b: Clock, c: Clock)
    requires Positive(a) && Positive(b) && Positive(c)
    ensures Merge(Merge(a, b), c) == Merge(a, Merge(b, c))
  {
    MergePositive(a, b);
    MergePositive(b, c);
    MergePositive(Merge(a, b), c);
    MergePositive(a, Merge(b, c));
    var l, r := Merge(Merge(a, b), c), Merge(a, Merge(b, c));
    LeqTransitive(a, Merge(a, b), l);
    LeqTransitive(b, Merge(a, b), l);
    LeqTransitive(b, Merge(b, c), r);
    LeqTransitive(c, Merge(b, c), r);
    SameClock(l, r);
  }

  method MergeClocks(a: Clock, b: Clock) returns (m: Clock)
    ensures m == Merge(a, b)
  {
    m := a;
    var todo := b.Keys;
    while todo != {}
      invariant todo <= b.Keys
      invariant m.Keys == a.Keys + (b.Keys - todo)
      invariant forall k :: k in m ==> m[k] == if k in todo then a[k] else Merge(a, b)[k]
    {
      var k :| k in todo;
      todo := todo - {k};
      var cur := At(m, k);
      m := m[k := if b[k] > cur then b[k] else cur];
    }
    assert m.Keys == Merge(a, b).Keys;
  }

  // ---- Deciding --------------------------------------------------------------------------

  /** Some key of `keys` where `a` is below `b`. */
  ghost predicate BelowIn(a: Clock, b: Clock, keys: set<string>) {
    exists k :: k in keys && At(a, k) < At(b, k)
  }

  lemma NotBelowIsLeq(a: Clock, b: Clock)
    ensures BelowIn(b, a, a.Keys + b.Keys) <==> !Leq(a, b)
  {
    if !Leq(a, b) {
      var k :| At(a, k) > At(b, k);
      assert k in a.Keys + b.Keys;
    } else {
      forall k | k in a.Keys + b.Keys ensures !(At(b, k) < At(a, k)) { assert At(a, k) <= At(b, k); }
    }
  }

  lemma FlagsDecide(a: Clock, b: Clock)
    ensures var keys := a.Keys + b.Keys;
            Compared(a, b) ==
              if BelowIn(a, b, keys) then if BelowIn(b, a, keys) then Concurrent else Before
              else if BelowIn(b, a, keys) then After else Equal
  {
    NotBelowIsLeq(a, b);
    NotBelowIsLeq(b, a);
    assert a.Keys + b.Keys == b.Keys + a.Keys;
  }

  /** One pass over the left clock's keys and one over the rest, stopping as soon as both
      directions have been seen; it decides exactly the pointwise order. */
  method Compare(a: Clock, b: Clock) returns (o: Ordering)
    ensures o == Compared(a, b)
  {
    FlagsDecide(a, b);
    var isLess, isGreater := false, false;
    var todo := a.Keys;
    while todo != {}
      invariant todo <= a.Keys && !(isLess && isGreater)
      invariant isLess <==> BelowIn(a, b, a.Keys - todo)
      invariant isGreater <==> BelowIn(b, a, a.Keys - todo)
    {
      var k :| k in todo;
      Widen(a, b, a.Keys - todo, k);
      todo := todo - {k};
      assert a.Keys - todo == a.Keys - (todo + {k}) + {k};
      if At(a, k) < At(b, k) {
        isLess := true;
        if isGreater {
          return Concurrent;
        }
      } else if At(a, k) > At(b, k) {
        isGreater := true;
        if isLess {
          return Concurrent;
        }
      }
    }
    todo := b.Keys - a.Keys;
    while todo != {}
      invariant todo <= b.Keys - a.Keys && !(isLess && isGreater)
      invariant isLess <==> BelowIn(a, b, a.Keys + b.Keys - todo)
      invariant isGreater <==> BelowIn(b, a, a.Keys + b.Keys - todo)
    {
      var k :| k in todo;
      Widen(a, b, a.Keys + b.Keys - todo, k);
      todo := todo - {k};
      assert a.Keys + b.Keys - todo == a.Keys + b.Keys - (todo + {k}) + {k};
      if 0 < b[k] {
        isLess := true;
        if isGreater {
          return Concurrent;
        }
      } else if 0 > b[k] {
        isGreater := true;
        if isLess {
          return Concurrent;
        }
      }
    }
    o := if isLess then Before else if isGreater then After else Equal;
  }

  lemma Widen(a: Clock, b: Clock, keys: set<string>, k: string)
    ensures BelowIn(a, b, keys + {k}) <==> BelowIn(a, b, keys) || At(a, k) < At(b, k)
    ensures BelowIn(b, a, keys + {k}) <==> BelowIn(b, a, keys) || At(b, k) < At(a, k)
  {
  }
}
