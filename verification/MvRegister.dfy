/** The multi-value register: a merge keeps exactly the causal maxima, so a replica always shows
    the latest of all the writes it has seen, concurrent ones side by side. */
module MvRegister {
  import opened Seqs
  import opened VectorClock

  datatype Version<V> = Version(value: V, clock: Clock)

  // ---- Causal maxima ---------------------------------------------------------------------

  ghost predicate Dominated<V(!new)>(x: Version<V>, s: set<Version<V>>) {
    exists y :: y in s && Precedes(x.clock, y.clock)
  }

  ghost function Maxima<V(!new)>(s: set<Version<V>>): set<Version<V>> {
    set x | x in s && !Dominated(x, s)
  }

  /** Whatever is dominated is dominated by a maximum. */
  lemma {:induction false} DominatedByMaximum<V(!new)>(x: Version<V>, s: set<Version<V>>)
    requires x in s && Dominated(x, s)
    ensures Dominated(x, Maxima(s))
    decreases |Above(x, s)|
  {
    var y :| y in s && Precedes(x.clock, y.clock);
    if Dominated(y, s) {
      AboveShrinks(x, y, s);
      DominatedByMaximum(y, s);
      var z :| z in Maxima(s) && Precedes(y.clock, z.clock);
      PrecedesTransitive(x.clock, y.clock, z.clock);
    } else {
      assert y in Maxima(s);
    }
  }

  ghost function Above<V>(x: Version<V>, s: set<Version<V>>): set<Version<V>> {
    set y | y in s && Precedes(x.clock, y.clock)
  }

  lemma AboveShrinks<V>(x: Version<V>, y: Version<V>, s: set<Version<V>>)
    requires y in s && Precedes(x.clock, y.clock)
    ensures |Above(y, s)| < |Above(x, s)|
  {
    forall z | z in Above(y, s) ensures z in Above(x, s) { PrecedesTransitive(x.clock, y.clock, z.clock); }
    assert y in Above(x, s) && y !in Above(y, s);
    var rest := Above(x, s) - {y};
    assert Above(y, s) <= rest;
    assert rest == Above(y, s) + (rest - Above(y, s));
  }

  /** Forgetting what is dominated early changes nothing. */
  lemma MaximaAbsorb<V(!new)>(s: set<Version<V>>, t: set<Version<V>>)
    ensures Maxima(Maxima(s) + t) == Maxima(s + t)
  {
    forall x ensures x in Maxima(Maxima(s) + t) <==> x in Maxima(s + t) {
      SameDominated(x, s, t);
      if x in s && x !in Maxima(s) && x !in t {
        assert Dominated(x, s + t);
      }
    }
  }

  lemma SameDominated<V(!new)>(x: Version<V>, s: set<Version<V>>, t: set<Version<V>>)
    ensures Dominated(x, Maxima(s) + t) <==> Dominated(x, s + t)
  {
    if Dominated(x, s + t) {
      var y :| y in s + t && Precedes(x.clock, y.clock);
      if y in s && Dominated(y, s) {
        DominatedByMaximum(y, s);
        var z :| z in Maxima(s) && Precedes(y.clock, z.clock);
        PrecedesTransitive(x.clock, y.clock, z.clock);
        assert z in Maxima(s) + t;
      } else {
        assert y in Maxima(s) + t;
      }
    }
  }

  // ---- The laws of merging ---------------------------------------------------------------

  ghost predicate Antichain<V(!new)>(s: set<Version<V>>) {
    Maxima(s) == s
  }

  lemma MergedIsAntichain<V(!new)>(s: set<Version<V>>)
    ensures Antichain(Maxima(s))
  {
    MaximaAbsorb(s, {});
    assert Maxima(s) + {} == Maxima(s) && s + {} == s;
  }

  ghost function Merged<V(!new)>(a: set<Version<V>>, b: set<Version<V>>): set<Version<V>> {
    Maxima(a + b)
  }

  lemma MergedCommutes<V(!new)>(a: set<Version<V>>, b: set<Version<V>>)
    ensures Merged(a, b) == Merged(b, a)
  {
    assert a + b == b + a;
  }

  lemma MergedAssociates<V(!new)>(a: set<Version<V>>, b: set<Version<V>>, c: set<Version<V>>)
    ensures Merged(Merged(a, b), c) == Merged(a, Merged(b, c))
  {
    MaximaAbsorb(a + b, c);
    MaximaAbsorb(b + c, a);
    assert (a + b) + c == (b + c) + a && Maxima(b + c) + a == a + Maxima(b + c);
  }

  lemma MergedIdempotent<V(!new)>(a: set<Version<V>>)
    requires Antichain(a)
    ensures Merged(a, a) == a
  {
    assert a + a == a;
  }

  // ---- The one-pass merge ----------------------------------------------------------------

  ghost function Elements<V>(s: seq<Version<V>>): set<Version<V>> {
    set x | x in s
  }

  lemma ElementsNext<V>(s: seq<Version<V>>, x: Version<V>)
    ensures Elements(s + [x]) == Elements(s) + {x}
  {
  }

  /** Whether the scan of `kept` stops at version `x`: it is there already, or dominated there. */
  ghost predicate StoppedBy<V>(x: Version<V>, k: Version<V>) {
    x == k || Precedes(x.clock, k.clock)
  }

  ghost predicate Stopped<V>(x: Version<V>, kept: seq<Version<V>>) {
    exists i :: 0 <= i < |kept| && StoppedBy(x, kept[i])
  }

  /** Compare `x` with each kept version; stop at the first that makes it superfluous, else
      collect the positions of those it dominates. */
  method Scan<V(==)>(x: Version<V>, kept: seq<Version<V>>) returns (superfluous: bool, toRemove: set<nat>)
    ensures superfluous <==> Stopped(x, kept)
    ensures !superfluous ==> forall i: nat :: i in toRemove <==> i < |kept| && Precedes(kept[i].clock, x.clock)
  {
    superfluous, toRemove := false, {};
    for i := 0 to |kept|
      invariant forall j :: 0 <= j < i ==> !StoppedBy(x, kept[j])
      invariant forall j: nat :: j in toRemove <==> j < i && Precedes(kept[j].clock, x.clock)
    {
      var k := kept[i];
      if x.value == k.value && x.clock == k.clock {
        assert StoppedBy(x, kept[i]);
        return true, toRemove;
      }
      var comp := Compare(x.clock, k.clock);
      if comp == Before {
        assert StoppedBy(x, kept[i]);
        return true, toRemove;
      } else if comp == After {
        toRemove := toRemove + {i};
      }
    }
  }

  function Kept<V>(kept: seq<Version<V>>, toRemove: set<nat>): seq<Version<V>> {
    if kept == [] then []
    else
      var n := |kept| - 1;
      Kept(kept[..n], toRemove) + if n in toRemove then [] else [kept[n]]
  }

  lemma {:induction false} KeptExact<V(!new)>(kept: seq<Version<V>>, toRemove: set<nat>)
    requires NoRepeats(kept)
    ensures NoRepeats(Kept(kept, toRemove))
    ensures forall y :: y in Kept(kept, toRemove) <==> exists i: nat :: i < |kept| && i !in toRemove && kept[i] == y
  {
    if kept != [] {
      var n := |kept| - 1;
      KeptExact(kept[..n], toRemove);
      forall y ensures y in Kept(kept, toRemove) <==> exists i: nat :: i < |kept| && i !in toRemove && kept[i] == y {
        if y in Kept(kept[..n], toRemove) {
          var i: nat :| i < n && i !in toRemove && kept[..n][i] == y;
          assert kept[i] == y;
        }
        if i: nat :| i < |kept| && i !in toRemove && kept[i] == y {
          assert i < n ==> kept[..n][i] == y;
        }
      }
      assert kept[n] !in Kept(kept[..n], toRemove);
    }
  }

  /** Below something dominated means dominated as well. */
  lemma BelowBelow<V(!new)>(s: set<Version<V>>, y: Version<V>, x: Version<V>, k: Version<V>)
    requires k in s && Precedes(x.clock, k.clock)
    ensures Precedes(y.clock, x.clock) ==> Dominated(y, s)
  {
    if Precedes(y.clock, x.clock) {
      PrecedesTransitive(y.clock, x.clock, k.clock);
    }
  }

  /** A version that is stopped adds nothing to the maxima. */
  lemma StoppedAddsNothing<V(!new)>(seen: set<Version<V>>, kept: seq<Version<V>>, x: Version<V>)
    requires Elements(kept) == Maxima(seen) && Stopped(x, kept)
    ensures Maxima(seen + {x}) == Maxima(seen)
  {
    var i :| 0 <= i < |kept| && StoppedBy(x, kept[i]);
    assert kept[i] in Elements(kept);
    if x == kept[i] {
      assert seen + {x} == seen;
    } else {
      assert Dominated(x, Maxima(seen) + {x});
      MaximaAbsorb(seen, {x});
      MergedIsAntichain(seen);
      forall y | y in Maxima(seen) ensures !Dominated(y, Maxima(seen) + {x}) {
        assert y in Maxima(Maxima(seen));
        BelowBelow(Maxima(seen), y, x, kept[i]);
      }
      assert Maxima(Maxima(seen) + {x}) == Maxima(seen);
    }
  }

  /** A version that is not stopped replaces exactly those it dominates. */
  lemma NotStoppedReplaces<V(!new)>(seen: set<Version<V>>, kept: seq<Version<V>>, x: Version<V>, left: seq<Version<V>>)
    requires Elements(kept) == Maxima(seen) && !Stopped(x, kept)
    requires forall y :: y in left <==> y in kept && !Precedes(y.clock, x.clock)
    ensures x !in left && Elements(left + [x]) == Maxima(seen + {x})
  {
    forall y | y in Maxima(seen) ensures !StoppedBy(x, y) {
      assert y in Elements(kept);
      var i :| 0 <= i < |kept| && kept[i] == y;
    }
    MaximaAbsorb(seen, {x});
    MergedIsAntichain(seen);
    ElementsNext(left, x);
    forall y ensures y in Maxima(Maxima(seen) + {x}) <==> y in Elements(left) + {x} {
      assert y in left <==> y in Maxima(seen) && !Precedes(y.clock, x.clock) by { assert y in kept <==> y in Elements(kept); }
      NewMaximum(Maxima(seen), x, y);
    }
  }

  lemma NewMaximum<V(!new)>(s: set<Version<V>>, x: Version<V>, y: Version<V>)
    requires Antichain(s) && forall z :: z in s ==> !StoppedBy(x, z)
    ensures y in Maxima(s + {x}) <==> y == x || (y in s && !Precedes(y.clock, x.clock))
  {
    if y in s {
      assert y in Maxima(s);
      assert Dominated(y, s + {x}) <==> Precedes(y.clock, x.clock);
    }
    assert !Dominated(x, s + {x});
  }

  /** The one-pass loop: without sorting or a second look, it keeps exactly the causal maxima of
      all versions on either side, each once. */
  method MergeVersions<V(==, !new)>(mine: seq<Version<V>>, theirs: seq<Version<V>>) returns (kept: seq<Version<V>>)
    ensures Elements(kept) == Merged(Elements(mine), Elements(theirs)) && NoRepeats(kept)
  {
    var combined := mine + theirs;
    kept := [];
    for i := 0 to |combined|
      invariant NoRepeats(kept) && Elements(kept) == Maxima(Elements(combined[..i]))
    {
      var x := combined[i];
      ghost var seen := Elements(combined[..i]);
      assert combined[..i + 1] == combined[..i] + [x];
      ElementsNext(combined[..i], x);
      var superfluous, toRemove := Scan(x, kept);
      if superfluous {
        StoppedAddsNothing(seen, kept, x);
      } else {
        ghost var before := kept;
        KeptExact(kept, toRemove);
        var left := Filter(kept, toRemove);
        LeftExact(before, toRemove, x, left);
        NotStoppedReplaces(seen, before, x, left);
        kept := left + [x];
      }
    }
    assert combined[..|combined|] == combined;
    assert Elements(combined) == Elements(mine) + Elements(theirs);
  }

  lemma LeftExact<V(!new)>(kept: seq<Version<V>>, toRemove: set<nat>, x: Version<V>, left: seq<Version<V>>)
    requires NoRepeats(kept) && left == Kept(kept, toRemove)
    requires forall i: nat :: i in toRemove <==> i < |kept| && Precedes(kept[i].clock, x.clock)
    ensures forall y :: y in left <==> y in kept && !Precedes(y.clock, x.clock)
  {
    KeptExact(kept, toRemove);
    forall y ensures y in left <==> y in kept && !Precedes(y.clock, x.clock) {
      if y in kept {
        var i: nat :| i < |kept| && kept[i] == y;
        assert i in toRemove <==> Precedes(y.clock, x.clock);
      }
    }
  }

  method Filter<V>(kept: seq<Version<V>>, toRemove: set<nat>) returns (left: seq<Version<V>>)
    ensures left == Kept(kept, toRemove)
  {
    left := [];
    for i := 0 to |kept|
      invariant left == Kept(kept[..i], toRemove)
    {
      assert kept[..i + 1][..i] == kept[..i];
      if i !in toRemove {
        left := left + [kept[i]];
      }
    }
    assert kept[..|kept|] == kept;
  }

  // ---- The register object ---------------------------------------------------------------

  class MVRegister<V(==, !new)> {
    const nodeId: string
    var vc: Clock
    var versions: seq<Version<V>>

    constructor (nodeId: string)
      ensures this.nodeId == nodeId && vc == map[] && versions == []
    {
      this.nodeId := nodeId;
      vc, versions := map[], [];
    }

    method Set(value: V)
      modifies this
      ensures vc == Increment(old(vc), nodeId) && Elements(versions) == {Version(value, vc)} && NoRepeats(versions)
    {
      vc := vc[nodeId := At(vc, nodeId) + 1];
      versions := [Version(value, vc)];
    }

    method Merge(other: MVRegister<V>)
      modifies this
      ensures Elements(versions) == Merged(Elements(old(versions)), Elements(old(other.versions))) && NoRepeats(versions)
      ensures vc == VectorClock.Merge(old(vc), old(other.vc))
    {
      var theirs, clock := other.versions, other.vc;
      versions := MergeVersions(versions, theirs);
      vc := MergeClocks(vc, clock);
    }

    /** A digest carries the peer's versions and clock; applying it is merging with the peer. */
    method ApplyDigest(theirs: seq<Version<V>>, clock: Clock)
      modifies this
      ensures Elements(versions) == Merged(Elements(old(versions)), Elements(theirs)) && NoRepeats(versions)
      ensures vc == VectorClock.Merge(old(vc), clock)
    {
      var peer := new MVRegister<V>("");
      peer.versions, peer.vc := theirs, clock;
      Merge(peer);
    }
  }

  // ---- Runs ------------------------------------------------------------------------------

  /** A replica, with the set of all writes that have reached it. */
  datatype Replica<V(==)> = Replica(clock: Clock, versions: set<Version<V>>, history: set<Version<V>>)

  datatype Event<V> = Write(n: string, value: V) | Pull(n: string, from: string)

  ghost function Step<V(!new)>(rs: map<string, Replica<V>>, e: Event<V>): map<string, Replica<V>> {
    if e.n !in rs || (e.Pull? && e.from !in rs) then rs
    else
      var r := rs[e.n];
      match e
      case Write(n, value) =>
        var clock := Increment(r.clock, n);
        rs[n := Replica(clock, {Version(value, clock)}, r.history + {Version(value, clock)})]
      case Pull(n, from) =>
        var p := rs[from];
        rs[n := Replica(VectorClock.Merge(r.clock, p.clock), Merged(r.versions, p.versions), r.history + p.history)]
  }

  ghost function Run<V(!new)>(rs: map<string, Replica<V>>, events: seq<Event<V>>): map<string, Replica<V>>
    decreases |events|
  {
    if events == [] then rs else Run(Step(rs, events[0]), events[1..])
  }

  ghost function Fresh<V(!new)>(names: set<string>): map<string, Replica<V>> {
    map n | n in names :: Replica(map[], {}, {})
  }

  /** A replica shows the maxima of what it has seen, and its clock covers all of it. */
  ghost predicate Faithful<V(!new)>(r: Replica<V>) {
    r.versions == Maxima(r.history) && Positive(r.clock) && forall x :: x in r.history ==> Leq(x.clock, r.clock)
  }

  lemma WriteFaithful<V(!new)>(r: Replica<V>, n: string, value: V)
    requires Faithful(r)
    ensures var x := Version(value, Increment(r.clock, n));
            Faithful(Replica(x.clock, {x}, r.history + {x}))
  {
    var x := Version(value, Increment(r.clock, n));
    IncrementRises(r.clock, n);
    assert At(r.clock, n) >= 0;
    forall h | h in r.history ensures Precedes(h.clock, x.clock) {
      LeqTransitive(h.clock, r.clock, x.clock);
      if Leq(x.clock, h.clock) {
        LeqTransitive(x.clock, h.clock, r.clock);
      }
    }
    var s := r.history + {x};
    forall y ensures y in Maxima(s) <==> y == x {
      if y in r.history {
        assert Precedes(y.clock, x.clock);
      }
      if Dominated(x, s) {
        var z :| z in s && Precedes(x.clock, z.clock);
        assert z in r.history ==> Precedes(z.clock, x.clock);
      }
    }
    assert Maxima(s) == {x};
  }

  lemma PullFaithful<V(!new)>(r: Replica<V>, p: Replica<V>)
    requires Faithful(r) && Faithful(p)
    ensures Faithful(Replica(VectorClock.Merge(r.clock, p.clock), Merged(r.versions, p.versions), r.history + p.history))
  {
    var m := VectorClock.Merge(r.clock, p.clock);
    MergePositive(r.clock, p.clock);
    forall x | x in r.history + p.history ensures Leq(x.clock, m) {
      if x in r.history {
        LeqTransitive(x.clock, r.clock, m);
      } else {
        LeqTransitive(x.clock, p.clock, m);
      }
    }
    MaximaAbsorb(r.history, p.versions);
    MaximaAbsorb(p.history, r.history);
    assert r.history + p.versions == p.versions + r.history && p.history + r.history == r.history + p.history;
  }

  ghost predicate AllFaithful<V(!new)>(rs: map<string, Replica<V>>) {
    forall n :: n in rs ==> Faithful(rs[n])
  }

  lemma {:induction false} RunFaithful<V(!new)>(rs: map<string, Replica<V>>, events: seq<Event<V>>)
    requires AllFaithful(rs)
    ensures AllFaithful(Run(rs, events)) && Run(rs, events).Keys == rs.Keys
    decreases |events|
  {
    if events != [] {
      var e := events[0];
      if e.n in rs {
        match e
        case Write(n, value) => WriteFaithful(rs[n], n, value);
        case Pull(n, from) =>
          if from in rs {
            PullFaithful(rs[n], rs[from]);
          }
      }
      RunFaithful(Step(rs, e), events[1..]);
    }
  }

  /** Over every run: each replica shows exactly the causal maxima of the writes that have reached
      it, so two replicas that the same writes have reached show the same versions. */
  lemma SameWritesSameVersions<V(!new)>(names: set<string>, events: seq<Event<V>>, a: string, b: string)
    requires a in names && b in names
    ensures var rs := Run(Fresh<V>(names), events);
            && a in rs && b in rs && rs[a].versions == Maxima(rs[a].history)
            && (rs[a].history == rs[b].history ==> rs[a].versions == rs[b].versions)
  {
    var start := Fresh<V>(names);
    forall n | n in start ensures Faithful(start[n]) {}
    RunFaithful(start, events);
    assert a in start && b in start;
    assert Faithful(Run(start, events)[a]) && Faithful(Run(start, events)[b]);
  }
}
