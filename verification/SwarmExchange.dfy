/** Anti-entropy between the stores of a swarm: what any run leads to has readable texts when the
    names of the nodes hold no separator, whatever the keys are; and one bar in a name is enough for
    two stores that never meet. */
module SwarmExchange {
  import opened AntiEntropy
  import opened BucketText
  import opened Store
  import StoreSwarm

  lemma {:induction false} NamesKept<V>(s: StoreSwarm.Swarm<V>, events: seq<StoreSwarm.Event<V>>)
    ensures StoreSwarm.Run(s, events).nodes.Keys == s.nodes.Keys
    decreases |events|
  {
    if events != [] {
      NamesKept(StoreSwarm.Step(s, events[0]), events[1..]);
    }
  }

  ghost predicate CleanNames(names: set<string>) {
    forall n :: n in names ==> Clean(n)
  }

  /** An item of a reachable store is a write of the run. */
  lemma ItemMinted<V>(s: StoreSwarm.Swarm<V>, m: string, i: Item)
    requires StoreSwarm.Consistent(s) && m in s.nodes && i in AllItems(s.nodes[m].data)
    ensures i.key in s.nodes[m].data && s.nodes[m].data[i.key].version == i.version && s.nodes[m].data[i.key].deleted == i.deleted
    ensures i.version.origin in s.nodes
  {
    var d := s.nodes[m].data;
    assert StoreSwarm.Sourced(d, s.minted);
    var k :| 0 <= k < |s.minted| && s.minted[k] == StoreSwarm.Minting(i.key, d[i.key]);
    assert StoreSwarm.Bounded(s, s.minted[k]);
  }

  lemma SameVersionSameItem<V>(s: StoreSwarm.Swarm<V>, m: string, n: string, i: Item, j: Item)
    requires StoreSwarm.Consistent(s) && m in s.nodes && n in s.nodes
    requires i in AllItems(s.nodes[m].data) && j in AllItems(s.nodes[n].data) && i.version == j.version
    ensures i == j
  {
    ItemMinted(s, m, i);
    ItemMinted(s, n, j);
    StoreSwarm.SourcedCoherent(s.minted, s.nodes[m].data, s.nodes[n].data, i.key, j.key);
  }

  lemma ReachableSigned<V>(s: StoreSwarm.Swarm<V>, m: string, n: string)
    requires StoreSwarm.Consistent(s) && m in s.nodes && n in s.nodes && CleanNames(s.nodes.Keys)
    ensures Signed(AllItems(s.nodes[m].data) + AllItems(s.nodes[n].data))
  {
    var x, y := AllItems(s.nodes[m].data), AllItems(s.nodes[n].data);
    forall i: Item | i in x + y ensures Clean(i.version.origin) {
      ItemMinted(s, if i in x then m else n, i);
    }
    forall i: Item, j: Item | i in x + y && j in x + y && i.version == j.version ensures i == j {
      SameVersionSameItem(s, if i in x then m else n, if j in x then m else n, i, j);
    }
  }

  lemma ReachableCoherent<V>(s: StoreSwarm.Swarm<V>, m: string, n: string)
    requires StoreSwarm.Consistent(s) && m in s.nodes && n in s.nodes
    ensures Coherent(s.nodes[m].data, s.nodes[n].data)
  {
    var a, b := s.nodes[m].data, s.nodes[n].data;
    assert StoreSwarm.Sourced(a, s.minted) && StoreSwarm.Sourced(b, s.minted);
    forall k | k in a && k in b && a[k].version == b[k].version ensures a[k] == b[k] {
      StoreSwarm.SourcedCoherent(s.minted, a, b, k, k);
    }
  }

  /** In every reachable state of a swarm whose names hold no separator, whatever the keys: an
      exchange between two nodes leads both to the join, in every order of delivery, if and only if
      the hash has no collision among the texts of their buckets. */
  lemma ReachableExchangeConvergesIff<V, F(!new)>(names: set<string>, events: seq<StoreSwarm.Event<V>>, m: string, k: string,
                                                  hash: string -> nat, n: nat, show: real -> string, sha: string -> F)
    requires n > 0 && CleanNames(names) && m in names && k in names
    requires var s := StoreSwarm.Run(StoreSwarm.Init<V>(names), events);
             && m in s.nodes && k in s.nodes
             && Spells(show, AllItems(s.nodes[k].data) + AllItems(s.nodes[m].data))
    ensures var s := StoreSwarm.Run(StoreSwarm.Init<V>(names), events);
            var a, b := s.nodes[m].data, s.nodes[k].data;
            NoCollision(show, sha, b, a, hash, n) <==>
            forall es: seq<Delivery> :: var x := Deliveries(Start(a, b, hash, n, Print(show, sha)), es, hash, n, Print(show, sha));
              Drained(x) ==> x.a == Join(a, b) && x.b == Join(a, b)
  {
    var s0 := StoreSwarm.Init<V>(names);
    var s := StoreSwarm.Run(s0, events);
    StoreSwarm.RunConsistent(s0, events);
    NamesKept(s0, events);
    ReachableSigned(s, k, m);
    ReachableCoherent(s, m, k);
    ReachableCoherent(s, k, m);
    LegibleExchangeConvergesIff(s.nodes[m].data, s.nodes[k].data, hash, n, show, sha);
  }

  /** The failing case: the node `p` writes one key, and a node whose name has bars in it another,
      whose key and name together read like the first. Whatever the hash and the order of delivery,
      no exchange brings the two stores together. */
  lemma BarsKeepApart<V, F(!new)>(k: string, t: real, o: string, u: real, p: string, v: Option<V>, w: Option<V>,
                                  hash: string -> nat, show: real -> string, sha: string -> F, es: seq<Delivery>)
    requires t > 0.0 && u > 0.0
    ensures var q := o + "|" + show(u) + "|" + p;
            var key := k + "|" + show(t) + "|" + o;
            var s := StoreSwarm.Run(StoreSwarm.Init<V>({p, q}), [StoreSwarm.Set(p, key, v, u), StoreSwarm.Set(q, k, w, t)]);
            && p in s.nodes && q in s.nodes
            && s.nodes[p].data == map[key := Entry(v, Version(u, p), false)]
            && s.nodes[q].data == map[k := Entry(w, Version(t, q), false)]
            && var x := Deliveries(Start(s.nodes[p].data, s.nodes[q].data, hash, 1, Print(show, sha)), es, hash, 1, Print(show, sha));
               x.a != x.b
  {
    var q, key := o + "|" + show(u) + "|" + p, k + "|" + show(t) + "|" + o;
    BarsCollide(show, k, t, o, u, p);
    var i, j := Item(key, Version(u, p), false), Item(k, Version(t, q), false);
    TwoWrites(p, key, v, u, q, k, w, t);
    var a, b: Data<V> := map[key := Entry(v, Version(u, p), false)], map[k := Entry(w, Version(t, q), false)];
    ItemsOfOne(key, a[key], hash);
    ItemsOfOne(k, b[k], hash);
    assert Items(a, hash, 1, 0) == {i} && Items(b, hash, 1, 0) == {j};
    assert i in {i} && i !in {j};
    assert Confused(b, a, hash, 1, Print(show, sha), 0);
    ConfusedStaysApart(a, b, 0, es, hash, 1, Print(show, sha));
  }

  lemma ItemsOfOne<V>(k: string, e: Entry<V>, hash: string -> nat)
    ensures Items(map[k := e], hash, 1, 0) == {Item(k, e.version, e.deleted)}
  {
    assert hash(k) % 1 == 0;
    forall i ensures i in Items(map[k := e], hash, 1, 0) <==> i == Item(k, e.version, e.deleted) {
      assert k in map[k := e] && BucketOf(hash, 1, k) == 0;
    }
  }

  lemma TwoWrites<V>(p: string, key: string, v: Option<V>, u: real, q: string, k: string, w: Option<V>, t: real)
    requires p != q && t > 0.0 && u > 0.0
    ensures var s := StoreSwarm.Run(StoreSwarm.Init<V>({p, q}), [StoreSwarm.Set(p, key, v, u), StoreSwarm.Set(q, k, w, t)]);
            && p in s.nodes && q in s.nodes
            && s.nodes[p].data == map[key := Entry(v, Version(u, p), false)]
            && s.nodes[q].data == map[k := Entry(w, Version(t, q), false)]
  {
    var s0 := StoreSwarm.Init<V>({p, q});
    var e, f := StoreSwarm.Set(p, key, v, u), StoreSwarm.Set(q, k, w, t);
    var s1 := StoreSwarm.Step(s0, e);
    assert [e, f][1..] == [f] && [f][1..] == [];
    assert StoreSwarm.Run(s0, [e, f]) == StoreSwarm.Run(s1, [f]) == StoreSwarm.Run(StoreSwarm.Step(s1, f), []);
  }
}
