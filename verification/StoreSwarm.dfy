/** Whole runs of uniquely named stores that write, delete, collect garbage and gossip their
    digests. A published digest may arrive any number of times, in any order, or never. */
module StoreSwarm {
  import opened Store

  /** One version, the key it was written at and the entry it stands for. */
  datatype Minting<V> = Minting(key: string, entry: Entry<V>)

  /** `minted` records every local write of the run, oldest first. */
  datatype Swarm<V> = Swarm(nodes: map<string, Node<V>>, published: seq<Data<V>>, minted: seq<Minting<V>>)

  datatype Event<V> =
    | Set(node: string, key: string, value: Option<V>, now: real)
    | Delete(node: string, key: string, now: real)
    | Collect(node: string, now: real, minAge: real)
    | Publish(node: string)
    | Receive(node: string, index: nat)

  ghost function Init<V>(names: set<string>): Swarm<V> {
    Swarm(map n | n in names :: Node(map[], 0.0), [], [])
  }

  ghost function Raised<V>(name: string, highest: real, a: Data<V>, b: Data<V>): (top: real)
    ensures IsRaised(top, highest, name, a, b)
  {
    RaisedExists(name, highest, a, b, b.Keys);
    var top :| IsRaised(top, highest, name, a, b);
    top
  }

  lemma {:induction false} RaisedExists<V>(name: string, highest: real, a: Data<V>, b: Data<V>, ks: set<string>)
    requires ks <= b.Keys
    ensures exists top :: IsRaised(top, highest, name, a, Part(b, ks))
    ensures ks == b.Keys ==> Part(b, ks) == b
  {
    if ks == {} {
      assert IsRaised(highest, highest, name, a, Part(b, ks));
    } else {
      var k :| k in ks;
      RaisedExists(name, highest, a, b, ks - {k});
      var p, q := Part(b, ks - {k}), Part(b, ks);
      var t :| IsRaised(t, highest, name, a, p);
      assert forall j :: j != k ==> (TookOwn(name, a, q, j) <==> TookOwn(name, a, p, j));
      if TookOwn(name, a, q, k) && q[k].version.ts > t {
        assert IsRaised(q[k].version.ts, highest, name, a, q);
      } else {
        if t != highest {
          var j :| TookOwn(name, a, p, j) && p[j].version.ts == t;
          assert TookOwn(name, a, q, j);
        }
        assert IsRaised(t, highest, name, a, q);
      }
    }
  }

  ghost function Written<V>(s: Swarm<V>, name: string, key: string, e: Entry<V>): Swarm<V>
    requires name in s.nodes
  {
    var n := s.nodes[name];
    s.(nodes := s.nodes[name := Node(n.data[key := e], e.version.ts)], minted := s.minted + [Minting(key, e)])
  }

  ghost function WithData<V>(s: Swarm<V>, name: string, d: Data<V>): Swarm<V>
    requires name in s.nodes
  {
    var n := s.nodes[name];
    s.(nodes := s.nodes[name := Node(d, Raised(name, n.highest, n.data, d))])
  }

  ghost function Step<V>(s: Swarm<V>, e: Event<V>): Swarm<V> {
    if e.node !in s.nodes then s
    else
      var n := s.nodes[e.node];
      match e
      case Set(name, key, value, now) => Written(s, name, key, Stamped(name, n, value, false, now))
      case Delete(name, key, now) =>
        if key !in n.data then s else Written(s, name, key, Stamped(name, n, None, true, now))
      case Collect(name, now, minAge) => s.(nodes := s.nodes[name := n.(data := Kept(n.data, now, minAge))])
      case Publish(name) => s.(published := s.published + [n.data])
      case Receive(name, i) => if i < |s.published| then WithData(s, name, Join(n.data, s.published[i])) else s
  }

  /** A step of the swarm is what the call of the store object at its node leaves there. */
  lemma StepIsCall<V>(s: Swarm<V>, e: Event<V>)
    requires e.node in s.nodes && (e.Receive? ==> e.index < |s.published|)
    ensures Step(s, e).nodes.Keys == s.nodes.Keys
    ensures var n, n' := s.nodes[e.node], Step(s, e).nodes[e.node];
            match e
            case Set(name, key, value, now) => n' == AfterSet(name, n, key, value, now)
            case Delete(name, key, now) => n' == AfterDelete(name, n, key, now)
            case Collect(_, now, minAge) => n' == n.(data := Kept(n.data, now, minAge))
            case Publish(_) => n' == n && Step(s, e).published == s.published + [n.data]
            case Receive(name, i) => n'.data == Join(n.data, s.published[i]) && IsRaised(n'.highest, n.highest, name, n.data, n'.data)
  {
  }

  /** What is deleted is a tombstone above everything its node has produced; what is set is live. */
  lemma CallsShow<V>(name: string, n: Node<V>, key: string, value: Option<V>, now: real)
    ensures var w := AfterSet(name, n, key, value, now);
            && Contains(w.data, key) && w.data[key].value == value && w.data[key].version.origin == name
            && w.data[key].version.ts == w.highest > n.highest
            && forall k :: k != key ==> (k in w.data <==> k in n.data) && (k in n.data ==> w.data[k] == n.data[k])
    ensures var w := AfterDelete(name, n, key, now);
            && !Contains(w.data, key) && (key !in n.data ==> w == n)
            && (key in n.data ==> key in w.data && w.data[key].value.None? && w.data[key].version.ts == w.highest > n.highest)
            && forall k :: k != key ==> (k in w.data <==> k in n.data) && (k in n.data ==> w.data[k] == n.data[k])
  {
  }

  ghost function Run<V>(s: Swarm<V>, events: seq<Event<V>>): Swarm<V>
    decreases |events|
  {
    if events == [] then s else Run(Step(s, events[0]), events[1..])
  }

  // ---- No version is minted twice --------------------------------------------------------

  /** Every entry of `d` was written by somebody at that very key. */
  ghost predicate Sourced<V>(d: Data<V>, minted: seq<Minting<V>>) {
    forall k :: k in d ==> Minting(k, d[k]) in minted
  }

  ghost predicate Bounded<V>(s: Swarm<V>, m: Minting<V>) {
    var o := m.entry.version.origin;
    o in s.nodes && m.entry.version.ts <= s.nodes[o].highest
  }

  ghost predicate Consistent<V>(s: Swarm<V>) {
    && (forall i :: 0 <= i < |s.minted| ==> Bounded(s, s.minted[i]))
    && (forall i, j :: 0 <= i < j < |s.minted| ==> s.minted[i].entry.version != s.minted[j].entry.version)
    && (forall n :: n in s.nodes ==> Sourced(s.nodes[n].data, s.minted))
    && forall i :: 0 <= i < |s.published| ==> Sourced(s.published[i], s.minted)
  }

  lemma WriteStep<V>(s: Swarm<V>, name: string, key: string, e: Entry<V>)
    requires Consistent(s) && name in s.nodes
    requires e.version.origin == name && e.version.ts > s.nodes[name].highest
    ensures Consistent(Written(s, name, key, e))
  {
    var t := Written(s, name, key, e);
    assert forall m :: m in s.minted ==> m in t.minted;
    assert t.minted[|s.minted|] == Minting(key, e);
    forall i | 0 <= i < |t.minted| ensures Bounded(t, t.minted[i]) {
      if i < |s.minted| { assert t.minted[i] == s.minted[i] && Bounded(s, s.minted[i]); }
    }
    forall i, j | 0 <= i < j < |t.minted| ensures t.minted[i].entry.version != t.minted[j].entry.version {
      assert t.minted[i] == s.minted[i] && Bounded(s, s.minted[i]);
      if j < |s.minted| { assert t.minted[j] == s.minted[j]; }
    }
    forall n | n in t.nodes ensures Sourced(t.nodes[n].data, t.minted) {
      assert Sourced(s.nodes[n].data, s.minted);
    }
  }

  lemma DataStep<V>(s: Swarm<V>, name: string, n: Node<V>)
    requires Consistent(s) && name in s.nodes
    requires Sourced(n.data, s.minted) && n.highest >= s.nodes[name].highest
    ensures Consistent(s.(nodes := s.nodes[name := n]))
  {
    var t := s.(nodes := s.nodes[name := n]);
    forall i | 0 <= i < |t.minted| ensures Bounded(t, t.minted[i]) { assert Bounded(s, s.minted[i]); }
  }

  lemma StepConsistent<V>(s: Swarm<V>, e: Event<V>)
    requires Consistent(s)
    ensures Consistent(Step(s, e))
  {
    if e.node in s.nodes {
      var n := s.nodes[e.node];
      match e
      case Set(name, key, value, now) => WriteStep(s, name, key, Stamped(name, n, value, false, now));
      case Delete(name, key, now) =>
        if key in n.data { WriteStep(s, name, key, Stamped(name, n, None, true, now)); }
      case Collect(name, now, minAge) => DataStep(s, name, n.(data := Kept(n.data, now, minAge)));
      case Publish(name) =>
        assert forall i :: 0 <= i < |s.minted| ==> Bounded(s, s.minted[i]) ==> Bounded(Step(s, e), s.minted[i]);
      case Receive(name, i) =>
        if i < |s.published| {
          var d := Join(n.data, s.published[i]);
          DataStep(s, name, Node(d, Raised(name, n.highest, n.data, d)));
        }
    }
  }

  lemma {:induction false} RunConsistent<V>(s: Swarm<V>, events: seq<Event<V>>)
    requires Consistent(s)
    ensures Consistent(Run(s, events))
    decreases |events|
  {
    if events != [] {
      StepConsistent(s, events[0]);
      RunConsistent(Step(s, events[0]), events[1..]);
    }
  }

  /** Over a whole run no two writes carry the same version, so a version stands for one entry
      at one key wherever it turns up. */
  lemma NoVersionMintedTwice<V>(names: set<string>, events: seq<Event<V>>)
    ensures var s := Run(Init<V>(names), events);
            forall i, j :: 0 <= i < j < |s.minted| ==> s.minted[i].entry.version != s.minted[j].entry.version
  {
    RunConsistent(Init<V>(names), events);
  }

  lemma SourcedCoherent<V>(minted: seq<Minting<V>>, d: Data<V>, e: Data<V>, k: string, l: string)
    requires forall i, j :: 0 <= i < j < |minted| ==> minted[i].entry.version != minted[j].entry.version
    requires Sourced(d, minted) && Sourced(e, minted)
    requires k in d && l in e && d[k].version == e[l].version
    ensures k == l && d[k] == e[l]
  {
    var i :| 0 <= i < |minted| && minted[i] == Minting(k, d[k]);
    var j :| 0 <= j < |minted| && minted[j] == Minting(l, e[l]);
  }

  ghost predicate Published<V>(s: Swarm<V>, xs: seq<Data<V>>) {
    forall i :: 0 <= i < |xs| ==> xs[i] in s.published
  }

  /** In any reachable state, two replicas with the same data that merge the same published
      digests, in any order and with any repetitions, hold the same data. */
  lemma ReplicasConverge<V>(names: set<string>, events: seq<Event<V>>, m: string, n: string, xs: seq<Data<V>>, ys: seq<Data<V>>)
    requires var s := Run(Init<V>(names), events);
             && m in s.nodes && n in s.nodes && s.nodes[m].data == s.nodes[n].data
             && Published(s, xs) && forall x :: x in xs <==> x in ys
    ensures var s := Run(Init<V>(names), events);
            JoinAll(s.nodes[m].data, xs) == JoinAll(s.nodes[n].data, ys)
  {
    var s := Run(Init<V>(names), events);
    RunConsistent(Init<V>(names), events);
    var d := s.nodes[m].data;
    var all := [d] + xs;
    forall i | 0 <= i < |all| ensures Sourced(all[i], s.minted) {
      if i > 0 { assert all[i] == xs[i - 1] && xs[i - 1] in s.published; }
    }
    forall i, j | 0 <= i < |all| && 0 <= j < |all| ensures Coherent(all[i], all[j]) {
      forall k | k in all[i] && k in all[j] && all[i][k].version == all[j][k].version ensures all[i][k] == all[j][k] {
        SourcedCoherent(s.minted, all[i], all[j], k, k);
      }
    }
    SameDigestsSameStore(d, xs, ys);
  }

  ghost function Receipts<V>(name: string, picks: seq<nat>): seq<Event<V>> {
    if picks == [] then [] else [Receive(name, picks[0])] + Receipts(name, picks[1..])
  }

  ghost function Digests<V>(published: seq<Data<V>>, picks: seq<nat>): seq<Data<V>>
    requires forall i :: 0 <= i < |picks| ==> picks[i] < |published|
  {
    if picks == [] then [] else [published[picks[0]]] + Digests(published, picks[1..])
  }

  /** Receiving digests one after the other is the fold `JoinAll` of them, and never moves a
      node's stamp bound: nothing of its own can come back newer. */
  lemma {:induction false} ReceiveAll<V>(s: Swarm<V>, name: string, picks: seq<nat>)
    requires Consistent(s) && name in s.nodes && forall i :: 0 <= i < |picks| ==> picks[i] < |s.published|
    ensures var t := Run(s, Receipts(name, picks));
            name in t.nodes && t.nodes[name] == Node(JoinAll(s.nodes[name].data, Digests(s.published, picks)), s.nodes[name].highest)
    decreases |picks|
  {
    if picks != [] {
      var e, rest := Event<V>.Receive(name, picks[0]), Receipts<V>(name, picks[1..]);
      var t, x := Step(s, e), s.published[picks[0]];
      StepConsistent(s, e);
      OwnNeverNewer(s, name, picks[0]);
      ReceiveAll(t, name, picks[1..]);
      assert ([e] + rest)[1..] == rest;
      var xs := Digests(s.published, picks[1..]);
      assert ([x] + xs)[1..] == xs;
    }
  }

  lemma OwnNeverNewer<V>(s: Swarm<V>, name: string, i: nat)
    requires Consistent(s) && name in s.nodes && i < |s.published|
    ensures var n := s.nodes[name];
            Raised(name, n.highest, n.data, Join(n.data, s.published[i])) == n.highest
  {
    var n := s.nodes[name];
    var d := Join(n.data, s.published[i]);
    forall k | TookOwn(name, n.data, d, k) ensures d[k].version.ts <= n.highest {
      assert Minting(k, d[k]) in s.minted;
      var j :| 0 <= j < |s.minted| && s.minted[j] == Minting(k, d[k]);
      assert Bounded(s, s.minted[j]);
    }
  }
}
