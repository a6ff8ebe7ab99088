/** What each call of a HyParView node does: who ends up in which view, who is told, and what is
    passed on. A peer is `Named` when a message gives a name and an address that can be filed. */
module HyParViewEffects {
  import opened HyParView
  import opened HyParViewSafety
  import opened Seqs
  import opened Sums

  ghost predicate Named(me: Self, nid: string, addr: string) {
    nid != "" && addr != "" && nid != me.id
  }

  // ---- The book --------------------------------------------------------------------------

  /** A named peer is filed under its latest address; nameless ones, those without an address and
      the node itself are not, and nobody else's address changes. */
  lemma RecordedFiles(me: Self, v: View, nid: string, addr: string)
    ensures var w := Recorded(me, v, nid, addr);
            && w.active == v.active && w.passive == v.passive
            && (Named(me, nid, addr) ==> nid in w.book && w.book[nid] == addr)
            && (!Named(me, nid, addr) ==> w.book == v.book)
            && forall p :: p != nid ==> (p in w.book <==> p in v.book) && (p in v.book ==> w.book[p] == v.book[p])
  {
  }

  // ---- The passive view ------------------------------------------------------------------

  /** A peer that joins the passive view pushes at most one other out, and only out of a full
      view. */
  lemma PutEvictsAtMostOne(c: Sizes, me: Self, v: View, nid: string, r: Rng, k: nat)
    requires Safe(c, me, v) && Sized(c) && Fair(r)
    ensures var w := AddPassive(c, me, v, nid, r, k);
            && |v.passive - w.passive| <= 1
            && (|v.passive| < c.passiveSize || nid in v.passive + v.active || nid !in v.book ==> v.passive <= w.passive)
  {
    var w := AddPassive(c, me, v, nid, r, k);
    if !(v.passive <= w.passive) {
      var gone := r.pick(k, v.passive);
      assert v.passive - w.passive <= {gone};
      Subset(v.passive - w.passive, {gone});
    } else {
      assert v.passive - w.passive == {};
    }
  }

  /** While there is room, becoming active costs nobody the place. */
  lemma RoomCostsNobody(c: Sizes, me: Self, v: View, nid: string, r: Rng, k: nat)
    requires |v.active| < c.activeSize
    ensures var (w, sent) := AddActive(c, me, v, nid, r, k);
            && v.active <= w.active && sent == [] && v.passive - {nid} <= w.passive
  {
  }

  // ---- Answers to a neighbour request ----------------------------------------------------

  /** A peer that accepted is active afterwards. */
  lemma AcceptedIsActive(c: Sizes, me: Self, v: View, nid: string, addr: string, r: Rng)
    requires Safe(c, me, v) && Sized(c) && Fair(r) && Named(me, nid, addr)
    ensures var (w, sent) := OnNeighborReply(c, me, v, nid, addr, true, r);
            && nid in w.active && nid !in w.passive && w.book[nid] == addr
            && (|v.active| < c.activeSize || nid in v.active ==> v.active <= w.active && sent == [])
  {
    RecordedSafe(c, me, v, nid, addr);
    AddActiveSafe(c, me, Recorded(me, v, nid, addr), nid, r, 0);
  }

  /** A peer that refused becomes passive, unless it is active; nobody's link changes and nothing is
      sent. */
  lemma RefusedIsPassive(c: Sizes, me: Self, v: View, nid: string, addr: string, r: Rng)
    requires Safe(c, me, v) && Sized(c) && Fair(r) && Named(me, nid, addr)
    ensures var (w, sent) := OnNeighborReply(c, me, v, nid, addr, false, r);
            && w.active == v.active && sent == [] && w.book[nid] == addr
            && (nid !in v.active ==> nid in w.passive)
  {
    RecordedSafe(c, me, v, nid, addr);
    AddPassiveSafe(c, me, Recorded(me, v, nid, addr), nid, r, 0);
  }

  // ---- Leaving ---------------------------------------------------------------------------

  /** An active peer that disconnects is passive afterwards and active no more; a peer that was not
      active changes nothing. */
  lemma DisconnectedLeaves(c: Sizes, me: Self, v: View, nid: string, r: Rng)
    requires Safe(c, me, v) && Sized(c) && Fair(r)
    ensures var w := OnDisconnect(c, me, v, nid, r);
            && w.active == v.active - {nid} && nid !in w.active
            && (nid in v.active ==> nid in w.passive) && (nid !in v.active ==> w == v)
  {
    if nid in v.active {
      var u := v.(active := v.active - {nid});
      Subset(u.active, v.active);
      AddPassiveSafe(c, me, u, nid, r, 0);
    }
  }

  /** Pruning takes out the dead and leaves the living where they are. */
  lemma LivingStay(v: View, alive: set<string>, p: string)
    ensures var w := PruneDead(v, alive);
            && (p in w.active <==> p in v.active && p in alive) && (p in w.passive <==> p in v.passive && p in alive)
            && w.book == v.book
  {
  }

  // ---- The walk of a join ----------------------------------------------------------------

  /** Where the walk ends the newcomer becomes active and is asked, with priority, to link back. */
  lemma WalkEndsInLink(c: Sizes, me: Self, v: View, src: string, nid: string, addr: string, ttl: int, r: Rng)
    requires Safe(c, me, v) && Sized(c) && Fair(r) && Named(me, nid, addr) && (ttl == 0 || |v.active| <= 1)
    ensures var (w, sent) := OnForwardJoin(c, me, v, src, nid, addr, ttl, r);
            && nid in w.active && sent != [] && sent[|sent| - 1] == Packet(addr, me.id, Neighbor(me.id, me.address, true))
            && forall x :: x in sent ==> !x.body.ForwardJoin?
  {
    var known := Recorded(me, v, nid, addr);
    var (w, dropped) := AddActive(c, me, known, nid, r, 0);
    RecordedSafe(c, me, v, nid, addr);
    AddedTells(c, me, known, nid, r, 0);
    assert Sent(me, w, nid, Neighbor(me.id, me.address, true)) == [Packet(addr, me.id, Neighbor(me.id, me.address, true))];
    assert OnForwardJoin(c, me, v, src, nid, addr, ttl, r) == (w, dropped + [Packet(addr, me.id, Neighbor(me.id, me.address, true))]);
  }

  /** Making a peer active tells nobody anything but a peer dropped for it. */
  lemma AddedTells(c: Sizes, me: Self, v: View, nid: string, r: Rng, k: nat)
    requires Safe(c, me, v) && Sized(c) && Fair(r)
    ensures var (w, sent) := AddActive(c, me, v, nid, r, k);
            && w.book == v.book && (nid in v.book ==> nid in w.active)
            && forall x :: x in sent ==> x.body.Disconnect?
  {
    AddActiveSafe(c, me, v, nid, r, k);
  }

  /** Else it goes on to one active peer that is neither where it came from nor the newcomer, with
      one less to live; on the way the newcomer becomes passive exactly where the life is `prwl`. */
  lemma WalkPassesOn(c: Sizes, me: Self, v: View, src: string, nid: string, addr: string, ttl: int, r: Rng) returns (next: string)
    requires Safe(c, me, v) && Sized(c) && Fair(r) && Named(me, nid, addr)
    requires ttl != 0 && |v.active| > 1 && v.active - {src, nid} != {}
    ensures var (w, sent) := OnForwardJoin(c, me, v, src, nid, addr, ttl, r);
            && next in v.active && next != src && next != nid && next in v.book
            && sent == [Packet(v.book[next], me.id, ForwardJoin(nid, addr, ttl - 1))]
            && w.active == v.active
            && (ttl == c.prwl && nid !in v.active ==> nid in w.passive) && (ttl != c.prwl ==> w.passive == v.passive)
  {
    var known := Recorded(me, v, nid, addr);
    RecordedSafe(c, me, v, nid, addr);
    AddPassiveSafe(c, me, known, nid, r, 0);
    next := r.pick(1, v.active - {src, nid});
    assert next in v.active + v.passive;
  }

  /** And with nowhere to go the newcomer becomes active here. */
  lemma WalkStops(c: Sizes, me: Self, v: View, src: string, nid: string, addr: string, ttl: int, r: Rng)
    requires Safe(c, me, v) && Sized(c) && Fair(r) && Named(me, nid, addr)
    requires ttl != 0 && |v.active| > 1 && v.active - {src, nid} == {}
    ensures var (w, sent) := OnForwardJoin(c, me, v, src, nid, addr, ttl, r);
            && nid in w.active && forall x :: x in sent ==> x.body.Disconnect?
  {
    var known := Recorded(me, v, nid, addr);
    RecordedSafe(c, me, v, nid, addr);
    AddPassiveSafe(c, me, known, nid, r, 0);
    AddActiveSafe(c, me, if ttl == c.prwl then AddPassive(c, me, known, nid, r, 0) else known, nid, r, 1);
  }

  // ---- Shuffling -------------------------------------------------------------------------

  lemma {:induction false} AddressesExact(v: View, peers: seq<string>)
    ensures forall x :: x in WithAddresses(v, peers) <==> x.0 in peers && x.0 in v.book && v.book[x.0] == x.1 && x.1 != ""
    ensures |WithAddresses(v, peers)| <= |peers|
    ensures (forall p :: p in peers ==> p in v.book && v.book[p] != "") ==> |WithAddresses(v, peers)| == |peers|
  {
    if peers != [] {
      var n := |peers| - 1;
      AddressesExact(v, peers[..n]);
      assert peers == peers[..n] + [peers[n]];
      assert forall x: (string, string) :: x == (x.0, x.1);
    }
  }

  /** A sample shows known peers under their addresses, never the node itself: four of them, or all
      when there are no more. */
  lemma SampleShowsPeers(c: Sizes, me: Self, v: View, r: Rng)
    requires Safe(c, me, v) && Fair(r)
    ensures var nodes := Sampled(me, v, r);
            && (forall x :: x in nodes ==> x.0 in v.active + v.passive && x.0 != me.id && x.0 in v.book && x.1 == v.book[x.0])
            && |nodes| == (if |v.active + v.passive| <= 4 then |v.active + v.passive| else 4)
  {
    var pool := (v.active + v.passive) - {me.id};
    SafeExcludesSelf(c, me, v);
    assert pool == v.active + v.passive;
    var peers := if |pool| <= 4 then r.walk(pool) else r.sample(pool, 4);
    if |pool| <= 4 {
      WalkLength(peers, pool);
    } else {
      assert Samples(r.sample(pool, 4), pool, 4);
    }
    AddressesExact(v, peers);
  }

  /** A node with an active peer sends one of them a shuffle of its own, with the full life and its
      sample. */
  lemma ShuffleStarts(c: Sizes, me: Self, v: View, r: Rng) returns (p: string)
    requires Safe(c, me, v) && Fair(r)
    ensures v.active == {} ==> ShuffleOut(c, me, v, r) == []
    ensures v.active != {} ==>
              && p in v.active && p in v.book
              && ShuffleOut(c, me, v, r) == [Packet(v.book[p], me.id, Shuffle(me.id, me.address, Sampled(me, v, r), c.shuffleTtl))]
  {
    p := "";
    if v.active != {} {
      p := r.pick(0, v.active);
      assert p in v.active + v.passive;
    }
  }

  /** After a list of peers has been taken in, the active view is as it was, and whoever came last
      is known: in a view, and filed under the address given. */
  lemma IntegratedLast(c: Sizes, me: Self, v: View, nodes: seq<(string, string)>, r: Rng)
    requires Safe(c, me, v) && Sized(c) && Fair(r) && nodes != []
    requires Named(me, nodes[|nodes| - 1].0, nodes[|nodes| - 1].1)
    ensures var w, (nid, addr) := Integrate(c, me, v, nodes, r), nodes[|nodes| - 1];
            w.active == v.active && (nid in w.active || nid in w.passive) && nid in w.book && w.book[nid] == addr
  {
    var n := |nodes| - 1;
    var w, nid, addr := Integrate(c, me, v, nodes[..n], r), nodes[n].0, nodes[n].1;
    IntegrateSafe(c, me, v, nodes[..n], r);
    RecordedSafe(c, me, w, nid, addr);
    AddPassiveSafe(c, me, Recorded(me, w, nid, addr), nid, r, 1 + n);
  }

  /** Everyone named in the list has an address on file afterwards, and nobody else has a new one. */
  lemma {:induction false} IntegratedBook(c: Sizes, me: Self, v: View, nodes: seq<(string, string)>, r: Rng)
    ensures var w := Integrate(c, me, v, nodes, r);
            && (forall x :: x in nodes && Named(me, x.0, x.1) ==> x.0 in w.book)
            && (forall p :: p in v.book ==> p in w.book)
            && forall p :: (forall x :: x in nodes ==> x.0 != p) ==> (p in w.book <==> p in v.book) && (p in v.book ==> w.book[p] == v.book[p])
  {
    if nodes != [] {
      var n := |nodes| - 1;
      IntegratedBook(c, me, v, nodes[..n], r);
      assert nodes == nodes[..n] + [nodes[n]];
      forall p | forall x :: x in nodes ==> x.0 != p
        ensures var w := Integrate(c, me, v, nodes, r); (p in w.book <==> p in v.book) && (p in v.book ==> w.book[p] == v.book[p])
      {
        assert forall x :: x in nodes[..n] ==> x in nodes;
        assert nodes[n] in nodes;
      }
    }
  }

  lemma OneTakenIn(c: Sizes, me: Self, w: View, nid: string, addr: string, r: Rng, k: nat)
    requires Safe(c, me, w) && Sized(c) && Fair(r) && |w.passive| < c.passiveSize
    ensures var u := if nid == me.id then w else AddPassive(c, me, Recorded(me, w, nid, addr), nid, r, k);
            && Safe(c, me, u) && u.active == w.active && w.passive <= u.passive && |u.passive| <= |w.passive| + 1
            && (Named(me, nid, addr) ==> nid in u.active || nid in u.passive)
  {
    var known := Recorded(me, w, nid, addr);
    RecordedSafe(c, me, w, nid, addr);
    AddPassiveSafe(c, me, known, nid, r, k);
    PutEvictsAtMostOne(c, me, known, nid, r, k);
    Subset(AddPassive(c, me, known, nid, r, k).passive, w.passive + {nid});
  }

  ghost predicate Shown(me: Self, x: (string, string), w: View) {
    Named(me, x.0, x.1) ==> x.0 in w.active || x.0 in w.passive
  }

  ghost predicate AllShown(me: Self, nodes: seq<(string, string)>, w: View) {
    forall i :: 0 <= i < |nodes| ==> Shown(me, nodes[i], w)
  }

  lemma ShownNext(me: Self, before: seq<(string, string)>, x: (string, string), w: View, u: View)
    requires AllShown(me, before, w) && Shown(me, x, u) && u.active == w.active && w.passive <= u.passive
    ensures AllShown(me, before + [x], u)
  {
    forall i | 0 <= i < |before + [x]| ensures Shown(me, (before + [x])[i], u) {
      if i < |before| { assert Shown(me, before[i], w); }
    }
  }

  lemma IntegrateNext(c: Sizes, me: Self, v: View, before: seq<(string, string)>, x: (string, string), r: Rng)
    ensures var w := Integrate(c, me, v, before, r);
            Integrate(c, me, v, before + [x], r) ==
              if x.0 == me.id then w else AddPassive(c, me, Recorded(me, w, x.0, x.1), x.0, r, 1 + |before|)
  {
    assert (before + [x])[..|before|] == before;
  }

  /** While the passive view has room for all of them, every named peer of the list is in a view
      afterwards and nobody has left. */
  lemma {:induction false} IntegratedAll(c: Sizes, me: Self, v: View, nodes: seq<(string, string)>, r: Rng)
    requires Safe(c, me, v) && Sized(c) && Fair(r) && |v.passive| + |nodes| <= c.passiveSize
    ensures var w := Integrate(c, me, v, nodes, r);
            && Safe(c, me, w) && w.active == v.active && v.passive <= w.passive && |w.passive| <= |v.passive| + |nodes|
            && AllShown(me, nodes, w)
  {
    if nodes != [] {
      var before, x := nodes[..|nodes| - 1], nodes[|nodes| - 1];
      assert nodes == before + [x];
      IntegratedAll(c, me, v, before, r);
      var w := Integrate(c, me, v, before, r);
      OneTakenIn(c, me, w, x.0, x.1, r, 1 + |before|);
      IntegrateNext(c, me, v, before, x, r);
      ShownNext(me, before, x, w, Integrate(c, me, v, nodes, r));
    }
  }

  /** A shuffle with life left goes on to an active peer it did not come from, with one less and the
      same nodes; else the node answers its origin with a sample of its own, taken before the nodes
      of the shuffle. Either way those are taken in. */
  lemma ShufflePassesOrAnswers(c: Sizes, me: Self, v: View, src: string, origin: string, originAddr: string,
                               nodes: seq<(string, string)>, ttl: int, r: Rng) returns (next: string)
    requires Safe(c, me, v) && Sized(c) && Fair(r) && Named(me, origin, originAddr)
    ensures var (w, sent) := OnShuffle(c, me, v, src, origin, originAddr, nodes, ttl, r);
            var known := Recorded(me, v, origin, originAddr);
            && w == Integrate(c, me, known, nodes, r) && w.active == v.active
            && if ttl > 1 && v.active - {src} != {}
               then next in v.active && next != src && next in known.book
                    && sent == [Packet(known.book[next], me.id, Shuffle(origin, originAddr, nodes, ttl - 1))]
               else sent == [Packet(originAddr, me.id, ShuffleReply(me.id, me.address, Sampled(me, known, r)))]
  {
    var known := Recorded(me, v, origin, originAddr);
    RecordedSafe(c, me, v, origin, originAddr);
    IntegrateSafe(c, me, known, nodes, r);
    next := "";
    if ttl > 1 && v.active - {src} != {} {
      next := r.pick(0, known.active - {src});
      assert next in known.active + known.passive;
    }
  }

  /** The answer to a shuffle is taken in like one, and its sender filed. */
  lemma ReplyTakenIn(c: Sizes, me: Self, v: View, nid: string, addr: string, nodes: seq<(string, string)>, r: Rng)
    requires Safe(c, me, v) && Sized(c) && Fair(r)
    ensures var w, known := OnShuffleReply(c, me, v, nid, addr, nodes, r), Recorded(me, v, nid, addr);
            && w.active == v.active && (Named(me, nid, addr) ==> nid in w.book)
            && (nodes != [] && Named(me, nodes[|nodes| - 1].0, nodes[|nodes| - 1].1) ==>
                  var last := nodes[|nodes| - 1].0; (last in w.active || last in w.passive) && w.book[last] == nodes[|nodes| - 1].1)
  {
    var known := Recorded(me, v, nid, addr);
    RecordedSafe(c, me, v, nid, addr);
    IntegrateSafe(c, me, known, nodes, r);
    IntegratedBook(c, me, known, nodes, r);
    if nodes != [] && Named(me, nodes[|nodes| - 1].0, nodes[|nodes| - 1].1) {
      IntegratedLast(c, me, known, nodes, r);
    }
  }

  // ---- The tick --------------------------------------------------------------------------

  /** Only a node without an active peer asks with priority. */
  lemma AsksWithPriorityWhenAlone(c: Sizes, me: Self, v: View, r: Rng)
    requires Safe(c, me, v) && Fair(r) && v.passive != {}
    ensures var p := r.pick(|v.passive|, v.passive);
            p in v.book && Promoted(me, v, r).1 == [Packet(v.book[p], me.id, Neighbor(me.id, me.address, v.active == {}))]
  {
    var p := r.pick(|v.passive|, v.passive);
    assert p in v.active + v.passive;
  }

  /** A tick fills the active view first and then starts a shuffle from the views it has. */
  lemma TickRepairsThenShuffles(c: Sizes, me: Self, v: View, r: Rng)
    requires Safe(c, me, v) && Fair(r)
    ensures var (w, sent) := Tick(c, me, v, r);
            && Safe(c, me, w) && v.active <= w.active && (|w.active| == c.activeSize || w.passive == {})
            && (w.active == {} <==> v.active + v.passive == {} || c.activeSize <= 0)
            && (forall p :: p in w.active - v.active ==> Asked(me, v, p, sent))
            && (w.active != {} ==> sent != [] && sent[|sent| - 1].body.Shuffle? && sent[|sent| - 1].body.ttl == c.shuffleTtl)
  {
    RepairFills(c, me, v, r);
    var (w, asked) := Repair(c, me, v, r);
    var p := ShuffleStarts(c, me, w, r);
    forall q | q in w.active - v.active ensures Asked(me, v, q, asked + ShuffleOut(c, me, w, r)) {
      AskedMore(me, v, q, asked, ShuffleOut(c, me, w, r));
    }
  }
}
