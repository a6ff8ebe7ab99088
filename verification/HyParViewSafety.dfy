/** The views of a HyParView node stay bounded, disjoint and reachable, whatever messages arrive. */
module HyParViewSafety {
  import opened HyParView
  import opened Seqs
  import opened Sums

  ghost predicate Reachable(me: Self, v: View) {
    && v.active + v.passive <= v.book.Keys && me.id !in v.book
    && forall n :: n in v.book ==> n != "" && v.book[n] != ""
  }

  ghost predicate Safe(c: Sizes, me: Self, v: View) {
    && |v.active| <= c.activeSize && |v.passive| <= c.passiveSize
    && v.active !! v.passive && Reachable(me, v)
  }

  ghost predicate Sized(c: Sizes) {
    c.activeSize >= 1 && c.passiveSize >= 1
  }

  lemma SafeExcludesSelf(c: Sizes, me: Self, v: View)
    requires Safe(c, me, v)
    ensures me.id !in v.active + v.passive
    ensures forall n :: n in v.active + v.passive ==> n in v.book
  {
    assert me.id in v.active + v.passive ==> me.id in v.book;
  }

  // ---- Moving between the views ----------------------------------------------------------

  lemma RecordedSafe(c: Sizes, me: Self, v: View, nid: string, addr: string)
    requires Safe(c, me, v)
    ensures Safe(c, me, Recorded(me, v, nid, addr))
  {
  }

  lemma PutSafe(c: Sizes, me: Self, v: View, nid: string, kept: set<string>)
    requires Safe(c, me, v) && nid in v.book && nid !in v.active && kept <= v.passive && |kept| < c.passiveSize
    ensures Safe(c, me, v.(passive := kept + {nid}))
  {
  }

  /** A peer put in the passive view is there afterwards, unless it is active or unknown. */
  lemma AddPassiveSafe(c: Sizes, me: Self, v: View, nid: string, r: Rng, k: nat)
    requires Safe(c, me, v) && Sized(c) && Fair(r)
    ensures var w := AddPassive(c, me, v, nid, r, k);
            && Safe(c, me, w) && w.active == v.active && w.book == v.book
            && (nid in v.book && nid !in v.active ==> nid in w.passive)
            && w.passive <= v.passive + {nid}
  {
    if !(nid == me.id || nid in v.active || nid in v.passive || nid !in v.book) {
      PutSafe(c, me, v, nid, if |v.passive| >= c.passiveSize then v.passive - {r.pick(k, v.passive)} else v.passive);
    }
  }

  /** Dropping makes room for one, and demotes and informs the peer dropped. */
  lemma DropActiveSafe(c: Sizes, me: Self, v: View, r: Rng, k: nat) returns (victim: string)
    requires Safe(c, me, v) && Sized(c) && Fair(r) && v.active != {}
    ensures var (w, sent) := DropRandomActive(c, me, v, r, k);
            && Safe(c, me, w) && w.book == v.book
            && victim in v.active && w.active == v.active - {victim} && victim in w.passive
            && w.passive <= v.passive + {victim}
            && sent == [Packet(v.book[victim], me.id, Disconnect(me.id))]
  {
    victim := r.pick(k, v.active);
    AddPassiveSafe(c, me, v.(active := v.active - {victim}), victim, r, k + 1);
  }

  /** A known peer becomes active; at most one other is dropped for it, to the passive view. */
  ghost predicate Activated(c: Sizes, me: Self, v: View, nid: string, w: View, sent: seq<Packet>) {
    && w.book == v.book && w.active <= v.active + {nid}
    && (nid in v.book ==> nid in w.active)
    && |v.active - w.active| <= 1 && v.active - w.active <= w.passive
    && if v.active <= w.active then sent == []
       else exists victim :: victim in v.active && victim in w.passive && victim in v.book
                             && sent == [Packet(v.book[victim], me.id, Disconnect(me.id))]
  }

  lemma AddActiveSafe(c: Sizes, me: Self, v: View, nid: string, r: Rng, k: nat)
    requires Safe(c, me, v) && Sized(c) && Fair(r)
    ensures var (w, sent) := AddActive(c, me, v, nid, r, k);
            Safe(c, me, w) && Activated(c, me, v, nid, w, sent)
  {
    if nid == me.id || nid in v.active || nid !in v.book {
    } else {
      var free := v.(passive := v.passive - {nid});
      Subset(free.passive, v.passive);
      if |v.active| >= c.activeSize {
        var victim := DropActiveSafe(c, me, free, r, k);
        Dropped(c, me, v, nid, victim, free, DropRandomActive(c, me, free, r, k).0);
      } else {
        assert v.active - (v.active + {nid}) == {};
      }
    }
  }

  lemma Dropped(c: Sizes, me: Self, v: View, nid: string, victim: string, free: View, w: View)
    requires Safe(c, me, v) && nid in v.book && nid !in v.active && victim in v.active
    requires free == v.(passive := v.passive - {nid})
    requires Safe(c, me, w) && w.book == v.book && w.active == v.active - {victim} && victim in w.passive
    requires w.passive <= free.passive + {victim}
    ensures var u := w.(active := w.active + {nid});
            Safe(c, me, u) && v.active - u.active == {victim}
  {
  }

  // ---- Handlers --------------------------------------------------------------------------

  lemma {:induction false} IntegrateSafe(c: Sizes, me: Self, v: View, nodes: seq<(string, string)>, r: Rng)
    requires Safe(c, me, v) && Sized(c) && Fair(r)
    ensures Safe(c, me, Integrate(c, me, v, nodes, r)) && Integrate(c, me, v, nodes, r).active == v.active
  {
    if nodes != [] {
      var n := |nodes| - 1;
      IntegrateSafe(c, me, v, nodes[..n], r);
      var w, nid, addr := Integrate(c, me, v, nodes[..n], r), nodes[n].0, nodes[n].1;
      RecordedSafe(c, me, w, nid, addr);
      AddPassiveSafe(c, me, Recorded(me, w, nid, addr), nid, r, 1 + n);
    }
  }

  lemma ForwardJoinSafe(c: Sizes, me: Self, v: View, src: string, nid: string, addr: string, ttl: int, r: Rng)
    requires Safe(c, me, v) && Sized(c) && Fair(r)
    ensures Safe(c, me, OnForwardJoin(c, me, v, src, nid, addr, ttl, r).0)
  {
    var known := Recorded(me, v, nid, addr);
    RecordedSafe(c, me, v, nid, addr);
    if ttl == 0 || |known.active| <= 1 {
      AddActiveSafe(c, me, known, nid, r, 0);
    } else {
      WalkSafe(c, me, known, nid, ttl, r);
    }
  }

  lemma WalkSafe(c: Sizes, me: Self, known: View, nid: string, ttl: int, r: Rng)
    requires Safe(c, me, known) && Sized(c) && Fair(r)
    ensures var w := if ttl == c.prwl then AddPassive(c, me, known, nid, r, 0) else known;
            Safe(c, me, w) && Safe(c, me, AddActive(c, me, w, nid, r, 1).0)
  {
    AddPassiveSafe(c, me, known, nid, r, 0);
    AddActiveSafe(c, me, if ttl == c.prwl then AddPassive(c, me, known, nid, r, 0) else known, nid, r, 1);
  }

  lemma KnownSafe(c: Sizes, me: Self, v: View, nid: string, addr: string, nodes: seq<(string, string)>, r: Rng)
    requires Safe(c, me, v) && Sized(c) && Fair(r)
    ensures var known := Recorded(me, v, nid, addr);
            && Safe(c, me, known) && Safe(c, me, AddActive(c, me, known, nid, r, 0).0)
            && Safe(c, me, AddPassive(c, me, known, nid, r, 0)) && Safe(c, me, Integrate(c, me, known, nodes, r))
  {
    var known := Recorded(me, v, nid, addr);
    RecordedSafe(c, me, v, nid, addr);
    AddActiveSafe(c, me, known, nid, r, 0);
    AddPassiveSafe(c, me, known, nid, r, 0);
    IntegrateSafe(c, me, known, nodes, r);
  }

  lemma DisconnectSafe(c: Sizes, me: Self, v: View, nid: string, r: Rng)
    requires Safe(c, me, v) && Sized(c) && Fair(r)
    ensures Safe(c, me, OnDisconnect(c, me, v, nid, r))
  {
    if nid in v.active {
      AddPassiveSafe(c, me, v.(active := v.active - {nid}), nid, r, 0);
    }
  }

  lemma JoinSafe(c: Sizes, me: Self, v: View, nid: string, addr: string, r: Rng)
    requires Safe(c, me, v) && Sized(c) && Fair(r)
    ensures Safe(c, me, OnJoin(c, me, v, nid, addr, r).0)
  {
    KnownSafe(c, me, v, nid, addr, [], r);
  }

  lemma NeighborSafe(c: Sizes, me: Self, v: View, nid: string, addr: string, flag: bool, r: Rng)
    requires Safe(c, me, v) && Sized(c) && Fair(r)
    ensures Safe(c, me, OnNeighbor(c, me, v, nid, addr, flag, r).0)
    ensures Safe(c, me, OnNeighborReply(c, me, v, nid, addr, flag, r).0)
  {
    KnownSafe(c, me, v, nid, addr, [], r);
  }

  lemma ShuffleSafe(c: Sizes, me: Self, v: View, src: string, nid: string, addr: string,
                    nodes: seq<(string, string)>, ttl: int, r: Rng)
    requires Safe(c, me, v) && Sized(c) && Fair(r)
    ensures Safe(c, me, OnShuffle(c, me, v, src, nid, addr, nodes, ttl, r).0)
    ensures Safe(c, me, OnShuffleReply(c, me, v, nid, addr, nodes, r))
  {
    KnownSafe(c, me, v, nid, addr, nodes, r);
  }

  lemma JoinsSafe(c: Sizes, me: Self, v: View, src: string, body: Body, r: Rng)
    requires Safe(c, me, v) && Sized(c) && Fair(r) && (body.Join? || body.ForwardJoin?)
    ensures Safe(c, me, Handled(c, me, v, src, body, r).0)
  {
    if body.Join? {
      JoinSafe(c, me, v, body.nid, body.addr, r);
    } else {
      ForwardJoinSafe(c, me, v, src, body.nid, body.addr, body.ttl, r);
    }
  }

  lemma ShufflesSafe(c: Sizes, me: Self, v: View, src: string, body: Body, r: Rng)
    requires Safe(c, me, v) && Sized(c) && Fair(r) && (body.Shuffle? || body.ShuffleReply?)
    ensures Safe(c, me, Handled(c, me, v, src, body, r).0)
  {
    if body.Shuffle? {
      ShuffleSafe(c, me, v, src, body.origin, body.originAddr, body.nodes, body.ttl, r);
    } else {
      ShuffleSafe(c, me, v, src, body.nid, body.addr, body.nodes, 0, r);
    }
  }

  lemma NeighborsSafe(c: Sizes, me: Self, v: View, src: string, body: Body, r: Rng)
    requires Safe(c, me, v) && Sized(c) && Fair(r) && (body.Neighbor? || body.NeighborReply? || body.Disconnect?)
    ensures Safe(c, me, Handled(c, me, v, src, body, r).0)
  {
    match body
    case Neighbor(nid, addr, high) => NeighborSafe(c, me, v, nid, addr, high, r);
    case NeighborReply(nid, addr, accepted) => NeighborSafe(c, me, v, nid, addr, accepted, r);
    case Disconnect(nid) => DisconnectSafe(c, me, v, nid, r);
  }

  lemma HandledSafe(c: Sizes, me: Self, v: View, src: string, body: Body, r: Rng)
    requires Safe(c, me, v) && Sized(c) && Fair(r)
    ensures Safe(c, me, Handled(c, me, v, src, body, r).0)
  {
    if body.Join? || body.ForwardJoin? {
      JoinsSafe(c, me, v, src, body, r);
    } else if body.Shuffle? || body.ShuffleReply? {
      ShufflesSafe(c, me, v, src, body, r);
    } else {
      NeighborsSafe(c, me, v, src, body, r);
    }
  }

  /** The peer was asked to become a neighbour. */
  ghost predicate Asked(me: Self, v: View, p: string, sent: seq<Packet>) {
    p in v.book && exists high :: Packet(v.book[p], me.id, Neighbor(me.id, me.address, high)) in sent
  }

  lemma AskedMore(me: Self, v: View, p: string, sent: seq<Packet>, more: seq<Packet>)
    requires Asked(me, v, p, sent)
    ensures Asked(me, v, p, sent + more) && Asked(me, v, p, more + sent)
  {
    var high :| Packet(v.book[p], me.id, Neighbor(me.id, me.address, high)) in sent;
    var x := Packet(v.book[p], me.id, Neighbor(me.id, me.address, high));
    assert x in sent + more && x in more + sent;
  }

  lemma PromotedSafe(c: Sizes, me: Self, v: View, r: Rng) returns (candidate: string)
    requires Safe(c, me, v) && Fair(r) && |v.active| < c.activeSize && v.passive != {}
    ensures var (w, sent) := Promoted(me, v, r);
            && Safe(c, me, w) && w.book == v.book && w.passive < v.passive
            && candidate in v.passive && w.active == v.active + {candidate}
            && w.active + w.passive == v.active + v.passive
            && |w.active| == |v.active| + 1 && |sent| == 1 && Asked(me, v, candidate, sent)
  {
    candidate := r.pick(|v.passive|, v.passive);
    var sent := Promoted(me, v, r).1;
    assert candidate in v.active + v.passive;
    assert sent == [Packet(v.book[candidate], me.id, Neighbor(me.id, me.address, v.active == {}))];
    assert sent[0] in sent;
  }

  /** The repair loop only moves peers from passive to active, until the view is full or nobody
      is left to ask; every peer moved is asked. */
  lemma {:induction false} RepairFills(c: Sizes, me: Self, v: View, r: Rng)
    requires Safe(c, me, v) && Fair(r)
    ensures var (w, sent) := Repair(c, me, v, r);
            && Safe(c, me, w) && w.book == v.book
            && v.active <= w.active && w.active + w.passive == v.active + v.passive
            && (|w.active| == c.activeSize || w.passive == {})
            && |sent| == |w.active| - |v.active|
            && forall p :: p in w.active - v.active ==> Asked(me, v, p, sent)
    decreases |v.passive|
  {
    if |v.active| < c.activeSize && v.passive != {} {
      var candidate := PromotedSafe(c, me, v, r);
      var (next, first) := Promoted(me, v, r);
      RepairFills(c, me, next, r);
      var (w, rest) := Repair(c, me, next, r);
      forall p | p in w.active - v.active ensures Asked(me, v, p, first + rest) {
        if p == candidate {
          AskedMore(me, v, p, first, rest);
        } else {
          assert Asked(me, next, p, rest);
          AskedMore(me, v, p, rest, first);
        }
      }
    }
  }

  lemma PruneSafe(c: Sizes, me: Self, v: View, alive: set<string>)
    requires Safe(c, me, v)
    ensures Safe(c, me, PruneDead(v, alive)) && PruneDead(v, alive).active + PruneDead(v, alive).passive <= alive
  {
    Subset(v.active * alive, v.active);
    Subset(v.passive * alive, v.passive);
  }

  // ---- Runs ------------------------------------------------------------------------------

  datatype Call = Arrival(src: string, body: Body, r: Rng) | Beat(r: Rng) | Dead(alive: set<string>)

  ghost predicate FairCall(e: Call) {
    e.Dead? || Fair(e.r)
  }

  ghost predicate FairCalls(calls: seq<Call>) {
    forall i :: 0 <= i < |calls| ==> FairCall(calls[i])
  }

  ghost function Called(c: Sizes, me: Self, v: View, e: Call): View
    requires FairCall(e)
  {
    match e
    case Arrival(src, body, r) => Handled(c, me, v, src, body, r).0
    case Beat(r) => Tick(c, me, v, r).0
    case Dead(alive) => PruneDead(v, alive)
  }

  ghost function Life(c: Sizes, me: Self, calls: seq<Call>): View
    requires FairCalls(calls)
  {
    if calls == [] then View({}, {}, map[])
    else Called(c, me, Life(c, me, calls[..|calls| - 1]), calls[|calls| - 1])
  }

  lemma {:induction false} LifeSafe(c: Sizes, me: Self, calls: seq<Call>)
    requires Sized(c) && FairCalls(calls)
    ensures Safe(c, me, Life(c, me, calls))
  {
    if calls != [] {
      var n := |calls| - 1;
      LifeSafe(c, me, calls[..n]);
      var v := Life(c, me, calls[..n]);
      assert FairCall(calls[n]);
      match calls[n]
      case Arrival(src, body, r) => HandledSafe(c, me, v, src, body, r);
      case Beat(r) => RepairFills(c, me, v, r);
      case Dead(alive) => PruneSafe(c, me, v, alive);
    }
  }

  /** In every state a node can get into, by any messages at all, its views are safe. */
  lemma ViewsAlwaysSafe(c: Sizes, me: Self, calls: seq<Call>)
    requires Sized(c) && FairCalls(calls)
    ensures var v := Life(c, me, calls);
            && |v.active| <= c.activeSize && |v.passive| <= c.passiveSize && v.active !! v.passive
            && me.id !in v.active + v.passive
            && forall n :: n in v.active + v.passive ==> n in v.book && v.book[n] != ""
  {
    LifeSafe(c, me, calls);
    SafeExcludesSelf(c, me, Life(c, me, calls));
  }

  /** With no room for even one active peer, the bound does break: the source adds regardless. */
  lemma NoRoomOverflows(c: Sizes, me: Self, nid: string, addr: string, r: Rng)
    requires c.activeSize <= 0 && nid != "" && addr != "" && nid != me.id
    ensures |OnJoin(c, me, View({}, {}, map[]), nid, addr, r).0.active| > c.activeSize
  {
    assert OnJoin(c, me, View({}, {}, map[]), nid, addr, r).0.active == {nid};
  }

  lemma OneJoinUnsafe(c: Sizes) returns (me: Self, calls: seq<Call>)
    requires c.activeSize <= 0
    ensures FairCalls(calls) && !Safe(c, me, Life(c, me, calls))
  {
    var join := Arrival("b", Join("b", "b"), SomeRng());
    me, calls := Self("a", "a"), [join];
    NoRoomOverflows(c, me, "b", "b", SomeRng());
    OneCall(c, me, join);
  }

  lemma OneCall(c: Sizes, me: Self, e: Call)
    requires FairCall(e)
    ensures FairCalls([e]) && Life(c, me, [e]) == Called(c, me, View({}, {}, map[]), e)
  {
    assert [e][..0] == [];
  }

  /** So the views are safe over all runs exactly when there is room for an active peer. */
  lemma ViewsAlwaysSafeIff(c: Sizes)
    requires c.passiveSize >= 1
    ensures (forall me: Self, calls: seq<Call> :: FairCalls(calls) ==> Safe(c, me, Life(c, me, calls))) <==> c.activeSize >= 1
  {
    if c.activeSize >= 1 {
      forall me: Self, calls: seq<Call> | FairCalls(calls) ensures Safe(c, me, Life(c, me, calls)) {
        LifeSafe(c, me, calls);
      }
    } else {
      var me, calls := OneJoinUnsafe(c);
    }
  }

  // ---- What the handlers are for ---------------------------------------------------------

  lemma {:induction false} SentAllExact(me: Self, v: View, peers: seq<string>, skip: string, body: Body)
    ensures forall p :: p in peers && p != skip && p in v.book ==> Packet(v.book[p], me.id, body) in SentAll(me, v, peers, skip, body)
  {
    if peers != [] {
      var n := |peers| - 1;
      SentAllExact(me, v, peers[..n], skip, body);
      assert peers == peers[..n] + [peers[n]];
    }
  }

  lemma SpreadsToAll(me: Self, w: View, nid: string, body: Body, r: Rng)
    requires Fair(r)
    ensures forall p :: p in w.active && p != nid && p in w.book ==>
                          Packet(w.book[p], me.id, body) in SentAll(me, w, r.walk(w.active), nid, body)
  {
    SentAllExact(me, w, r.walk(w.active), nid, body);
    assert Walks(r.walk(w.active), w.active);
  }

  /** A newcomer is made active and asked back, and every other active peer hears of it. */
  lemma JoinLinksAndSpreads(c: Sizes, me: Self, v: View, nid: string, addr: string, r: Rng)
    requires Safe(c, me, v) && Sized(c) && Fair(r) && nid != "" && addr != "" && nid != me.id
    ensures var (w, sent) := OnJoin(c, me, v, nid, addr, r);
            && nid in w.active && w.book[nid] == addr
            && Packet(addr, me.id, Neighbor(me.id, me.address, true)) in sent
            && forall p :: p in w.active && p != nid && p in w.book ==>
                             Packet(w.book[p], me.id, ForwardJoin(nid, addr, c.arwl)) in sent
  {
    var known := Recorded(me, v, nid, addr);
    RecordedSafe(c, me, v, nid, addr);
    AddActiveSafe(c, me, known, nid, r, 0);
    var w := AddActive(c, me, known, nid, r, 0).0;
    SpreadsToAll(me, w, nid, ForwardJoin(nid, addr, c.arwl), r);
  }

  /** The answer to a neighbour request is truthful: it says accepted exactly when the request had
      priority or there was room, and then the peer is active. */
  lemma ReplyIsTruthful(c: Sizes, me: Self, v: View, nid: string, addr: string, high: bool, r: Rng)
    requires Safe(c, me, v) && Sized(c) && Fair(r) && nid != "" && addr != "" && nid != me.id
    ensures var (w, sent) := OnNeighbor(c, me, v, nid, addr, high, r);
            var accepted := high || |v.active| < c.activeSize;
            && sent != [] && sent[|sent| - 1] == Packet(addr, me.id, NeighborReply(me.id, me.address, accepted))
            && (accepted ==> nid in w.active) && (!accepted ==> w.active == v.active)
  {
    RecordedSafe(c, me, v, nid, addr);
    AddActiveSafe(c, me, Recorded(me, v, nid, addr), nid, r, 0);
  }
}
