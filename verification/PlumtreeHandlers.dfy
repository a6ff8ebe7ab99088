/** Every handler, and the tick, keeps its node in order and is faithful to its neighbours. */
module PlumtreeHandlers {
  import opened Plumtree
  import opened PlumtreeSwarm
  import opened Seqs

  // ---- What is sent ----------------------------------------------------------------------

  lemma {:induction false} PushesExact(me: string, peers: seq<string>, mid: string, payload: string, skip: set<string>)
    ensures forall x :: x in Pushes(me, peers, mid, payload, skip) <==>
                          x == Gossip(me, x.dst, mid, payload) && x.dst in peers && x.dst !in skip
  {
    if peers != [] {
      var n := |peers| - 1;
      PushesExact(me, peers[..n], mid, payload, skip);
      assert peers == peers[..n] + [peers[n]];
    }
  }

  lemma {:induction false} AnnouncementsExact(peers: seq<string>, mid: string, skip: set<string>)
    ensures forall t :: t in Announcements(peers, mid, skip) <==> t.1 == mid && t.0 in peers && t.0 !in skip
  {
    if peers != [] {
      var n := |peers| - 1;
      AnnouncementsExact(peers[..n], mid, skip);
      assert peers == peers[..n] + [peers[n]];
    }
  }

  lemma {:induction false} QueuedIdsExact(queue: seq<(string, string)>, p: string)
    ensures forall m :: m in QueuedIds(queue, p) <==> (p, m) in queue
  {
    if queue != [] {
      var n := |queue| - 1;
      QueuedIdsExact(queue[..n], p);
      assert queue == queue[..n] + [queue[n]] && queue[n] == (queue[n].0, queue[n].1);
    }
  }

  lemma {:induction false} QueuedPeersExact(queue: seq<(string, string)>)
    ensures forall t :: t in queue ==> t.0 in QueuedPeers(queue)
    ensures forall p :: p in QueuedPeers(queue) ==> exists m :: (p, m) in queue
    ensures NoRepeats(QueuedPeers(queue))
  {
    if queue != [] {
      var n := |queue| - 1;
      QueuedPeersExact(queue[..n]);
      assert queue == queue[..n] + [queue[n]] && queue[n] == (queue[n].0, queue[n].1);
    }
  }

  lemma {:induction false} BatchesExact(me: string, queue: seq<(string, string)>, peers: seq<string>)
    ensures forall x :: x in Batches(me, queue, peers) <==>
                          x.Ihave? && x == Ihave(me, x.dst, QueuedIds(queue, x.dst)) && x.dst in peers
  {
    if peers != [] {
      var n := |peers| - 1;
      BatchesExact(me, queue, peers[..n]);
      assert peers == peers[..n] + [peers[n]];
    }
  }

  /** The flush announces the queue, all of it and nothing else. */
  lemma FlushedExact(me: string, queue: seq<(string, string)>)
    ensures forall x :: x in Flushed(me, queue) ==> x.Ihave? && x.src == me && forall m :: m in x.ids ==> (x.dst, m) in queue
    ensures forall x :: x in Flushed(me, queue) ==> exists m :: (x.dst, m) in queue
    ensures forall p, m :: (p, m) in queue ==> Announced(Flushed(me, queue), me, p, m)
  {
    QueuedPeersExact(queue);
    BatchesExact(me, queue, QueuedPeers(queue));
    forall p, m | (p, m) in queue ensures Announced(Flushed(me, queue), me, p, m) {
      QueuedIdsExact(queue, p);
      assert (p, m).0 in QueuedPeers(queue);
      assert Ihave(me, p, QueuedIds(queue, p)) in Flushed(me, queue);
    }
    forall x | x in Flushed(me, queue) ensures forall m :: m in x.ids ==> (x.dst, m) in queue {
      QueuedIdsExact(queue, x.dst);
    }
  }

  // ---- A message held for the first time -------------------------------------------------

  lemma RoomFor(s: Node, issued: map<string, string>, mid: string)
    requires CacheOk(s, issued) && mid in issued && mid !in s.received
    ensures |s.order| < |issued|
  {
    FewDistinct(s.order, issued.Keys - {mid});
  }

  /** The state of a node that records and spreads `mid`, with no eviction. */
  function Grown(s: Node, mid: string, payload: string, more: seq<(string, string)>): Node {
    s.(order := s.order + [mid], received := s.received[mid := payload],
       missing := s.missing - {mid}, ihaveFrom := s.ihaveFrom - {mid},
       queue := s.queue + more, delivered := s.delivered + [(mid, payload)])
  }

  lemma GrownOk(s: Node, nbrs: set<string>, issued: map<string, string>, mid: string, payload: string, more: seq<(string, string)>)
    requires NodeOk(s, nbrs, issued)
    requires mid in issued && mid !in s.received && issued[mid] == payload
    requires forall t :: t in more ==> t.0 in nbrs && t.1 == mid
    ensures NodeOk(Grown(s, mid, payload, more), nbrs, issued)
  {
    GrownCacheOk(s, issued, mid, payload, more);
  }

  lemma GrownCacheOk(s: Node, issued: map<string, string>, mid: string, payload: string, more: seq<(string, string)>)
    requires CacheOk(s, issued)
    requires mid in issued && mid !in s.received && issued[mid] == payload
    ensures CacheOk(Grown(s, mid, payload, more), issued)
  {
    var t := Grown(s, mid, payload, more);
    assert forall x :: x in t.order <==> x in s.order || x == mid;
  }

  lemma TellsWhenGrown(s: Node, n: string, nbrs: set<string>, got: set<Message>, t: Node, sent: seq<Message>,
                       mid: string, payload: string, es: seq<string>, ls: seq<string>, skip: set<string>)
    requires t.received == s.received[mid := payload]
    requires sent == Pushes(n, es, mid, payload, skip) && t.queue == s.queue + Announcements(ls, mid, skip)
    requires Walks(es, t.eager) && Walks(ls, t.lazy) && t.eager + t.lazy == nbrs
    requires forall p :: p in skip ==> exists x :: x in got && x.Gossip? && x.src == p && x.mid == mid
    ensures TellsAll(s, n, nbrs, got, t, sent) && KeepsQueue(s, n, t, sent)
    ensures forall x :: x in sent ==> Says(s, n, nbrs, t, x)
  {
    PushesExact(n, es, mid, payload, skip);
    AnnouncementsExact(ls, mid, skip);
    forall p, m | p in nbrs && m in t.received && m !in s.received
      ensures Told(n, p, m, t, sent) || exists x :: x in got && x.Gossip? && x.src == p && x.mid == m
    {
      if p !in skip {
        if p in t.eager {
          assert p in es && Gossip(n, p, mid, payload) in sent;
        } else {
          assert p in ls && (p, mid) in Announcements(ls, mid, skip);
        }
      }
    }
  }

  lemma NewGossipFaithful(s: Node, me: Setup, nbrs: set<string>, issued: map<string, string>, x: Message,
                          es: seq<string>, ls: seq<string>)
    requires NodeOk(s, nbrs, issued) && |issued| <= me.cap
    requires x.Gossip? && x.src in nbrs && x.mid in issued && x.payload == issued[x.mid] && x.mid !in s.received
    requires Walks(es, s.eager + {x.src}) && Walks(ls, s.lazy - {x.src})
    ensures var (t, sent) := OnGossip(s, me, x.src, x.mid, x.payload, es, ls);
            NodeOk(t, nbrs, issued) && Faithful(s, me.id, nbrs, {x}, t, sent)
  {
    var (t, sent) := OnGossip(s, me, x.src, x.mid, x.payload, es, ls);
    RoomFor(s, issued, x.mid);
    var linked := Eagerly(s, x.src);
    AnnouncementsExact(ls, x.mid, {x.src});
    assert t == Grown(linked, x.mid, x.payload, Announcements(ls, x.mid, {x.src}));
    assert NodeOk(linked, nbrs, issued);
    GrownOk(linked, nbrs, issued, x.mid, x.payload, Announcements(ls, x.mid, {x.src}));
    TellsWhenGrown(s, me.id, nbrs, {x}, t, sent, x.mid, x.payload, es, ls, {x.src});
    assert Takes(me.id, x, t, sent);
    assert forall q, m :: Candidate(t, q, m) ==> Candidate(s, q, m);
  }

  lemma TakenKeeps(s: Node, me: Setup, issued: map<string, string>, x: Message, es: seq<string>, ls: seq<string>)
    requires CacheOk(s, issued) && |issued| <= me.cap && x.Gossip? && x.mid in issued && x.mid !in s.received
    ensures var (t, sent) := OnGossip(s, me, x.src, x.mid, x.payload, es, ls);
            t.received == s.received[x.mid := x.payload] && t.queue == s.queue + Announcements(ls, x.mid, {x.src})
            && t.eager == s.eager + {x.src} && t.lazy == s.lazy - {x.src}
            && sent == Pushes(me.id, es, x.mid, x.payload, {x.src})
            && forall q, m :: Candidate(t, q, m) ==> Candidate(s, q, m)
  {
    RoomFor(s, issued, x.mid);
  }

  lemma SyncedIsNothing(s: Node, nbrs: set<string>)
    requires LinksOk(s, nbrs)
    ensures Synced(s, nbrs) == s
  {
    assert Synced(s, nbrs).eager == s.eager && Synced(s, nbrs).lazy == s.lazy;
  }

  lemma IssuedMore(s: Node, nbrs: set<string>, before: map<string, string>, mid: string, payload: string)
    requires NodeOk(s, nbrs, before) && mid !in before
    ensures NodeOk(s, nbrs, before[mid := payload]) && mid !in s.received && mid !in s.missing && mid !in s.ihaveFrom
  {
  }

  lemma BroadcastGrows(s: Node, me: Setup, nbrs: set<string>, mid: string, payload: string, es: seq<string>, ls: seq<string>)
    requires LinksOk(s, nbrs) && |s.order| < me.cap
    requires mid !in s.received && mid !in s.missing && mid !in s.ihaveFrom
    ensures Broadcast(s, me, nbrs, mid, payload, es, ls) ==
              (Grown(s, mid, payload, Announcements(ls, mid, {})), Pushes(me.id, es, mid, payload, {}))
  {
    SyncedIsNothing(s, nbrs);
    assert s.missing - {mid} == s.missing && s.ihaveFrom - {mid} == s.ihaveFrom;
  }

  lemma BroadcastFaithful(s: Node, me: Setup, nbrs: set<string>, before: map<string, string>, mid: string, payload: string,
                          es: seq<string>, ls: seq<string>)
    requires NodeOk(s, nbrs, before) && mid !in before && |before| < me.cap
    requires Walks(es, Synced(s, nbrs).eager) && Walks(ls, Synced(s, nbrs).lazy)
    ensures var (t, sent) := Broadcast(s, me, nbrs, mid, payload, es, ls);
            NodeOk(t, nbrs, before[mid := payload]) && Faithful(s, me.id, nbrs, {}, t, sent) && mid in t.received
  {
    IssuedMore(s, nbrs, before, mid, payload);
    RoomFor(s, before[mid := payload], mid);
    BroadcastGrows(s, me, nbrs, mid, payload, es, ls);
    SyncedIsNothing(s, nbrs);
    var more := Announcements(ls, mid, {});
    AnnouncementsExact(ls, mid, {});
    GrownOk(s, nbrs, before[mid := payload], mid, payload, more);
    var t := Grown(s, mid, payload, more);
    TellsWhenGrown(s, me.id, nbrs, {}, t, Pushes(me.id, es, mid, payload, {}), mid, payload, es, ls, {});
    GrownCandidates(s, mid, payload, more);
  }

  lemma GrownCandidates(s: Node, mid: string, payload: string, more: seq<(string, string)>)
    ensures forall q, m :: Candidate(Grown(s, mid, payload, more), q, m) <==> Candidate(s, q, m) && m != mid
  {
  }

  // ---- The other handlers ----------------------------------------------------------------

  lemma RepeatFaithful(s: Node, me: Setup, nbrs: set<string>, issued: map<string, string>, x: Message, es: seq<string>, ls: seq<string>)
    requires NodeOk(s, nbrs, issued) && x.Gossip? && x.src in nbrs && x.mid in s.received
    ensures var (t, sent) := OnGossip(s, me, x.src, x.mid, x.payload, es, ls);
            && NodeOk(t, nbrs, issued) && Faithful(s, me.id, nbrs, {x}, t, sent)
            && sent == [Prune(me.id, x.src)]
            && t == s.(eager := s.eager - {x.src}, lazy := s.lazy + {x.src})
  {
    var (t, sent) := OnGossip(s, me, x.src, x.mid, x.payload, es, ls);
    assert forall q, m :: Candidate(t, q, m) ==> Candidate(s, q, m);
  }

  lemma PruneFaithful(s: Node, n: string, nbrs: set<string>, issued: map<string, string>, x: Message)
    requires NodeOk(s, nbrs, issued) && x.Prune? && x.src in nbrs
    ensures NodeOk(OnPrune(s, x.src), nbrs, issued) && Faithful(s, n, nbrs, {x}, OnPrune(s, x.src), [])
  {
    assert forall q, m :: Candidate(OnPrune(s, x.src), q, m) ==> Candidate(s, q, m);
  }

  lemma GraftFaithful(s: Node, me: Setup, nbrs: set<string>, issued: map<string, string>, x: Message)
    requires NodeOk(s, nbrs, issued) && x.Graft? && x.src in nbrs
    ensures var (t, sent) := OnGraft(s, me, x.src, x.mid);
            NodeOk(t, nbrs, issued) && Faithful(s, me.id, nbrs, {x}, t, sent)
  {
    var (t, sent) := OnGraft(s, me, x.src, x.mid);
    assert forall q, m :: Candidate(t, q, m) ==> Candidate(s, q, m);
  }

  /** An announcement changes nothing but what is waited for, and forgets no candidate. */
  ghost predicate OnlyHears(s: Node, src: string, ids: seq<string>, t: Node) {
    && t == s.(missing := t.missing, ihaveFrom := t.ihaveFrom)
    && (forall q, m :: Candidate(t, q, m) <==> Candidate(s, q, m) || (q == src && m in ids && m !in s.received))
  }

  lemma {:induction false} IhaveHears(s: Node, nbrs: set<string>, issued: map<string, string>, src: string, ids: seq<string>)
    requires NodeOk(s, nbrs, issued) && forall m :: m in ids ==> m in issued
    ensures NodeOk(OnIhave(s, src, ids), nbrs, issued) && OnlyHears(s, src, ids, OnIhave(s, src, ids))
  {
    if ids != [] {
      var n := |ids| - 1;
      IhaveHears(s, nbrs, issued, src, ids[..n]);
      var b, t := OnIhave(s, src, ids[..n]), OnIhave(s, src, ids);
      assert ids == ids[..n] + [ids[n]];
      assert t == Heard(b, src, ids[n]);
      HeardOne(b, nbrs, issued, src, ids[n]);
      forall q, m ensures Candidate(t, q, m) <==> Candidate(s, q, m) || (q == src && m in ids && m !in s.received) {
        assert Candidate(b, q, m) <==> Candidate(s, q, m) || (q == src && m in ids[..n] && m !in s.received);
        assert m in ids <==> m in ids[..n] || m == ids[n];
      }
    }
  }

  lemma HeardOne(b: Node, nbrs: set<string>, issued: map<string, string>, src: string, mid: string)
    requires NodeOk(b, nbrs, issued) && mid in issued
    ensures var t := Heard(b, src, mid);
            NodeOk(t, nbrs, issued) && t == b.(missing := t.missing, ihaveFrom := t.ihaveFrom)
            && forall q, m :: Candidate(t, q, m) <==> Candidate(b, q, m) || (q == src && m == mid && mid !in b.received)
  {
  }

  lemma IhaveFaithful(s: Node, n: string, nbrs: set<string>, issued: map<string, string>, x: Message)
    requires NodeOk(s, nbrs, issued) && x.Ihave? && forall m :: m in x.ids ==> m in issued
    ensures var t := OnIhave(s, x.src, x.ids);
            NodeOk(t, nbrs, issued) && Faithful(s, n, nbrs, {x}, t, [])
  {
    IhaveHears(s, nbrs, issued, x.src, x.ids);
  }

  // ---- The tick --------------------------------------------------------------------------

  /** A repair sends grafts to candidates, and drops no candidate without one. */
  ghost predicate OnlyGrafts(s: Node, n: string, nbrs: set<string>, t: Node, sent: seq<Message>) {
    && t == s.(missing := t.missing, ihaveFrom := t.ihaveFrom, eager := t.eager, lazy := t.lazy)
    && t.missing.Keys == s.missing.Keys
    && (forall q, m :: Candidate(t, q, m) ==> Candidate(s, q, m))
    && (forall q, m :: Candidate(s, q, m) ==> Candidate(t, q, m) || Graft(n, q, m) in sent)
    && forall x :: x in sent ==> x.Graft? && x.src == n && Candidate(s, x.dst, x.mid)
  }

  ghost predicate CandidatesIn(s: Node, nbrs: set<string>) {
    forall q, m :: Candidate(s, q, m) ==> q in nbrs
  }

  lemma RepairedOne(s: Node, me: Setup, nbrs: set<string>, issued: map<string, string>, mid: string)
    requires NodeOk(s, nbrs, issued) && CandidatesIn(s, nbrs) && mid in s.missing
    ensures var (t, sent) := Repaired(s, me, mid);
            NodeOk(t, nbrs, issued) && OnlyGrafts(s, me.id, nbrs, t, sent)
  {
    if mid in s.ihaveFrom && s.ihaveFrom[mid] != [] {
      var from := s.ihaveFrom[mid];
      assert Candidate(s, from[0], mid);
      assert from == [from[0]] + from[1..];
    }
  }

  lemma {:induction false} RepairedAllFaithful(s: Node, me: Setup, nbrs: set<string>, issued: map<string, string>, mids: seq<string>)
    requires NodeOk(s, nbrs, issued) && CandidatesIn(s, nbrs)
    requires NoRepeats(mids) && forall m :: m in mids ==> m in s.missing
    ensures var (t, sent) := RepairedAll(s, me, mids);
            NodeOk(t, nbrs, issued) && OnlyGrafts(s, me.id, nbrs, t, sent)
  {
    if mids != [] {
      var n := |mids| - 1;
      RepairedAllFaithful(s, me, nbrs, issued, mids[..n]);
      var (b, sent) := RepairedAll(s, me, mids[..n]);
      assert CandidatesIn(b, nbrs);
      RepairedOne(b, me, nbrs, issued, mids[n]);
    }
  }

  lemma FlushSays(s: Node, n: string, nbrs: set<string>, t: Node, x: Message)
    requires QueueOk(s, nbrs) && x in Flushed(n, s.queue) && t.received == s.received
    ensures Says(s, n, nbrs, t, x)
  {
    FlushedExact(n, s.queue);
    var m :| (x.dst, m) in s.queue;
    assert (x.dst, m).0 in nbrs;
    forall i | i in x.ids ensures i in t.received { assert (x.dst, i).1 in s.received; }
  }

  lemma FlushKeeps(s: Node, n: string, t: Node, sent: seq<Message>)
    requires forall x :: x in Flushed(n, s.queue) ==> x in sent
    ensures KeepsQueue(s, n, t, sent)
  {
    FlushedExact(n, s.queue);
    forall p, m | (p, m) in s.queue ensures Announced(sent, n, p, m) {
      AnnouncedSent(Flushed(n, s.queue), sent, n, p, m);
    }
  }

  lemma EmptiedOk(s: Node, nbrs: set<string>, issued: map<string, string>)
    requires NodeOk(s, nbrs, issued)
    ensures NodeOk(s.(queue := []), nbrs, issued)
  {
  }

  lemma TickFaithful(s: Node, me: Setup, nbrs: set<string>, issued: map<string, string>, mids: seq<string>)
    requires NodeOk(s, nbrs, issued) && CandidatesIn(s, nbrs) && Walks(mids, s.missing.Keys)
    ensures var (t, sent) := Tick(s, me, nbrs, mids);
            NodeOk(t, nbrs, issued) && Faithful(s, me.id, nbrs, {}, t, sent)
  {
    SyncedIsNothing(s, nbrs);
    var f := s.(queue := []);
    EmptiedOk(s, nbrs, issued);
    assert forall q, m :: Candidate(f, q, m) <==> Candidate(s, q, m);
    RepairedAllFaithful(f, me, nbrs, issued, mids);
    TickParts(s, me, nbrs, f, RepairedAll(f, me, mids).0, RepairedAll(f, me, mids).1);
  }

  lemma TickParts(s: Node, me: Setup, nbrs: set<string>, f: Node, r: Node, grafts: seq<Message>)
    requires QueueOk(s, nbrs) && f == s.(queue := []) && CandidatesIn(s, nbrs) && OnlyGrafts(f, me.id, nbrs, r, grafts)
    ensures Faithful(s, me.id, nbrs, {}, r, Flushed(me.id, s.queue) + grafts)
  {
    var sent := Flushed(me.id, s.queue) + grafts;
    FlushKeeps(s, me.id, r, sent);
    forall q, m ensures Candidate(f, q, m) <==> Candidate(s, q, m) {}
    forall x | x in sent ensures Says(s, me.id, nbrs, r, x) {
      if x in Flushed(me.id, s.queue) {
        FlushSays(s, me.id, nbrs, r, x);
      } else {
        assert Candidate(f, x.dst, x.mid);
      }
    }
  }
}
