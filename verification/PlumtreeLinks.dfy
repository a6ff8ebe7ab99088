/** What the calls of one node do to its links and when they speak: which peers become eager or lazy,
    what a first broadcast sends, in what order things are announced, and when a graft is due. */
module PlumtreeLinks {
  import opened Plumtree
  import opened PlumtreeSwarm
  import opened PlumtreeHandlers
  import opened Seqs

  // ---- Syncing ---------------------------------------------------------------------------

  /** A peer seen for the first time becomes eager, one that left is dropped, and the others stay
      as they are. */
  ghost predicate FollowsNeighbours(s: Node, current: set<string>, t: Node) {
    && (forall p :: p in current && p !in s.eager && p !in s.lazy ==> p in t.eager && p !in t.lazy)
    && (forall p :: p in current && p in s.eager && p !in s.lazy ==> p in t.eager && p !in t.lazy)
    && (forall p :: p in current && p in s.lazy && p !in s.eager ==> p in t.lazy && p !in t.eager)
    && forall p :: p !in current ==> p !in t.eager && p !in t.lazy
  }

  lemma SyncFollows(s: Node, current: set<string>)
    ensures FollowsNeighbours(s, current, Synced(s, current))
    ensures Synced(s, current) == s.(eager := Synced(s, current).eager, lazy := Synced(s, current).lazy)
  {
  }

  /** The first broadcast of a new node sends one full copy to each neighbour it has, and queues
      nothing. */
  lemma FirstBroadcastReaches(me: Setup, current: set<string>, mid: string, payload: string, es: seq<string>, ls: seq<string>)
    requires me.cap >= 1
    requires Walks(es, Synced(EMPTY, current).eager) && Walks(ls, Synced(EMPTY, current).lazy)
    ensures var (t, sent) := Broadcast(EMPTY, me, current, mid, payload, es, ls);
            && |sent| == |current| && (forall x :: x in sent <==> x == Gossip(me.id, x.dst, mid, payload) && x.dst in current)
            && t.queue == [] && t.eager == current && t.lazy == {}
            && t.received == map[mid := payload] && t.delivered == [(mid, payload)]
  {
    SyncFollows(EMPTY, current);
    PushesExact(me.id, es, mid, payload, {});
    PushesCount(me.id, es, mid, payload);
    assert Synced(EMPTY, current).eager == current && Synced(EMPTY, current).lazy == {};
    WalkLength(es, current);
    SomeIn(ls);
    assert [] + [mid] == [mid];
  }

  lemma {:induction false} PushesCount(me: string, peers: seq<string>, mid: string, payload: string)
    ensures |Pushes(me, peers, mid, payload, {})| == |peers|
  {
    if peers != [] { PushesCount(me, peers[..|peers| - 1], mid, payload); }
  }

  // ---- Links -----------------------------------------------------------------------------

  /** A graft makes the link eager again and is answered with the message, if held, and nothing
      else. */
  lemma GraftLinks(s: Node, me: Setup, src: string, mid: string)
    ensures var (t, sent) := OnGraft(s, me, src, mid);
            && src in t.eager && src !in t.lazy
            && (forall p :: p != src ==> (p in t.eager <==> p in s.eager) && (p in t.lazy <==> p in s.lazy))
            && (mid in s.received ==> sent == [Gossip(me.id, src, mid, s.received[mid])])
            && (mid !in s.received ==> sent == [])
  {
  }

  /** A prune makes the link lazy and touches no other. */
  lemma PruneLinks(s: Node, src: string)
    ensures var t := OnPrune(s, src);
            && src in t.lazy && src !in t.eager
            && forall p :: p != src ==> (p in t.eager <==> p in s.eager) && (p in t.lazy <==> p in s.lazy)
  {
  }

  /** Whoever sends a first copy is an eager neighbour afterwards, and the message is missing no
      more. */
  lemma FirstCopyLinks(s: Node, me: Setup, src: string, mid: string, payload: string, es: seq<string>, ls: seq<string>)
    requires mid !in s.received && me.cap >= 1
    ensures var t := OnGossip(s, me, src, mid, payload, es, ls).0;
            && src in t.eager && src !in t.lazy && mid !in t.missing && mid !in t.ihaveFrom
            && (forall p :: p != src ==> (p in t.eager <==> p in s.eager) && (p in t.lazy <==> p in s.lazy))
            && t.delivered == s.delivered + [(mid, payload)]
  {
  }

  // ---- Waiting and grafting --------------------------------------------------------------

  /** An announcement of an unknown message starts the wait at zero and puts its sender last among
      the candidates, once; a wait that is on goes on, and known messages are left alone. */
  lemma HeardWaits(s: Node, src: string, mid: string)
    ensures mid in s.received ==> Heard(s, src, mid) == s
    ensures mid !in s.received ==>
              var t := Heard(s, src, mid);
              && mid in t.missing && t.missing[mid] == (if mid in s.missing then s.missing[mid] else 0)
              && mid in t.ihaveFrom && src in t.ihaveFrom[mid]
              && (Candidate(s, src, mid) ==> t.ihaveFrom == s.ihaveFrom)
              && (!Candidate(s, src, mid) ==> |t.ihaveFrom[mid]| > 0 && t.ihaveFrom[mid][|t.ihaveFrom[mid]| - 1] == src)
              && (mid in s.ihaveFrom ==> s.ihaveFrom[mid] <= t.ihaveFrom[mid])
              && forall m :: m != mid ==> (m in t.missing <==> m in s.missing) && (m in t.ihaveFrom <==> m in s.ihaveFrom)
  {
  }

  /** The next round of waiting for a message brings the timeout. */
  ghost predicate Due(s: Node, timeout: int, mid: string)
    requires mid in s.missing
  {
    s.missing[mid] + 1 >= timeout
  }

  /** There is no graft before the timeout or without a candidate. When one is due it goes to the
      candidate that announced the message first, whose link becomes eager, and the wait starts
      again with the others. */
  lemma GraftWhenDue(s: Node, me: Setup, mid: string)
    requires mid in s.missing && mid !in s.received
    ensures var (t, sent) := Repaired(s, me, mid);
            var from := if mid in s.ihaveFrom then s.ihaveFrom[mid] else [];
            && (!Due(s, me.timeout, mid) || from == [] ==>
                  sent == [] && t.eager == s.eager && t.lazy == s.lazy && t.ihaveFrom == s.ihaveFrom
                  && mid in t.missing && t.missing[mid] == s.missing[mid] + 1)
            && (Due(s, me.timeout, mid) && from != [] ==>
                  sent == [Graft(me.id, from[0], mid)] && from[0] in t.eager && from[0] !in t.lazy
                  && mid in t.missing && t.missing[mid] == 0
                  && mid in t.ihaveFrom && [from[0]] + t.ihaveFrom[mid] == from)
            && forall m :: m != mid && m in s.missing ==> m in t.missing && t.missing[m] == s.missing[m]
  {
  }

  /** A message that has come in meanwhile is waited for no more, and nobody is asked for it. */
  lemma NoGraftForReceived(s: Node, me: Setup, mid: string)
    requires mid in s.received
    ensures Repaired(s, me, mid).1 == [] && Repaired(s, me, mid).0 == s.(missing := s.missing - {mid})
  {
  }

  // ---- Announcing ------------------------------------------------------------------------

  /** The ids for a peer come in the order they were queued: stretch by stretch. */
  lemma {:induction false} QueuedIdsConcat(a: seq<(string, string)>, b: seq<(string, string)>, p: string)
    ensures QueuedIds(a + b, p) == QueuedIds(a, p) + QueuedIds(b, p)
    ensures forall m, q :: QueuedIds([(q, m)], p) == if q == p then [m] else []
  {
    forall m, q ensures QueuedIds([(q, m)], p) == if q == p then [m] else [] { assert [(q, m)][..0] == []; }
    if b == [] {
      assert a + b == a;
    } else {
      var n := |b| - 1;
      assert (a + b)[..|a + b| - 1] == a + b[..n];
      QueuedIdsConcat(a, b[..n], p);
    }
  }

  /** A peer queued later is served later: more announcements only add peers at the end. */
  lemma {:induction false} QueuedPeersGrow(a: seq<(string, string)>, b: seq<(string, string)>)
    ensures QueuedPeers(a) <= QueuedPeers(a + b)
  {
    if b == [] {
      assert a + b == a;
    } else {
      var n := |b| - 1;
      assert (a + b)[..|a + b| - 1] == a + b[..n];
      QueuedPeersGrow(a, b[..n]);
    }
  }

  /** One batch per peer, in that order, with all that was queued for it. */
  lemma {:induction false} BatchAt(me: string, queue: seq<(string, string)>, peers: seq<string>, i: nat)
    requires i < |peers|
    ensures |Batches(me, queue, peers)| == |peers|
    ensures Batches(me, queue, peers)[i] == Ihave(me, peers[i], QueuedIds(queue, peers[i]))
  {
    var n := |peers| - 1;
    if n > 0 { BatchAt(me, queue, peers[..n], if i < n then i else 0); }
  }

  // ---- The tick --------------------------------------------------------------------------

  lemma {:induction false} RepairLinks(s: Node, me: Setup, mids: seq<string>)
    ensures var (t, sent) := RepairedAll(s, me, mids);
            && t.queue == s.queue && t.received == s.received && t.delivered == s.delivered
            && (forall x :: x in sent ==> x.Graft? && x.src == me.id && x.dst in t.eager && x.dst !in t.lazy)
            && forall p :: (forall x :: x in sent ==> x.dst != p) ==> (p in t.eager <==> p in s.eager) && (p in t.lazy <==> p in s.lazy)
  {
    if mids != [] {
      var n := |mids| - 1;
      var (b, sent) := RepairedAll(s, me, mids[..n]);
      var (t, more) := Repaired(b, me, mids[n]);
      RepairLinks(s, me, mids[..n]);
      OneRepairLinks(b, me, mids[n]);
      forall p | forall x :: x in sent + more ==> x.dst != p
        ensures (p in t.eager <==> p in s.eager) && (p in t.lazy <==> p in s.lazy)
      {
        assert forall x :: x in sent ==> x in sent + more;
        assert forall x :: x in more ==> x in sent + more;
      }
    }
  }

  lemma OneRepairLinks(s: Node, me: Setup, mid: string)
    ensures var (t, sent) := Repaired(s, me, mid);
            && t.queue == s.queue && t.received == s.received && t.delivered == s.delivered
            && (forall x :: x in sent ==> x.Graft? && x.src == me.id && x.dst in t.eager && x.dst !in t.lazy)
            && (forall p :: p in s.eager && p !in s.lazy ==> p in t.eager && p !in t.lazy)
            && forall p :: (forall x :: x in sent ==> x.dst != p) ==> (p in t.eager <==> p in s.eager) && (p in t.lazy <==> p in s.lazy)
  {
    var (t, sent) := Repaired(s, me, mid);
    if sent != [] { assert sent[0] in sent; }
  }

  /** A tick follows the neighbours there are, except for peers it grafts, and leaves nothing
      queued: all of it is announced. */
  lemma TickFollows(s: Node, me: Setup, current: set<string>, mids: seq<string>, p: string)
    requires forall x :: x in Tick(s, me, current, mids).1 ==> x.Graft? ==> x.dst != p
    ensures var t := Tick(s, me, current, mids).0;
            && t.queue == []
            && (p in t.eager <==> p in Synced(s, current).eager) && (p in t.lazy <==> p in Synced(s, current).lazy)
            && (p in current && p !in s.eager && p !in s.lazy ==> p in t.eager && p !in t.lazy)
            && (p !in current ==> p !in t.eager && p !in t.lazy)
  {
    SyncFollows(s, current);
    var f := Synced(s, current).(queue := []);
    RepairLinks(f, me, mids);
    forall x | x in RepairedAll(f, me, mids).1 ensures x.dst != p { assert x in Tick(s, me, current, mids).1; }
  }
}
