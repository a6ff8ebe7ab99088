/** Plumtree traffic is bounded: every delivery uses up weight that only a broadcast supplies. */
module PlumtreeCost {
  import opened Plumtree
  import opened PlumtreeSwarm
  import opened PlumtreeHandlers
  import opened PlumtreeRuns
  import opened Seqs
  import opened Sums

  function Weight(x: Message): nat {
    match x
    case Prune(_, _) => 1
    case Gossip(_, _, _, _) => 2
    case Graft(_, _, _) => 3
    case Ihave(_, _, ids) => 1 + 5 * |ids|
  }

  function NetWeight(net: seq<Message>): nat {
    if net == [] then 0 else NetWeight(net[..|net| - 1]) + Weight(net[|net| - 1])
  }

  ghost function Candidates(s: Node): set<(string, string)> {
    set m, q | m in s.ihaveFrom && q in s.ihaveFrom[m] :: (q, m)
  }

  ghost function Lacking(s: Node, issued: map<string, string>): nat {
    |issued.Keys - s.received.Keys|
  }

  /** What a node may still send: for each message it lacks, each announcement queued, each
      candidate to graft. */
  ghost function NodeWeight(s: Node, nbrs: set<string>, issued: map<string, string>): nat {
    7 * Times(|nbrs|, Lacking(s, issued)) + 7 * |s.queue| + 4 * |Candidates(s)|
  }

  ghost function Weights(c: Config, g: World): map<string, int> {
    map n | n in g.nodes && n in c.nbrs :: NodeWeight(g.nodes[n], c.nbrs[n], g.issued)
  }

  ghost function TotalWeight(c: Config, g: World): int {
    SumOf(Weights(c, g)) + NetWeight(g.net)
  }

  // ---- Weights of messages ---------------------------------------------------------------

  lemma {:induction false} NetWeightConcat(a: seq<Message>, b: seq<Message>)
    ensures NetWeight(a + b) == NetWeight(a) + NetWeight(b)
  {
    if b == [] {
      assert a + b == a;
    } else {
      var n := |b| - 1;
      assert (a + b)[..|a + b| - 1] == a + b[..n];
      NetWeightConcat(a, b[..n]);
    }
  }

  lemma NetWeightWithout(net: seq<Message>, i: nat)
    requires i < |net|
    ensures NetWeight(net) == NetWeight(net[..i] + net[i + 1..]) + Weight(net[i])
  {
    SplitAt(net, i);
    NetWeightParts(net[..i], net[i], net[i + 1..]);
  }

  lemma NetWeightParts(a: seq<Message>, x: Message, b: seq<Message>)
    ensures NetWeight((a + [x]) + b) == NetWeight(a + b) + Weight(x)
  {
    NetWeightConcat(a, b);
    NetWeightConcat(a + [x], b);
    NetWeightLast(a, x);
  }

  lemma NetWeightLast(a: seq<Message>, x: Message)
    ensures NetWeight(a + [x]) == NetWeight(a) + Weight(x)
  {
    assert (a + [x])[..|a|] == a;
  }

  lemma {:induction false} PushesWeight(me: string, peers: seq<string>, mid: string, payload: string, skip: set<string>)
    ensures NetWeight(Pushes(me, peers, mid, payload, skip)) <= 2 * |peers|
  {
    if peers != [] {
      var n := |peers| - 1;
      PushesWeight(me, peers[..n], mid, payload, skip);
      NetWeightConcat(Pushes(me, peers[..n], mid, payload, skip), if peers[n] in skip then [] else [Gossip(me, peers[n], mid, payload)]);
    }
  }

  lemma {:induction false} AnnouncementsCount(peers: seq<string>, mid: string, skip: set<string>)
    ensures |Announcements(peers, mid, skip)| <= |peers|
  {
    if peers != [] {
      AnnouncementsCount(peers[..|peers| - 1], mid, skip);
    }
  }

  // ---- The flush -------------------------------------------------------------------------

  /** How many announcements are queued for `peers`. */
  function Queued(queue: seq<(string, string)>, peers: seq<string>): nat {
    if peers == [] then 0
    else Queued(queue, peers[..|peers| - 1]) + |QueuedIds(queue, peers[|peers| - 1])|
  }

  lemma {:induction false} QueuedNext(queue: seq<(string, string)>, t: (string, string), peers: seq<string>)
    requires NoRepeats(peers)
    ensures Queued(queue + [t], peers) == Queued(queue, peers) + if t.0 in peers then 1 else 0
  {
    if peers != [] {
      var n := |peers| - 1;
      QueuedNext(queue, t, peers[..n]);
      assert (queue + [t])[..|queue|] == queue && peers == peers[..n] + [peers[n]];
    }
  }

  lemma {:induction false} QueuedNone(peers: seq<string>)
    ensures Queued([], peers) == 0
  {
    if peers != [] {
      QueuedNone(peers[..|peers| - 1]);
    }
  }

  lemma {:induction false} QueuedAtMost(queue: seq<(string, string)>, peers: seq<string>)
    requires NoRepeats(peers)
    ensures Queued(queue, peers) <= |queue|
  {
    if queue == [] {
      QueuedNone(peers);
    } else {
      var n := |queue| - 1;
      QueuedAtMost(queue[..n], peers);
      QueuedNext(queue[..n], queue[n], peers);
      assert queue == queue[..n] + [queue[n]];
    }
  }

  lemma {:induction false} BatchesWeight(me: string, queue: seq<(string, string)>, peers: seq<string>)
    ensures NetWeight(Batches(me, queue, peers)) == |peers| + 5 * Queued(queue, peers)
    ensures |Batches(me, queue, peers)| == |peers|
  {
    if peers != [] {
      var n := |peers| - 1;
      BatchesWeight(me, queue, peers[..n]);
      NetWeightConcat(Batches(me, queue, peers[..n]), [Ihave(me, peers[n], QueuedIds(queue, peers[n]))]);
    }
  }

  lemma {:induction false} QueuedPeersCount(queue: seq<(string, string)>)
    ensures |QueuedPeers(queue)| <= |queue|
  {
    if queue != [] {
      QueuedPeersCount(queue[..|queue| - 1]);
    }
  }

  lemma FlushWeight(me: string, queue: seq<(string, string)>)
    ensures NetWeight(Flushed(me, queue)) + |Flushed(me, queue)| <= 7 * |queue|
  {
    QueuedPeersExact(queue);
    QueuedPeersCount(queue);
    QueuedAtMost(queue, QueuedPeers(queue));
    BatchesWeight(me, queue, QueuedPeers(queue));
  }

  // ---- Handlers --------------------------------------------------------------------------

  lemma FewerCandidates(s: Node, t: Node)
    requires forall q, m :: Candidate(t, q, m) ==> Candidate(s, q, m)
    ensures |Candidates(t)| <= |Candidates(s)|
  {
    forall z | z in Candidates(t) ensures z in Candidates(s) { assert Candidate(s, z.0, z.1); }
    Subset(Candidates(t), Candidates(s));
  }

  lemma LacksOneLess(s: Node, t: Node, issued: map<string, string>, mid: string, payload: string)
    requires t.received == s.received[mid := payload] && mid in issued && mid !in s.received
    ensures Lacking(t, issued) == Lacking(s, issued) - 1
  {
    assert issued.Keys - t.received.Keys == (issued.Keys - s.received.Keys) - {mid};
  }

  lemma WalksCount(es: seq<string>, ls: seq<string>, t: Node, nbrs: set<string>)
    requires Walks(es, t.eager) && Walks(ls, t.lazy) && LinksOk(t, nbrs)
    ensures |es| + |ls| == |nbrs|
  {
    WalkLength(es, t.eager);
    WalkLength(ls, t.lazy);
  }

  /** One message less to lack pays for its announcements and its copies. */
  lemma LackingPays(s: Node, t: Node, nbrs: set<string>, issued: map<string, string>, announced: nat, pushed: nat, eager: nat, lazy: nat)
    requires eager + lazy == |nbrs| && pushed <= 2 * eager && announced <= lazy
    requires |t.queue| == |s.queue| + announced && |Candidates(t)| <= |Candidates(s)|
    requires Lacking(s, issued) == Lacking(t, issued) + 1
    ensures NodeWeight(t, nbrs, issued) + pushed <= NodeWeight(s, nbrs, issued)
  {
    OneLessPays(|nbrs|, Lacking(t, issued), |s.queue|, announced, pushed, |Candidates(s)|, |Candidates(t)|, eager, lazy);
  }

  lemma OneLessPays(links: nat, left: nat, queued: nat, announced: nat, pushed: nat, before: nat, after: nat, eager: nat, lazy: nat)
    requires eager + lazy == links && pushed <= 2 * eager && announced <= lazy && after <= before
    ensures 7 * Times(links, left) + 7 * (queued + announced) + 4 * after + pushed <= 7 * Times(links, left + 1) + 7 * queued + 4 * before
  {
    assert Times(links, left + 1) == links + Times(links, left);
  }

  /** Spreading a message costs no more than lacking it weighed. */
  lemma SpreadWeight(s: Node, n: string, nbrs: set<string>, issued: map<string, string>, t: Node,
                     mid: string, payload: string, es: seq<string>, ls: seq<string>, skip: set<string>)
    requires mid in issued && mid !in s.received && t.received == s.received[mid := payload]
    requires t.queue == s.queue + Announcements(ls, mid, skip)
    requires Walks(es, t.eager) && Walks(ls, t.lazy) && LinksOk(t, nbrs)
    requires forall q, m :: Candidate(t, q, m) ==> Candidate(s, q, m)
    ensures NodeWeight(t, nbrs, issued) + NetWeight(Pushes(n, es, mid, payload, skip)) <= NodeWeight(s, nbrs, issued)
  {
    WalksCount(es, ls, t, nbrs);
    PushesWeight(n, es, mid, payload, skip);
    AnnouncementsCount(ls, mid, skip);
    FewerCandidates(s, t);
    LacksOneLess(s, t, issued, mid, payload);
    LackingPays(s, t, nbrs, issued, |Announcements(ls, mid, skip)|, NetWeight(Pushes(n, es, mid, payload, skip)), |es|, |ls|);
  }

  lemma GossipWeight(s: Node, me: Setup, nbrs: set<string>, issued: map<string, string>, x: Message, es: seq<string>, ls: seq<string>)
    requires NodeOk(s, nbrs, issued) && x.Gossip? && x.src in nbrs && x.mid in issued && |issued| <= me.cap
    requires x.mid !in s.received ==> Walks(es, s.eager + {x.src}) && Walks(ls, s.lazy - {x.src})
    ensures var (t, sent) := OnGossip(s, me, x.src, x.mid, x.payload, es, ls);
            NodeWeight(t, nbrs, issued) + NetWeight(sent) + 1 <= NodeWeight(s, nbrs, issued) + Weight(x)
  {
    var (t, sent) := OnGossip(s, me, x.src, x.mid, x.payload, es, ls);
    if x.mid in s.received {
      FewerCandidates(s, t);
      assert sent[..0] == [];
    } else {
      TakenKeeps(s, me, issued, x, es, ls);
      TakenLinks(s, nbrs, t, x.src);
      SpreadWeight(s, me.id, nbrs, issued, t, x.mid, x.payload, es, ls, {x.src});
    }
  }

  lemma TakenLinks(s: Node, nbrs: set<string>, t: Node, src: string)
    requires LinksOk(s, nbrs) && src in nbrs && t.eager == s.eager + {src} && t.lazy == s.lazy - {src}
    ensures LinksOk(t, nbrs)
  {
  }

  lemma IhaveWeight(s: Node, nbrs: set<string>, issued: map<string, string>, x: Message)
    requires NodeOk(s, nbrs, issued) && x.Ihave? && forall m :: m in x.ids ==> m in issued
    ensures NodeWeight(OnIhave(s, x.src, x.ids), nbrs, issued) + 1 <= NodeWeight(s, nbrs, issued) + Weight(x)
  {
    IhaveHears(s, nbrs, issued, x.src, x.ids);
    MoreCandidates(s, OnIhave(s, x.src, x.ids), x.src, x.ids);
  }

  lemma LinkWeight(s: Node, me: Setup, nbrs: set<string>, issued: map<string, string>, x: Message)
    requires x.Prune? || x.Graft?
    ensures var (t, sent) := Handled(s, me, x, [], []);
            NodeWeight(t, nbrs, issued) + NetWeight(sent) + 1 <= NodeWeight(s, nbrs, issued) + Weight(x)
  {
    var (t, sent) := Handled(s, me, x, [], []);
    FewerCandidates(s, t);
    assert sent == [] || (|sent| == 1 && sent[..0] == []);
  }

  lemma HandledWeight(c: Config, g: World, i: nat, es: seq<string>, ls: seq<string>)
    requires Inv(c, g) && Enabled(c, g, Receive(i, es, ls))
    ensures var x := g.net[i];
            x.dst in c.nbrs
            && var s, nbrs := g.nodes[x.dst], c.nbrs[x.dst];
               var (t, sent) := Handled(s, Me(c, x.dst), x, es, ls);
               NodeWeight(t, nbrs, g.issued) + NetWeight(sent) + 1 <= NodeWeight(s, nbrs, g.issued) + Weight(x)
  {
    var x := g.net[i];
    var s, nbrs := g.nodes[x.dst], c.nbrs[x.dst];
    assert MailOk(c, g, x) && NodeOk(s, nbrs, g.issued);
    match x
    case Gossip(_, _, _, _) =>
      GossipWeight(s, Me(c, x.dst), nbrs, g.issued, x, es, ls);
    case Ihave(src, _, ids) =>
      forall m | m in ids ensures m in g.issued { HeldIssued(c, g, src, m); }
      IhaveWeight(s, nbrs, g.issued, x);
    case Prune(_, _) =>
      LinkWeight(s, Me(c, x.dst), nbrs, g.issued, x);
    case Graft(_, _, _) =>
      LinkWeight(s, Me(c, x.dst), nbrs, g.issued, x);
  }

  lemma {:induction false} FewIn(ids: seq<string>, src: string)
    ensures |(set m | m in ids :: (src, m))| <= |ids|
  {
    if ids == [] {
      assert (set m | m in ids :: (src, m)) == {};
    } else {
      var n := |ids| - 1;
      FewIn(ids[..n], src);
      assert ids == ids[..n] + [ids[n]];
      assert (set m | m in ids :: (src, m)) == (set m | m in ids[..n] :: (src, m)) + {(src, ids[n])};
    }
  }

  lemma MoreCandidates(s: Node, t: Node, src: string, ids: seq<string>)
    requires OnlyHears(s, src, ids, t)
    ensures |Candidates(t)| <= |Candidates(s)| + |ids|
  {
    var heard := set m | m in ids :: (src, m);
    FewIn(ids, src);
    forall z | z in Candidates(t) ensures z in Candidates(s) + heard {
      assert Candidate(t, z.0, z.1);
      assert Candidate(s, z.0, z.1) ==> z in Candidates(s);
    }
    Subset(Candidates(t), Candidates(s) + heard);
  }

  lemma RepairedWeight(s: Node, me: Setup, mid: string)
    requires mid in s.missing && forall m :: m in s.ihaveFrom ==> NoRepeats(s.ihaveFrom[m])
    ensures var (t, sent) := Repaired(s, me, mid);
            4 * |Candidates(t)| + NetWeight(sent) + |sent| <= 4 * |Candidates(s)|
  {
    var (t, sent) := Repaired(s, me, mid);
    if sent == [] {
      FewerCandidates(s, t);
    } else {
      var from := s.ihaveFrom[mid];
      assert from == [from[0]] + from[1..];
      assert Candidate(s, from[0], mid);
      forall z | z in Candidates(t) ensures z in Candidates(s) - {(from[0], mid)} {
        assert Candidate(t, z.0, z.1);
        assert Candidate(s, z.0, z.1);
      }
      Subset(Candidates(t), Candidates(s) - {(from[0], mid)});
      assert sent[..0] == [];
    }
  }

  lemma {:induction false} RepairedAllWeight(s: Node, me: Setup, nbrs: set<string>, issued: map<string, string>, mids: seq<string>)
    requires NodeOk(s, nbrs, issued) && CandidatesIn(s, nbrs)
    requires NoRepeats(mids) && forall m :: m in mids ==> m in s.missing
    ensures var (t, sent) := RepairedAll(s, me, mids);
            4 * |Candidates(t)| + NetWeight(sent) + |sent| <= 4 * |Candidates(s)|
  {
    if mids != [] {
      var n := |mids| - 1;
      RepairedAllWeight(s, me, nbrs, issued, mids[..n]);
      RepairedAllFaithful(s, me, nbrs, issued, mids[..n]);
      var (b, sent) := RepairedAll(s, me, mids[..n]);
      RepairedWeight(b, me, mids[n]);
      NetWeightConcat(sent, Repaired(b, me, mids[n]).1);
    }
  }

  lemma TickWeight(s: Node, me: Setup, nbrs: set<string>, issued: map<string, string>, mids: seq<string>)
    requires NodeOk(s, nbrs, issued) && CandidatesIn(s, nbrs) && Walks(mids, s.missing.Keys)
    ensures var (t, sent) := Tick(s, me, nbrs, mids);
            NodeWeight(t, nbrs, issued) + NetWeight(sent) + |sent| <= NodeWeight(s, nbrs, issued)
  {
    SyncedIsNothing(s, nbrs);
    var f := s.(queue := []);
    EmptiedOk(s, nbrs, issued);
    assert forall q, m :: Candidate(f, q, m) <==> Candidate(s, q, m);
    FewerCandidates(s, f);
    RepairedAllFaithful(f, me, nbrs, issued, mids);
    RepairedAllWeight(f, me, nbrs, issued, mids);
    FlushWeight(me.id, s.queue);
    NetWeightConcat(Flushed(me.id, s.queue), RepairedAll(f, me, mids).1);
  }

  // ---- Runs ------------------------------------------------------------------------------

  ghost function Links(c: Config): map<string, int> {
    map n | n in c.nbrs :: 7 * |c.nbrs[n]|
  }

  /** What one broadcast may cost: seven for every link of the overlay, in both directions. */
  ghost function Allowance(c: Config): int {
    SumOf(Links(c))
  }

  /** A delivery costs one, a tick what it sends. */
  ghost function StepCost(c: Config, g: World, e: Event): nat {
    if !Enabled(c, g, e) || e.Issue? then 0
    else if e.Receive? then 1
    else |Tick(g.nodes[e.n], Me(c, e.n), c.nbrs[e.n], e.mids).1|
  }

  ghost function Cost(c: Config, g: World, events: seq<Event>): nat
    decreases |events|
  {
    if events == [] then 0 else StepCost(c, g, events[0]) + Cost(c, Step(c, g, events[0]), events[1..])
  }

  lemma WeightsMoved(c: Config, g: World, n: string, r: (Node, seq<Message>), left: seq<Message>)
    requires n in g.nodes && n in c.nbrs
    ensures Weights(c, After(g, n, r, left, g.issued)) == Weights(c, g)[n := NodeWeight(r.0, c.nbrs[n], g.issued)]
  {
    var u, w := Weights(c, After(g, n, r, left, g.issued)), Weights(c, g)[n := NodeWeight(r.0, c.nbrs[n], g.issued)];
    assert u.Keys == w.Keys;
    forall k | k in u ensures u[k] == w[k] {}
  }

  /** One node moves and nothing is newly issued: only its own weight changes. */
  lemma WeightMoves(c: Config, g: World, n: string, r: (Node, seq<Message>), left: seq<Message>)
    requires n in g.nodes && n in c.nbrs
    ensures var h := After(g, n, r, left, g.issued);
            TotalWeight(c, h) == SumOf(Weights(c, g)) - NodeWeight(g.nodes[n], c.nbrs[n], g.issued)
                                 + NodeWeight(r.0, c.nbrs[n], g.issued) + NetWeight(left) + NetWeight(r.1)
  {
    var h := After(g, n, r, left, g.issued);
    WeightsMoved(c, g, n, r, left);
    SumUpdate(Weights(c, g), n, NodeWeight(r.0, c.nbrs[n], g.issued));
    NetWeightConcat(left, r.1);
  }

  lemma ReceiveCost(c: Config, g: World, i: nat, es: seq<string>, ls: seq<string>)
    requires Inv(c, g) && Enabled(c, g, Receive(i, es, ls))
    ensures TotalWeight(c, Step(c, g, Receive(i, es, ls))) + 1 <= TotalWeight(c, g)
  {
    HandledWeight(c, g, i, es, ls);
    ReceiveStep(c, g, i, es, ls);
    var x := g.net[i];
    NetWeightWithout(g.net, i);
    WeightMoves(c, g, x.dst, Handled(g.nodes[x.dst], Me(c, x.dst), x, es, ls), g.net[..i] + g.net[i + 1..]);
  }

  lemma BeatCost(c: Config, g: World, n: string, mids: seq<string>)
    requires Inv(c, g) && Enabled(c, g, Beat(n, mids))
    ensures TotalWeight(c, Step(c, g, Beat(n, mids))) + StepCost(c, g, Beat(n, mids)) <= TotalWeight(c, g)
  {
    assert NodeOk(g.nodes[n], c.nbrs[n], g.issued) && NotesOk(c, g, n);
    assert CandidatesIn(g.nodes[n], c.nbrs[n]);
    TickWeight(g.nodes[n], Me(c, n), c.nbrs[n], g.issued, mids);
    WeightMoves(c, g, n, Tick(g.nodes[n], Me(c, n), c.nbrs[n], mids), g.net);
  }

  lemma LacksMore(s: Node, nbrs: set<string>, before: map<string, string>, mid: string, payload: string)
    requires mid !in before
    ensures NodeWeight(s, nbrs, before[mid := payload]) <= NodeWeight(s, nbrs, before) + 7 * |nbrs|
  {
    var issued := before[mid := payload];
    Subset(issued.Keys - s.received.Keys, (before.Keys - s.received.Keys) + {mid});
    TimesMonotone(|nbrs|, Lacking(s, issued), Lacking(s, before) + 1);
  }

  lemma IssueWeight(s: Node, me: Setup, nbrs: set<string>, before: map<string, string>, mid: string, payload: string,
                    es: seq<string>, ls: seq<string>)
    requires NodeOk(s, nbrs, before) && mid !in before && |before| < me.cap
    requires Walks(es, Synced(s, nbrs).eager) && Walks(ls, Synced(s, nbrs).lazy)
    ensures var (t, sent) := Broadcast(s, me, nbrs, mid, payload, es, ls);
            NodeWeight(t, nbrs, before[mid := payload]) + NetWeight(sent) <= NodeWeight(s, nbrs, before) + 7 * |nbrs|
  {
    var issued := before[mid := payload];
    IssuedMore(s, nbrs, before, mid, payload);
    RoomFor(s, issued, mid);
    BroadcastGrows(s, me, nbrs, mid, payload, es, ls);
    SyncedIsNothing(s, nbrs);
    var t := Grown(s, mid, payload, Announcements(ls, mid, {}));
    GrownCandidates(s, mid, payload, Announcements(ls, mid, {}));
    SpreadWeight(s, me.id, nbrs, issued, t, mid, payload, es, ls, {});
    LacksMore(s, nbrs, before, mid, payload);
  }

  lemma WeightKeys(c: Config, g: World, u: map<string, int>)
    requires g.nodes.Keys == c.nbrs.Keys == u.Keys
    ensures Weights(c, g).Keys == u.Keys == Links(c).Keys
  {
  }

  /** The weight of `k` rises by no more than its links allow, with `x` on top at `n`. */
  ghost predicate RisesAt(c: Config, g: World, w: map<string, int>, n: string, x: int, k: string) {
    k in w && k in Weights(c, g) && k in Links(c) && w[k] + (if k == n then x else 0) <= Weights(c, g)[k] + Links(c)[k]
  }

  lemma RisesWithin(c: Config, g: World, w: map<string, int>, n: string, x: int)
    requires g.nodes.Keys == c.nbrs.Keys == w.Keys && n in w
    requires forall k :: k in w ==> RisesAt(c, g, w, n, x, k)
    ensures SumOf(w) + x <= SumOf(Weights(c, g)) + Allowance(c)
  {
    WeightKeys(c, g, w);
    assert forall k :: k in w ==> RisesAt(c, g, w, n, x, k);
    SumGrowthAt(Weights(c, g), w, Links(c), n, x);
  }

  /** Node `n` has issued `mid` and become `r.0`, within what its links allow; every other node
      now lacks one message more. No weight has risen by more than the node's links allow. */
  lemma IssueWeights(c: Config, g: World, n: string, mid: string, payload: string, r: (Node, seq<Message>), k: string)
    requires g.nodes.Keys == c.nbrs.Keys && n in g.nodes && k in g.nodes && mid !in g.issued
    requires NodeWeight(r.0, c.nbrs[n], g.issued[mid := payload]) + NetWeight(r.1)
             <= NodeWeight(g.nodes[n], c.nbrs[n], g.issued) + 7 * |c.nbrs[n]|
    ensures RisesAt(c, g, Weights(c, After(g, n, r, g.net, g.issued[mid := payload])), n, NetWeight(r.1), k)
  {
    if k != n {
      LacksMore(g.nodes[k], c.nbrs[k], g.issued, mid, payload);
    }
  }

  lemma IssueRises(c: Config, g: World, n: string, mid: string, payload: string, r: (Node, seq<Message>))
    requires g.nodes.Keys == c.nbrs.Keys && n in g.nodes && mid !in g.issued
    requires NodeWeight(r.0, c.nbrs[n], g.issued[mid := payload]) + NetWeight(r.1)
             <= NodeWeight(g.nodes[n], c.nbrs[n], g.issued) + 7 * |c.nbrs[n]|
    ensures SumOf(Weights(c, After(g, n, r, g.net, g.issued[mid := payload]))) + NetWeight(r.1)
            <= SumOf(Weights(c, g)) + Allowance(c)
  {
    var w := Weights(c, After(g, n, r, g.net, g.issued[mid := payload]));
    forall k | k in w ensures RisesAt(c, g, w, n, NetWeight(r.1), k) {
      IssueWeights(c, g, n, mid, payload, r, k);
    }
    RisesWithin(c, g, w, n, NetWeight(r.1));
  }

  lemma IssueCost(c: Config, g: World, n: string, mid: string, payload: string, es: seq<string>, ls: seq<string>)
    requires Inv(c, g) && Enabled(c, g, Issue(n, mid, payload, es, ls))
    ensures TotalWeight(c, Step(c, g, Issue(n, mid, payload, es, ls))) <= TotalWeight(c, g) + Allowance(c)
  {
    var r := Broadcast(g.nodes[n], Me(c, n), c.nbrs[n], mid, payload, es, ls);
    assert NodeOk(g.nodes[n], c.nbrs[n], g.issued);
    IssueWeight(g.nodes[n], Me(c, n), c.nbrs[n], g.issued, mid, payload, es, ls);
    IssueRises(c, g, n, mid, payload, r);
    NetWeightConcat(g.net, r.1);
  }

  /** Every step pays for itself out of the weight. */
  lemma StepPays(c: Config, g: World, e: Event)
    requires Inv(c, g)
    ensures TotalWeight(c, Step(c, g, e)) + StepCost(c, g, e)
            <= TotalWeight(c, g) + if Enabled(c, g, e) && e.Issue? then Allowance(c) else 0
  {
    if Enabled(c, g, e) {
      match e
      case Issue(n, mid, payload, es, ls) => IssueCost(c, g, n, mid, payload, es, ls);
      case Receive(i, es, ls) => ReceiveCost(c, g, i, es, ls);
      case Beat(n, mids) => BeatCost(c, g, n, mids);
    }
  }

  /** The allowances of the broadcasts in a run. */
  ghost function Budget(c: Config, g: World, events: seq<Event>): int
    decreases |events|
  {
    if events == [] then 0
    else (if Enabled(c, g, events[0]) && events[0].Issue? then Allowance(c) else 0) + Budget(c, Step(c, g, events[0]), events[1..])
  }

  lemma {:induction false} RunPays(c: Config, g: World, events: seq<Event>)
    requires Inv(c, g)
    ensures TotalWeight(c, Run(c, g, events)) + Cost(c, g, events) <= TotalWeight(c, g) + Budget(c, g, events)
    decreases |events|
  {
    if events != [] {
      StepPays(c, g, events[0]);
      StepKeeps(c, g, events[0]);
      RunPays(c, Step(c, g, events[0]), events[1..]);
    }
  }

  lemma WeightNonNegative(c: Config, g: World)
    ensures TotalWeight(c, g) >= 0
  {
    SumNonNegative(Weights(c, g));
  }

  lemma {:induction false} SumZero(w: map<string, int>)
    requires forall k :: k in w ==> w[k] == 0
    ensures SumOf(w) == 0
    decreases |w|
  {
    if w != map[] {
      var k :| k in w;
      SumRemove(w, k);
      SumZero(w - {k});
    }
  }

  lemma StartWeighsNothing(c: Config, g: World)
    requires Start(c, g)
    ensures TotalWeight(c, g) == 0
  {
    forall k | k in Weights(c, g) ensures Weights(c, g)[k] == 0 {
      var s := g.nodes[k];
      assert s == EMPTY.(eager := s.eager, lazy := s.lazy);
      assert g.issued.Keys - s.received.Keys == {} && Candidates(s) == {};
    }
    SumZero(Weights(c, g));
  }

  /** Over any run, in any order, all deliveries and everything ticks send together are at most
      one allowance for each broadcast: the traffic of a broadcast always ends. */
  lemma TrafficBounded(c: Config, g: World, events: seq<Event>)
    requires Symmetric(c) && Start(c, g)
    ensures Cost(c, g, events) <= Budget(c, g, events)
  {
    StartOk(c, g);
    RunPays(c, g, events);
    WeightNonNegative(c, Run(c, g, events));
    StartWeighsNothing(c, g);
  }
}
