/** Completeness of Plumtree over every run: no neighbour is ever forgotten, so when nothing is
    left to send every node of a connected swarm has every broadcast, delivered exactly once. */
module PlumtreeRuns {
  import opened Plumtree
  import opened PlumtreeSwarm
  import opened PlumtreeHandlers
  import opened Seqs

  /** Every node is synced with its neighbours, in any split into eager and lazy. */
  ghost predicate Start(c: Config, g: World) {
    && g.nodes.Keys == c.nbrs.Keys
    && (forall n :: n in g.nodes ==>
                      var s := g.nodes[n]; s == EMPTY.(eager := s.eager, lazy := s.lazy) && LinksOk(s, c.nbrs[n]))
    && g.net == [] && g.issued == map[] && g.log == []
  }

  lemma StartOk(c: Config, g: World)
    requires Symmetric(c) && Start(c, g)
    ensures Inv(c, g)
  {
    forall n | n in g.nodes ensures NodeOk(g.nodes[n], c.nbrs[n], g.issued) {
      var s := g.nodes[n];
      assert s == EMPTY.(eager := s.eager, lazy := s.lazy);
    }
  }

  // ---- One step --------------------------------------------------------------------------

  lemma IssueKeeps(c: Config, g: World, n: string, mid: string, payload: string, es: seq<string>, ls: seq<string>)
    requires Inv(c, g) && Enabled(c, g, Issue(n, mid, payload, es, ls))
    ensures Inv(c, Step(c, g, Issue(n, mid, payload, es, ls)))
  {
    var (t, sent) := Broadcast(g.nodes[n], Me(c, n), c.nbrs[n], mid, payload, es, ls);
    assert NodeOk(g.nodes[n], c.nbrs[n], g.issued);
    BroadcastFaithful(g.nodes[n], Me(c, n), c.nbrs[n], g.issued, mid, payload, es, ls);
    MoveKeeps(c, g, n, {}, sent, After(g, n, (t, sent), g.net, g.issued[mid := payload]));
  }

  lemma BeatKeeps(c: Config, g: World, n: string, mids: seq<string>)
    requires Inv(c, g) && Enabled(c, g, Beat(n, mids))
    ensures Inv(c, Step(c, g, Beat(n, mids)))
  {
    var (t, sent) := Tick(g.nodes[n], Me(c, n), c.nbrs[n], mids);
    assert NodeOk(g.nodes[n], c.nbrs[n], g.issued) && NotesOk(c, g, n);
    assert CandidatesIn(g.nodes[n], c.nbrs[n]);
    TickFaithful(g.nodes[n], Me(c, n), c.nbrs[n], g.issued, mids);
    MoveKeeps(c, g, n, {}, sent, After(g, n, (t, sent), g.net, g.issued));
  }

  lemma HandledFaithful(c: Config, g: World, i: nat, es: seq<string>, ls: seq<string>)
    requires Inv(c, g) && Enabled(c, g, Receive(i, es, ls))
    ensures var x := g.net[i];
            x.dst in c.nbrs
            && var s, nbrs := g.nodes[x.dst], c.nbrs[x.dst];
               var (t, sent) := Handled(s, Me(c, x.dst), x, es, ls);
               NodeOk(t, nbrs, g.issued) && Faithful(s, x.dst, nbrs, {x}, t, sent)
  {
    var x := g.net[i];
    assert MailOk(c, g, x) && NodeOk(g.nodes[x.dst], c.nbrs[x.dst], g.issued);
    var s, nbrs := g.nodes[x.dst], c.nbrs[x.dst];
    match x
    case Gossip(src, dst, mid, payload) =>
      if mid in s.received {
        RepeatFaithful(s, Me(c, dst), nbrs, g.issued, x, es, ls);
      } else {
        NewGossipFaithful(s, Me(c, dst), nbrs, g.issued, x, es, ls);
      }
    case Ihave(src, dst, ids) =>
      forall m | m in ids ensures m in g.issued { HeldIssued(c, g, src, m); }
      IhaveFaithful(s, dst, nbrs, g.issued, x);
    case Prune(src, dst) =>
      PruneFaithful(s, dst, nbrs, g.issued, x);
    case Graft(src, dst, mid) =>
      GraftFaithful(s, Me(c, dst), nbrs, g.issued, x);
  }

  lemma ReceiveMoves(c: Config, g: World, i: nat, x: Message, r: (Node, seq<Message>))
    requires i < |g.net| && x == g.net[i] && x.dst in g.nodes && x.dst in c.nbrs
    requires Faithful(g.nodes[x.dst], x.dst, c.nbrs[x.dst], {x}, r.0, r.1)
    ensures Moves(c, g, x.dst, {x}, r.1, After(g, x.dst, r, g.net[..i] + g.net[i + 1..], g.issued))
  {
    Without(g.net, i);
  }

  lemma ReceiveKeeps(c: Config, g: World, i: nat, es: seq<string>, ls: seq<string>)
    requires Inv(c, g) && Enabled(c, g, Receive(i, es, ls))
    ensures Inv(c, Step(c, g, Receive(i, es, ls)))
  {
    HandledFaithful(c, g, i, es, ls);
    var x := g.net[i];
    var r := Handled(g.nodes[x.dst], Me(c, x.dst), x, es, ls);
    ReceiveMoves(c, g, i, x, r);
    ReceiveStep(c, g, i, es, ls);
    MoveKeeps(c, g, x.dst, {x}, r.1, After(g, x.dst, r, g.net[..i] + g.net[i + 1..], g.issued));
  }

  lemma ReceiveStep(c: Config, g: World, i: nat, es: seq<string>, ls: seq<string>)
    requires Enabled(c, g, Receive(i, es, ls))
    ensures var x := g.net[i];
            Step(c, g, Receive(i, es, ls)) ==
              After(g, x.dst, Handled(g.nodes[x.dst], Me(c, x.dst), x, es, ls), g.net[..i] + g.net[i + 1..], g.issued)
  {
  }

  lemma StepKeeps(c: Config, g: World, e: Event)
    requires Inv(c, g)
    ensures Inv(c, Step(c, g, e))
  {
    if Enabled(c, g, e) {
      match e
      case Issue(n, mid, payload, es, ls) => IssueKeeps(c, g, n, mid, payload, es, ls);
      case Receive(i, es, ls) => ReceiveKeeps(c, g, i, es, ls);
      case Beat(n, mids) => BeatKeeps(c, g, n, mids);
    }
  }

  /** In every reachable state, whoever has a message has every neighbour covered. */
  lemma {:induction false} RunKeeps(c: Config, g: World, events: seq<Event>)
    requires Inv(c, g)
    ensures Inv(c, Run(c, g, events))
    decreases |events|
  {
    if events != [] {
      StepKeeps(c, g, events[0]);
      RunKeeps(c, Step(c, g, events[0]), events[1..]);
    }
  }

  lemma {:induction false} LogGrows(c: Config, g: World, events: seq<Event>)
    ensures g.log <= Run(c, g, events).log
    decreases |events|
  {
    if events != [] {
      LogGrows(c, Step(c, g, events[0]), events[1..]);
    }
  }

  lemma NoNeighbourForgotten(c: Config, g: World, events: seq<Event>, n: string, p: string, m: string)
    requires Symmetric(c) && Start(c, g) && n in c.nbrs && p in c.nbrs[n]
    requires Holds(Run(c, g, events), n, m)
    ensures var h := Run(c, g, events); p in h.nodes && Covered(h, n, p, m)
  {
    StartOk(c, g);
    RunKeeps(c, g, events);
    CoveredNow(c, Run(c, g, events), n, p, m);
  }

  // ---- Quiescence ------------------------------------------------------------------------

  /** A set of nodes that no link leaves is everything. */
  ghost predicate Connected(c: Config) {
    forall part: set<string> :: part != {} && part <= c.nbrs.Keys && Closed(c, part) ==> part == c.nbrs.Keys
  }

  ghost predicate Closed(c: Config, part: set<string>) {
    forall n, p :: n in part && n in c.nbrs && p in c.nbrs[n] ==> p in part
  }

  ghost predicate Idle(s: Node) {
    s.queue == [] && forall q, m :: !Candidate(s, q, m)
  }

  /** Nothing in flight, and no node has anything left to announce or to ask for. */
  ghost predicate Quiet(g: World) {
    g.net == [] && forall n :: n in g.nodes ==> Idle(g.nodes[n])
  }

  /** The application saw every broadcast, with its payload, exactly once and nothing else. */
  ghost predicate DeliveredAll(s: Node, issued: map<string, string>) {
    && NoRepeats(s.delivered)
    && forall m, payload :: (m, payload) in s.delivered <==> m in issued && issued[m] == payload
  }

  lemma HoldersClosed(c: Config, g: World, m: string)
    requires Inv(c, g) && Quiet(g)
    ensures Closed(c, set n | n in g.nodes && Holds(g, n, m))
  {
    forall n, p | Holds(g, n, m) && p in c.nbrs[n] ensures Holds(g, p, m) {
      CoveredNow(c, g, n, p, m);
      assert Idle(g.nodes[n]) && Idle(g.nodes[p]);
    }
  }

  lemma QuietHasAll(c: Config, g: World, n: string, m: string)
    requires Inv(c, g) && Connected(c) && Quiet(g) && n in c.nbrs && m in g.issued
    ensures Holds(g, n, m)
  {
    var part := set q | q in g.nodes && Holds(g, q, m);
    HoldersClosed(c, g, m);
    assert Held(g, m);
    var q :| Holds(g, q, m);
    assert q in part;
    assert n in part;
  }

  lemma HoldsAllDelivers(s: Node, issued: map<string, string>)
    requires CacheOk(s, issued) && issued.Keys <= s.received.Keys
    ensures DeliveredAll(s, issued)
  {
    forall m, payload ensures (m, payload) in s.delivered <==> m in issued && issued[m] == payload {
      if m in issued && issued[m] == payload {
        var i :| 0 <= i < |s.order| && s.order[i] == m;
        assert s.delivered[i] == (m, payload);
      }
    }
  }

  /** The headline: in any run of a connected swarm, when it has gone quiet every node has
      delivered every broadcast exactly once. */
  lemma EveryBroadcastReachesAll(c: Config, g: World, events: seq<Event>)
    requires Symmetric(c) && Connected(c) && Start(c, g) && Quiet(Run(c, g, events))
    ensures var h := Run(c, g, events);
            forall n :: n in c.nbrs ==> n in h.nodes && DeliveredAll(h.nodes[n], h.issued)
  {
    StartOk(c, g);
    RunKeeps(c, g, events);
    var h := Run(c, g, events);
    forall n | n in c.nbrs ensures DeliveredAll(h.nodes[n], h.issued) {
      forall m | m in h.issued ensures m in h.nodes[n].received { QuietHasAll(c, h, n, m); }
      assert NodeOk(h.nodes[n], c.nbrs[n], h.issued);
      HoldsAllDelivers(h.nodes[n], h.issued);
    }
  }

  /** Before it goes quiet: no node has delivered anything twice, or anything not broadcast. */
  lemma NeverDeliveredTwice(c: Config, g: World, events: seq<Event>, n: string)
    requires Symmetric(c) && Start(c, g) && n in c.nbrs
    ensures var h := Run(c, g, events);
            n in h.nodes && NoRepeats(h.nodes[n].delivered)
            && forall d :: d in h.nodes[n].delivered ==> d.0 in h.issued && h.issued[d.0] == d.1
  {
    StartOk(c, g);
    RunKeeps(c, g, events);
    var h := Run(c, g, events);
    assert NodeOk(h.nodes[n], c.nbrs[n], h.issued);
    var s := h.nodes[n];
    forall d | d in s.delivered ensures d.0 in h.issued && h.issued[d.0] == d.1 {
      var i :| 0 <= i < |s.delivered| && s.delivered[i] == d;
      assert s.order[i] in s.received;
    }
  }

  /** Why every node must have been synced: one that has no links yet passes nothing on when a
      message reaches it. */
  lemma UnsyncedNodeForwardsNothing(s: Node, me: Setup, src: string, mid: string, payload: string, es: seq<string>, ls: seq<string>)
    requires s.eager == {} && s.lazy == {} && mid !in s.received
    requires Walks(es, s.eager + {src}) && Walks(ls, s.lazy - {src})
    ensures var (t, sent) := OnGossip(s, me, src, mid, payload, es, ls); sent == [] && t.queue == s.queue
  {
    PushesExact(me.id, es, mid, payload, {src});
    AnnouncementsExact(ls, mid, {src});
    SomeIn(Pushes(me.id, es, mid, payload, {src}));
    SomeIn(Announcements(ls, mid, {src}));
  }
}
