/** A swarm of Plumtree nodes with fixed, symmetric neighbours, every node synced with its
    neighbours at the start, lossless links that reorder freely, and fewer broadcasts than the
    cache holds. Runs interleave broadcasts, deliveries and ticks in any order. */
module PlumtreeSwarm {
  import opened Plumtree
  import opened Seqs

  datatype Config = Config(nbrs: map<string, set<string>>, cap: int, timeout: int)

  /** `net` is what is in flight; `log` is everything that was ever sent. */
  datatype World = World(nodes: map<string, Node>, net: seq<Message>, issued: map<string, string>, log: seq<Message>)

  datatype Event =
    | Issue(n: string, mid: string, payload: string, es: seq<string>, ls: seq<string>)
    | Receive(i: nat, es: seq<string>, ls: seq<string>)
    | Beat(n: string, mids: seq<string>)

  ghost predicate Symmetric(c: Config) {
    forall n, p :: n in c.nbrs && p in c.nbrs[n] ==> p in c.nbrs && n in c.nbrs[p]
  }

  ghost function Me(c: Config, n: string): Setup {
    Setup(n, c.cap, c.timeout)
  }

  ghost predicate Enabled(c: Config, g: World, e: Event) {
    match e
    case Issue(n, mid, payload, es, ls) =>
      n in g.nodes && n in c.nbrs && mid !in g.issued && |g.issued| < c.cap
      && var s := Synced(g.nodes[n], c.nbrs[n]); Walks(es, s.eager) && Walks(ls, s.lazy)
    case Receive(i, es, ls) =>
      i < |g.net| && g.net[i].dst in g.nodes
      && var s, x := g.nodes[g.net[i].dst], g.net[i];
         (x.Gossip? && x.mid !in s.received ==> Walks(es, s.eager + {x.src}) && Walks(ls, s.lazy - {x.src}))
    case Beat(n, mids) => n in g.nodes && n in c.nbrs && Walks(mids, g.nodes[n].missing.Keys)
  }

  ghost function Handled(s: Node, me: Setup, x: Message, es: seq<string>, ls: seq<string>): (Node, seq<Message>) {
    match x
    case Gossip(src, _, mid, payload) => OnGossip(s, me, src, mid, payload, es, ls)
    case Ihave(src, _, ids) => (OnIhave(s, src, ids), [])
    case Prune(src, _) => (OnPrune(s, src), [])
    case Graft(src, _, mid) => OnGraft(s, me, src, mid)
  }

  /** Node `n` becomes `r.0` and sends `r.1`, on top of what is left in flight. */
  ghost function After(g: World, n: string, r: (Node, seq<Message>), left: seq<Message>, issued: map<string, string>): World {
    World(g.nodes[n := r.0], left + r.1, issued, g.log + r.1)
  }

  ghost function Step(c: Config, g: World, e: Event): World {
    if !Enabled(c, g, e) then g
    else match e
      case Issue(n, mid, payload, es, ls) =>
        After(g, n, Broadcast(g.nodes[n], Me(c, n), c.nbrs[n], mid, payload, es, ls), g.net, g.issued[mid := payload])
      case Receive(i, es, ls) =>
        var x := g.net[i];
        After(g, x.dst, Handled(g.nodes[x.dst], Me(c, x.dst), x, es, ls), g.net[..i] + g.net[i + 1..], g.issued)
      case Beat(n, mids) =>
        After(g, n, Tick(g.nodes[n], Me(c, n), c.nbrs[n], mids), g.net, g.issued)
  }

  ghost function Run(c: Config, g: World, events: seq<Event>): World
    decreases |events|
  {
    if events == [] then g else Run(c, Step(c, g, events[0]), events[1..])
  }

  // ---- The invariant ---------------------------------------------------------------------

  ghost predicate LinksOk(s: Node, nbrs: set<string>) {
    s.eager + s.lazy == nbrs && s.eager !! s.lazy
  }

  /** The cache holds broadcasts that were issued, each handed to the application once. */
  ghost predicate CacheOk(s: Node, issued: map<string, string>) {
    && Walks(s.order, s.received.Keys)
    && (forall m :: m in s.received ==> m in issued && issued[m] == s.received[m])
    && |s.delivered| == |s.order|
    && forall i :: 0 <= i < |s.order| ==> s.delivered[i] == (s.order[i], issued[s.order[i]])
  }

  ghost predicate WaitsOk(s: Node, issued: map<string, string>) {
    && s.missing.Keys == s.ihaveFrom.Keys && s.missing.Keys !! s.received.Keys && s.missing.Keys <= issued.Keys
    && (forall m :: m in s.ihaveFrom ==> NoRepeats(s.ihaveFrom[m]))
    && forall m :: m in s.missing ==> s.missing[m] >= 0
  }

  ghost predicate QueueOk(s: Node, nbrs: set<string>) {
    forall t :: t in s.queue ==> t.0 in nbrs && t.1 in s.received
  }

  ghost predicate NodeOk(s: Node, nbrs: set<string>, issued: map<string, string>) {
    LinksOk(s, nbrs) && CacheOk(s, issued) && WaitsOk(s, issued) && QueueOk(s, nbrs)
  }

  ghost predicate Holds(g: World, n: string, m: string) {
    n in g.nodes && m in g.nodes[n].received
  }

  ghost predicate Candidate(s: Node, q: string, m: string) {
    m in s.ihaveFrom && q in s.ihaveFrom[m]
  }

  /** Whoever is noted as having a message is a neighbour that has it. */
  ghost predicate NotesOk(c: Config, g: World, n: string)
    requires n in g.nodes && n in c.nbrs
  {
    forall q, m :: Candidate(g.nodes[n], q, m) ==> q in c.nbrs[n] && Holds(g, q, m)
  }

  ghost predicate MailOk(c: Config, g: World, x: Message) {
    && x.src in c.nbrs && x.dst in c.nbrs[x.src]
    && match x
       case Gossip(src, _, mid, payload) => Holds(g, src, mid) && mid in g.issued && payload == g.issued[mid]
       case Ihave(src, _, ids) => forall m :: m in ids ==> Holds(g, src, m)
       case Prune(_, _) => true
       case Graft(_, dst, mid) => Holds(g, dst, mid)
  }

  ghost predicate Announced(net: seq<Message>, n: string, p: string, m: string) {
    exists x :: x in net && x.Ihave? && x.src == n && x.dst == p && m in x.ids
  }

  /** No neighbour is forgotten: `p` has the message that `n` has, or will hear of it. */
  ghost predicate Covered(g: World, n: string, p: string, m: string)
    requires n in g.nodes && p in g.nodes
  {
    && m in g.issued
    && (|| m in g.nodes[p].received
        || Gossip(n, p, m, g.issued[m]) in g.net
        || Announced(g.net, n, p, m)
        || Graft(p, n, m) in g.net
        || (p, m) in g.nodes[n].queue
        || Candidate(g.nodes[p], n, m))
  }

  ghost predicate Shape(c: Config, g: World) {
    && g.nodes.Keys == c.nbrs.Keys
    && (forall n {:trigger NodeOk(g.nodes[n], c.nbrs[n], g.issued)} :: n in g.nodes ==> NodeOk(g.nodes[n], c.nbrs[n], g.issued))
    && (|g.issued| <= c.cap || g.issued == map[])
  }

  ghost predicate Truthful(c: Config, g: World)
    requires g.nodes.Keys == c.nbrs.Keys
  {
    && (forall n {:trigger NotesOk(c, g, n)} :: n in g.nodes ==> NotesOk(c, g, n))
    && forall x {:trigger MailOk(c, g, x)} :: x in g.net ==> MailOk(c, g, x)
  }

  ghost predicate Complete(c: Config, g: World)
    requires Symmetric(c) && Shape(c, g)
  {
    && (forall n, p, m {:trigger Covered(g, n, p, m)} :: Holds(g, n, m) && p in c.nbrs[n] ==> Covered(g, n, p, m))
    && forall m :: m in g.issued ==> Held(g, m)
  }

  ghost predicate Held(g: World, m: string) {
    exists n :: Holds(g, n, m)
  }

  ghost predicate Inv(c: Config, g: World) {
    Symmetric(c) && Shape(c, g) && Truthful(c, g) && Complete(c, g)
  }

  // ---- What every handler keeps ----------------------------------------------------------

  /** New candidates come from announcements just received. */
  ghost predicate Believes(s: Node, got: set<Message>, t: Node) {
    forall q, m :: Candidate(t, q, m) ==> Candidate(s, q, m) || exists x :: x in got && x.Ihave? && x.src == q && m in x.ids
  }

  ghost predicate Says(s: Node, n: string, nbrs: set<string>, t: Node, x: Message) {
    && x.src == n && x.dst in nbrs
    && match x
       case Gossip(_, _, mid, payload) => mid in t.received && payload == t.received[mid]
       case Ihave(_, _, ids) => forall m :: m in ids ==> m in t.received
       case Prune(_, _) => true
       case Graft(_, q, mid) => Candidate(s, q, mid)
  }

  ghost predicate Told(n: string, p: string, m: string, t: Node, sent: seq<Message>)
    requires m in t.received
  {
    Gossip(n, p, m, t.received[m]) in sent || (p, m) in t.queue
  }

  /** A message newly held is passed to every neighbour but the one it came from. */
  ghost predicate TellsAll(s: Node, n: string, nbrs: set<string>, got: set<Message>, t: Node, sent: seq<Message>) {
    forall p, m :: p in nbrs && m in t.received && m !in s.received ==>
                     Told(n, p, m, t, sent) || exists x :: x in got && x.Gossip? && x.src == p && x.mid == m
  }

  ghost predicate KeepsQueue(s: Node, n: string, t: Node, sent: seq<Message>) {
    forall p, m :: (p, m) in s.queue ==> (p, m) in t.queue || Announced(sent, n, p, m)
  }

  ghost predicate KeepsCandidates(s: Node, n: string, t: Node, sent: seq<Message>) {
    forall q, m :: Candidate(s, q, m) ==> m in t.received || Candidate(t, q, m) || Graft(n, q, m) in sent
  }

  /** What the received message stood for is taken over. */
  ghost predicate Takes(n: string, x: Message, t: Node, sent: seq<Message>) {
    match x
    case Gossip(_, _, mid, _) => mid in t.received
    case Ihave(src, _, ids) => forall m :: m in ids ==> m in t.received || Candidate(t, src, m)
    case Prune(_, _) => true
    case Graft(src, _, mid) => mid in t.received ==> Gossip(n, src, mid, t.received[mid]) in sent
  }

  ghost predicate Faithful(s: Node, n: string, nbrs: set<string>, got: set<Message>, t: Node, sent: seq<Message>) {
    && s.received.Keys <= t.received.Keys
    && Believes(s, got, t)
    && (forall x :: x in sent ==> Says(s, n, nbrs, t, x))
    && TellsAll(s, n, nbrs, got, t, sent)
    && KeepsQueue(s, n, t, sent)
    && KeepsCandidates(s, n, t, sent)
    && forall x :: x in got ==> Takes(n, x, t, sent)
  }

  /** The step of one node, as the rest of the swarm sees it. */
  ghost predicate Moves(c: Config, g: World, n: string, got: set<Message>, sent: seq<Message>, h: World) {
    && n in g.nodes && n in c.nbrs && n in h.nodes
    && h.nodes == g.nodes[n := h.nodes[n]]
    && g.issued.Keys <= h.issued.Keys && (forall m :: m in g.issued ==> h.issued[m] == g.issued[m])
    && (forall x :: x in g.net ==> x in got || x in h.net)
    && (forall x :: x in h.net ==> x in g.net || x in sent)
    && (forall x :: x in sent ==> x in h.net)
    && (forall x :: x in got ==> x in g.net && x.dst == n)
    && Faithful(g.nodes[n], n, c.nbrs[n], got, h.nodes[n], sent)
  }

  lemma HeldIssued(c: Config, g: World, q: string, m: string)
    requires Shape(c, g) && Holds(g, q, m)
    ensures m in g.issued && g.nodes[q].received[m] == g.issued[m]
  {
    assert NodeOk(g.nodes[q], c.nbrs[q], g.issued);
  }

  lemma HoldsStays(c: Config, g: World, n: string, got: set<Message>, sent: seq<Message>, h: World, q: string, m: string)
    requires Moves(c, g, n, got, sent, h) && Holds(g, q, m)
    ensures Holds(h, q, m)
  {
  }

  lemma NotesStay(c: Config, g: World, n: string, got: set<Message>, sent: seq<Message>, h: World, p: string)
    requires Moves(c, g, n, got, sent, h) && Inv(c, g) && p in g.nodes
    ensures NotesOk(c, h, p)
  {
    forall q, m | Candidate(h.nodes[p], q, m) ensures q in c.nbrs[p] && Holds(h, q, m) {
      assert NotesOk(c, g, p);
      if Candidate(g.nodes[p], q, m) {
        HoldsStays(c, g, n, got, sent, h, q, m);
      } else {
        var x :| x in got && x.Ihave? && x.src == q && m in x.ids;
        assert MailOk(c, g, x);
        HoldsStays(c, g, n, got, sent, h, q, m);
      }
    }
  }

  lemma MailStays(c: Config, g: World, n: string, got: set<Message>, sent: seq<Message>, h: World, x: Message)
    requires Moves(c, g, n, got, sent, h) && Inv(c, g) && x in h.net
    requires NodeOk(h.nodes[n], c.nbrs[n], h.issued)
    ensures MailOk(c, h, x)
  {
    if x in g.net {
      assert MailOk(c, g, x);
      forall q, m | Holds(g, q, m) ensures Holds(h, q, m) { HoldsStays(c, g, n, got, sent, h, q, m); }
    } else {
      assert Says(g.nodes[n], n, c.nbrs[n], h.nodes[n], x);
      if x.Graft? {
        assert NotesOk(c, g, n);
        HoldsStays(c, g, n, got, sent, h, x.dst, x.mid);
      }
    }
  }

  lemma AnnouncedStays(g: World, got: set<Message>, h: World, q: string, p: string, m: string)
    requires forall x :: x in g.net ==> x in got || x in h.net
    requires Announced(g.net, q, p, m)
    ensures Announced(h.net, q, p, m) || exists x :: x in got && x.Ihave? && x.src == q && x.dst == p && m in x.ids
  {
    var x :| x in g.net && x.Ihave? && x.src == q && x.dst == p && m in x.ids;
  }

  lemma AnnouncedSent(sent: seq<Message>, net: seq<Message>, q: string, p: string, m: string)
    requires forall x :: x in sent ==> x in net
    requires Announced(sent, q, p, m)
    ensures Announced(net, q, p, m)
  {
  }

  lemma AnnouncedLands(c: Config, g: World, n: string, got: set<Message>, sent: seq<Message>, h: World, q: string, p: string, m: string)
    requires Moves(c, g, n, got, sent, h) && p in h.nodes
    requires Announced(g.net, q, p, m)
    ensures Announced(h.net, q, p, m) || m in h.nodes[p].received || Candidate(h.nodes[p], q, m)
  {
    AnnouncedStays(g, got, h, q, p, m);
    if !Announced(h.net, q, p, m) {
      var x :| x in got && x.Ihave? && x.src == q && x.dst == p && m in x.ids;
      assert Takes(n, x, h.nodes[n], sent);
    }
  }

  lemma GossipLands(c: Config, g: World, n: string, got: set<Message>, sent: seq<Message>, h: World, x: Message)
    requires Moves(c, g, n, got, sent, h) && x.Gossip? && x in g.net && x.dst in h.nodes
    ensures x in h.net || x.mid in h.nodes[x.dst].received
  {
    assert x in got ==> Takes(n, x, h.nodes[n], sent);
  }

  lemma GraftLands(c: Config, g: World, n: string, got: set<Message>, sent: seq<Message>, h: World, x: Message)
    requires Moves(c, g, n, got, sent, h) && x.Graft? && x in g.net && Holds(h, x.dst, x.mid)
    ensures x in h.net || Gossip(x.dst, x.src, x.mid, h.nodes[x.dst].received[x.mid]) in h.net
  {
    assert x in got ==> Takes(n, x, h.nodes[n], sent);
  }

  lemma QueuedLands(c: Config, g: World, n: string, got: set<Message>, sent: seq<Message>, h: World, q: string, p: string, m: string)
    requires Moves(c, g, n, got, sent, h) && q in g.nodes && (p, m) in g.nodes[q].queue
    ensures (p, m) in h.nodes[q].queue || Announced(h.net, q, p, m)
  {
    if q == n && (p, m) !in h.nodes[n].queue {
      AnnouncedSent(sent, h.net, q, p, m);
    }
  }

  lemma CandidateLands(c: Config, g: World, n: string, got: set<Message>, sent: seq<Message>, h: World, p: string, q: string, m: string)
    requires Moves(c, g, n, got, sent, h) && p in g.nodes && Candidate(g.nodes[p], q, m)
    ensures m in h.nodes[p].received || Candidate(h.nodes[p], q, m) || Graft(p, q, m) in h.net
  {
  }

  /** A neighbour that was covered stays covered. */
  lemma CoverStays(c: Config, g: World, n: string, got: set<Message>, sent: seq<Message>, h: World, q: string, p: string, m: string)
    requires Moves(c, g, n, got, sent, h) && Holds(g, q, m) && p in g.nodes
    requires m in g.issued && m in h.issued && Covered(g, q, p, m)
    requires h.nodes[q].received[m] == h.issued[m]
    ensures Covered(h, q, p, m)
  {
    HoldsStays(c, g, n, got, sent, h, q, m);
    if m in g.nodes[p].received {
      HoldsStays(c, g, n, got, sent, h, p, m);
    } else if Gossip(q, p, m, g.issued[m]) in g.net {
      GossipLands(c, g, n, got, sent, h, Gossip(q, p, m, g.issued[m]));
    } else if Announced(g.net, q, p, m) {
      AnnouncedLands(c, g, n, got, sent, h, q, p, m);
    } else if Graft(p, q, m) in g.net {
      GraftLands(c, g, n, got, sent, h, Graft(p, q, m));
    } else if (p, m) in g.nodes[q].queue {
      QueuedLands(c, g, n, got, sent, h, q, p, m);
    } else {
      CandidateLands(c, g, n, got, sent, h, p, q, m);
    }
  }

  lemma CoverStarts(c: Config, g: World, n: string, got: set<Message>, sent: seq<Message>, h: World, p: string, m: string)
    requires Moves(c, g, n, got, sent, h) && Inv(c, g) && Holds(h, n, m) && !Holds(g, n, m) && p in c.nbrs[n]
    requires p in h.nodes && m in h.issued && h.nodes[n].received[m] == h.issued[m]
    ensures Covered(h, n, p, m)
  {
    if !Told(n, p, m, h.nodes[n], sent) {
      var x :| x in got && x.Gossip? && x.src == p && x.mid == m;
      assert MailOk(c, g, x);
      HoldsStays(c, g, n, got, sent, h, p, m);
    }
  }

  lemma NodesStay(c: Config, g: World, n: string, got: set<Message>, sent: seq<Message>, h: World)
    requires Moves(c, g, n, got, sent, h) && Inv(c, g)
    requires NodeOk(h.nodes[n], c.nbrs[n], h.issued)
    requires |h.issued| <= c.cap || h.issued == map[]
    ensures Shape(c, h)
  {
    forall p | p in h.nodes ensures NodeOk(h.nodes[p], c.nbrs[p], h.issued) {
      assert NodeOk(g.nodes[p], c.nbrs[p], g.issued);
    }
  }

  lemma CoveredNow(c: Config, g: World, q: string, p: string, m: string)
    requires Inv(c, g) && Holds(g, q, m) && p in c.nbrs[q]
    ensures p in g.nodes && Covered(g, q, p, m)
  {
    HeldIssued(c, g, q, m);
    assert Covered(g, q, p, m);
  }

  lemma CoverKept(c: Config, g: World, n: string, got: set<Message>, sent: seq<Message>, h: World, q: string, p: string, m: string)
    requires Moves(c, g, n, got, sent, h) && Inv(c, g) && Shape(c, h)
    requires Holds(h, q, m) && p in c.nbrs[q]
    ensures m in h.issued && p in h.nodes && Covered(h, q, p, m)
  {
    HeldIssued(c, h, q, m);
    if Holds(g, q, m) {
      CoveredNow(c, g, q, p, m);
      CoverStays(c, g, n, got, sent, h, q, p, m);
    } else {
      CoverStarts(c, g, n, got, sent, h, p, m);
    }
  }

  lemma TruthKept(c: Config, g: World, n: string, got: set<Message>, sent: seq<Message>, h: World)
    requires Moves(c, g, n, got, sent, h) && Inv(c, g) && Shape(c, h)
    ensures Truthful(c, h)
  {
    assert NodeOk(h.nodes[n], c.nbrs[n], h.issued);
    forall p | p in h.nodes ensures NotesOk(c, h, p) { NotesStay(c, g, n, got, sent, h, p); }
    forall x | x in h.net ensures MailOk(c, h, x) { MailStays(c, g, n, got, sent, h, x); }
  }

  lemma HeldKept(c: Config, g: World, n: string, got: set<Message>, sent: seq<Message>, h: World, m: string)
    requires Moves(c, g, n, got, sent, h) && Held(g, m)
    ensures Held(h, m)
  {
    var q :| Holds(g, q, m);
    HoldsStays(c, g, n, got, sent, h, q, m);
  }

  lemma CompleteKept(c: Config, g: World, n: string, got: set<Message>, sent: seq<Message>, h: World)
    requires Moves(c, g, n, got, sent, h) && Inv(c, g) && Shape(c, h)
    requires forall m :: m in h.issued && m !in g.issued ==> Holds(h, n, m)
    ensures Complete(c, h)
  {
    forall q, p, m | Holds(h, q, m) && p in c.nbrs[q] ensures m in h.issued && p in h.nodes && Covered(h, q, p, m) {
      CoverKept(c, g, n, got, sent, h, q, p, m);
    }
    forall m | m in h.issued ensures Held(h, m) {
      if m in g.issued {
        HeldKept(c, g, n, got, sent, h, m);
      } else {
        assert Holds(h, n, m);
      }
    }
  }

  /** A faithful step of one node keeps the whole invariant. */
  lemma MoveKeeps(c: Config, g: World, n: string, got: set<Message>, sent: seq<Message>, h: World)
    requires Moves(c, g, n, got, sent, h) && Inv(c, g)
    requires NodeOk(h.nodes[n], c.nbrs[n], h.issued)
    requires |h.issued| <= c.cap || h.issued == map[]
    requires forall m :: m in h.issued && m !in g.issued ==> Holds(h, n, m)
    ensures Inv(c, h)
  {
    NodesStay(c, g, n, got, sent, h);
    TruthKept(c, g, n, got, sent, h);
    CompleteKept(c, g, n, got, sent, h);
  }
}
