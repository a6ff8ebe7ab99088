/** The first broadcast builds the tree: in a connected swarm with every link eager, once the copies
    of one broadcast and the prunes they set off have all been delivered, in any order, the eager
    links are a spanning tree. Later broadcasts then cost one copy per node. */
module PlumtreeFlood {
  import opened Plumtree
  import opened PlumtreeSwarm
  import opened PlumtreeHandlers
  import opened PlumtreeRuns
  import opened PlumtreeTree
  import opened Seqs
  import opened TreeFront

  ghost predicate AllEager(c: Config, g: World) {
    forall n :: n in g.nodes && n in c.nbrs ==> g.nodes[n].eager == c.nbrs[n]
  }

  /** Receipts and ticks, in any order and number. */
  ghost predicate NoBroadcast(events: seq<Event>) {
    forall i :: 0 <= i < |events| ==> !events[i].Issue?
  }

  // ---- The invariant ---------------------------------------------------------------------

  /** Copies of `m` and prunes only, from nodes that have it, and never between two of them that
      are linked in the tree. */
  ghost predicate MailFine(t: Tree, m: string, x: Message) {
    && x.src in t.all
    && (x.dst in t.all ==> !Linked(t, x.src, x.dst))
    && ((x.Gossip? && x.mid == m) || (x.Prune? && x.dst in t.all))
  }

  /** No two copies go along one link in one direction. */
  ghost predicate Distinct(net: seq<Message>) {
    forall i, j :: 0 <= i < j < |net| && net[i].Gossip? && net[j].Gossip? ==> net[i].src != net[j].src || net[i].dst != net[j].dst
  }

  ghost predicate NodeFine(c: Config, g: World, t: Tree, n: string)
    requires n in g.nodes && n in c.nbrs
  {
    g.nodes[n].queue == [] && g.nodes[n].ihaveFrom == map[] && (n !in t.all ==> g.nodes[n].eager == c.nbrs[n])
  }

  /** A link of a node that has the message: eager if it is in the tree or leads out of it; and if
      it is eager without being in the tree, the copy that will make it lazy is on its way. */
  ghost predicate LinkFine(g: World, t: Tree, m: string, n: string, b: string)
    requires n in g.nodes
  {
    var eager := b in g.nodes[n].eager;
    && (Linked(t, n, b) || b !in t.all ==> eager)
    && (eager && b in t.all && !Linked(t, n, b) ==> m in g.issued && Gossip(b, n, m, g.issued[m]) in g.net)
  }

  ghost predicate NodesFine(c: Config, g: World, t: Tree) {
    forall n {:trigger NodeFine(c, g, t, n)} :: n in g.nodes && n in c.nbrs ==> NodeFine(c, g, t, n)
  }

  ghost predicate LinksFine(c: Config, g: World, t: Tree, m: string) {
    forall n, b {:trigger LinkFine(g, t, m, n, b)} :: n in t.all && n in g.nodes && n in c.nbrs && b in c.nbrs[n] ==> LinkFine(g, t, m, n, b)
  }

  /** The tree so far: who got the first copy from whom. */
  ghost predicate Spans(c: Config, g: World, t: Tree, m: string) {
    && IsTree(t) && t.all == Holders(g, m)
    && forall b :: b in t.parent ==> b in c.nbrs && t.parent[b] in c.nbrs[b]
  }

  ghost predicate Flooding(c: Config, g: World, t: Tree, m: string) {
    && Spans(c, g, t, m) && NodesFine(c, g, t) && LinksFine(c, g, t, m)
    && Distinct(g.net) && forall x {:trigger MailFine(t, m, x)} :: x in g.net ==> MailFine(t, m, x)
  }

  // ---- The broadcast is issued -----------------------------------------------------------

  ghost function Root(n: string): Tree {
    Tree({n}, n, map[], map[n := 0])
  }

  lemma {:induction false} DistinctPushes(me: string, peers: seq<string>, mid: string, payload: string, skip: set<string>)
    requires NoRepeats(peers)
    ensures Distinct(Pushes(me, peers, mid, payload, skip))
  {
    if peers != [] {
      var n := |peers| - 1;
      var p := Pushes(me, peers[..n], mid, payload, skip);
      DistinctPushes(me, peers[..n], mid, payload, skip);
      PushesExact(me, peers[..n], mid, payload, skip);
      forall i | 0 <= i < |p| ensures p[i].dst != peers[n] { assert p[i] in p; }
    }
  }

  lemma AnnounceNobody(ls: seq<string>, mid: string, skip: set<string>)
    requires forall x :: x !in ls
    ensures Announcements(ls, mid, skip) == []
  {
    SomeIn(ls);
  }

  lemma StartNode(c: Config, g: World, n: string)
    requires Start(c, g) && AllEager(c, g) && n in g.nodes
    ensures var s := g.nodes[n];
            n in c.nbrs && LinksOk(s, c.nbrs[n]) && s.eager == c.nbrs[n] && s.lazy == {}
            && s.order == [] && s.received == map[] && s.missing == map[] && s.ihaveFrom == map[] && s.queue == []
  {
    var s := g.nodes[n];
    assert s == EMPTY.(eager := s.eager, lazy := s.lazy);
  }

  /** The state once the broadcast is out. */
  lemma IssuedWorld(c: Config, g: World, n: string, mid: string, payload: string, es: seq<string>, ls: seq<string>)
    requires Start(c, g) && AllEager(c, g) && Enabled(c, g, Issue(n, mid, payload, es, ls))
    ensures Walks(es, c.nbrs[n])
    ensures var h := Step(c, g, Issue(n, mid, payload, es, ls));
            && h.nodes == g.nodes[n := Grown(g.nodes[n], mid, payload, [])]
            && h.net == Pushes(n, es, mid, payload, {}) && h.issued == map[mid := payload]
  {
    StartNode(c, g, n);
    SyncedIsNothing(g.nodes[n], c.nbrs[n]);
    BroadcastGrows(g.nodes[n], Me(c, n), c.nbrs[n], mid, payload, es, ls);
    AnnounceNobody(ls, mid, {});
    assert [] + Pushes(n, es, mid, payload, {}) == Pushes(n, es, mid, payload, {});
  }

  lemma RootFloods(c: Config, g: World, h: World, n: string, mid: string, payload: string, es: seq<string>)
    requires Start(c, g) && AllEager(c, g) && n in g.nodes && n in c.nbrs && Walks(es, c.nbrs[n])
    requires h.nodes == g.nodes[n := Grown(g.nodes[n], mid, payload, [])]
    requires h.net == Pushes(n, es, mid, payload, {}) && h.issued == map[mid := payload]
    ensures Flooding(c, h, Root(n), mid)
  {
    var t := Root(n);
    PushesExact(n, es, mid, payload, {});
    DistinctPushes(n, es, mid, payload, {});
    forall q ensures q in Holders(h, mid) <==> q == n {
      if q in g.nodes { StartNode(c, g, q); }
      assert q in Holders(h, mid) <==> Holds(h, q, mid);
    }
    assert Holders(h, mid) == t.all;
    forall q | q in h.nodes && q in c.nbrs ensures NodeFine(c, h, t, q) { StartNode(c, g, q); }
    StartNode(c, g, n);
    forall b | b in c.nbrs[n] ensures LinkFine(h, t, mid, n, b) {
      if b == n { assert Gossip(n, n, mid, payload) in h.net; }
    }
  }

  lemma IssueFloods(c: Config, g: World, n: string, mid: string, payload: string, es: seq<string>, ls: seq<string>)
    requires Symmetric(c) && Start(c, g) && AllEager(c, g) && Enabled(c, g, Issue(n, mid, payload, es, ls))
    ensures var h := Step(c, g, Issue(n, mid, payload, es, ls));
            Inv(c, h) && mid in h.issued && Flooding(c, h, Root(n), mid)
  {
    StartOk(c, g);
    StepKeeps(c, g, Issue(n, mid, payload, es, ls));
    IssuedWorld(c, g, n, mid, payload, es, ls);
    RootFloods(c, g, Step(c, g, Issue(n, mid, payload, es, ls)), n, mid, payload, es);
  }

  // ---- A first copy ----------------------------------------------------------------------

  /** The tree with `b` hung below `a`. */
  ghost function Hung(t: Tree, a: string, b: string): Tree
    requires a in t.depth
  {
    Tree(t.all + {b}, t.root, t.parent[b := a], t.depth[b := t.depth[a] + 1])
  }

  lemma HungIsTree(t: Tree, a: string, b: string)
    requires IsTree(t) && a in t.all && b !in t.all
    ensures IsTree(Hung(t, a, b))
    ensures forall x, y :: Linked(Hung(t, a, b), x, y) <==> Linked(t, x, y) || (x == a && y == b) || (x == b && y == a)
    ensures forall x :: !Linked(t, x, b) && !Linked(t, b, x)
  {
    var u := Hung(t, a, b);
    assert u.parent.Keys == u.all - {u.root};
    forall n | n in u.parent ensures u.parent[n] in u.all && u.depth[n] == u.depth[u.parent[n]] + 1 {
      if n != b { assert t.parent[n] == u.parent[n] && t.parent[n] != b; }
    }
    forall x ensures !Linked(t, x, b) && !Linked(t, b, x) {
      if x in t.parent { assert t.parent[x] in t.all; }
    }
  }

  /** What is known of the node at which a first copy arrives. */
  lemma FirstAt(c: Config, g: World, t: Tree, m: string, x: Message)
    requires Inv(c, g) && Flooding(c, g, t, m) && x in g.net && x.Gossip? && x.dst !in t.all && x.dst in g.nodes
    ensures x.mid == m && x.src in t.all && x.dst in c.nbrs && x.src in c.nbrs[x.dst] && x.src != x.dst
    ensures m in g.issued && x.payload == g.issued[m] && |g.issued| <= c.cap
    ensures var s := g.nodes[x.dst];
            CacheOk(s, g.issued) && m !in s.received && s.eager == c.nbrs[x.dst] && s.lazy == {} && s.queue == [] && s.ihaveFrom == map[]
  {
    assert MailOk(c, g, x) && MailFine(t, m, x);
    HasRoom(c, g, x.dst);
    assert NodeFine(c, g, t, x.dst);
    assert !Holds(g, x.dst, m) by { assert x.dst !in Holders(g, m); }
  }

  /** What a node that lacks the message does with its first copy, while nothing else goes on. */
  lemma FirstReceipt(c: Config, s: Node, nbrs: set<string>, issued: map<string, string>, x: Message, es: seq<string>, ls: seq<string>)
    requires x.Gossip? && CacheOk(s, issued) && |issued| <= c.cap && x.mid in issued && x.mid !in s.received
    requires s.eager == nbrs && s.lazy == {} && s.queue == [] && s.ihaveFrom == map[] && x.src in nbrs
    requires Walks(es, s.eager + {x.src}) && Walks(ls, s.lazy - {x.src})
    ensures Walks(es, nbrs)
    ensures var r := Handled(s, Me(c, x.dst), x, es, ls);
            r.0.eager == nbrs && r.0.received == s.received[x.mid := x.payload]
            && r.0.queue == [] && r.0.ihaveFrom == map[]
            && r.1 == Pushes(x.dst, es, x.mid, x.payload, {x.src})
  {
    TakenKeeps(s, Me(c, x.dst), issued, x, es, ls);
    assert s.eager + {x.src} == nbrs;
    AnnounceNobody(ls, x.mid, {x.src});
    assert s.ihaveFrom - {x.mid} == map[];
  }

  lemma FirstMail(t: Tree, u: Tree, m: string, net: seq<Message>, i: nat, sent: seq<Message>)
    requires IsTree(t) && i < |net| && net[i].Gossip? && net[i].src in t.all && net[i].dst !in t.all && u == Hung(t, net[i].src, net[i].dst)
    requires Distinct(net) && Distinct(sent) && forall x {:trigger MailFine(t, m, x)} :: x in net ==> MailFine(t, m, x)
    requires forall x :: x in sent ==> x.Gossip? && x.mid == m && x.src == net[i].dst && x.dst != net[i].src
    ensures var left := net[..i] + net[i + 1..];
            Distinct(left + sent) && forall x :: x in left + sent ==> MailFine(u, m, x)
  {
    var left, a, b := net[..i] + net[i + 1..], net[i].src, net[i].dst;
    HungIsTree(t, a, b);
    DistinctLeft(net, i);
    forall x | x in left ensures MailFine(u, m, x) && x.src != b {
      Without(net, i);
      assert MailFine(t, m, x);
      var k :| 0 <= k < |left| && left[k] == x;
      assert x.Gossip? && x.src == a ==> x.dst != b;
    }
    forall x | x in sent ensures MailFine(u, m, x) {}
    forall k, j | 0 <= k < |left| && 0 <= j < |sent| ensures left[k].src != sent[j].src {
      assert left[k] in left && sent[j] in sent;
    }
  }

  lemma DistinctLeft(net: seq<Message>, i: nat)
    requires Distinct(net) && i < |net|
    ensures var left := net[..i] + net[i + 1..];
            Distinct(left)
            && forall k :: 0 <= k < |left| && left[k].Gossip? && net[i].Gossip? ==> left[k].src != net[i].src || left[k].dst != net[i].dst
  {
    var left := net[..i] + net[i + 1..];
    assert forall k :: 0 <= k < |left| ==> left[k] == net[if k < i then k else k + 1];
  }

  /** The links of a node that had the message already. */
  lemma OldLink(c: Config, g: World, t: Tree, m: string, i: nat, r: (Node, seq<Message>), n: string, q: string)
    requires Inv(c, g) && Flooding(c, g, t, m) && m in g.issued && i < |g.net| && n in t.all && n in g.nodes && n in c.nbrs && q in c.nbrs[n]
    requires var x := g.net[i];
             x.Gossip? && x.src in t.all && x.dst !in t.all && x.dst in g.nodes
             && (n == x.src || Gossip(x.dst, n, m, g.issued[m]) in r.1 || q != x.dst)
    ensures var x := g.net[i];
            LinkFine(After(g, x.dst, r, g.net[..i] + g.net[i + 1..], g.issued), Hung(t, x.src, x.dst), m, n, q)
  {
    var x := g.net[i];
    HungIsTree(t, x.src, x.dst);
    assert LinkFine(g, t, m, n, q);
    Without(g.net, i);
  }

  /** The links of the node that has just got it. */
  lemma NewLink(c: Config, g: World, t: Tree, m: string, i: nat, r: (Node, seq<Message>), q: string)
    requires Inv(c, g) && Flooding(c, g, t, m) && m in g.issued && i < |g.net|
    requires var x := g.net[i];
             x.Gossip? && x.mid == m && x.src in t.all && x.dst !in t.all && x.dst in g.nodes && x.dst in c.nbrs
             && x.src != x.dst && q in c.nbrs[x.dst]
             && r.0.eager == c.nbrs[x.dst] && (q == x.dst ==> Gossip(q, q, m, g.issued[m]) in r.1)
    ensures var x := g.net[i];
            LinkFine(After(g, x.dst, r, g.net[..i] + g.net[i + 1..], g.issued), Hung(t, x.src, x.dst), m, x.dst, q)
  {
    var x := g.net[i];
    HungIsTree(t, x.src, x.dst);
    Without(g.net, i);
    if q in t.all && q != x.src {
      CopyComing(c, g, t, m, q, x.dst);
    }
  }

  /** Between a node that has the message and a neighbour that lacks it, a copy is on its way. */
  lemma CopyComing(c: Config, g: World, t: Tree, m: string, q: string, n: string)
    requires Inv(c, g) && Flooding(c, g, t, m) && q in t.all && n !in t.all && n in c.nbrs && q in c.nbrs[n]
    ensures m in g.issued && Gossip(q, n, m, g.issued[m]) in g.net
  {
    assert q in Holders(g, m) && n !in Holders(g, m);
    CoveredNow(c, g, q, n, m);
    assert NodeFine(c, g, t, q) && NodeFine(c, g, t, n);
    forall x | x in g.net ensures !x.Ihave? && !x.Graft? { assert MailFine(t, m, x); }
  }

  lemma NodesStayFine(c: Config, g: World, t: Tree, n: string, r: (Node, seq<Message>), left: seq<Message>, u: Tree)
    requires NodesFine(c, g, t) && n in g.nodes && t.all <= u.all && n in u.all
    requires r.0.queue == [] && r.0.ihaveFrom == map[]
    ensures NodesFine(c, After(g, n, r, left, g.issued), u)
  {
    var h := After(g, n, r, left, g.issued);
    forall q | q in h.nodes && q in c.nbrs ensures NodeFine(c, h, u, q) { assert NodeFine(c, g, t, q); }
  }

  lemma FirstLinks(c: Config, g: World, t: Tree, m: string, i: nat, r: (Node, seq<Message>))
    requires Inv(c, g) && Flooding(c, g, t, m) && m in g.issued && i < |g.net|
    requires var x := g.net[i];
             && x.Gossip? && x.mid == m && x.src in t.all && x.dst !in t.all && x.dst in g.nodes && x.dst in c.nbrs
             && x.src in c.nbrs[x.dst] && r.0.eager == c.nbrs[x.dst]
             && forall q :: q in c.nbrs[x.dst] && q != x.src ==> Gossip(x.dst, q, m, g.issued[m]) in r.1
    ensures var x := g.net[i];
            LinksFine(c, After(g, x.dst, r, g.net[..i] + g.net[i + 1..], g.issued), Hung(t, x.src, x.dst), m)
  {
    var x := g.net[i];
    var h, u := After(g, x.dst, r, g.net[..i] + g.net[i + 1..], g.issued), Hung(t, x.src, x.dst);
    forall n, q | n in u.all && n in h.nodes && n in c.nbrs && q in c.nbrs[n] ensures LinkFine(h, u, m, n, q) {
      if n == x.dst {
        NewLink(c, g, t, m, i, r, q);
      } else {
        assert q == x.dst ==> n in c.nbrs[x.dst];
        OldLink(c, g, t, m, i, r, n, q);
      }
    }
  }

  lemma FirstSpans(c: Config, g: World, t: Tree, m: string, i: nat, r: (Node, seq<Message>))
    requires Spans(c, g, t, m) && i < |g.net|
    requires var x := g.net[i];
             x.src in t.all && x.dst !in t.all && x.dst in g.nodes && x.dst in c.nbrs && x.src in c.nbrs[x.dst] && m in r.0.received
    ensures var x := g.net[i];
            Spans(c, After(g, x.dst, r, g.net[..i] + g.net[i + 1..], g.issued), Hung(t, x.src, x.dst), m)
  {
    var x := g.net[i];
    HungIsTree(t, x.src, x.dst);
    ReachedHolders(g, x.dst, r, g.net[..i] + g.net[i + 1..], m);
  }

  lemma FirstSends(c: Config, t: Tree, m: string, net: seq<Message>, i: nat, nbrs: set<string>, es: seq<string>, sent: seq<Message>)
    requires IsTree(t) && i < |net| && net[i].Gossip? && net[i].src in t.all && net[i].dst !in t.all && Walks(es, nbrs)
    requires Distinct(net) && forall x {:trigger MailFine(t, m, x)} :: x in net ==> MailFine(t, m, x)
    requires sent == Pushes(net[i].dst, es, m, net[i].payload, {net[i].src})
    ensures forall q :: q in nbrs && q != net[i].src ==> Gossip(net[i].dst, q, m, net[i].payload) in sent
    ensures var left := net[..i] + net[i + 1..];
            Distinct(left + sent) && forall x :: x in left + sent ==> MailFine(Hung(t, net[i].src, net[i].dst), m, x)
  {
    var x := net[i];
    PushesExact(x.dst, es, m, x.payload, {x.src});
    DistinctPushes(x.dst, es, m, x.payload, {x.src});
    FirstMail(t, Hung(t, x.src, x.dst), m, net, i, sent);
  }

  lemma FirstFloods(c: Config, g: World, t: Tree, m: string, i: nat, es: seq<string>, ls: seq<string>)
    requires Inv(c, g) && Flooding(c, g, t, m) && Enabled(c, g, Receive(i, es, ls))
    requires g.net[i].Gossip? && g.net[i].dst !in t.all
    ensures g.net[i].src in t.depth
    ensures Flooding(c, Step(c, g, Receive(i, es, ls)), Hung(t, g.net[i].src, g.net[i].dst), m)
  {
    var x := g.net[i];
    FirstAt(c, g, t, m, x);
    FirstReceipt(c, g.nodes[x.dst], c.nbrs[x.dst], g.issued, x, es, ls);
    ReceiveStep(c, g, i, es, ls);
    FirstTaken(c, g, t, m, i, es, Handled(g.nodes[x.dst], Me(c, x.dst), x, es, ls));
  }

  lemma FirstTaken(c: Config, g: World, t: Tree, m: string, i: nat, es: seq<string>, r: (Node, seq<Message>))
    requires Inv(c, g) && Flooding(c, g, t, m) && m in g.issued && i < |g.net|
    requires var x := g.net[i];
             && x.Gossip? && x.mid == m && x.src in t.all && x.dst !in t.all && x.dst in g.nodes && x.dst in c.nbrs
             && x.src in c.nbrs[x.dst] && x.payload == g.issued[m] && Walks(es, c.nbrs[x.dst])
             && r.0.eager == c.nbrs[x.dst] && m in r.0.received && r.0.queue == [] && r.0.ihaveFrom == map[]
             && r.1 == Pushes(x.dst, es, m, x.payload, {x.src})
    ensures var x := g.net[i];
            Flooding(c, After(g, x.dst, r, g.net[..i] + g.net[i + 1..], g.issued), Hung(t, x.src, x.dst), m)
  {
    var x := g.net[i];
    FirstSends(c, t, m, g.net, i, c.nbrs[x.dst], es, r.1);
    FirstSpans(c, g, t, m, i, r);
    NodesStayFine(c, g, t, x.dst, r, g.net[..i] + g.net[i + 1..], Hung(t, x.src, x.dst));
    FirstLinks(c, g, t, m, i, r);
  }

  // ---- A repeated copy, or a prune -------------------------------------------------------

  lemma LazyLink(c: Config, g: World, t: Tree, m: string, i: nat, r: (Node, seq<Message>), n: string, q: string)
    requires Flooding(c, g, t, m) && i < |g.net| && n in t.all && n in g.nodes && n in c.nbrs && q in c.nbrs[n]
    requires var x := g.net[i];
             x.src in t.all && x.dst in t.all && x.dst in g.nodes && !Linked(t, x.src, x.dst)
             && r.0.eager == g.nodes[x.dst].eager - {x.src}
    ensures var x := g.net[i]; LinkFine(After(g, x.dst, r, g.net[..i] + g.net[i + 1..], g.issued), t, m, n, q)
  {
    var x := g.net[i];
    assert LinkFine(g, t, m, n, q);
    Without(g.net, i);
  }

  lemma LazySpans(c: Config, g: World, t: Tree, m: string, n: string, r: (Node, seq<Message>), left: seq<Message>)
    requires Spans(c, g, t, m) && n in g.nodes && r.0.received == g.nodes[n].received
    ensures Spans(c, After(g, n, r, left, g.issued), t, m)
  {
    var h := After(g, n, r, left, g.issued);
    forall q ensures q in Holders(h, m) <==> q in Holders(g, m) { assert Holds(h, q, m) <==> Holds(g, q, m); }
  }

  lemma LazyMail(t: Tree, m: string, net: seq<Message>, i: nat, sent: seq<Message>)
    requires Distinct(net) && i < |net| && forall x {:trigger MailFine(t, m, x)} :: x in net ==> MailFine(t, m, x)
    requires |sent| <= 1 && forall x :: x in sent ==> x.Prune? && MailFine(t, m, x)
    ensures var left := net[..i] + net[i + 1..];
            Distinct(left + sent) && forall x :: x in left + sent ==> MailFine(t, m, x)
  {
    var left := net[..i] + net[i + 1..];
    DistinctLeft(net, i);
    forall x | x in left ensures MailFine(t, m, x) { Without(net, i); }
    assert forall k :: 0 <= k < |sent| ==> sent[k] in sent;
  }

  lemma LazyLinks(c: Config, g: World, t: Tree, m: string, i: nat, r: (Node, seq<Message>))
    requires Flooding(c, g, t, m) && i < |g.net|
    requires var x := g.net[i];
             x.src in t.all && x.dst in t.all && x.dst in g.nodes && !Linked(t, x.src, x.dst)
             && r.0.eager == g.nodes[x.dst].eager - {x.src}
    ensures LinksFine(c, After(g, g.net[i].dst, r, g.net[..i] + g.net[i + 1..], g.issued), t, m)
  {
    var h := After(g, g.net[i].dst, r, g.net[..i] + g.net[i + 1..], g.issued);
    forall n, q | n in t.all && n in h.nodes && n in c.nbrs && q in c.nbrs[n] ensures LinkFine(h, t, m, n, q) {
      LazyLink(c, g, t, m, i, r, n, q);
    }
  }

  lemma LazyFloods(c: Config, g: World, t: Tree, m: string, i: nat, es: seq<string>, ls: seq<string>)
    requires Flooding(c, g, t, m) && Enabled(c, g, Receive(i, es, ls)) && g.net[i].dst in t.all && g.net[i].dst in c.nbrs
    ensures Flooding(c, Step(c, g, Receive(i, es, ls)), t, m)
  {
    var x, left := g.net[i], g.net[..i] + g.net[i + 1..];
    assert MailFine(t, m, x);
    ReceiveStep(c, g, i, es, ls);
    assert x.dst in Holders(g, m);
    var s := g.nodes[x.dst];
    assert NodeFine(c, g, t, x.dst);
    var r: (Node, seq<Message>) := (Lazily(s, x.src), if x.Gossip? then [Prune(x.dst, x.src)] else []);
    var h := After(g, x.dst, r, left, g.issued);
    assert Step(c, g, Receive(i, es, ls)) == h;
    LazySpans(c, g, t, m, x.dst, r, left);
    LazyMail(t, m, g.net, i, r.1);
    NodesStayFine(c, g, t, x.dst, r, left, t);
    LazyLinks(c, g, t, m, i, r);
  }

  // ---- Runs ------------------------------------------------------------------------------

  lemma ReceiptFloods(c: Config, g: World, t: Tree, m: string, e: Event) returns (u: Tree)
    requires Inv(c, g) && Flooding(c, g, t, m) && e.Receive?
    ensures Inv(c, Step(c, g, e)) && Flooding(c, Step(c, g, e), u, m) && Step(c, g, e).issued == g.issued
  {
    u := t;
    StepKeeps(c, g, e);
    if Enabled(c, g, e) {
      assert MailOk(c, g, g.net[e.i]);
      if g.net[e.i].dst in t.all {
        LazyFloods(c, g, t, m, e.i, e.es, e.ls);
      } else {
        assert MailFine(t, m, g.net[e.i]);
        FirstFloods(c, g, t, m, e.i, e.es, e.ls);
        u := Hung(t, g.net[e.i].src, g.net[e.i].dst);
      }
    }
  }

  /** A node with nothing queued and nothing to wait for ticks to no effect. */
  lemma QuietTick(s: Node, me: Setup, nbrs: set<string>, mids: seq<string>)
    requires LinksOk(s, nbrs) && s.queue == [] && Walks(mids, s.missing.Keys) && s.missing.Keys == {}
    ensures Tick(s, me, nbrs, mids) == (s, [])
  {
    SyncedIsNothing(s, nbrs);
    SomeIn(mids);
    assert s.(queue := []) == s;
    assert mids == [] && RepairedAll(s, me, mids) == (s, []);
    assert Flushed(me.id, s.queue) + [] == [];
  }

  lemma BeatFloods(c: Config, g: World, t: Tree, m: string, n: string, mids: seq<string>)
    requires Inv(c, g) && NodesFine(c, g, t) && Enabled(c, g, Beat(n, mids))
    ensures Step(c, g, Beat(n, mids)) == g
  {
    var s := g.nodes[n];
    assert NodeFine(c, g, t, n) && NodeOk(s, c.nbrs[n], g.issued);
    QuietTick(s, Me(c, n), c.nbrs[n], mids);
    assert g.nodes[n := s] == g.nodes && g.net + [] == g.net && g.log + [] == g.log;
  }

  lemma {:induction false} RunFloods(c: Config, g: World, t: Tree, m: string, events: seq<Event>) returns (u: Tree)
    requires Inv(c, g) && Flooding(c, g, t, m) && NoBroadcast(events)
    ensures var h := Run(c, g, events); Inv(c, h) && Flooding(c, h, u, m) && h.issued == g.issued
    decreases |events|
  {
    u := t;
    if events != [] {
      var e := events[0];
      if e.Receive? {
        u := ReceiptFloods(c, g, t, m, e);
      } else if Enabled(c, g, e) {
        BeatFloods(c, g, t, m, e.n, e.mids);
      }
      u := RunFloods(c, Step(c, g, e), u, m, events[1..]);
    }
  }

  lemma FloodedAll(c: Config, g: World, t: Tree, m: string)
    requires Inv(c, g) && Connected(c) && Flooding(c, g, t, m) && m in g.issued && g.net == []
    ensures Holders(g, m) == g.nodes.Keys
  {
    forall n | n in g.nodes ensures Idle(g.nodes[n]) { assert NodeFine(c, g, t, n); }
    forall n | n in g.nodes ensures n in Holders(g, m) { QuietHasAll(c, g, n, m); }
  }

  lemma TreeLinkIsLink(c: Config, g: World, t: Tree, m: string, n: string, b: string)
    requires Symmetric(c) && Spans(c, g, t, m) && Linked(t, n, b) && n in c.nbrs
    ensures b in c.nbrs[n] && b in t.all
  {
    if b in t.parent && t.parent[b] == n {
      assert n in c.nbrs[b];
    } else {
      assert t.parent[n] == b;
    }
  }

  lemma EagerInTree(g: World, t: Tree, m: string, nbrs: set<string>, n: string, b: string)
    requires n in g.nodes && g.net == [] && LinksOk(g.nodes[n], nbrs) && nbrs <= t.all
    requires Linked(t, n, b) ==> b in nbrs
    requires b in nbrs ==> LinkFine(g, t, m, n, b)
    ensures b in g.nodes[n].eager <==> b in LinksOf(t, n)
  {
  }

  lemma NeighboursAreNodes(c: Config, g: World, n: string)
    requires Symmetric(c) && g.nodes.Keys == c.nbrs.Keys && n in c.nbrs
    ensures c.nbrs[n] <= g.nodes.Keys
  {
  }

  lemma EagerAreLinks(c: Config, g: World, t: Tree, m: string, n: string)
    requires Symmetric(c) && Spans(c, g, t, m) && LinksFine(c, g, t, m) && g.net == []
    requires t.all == g.nodes.Keys == c.nbrs.Keys && n in g.nodes && LinksOk(g.nodes[n], c.nbrs[n])
    ensures g.nodes[n].eager == LinksOf(t, n)
  {
    NeighboursAreNodes(c, g, n);
    forall b ensures b in g.nodes[n].eager <==> b in LinksOf(t, n) {
      if Linked(t, n, b) { TreeLinkIsLink(c, g, t, m, n, b); }
      if b in c.nbrs[n] { assert LinkFine(g, t, m, n, b); }
      EagerInTree(g, t, m, c.nbrs[n], n, b);
    }
  }

  /** With nothing left in flight the eager links are exactly those of the tree. */
  lemma FloodedIsTree(c: Config, g: World, t: Tree, m: string)
    requires Inv(c, g) && Connected(c) && Flooding(c, g, t, m) && m in g.issued && g.net == []
    ensures EagerIsTree(t, g) && Holders(g, m) == g.nodes.Keys
  {
    FloodedAll(c, g, t, m);
    forall n | n in g.nodes ensures g.nodes[n].eager == LinksOf(t, n) {
      HasRoom(c, g, n);
      EagerAreLinks(c, g, t, m, n);
    }
  }

  /** The first broadcast builds a spanning tree: from a start with every link eager, whatever the
      order of the receipts and whenever nodes tick, once nothing is in flight every node has the message and the eager
      links are those of a tree. */
  lemma FloodBuildsTree(c: Config, g: World, n: string, mid: string, payload: string, es: seq<string>, ls: seq<string>,
                        middle: seq<Event>) returns (t: Tree)
    requires Symmetric(c) && Connected(c) && Start(c, g) && AllEager(c, g)
    requires Enabled(c, g, Issue(n, mid, payload, es, ls)) && NoBroadcast(middle)
    requires Run(c, Step(c, g, Issue(n, mid, payload, es, ls)), middle).net == []
    ensures var h := Run(c, Step(c, g, Issue(n, mid, payload, es, ls)), middle);
            EagerIsTree(t, h) && Holders(h, mid) == c.nbrs.Keys && Inv(c, h)
  {
    IssueFloods(c, g, n, mid, payload, es, ls);
    t := RunFloods(c, Step(c, g, Issue(n, mid, payload, es, ls)), Root(n), mid, middle);
    FloodedIsTree(c, Run(c, Step(c, g, Issue(n, mid, payload, es, ls)), middle), t, mid);
  }

  /** So later broadcasts cost one copy per node, with nothing assumed of the links: counting from
      the end of the flood, in any run without a graft, a message of which no copy is in flight has
      reached everyone at the cost of one copy fewer than there are nodes. */
  lemma AfterFloodOneCopyEach(c: Config, g: World, n: string, mid: string, payload: string, es: seq<string>, ls: seq<string>,
                              middle: seq<Event>, events: seq<Event>, m: string)
    requires Symmetric(c) && Connected(c) && Start(c, g) && AllEager(c, g)
    requires Enabled(c, g, Issue(n, mid, payload, es, ls)) && NoBroadcast(middle)
    requires var f := Run(c, Step(c, g, Issue(n, mid, payload, es, ls)), middle);
             var h := Run(c, f.(log := []), events);
             && f.net == [] && m in h.issued && m !in f.issued
             && (forall x :: x in h.log ==> !x.Graft?) && (forall x :: x in h.net ==> !(x.Gossip? && x.mid == m))
    ensures var f := Run(c, Step(c, g, Issue(n, mid, payload, es, ls)), middle);
            var h := Run(c, f.(log := []), events);
            Holders(h, m) == c.nbrs.Keys && |Copies(h.log, m)| == |c.nbrs| - 1 && LinksUnchanged(f, h)
  {
    var t := FloodBuildsTree(c, g, n, mid, payload, es, ls, middle);
    var f := Run(c, Step(c, g, Issue(n, mid, payload, es, ls)), middle);
    Recounted(c, t, f);
    TreeBroadcastCost(t, c, f.(log := []), events, m);
    TreeBroadcastTotal(t, c, f.(log := []), events, m);
    assert f.nodes.Keys == c.nbrs.Keys && |c.nbrs| == |c.nbrs.Keys| && |f.nodes| == |f.nodes.Keys|;
  }

  lemma SameNews(c: Config, f: World, g: World)
    requires Inv(c, f) && g.nodes == f.nodes && g.net == f.net && g.issued == f.issued
    ensures Truthful(c, g)
  {
    forall n | n in g.nodes ensures NotesOk(c, g, n) {
      assert NotesOk(c, f, n);
      forall q, m | Candidate(g.nodes[n], q, m) ensures Holds(g, q, m) { assert Holds(f, q, m); }
    }
    forall x | x in g.net ensures MailOk(c, g, x) { SameMail(c, f, g, x); }
  }

  lemma SameMail(c: Config, f: World, g: World, x: Message)
    requires MailOk(c, f, x) && g.nodes == f.nodes && g.issued == f.issued
    ensures MailOk(c, g, x)
  {
    assert forall n, m :: Holds(f, n, m) ==> Holds(g, n, m);
  }

  lemma SameCover(c: Config, f: World, g: World)
    requires Inv(c, f) && Shape(c, g) && g.nodes == f.nodes && g.net == f.net && g.issued == f.issued
    ensures Complete(c, g)
  {
    forall n, p, m | Holds(g, n, m) && p in c.nbrs[n] ensures Covered(g, n, p, m) {
      assert Holds(f, n, m);
      assert Covered(f, n, p, m);
    }
    forall m | m in g.issued ensures Held(g, m) {
      assert Held(f, m);
      var n :| Holds(f, n, m);
      assert Holds(g, n, m);
    }
  }

  /** What was sent before does not matter to what comes. */
  lemma Recounted(c: Config, t: Tree, f: World)
    requires Inv(c, f) && EagerIsTree(t, f) && f.net == []
    ensures Inv(c, f.(log := [])) && TreeStart(t, f.(log := []))
  {
    var g := f.(log := []);
    assert Shape(c, g);
    SameNews(c, f, g);
    SameCover(c, f, g);
  }
}
