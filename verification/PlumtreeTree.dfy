/** The cost of a broadcast over a tree: while the eager links form a spanning tree and nobody has
    to graft, each broadcast sends one full copy per node, in any delivery order, and no link
    changes. */
module PlumtreeTree {
  import opened Plumtree
  import opened PlumtreeSwarm
  import opened PlumtreeHandlers
  import opened PlumtreeRuns
  import opened Seqs
  import opened TreeFront

  /** The full copies of `m` among `msgs`, as the links they were sent along. */
  function Copies(msgs: seq<Message>, m: string): seq<(string, string)> {
    if msgs == [] then []
    else
      var n := |msgs| - 1;
      Copies(msgs[..n], m) + if msgs[n].Gossip? && msgs[n].mid == m then [(msgs[n].src, msgs[n].dst)] else []
  }

  lemma {:induction false} CopiesConcat(a: seq<Message>, b: seq<Message>, m: string)
    ensures Copies(a + b, m) == Copies(a, m) + Copies(b, m)
  {
    if b == [] {
      assert a + b == a;
    } else {
      var n := |b| - 1;
      assert (a + b)[..|a + b| - 1] == a + b[..n];
      CopiesConcat(a, b[..n], m);
    }
  }

  lemma CopiesOne(x: Message, m: string)
    ensures Copies([x], m) == if x.Gossip? && x.mid == m then [(x.src, x.dst)] else []
  {
    assert [x][..0] == [];
  }

  lemma {:induction false} NoCopies(msgs: seq<Message>, m: string)
    requires forall x :: x in msgs ==> !(x.Gossip? && x.mid == m)
    ensures Copies(msgs, m) == []
  {
    if msgs != [] {
      assert msgs[|msgs| - 1] in msgs;
      NoCopies(msgs[..|msgs| - 1], m);
    }
  }

  lemma {:induction false} CopyIsSent(msgs: seq<Message>, m: string, x: Message)
    requires x in msgs && x.Gossip? && x.mid == m
    ensures Copies(msgs, m) != []
  {
    var n := |msgs| - 1;
    if x != msgs[n] {
      assert msgs == msgs[..n] + [msgs[n]];
      CopyIsSent(msgs[..n], m, x);
    }
  }

  /** The copies a node pushes go, once each, to the peers walked but not skipped. */
  lemma {:induction false} PushedCopies(me: string, peers: seq<string>, mid: string, payload: string, skip: set<string>)
    requires NoRepeats(peers)
    ensures Targets(Copies(Pushes(me, peers, mid, payload, skip), mid))
    ensures forall f :: f in Copies(Pushes(me, peers, mid, payload, skip), mid) <==> f.0 == me && f.1 in peers && f.1 !in skip
  {
    if peers != [] {
      var n := |peers| - 1;
      PushedCopies(me, peers[..n], mid, payload, skip);
      var x := Gossip(me, peers[n], mid, payload);
      CopiesConcat(Pushes(me, peers[..n], mid, payload, skip), if peers[n] in skip then [] else [x], mid);
      CopiesOne(x, mid);
      assert peers == peers[..n] + [peers[n]];
    }
  }

  lemma PushesOnly(me: string, peers: seq<string>, mid: string, payload: string, skip: set<string>, m: string)
    requires m != mid
    ensures Copies(Pushes(me, peers, mid, payload, skip), m) == []
  {
    PushesExact(me, peers, mid, payload, skip);
    NoCopies(Pushes(me, peers, mid, payload, skip), m);
  }

  // ---- The invariant ---------------------------------------------------------------------

  ghost function Holders(g: World, m: string): set<string> {
    set n | n in g.nodes && Holds(g, n, m)
  }

  ghost predicate EagerIsTree(t: Tree, g: World) {
    && IsTree(t) && t.all == g.nodes.Keys
    && forall n :: n in g.nodes ==> g.nodes[n].eager == LinksOf(t, n)
  }

  /** Message `m` is on its way over the tree, with one copy sent for each holder but the first
      and each copy in flight. */
  ghost predicate OnTree(t: Tree, g: World, m: string)
    requires IsTree(t)
  {
    && (exists top :: Front(t, Holders(g, m), top, Copies(g.net, m)))
    && |Copies(g.log, m)| == |Holders(g, m)| - 1 + |Copies(g.net, m)|
  }

  ghost predicate Traced(t: Tree, g: World, earlier: set<string>, m: string)
    requires IsTree(t)
  {
    if m in earlier then Copies(g.net, m) == []
    else if m in g.issued then OnTree(t, g, m)
    else Copies(g.net, m) == [] && Copies(g.log, m) == []
  }

  ghost predicate NoLinkChanges(msgs: seq<Message>) {
    forall x :: x in msgs ==> !x.Prune? && !x.Graft?
  }

  ghost predicate TreeInv(t: Tree, g: World, earlier: set<string>) {
    && EagerIsTree(t, g) && NoLinkChanges(g.net) && (forall x :: x in g.log ==> !x.Prune?)
    && earlier <= g.issued.Keys
    && forall m {:trigger Traced(t, g, earlier, m)} :: Traced(t, g, earlier, m)
  }

  /** A swarm at any reachable point where the eager links are a tree, no full copy and no link
      change is in flight, and counting starts. */
  ghost predicate TreeStart(t: Tree, g: World) {
    EagerIsTree(t, g) && g.log == [] && forall x :: x in g.net ==> x.Ihave?
  }

  lemma StartTraced(t: Tree, g: World)
    requires TreeStart(t, g)
    ensures TreeInv(t, g, g.issued.Keys)
  {
    forall m ensures Traced(t, g, g.issued.Keys, m) { NoCopies(g.net, m); }
  }

  // ---- Steps -----------------------------------------------------------------------------

  /** A step of `n` that changes no eager set and sends no copy of `m`, and does not receive it. */
  lemma QuietFor(t: Tree, g: World, earlier: set<string>, n: string, r: (Node, seq<Message>), left: seq<Message>,
                 issued: map<string, string>, m: string)
    requires TreeInv(t, g, earlier) && n in g.nodes
    requires Copies(left, m) == Copies(g.net, m) && Copies(r.1, m) == []
    requires m in r.0.received <==> m in g.nodes[n].received
    requires m in issued <==> m in g.issued
    ensures Traced(t, After(g, n, r, left, issued), earlier, m)
  {
    var h := After(g, n, r, left, issued);
    CopiesConcat(left, r.1, m);
    CopiesConcat(g.log, r.1, m);
    assert Traced(t, g, earlier, m);
    assert Holders(h, m) == Holders(g, m);
    assert Copies(h.net, m) == Copies(g.net, m) && Copies(h.log, m) == Copies(g.log, m);
  }

  lemma OnTreeWith(t: Tree, g: World, m: string, top: string)
    requires IsTree(t) && Front(t, Holders(g, m), top, Copies(g.net, m))
    requires |Copies(g.log, m)| == |Holders(g, m)| - 1 + |Copies(g.net, m)|
    ensures OnTree(t, g, m)
  {
  }

  lemma IssueTraced(t: Tree, c: Config, g: World, earlier: set<string>, n: string, mid: string, payload: string,
                    es: seq<string>, r: (Node, seq<Message>))
    requires TreeInv(t, g, earlier) && n in g.nodes && mid !in g.issued && Holders(g, mid) == {}
    requires mid in r.0.received && Walks(es, LinksOf(t, n)) && r.1 == Pushes(n, es, mid, payload, {})
    ensures Traced(t, After(g, n, r, g.net, g.issued[mid := payload]), earlier, mid)
  {
    var h := After(g, n, r, g.net, g.issued[mid := payload]);
    PushedCopies(n, es, mid, payload, {});
    CopiesConcat(g.net, r.1, mid);
    CopiesConcat(g.log, r.1, mid);
    assert Traced(t, g, earlier, mid);
    FrontStarts(t, n, Copies(r.1, mid));
    IssuedHolders(g, n, r, mid, payload);
    OnTreeWith(t, h, mid, n);
  }

  lemma IssuedHolders(g: World, n: string, r: (Node, seq<Message>), mid: string, payload: string)
    requires n in g.nodes && Holders(g, mid) == {} && mid in r.0.received
    ensures Holders(After(g, n, r, g.net, g.issued[mid := payload]), mid) == {n}
  {
    var h := After(g, n, r, g.net, g.issued[mid := payload]);
    forall q ensures q in Holders(h, mid) <==> q == n {
      assert q !in Holders(g, mid);
      assert Holds(h, q, mid) <==> Holds(g, q, mid) || q == n;
    }
  }

  lemma CopiesAround(net: seq<Message>, i: nat, m: string)
    requires i < |net|
    ensures Copies(net, m) == Copies(net[..i], m) + Copies([net[i]], m) + Copies(net[i + 1..], m)
    ensures Copies(net[..i] + net[i + 1..], m) == Copies(net[..i], m) + Copies(net[i + 1..], m)
  {
    SplitAt(net, i);
    CopiesConcat(net[..i] + [net[i]], net[i + 1..], m);
    CopiesConcat(net[..i], [net[i]], m);
    CopiesConcat(net[..i], net[i + 1..], m);
  }

  /** A copy in flight heads for a node that lacks the message. */
  lemma CopyIsFirst(t: Tree, g: World, earlier: set<string>, i: nat)
    requires TreeInv(t, g, earlier) && i < |g.net| && g.net[i].Gossip?
    ensures var x := g.net[i];
            x.mid !in earlier && x.mid in g.issued && Outward(t, Holders(g, x.mid), (x.src, x.dst))
            && x.dst in g.nodes && x.mid !in g.nodes[x.dst].received
  {
    var x := g.net[i];
    CopiesAround(g.net, i, x.mid);
    CopiesOne(x, x.mid);
    assert Traced(t, g, earlier, x.mid);
    assert (x.src, x.dst) in Copies(g.net, x.mid);
    assert x.dst !in Holders(g, x.mid);
  }

  /** The delivery of a copy, as a move of the front. */
  lemma CopyTraced(t: Tree, g: World, earlier: set<string>, i: nat, es: seq<string>, r: (Node, seq<Message>))
    requires TreeInv(t, g, earlier) && i < |g.net| && g.net[i].Gossip? && g.net[i].dst in g.nodes
    requires var x := g.net[i];
             x.mid in r.0.received && Walks(es, LinksOf(t, x.dst)) && r.1 == Pushes(x.dst, es, x.mid, x.payload, {x.src})
    ensures Traced(t, After(g, g.net[i].dst, r, g.net[..i] + g.net[i + 1..], g.issued), earlier, g.net[i].mid)
  {
    var x, m, left := g.net[i], g.net[i].mid, g.net[..i] + g.net[i + 1..];
    var h, f := After(g, x.dst, r, left, g.issued), (x.src, x.dst);
    CopyIsFirst(t, g, earlier, i);
    CopiesAround(g.net, i, m);
    CopiesOne(x, m);
    PushedCopies(x.dst, es, m, x.payload, {x.src});
    CopiesConcat(left, r.1, m);
    CopiesConcat(g.log, r.1, m);
    assert Traced(t, g, earlier, m);
    var top :| Front(t, Holders(g, m), top, Copies(g.net, m));
    var newTop := FrontAdvances(t, Holders(g, m), top, Copies(g.net[..i], m), f, Copies(g.net[i + 1..], m), Copies(r.1, m));
    ReachedHolders(g, x.dst, r, left, m);
    OnTreeWith(t, h, m, newTop);
  }

  lemma ReachedHolders(g: World, n: string, r: (Node, seq<Message>), left: seq<Message>, m: string)
    requires n in g.nodes && m in r.0.received
    ensures Holders(After(g, n, r, left, g.issued), m) == Holders(g, m) + {n}
  {
    var h := After(g, n, r, left, g.issued);
    forall q ensures q in Holders(h, m) <==> q in Holders(g, m) || q == n {
      assert Holds(h, q, m) <==> Holds(g, q, m) || q == n;
    }
  }

  /** The parts of the invariant that do not concern a single message. */
  lemma LinksKept(t: Tree, g: World, earlier: set<string>, n: string, r: (Node, seq<Message>), left: seq<Message>, issued: map<string, string>)
    requires TreeInv(t, g, earlier) && n in g.nodes && r.0.eager == g.nodes[n].eager && NoLinkChanges(r.1)
    requires (forall x :: x in left ==> x in g.net) && g.issued.Keys <= issued.Keys
    requires forall m :: Traced(t, After(g, n, r, left, issued), earlier, m)
    ensures TreeInv(t, After(g, n, r, left, issued), earlier)
  {
  }

  ghost predicate SameLinks(s: Node, t: Node) {
    s.eager == t.eager && s.lazy == t.lazy
  }

  ghost predicate LinksUnchanged(g: World, h: World) {
    forall n :: n in g.nodes ==> n in h.nodes && SameLinks(g.nodes[n], h.nodes[n])
  }

  lemma LinksAfter(g: World, n: string, r: (Node, seq<Message>), left: seq<Message>, issued: map<string, string>)
    requires n in g.nodes && SameLinks(g.nodes[n], r.0)
    ensures LinksUnchanged(g, After(g, n, r, left, issued))
  {
  }

  lemma TreeIssue(t: Tree, c: Config, g: World, earlier: set<string>, n: string, mid: string, payload: string, es: seq<string>, ls: seq<string>)
    requires Inv(c, g) && TreeInv(t, g, earlier) && Enabled(c, g, Issue(n, mid, payload, es, ls))
    ensures var h := Step(c, g, Issue(n, mid, payload, es, ls));
            TreeInv(t, h, earlier) && LinksUnchanged(g, h)
  {
    var s := g.nodes[n];
    assert NodeOk(s, c.nbrs[n], g.issued);
    SyncedIsNothing(s, c.nbrs[n]);
    IssuedMore(s, c.nbrs[n], g.issued, mid, payload);
    RoomFor(s, g.issued[mid := payload], mid);
    BroadcastGrows(s, Me(c, n), c.nbrs[n], mid, payload, es, ls);
    forall q | q in Holders(g, mid) ensures false { HeldIssued(c, g, q, mid); }
    GrownTraced(t, c, g, earlier, n, mid, payload, es, Announcements(ls, mid, {}));
    LinksAfter(g, n, Broadcast(s, Me(c, n), c.nbrs[n], mid, payload, es, ls), g.net, g.issued[mid := payload]);
  }

  lemma GrownTraced(t: Tree, c: Config, g: World, earlier: set<string>, n: string, mid: string, payload: string,
                    es: seq<string>, more: seq<(string, string)>)
    requires TreeInv(t, g, earlier) && n in g.nodes && mid !in g.issued && Holders(g, mid) == {}
    requires Walks(es, LinksOf(t, n))
    ensures var r := (Grown(g.nodes[n], mid, payload, more), Pushes(n, es, mid, payload, {}));
            TreeInv(t, After(g, n, r, g.net, g.issued[mid := payload]), earlier)
  {
    var r := (Grown(g.nodes[n], mid, payload, more), Pushes(n, es, mid, payload, {}));
    PushesExact(n, es, mid, payload, {});
    var h := After(g, n, r, g.net, g.issued[mid := payload]);
    forall m ensures Traced(t, h, earlier, m) {
      if m == mid {
        IssueTraced(t, c, g, earlier, n, mid, payload, es, r);
      } else {
        PushesOnly(n, es, mid, payload, {}, m);
        QuietFor(t, g, earlier, n, r, g.net, g.issued[mid := payload], m);
      }
    }
    LinksKept(t, g, earlier, n, r, g.net, g.issued[mid := payload]);
  }

  lemma HasRoom(c: Config, g: World, n: string)
    requires Inv(c, g) && n in g.nodes
    ensures n in c.nbrs && LinksOk(g.nodes[n], c.nbrs[n]) && CacheOk(g.nodes[n], g.issued)
    ensures g.issued != map[] ==> |g.issued| <= c.cap
  {
    assert NodeOk(g.nodes[n], c.nbrs[n], g.issued);
  }

  lemma FirstCopy(s: Node, me: Setup, nbrs: set<string>, issued: map<string, string>, x: Message, es: seq<string>, ls: seq<string>)
    requires LinksOk(s, nbrs) && CacheOk(s, issued) && |issued| <= me.cap
    requires x.Gossip? && x.mid in issued && x.mid !in s.received && x.src in s.eager
    requires Walks(es, s.eager + {x.src})
    ensures var r := OnGossip(s, me, x.src, x.mid, x.payload, es, ls);
            SameLinks(s, r.0) && Walks(es, s.eager) && r.0.received == s.received[x.mid := x.payload]
            && r.1 == Pushes(me.id, es, x.mid, x.payload, {x.src})
  {
    TakenKeeps(s, me, issued, x, es, ls);
    assert s.eager + {x.src} == s.eager && s.lazy - {x.src} == s.lazy;
  }

  /** The first copy comes in over a tree link, so it changes no link. */
  lemma FirstCopyKeepsLinks(c: Config, t: Tree, g: World, earlier: set<string>, i: nat, es: seq<string>, ls: seq<string>)
    requires Inv(c, g) && TreeInv(t, g, earlier) && Enabled(c, g, Receive(i, es, ls)) && g.net[i].Gossip?
    ensures var x, s := g.net[i], g.nodes[g.net[i].dst];
            var r := Handled(s, Me(c, x.dst), x, es, ls);
            SameLinks(s, r.0) && Walks(es, LinksOf(t, x.dst)) && r.0.received == s.received[x.mid := x.payload]
            && r.1 == Pushes(x.dst, es, x.mid, x.payload, {x.src})
  {
    var x, s := g.net[i], g.nodes[g.net[i].dst];
    CopyIsFirst(t, g, earlier, i);
    HasRoom(c, g, x.dst);
    assert x.src in LinksOf(t, x.dst);
    FirstCopy(s, Me(c, x.dst), c.nbrs[x.dst], g.issued, x, es, ls);
  }

  lemma TreeCopy(t: Tree, c: Config, g: World, earlier: set<string>, i: nat, es: seq<string>, ls: seq<string>)
    requires Inv(c, g) && TreeInv(t, g, earlier) && Enabled(c, g, Receive(i, es, ls)) && g.net[i].Gossip?
    ensures var h := Step(c, g, Receive(i, es, ls));
            TreeInv(t, h, earlier) && LinksUnchanged(g, h)
  {
    var x, left := g.net[i], g.net[..i] + g.net[i + 1..];
    var r := Handled(g.nodes[x.dst], Me(c, x.dst), x, es, ls);
    ReceiveStep(c, g, i, es, ls);
    FirstCopyKeepsLinks(c, t, g, earlier, i, es, ls);
    PushesExact(x.dst, es, x.mid, x.payload, {x.src});
    Without(g.net, i);
    CopyMoves(t, g, earlier, i, es, r, After(g, x.dst, r, left, g.issued));
    LinksKept(t, g, earlier, x.dst, r, left, g.issued);
    LinksAfter(g, x.dst, r, left, g.issued);
  }

  lemma CopyMoves(t: Tree, g: World, earlier: set<string>, i: nat, es: seq<string>, r: (Node, seq<Message>), h: World)
    requires TreeInv(t, g, earlier) && i < |g.net| && g.net[i].Gossip? && g.net[i].dst in g.nodes
    requires var x, s := g.net[i], g.nodes[g.net[i].dst];
             && r.0.received == s.received[x.mid := x.payload] && Walks(es, LinksOf(t, x.dst))
             && r.1 == Pushes(x.dst, es, x.mid, x.payload, {x.src})
    requires h == After(g, g.net[i].dst, r, g.net[..i] + g.net[i + 1..], g.issued)
    ensures forall m :: Traced(t, h, earlier, m)
  {
    forall m ensures Traced(t, h, earlier, m) {
      if m == g.net[i].mid {
        CopyTraced(t, g, earlier, i, es, r);
      } else {
        OtherMoves(t, g, earlier, i, es, r, m);
      }
    }
  }

  /** The delivery of a copy is nothing to the other messages. */
  lemma OtherMoves(t: Tree, g: World, earlier: set<string>, i: nat, es: seq<string>, r: (Node, seq<Message>), m: string)
    requires TreeInv(t, g, earlier) && i < |g.net| && g.net[i].Gossip? && g.net[i].dst in g.nodes && m != g.net[i].mid
    requires var x, s := g.net[i], g.nodes[g.net[i].dst];
             r.0.received == s.received[x.mid := x.payload] && r.1 == Pushes(x.dst, es, x.mid, x.payload, {x.src})
    ensures Traced(t, After(g, g.net[i].dst, r, g.net[..i] + g.net[i + 1..], g.issued), earlier, m)
  {
    var x := g.net[i];
    CopiesAround(g.net, i, m);
    CopiesOne(x, m);
    PushesOnly(x.dst, es, x.mid, x.payload, {x.src}, m);
    QuietFor(t, g, earlier, x.dst, r, g.net[..i] + g.net[i + 1..], g.issued, m);
  }

  /** A step that keeps links and cache and sends no copies. */
  lemma SilentStepTraced(t: Tree, g: World, earlier: set<string>, n: string, r: (Node, seq<Message>), left: seq<Message>)
    requires TreeInv(t, g, earlier) && n in g.nodes && SameLinks(g.nodes[n], r.0) && r.0.received == g.nodes[n].received
    requires forall x :: x in r.1 ==> x.Ihave?
    requires (forall x :: x in left ==> x in g.net) && forall m :: Copies(left, m) == Copies(g.net, m)
    ensures TreeInv(t, After(g, n, r, left, g.issued), earlier)
  {
    forall m ensures Traced(t, After(g, n, r, left, g.issued), earlier, m) {
      NoCopies(r.1, m);
      QuietFor(t, g, earlier, n, r, left, g.issued, m);
    }
    LinksKept(t, g, earlier, n, r, left, g.issued);
  }

  lemma HearsOnly(c: Config, g: World, x: Message)
    requires Inv(c, g) && x in g.net && x.Ihave? && x.dst in g.nodes
    ensures var s, r := g.nodes[x.dst], OnIhave(g.nodes[x.dst], x.src, x.ids);
            SameLinks(s, r) && r.received == s.received
  {
    assert MailOk(c, g, x) && NodeOk(g.nodes[x.dst], c.nbrs[x.dst], g.issued);
    forall m | m in x.ids ensures m in g.issued { HeldIssued(c, g, x.src, m); }
    IhaveHears(g.nodes[x.dst], c.nbrs[x.dst], g.issued, x.src, x.ids);
  }

  lemma TreeIhave(t: Tree, c: Config, g: World, earlier: set<string>, i: nat, es: seq<string>, ls: seq<string>)
    requires Inv(c, g) && TreeInv(t, g, earlier) && Enabled(c, g, Receive(i, es, ls)) && g.net[i].Ihave?
    ensures var h := Step(c, g, Receive(i, es, ls));
            TreeInv(t, h, earlier) && LinksUnchanged(g, h)
  {
    var x, left := g.net[i], g.net[..i] + g.net[i + 1..];
    ReceiveStep(c, g, i, es, ls);
    HearsOnly(c, g, x);
    Without(g.net, i);
    forall m ensures Copies(left, m) == Copies(g.net, m) {
      CopiesAround(g.net, i, m);
      CopiesOne(x, m);
    }
    var r: (Node, seq<Message>) := (OnIhave(g.nodes[x.dst], x.src, x.ids), []);
    SilentStepTraced(t, g, earlier, x.dst, r, left);
    LinksAfter(g, x.dst, r, left, g.issued);
  }

  /** A tick that grafts nobody leaves the links alone. */
  lemma {:induction false} NoGraftNoChange(s: Node, me: Setup, mids: seq<string>)
    requires forall x :: x in RepairedAll(s, me, mids).1 ==> !x.Graft?
    ensures SameLinks(s, RepairedAll(s, me, mids).0) && RepairedAll(s, me, mids).0.received == s.received
    ensures RepairedAll(s, me, mids).1 == []
  {
    if mids != [] {
      var n := |mids| - 1;
      var (b, sent) := RepairedAll(s, me, mids[..n]);
      var (r, more) := Repaired(b, me, mids[n]);
      assert forall x :: x in sent ==> x in sent + more;
      assert forall x :: x in more ==> x in sent + more;
      NoGraftNoChange(s, me, mids[..n]);
      SomeIn(more);
    }
  }

  lemma TreeBeat(t: Tree, c: Config, g: World, earlier: set<string>, n: string, mids: seq<string>)
    requires Inv(c, g) && TreeInv(t, g, earlier) && Enabled(c, g, Beat(n, mids))
    requires forall x :: x in Step(c, g, Beat(n, mids)).log ==> !x.Graft?
    ensures var h := Step(c, g, Beat(n, mids));
            TreeInv(t, h, earlier) && LinksUnchanged(g, h)
  {
    var s := g.nodes[n];
    assert NodeOk(s, c.nbrs[n], g.issued);
    SyncedIsNothing(s, c.nbrs[n]);
    var f, r := s.(queue := []), Tick(s, Me(c, n), c.nbrs[n], mids);
    var grafts := RepairedAll(f, Me(c, n), mids).1;
    forall x | x in grafts ensures !x.Graft? {
      assert x in r.1;
      assert x in g.log + r.1;
    }
    NoGraftNoChange(f, Me(c, n), mids);
    FlushedExact(n, s.queue);
    SilentStepTraced(t, g, earlier, n, r, g.net);
    LinksAfter(g, n, r, g.net, g.issued);
  }

  // ---- Runs ------------------------------------------------------------------------------

  lemma TreeReceive(t: Tree, c: Config, g: World, earlier: set<string>, i: nat, es: seq<string>, ls: seq<string>)
    requires Inv(c, g) && TreeInv(t, g, earlier) && Enabled(c, g, Receive(i, es, ls))
    ensures var h := Step(c, g, Receive(i, es, ls)); TreeInv(t, h, earlier) && LinksUnchanged(g, h)
  {
    OnlyMail(g, i);
    if g.net[i].Gossip? {
      TreeCopy(t, c, g, earlier, i, es, ls);
    } else {
      TreeIhave(t, c, g, earlier, i, es, ls);
    }
  }

  lemma OnlyMail(g: World, i: nat)
    requires NoLinkChanges(g.net) && i < |g.net|
    ensures g.net[i].Gossip? || g.net[i].Ihave?
  {
    assert g.net[i] in g.net;
  }

  lemma TreeStep(t: Tree, c: Config, g: World, earlier: set<string>, e: Event)
    requires Inv(c, g) && TreeInv(t, g, earlier) && forall x :: x in Step(c, g, e).log ==> !x.Graft?
    ensures var h := Step(c, g, e);
            TreeInv(t, h, earlier) && LinksUnchanged(g, h)
  {
    if Enabled(c, g, e) {
      match e
      case Issue(n, mid, payload, es, ls) => TreeIssue(t, c, g, earlier, n, mid, payload, es, ls);
      case Receive(i, es, ls) => TreeReceive(t, c, g, earlier, i, es, ls);
      case Beat(n, mids) => TreeBeat(t, c, g, earlier, n, mids);
    }
  }

  lemma {:induction false} TreeRun(t: Tree, c: Config, g: World, earlier: set<string>, events: seq<Event>)
    requires Inv(c, g) && TreeInv(t, g, earlier) && forall x :: x in Run(c, g, events).log ==> !x.Graft?
    ensures var h := Run(c, g, events);
            TreeInv(t, h, earlier) && LinksUnchanged(g, h)
    decreases |events|
  {
    if events != [] {
      var h := Step(c, g, events[0]);
      LogGrows(c, h, events[1..]);
      StepKeeps(c, g, events[0]);
      TreeStep(t, c, g, earlier, events[0]);
      TreeRun(t, c, h, earlier, events[1..]);
    }
  }

  /** Over any run with no graft: no prune is sent, no link changes, and each new broadcast has
      sent one copy for each node reached beyond the first and each copy still in flight. */
  lemma TreeBroadcastCost(t: Tree, c: Config, g: World, events: seq<Event>, m: string)
    requires Inv(c, g) && TreeStart(t, g) && forall x :: x in Run(c, g, events).log ==> !x.Graft?
    requires m in Run(c, g, events).issued && m !in g.issued
    ensures var h := Run(c, g, events);
            && (forall x :: x in h.log ==> !x.Prune?)
            && LinksUnchanged(g, h)
            && |Copies(h.log, m)| == |Holders(h, m)| - 1 + |Copies(h.net, m)|
  {
    StartTraced(t, g);
    TreeRun(t, c, g, g.issued.Keys, events);
    assert Traced(t, Run(c, g, events), g.issued.Keys, m);
  }

  /** When no copy is in flight any more, every node has the message, and it took exactly one
      copy fewer than there are nodes. */
  lemma TreeBroadcastTotal(t: Tree, c: Config, g: World, events: seq<Event>, m: string)
    requires Inv(c, g) && TreeStart(t, g) && forall x :: x in Run(c, g, events).log ==> !x.Graft?
    requires m in Run(c, g, events).issued && m !in g.issued
    requires forall x :: x in Run(c, g, events).net ==> !(x.Gossip? && x.mid == m)
    ensures var h := Run(c, g, events);
            Holders(h, m) == g.nodes.Keys && |Copies(h.log, m)| == |g.nodes| - 1
  {
    StartTraced(t, g);
    TreeRun(t, c, g, g.issued.Keys, events);
    var h := Run(c, g, events);
    assert Traced(t, h, g.issued.Keys, m);
    NoCopies(h.net, m);
    var top :| Front(t, Holders(h, m), top, Copies(h.net, m));
    FrontEnds(t, Holders(h, m), top);
    assert t.all == g.nodes.Keys;
  }
}
