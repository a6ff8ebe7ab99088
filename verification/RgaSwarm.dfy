/** Whole runs of uniquely named replicas that edit locally and exchange digests. A published
    digest stays available for ever, so any delay, reordering, duplication or loss of digests is
    some run of this system. */
module RgaSwarm {
  import opened RgaTree
  import opened RgaEdits

  datatype Swarm<T> = Swarm(nodes: map<string, Node<T>>, published: seq<Doc<T>>)

  datatype Event<T> =
    | Insert(node: string, index: int, value: T)
    | Delete(node: string, index: int)
    | Publish(node: string)
    | Receive(node: string, digest: Doc<T>)

  /** Every document in the system: a replica's own or one on its way. */
  ghost predicate Held<T>(s: Swarm<T>, d: Doc<T>) {
    d in s.published || exists n :: n in s.nodes && s.nodes[n].doc == d
  }

  /** `d` is a proper tree and only holds ids its nodes have minted. */
  ghost predicate Minted<T>(s: Swarm<T>, d: Doc<T>) {
    Grounded(d) && forall x :: x in d ==> x.node in s.nodes && x.counter <= s.nodes[x.node].counter
  }

  ghost predicate Consistent<T(!new)>(s: Swarm<T>) {
    && (forall n :: n in s.nodes ==> Indexed(s.nodes[n]))
    && (forall d :: Held(s, d) ==> Minted(s, d))
    && (forall d, e :: Held(s, d) && Held(s, e) ==> Agree(d, e))
  }

  /** The counter bounds every id the node knows. */
  ghost predicate Indexed<T>(n: Node<T>) {
    n.counter >= 0 && forall x :: x in n.doc ==> x.counter <= n.counter
  }

  ghost function Init<T(!new)>(names: set<string>): (s: Swarm<T>)
    ensures Consistent(s)
  {
    Swarm(map n | n in names :: Node(0, map[]), [])
  }

  ghost predicate Enabled<T>(s: Swarm<T>, e: Event<T>) {
    e.node in s.nodes && (e.Receive? ==> e.digest in s.published)
  }

  ghost function Step<T(!new)>(s: Swarm<T>, e: Event<T>): Swarm<T>
    requires Consistent(s)
  {
    if !Enabled(s, e) then s
    else
      var n := s.nodes[e.node];
      assert Held(s, n.doc) && Minted(s, n.doc);
      match e
      case Insert(name, index, v) => s.(nodes := s.nodes[name := AfterInsert(name, n, index, v)])
      case Delete(name, index) => s.(nodes := s.nodes[name := AfterDelete(n, index)])
      case Publish(name) => s.(published := s.published + [n.doc])
      case Receive(name, d) => s.(nodes := s.nodes[name := AfterReceive(n, d)])
  }

  /** A new document that agrees with everything held, at a node whose counter did not drop,
      keeps the system consistent. */
  lemma ReplaceNode<T(!new)>(s: Swarm<T>, name: string, n: Node<T>)
    requires Consistent(s) && name in s.nodes && n.counter >= s.nodes[name].counter
    requires Indexed(n) && Minted(s.(nodes := s.nodes[name := n]), n.doc)
    requires forall d :: Held(s, d) ==> Agree(d, n.doc) && Agree(n.doc, d)
    ensures Consistent(s.(nodes := s.nodes[name := n]))
  {
    var t := s.(nodes := s.nodes[name := n]);
    forall d | Held(t, d) ensures d == n.doc || Held(s, d) {
      if d !in s.published {
        var m :| m in t.nodes && t.nodes[m].doc == d;
        if m != name { assert s.nodes[m].doc == d; }
      }
    }
    forall d | Held(t, d) ensures Minted(t, d) {
      if d != n.doc { assert Minted(s, d); }
    }
  }

  lemma InsertStep<T(!new)>(s: Swarm<T>, name: string, index: int, v: T)
    requires Consistent(s) && name in s.nodes
    ensures Consistent(Step(s, Insert(name, index, v)))
  {
    var n := s.nodes[name];
    assert Held(s, n.doc) && Minted(s, n.doc);
    if index <= |Visible(n.doc)| {
      var n', e := AfterInsert(name, n, index, v), Id(n.counter + 1, name);
      PredecessorPresent(n.doc, if index < 0 then 0 else index);
      InsertGrounded(n.doc, e, v, Predecessor(n.doc, if index < 0 then 0 else index));
      forall d | Held(s, d) ensures Agree(d, n'.doc) && Agree(n'.doc, d) {
        assert Minted(s, d) && Agree(d, n.doc);
      }
      ReplaceNode(s, name, n');
    } else {
      assert s.nodes[name := n] == s.nodes;
    }
  }

  lemma DeleteStep<T(!new)>(s: Swarm<T>, name: string, index: int)
    requires Consistent(s) && name in s.nodes
    ensures Consistent(Step(s, Delete(name, index)))
  {
    var n := s.nodes[name];
    assert Held(s, n.doc) && Minted(s, n.doc);
    if 0 <= index < |Visible(n.doc)| {
      VisibleMembers(n.doc);
      assert Visible(n.doc)[index] in Visible(n.doc);
      TombstoneKeepsWalk(n.doc, Visible(n.doc)[index]);
      forall d | Held(s, d) ensures Agree(d, AfterDelete(n, index).doc) && Agree(AfterDelete(n, index).doc, d) {
        assert Agree(d, n.doc);
      }
      ReplaceNode(s, name, AfterDelete(n, index));
    } else {
      assert s.nodes[name := n] == s.nodes;
    }
  }

  lemma ReceiveStep<T(!new)>(s: Swarm<T>, name: string, digest: Doc<T>)
    requires Consistent(s) && name in s.nodes && digest in s.published
    ensures Consistent(Step(s, Receive(name, digest)))
  {
    var n := s.nodes[name];
    var n' := AfterReceive(n, digest);
    assert Held(s, n.doc) && Held(s, digest);
    assert Minted(s, n.doc) && Minted(s, digest);
    MergedGrounded(n.doc, digest);
    forall d | Held(s, d) ensures Agree(d, n'.doc) && Agree(n'.doc, d) {
      assert Agree(d, n.doc) && Agree(d, digest);
    }
    ReplaceNode(s, name, n');
  }

  lemma StepConsistent<T(!new)>(s: Swarm<T>, e: Event<T>)
    requires Consistent(s)
    ensures Consistent(Step(s, e))
  {
    if Enabled(s, e) {
      match e
      case Insert(name, index, v) => InsertStep(s, name, index, v);
      case Delete(name, index) => DeleteStep(s, name, index);
      case Publish(name) =>
        assert Held(s, s.nodes[name].doc);
        assert forall d :: Held(Step(s, e), d) ==> Held(s, d);
        assert forall d :: Minted(s, d) ==> Minted(Step(s, e), d);
      case Receive(name, d) => ReceiveStep(s, name, d);
    }
  }

  /** The state after a run; every reachable state is consistent. */
  ghost function Run<T(!new)>(s: Swarm<T>, events: seq<Event<T>>): (t: Swarm<T>)
    requires Consistent(s)
    ensures Consistent(t)
    decreases |events|
  {
    if events == [] then s
    else
      StepConsistent(s, events[0]);
      Run(Step(s, events[0]), events[1..])
  }

  // ---- What holds of every run ---------------------------------------------------------

  /** Any two reachable replicas can be merged in either direction, with one result, and the
      merge keeps the full order of both. */
  lemma ReachableMergesConverge<T(!new)>(names: set<string>, events: seq<Event<T>>, m: string, n: string)
    requires m in Run(Init(names), events).nodes && n in Run(Init(names), events).nodes
    ensures var a, b := Run(Init(names), events).nodes[m].doc, Run(Init(names), events).nodes[n].doc;
            && Grounded(a) && Grounded(b) && Grounded(Merged(a, b))
            && Merged(a, b) == Merged(b, a)
            && Restrict(Walk(Merged(a, b)), a.Keys) == Walk(a)
            && Restrict(Walk(Merged(a, b)), b.Keys) == Walk(b)
  {
    var s := Run(Init(names), events);
    var a, b := s.nodes[m].doc, s.nodes[n].doc;
    assert Held(s, a) && Held(s, b);
    assert Minted(s, a) && Minted(s, b) && Agree(a, b);
    MergeNeverReorders(a, b);
    MergeCommutes(a, b);
  }

  /** Replicas that know the same insertions and the same deletions show the same text, however
      the digests reached them. */
  lemma SameUpdatesSameText<T(!new)>(names: set<string>, events: seq<Event<T>>, m: string, n: string)
    requires m in Run(Init(names), events).nodes && n in Run(Init(names), events).nodes
    requires Run(Init(names), events).nodes[m].doc.Keys == Run(Init(names), events).nodes[n].doc.Keys
    requires LiveIds(Run(Init(names), events).nodes[m].doc) == LiveIds(Run(Init(names), events).nodes[n].doc)
    ensures Grounded(Run(Init(names), events).nodes[m].doc) && Grounded(Run(Init(names), events).nodes[n].doc)
    ensures Text(Run(Init(names), events).nodes[m].doc) == Text(Run(Init(names), events).nodes[n].doc)
  {
    var s := Run(Init(names), events);
    var a, b := s.nodes[m].doc, s.nodes[n].doc;
    assert Held(s, a) && Held(s, b);
    assert Minted(s, a) && Minted(s, b) && Agree(a, b);
    forall x | x in a ensures a[x] == b[x] {
      assert x in LiveIds(a) <==> x in LiveIds(b);
    }
    assert a == b;
  }

  lemma StepExtends<T(!new)>(s: Swarm<T>, e: Event<T>, n: string)
    requires Consistent(s) && n in s.nodes
    ensures n in Step(s, e).nodes && Extends(Step(s, e).nodes[n].doc, s.nodes[n].doc)
  {
    assert Held(s, s.nodes[n].doc) && Minted(s, s.nodes[n].doc);
  }

  lemma InsertionShows<T(!new)>(name: string, n: Node<T>, i: int, v: T)
    requires Grounded(n.doc) && Fresh(n.doc, Id(n.counter + 1, name))
    ensures var d, w := n.doc, AfterInsert(name, n, i, v);
            && Grounded(w.doc)
            && (i <= |Text(d)| ==> w.counter == n.counter + 1 && Text(w.doc) == Spliced(Text(d), if i < 0 then 0 else i, v))
            && (i > |Text(d)| ==> w == n)
  {
    VisibleKnown(n.doc);
    if i <= |Visible(n.doc)| {
      InsertRefinesList(n.doc, Id(n.counter + 1, name), v, if i < 0 then 0 else i, AfterInsert(name, n, i, v).doc);
    }
  }

  lemma DeletionShows<T(!new)>(n: Node<T>, i: int)
    requires Grounded(n.doc)
    ensures var d, w := n.doc, AfterDelete(n, i);
            && Grounded(w.doc) && w.counter == n.counter
            && (0 <= i < |Text(d)| ==> Text(w.doc) == Text(d)[..i] + Text(d)[i + 1..])
            && (i < 0 || i >= |Text(d)| ==> w == n)
  {
    VisibleKnown(n.doc);
    if 0 <= i < |Visible(n.doc)| { DeleteRefinesList(n.doc, i); }
  }

  /** A receipt leaves everything the digest and the replica had, with the deletions of both. */
  lemma ReceiptShows<T(!new)>(n: Node<T>, g: Doc<T>)
    ensures var d, w := n.doc, AfterReceive(n, g).doc;
            w.Keys == d.Keys + g.Keys && LiveIds(w) == w.Keys - Dead(d) - Dead(g)
    ensures AfterReceive(n, g).counter >= n.counter && forall x :: x in g ==> x.counter <= AfterReceive(n, g).counter
  {
    var w := AfterReceive(n, g);
    forall x | x in g ensures x.counter <= w.counter { assert x in w.doc; }
  }

  /** What an event does at its node is what the call of the replica does; other nodes are not
      concerned. */
  lemma EventShows<T(!new)>(s: Swarm<T>, e: Event<T>)
    requires Consistent(s) && Enabled(s, e)
    ensures Grounded(s.nodes[e.node].doc) && Fresh(s.nodes[e.node].doc, Id(s.nodes[e.node].counter + 1, e.node))
    ensures Step(s, e).nodes.Keys == s.nodes.Keys && forall m :: m in s.nodes && m != e.node ==> Step(s, e).nodes[m] == s.nodes[m]
    ensures var n, n' := s.nodes[e.node], Step(s, e).nodes[e.node];
            match e
            case Insert(name, i, v) => n' == AfterInsert(name, n, i, v)
            case Delete(_, i) => n' == AfterDelete(n, i)
            case Publish(_) => n' == n && Step(s, e).published == s.published + [n.doc]
            case Receive(_, g) => n' == AfterReceive(n, g)
  {
    MintedIsFresh(s, e.node);
    assert Held(s, s.nodes[e.node].doc) && Minted(s, s.nodes[e.node].doc);
  }

  ghost function Dead<T>(d: Doc<T>): set<Id> {
    set x | x in d && d[x].deleted
  }

  lemma MintedIsFresh<T(!new)>(s: Swarm<T>, name: string)
    requires Consistent(s) && name in s.nodes
    ensures Fresh(s.nodes[name].doc, Id(s.nodes[name].counter + 1, name))
  {
    assert Held(s, s.nodes[name].doc) && Minted(s, s.nodes[name].doc);
    assert Indexed(s.nodes[name]);
  }

  /** A replica never reorders what it already had, whatever happens later in the run: its
      earlier walk is its later walk with the later arrivals left out. */
  lemma {:induction false} HistoryNeverReorders<T(!new)>(s: Swarm<T>, later: seq<Event<T>>, n: string)
    requires Consistent(s) && n in s.nodes
    ensures n in Run(s, later).nodes
    ensures Extends(Run(s, later).nodes[n].doc, s.nodes[n].doc)
    ensures Grounded(s.nodes[n].doc) && Grounded(Run(s, later).nodes[n].doc)
    ensures Restrict(Walk(Run(s, later).nodes[n].doc), s.nodes[n].doc.Keys) == Walk(s.nodes[n].doc)
    decreases |later|
  {
    if later != [] {
      StepConsistent(s, later[0]);
      StepExtends(s, later[0], n);
      HistoryNeverReorders(Step(s, later[0]), later[1..], n);
    }
    var t := Run(s, later);
    assert Held(s, s.nodes[n].doc) && Minted(s, s.nodes[n].doc);
    assert Held(t, t.nodes[n].doc) && Minted(t, t.nodes[n].doc);
    WalkExtends(s.nodes[n].doc, t.nodes[n].doc);
  }
}
