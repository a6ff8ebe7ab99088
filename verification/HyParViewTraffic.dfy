/** HyParView message chains end: every delivery uses up weight, which only joins and ticks
    supply. Packets go to a transport address, and are lost when nobody listens there. */
module HyParViewTraffic {
  import opened HyParView
  import opened HyParViewSafety
  import opened Seqs
  import opened Sums

  function Max(a: int, b: int): int {
    if a > b then a else b
  }

  /** How many packets a packet can still cause, counting itself. */
  function Weight(c: Sizes, body: Body): nat {
    match body
    case Disconnect(_) => 1
    case NeighborReply(_, _, _) => 2
    case Neighbor(_, _, _) => 4
    case ForwardJoin(_, _, ttl) => 6 + Max(ttl, 0)
    case Join(_, _) => 6 + Times(6 + Max(c.arwl, 0), Max(c.activeSize, 0))
    case ShuffleReply(_, _, _) => 1
    case Shuffle(_, _, _, ttl) => 2 + Max(ttl, 0)
  }

  function NetWeight(c: Sizes, net: seq<Packet>): nat {
    if net == [] then 0 else NetWeight(c, net[..|net| - 1]) + Weight(c, net[|net| - 1].body)
  }

  lemma {:induction false} NetWeightConcat(c: Sizes, a: seq<Packet>, b: seq<Packet>)
    ensures NetWeight(c, a + b) == NetWeight(c, a) + NetWeight(c, b)
  {
    if b == [] {
      assert a + b == a;
    } else {
      var n := |b| - 1;
      assert (a + b)[..|a + b| - 1] == a + b[..n];
      NetWeightConcat(c, a, b[..n]);
    }
  }

  lemma NetWeightLast(c: Sizes, a: seq<Packet>, x: Packet)
    ensures NetWeight(c, a + [x]) == NetWeight(c, a) + Weight(c, x.body)
  {
    assert (a + [x])[..|a|] == a;
  }

  lemma NetWeightWithout(c: Sizes, a: seq<Packet>, x: Packet, b: seq<Packet>)
    ensures NetWeight(c, (a + [x]) + b) == NetWeight(c, a + b) + Weight(c, x.body)
  {
    NetWeightConcat(c, a + [x], b);
    NetWeightConcat(c, a, b);
    NetWeightLast(c, a, x);
  }

  // ---- Handlers --------------------------------------------------------------------------

  lemma SentWeight(c: Sizes, me: Self, v: View, nid: string, body: Body)
    ensures NetWeight(c, Sent(me, v, nid, body)) <= Weight(c, body)
  {
    NetWeightLast(c, [], Packet("", me.id, body));
    if nid in v.book {
      NetWeightLast(c, [], Packet(v.book[nid], me.id, body));
      assert [] + [Packet(v.book[nid], me.id, body)] == Sent(me, v, nid, body);
    }
  }

  lemma {:induction false} SentAllWeight(c: Sizes, me: Self, v: View, peers: seq<string>, skip: string, body: Body)
    ensures NetWeight(c, SentAll(me, v, peers, skip, body)) <= Times(Weight(c, body), |peers|)
  {
    if peers != [] {
      var n := |peers| - 1;
      SentAllWeight(c, me, v, peers[..n], skip, body);
      SentWeight(c, me, v, peers[n], body);
      NetWeightConcat(c, SentAll(me, v, peers[..n], skip, body), if peers[n] == skip then [] else Sent(me, v, peers[n], body));
    }
  }

  /** Making a peer active sends at most one goodbye. */
  lemma AddActiveWeight(c: Sizes, me: Self, v: View, nid: string, r: Rng, k: nat)
    ensures NetWeight(c, AddActive(c, me, v, nid, r, k).1) <= 1
  {
    var free := v.(passive := v.passive - {nid});
    if free.active != {} {
      var victim := r.pick(k, free.active);
      var w := AddPassive(c, me, free.(active := free.active - {victim}), victim, r, k + 1);
      SentWeight(c, me, w, victim, Disconnect(me.id));
    }
  }

  lemma SpreadWeight(c: Sizes, me: Self, w: View, nid: string, addr: string, r: Rng)
    requires |w.active| <= c.activeSize && Fair(r)
    ensures NetWeight(c, SentAll(me, w, r.walk(w.active), nid, ForwardJoin(nid, addr, c.arwl)))
            <= Times(6 + Max(c.arwl, 0), Max(c.activeSize, 0))
  {
    SentAllWeight(c, me, w, r.walk(w.active), nid, ForwardJoin(nid, addr, c.arwl));
    WalkLength(r.walk(w.active), w.active);
    TimesMonotone(6 + Max(c.arwl, 0), |w.active|, c.activeSize);
  }

  lemma ThreeWeights(c: Sizes, x: seq<Packet>, y: seq<Packet>, z: seq<Packet>)
    ensures NetWeight(c, x + y + z) == NetWeight(c, x) + NetWeight(c, y) + NetWeight(c, z)
  {
    NetWeightConcat(c, x, y);
    NetWeightConcat(c, x + y, z);
  }

  lemma JoinParts(c: Sizes, me: Self, w: View, dropped: seq<Packet>, nid: string, addr: string, r: Rng)
    requires |w.active| <= c.activeSize && Fair(r) && NetWeight(c, dropped) <= 1
    ensures NetWeight(c, dropped + Sent(me, w, nid, Neighbor(me.id, me.address, true))
                         + SentAll(me, w, r.walk(w.active), nid, ForwardJoin(nid, addr, c.arwl))) < Weight(c, Join(nid, addr))
  {
    SpreadWeight(c, me, w, nid, addr, r);
    var link := Neighbor(me.id, me.address, true);
    SentWeight(c, me, w, nid, link);
    ThreeWeights(c, dropped, Sent(me, w, nid, link), SentAll(me, w, r.walk(w.active), nid, ForwardJoin(nid, addr, c.arwl)));
  }

  lemma JoinWeight(c: Sizes, me: Self, v: View, nid: string, addr: string, r: Rng)
    requires Safe(c, me, v) && Sized(c) && Fair(r)
    ensures NetWeight(c, OnJoin(c, me, v, nid, addr, r).1) < Weight(c, Join(nid, addr))
  {
    var known := Recorded(me, v, nid, addr);
    RecordedSafe(c, me, v, nid, addr);
    AddActiveSafe(c, me, known, nid, r, 0);
    AddActiveWeight(c, me, known, nid, r, 0);
    var (w, dropped) := AddActive(c, me, known, nid, r, 0);
    JoinParts(c, me, w, dropped, nid, addr, r);
  }

  /** A walk that starts with this life ends: it runs out, or no node has a second active peer to
      send it on to. */
  predicate Ends(c: Sizes, ttl: int) {
    ttl >= 0 || c.activeSize == 1
  }

  /** The packet is no walk that goes on for ever, and starts none. */
  predicate Alive(c: Sizes, body: Body) {
    && (body.ForwardJoin? ==> Ends(c, body.ttl))
    && (body.Join? ==> Ends(c, c.arwl))
  }

  /** A forwarded join, as long as its walk ends. */
  lemma ForwardJoinWeight(c: Sizes, me: Self, v: View, src: string, nid: string, addr: string, ttl: int, r: Rng)
    requires Ends(c, ttl) && |v.active| <= c.activeSize
    ensures NetWeight(c, OnForwardJoin(c, me, v, src, nid, addr, ttl, r).1) < Weight(c, ForwardJoin(nid, addr, ttl))
  {
    var known := Recorded(me, v, nid, addr);
    if ttl == 0 || |known.active| <= 1 {
      AddActiveWeight(c, me, known, nid, r, 0);
      var (w, dropped) := AddActive(c, me, known, nid, r, 0);
      SentWeight(c, me, w, nid, Neighbor(me.id, me.address, true));
      NetWeightConcat(c, dropped, Sent(me, w, nid, Neighbor(me.id, me.address, true)));
    } else {
      var w := if ttl == c.prwl then AddPassive(c, me, known, nid, r, 0) else known;
      AddActiveWeight(c, me, w, nid, r, 1);
      SentWeight(c, me, w, r.pick(1, w.active - {src, nid}), ForwardJoin(nid, addr, ttl - 1));
    }
  }

  lemma NeighborWeight(c: Sizes, me: Self, v: View, nid: string, addr: string, high: bool, r: Rng)
    ensures NetWeight(c, OnNeighbor(c, me, v, nid, addr, high, r).1) < Weight(c, Neighbor(nid, addr, high))
  {
    var known := Recorded(me, v, nid, addr);
    var accept := high || |known.active| < c.activeSize;
    AddActiveWeight(c, me, known, nid, r, 0);
    var (w, dropped) := if accept then AddActive(c, me, known, nid, r, 0) else (known, []);
    SentWeight(c, me, w, nid, NeighborReply(me.id, me.address, accept));
    NetWeightConcat(c, dropped, Sent(me, w, nid, NeighborReply(me.id, me.address, accept)));
  }

  lemma ShuffleWeight(c: Sizes, me: Self, v: View, src: string, origin: string, originAddr: string,
                      nodes: seq<(string, string)>, ttl: int, r: Rng)
    ensures NetWeight(c, OnShuffle(c, me, v, src, origin, originAddr, nodes, ttl, r).1) < Weight(c, Shuffle(origin, originAddr, nodes, ttl))
  {
    var known := Recorded(me, v, origin, originAddr);
    SentWeight(c, me, known, r.pick(0, known.active - {src}), Shuffle(origin, originAddr, nodes, ttl - 1));
    SentWeight(c, me, known, origin, ShuffleReply(me.id, me.address, Sampled(me, known, r)));
  }

  /** Whatever a delivery sets off weighs less than the packet delivered. */
  lemma HandledWeight(c: Sizes, me: Self, v: View, src: string, body: Body, r: Rng)
    requires Safe(c, me, v) && Sized(c) && Fair(r) && Alive(c, body)
    ensures NetWeight(c, Handled(c, me, v, src, body, r).1) < Weight(c, body)
  {
    match body
    case Join(nid, addr) => JoinWeight(c, me, v, nid, addr, r);
    case ForwardJoin(nid, addr, ttl) => ForwardJoinWeight(c, me, v, src, nid, addr, ttl, r);
    case Neighbor(nid, addr, high) => NeighborWeight(c, me, v, nid, addr, high, r);
    case NeighborReply(nid, addr, _) => AddActiveWeight(c, me, Recorded(me, v, nid, addr), nid, r, 0);
    case Disconnect(_) =>
    case Shuffle(origin, originAddr, nodes, ttl) => ShuffleWeight(c, me, v, src, origin, originAddr, nodes, ttl, r);
    case ShuffleReply(_, _, _) =>
  }

  ghost predicate AllAlive(c: Sizes, net: seq<Packet>) {
    forall x :: x in net ==> Alive(c, x.body)
  }

  lemma {:induction false} SentAllAlive(c: Sizes, me: Self, v: View, peers: seq<string>, skip: string, body: Body)
    requires Alive(c, body)
    ensures AllAlive(c, SentAll(me, v, peers, skip, body))
  {
    if peers != [] {
      SentAllAlive(c, me, v, peers[..|peers| - 1], skip, body);
    }
  }

  lemma AddActiveAlive(c: Sizes, me: Self, v: View, nid: string, r: Rng, k: nat)
    ensures AllAlive(c, AddActive(c, me, v, nid, r, k).1)
  {
  }

  lemma JoinAlive(c: Sizes, me: Self, v: View, nid: string, addr: string, r: Rng)
    requires Ends(c, c.arwl)
    ensures AllAlive(c, OnJoin(c, me, v, nid, addr, r).1)
  {
    var known := Recorded(me, v, nid, addr);
    AddActiveAlive(c, me, known, nid, r, 0);
    var w := AddActive(c, me, known, nid, r, 0).0;
    SentAllAlive(c, me, w, r.walk(w.active), nid, ForwardJoin(nid, addr, c.arwl));
  }

  lemma WalkOnAlive(c: Sizes, me: Self, w: View, src: string, nid: string, addr: string, ttl: int, r: Rng)
    requires Ends(c, ttl - 1)
    ensures AllAlive(c, Sent(me, w, r.pick(1, w.active - {src, nid}), ForwardJoin(nid, addr, ttl - 1)))
    ensures AllAlive(c, AddActive(c, me, w, nid, r, 1).1)
  {
    AddActiveAlive(c, me, w, nid, r, 1);
  }

  lemma LinkBackAlive(c: Sizes, me: Self, w: View, nid: string, dropped: seq<Packet>)
    requires AllAlive(c, dropped)
    ensures AllAlive(c, dropped + Sent(me, w, nid, Neighbor(me.id, me.address, true)))
  {
  }

  lemma ForwardJoinAlive(c: Sizes, me: Self, v: View, src: string, nid: string, addr: string, ttl: int, r: Rng)
    requires Ends(c, ttl)
    ensures AllAlive(c, OnForwardJoin(c, me, v, src, nid, addr, ttl, r).1)
  {
    var known := Recorded(me, v, nid, addr);
    if ttl == 0 || |known.active| <= 1 {
      AddActiveAlive(c, me, known, nid, r, 0);
      var (w, dropped) := AddActive(c, me, known, nid, r, 0);
      LinkBackAlive(c, me, w, nid, dropped);
    } else {
      WalkOnAlive(c, me, if ttl == c.prwl then AddPassive(c, me, known, nid, r, 0) else known, src, nid, addr, ttl, r);
    }
  }

  /** Live walks cause only live walks. */
  lemma HandledAlive(c: Sizes, me: Self, v: View, src: string, body: Body, r: Rng)
    requires Alive(c, body)
    ensures AllAlive(c, Handled(c, me, v, src, body, r).1)
  {
    match body
    case Join(nid, addr) => JoinAlive(c, me, v, nid, addr, r);
    case ForwardJoin(nid, addr, ttl) => ForwardJoinAlive(c, me, v, src, nid, addr, ttl, r);
    case Neighbor(nid, addr, _) => AddActiveAlive(c, me, Recorded(me, v, nid, addr), nid, r, 0);
    case NeighborReply(nid, addr, _) => AddActiveAlive(c, me, Recorded(me, v, nid, addr), nid, r, 0);
    case Disconnect(_) =>
    case Shuffle(_, _, _, _) =>
    case ShuffleReply(_, _, _) =>
  }

  // ---- Ticks -----------------------------------------------------------------------------

  lemma {:induction false} RepairWeight(c: Sizes, me: Self, v: View, r: Rng)
    requires Fair(r)
    ensures NetWeight(c, Repair(c, me, v, r).1) <= 4 * |Repair(c, me, v, r).1|
    ensures AllAlive(c, Repair(c, me, v, r).1)
    decreases |v.passive|
  {
    if |v.active| < c.activeSize && v.passive != {} {
      var (next, first) := Promoted(me, v, r);
      assert next.passive < v.passive;
      RepairWeight(c, me, next, r);
      PromotedWeight(c, me, v, r);
      NetWeightConcat(c, first, Repair(c, me, next, r).1);
    }
  }

  lemma PromotedWeight(c: Sizes, me: Self, v: View, r: Rng)
    ensures NetWeight(c, Promoted(me, v, r).1) <= 4 * |Promoted(me, v, r).1|
    ensures AllAlive(c, Promoted(me, v, r).1)
  {
    var candidate := r.pick(|v.passive|, v.passive);
    SentWeight(c, me, v.(passive := v.passive - {candidate}), candidate, Neighbor(me.id, me.address, v.active == {}));
  }

  /** What a tick may set off, over all it causes. */
  function TickAllowance(c: Sizes): nat {
    4 * Max(c.activeSize, 0) + 2 + Max(c.shuffleTtl, 0)
  }

  lemma TickParts(c: Sizes, me: Self, w: View, asked: seq<Packet>, r: Rng)
    requires NetWeight(c, asked) <= 4 * Max(c.activeSize, 0) && AllAlive(c, asked)
    ensures NetWeight(c, asked + ShuffleOut(c, me, w, r)) <= TickAllowance(c) && AllAlive(c, asked + ShuffleOut(c, me, w, r))
  {
    SentWeight(c, me, w, r.pick(0, w.active), Shuffle(me.id, me.address, Sampled(me, w, r), c.shuffleTtl));
    NetWeightConcat(c, asked, ShuffleOut(c, me, w, r));
  }

  lemma TickWeight(c: Sizes, me: Self, v: View, r: Rng)
    requires Safe(c, me, v) && Fair(r)
    ensures NetWeight(c, Tick(c, me, v, r).1) <= TickAllowance(c) && AllAlive(c, Tick(c, me, v, r).1)
  {
    RepairWeight(c, me, v, r);
    RepairFills(c, me, v, r);
    TickParts(c, me, Repair(c, me, v, r).0, Repair(c, me, v, r).1, r);
  }

  // ---- The overlay -----------------------------------------------------------------------

  /** `ids` gives the node id behind each transport address. */
  datatype World = World(ids: map<string, string>, views: map<string, View>, net: seq<Packet>)

  datatype Event =
    | Enter(address: string, contact: string)
    | Deliver(i: nat, r: Rng)
    | Round(address: string, r: Rng)
    | Prune(address: string, alive: set<string>)

  function Me(g: World, address: string): Self
    requires address in g.ids
  {
    Self(g.ids[address], address)
  }

  ghost predicate Enabled(g: World, e: Event) {
    match e
    case Enter(address, _) => address in g.views && address in g.ids
    case Deliver(i, r) => i < |g.net| && Fair(r)
    case Round(address, r) => address in g.views && address in g.ids && Fair(r)
    case Prune(address, _) => address in g.views
  }

  ghost function Delivered(c: Sizes, g: World, i: nat, r: Rng): World
    requires i < |g.net|
  {
    var x, left := g.net[i], g.net[..i] + g.net[i + 1..];
    if x.to !in g.views || x.to !in g.ids then g.(net := left)
    else
      var (v, sent) := Handled(c, Me(g, x.to), g.views[x.to], x.src, x.body, r);
      g.(views := g.views[x.to := v], net := left + sent)
  }

  ghost function Step(c: Sizes, g: World, e: Event): World {
    if !Enabled(g, e) then g
    else match e
      case Enter(address, contact) =>
        g.(net := g.net + [Packet(contact, g.ids[address], Join(g.ids[address], address))])
      case Deliver(i, r) => Delivered(c, g, i, r)
      case Round(address, r) =>
        var (v, sent) := Tick(c, Me(g, address), g.views[address], r);
        g.(views := g.views[address := v], net := g.net + sent)
      case Prune(address, alive) => g.(views := g.views[address := PruneDead(g.views[address], alive)])
  }

  ghost function Run(c: Sizes, g: World, events: seq<Event>): World
    decreases |events|
  {
    if events == [] then g else Run(c, Step(c, g, events[0]), events[1..])
  }

  ghost predicate Inv(c: Sizes, g: World) {
    && g.views.Keys == g.ids.Keys && AllAlive(c, g.net)
    && forall a :: a in g.views ==> Safe(c, Me(g, a), g.views[a])
  }

  /** An overlay with safe views and nothing in flight; a fresh one, its views empty, is such. */
  ghost predicate Settled(c: Sizes, g: World) {
    && g.views.Keys == g.ids.Keys && g.net == []
    && forall a :: a in g.views ==> Safe(c, Me(g, a), g.views[a])
  }

  ghost function Deliveries(c: Sizes, g: World, events: seq<Event>): nat
    decreases |events|
  {
    if events == [] then 0
    else (if Enabled(g, events[0]) && events[0].Deliver? then 1 else 0) + Deliveries(c, Step(c, g, events[0]), events[1..])
  }

  ghost function Allowed(c: Sizes, g: World, e: Event): nat {
    if !Enabled(g, e) then 0
    else if e.Enter? then Weight(c, Join("", ""))
    else if e.Round? then TickAllowance(c)
    else 0
  }

  /** What the joins and ticks of a run allow. */
  ghost function Budget(c: Sizes, g: World, events: seq<Event>): nat
    decreases |events|
  {
    if events == [] then 0 else Allowed(c, g, events[0]) + Budget(c, Step(c, g, events[0]), events[1..])
  }

  lemma InvWith(c: Sizes, g: World, address: string, v: View, net: seq<Packet>)
    requires Inv(c, g) && address in g.views && Safe(c, Me(g, address), v) && AllAlive(c, net)
    ensures Inv(c, g.(views := g.views[address := v], net := net))
  {
  }

  lemma DeliverPays(c: Sizes, g: World, i: nat, r: Rng)
    requires Inv(c, g) && Sized(c) && i < |g.net| && Fair(r)
    ensures Inv(c, Delivered(c, g, i, r))
    ensures NetWeight(c, Delivered(c, g, i, r).net) + 1 <= NetWeight(c, g.net)
  {
    var x, a, b := g.net[i], g.net[..i], g.net[i + 1..];
    SplitAt(g.net, i);
    NetWeightWithout(c, a, x, b);
    assert x in g.net;
    if x.to in g.views {
      var (v, sent) := Handled(c, Me(g, x.to), g.views[x.to], x.src, x.body, r);
      HandledWeight(c, Me(g, x.to), g.views[x.to], x.src, x.body, r);
      HandledSafe(c, Me(g, x.to), g.views[x.to], x.src, x.body, r);
      HandledAlive(c, Me(g, x.to), g.views[x.to], x.src, x.body, r);
      NetWeightConcat(c, a + b, sent);
      InvWith(c, g, x.to, v, a + b + sent);
    }
  }

  lemma RoundPays(c: Sizes, g: World, address: string, r: Rng)
    requires Inv(c, g) && address in g.views && Fair(r)
    ensures var (v, sent) := Tick(c, Me(g, address), g.views[address], r);
            Inv(c, g.(views := g.views[address := v], net := g.net + sent))
            && NetWeight(c, g.net + sent) <= NetWeight(c, g.net) + TickAllowance(c)
  {
    TickSafe(c, Me(g, address), g.views[address], r);
    TickWeight(c, Me(g, address), g.views[address], r);
    var (v, sent) := Tick(c, Me(g, address), g.views[address], r);
    NetWeightConcat(c, g.net, sent);
    InvWith(c, g, address, v, g.net + sent);
  }

  lemma TickSafe(c: Sizes, me: Self, v: View, r: Rng)
    requires Safe(c, me, v) && Fair(r)
    ensures Safe(c, me, Tick(c, me, v, r).0)
  {
    RepairFills(c, me, v, r);
  }

  lemma EnterPays(c: Sizes, g: World, address: string, contact: string)
    requires Inv(c, g) && Enabled(g, Enter(address, contact)) && Ends(c, c.arwl)
    ensures var h := Step(c, g, Enter(address, contact));
            Inv(c, h) && NetWeight(c, h.net) <= NetWeight(c, g.net) + Weight(c, Join("", ""))
  {
    NetWeightLast(c, g.net, Packet(contact, g.ids[address], Join(g.ids[address], address)));
  }

  lemma PruneKeeps(c: Sizes, g: World, address: string, alive: set<string>)
    requires Inv(c, g) && address in g.views
    ensures Inv(c, Step(c, g, Prune(address, alive)))
  {
    PruneSafe(c, Me(g, address), g.views[address], alive);
    InvWith(c, g, address, PruneDead(g.views[address], alive), g.net);
  }

  lemma StepPays(c: Sizes, g: World, e: Event)
    requires Inv(c, g) && Sized(c) && (e.Enter? ==> Ends(c, c.arwl))
    ensures var h := Step(c, g, e);
            Inv(c, h)
            && NetWeight(c, h.net) + (if Enabled(g, e) && e.Deliver? then 1 else 0) <= NetWeight(c, g.net) + Allowed(c, g, e)
  {
    if Enabled(g, e) {
      match e
      case Enter(address, contact) => EnterPays(c, g, address, contact);
      case Deliver(i, r) => DeliverPays(c, g, i, r);
      case Round(address, r) => RoundPays(c, g, address, r);
      case Prune(address, alive) => PruneKeeps(c, g, address, alive);
    }
  }

  /** Nobody joins, or the walks that joins start do end. */
  ghost predicate JoinsEnd(c: Sizes, events: seq<Event>) {
    forall i :: 0 <= i < |events| && events[i].Enter? ==> Ends(c, c.arwl)
  }

  lemma {:induction false} RunPays(c: Sizes, g: World, events: seq<Event>)
    requires Inv(c, g) && Sized(c) && JoinsEnd(c, events)
    ensures Inv(c, Run(c, g, events))
    ensures NetWeight(c, Run(c, g, events).net) + Deliveries(c, g, events) <= NetWeight(c, g.net) + Budget(c, g, events)
    decreases |events|
  {
    if events != [] {
      StepPays(c, g, events[0]);
      RunPays(c, Step(c, g, events[0]), events[1..]);
    }
  }

  /** In any run of an overlay, in any order of delivery and with any random choices, there are no
      more deliveries than the joins and ticks allow: every chain of messages ends. */
  lemma ChainsEnd(c: Sizes, g: World, events: seq<Event>)
    requires Settled(c, g) && Sized(c) && Ends(c, c.arwl)
    ensures Deliveries(c, g, events) <= Budget(c, g, events)
    ensures forall a :: a in Run(c, g, events).views ==>
                          a in Run(c, g, events).ids && Safe(c, Me(Run(c, g, events), a), Run(c, g, events).views[a])
  {
    RunPays(c, g, events);
  }
}
