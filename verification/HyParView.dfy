/** One HyParView node: a small active view, a larger passive one and an address book, changed by
    joins, repairs and shuffles. Random choices come from a generator passed in: the k-th draw of
    a handler from the set `s` is `pick(k, s)`. */
module HyParView {
  import opened Seqs

  datatype Sizes = Sizes(activeSize: int, passiveSize: int, arwl: int, prwl: int, shuffleTtl: int)

  datatype Self = Self(id: string, address: string)

  datatype View = View(active: set<string>, passive: set<string>, book: map<string, string>)

  datatype Body =
    | Join(nid: string, addr: string)
    | ForwardJoin(nid: string, addr: string, ttl: int)
    | Neighbor(nid: string, addr: string, high: bool)
    | NeighborReply(nid: string, addr: string, accepted: bool)
    | Disconnect(nid: string)
    | Shuffle(origin: string, originAddr: string, nodes: seq<(string, string)>, ttl: int)
    | ShuffleReply(nid: string, addr: string, nodes: seq<(string, string)>)

  /** `to` is a transport address, `src` the id of the sending node. */
  datatype Packet = Packet(to: string, src: string, body: Body)

  datatype Rng = Rng(pick: (nat, set<string>) -> string, sample: (set<string>, nat) -> seq<string>,
                     walk: set<string> -> seq<string>)

  /** `xs` are `k` different members of `s`. */
  ghost predicate Samples(xs: seq<string>, s: set<string>, k: nat) {
    NoRepeats(xs) && |xs| == k && forall x :: x in xs ==> x in s
  }

  /** The generator draws members, samples without repeats, and walks whole sets. */
  ghost predicate Fair(r: Rng) {
    && (forall k: nat, s: set<string> :: s != {} ==> r.pick(k, s) in s)
    && (forall s: set<string>, k: nat :: k <= |s| ==> Samples(r.sample(s, k), s, k))
    && (forall s: set<string> :: Walks(r.walk(s), s))
  }

  ghost function Listing(s: set<string>): (r: seq<string>)
    ensures Walks(r, s)
  {
    if s == {} then []
    else
      var x :| x in s;
      Listing(s - {x}) + [x]
  }

  ghost function Picked(s: set<string>): (x: string)
    ensures s != {} ==> x in s
  {
    if s == {} then "" else var x :| x in s; x
  }

  ghost function FirstOf(s: set<string>, k: nat): (xs: seq<string>)
    ensures k <= |s| ==> Samples(xs, s, k)
  {
    WalkLength(Listing(s), s);
    if k <= |s| then Listing(s)[..k] else []
  }

  /** There are fair generators. */
  ghost function SomeRng(): (r: Rng)
    ensures Fair(r)
  {
    Rng((k: nat, s: set<string>) => Picked(s), (s: set<string>, k: nat) => FirstOf(s, k), (s: set<string>) => Listing(s))
  }

  // ---- Book and views --------------------------------------------------------------------

  function Recorded(me: Self, v: View, nid: string, addr: string): View {
    if nid != "" && addr != "" && nid != me.id then v.(book := v.book[nid := addr]) else v
  }

  function Sent(me: Self, v: View, nid: string, body: Body): seq<Packet> {
    if nid in v.book then [Packet(v.book[nid], me.id, body)] else []
  }

  function AddPassive(c: Sizes, me: Self, v: View, nid: string, r: Rng, k: nat): View {
    if nid == me.id || nid in v.active || nid in v.passive || nid !in v.book then v
    else
      var kept := if |v.passive| >= c.passiveSize then v.passive - {r.pick(k, v.passive)} else v.passive;
      v.(passive := kept + {nid})
  }

  function DropRandomActive(c: Sizes, me: Self, v: View, r: Rng, k: nat): (View, seq<Packet>) {
    if v.active == {} then (v, [])
    else
      var victim := r.pick(k, v.active);
      var w := AddPassive(c, me, v.(active := v.active - {victim}), victim, r, k + 1);
      (w, Sent(me, w, victim, Disconnect(me.id)))
  }

  function AddActive(c: Sizes, me: Self, v: View, nid: string, r: Rng, k: nat): (View, seq<Packet>) {
    if nid == me.id || nid in v.active || nid !in v.book then (v, [])
    else
      var free := v.(passive := v.passive - {nid});
      var (w, sent) := if |free.active| >= c.activeSize then DropRandomActive(c, me, free, r, k) else (free, []);
      (w.(active := w.active + {nid}), sent)
  }

  // ---- Joining ---------------------------------------------------------------------------

  /** `body` to each of `peers` but `skip`. */
  function SentAll(me: Self, v: View, peers: seq<string>, skip: string, body: Body): seq<Packet> {
    if peers == [] then []
    else
      var n := |peers| - 1;
      SentAll(me, v, peers[..n], skip, body) + if peers[n] == skip then [] else Sent(me, v, peers[n], body)
  }

  function OnJoin(c: Sizes, me: Self, v: View, nid: string, addr: string, r: Rng): (View, seq<Packet>) {
    var (w, dropped) := AddActive(c, me, Recorded(me, v, nid, addr), nid, r, 0);
    (w, dropped + Sent(me, w, nid, Neighbor(me.id, me.address, true))
        + SentAll(me, w, r.walk(w.active), nid, ForwardJoin(nid, addr, c.arwl)))
  }

  function OnForwardJoin(c: Sizes, me: Self, v: View, src: string, nid: string, addr: string, ttl: int, r: Rng): (View, seq<Packet>) {
    var known := Recorded(me, v, nid, addr);
    if ttl == 0 || |known.active| <= 1 then
      var (w, dropped) := AddActive(c, me, known, nid, r, 0);
      (w, dropped + Sent(me, w, nid, Neighbor(me.id, me.address, true)))
    else
      var w := if ttl == c.prwl then AddPassive(c, me, known, nid, r, 0) else known;
      var candidates := w.active - {src, nid};
      if candidates != {} then (w, Sent(me, w, r.pick(1, candidates), ForwardJoin(nid, addr, ttl - 1)))
      else AddActive(c, me, w, nid, r, 1)
  }

  // ---- Neighbours ------------------------------------------------------------------------

  function OnNeighbor(c: Sizes, me: Self, v: View, nid: string, addr: string, high: bool, r: Rng): (View, seq<Packet>) {
    var known := Recorded(me, v, nid, addr);
    var accept := high || |known.active| < c.activeSize;
    var (w, dropped) := if accept then AddActive(c, me, known, nid, r, 0) else (known, []);
    (w, dropped + Sent(me, w, nid, NeighborReply(me.id, me.address, accept)))
  }

  function OnNeighborReply(c: Sizes, me: Self, v: View, nid: string, addr: string, accepted: bool, r: Rng): (View, seq<Packet>) {
    var known := Recorded(me, v, nid, addr);
    if accepted then AddActive(c, me, known, nid, r, 0) else (AddPassive(c, me, known, nid, r, 0), [])
  }

  function OnDisconnect(c: Sizes, me: Self, v: View, nid: string, r: Rng): View {
    if nid in v.active then AddPassive(c, me, v.(active := v.active - {nid}), nid, r, 0) else v
  }

  // ---- Shuffling -------------------------------------------------------------------------

  function Integrate(c: Sizes, me: Self, v: View, nodes: seq<(string, string)>, r: Rng): View {
    if nodes == [] then v
    else
      var n := |nodes| - 1;
      var w, (nid, addr) := Integrate(c, me, v, nodes[..n], r), nodes[n];
      if nid == me.id then w else AddPassive(c, me, Recorded(me, w, nid, addr), nid, r, 1 + n)
  }

  /** The sampled peers whose address is known, with it. */
  function WithAddresses(v: View, peers: seq<string>): seq<(string, string)> {
    if peers == [] then []
    else
      var n := |peers| - 1;
      WithAddresses(v, peers[..n])
      + if peers[n] in v.book && v.book[peers[n]] != "" then [(peers[n], v.book[peers[n]])] else []
  }

  /** Four of the known peers, or all of them when there are no more. */
  function Sampled(me: Self, v: View, r: Rng): seq<(string, string)> {
    var pool := (v.active + v.passive) - {me.id};
    WithAddresses(v, if |pool| <= 4 then r.walk(pool) else r.sample(pool, 4))
  }

  function ShuffleOut(c: Sizes, me: Self, v: View, r: Rng): seq<Packet> {
    if v.active == {} then []
    else Sent(me, v, r.pick(0, v.active), Shuffle(me.id, me.address, Sampled(me, v, r), c.shuffleTtl))
  }

  function OnShuffle(c: Sizes, me: Self, v: View, src: string, origin: string, originAddr: string,
                     nodes: seq<(string, string)>, ttl: int, r: Rng): (View, seq<Packet>)
  {
    var known := Recorded(me, v, origin, originAddr);
    var candidates := known.active - {src};
    if ttl - 1 > 0 && candidates != {} then
      (Integrate(c, me, known, nodes, r),
       Sent(me, known, r.pick(0, candidates), Shuffle(origin, originAddr, nodes, ttl - 1)))
    else
      (Integrate(c, me, known, nodes, r),
       Sent(me, known, origin, ShuffleReply(me.id, me.address, Sampled(me, known, r))))
  }

  function OnShuffleReply(c: Sizes, me: Self, v: View, nid: string, addr: string, nodes: seq<(string, string)>, r: Rng): View {
    Integrate(c, me, Recorded(me, v, nid, addr), nodes, r)
  }

  // ---- The tick --------------------------------------------------------------------------

  /** Ask one passive peer to become a neighbour, and count it as active already; the draws are
      numbered by what is left. */
  function Promoted(me: Self, v: View, r: Rng): (View, seq<Packet>) {
    var candidate := r.pick(|v.passive|, v.passive);
    var asked := v.(passive := v.passive - {candidate});
    (asked.(active := v.active + {candidate}),
     Sent(me, asked, candidate, Neighbor(me.id, me.address, v.active == {})))
  }

  /** Promote passive peers while there is room. */
  function Repair(c: Sizes, me: Self, v: View, r: Rng): (View, seq<Packet>)
    requires Fair(r)
    decreases |v.passive|
  {
    if |v.active| >= c.activeSize || v.passive == {} then (v, [])
    else
      var (next, first) := Promoted(me, v, r);
      assert next.passive < v.passive;
      var (w, rest) := Repair(c, me, next, r);
      (w, first + rest)
  }

  function Tick(c: Sizes, me: Self, v: View, r: Rng): (View, seq<Packet>)
    requires Fair(r)
  {
    var (w, asked) := Repair(c, me, v, r);
    (w, asked + ShuffleOut(c, me, w, r))
  }

  function PruneDead(v: View, alive: set<string>): View {
    v.(active := v.active * alive, passive := v.passive * alive)
  }

  // ---- Dispatch --------------------------------------------------------------------------

  function Handled(c: Sizes, me: Self, v: View, src: string, body: Body, r: Rng): (View, seq<Packet>) {
    match body
    case Join(nid, addr) => OnJoin(c, me, v, nid, addr, r)
    case ForwardJoin(nid, addr, ttl) => OnForwardJoin(c, me, v, src, nid, addr, ttl, r)
    case Neighbor(nid, addr, high) => OnNeighbor(c, me, v, nid, addr, high, r)
    case NeighborReply(nid, addr, accepted) => OnNeighborReply(c, me, v, nid, addr, accepted, r)
    case Disconnect(nid) => (OnDisconnect(c, me, v, nid, r), [])
    case Shuffle(origin, originAddr, nodes, ttl) => OnShuffle(c, me, v, src, origin, originAddr, nodes, ttl, r)
    case ShuffleReply(nid, addr, nodes) => (OnShuffleReply(c, me, v, nid, addr, nodes, r), [])
  }

  // ---- The node object -------------------------------------------------------------------

  class HyParViewNode {
    const c: Sizes
    const me: Self
    var active: set<string>
    var passive: set<string>
    var book: map<string, string>

    constructor (c: Sizes, me: Self)
      ensures this.c == c && this.me == me && Value() == View({}, {}, map[])
    {
      this.c, this.me := c, me;
      active, passive, book := {}, {}, map[];
    }

    function Value(): View
      reads this
    {
      View(active, passive, book)
    }

    method Record(nid: string, addr: string)
      modifies this`book
      ensures Value() == Recorded(me, old(Value()), nid, addr)
    {
      if nid != "" && addr != "" && nid != me.id {
        book := book[nid := addr];
      }
    }

    method Send(nid: string, body: Body) returns (sent: seq<Packet>)
      ensures sent == Sent(me, Value(), nid, body)
    {
      sent := if nid in book then [Packet(book[nid], me.id, body)] else [];
    }

    method SendAll(peers: seq<string>, skip: string, body: Body) returns (sent: seq<Packet>)
      ensures sent == SentAll(me, Value(), peers, skip, body)
    {
      sent := [];
      for i := 0 to |peers|
        invariant sent == SentAll(me, Value(), peers[..i], skip, body)
      {
        assert peers[..i + 1][..i] == peers[..i];
        if peers[i] != skip {
          var one := Send(peers[i], body);
          sent := sent + one;
        }
      }
      assert peers[..|peers|] == peers;
    }

    method PutPassive(nid: string, r: Rng, k: nat)
      modifies this`passive
      ensures Value() == AddPassive(c, me, old(Value()), nid, r, k)
    {
      if nid == me.id || nid in active || nid in passive || nid !in book {
        return;
      }
      if |passive| >= c.passiveSize {
        passive := passive - {r.pick(k, passive)};
      }
      passive := passive + {nid};
    }

    method DropActive(r: Rng, k: nat) returns (sent: seq<Packet>)
      modifies this`active, this`passive
      ensures (Value(), sent) == DropRandomActive(c, me, old(Value()), r, k)
    {
      if active == {} {
        return [];
      }
      var victim := r.pick(k, active);
      active := active - {victim};
      PutPassive(victim, r, k + 1);
      sent := Send(victim, Disconnect(me.id));
    }

    method PutActive(nid: string, r: Rng, k: nat) returns (sent: seq<Packet>)
      modifies this`active, this`passive
      ensures (Value(), sent) == AddActive(c, me, old(Value()), nid, r, k)
    {
      sent := [];
      if nid == me.id || nid in active || nid !in book {
        return;
      }
      passive := passive - {nid};
      if |active| >= c.activeSize {
        sent := DropActive(r, k);
      }
      active := active + {nid};
    }

    method HandleJoin(nid: string, addr: string, r: Rng) returns (sent: seq<Packet>)
      modifies this
      ensures (Value(), sent) == OnJoin(c, me, old(Value()), nid, addr, r)
    {
      Record(nid, addr);
      sent := PutActive(nid, r, 0);
      var link := Send(nid, Neighbor(me.id, me.address, true));
      sent := sent + link;
      var forwards := SendAll(r.walk(active), nid, ForwardJoin(nid, addr, c.arwl));
      sent := sent + forwards;
    }

    method HandleForwardJoin(src: string, nid: string, addr: string, ttl: int, r: Rng) returns (sent: seq<Packet>)
      modifies this
      ensures (Value(), sent) == OnForwardJoin(c, me, old(Value()), src, nid, addr, ttl, r)
    {
      Record(nid, addr);
      if ttl == 0 || |active| <= 1 {
        sent := PutActive(nid, r, 0);
        var link := Send(nid, Neighbor(me.id, me.address, true));
        sent := sent + link;
        return;
      }
      if ttl == c.prwl {
        PutPassive(nid, r, 0);
      }
      var candidates := active - {src, nid};
      if candidates != {} {
        sent := Send(r.pick(1, candidates), ForwardJoin(nid, addr, ttl - 1));
      } else {
        sent := PutActive(nid, r, 1);
      }
    }

    method HandleNeighbor(nid: string, addr: string, high: bool, r: Rng) returns (sent: seq<Packet>)
      modifies this
      ensures (Value(), sent) == OnNeighbor(c, me, old(Value()), nid, addr, high, r)
    {
      Record(nid, addr);
      var accept := high || |active| < c.activeSize;
      sent := [];
      if accept {
        sent := PutActive(nid, r, 0);
      }
      var reply := Send(nid, NeighborReply(me.id, me.address, accept));
      sent := sent + reply;
    }

    method HandleNeighborReply(nid: string, addr: string, accepted: bool, r: Rng) returns (sent: seq<Packet>)
      modifies this
      ensures (Value(), sent) == OnNeighborReply(c, me, old(Value()), nid, addr, accepted, r)
    {
      Record(nid, addr);
      if accepted {
        sent := PutActive(nid, r, 0);
      } else {
        PutPassive(nid, r, 0);
        sent := [];
      }
    }

    method HandleDisconnect(nid: string, r: Rng)
      modifies this`active, this`passive
      ensures Value() == OnDisconnect(c, me, old(Value()), nid, r)
    {
      if nid in active {
        active := active - {nid};
        PutPassive(nid, r, 0);
      }
    }

    method IntegrateNodes(nodes: seq<(string, string)>, r: Rng)
      modifies this`passive, this`book
      ensures Value() == Integrate(c, me, old(Value()), nodes, r)
    {
      for i := 0 to |nodes|
        invariant Value() == Integrate(c, me, old(Value()), nodes[..i], r)
      {
        assert nodes[..i + 1][..i] == nodes[..i];
        var (nid, addr) := nodes[i];
        if nid != me.id {
          Record(nid, addr);
          PutPassive(nid, r, 1 + i);
        }
      }
      assert nodes[..|nodes|] == nodes;
    }

    method Sample(r: Rng) returns (nodes: seq<(string, string)>)
      ensures nodes == Sampled(me, Value(), r)
    {
      var pool := (active + passive) - {me.id};
      var peers := if |pool| <= 4 then r.walk(pool) else r.sample(pool, 4);
      nodes := [];
      for i := 0 to |peers|
        invariant nodes == WithAddresses(Value(), peers[..i])
      {
        assert peers[..i + 1][..i] == peers[..i];
        if peers[i] in book && book[peers[i]] != "" {
          nodes := nodes + [(peers[i], book[peers[i]])];
        }
      }
      assert peers[..|peers|] == peers;
    }

    method StartShuffle(r: Rng) returns (sent: seq<Packet>)
      ensures sent == ShuffleOut(c, me, Value(), r)
    {
      if active == {} {
        return [];
      }
      var nodes := Sample(r);
      sent := Send(r.pick(0, active), Shuffle(me.id, me.address, nodes, c.shuffleTtl));
    }

    method HandleShuffle(src: string, origin: string, originAddr: string, nodes: seq<(string, string)>, ttl: int, r: Rng)
      returns (sent: seq<Packet>)
      modifies this
      ensures (Value(), sent) == OnShuffle(c, me, old(Value()), src, origin, originAddr, nodes, ttl, r)
    {
      Record(origin, originAddr);
      if ttl - 1 > 0 && active != {} {
        var candidates := active - {src};
        if candidates != {} {
          sent := Send(r.pick(0, candidates), Shuffle(origin, originAddr, nodes, ttl - 1));
          IntegrateNodes(nodes, r);
          return;
        }
      }
      var mine := Sample(r);
      sent := Send(origin, ShuffleReply(me.id, me.address, mine));
      IntegrateNodes(nodes, r);
    }

    method HandleShuffleReply(nid: string, addr: string, nodes: seq<(string, string)>, r: Rng)
      modifies this
      ensures Value() == OnShuffleReply(c, me, old(Value()), nid, addr, nodes, r)
    {
      Record(nid, addr);
      IntegrateNodes(nodes, r);
    }

    method Promote(r: Rng) returns (sent: seq<Packet>)
      modifies this`active, this`passive
      ensures (Value(), sent) == Promoted(me, old(Value()), r)
    {
      var candidate := r.pick(|passive|, passive);
      passive := passive - {candidate};
      sent := Send(candidate, Neighbor(me.id, me.address, active == {}));
      active := active + {candidate};
    }

    /** The repair loop of the tick; it ends because every round uses up a passive peer. */
    method RepairViews(r: Rng) returns (sent: seq<Packet>)
      requires Fair(r)
      modifies this`active, this`passive
      ensures (Value(), sent) == Repair(c, me, old(Value()), r)
    {
      ghost var goal := Repair(c, me, Value(), r);
      sent := [];
      Regroup3(goal.1, [], []);
      while |active| < c.activeSize && passive != {}
        invariant goal.0 == Repair(c, me, Value(), r).0
        invariant goal.1 == sent + Repair(c, me, Value(), r).1
        decreases |passive|
      {
        ghost var v := Value();
        var first := Promote(r);
        Regroup3(sent, first, Repair(c, me, Promoted(me, v, r).0, r).1);
        sent := sent + first;
      }
      Regroup3(sent, [], []);
    }

    method OnTick(r: Rng) returns (sent: seq<Packet>)
      requires Fair(r)
      modifies this`active, this`passive
      ensures (Value(), sent) == Tick(c, me, old(Value()), r)
    {
      sent := RepairViews(r);
      var shuffle := StartShuffle(r);
      sent := sent + shuffle;
    }

    method DropDead(alive: set<string>)
      modifies this`active, this`passive
      ensures Value() == PruneDead(old(Value()), alive)
    {
      active := active * alive;
      passive := passive * alive;
    }
  }
}
