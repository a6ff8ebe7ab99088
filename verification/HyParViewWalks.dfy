/** Exactly when the random walk of a join ends. The code stops a walk at a life of zero, or at a
    node with a single active peer; one that starts below zero can be passed round three mutual
    neighbours for ever. */
module HyParViewWalks {
  import opened HyParView
  import opened HyParViewSafety
  import opened HyParViewTraffic
  import opened Seqs
  import opened Sums

  ghost predicate OnlyDeliveries(events: seq<Event>) {
    forall i :: 0 <= i < |events| ==> events[i].Deliver?
  }

  /** Safe views and nothing in flight but one forwarded join with life `ttl`. */
  ghost predicate OneWalk(c: Sizes, g: World, ttl: int) {
    && g.views.Keys == g.ids.Keys && (forall a :: a in g.views ==> Safe(c, Me(g, a), g.views[a]))
    && |g.net| == 1 && g.net[0].body.ForwardJoin? && g.net[0].body.ttl == ttl
  }

  /** A bound on all the deliveries such a walk can cause, in any overlay and with any choices. */
  ghost predicate EndsWithin(c: Sizes, ttl: int, bound: nat) {
    forall g: World, events: seq<Event> :: OneWalk(c, g, ttl) && OnlyDeliveries(events) ==> Deliveries(c, g, events) <= bound
  }

  lemma {:induction false} NoBudget(c: Sizes, g: World, events: seq<Event>)
    requires OnlyDeliveries(events)
    ensures Budget(c, g, events) == 0
    decreases |events|
  {
    if events != [] {
      NoBudget(c, Step(c, g, events[0]), events[1..]);
    }
  }

  // ---- Walks that end --------------------------------------------------------------------

  lemma LiveWalkEnds(c: Sizes, ttl: int)
    requires Sized(c) && Ends(c, ttl)
    ensures EndsWithin(c, ttl, 6 + Max(ttl, 0))
  {
    forall g: World, events: seq<Event> | OneWalk(c, g, ttl) && OnlyDeliveries(events)
      ensures Deliveries(c, g, events) <= 6 + Max(ttl, 0)
    {
      RunPays(c, g, events);
      NoBudget(c, g, events);
      NetWeightLast(c, [], g.net[0]);
      assert [] + [g.net[0]] == g.net;
    }
  }

  // ---- Walks that do not -----------------------------------------------------------------

  /** Node `n`, reached from `q` by the walk of `nid`, can only send it on to `o`. */
  ghost predicate InRing(g: World, n: string, q: string, o: string, nid: string) {
    && n in g.views && n in g.ids && g.ids[n] == n
    && |g.views[n].active| > 1 && g.views[n].active - {q, nid} == {o}
    && o in g.views[n].book && g.views[n].book[o] == o
  }

  /** Three neighbours in a ring, with a walk on its way round it, packet `i`, from `q` to `p`. */
  ghost predicate Ring(g: World, i: nat, p: string, q: string, o: string, nid: string, ttl: int) {
    && p != q && q != o && o != p && nid !in {p, q, o}
    && InRing(g, p, q, o, nid) && InRing(g, o, p, q, nid) && InRing(g, q, o, p, nid)
    && i < |g.net| && g.net[i] == Packet(p, q, ForwardJoin(nid, nid, ttl))
  }

  /** A dead walk is sent on with less life and no other effect on the active view. */
  lemma DeadWalkGoesOn(c: Sizes, me: Self, v: View, q: string, o: string, nid: string, ttl: int, r: Rng)
    requires ttl < 0 && Fair(r) && o != nid
    requires |v.active| > 1 && v.active - {q, nid} == {o} && o in v.book && v.book[o] == o
    ensures var (w, sent) := OnForwardJoin(c, me, v, q, nid, nid, ttl, r);
            && w.active == v.active && o in w.book && w.book[o] == o
            && sent == [Packet(o, me.id, ForwardJoin(nid, nid, ttl - 1))]
  {
    var known := Recorded(me, v, nid, nid);
    var w := if ttl == c.prwl then AddPassive(c, me, known, nid, r, 0) else known;
    assert w.active - {q, nid} == {o};
    assert r.pick(1, {o}) == o;
  }

  lemma RingTurns(c: Sizes, g: World, i: nat, p: string, q: string, o: string, nid: string, ttl: int, r: Rng)
    requires Ring(g, i, p, q, o, nid, ttl) && ttl < 0 && Fair(r)
    ensures var h := Step(c, g, Deliver(i, r));
            h.net != [] && Ring(h, |h.net| - 1, o, p, q, nid, ttl - 1)
  {
    DeadWalkGoesOn(c, Me(g, p), g.views[p], q, o, nid, ttl, r);
  }

  lemma OneMore(c: Sizes, g: World, e: Event, rest: seq<Event>)
    requires Enabled(g, e) && e.Deliver? && OnlyDeliveries(rest)
    ensures OnlyDeliveries([e] + rest) && Deliveries(c, g, [e] + rest) == 1 + Deliveries(c, Step(c, g, e), rest)
  {
    assert ([e] + rest)[1..] == rest;
  }

  /** The walk goes round as often as one likes. */
  lemma {:induction false} RingNeverStops(c: Sizes, g: World, i: nat, p: string, q: string, o: string, nid: string,
                                          ttl: int, r: Rng, k: nat)
    returns (events: seq<Event>)
    requires Ring(g, i, p, q, o, nid, ttl) && ttl < 0 && Fair(r)
    ensures OnlyDeliveries(events) && Deliveries(c, g, events) == k
    decreases k
  {
    events := [];
    if k > 0 {
      RingTurns(c, g, i, p, q, o, nid, ttl, r);
      var h := Step(c, g, Deliver(i, r));
      var rest := RingNeverStops(c, h, |h.net| - 1, o, p, q, nid, ttl - 1, r, k - 1);
      OneMore(c, g, Deliver(i, r), rest);
      events := [Deliver(i, r)] + rest;
    }
  }

  ghost function RingView(x: string, y: string): View {
    View({x, y}, {}, map[x := x, y := y])
  }

  /** Three mutual neighbours, and a fourth node that knows nobody. */
  ghost function RingWorld(net: seq<Packet>): World {
    World(map["a" := "a", "b" := "b", "c" := "c", "d" := "d"],
          map["a" := RingView("b", "c"), "b" := RingView("c", "a"), "c" := RingView("a", "b"), "d" := View({}, {}, map[])],
          net)
  }

  lemma TwoPeers(x: string, y: string)
    requires x != y
    ensures |{x, y}| == 2
  {
  }

  lemma RingViewSafe(c: Sizes, me: Self, x: string, y: string)
    requires c.activeSize >= 2 && c.passiveSize >= 0 && x != y && me.id != x && me.id != y && x != "" && y != ""
    ensures Safe(c, me, RingView(x, y))
  {
    TwoPeers(x, y);
  }

  lemma RingWorldSafe(c: Sizes, net: seq<Packet>)
    requires Sized(c) && c.activeSize >= 2
    ensures var g := RingWorld(net);
            g.views.Keys == g.ids.Keys && forall a :: a in g.views ==> Safe(c, Me(g, a), g.views[a])
  {
    var g := RingWorld(net);
    RingViewSafe(c, Self("a", "a"), "b", "c");
    RingViewSafe(c, Self("b", "b"), "c", "a");
    RingViewSafe(c, Self("c", "c"), "a", "b");
    assert g.views.Keys == {"a", "b", "c", "d"} == g.ids.Keys;
    forall a | a in g.views ensures Safe(c, Me(g, a), g.views[a]) {
      if a == "d" { assert g.views[a] == View({}, {}, map[]); }
    }
  }

  lemma RingWorldTurns(ttl: int)
    ensures Ring(RingWorld([Packet("a", "b", ForwardJoin("d", "d", ttl))]), 0, "a", "b", "c", "d", ttl)
  {
    TwoPeers("a", "b");
    TwoPeers("b", "c");
    TwoPeers("c", "a");
  }

  lemma DeadWalkUnbounded(c: Sizes, ttl: int, bound: nat)
    requires Sized(c) && c.activeSize >= 2 && ttl < 0
    ensures !EndsWithin(c, ttl, bound)
  {
    var g, r := RingWorld([Packet("a", "b", ForwardJoin("d", "d", ttl))]), SomeRng();
    RingWorldSafe(c, g.net);
    RingWorldTurns(ttl);
    var _ := RingNeverStops(c, g, 0, "a", "b", "c", "d", ttl, r, bound + 1);
    assert OneWalk(c, g, ttl);
  }

  /** In every configuration there is a bound on what a walk can cause if and only if its life is
      not negative or nodes have a single active peer. */
  lemma WalkEndsIff(c: Sizes, ttl: int)
    requires Sized(c)
    ensures (exists bound: nat :: EndsWithin(c, ttl, bound)) <==> ttl >= 0 || c.activeSize == 1
  {
    if Ends(c, ttl) {
      LiveWalkEnds(c, ttl);
    } else {
      forall bound: nat ensures !EndsWithin(c, ttl, bound) { DeadWalkUnbounded(c, ttl, bound); }
    }
  }

  // ---- Joins whose walks do not end ------------------------------------------------------

  /** A fair generator that draws `x` whenever it can. */
  ghost function Preferring(x: string): (r: Rng)
    ensures Fair(r) && forall k: nat, s: set<string> :: x in s ==> r.pick(k, s) == x
  {
    SomeRng().(pick := (k: nat, s: set<string>) => if x in s then x else Picked(s))
  }

  ghost predicate DrawsB(r: Rng) {
    Fair(r) && forall k: nat, s: set<string> :: "b" in s ==> r.pick(k, s) == "b"
  }

  lemma DroppedAtRing(c: Sizes, me: Self, v: View, r: Rng, k: nat)
    requires c.passiveSize >= 1 && DrawsB(r) && me.id == "a" && v.active == {"b", "c"} && v.passive == {} && "b" in v.book
    ensures var w := DropRandomActive(c, me, v, r, k).0; w.active == {"c"} && w.book == v.book
  {
    assert r.pick(k, v.active) == "b";
    assert {"b", "c"} - {"b"} == {"c"};
  }

  /** The newcomer "d" joins at "a", which then has "c", perhaps "b", and the newcomer as active
      peers. */
  lemma AddedAtRing(c: Sizes, r: Rng)
    requires Sized(c) && c.activeSize >= 2 && DrawsB(r)
    ensures var w := AddActive(c, Self("a", "a"), Recorded(Self("a", "a"), RingView("b", "c"), "d", "d"), "d", r, 0).0;
            && w.active == (if c.activeSize == 2 then {"c", "d"} else {"b", "c", "d"})
            && |w.active| > 1 && w.active - {"b", "d"} == {"c"} && "c" in w.book && w.book["c"] == "c"
  {
    var me := Self("a", "a");
    var known := Recorded(me, RingView("b", "c"), "d", "d");
    TwoPeers("b", "c");
    TwoPeers("c", "d");
    Subset({"c", "d"}, {"b", "c", "d"});
    assert known.active == {"b", "c"} && known.passive == {} && known.book["c"] == "c" && "b" in known.book && "d" in known.book;
    DroppedAtRing(c, me, known.(passive := known.passive - {"d"}), r, 0);
    RingPlusD();
  }

  lemma RingPlusD()
    ensures {"c"} + {"d"} == {"c", "d"} && {"b", "c"} + {"d"} == {"b", "c", "d"}
    ensures {"c", "d"} - {"b", "d"} == {"c"} && {"b", "c", "d"} - {"b", "d"} == {"c"}
  {
  }

  /** And it sends the walk to "c". */
  lemma JoinAtRing(c: Sizes, r: Rng) returns (i: nat)
    requires Sized(c) && c.activeSize >= 2 && DrawsB(r)
    ensures var (w, sent) := OnJoin(c, Self("a", "a"), RingView("b", "c"), "d", "d", r);
            && |w.active| > 1 && w.active - {"b", "d"} == {"c"} && "c" in w.book && w.book["c"] == "c"
            && i < |sent| && sent[i] == Packet("c", "a", ForwardJoin("d", "d", c.arwl))
  {
    AddedAtRing(c, r);
    var me := Self("a", "a");
    var (w, dropped) := AddActive(c, me, Recorded(me, RingView("b", "c"), "d", "d"), "d", r, 0);
    SpreadsToAll(me, w, "d", ForwardJoin("d", "d", c.arwl), r);
    i := At(dropped + Sent(me, w, "d", Neighbor("a", "a", true)), SentAll(me, w, r.walk(w.active), "d", ForwardJoin("d", "d", c.arwl)),
            Packet("c", "a", ForwardJoin("d", "d", c.arwl)));
  }

  lemma At(front: seq<Packet>, back: seq<Packet>, x: Packet) returns (i: nat)
    requires x in back
    ensures i < |front + back| && (front + back)[i] == x
  {
    var j :| 0 <= j < |back| && back[j] == x;
    i := |front| + j;
  }

  lemma EnteredRing(c: Sizes)
    ensures Step(c, RingWorld([]), Enter("d", "a")) == RingWorld([Packet("a", "d", Join("d", "d"))])
  {
  }

  lemma OnlyPacket(c: Sizes, g: World, x: Packet, r: Rng)
    requires g.net == [x] && x.to in g.views && x.to in g.ids && Fair(r)
    ensures var (v, sent) := Handled(c, Me(g, x.to), g.views[x.to], x.src, x.body, r);
            Step(c, g, Deliver(0, r)) == g.(views := g.views[x.to := v], net := sent)
  {
    var sent := Handled(c, Me(g, x.to), g.views[x.to], x.src, x.body, r).1;
    Regroup3(sent, [], []);
    assert g.net[..0] + g.net[1..] == [];
  }

  lemma RingAround(w: View, net: seq<Packet>, i: nat, ttl: int)
    requires |w.active| > 1 && w.active - {"b", "d"} == {"c"} && "c" in w.book && w.book["c"] == "c"
    requires i < |net| && net[i] == Packet("c", "a", ForwardJoin("d", "d", ttl))
    ensures var g := RingWorld(net); Ring(g.(views := g.views["a" := w]), i, "c", "a", "b", "d", ttl)
  {
    TwoPeers("c", "a");
    TwoPeers("a", "b");
  }

  /** The overlay once "d" has asked "a" to join and "a" has taken it in. */
  lemma JoinedRing(c: Sizes, r: Rng) returns (i: nat)
    requires Sized(c) && c.activeSize >= 2 && DrawsB(r)
    ensures Ring(Step(c, Step(c, RingWorld([]), Enter("d", "a")), Deliver(0, r)), i, "c", "a", "b", "d", c.arwl)
  {
    i := JoinAtRing(c, r);
    EnteredRing(c);
    OnlyPacket(c, RingWorld([Packet("a", "d", Join("d", "d"))]), Packet("a", "d", Join("d", "d")), r);
    var (w, sent) := OnJoin(c, Self("a", "a"), RingView("b", "c"), "d", "d", r);
    RingAround(w, sent, i, c.arwl);
  }

  /** The runs that show it: one join, its delivery, and any number of turns. */
  lemma JoinOverruns(c: Sizes) returns (events: seq<Event>)
    requires Sized(c) && c.activeSize >= 2 && c.arwl < 0
    ensures Deliveries(c, RingWorld([]), events) > Budget(c, RingWorld([]), events)
  {
    var r, g := Preferring("b"), RingWorld([]);
    var i := JoinedRing(c, r);
    var entered := Step(c, g, Enter("d", "a"));
    var joined, k := Step(c, entered, Deliver(0, r)), Weight(c, Join("", ""));
    var turns := RingNeverStops(c, joined, i, "c", "a", "b", "d", c.arwl, r, k);
    NoBudget(c, joined, turns);
    events := [Enter("d", "a")] + ([Deliver(0, r)] + turns);
    TwoFirst(c, g, Enter("d", "a"), Deliver(0, r), turns);
  }

  lemma TwoFirst(c: Sizes, g: World, e: Event, f: Event, rest: seq<Event>)
    ensures var h := Step(c, g, e);
            var j := Step(c, h, f);
            && Deliveries(c, g, [e] + ([f] + rest)) ==
                 (if Enabled(g, e) && e.Deliver? then 1 else 0) + (if Enabled(h, f) && f.Deliver? then 1 else 0) + Deliveries(c, j, rest)
            && Budget(c, g, [e] + ([f] + rest)) == Allowed(c, g, e) + Allowed(c, h, f) + Budget(c, j, rest)
  {
    assert ([e] + ([f] + rest))[1..] == [f] + rest && ([f] + rest)[1..] == rest;
  }

  /** In every configuration: no run of any settled overlay has more deliveries than its joins and
      ticks allow if and only if joins start walks of non-negative life or nodes have a single
      active peer. */
  lemma ChainsEndIff(c: Sizes)
    requires Sized(c)
    ensures (forall g: World, events: seq<Event> :: Settled(c, g) ==> Deliveries(c, g, events) <= Budget(c, g, events))
            <==> c.arwl >= 0 || c.activeSize == 1
  {
    if Ends(c, c.arwl) {
      forall g: World, events: seq<Event> | Settled(c, g) ensures Deliveries(c, g, events) <= Budget(c, g, events) {
        ChainsEnd(c, g, events);
      }
    } else {
      var events := JoinOverruns(c);
      RingWorldSafe(c, []);
      assert Settled(c, RingWorld([]));
    }
  }
}
