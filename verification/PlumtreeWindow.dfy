/** With evictions: what one Plumtree node hands to its application, over any sequence of its own
    broadcasts, messages and ticks, is decided by an exact window of its last deliveries. */
module PlumtreeWindow {
  import opened Dedup
  import opened Plumtree
  import opened PlumtreeSwarm
  import opened Seqs

  datatype Call =
    | Own(current: set<string>, mid: string, payload: string, es: seq<string>, ls: seq<string>)
    | Arrival(x: Message, es: seq<string>, ls: seq<string>)
    | Maintenance(current: set<string>, mids: seq<string>)

  ghost function Called(s: Node, me: Setup, e: Call): Node {
    match e
    case Own(current, mid, payload, es, ls) => Broadcast(s, me, current, mid, payload, es, ls).0
    case Arrival(x, es, ls) => Handled(s, me, x, es, ls).0
    case Maintenance(current, mids) => Tick(s, me, current, mids).0
  }

  ghost function Life(me: Setup, calls: seq<Call>): Node {
    if calls == [] then EMPTY else Called(Life(me, calls[..|calls| - 1]), me, calls[|calls| - 1])
  }

  /** A broadcast draws an id its node does not hold. */
  ghost predicate FreshIds(me: Setup, calls: seq<Call>) {
    forall i :: 0 <= i < |calls| && calls[i].Own? ==> calls[i].mid !in Life(me, calls[..i]).received
  }

  /** The ids that came up for delivery. */
  function Offered(calls: seq<Call>): seq<string> {
    if calls == [] then []
    else
      var e := calls[|calls| - 1];
      Offered(calls[..|calls| - 1])
      + if e.Own? then [e.mid] else if e.Arrival? && e.x.Gossip? then [e.x.mid] else []
  }

  function Ids(delivered: seq<(string, string)>): seq<string> {
    if delivered == [] then [] else Ids(delivered[..|delivered| - 1]) + [delivered[|delivered| - 1].0]
  }

  lemma {:induction false} IdsAt(delivered: seq<(string, string)>)
    ensures |Ids(delivered)| == |delivered| && forall i :: 0 <= i < |delivered| ==> Ids(delivered)[i] == delivered[i].0
  {
    if delivered != [] {
      IdsAt(delivered[..|delivered| - 1]);
    }
  }

  lemma IdsNext(delivered: seq<(string, string)>, mid: string, payload: string)
    ensures Ids(delivered + [(mid, payload)]) == Ids(delivered) + [mid]
  {
    assert (delivered + [(mid, payload)])[..|delivered|] == delivered;
  }

  lemma OfferNext(cap: nat, offered: seq<string>, mid: string)
    ensures Window(cap, offered + [mid]) ==
              if mid in Window(cap, offered) then Window(cap, offered) else Push(Window(cap, offered), cap, mid)
    ensures Accepted(cap, offered + [mid]) == Accepted(cap, offered) + if mid in Window(cap, offered) then [] else [mid]
    ensures NoRepeats(Window(cap, offered))
  {
    assert (offered + [mid])[..|offered|] == offered;
    WindowIsTail(cap, offered);
  }

  ghost predicate CacheIs(s: Node, order: seq<string>, ids: seq<string>) {
    s.order == order && (forall m :: m in s.received <==> m in s.order) && Ids(s.delivered) == ids
  }

  lemma RecordedPushes(s: Node, cap: nat, mid: string, payload: string)
    requires NoRepeats(s.order) && (forall m :: m in s.received <==> m in s.order) && mid !in s.received
    ensures var t := Recorded(s, cap, mid, payload);
            t.order == Push(s.order, cap, mid) && forall m :: m in t.received <==> m in t.order
  {
    var longer := s.order + [mid];
    DropOldest(longer, s.received.Keys + {mid});
  }

  lemma {:induction false} HeardKeepsCache(s: Node, src: string, ids: seq<string>)
    ensures var t := OnIhave(s, src, ids);
            t.order == s.order && t.received == s.received && t.delivered == s.delivered
  {
    if ids != [] {
      HeardKeepsCache(s, src, ids[..|ids| - 1]);
    }
  }

  lemma {:induction false} RepairKeepsCache(s: Node, me: Setup, mids: seq<string>)
    ensures var t := RepairedAll(s, me, mids).0;
            t.order == s.order && t.received == s.received && t.delivered == s.delivered
  {
    if mids != [] {
      RepairKeepsCache(s, me, mids[..|mids| - 1]);
    }
  }

  /** A message id comes up: it is delivered unless the window holds it. */
  lemma OneOffer(before: Node, cap: nat, offered: seq<string>, mid: string, payload: string, after: Node)
    requires CacheIs(before, Window(cap, offered), Accepted(cap, offered))
    requires if mid in before.received then
               after.order == before.order && after.received == before.received && after.delivered == before.delivered
             else
               var r := Recorded(before, cap, mid, payload);
               after.order == r.order && after.received == r.received && after.delivered == before.delivered + [(mid, payload)]
    ensures CacheIs(after, Window(cap, offered + [mid]), Accepted(cap, offered + [mid]))
  {
    OfferNext(cap, offered, mid);
    if mid !in before.received {
      RecordedPushes(before, cap, mid, payload);
      IdsNext(before.delivered, mid, payload);
    }
  }

  lemma OneArrival(me: Setup, before: Node, x: Message, es: seq<string>, ls: seq<string>, offered: seq<string>, cap: nat)
    requires me.cap == cap && CacheIs(before, Window(cap, offered), Accepted(cap, offered))
    ensures var more := offered + if x.Gossip? then [x.mid] else [];
            CacheIs(Handled(before, me, x, es, ls).0, Window(cap, more), Accepted(cap, more))
  {
    if x.Gossip? {
      OneOffer(before, cap, offered, x.mid, x.payload, OnGossip(before, me, x.src, x.mid, x.payload, es, ls).0);
    } else {
      assert offered + [] == offered;
      if x.Ihave? {
        HeardKeepsCache(before, x.src, x.ids);
      }
    }
  }

  lemma OneCall(me: Setup, before: Node, e: Call, offered: seq<string>, cap: nat)
    requires me.cap == cap && CacheIs(before, Window(cap, offered), Accepted(cap, offered))
    requires e.Own? ==> e.mid !in before.received
    ensures var more := offered + if e.Own? then [e.mid] else if e.Arrival? && e.x.Gossip? then [e.x.mid] else [];
            CacheIs(Called(before, me, e), Window(cap, more), Accepted(cap, more))
  {
    match e
    case Own(_, mid, payload, _, _) => OneOffer(before, cap, offered, mid, payload, Called(before, me, e));
    case Arrival(x, es, ls) => OneArrival(me, before, x, es, ls, offered, cap);
    case Maintenance(current, mids) =>
      assert offered + [] == offered;
      RepairKeepsCache(Synced(before, current).(queue := []), me, mids);
  }

  /** The cache is the window of the last `cap` deliveries, and the deliveries are exactly what
      that window lets through. */
  lemma {:induction false} DeliveryWindow(me: Setup, calls: seq<Call>, cap: nat)
    requires me.cap == cap && FreshIds(me, calls)
    ensures CacheIs(Life(me, calls), Window(cap, Offered(calls)), Accepted(cap, Offered(calls)))
  {
    if calls != [] {
      var before := calls[..|calls| - 1];
      forall i | 0 <= i < |before| ensures before[..i] == calls[..i] {}
      DeliveryWindow(me, before, cap);
      OneCall(me, Life(me, before), calls[|calls| - 1], Offered(before), cap);
    }
  }

  /** So a message is handed over a second time only after at least `cap` other deliveries. */
  lemma RedeliveredOnlyAfterCap(me: Setup, calls: seq<Call>, cap: nat, i: nat, j: nat)
    requires me.cap == cap && FreshIds(me, calls)
    requires i < j < |Life(me, calls).delivered| && Life(me, calls).delivered[i].0 == Life(me, calls).delivered[j].0
    ensures j - i - 1 >= cap
  {
    DeliveryWindow(me, calls, cap);
    var d := Life(me, calls).delivered;
    IdsAt(d);
    ReacceptedOnlyAfterCap(cap, Offered(calls), i, j);
  }
}
