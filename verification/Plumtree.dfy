/** One Plumtree node: its eager and lazy links, the messages it holds, the ones it misses, and
    every handler as a step on that state which returns the messages it sends. A set is walked in
    an arbitrary order, so a handler that walks one takes the order as a parameter. */
module Plumtree {
  import opened Seqs

  datatype Message =
    | Gossip(src: string, dst: string, mid: string, payload: string)
    | Ihave(src: string, dst: string, ids: seq<string>)
    | Prune(src: string, dst: string)
    | Graft(src: string, dst: string, mid: string)

  /** `order` lists the keys of `received` as they came in; `delivered` is what was handed to the
      application. */
  datatype Node = Node(eager: set<string>, lazy: set<string>,
                       order: seq<string>, received: map<string, string>,
                       missing: map<string, int>, ihaveFrom: map<string, seq<string>>,
                       queue: seq<(string, string)>, delivered: seq<(string, string)>)

  datatype Setup = Setup(id: string, cap: int, timeout: int)

  const EMPTY := Node({}, {}, [], map[], map[], map[], [], [])

  // ---- Links and the message cache -------------------------------------------------------

  function Synced(s: Node, current: set<string>): Node {
    s.(eager := (s.eager + (current - s.lazy)) * current, lazy := s.lazy * current)
  }

  function Eagerly(s: Node, peer: string): Node {
    s.(eager := s.eager + {peer}, lazy := s.lazy - {peer})
  }

  function Lazily(s: Node, peer: string): Node {
    s.(eager := s.eager - {peer}, lazy := s.lazy + {peer})
  }

  function Recorded(s: Node, cap: int, mid: string, payload: string): Node {
    var order, received := if mid in s.received then s.order else s.order + [mid], s.received[mid := payload];
    if |order| > cap && order != [] then s.(order := order[1..], received := received - {order[0]})
    else s.(order := order, received := received)
  }

  function Delivered(s: Node, mid: string, payload: string): Node {
    s.(delivered := s.delivered + [(mid, payload)])
  }

  // ---- Sending ---------------------------------------------------------------------------

  /** The full message to every peer walked, except those in `skip`. */
  function Pushes(me: string, peers: seq<string>, mid: string, payload: string, skip: set<string>): seq<Message> {
    if peers == [] then []
    else
      var n := |peers| - 1;
      Pushes(me, peers[..n], mid, payload, skip) + if peers[n] in skip then [] else [Gossip(me, peers[n], mid, payload)]
  }

  function Announcements(peers: seq<string>, mid: string, skip: set<string>): seq<(string, string)> {
    if peers == [] then []
    else
      var n := |peers| - 1;
      Announcements(peers[..n], mid, skip) + if peers[n] in skip then [] else [(peers[n], mid)]
  }

  /** What a node does with a message it now holds: deliver it, push it along the eager links and
      queue it for the lazy ones. */
  function Spread(s: Node, mid: string, payload: string, ls: seq<string>, skip: set<string>): Node {
    var d := Delivered(s, mid, payload);
    d.(queue := d.queue + Announcements(ls, mid, skip))
  }

  // ---- Handlers --------------------------------------------------------------------------

  function Broadcast(s: Node, me: Setup, current: set<string>, mid: string, payload: string,
                     es: seq<string>, ls: seq<string>): (Node, seq<Message>)
  {
    (Spread(Recorded(Synced(s, current), me.cap, mid, payload), mid, payload, ls, {}),
     Pushes(me.id, es, mid, payload, {}))
  }

  /** The state after a message arrived for the first time. */
  function Taken(s: Node, cap: int, src: string, mid: string, payload: string): Node {
    var r := Recorded(s, cap, mid, payload);
    Eagerly(r.(missing := r.missing - {mid}, ihaveFrom := r.ihaveFrom - {mid}), src)
  }

  function OnGossip(s: Node, me: Setup, src: string, mid: string, payload: string,
                    es: seq<string>, ls: seq<string>): (Node, seq<Message>)
  {
    if mid !in s.received then
      (Spread(Taken(s, me.cap, src, mid, payload), mid, payload, ls, {src}),
       Pushes(me.id, es, mid, payload, {src}))
    else
      (Lazily(s, src), [Prune(me.id, src)])
  }

  function OnPrune(s: Node, src: string): Node {
    Lazily(s, src)
  }

  /** One id of an announcement: start waiting for it, and note who has it. */
  function Heard(s: Node, src: string, mid: string): Node {
    if mid in s.received then s
    else
      var from := if mid in s.ihaveFrom then s.ihaveFrom[mid] else [];
      s.(missing := if mid in s.missing then s.missing else s.missing[mid := 0],
         ihaveFrom := s.ihaveFrom[mid := if src in from then from else from + [src]])
  }

  function OnIhave(s: Node, src: string, ids: seq<string>): Node {
    if ids == [] then s else Heard(OnIhave(s, src, ids[..|ids| - 1]), src, ids[|ids| - 1])
  }

  function OnGraft(s: Node, me: Setup, src: string, mid: string): (Node, seq<Message>) {
    (Eagerly(s, src), if mid in s.received then [Gossip(me.id, src, mid, s.received[mid])] else [])
  }

  // ---- The periodic tick -----------------------------------------------------------------

  /** The peers with announcements queued, in the order of their first one. */
  function QueuedPeers(queue: seq<(string, string)>): seq<string> {
    if queue == [] then []
    else
      var before, peer := QueuedPeers(queue[..|queue| - 1]), queue[|queue| - 1].0;
      if peer in before then before else before + [peer]
  }

  function QueuedIds(queue: seq<(string, string)>, peer: string): seq<string> {
    if queue == [] then []
    else
      var n := |queue| - 1;
      QueuedIds(queue[..n], peer) + if queue[n].0 == peer then [queue[n].1] else []
  }

  /** One batch for each of `peers`. */
  function Batches(me: string, queue: seq<(string, string)>, peers: seq<string>): seq<Message> {
    if peers == [] then []
    else
      var n := |peers| - 1;
      Batches(me, queue, peers[..n]) + [Ihave(me, peers[n], QueuedIds(queue, peers[n]))]
  }

  function Flushed(me: string, queue: seq<(string, string)>): seq<Message> {
    Batches(me, queue, QueuedPeers(queue))
  }

  /** One missing message: wait another round, and graft the next candidate when it is time. */
  function Repaired(s: Node, me: Setup, mid: string): (Node, seq<Message>) {
    if mid in s.received || mid !in s.missing then (s.(missing := s.missing - {mid}), [])
    else
      var waited := s.missing[mid] + 1;
      var w := s.(missing := s.missing[mid := waited]);
      if waited >= me.timeout && mid in s.ihaveFrom && s.ihaveFrom[mid] != [] then
        var from := s.ihaveFrom[mid];
        (Eagerly(w, from[0]).(missing := w.missing[mid := 0], ihaveFrom := s.ihaveFrom[mid := from[1..]]),
         [Graft(me.id, from[0], mid)])
      else (w, [])
  }

  function RepairedAll(s: Node, me: Setup, mids: seq<string>): (Node, seq<Message>) {
    if mids == [] then (s, [])
    else
      var n := |mids| - 1;
      var (b, sent) := RepairedAll(s, me, mids[..n]);
      var (c, more) := Repaired(b, me, mids[n]);
      (c, sent + more)
  }

  lemma RepairedNext(s: Node, me: Setup, mids: seq<string>, mid: string)
    ensures var (b, sent) := RepairedAll(s, me, mids);
            var (c, more) := Repaired(b, me, mid);
            RepairedAll(s, me, mids + [mid]) == (c, sent + more)
  {
    assert (mids + [mid])[..|mids|] == mids;
  }

  function Tick(s: Node, me: Setup, current: set<string>, mids: seq<string>): (Node, seq<Message>) {
    var f := Synced(s, current);
    var (r, grafts) := RepairedAll(f.(queue := []), me, mids);
    (r, Flushed(me.id, f.queue) + grafts)
  }

  // ---- The node object -------------------------------------------------------------------

  class PlumtreeBroadcast {
    const me: Setup
    var eager: set<string>
    var lazy: set<string>
    var order: seq<string>
    var received: map<string, string>
    var missing: map<string, int>
    var ihaveFrom: map<string, seq<string>>
    var lazyQueue: seq<(string, string)>
    var delivered: seq<(string, string)>

    constructor (me: Setup)
      ensures this.me == me && Value() == EMPTY
    {
      this.me := me;
      eager, lazy, order, received, missing, ihaveFrom := {}, {}, [], map[], map[], map[];
      lazyQueue, delivered := [], [];
    }

    function Value(): Node
      reads this
    {
      Node(eager, lazy, order, received, missing, ihaveFrom, lazyQueue, delivered)
    }

    method Record(mid: string, payload: string)
      modifies this`order, this`received
      ensures Value() == Recorded(old(Value()), me.cap, mid, payload)
    {
      if mid !in received {
        order := order + [mid];
      }
      received := received[mid := payload];
      if |order| > me.cap && order != [] {
        received := received - {order[0]};
        order := order[1..];
      }
    }

    method SyncNeighbors(current: set<string>)
      modifies this`eager, this`lazy
      ensures Value() == Synced(old(Value()), current)
      ensures forall n :: n in current && n !in old(eager) && n !in old(lazy) ==> n in eager && n !in lazy
      ensures forall n :: n in current ==> (n in old(eager) ==> n in eager) && (n in lazy <==> n in old(lazy))
      ensures forall n :: n in current && n !in old(eager) && n in old(lazy) ==> n !in eager
      ensures forall n :: n !in current ==> n !in eager && n !in lazy
    {
      var todo := current;
      while todo != {}
        invariant todo <= current && lazy == old(lazy)
        invariant eager == old(eager) + (current - todo - lazy)
      {
        var n :| n in todo;
        todo := todo - {n};
        if n !in eager && n !in lazy {
          eager := eager + {n};
        }
      }
      eager := eager * current;
      lazy := lazy * current;
      assert eager == (old(eager) + (current - old(lazy))) * current;
    }

    /** `walked` is the order in which the eager set was walked. */
    method EagerPush(mid: string, payload: string, skip: set<string>) returns (sent: seq<Message>, ghost walked: seq<string>)
      ensures NoRepeats(sent) && forall x :: x in sent <==> x == Gossip(me.id, x.dst, mid, payload) && x.dst in eager - skip
      ensures Walks(walked, eager) && sent == Pushes(me.id, walked, mid, payload, skip)
    {
      var todo := eager;
      sent, walked := [], [];
      while todo != {}
        invariant todo <= eager && Walks(walked, eager - todo)
        invariant sent == Pushes(me.id, walked, mid, payload, skip)
        invariant NoRepeats(sent)
        invariant forall x :: x in sent <==> x == Gossip(me.id, x.dst, mid, payload) && x.dst in eager - todo - skip
      {
        var peer :| peer in todo;
        todo := todo - {peer};
        walked := walked + [peer];
        if peer !in skip {
          sent := sent + [Gossip(me.id, peer, mid, payload)];
        }
      }
    }

    method LazyPush(mid: string, skip: set<string>) returns (ghost walked: seq<string>)
      modifies this`lazyQueue
      ensures Walks(walked, lazy) && lazyQueue == old(lazyQueue) + Announcements(walked, mid, skip)
    {
      var todo := lazy;
      walked := [];
      while todo != {}
        invariant todo <= lazy && Walks(walked, lazy - todo)
        invariant lazyQueue == old(lazyQueue) + Announcements(walked, mid, skip)
      {
        var peer :| peer in todo;
        todo := todo - {peer};
        walked := walked + [peer];
        if peer !in skip {
          lazyQueue := lazyQueue + [(peer, mid)];
        }
      }
    }

    method BroadcastMessage(current: set<string>, mid: string, payload: string)
      returns (sent: seq<Message>, ghost es: seq<string>, ghost ls: seq<string>)
      modifies this
      ensures Walks(es, eager) && Walks(ls, lazy)
      ensures (Value(), sent) == Broadcast(old(Value()), me, current, mid, payload, es, ls)
    {
      SyncNeighbors(current);
      Record(mid, payload);
      delivered := delivered + [(mid, payload)];
      sent, es := EagerPush(mid, payload, {});
      ls := LazyPush(mid, {});
    }

    method HandleGossip(src: string, mid: string, payload: string)
      returns (sent: seq<Message>, ghost es: seq<string>, ghost ls: seq<string>)
      modifies this
      ensures mid !in old(received) ==> Walks(es, eager) && Walks(ls, lazy)
      ensures (Value(), sent) == OnGossip(old(Value()), me, src, mid, payload, es, ls)
    {
      es, ls := [], [];
      if mid !in received {
        Record(mid, payload);
        missing := missing - {mid};
        ihaveFrom := ihaveFrom - {mid};
        eager := eager + {src};
        lazy := lazy - {src};
        delivered := delivered + [(mid, payload)];
        sent, es := EagerPush(mid, payload, {src});
        ls := LazyPush(mid, {src});
      } else {
        eager := eager - {src};
        lazy := lazy + {src};
        sent := [Prune(me.id, src)];
      }
    }

    method HandlePrune(src: string)
      modifies this`eager, this`lazy
      ensures Value() == OnPrune(old(Value()), src)
    {
      eager := eager - {src};
      lazy := lazy + {src};
    }

    method HandleIhave(src: string, ids: seq<string>)
      modifies this`missing, this`ihaveFrom
      ensures Value() == OnIhave(old(Value()), src, ids)
    {
      for i := 0 to |ids|
        invariant Value() == OnIhave(old(Value()), src, ids[..i])
      {
        assert ids[..i + 1][..i] == ids[..i];
        var mid := ids[i];
        if mid !in received {
          if mid !in missing {
            missing := missing[mid := 0];
          }
          var from := if mid in ihaveFrom then ihaveFrom[mid] else [];
          ihaveFrom := ihaveFrom[mid := if src in from then from else from + [src]];
        }
      }
      assert ids[..|ids|] == ids;
    }

    method HandleGraft(src: string, mid: string) returns (sent: seq<Message>)
      modifies this`eager, this`lazy
      ensures (Value(), sent) == OnGraft(old(Value()), me, src, mid)
    {
      eager := eager + {src};
      lazy := lazy - {src};
      sent := if mid in received then [Gossip(me.id, src, mid, received[mid])] else [];
    }

    /** The queued announcements, gathered per peer, with the peers in the order first met. */
    method GatherQueue() returns (peers: seq<string>, byPeer: map<string, seq<string>>)
      ensures peers == QueuedPeers(lazyQueue)
      ensures forall p :: p in peers ==> p in byPeer && byPeer[p] == QueuedIds(lazyQueue, p)
    {
      peers, byPeer := [], map[];
      for i := 0 to |lazyQueue|
        invariant peers == QueuedPeers(lazyQueue[..i])
        invariant forall p :: p in byPeer <==> p in peers
        invariant forall p :: QueuedIds(lazyQueue[..i], p) == if p in byPeer then byPeer[p] else []
      {
        assert lazyQueue[..i + 1][..i] == lazyQueue[..i];
        var (peer, mid) := lazyQueue[i];
        if peer !in byPeer {
          peers := peers + [peer];
          byPeer := byPeer[peer := []];
        }
        byPeer := byPeer[peer := byPeer[peer] + [mid]];
      }
      assert lazyQueue[..|lazyQueue|] == lazyQueue;
    }

    method FlushQueue() returns (sent: seq<Message>)
      ensures sent == Flushed(me.id, lazyQueue)
    {
      var peers, byPeer := GatherQueue();
      sent := [];
      for i := 0 to |peers|
        invariant sent == Batches(me.id, lazyQueue, peers[..i])
      {
        assert peers[..i + 1][..i] == peers[..i];
        sent := sent + [Ihave(me.id, peers[i], byPeer[peers[i]])];
      }
      assert peers[..|peers|] == peers;
    }

    method RepairOne(mid: string) returns (sent: seq<Message>)
      requires mid in missing
      modifies this`missing, this`ihaveFrom, this`eager, this`lazy
      ensures (Value(), sent) == Repaired(old(Value()), me, mid)
    {
      sent := [];
      if mid in received {
        missing := missing - {mid};
        return;
      }
      missing := missing[mid := missing[mid] + 1];
      if missing[mid] >= me.timeout && mid in ihaveFrom && ihaveFrom[mid] != [] {
        var peer := ihaveFrom[mid][0];
        ihaveFrom := ihaveFrom[mid := ihaveFrom[mid][1..]];
        eager := eager + {peer};
        lazy := lazy - {peer};
        missing := missing[mid := 0];
        sent := [Graft(me.id, peer, mid)];
      }
    }

    method RepairBranches() returns (sent: seq<Message>, ghost walked: seq<string>)
      modifies this`missing, this`ihaveFrom, this`eager, this`lazy
      ensures Walks(walked, old(missing.Keys))
      ensures (Value(), sent) == RepairedAll(old(Value()), me, walked)
    {
      ghost var start := Value();
      sent, walked := [], [];
      var todo := missing.Keys;
      while todo != {}
        invariant todo <= start.missing.Keys && Walks(walked, start.missing.Keys - todo)
        invariant todo <= missing.Keys && (Value(), sent) == RepairedAll(start, me, walked)
      {
        var mid :| mid in todo;
        todo := todo - {mid};
        RepairedNext(start, me, walked, mid);
        walked := walked + [mid];
        var more := RepairOne(mid);
        sent := sent + more;
      }
    }

    method OnTick(current: set<string>) returns (sent: seq<Message>, ghost walked: seq<string>)
      modifies this
      ensures Walks(walked, old(missing.Keys))
      ensures (Value(), sent) == Tick(old(Value()), me, current, walked)
    {
      SyncNeighbors(current);
      sent := FlushQueue();
      lazyQueue := [];
      var grafts;
      grafts, walked := RepairBranches();
      sent := sent + grafts;
    }
  }
}
