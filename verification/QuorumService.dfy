/** The object that runs quorum writes and reads on one node, and the proof that the objects of all
    nodes together do what `Quorum.Step` says. */
module QuorumService {
  import opened Store
  import opened Quorum

  datatype PendingWrite = PendingWrite(acks: nat, need: nat, done: bool)
  datatype PendingRead<V> = PendingRead(replies: seq<Reply<V>>, need: nat, done: bool)

  /** What one node holds: its store and the requests it waits for. */
  datatype Holding<V> = Holding(data: Data<V>, puts: map<string, PendingWrite>, gets: map<string, PendingRead<V>>)

  /** How many peers a request for `copies` replicas asks, of those there are. */
  function Wanted(copies: int, peers: nat): nat {
    if copies <= 1 then 0 else if copies - 1 < peers then copies - 1 else peers
  }

  // ---- What each call does to what a node holds ------------------------------------------

  /** A request that asks nobody is not waited for. */
  function PutStarted<V>(v: Holding<V>, req: string, key: string, entry: Entry<V>, asked: nat): Holding<V> {
    Holding(v.data[key := entry], if asked == 0 then v.puts else v.puts[req := PendingWrite(0, asked, false)], v.gets)
  }

  function PutFinished<V>(v: Holding<V>, req: string): Holding<V> {
    v.(puts := v.puts - {req})
  }

  /** How many replicas hold the write: the own one and those that said so. */
  function Copies<V>(v: Holding<V>, req: string): nat {
    1 + if req in v.puts then v.puts[req].acks else 0
  }

  function EntryTaken<V>(v: Holding<V>, key: string, entry: Entry<V>): Holding<V> {
    v.(data := MergeEntry(v.data, key, entry))
  }

  /** A late acknowledgement, after the request is gone, changes nothing. */
  function AckTaken<V>(v: Holding<V>, req: string): Holding<V> {
    if req !in v.puts then v
    else
      var p := v.puts[req];
      v.(puts := v.puts[req := PendingWrite(p.acks + 1, p.need, p.done || p.acks + 1 >= p.need)])
  }

  function GetStarted<V>(v: Holding<V>, req: string, first: Reply<V>, asked: nat): Holding<V> {
    if asked == 0 then v else v.(gets := v.gets[req := PendingRead([first], asked, false)])
  }

  function ReplyTaken<V>(v: Holding<V>, req: string, reply: Reply<V>): Holding<V> {
    if req !in v.gets then v
    else
      var p := v.gets[req];
      v.(gets := v.gets[req := PendingRead(p.replies + [reply], p.need, p.done || |p.replies| + 1 >= p.need + 1)])
  }

  /** The replies a read ends with. */
  function Gathered<V>(v: Holding<V>, req: string, first: Reply<V>): seq<Reply<V>> {
    if req in v.gets then v.gets[req].replies else [first]
  }

  ghost function GetFinished<V>(v: Holding<V>, req: string, key: string, first: Reply<V>): Holding<V> {
    Holding(Repaired(v.data, key, Newest(Gathered(v, req, first))), v.puts, v.gets - {req})
  }

  /** What the caller gets: nothing for a tombstone. */
  function Answer<V>(best: Option<Entry<V>>): Option<V> {
    if best.None? || best.value.deleted then None else best.value.value
  }

  /** The caller of a read gets nothing when no reply carries an entry; else the value of an entry that
      no reply is newer than, or nothing if that is a tombstone. */
  ghost predicate AnswersFrom<V>(replies: seq<Reply<V>>, value: Option<V>) {
    if forall j :: 0 <= j < |replies| ==> replies[j].entry.None? then value == None
    else exists i: nat :: IsNewestReply(replies, i)
                          && (replies[i].entry.value.deleted ==> value == None)
                          && (!replies[i].entry.value.deleted ==> value == replies[i].entry.value.value)
  }

  lemma AnswerFromReplies<V>(replies: seq<Reply<V>>)
    ensures AnswersFrom(replies, Answer(Newest(replies)))
  {
    var i := NewestIsReply(replies);
  }

  /** As many peers are asked as the copies wanted beyond the own one, as far as there are peers. */
  ghost predicate EnoughAsked(copies: int, peers: seq<string>, asked: seq<string>) {
    && asked <= peers
    && (|asked| + 1 < copies ==> asked == peers)
    && (asked != [] ==> |asked| + 1 <= copies)
  }

  // ---- The object ------------------------------------------------------------------------

  /** The loop over the replies. */
  method Chosen<V>(collected: seq<Reply<V>>) returns (best: Option<Entry<V>>)
    ensures best == Newest(collected)
  {
    best := None;
    for i := 0 to |collected|
      invariant best == Newest(collected[..i])
    {
      assert collected[..i + 1][..i] == collected[..i];
      var e := collected[i].entry;
      if e.Some? && (best.None? || Newer(e.value.version, best.value.version)) {
        best := e;
      }
    }
    assert collected[..|collected|] == collected;
  }

  class Service<V> {
    const store: DistributedStore<V>
    var pendingWrites: map<string, PendingWrite>
    var pendingReads: map<string, PendingRead<V>>

    constructor (store: DistributedStore<V>)
      ensures this.store == store && Held() == Holding(store.data, map[], map[])
    {
      this.store := store;
      pendingWrites, pendingReads := map[], map[];
    }

    ghost function Held(): Holding<V>
      reads this, store
    {
      Holding(store.data, pendingWrites, pendingReads)
    }

    /** The start of `quorum_put`: write here, then ask the first peers needed for `w` copies. */
    method StartPut(req: string, key: string, value: Option<V>, w: int, peers: seq<string>, now: real)
      returns (entry: Entry<V>, asked: seq<string>)
      modifies this`pendingWrites, store
      ensures entry.value == value && !entry.deleted && entry.version.origin == store.nodeId
      ensures entry.version.ts == store.highest > old(store.highest)
      ensures |asked| == Wanted(w, |peers|) && EnoughAsked(w, peers, asked)
      ensures Held() == PutStarted(old(Held()), req, key, entry, |asked|)
    {
      entry := store.Set(key, value, now);
      var need := if w - 1 > 0 then w - 1 else 0;
      if need == 0 || peers == [] {
        return entry, [];
      }
      asked := peers[..if need < |peers| then need else |peers|];
      pendingWrites := pendingWrites[req := PendingWrite(0, |asked|, false)];
    }

    /** The end of `quorum_put`, by quorum or by timeout. */
    method FinishPut(req: string) returns (copies: nat)
      modifies this`pendingWrites
      ensures copies == Copies(old(Held()), req)
      ensures Held() == PutFinished(old(Held()), req)
    {
      copies := 1;
      if req in pendingWrites {
        copies := copies + pendingWrites[req].acks;
      }
      pendingWrites := pendingWrites - {req};
    }

    /** The start of `quorum_get`: the own replica is the first reply. */
    method StartGet(req: string, key: string, r: int, peers: seq<string>) returns (first: Reply<V>, asked: seq<string>)
      modifies this`pendingReads
      ensures first == Reply(store.nodeId, Lookup(store.data, key))
      ensures (first.entry.Some? <==> key in store.data) && (first.entry.Some? ==> first.entry.value == store.data[key])
      ensures |asked| == Wanted(r, |peers|) && EnoughAsked(r, peers, asked)
      ensures Held() == GetStarted(old(Held()), req, first, |asked|)
    {
      first := Reply(store.nodeId, Lookup(store.data, key));
      var need := if r - 1 > 0 then r - 1 else 0;
      if need == 0 || peers == [] {
        return first, [];
      }
      asked := peers[..if need < |peers| then need else |peers|];
      pendingReads := pendingReads[req := PendingRead([first], |asked|, false)];
    }

    method OnWriteReq(key: string, entry: Entry<V>)
      modifies store
      ensures Held() == EntryTaken(old(Held()), key, entry)
      ensures AtLeast(Lookup(store.data, key), entry.version)
    {
      MergeRises(map["" := store.data], "", key, entry);
      var _ := store.MergeOne(key, entry);
    }

    method OnWriteResp(req: string)
      modifies this`pendingWrites
      ensures Held() == AckTaken(old(Held()), req)
    {
      if req !in pendingWrites {
        return;
      }
      var p := pendingWrites[req];
      p := p.(acks := p.acks + 1);
      if p.acks >= p.need && !p.done {
        p := p.(done := true);
      }
      pendingWrites := pendingWrites[req := p];
    }

    method OnReadReq(key: string) returns (entry: Option<Entry<V>>)
      ensures entry == Lookup(store.data, key)
      ensures (entry.Some? <==> key in store.data) && (entry.Some? ==> entry.value == store.data[key])
    {
      entry := if key in store.data then Some(store.data[key]) else None;
    }

    method OnReadResp(req: string, peer: string, entry: Option<Entry<V>>)
      modifies this`pendingReads
      ensures Held() == ReplyTaken(old(Held()), req, Reply(peer, entry))
    {
      if req !in pendingReads {
        return;
      }
      var p := pendingReads[req];
      p := p.(replies := p.replies + [Reply(peer, entry)]);
      if |p.replies| >= p.need + 1 && !p.done {
        p := p.(done := true);
      }
      pendingReads := pendingReads[req := p];
    }

    /** The end of `quorum_get`: choose the newest reply, fold it into the own replica, answer. */
    method FinishGet(req: string, key: string, first: Reply<V>) returns (value: Option<V>)
      modifies this`pendingReads, store
      ensures value == Answer(Newest(Gathered(old(Held()), req, first)))
      ensures AnswersFrom(Gathered(old(Held()), req, first), value)
      ensures Held() == GetFinished(old(Held()), req, key, first)
    {
      var collected := if req in pendingReads then pendingReads[req].replies else [first];
      pendingReads := pendingReads - {req};
      var best := Chosen(collected);
      AnswerFromReplies(collected);
      if best.None? {
        return None;
      }
      var _ := store.MergeOne(key, best.value);
      value := if best.value.deleted then None else best.value.value;
    }
  }

  // ---- The objects together do what the steps say ----------------------------------------

  /** A write that is open is waited for, unless nobody was asked. */
  ghost predicate PutMirrored<V>(s: State<V>, n: string, v: Holding<V>, q: string) {
    && (q in v.puts ==> q in s.puts && s.puts[q].node == n && s.puts[q].open && v.puts[q].acks == s.puts[q].acks)
    && (q in s.puts && s.puts[q].node == n && s.puts[q].open && q !in v.puts ==>
         s.puts[q].acks == 0 && s.puts[q].asked == {} && s.puts[q].answered == {})
  }

  ghost predicate GetMirrored<V>(s: State<V>, n: string, v: Holding<V>, q: string) {
    && (q in v.gets ==> q in s.gets && s.gets[q].node == n && s.gets[q].open && v.gets[q].replies == s.gets[q].replies)
    && (q in s.gets && s.gets[q].node == n && s.gets[q].open && q !in v.gets ==>
         |s.gets[q].replies| == 1 && s.gets[q].asked == {} && s.gets[q].answered == map[])
  }

  ghost predicate Mirrored<V>(s: State<V>, n: string, v: Holding<V>) {
    && n in s.stores && v.data == s.stores[n]
    && (forall q :: PutMirrored(s, n, v, q))
    && (forall q :: GetMirrored(s, n, v, q))
  }

  type Nodes<V> = map<string, Holding<V>>

  ghost predicate AllMirrored<V>(s: State<V>, nodes: Nodes<V>) {
    nodes.Keys == s.stores.Keys && forall n :: n in nodes ==> Mirrored(s, n, nodes[n])
  }

  /** The reply a read starts with. */
  ghost function FirstOf<V>(g: Read<V>): Reply<V> {
    if g.replies == [] then Reply(g.node, None) else g.replies[0]
  }

  /** Who acts at an event. */
  ghost function Actor<V>(s: State<V>, e: Event<V>): Option<string> {
    match e
    case Local(n, _, _) => Some(n)
    case StartPut(n, _, _, _, _) => Some(n)
    case WriteReq(_, p) => Some(p)
    case WriteResp(r, _) => if r in s.puts then Some(s.puts[r].node) else None
    case ClosePut(r) => if r in s.puts then Some(s.puts[r].node) else None
    case StartGet(n, _, _, _) => Some(n)
    case ReadReq(_, p) => Some(p)
    case ReadResp(r, _) => if r in s.gets then Some(s.gets[r].node) else None
    case CloseGet(r) => if r in s.gets then Some(s.gets[r].node) else None
  }

  /** What the call at an event leaves with the node that acts. Messages carry what their sender
      put in: key and entry of a write, the entry of a reply. */
  ghost function Called<V>(s: State<V>, v: Holding<V>, e: Event<V>): Holding<V>
    requires Enabled(s, e)
  {
    match e
    case Local(_, k, x) => v.(data := v.data[k := x])
    case StartPut(_, r, k, x, ps) => PutStarted(v, r, k, x, |ps|)
    case WriteReq(r, _) => EntryTaken(v, s.puts[r].key, s.puts[r].entry)
    case WriteResp(r, _) => AckTaken(v, r)
    case ClosePut(r) => PutFinished(v, r)
    case StartGet(n, r, k, ps) => GetStarted(v, r, Reply(n, Lookup(v.data, k)), |ps|)
    case ReadReq(_, _) => v
    case ReadResp(r, p) => ReplyTaken(v, r, Reply(p, s.gets[r].answered[p]))
    case CloseGet(r) => GetFinished(v, r, s.gets[r].key, FirstOf(s.gets[r]))
  }

  ghost function Acted<V>(s: State<V>, nodes: Nodes<V>, e: Event<V>): Nodes<V> {
    var actor := Actor(s, e);
    if Enabled(s, e) && actor.Some? && actor.value in nodes
    then nodes[actor.value := Called(s, nodes[actor.value], e)] else nodes
  }

  ghost function ActedAll<V>(s: State<V>, nodes: Nodes<V>, events: seq<Event<V>>): Nodes<V>
    decreases |events|
  {
    if events == [] then nodes else ActedAll(Step(s, events[0]), Acted(s, nodes, events[0]), events[1..])
  }

  lemma ActorPutMirrored<V>(s: State<V>, n: string, v: Holding<V>, e: Event<V>, q: string)
    requires PutMirrored(s, n, v, q) && Enabled(s, e) && Actor(s, e) == Some(n)
    ensures PutMirrored(Step(s, e), n, Called(s, v, e), q)
  {
  }

  lemma ActorGetMirrored<V>(s: State<V>, n: string, v: Holding<V>, e: Event<V>, q: string)
    requires GetMirrored(s, n, v, q) && Enabled(s, e) && Actor(s, e) == Some(n)
    requires n in s.stores && v.data == s.stores[n]
    ensures GetMirrored(Step(s, e), n, Called(s, v, e), q)
  {
  }

  lemma ActorDataMirrored<V>(s: State<V>, n: string, v: Holding<V>, e: Event<V>)
    requires Mirrored(s, n, v) && Enabled(s, e) && Actor(s, e) == Some(n)
    ensures Called(s, v, e).data == Step(s, e).stores[n]
  {
    if e.CloseGet? { assert GetMirrored(s, n, v, e.req); }
  }

  /** The node that acts still holds what the state says of it. */
  lemma ActorMirrored<V>(s: State<V>, n: string, v: Holding<V>, e: Event<V>)
    requires Mirrored(s, n, v) && Enabled(s, e) && Actor(s, e) == Some(n)
    ensures Mirrored(Step(s, e), n, Called(s, v, e))
  {
    ActorDataMirrored(s, n, v, e);
    forall q ensures PutMirrored(Step(s, e), n, Called(s, v, e), q) { ActorPutMirrored(s, n, v, e, q); }
    forall q ensures GetMirrored(Step(s, e), n, Called(s, v, e), q) { ActorGetMirrored(s, n, v, e, q); }
  }

  /** An event at one node is none of the business of another. */
  lemma OthersMirrored<V>(s: State<V>, n: string, v: Holding<V>, e: Event<V>)
    requires Mirrored(s, n, v) && Actor(s, e) != Some(n)
    ensures Mirrored(Step(s, e), n, v)
  {
    var t := Step(s, e);
    forall q ensures PutMirrored(t, n, v, q) { assert PutMirrored(s, n, v, q); }
    forall q ensures GetMirrored(t, n, v, q) { assert GetMirrored(s, n, v, q); }
  }

  lemma NothingMirrored<V>(s: State<V>, nodes: Nodes<V>, e: Event<V>)
    requires !Enabled(s, e)
    ensures Step(s, e) == s && Acted(s, nodes, e) == nodes
  {
  }

  lemma ActedAt<V>(s: State<V>, nodes: Nodes<V>, e: Event<V>, n: string)
    requires n in nodes && Enabled(s, e)
    ensures Acted(s, nodes, e).Keys == nodes.Keys
    ensures Acted(s, nodes, e)[n] == if Actor(s, e) == Some(n) then Called(s, nodes[n], e) else nodes[n]
  {
  }

  /** Each event, as the calls of the objects carry it out, is the step of the state. */
  lemma StepMirrored<V>(s: State<V>, nodes: Nodes<V>, e: Event<V>)
    requires AllMirrored(s, nodes)
    ensures AllMirrored(Step(s, e), Acted(s, nodes, e))
  {
    if !Enabled(s, e) {
      NothingMirrored(s, nodes, e);
    } else {
      StepKeepsNames(s, e);
      forall n | n in nodes ensures n in Acted(s, nodes, e) && Mirrored(Step(s, e), n, Acted(s, nodes, e)[n]) {
        ActedAt(s, nodes, e, n);
        if Actor(s, e) == Some(n) {
          ActorMirrored(s, n, nodes[n], e);
        } else {
          OthersMirrored(s, n, nodes[n], e);
        }
      }
      assert Acted(s, nodes, e).Keys == nodes.Keys;
    }
  }

  /** Over any run the objects of the nodes hold what the state says. */
  lemma {:induction false} RunMirrored<V>(s: State<V>, nodes: Nodes<V>, events: seq<Event<V>>)
    requires AllMirrored(s, nodes)
    ensures AllMirrored(Run(s, events), ActedAll(s, nodes, events))
    decreases |events|
  {
    if events != [] {
      StepMirrored(s, nodes, events[0]);
      RunMirrored(Step(s, events[0]), Acted(s, nodes, events[0]), events[1..]);
    }
  }

  /** What the calls answer is what the state says: the copies counted, the newest reply. */
  lemma CallsAnswer<V>(s: State<V>, n: string, v: Holding<V>, req: string)
    requires Mirrored(s, n, v)
    ensures req in s.puts && s.puts[req].node == n && s.puts[req].open ==> Copies(v, req) == WriteCount(s.puts[req])
    ensures req in s.gets && s.gets[req].node == n && s.gets[req].open ==>
              Gathered(v, req, FirstOf(s.gets[req])) == s.gets[req].replies
  {
    assert PutMirrored(s, n, v, req) && GetMirrored(s, n, v, req);
  }

  ghost function Fresh<V>(names: set<string>): Nodes<V> {
    map n | n in names :: Holding(map[], map[], map[])
  }

  /** The object at `n` and the state agree after a run from the start. */
  lemma ReachedMirrored<V>(names: set<string>, events: seq<Event<V>>)
    ensures AllMirrored(Run(Init<V>(names), events), ActedAll(Init<V>(names), Fresh<V>(names), events))
    ensures Consistent(Run(Init<V>(names), events)) && Run(Init<V>(names), events).stores.Keys == names
  {
    var s, nodes := Init<V>(names), Fresh<V>(names);
    forall n | n in nodes ensures Mirrored(s, n, nodes[n]) {
      forall q ensures PutMirrored(s, n, nodes[n], q) && GetMirrored(s, n, nodes[n], q) {}
    }
    RunMirrored(s, nodes, events);
    RunConsistent(s, events);
  }

  /** Read your writes as callers see it. At some point of a run `quorum_put` ends and answers
      `copies`; later a `quorum_get` of that key starts at `n`, and later still it ends with
      `replies`. When the two numbers add up to more than the nodes there are, the reply it
      chooses is at least as new as what was put; and if nothing newer has come in, the caller gets
      the very value that was put. */
  lemma CallersReadTheirWrites<V>(names: set<string>, events: seq<Event<V>>, q: string,
                                  middle: seq<Event<V>>, n: string, r: string, peers: set<string>, later: seq<Event<V>>)
    returns (copies: nat, replies: seq<Reply<V>>)
    requires Enabled(Run(Init<V>(names), events), Event<V>.ClosePut(q))
    requires var s := Run(Init<V>(names), events);
             var t := Run(Step(s, Event<V>.ClosePut(q)), middle);
             var get := Event<V>.StartGet(n, r, s.puts[q].key, peers);
             Enabled(t, get) && Enabled(Run(Step(t, get), later), Event<V>.CloseGet(r))
    ensures var s, nodes := Run(Init<V>(names), events), ActedAll(Init<V>(names), Fresh<V>(names), events);
            var w := s.puts[q];
            var s1, nodes1 := Step(s, Event<V>.ClosePut(q)), Acted(s, nodes, Event<V>.ClosePut(q));
            var t, nodes2 := Run(s1, middle), ActedAll(s1, nodes1, middle);
            var get := Event<V>.StartGet(n, r, w.key, peers);
            var nodes3 := ActedAll(Step(t, get), Acted(t, nodes2, get), later);
            && w.node in nodes && copies == Copies(nodes[w.node], q)
            && n in nodes2 && n in nodes3
            && replies == Gathered(nodes3[n], r, Reply(n, Lookup(nodes2[n].data, w.key)))
            && (copies + |replies| > |names| ==> AtLeast(Newest(replies), w.entry.version))
            && (copies + |replies| > |names| && Unsurpassed(replies, w.entry) ==>
                  Answer(Newest(replies)) == if w.entry.deleted then None else w.entry.value)
  {
    var s, nodes := Run(Init<V>(names), events), ActedAll(Init<V>(names), Fresh<V>(names), events);
    ReachedMirrored(names, events);
    var w := s.puts[q];
    assert WriteOk(s.stores, w) && Has(s.stores, w.node, w);
    CallsAnswer(s, w.node, nodes[w.node], q);
    copies := Copies(nodes[w.node], q);
    var s1, nodes1 := Step(s, Event<V>.ClosePut(q)), Acted(s, nodes, Event<V>.ClosePut(q));
    StepMirrored(s, nodes, Event<V>.ClosePut(q));
    StepConsistent(s, Event<V>.ClosePut(q));
    StepKeepsNames(s, Event<V>.ClosePut(q));
    var t, nodes2 := Run(s1, middle), ActedAll(s1, nodes1, middle);
    RunMirrored(s1, nodes1, middle);
    RunConsistent(s1, middle);
    ClosedStays(s1, middle, q);
    var get := Event<V>.StartGet(n, r, w.key, peers);
    replies := ReadEnds(names, t, nodes2, q, n, r, peers, later);
    assert t.puts[q].acks == w.acks;
    if AtLeast(Newest(replies), w.entry.version) && Unsurpassed(replies, w.entry) {
      UnsurpassedIsChosen(replies, w.entry);
    }
  }

  /** No reply is newer than `e`, and one with its version is `e`. */
  ghost predicate Unsurpassed<V>(replies: seq<Reply<V>>, e: Entry<V>) {
    forall j :: 0 <= j < |replies| && replies[j].entry.Some? ==>
                  !Newer(replies[j].entry.value.version, e.version)
                  && (replies[j].entry.value.version == e.version ==> replies[j].entry.value == e)
  }

  lemma UnsurpassedIsChosen<V>(replies: seq<Reply<V>>, e: Entry<V>)
    requires AtLeast(Newest(replies), e.version) && Unsurpassed(replies, e)
    ensures Newest(replies) == Some(e)
  {
    VersionOrder();
    var i := NewestIsReply(replies);
  }

  /** The part of a run from the start of a read to its end. */
  lemma ReadEnds<V>(names: set<string>, t: State<V>, nodes: Nodes<V>, q: string, n: string, r: string, peers: set<string>, later: seq<Event<V>>)
    returns (replies: seq<Reply<V>>)
    requires Consistent(t) && AllMirrored(t, nodes) && t.stores.Keys == names && q in t.puts && !t.puts[q].open
    requires Enabled(t, Event<V>.StartGet(n, r, t.puts[q].key, peers))
    requires Enabled(Run(Step(t, Event<V>.StartGet(n, r, t.puts[q].key, peers)), later), Event<V>.CloseGet(r))
    ensures var get := Event<V>.StartGet(n, r, t.puts[q].key, peers);
            var nodes' := ActedAll(Step(t, get), Acted(t, nodes, get), later);
            && n in nodes && n in nodes'
            && replies == Gathered(nodes'[n], r, Reply(n, Lookup(nodes[n].data, t.puts[q].key)))
            && (WriteCount(t.puts[q]) + |replies| > |names| ==> AtLeast(Newest(replies), t.puts[q].entry.version))
  {
    var get := Event<V>.StartGet(n, r, t.puts[q].key, peers);
    var t1, nodes1 := Step(t, get), Acted(t, nodes, get);
    assert Mirrored(t, n, nodes[n]);
    StepMirrored(t, nodes, get);
    StepConsistent(t, get);
    StepKeepsNames(t, get);
    var u, nodes2 := Run(t1, later), ActedAll(t1, nodes1, later);
    RunMirrored(t1, nodes1, later);
    RunConsistent(t1, later);
    ReadStays(t1, later, r);
    ClosedStays(t1, later, q);
    CallsAnswer(u, n, nodes2[n], r);
    replies := u.gets[r].replies;
    assert |u.stores.Keys| == |u.stores|;
    if WriteCount(t.puts[q]) + |replies| > |names| {
      NewestSeesWrite(u, q, r);
    }
  }

  // ---- When a request stops waiting ------------------------------------------------------

  /** A request is done exactly when as many have answered as were asked; nobody is forgotten. */
  ghost predicate PutCounts<V>(s: State<V>, v: Holding<V>, q: string) {
    q in v.puts && q in s.puts ==>
      var p, w := v.puts[q], s.puts[q];
      p.need == w.acks + |w.asked| + |w.answered| && (p.done <==> p.acks >= p.need)
  }

  ghost predicate GetCounts<V>(s: State<V>, v: Holding<V>, q: string) {
    q in v.gets && q in s.gets ==>
      var p, g := v.gets[q], s.gets[q];
      p.need + 1 == |g.replies| + |g.asked| + |g.answered| && (p.done <==> |p.replies| >= p.need + 1)
  }

  ghost predicate Counting<V>(s: State<V>, nodes: Nodes<V>) {
    && (forall n, q {:trigger PutCounts(s, nodes[n], q)} :: n in nodes ==> PutCounts(s, nodes[n], q))
    && forall n, q {:trigger GetCounts(s, nodes[n], q)} :: n in nodes ==> GetCounts(s, nodes[n], q)
  }

  /** The request an event is about. */
  ghost function About<V>(e: Event<V>): Option<string> {
    match e
    case Local(_, _, _) => None
    case StartPut(_, r, _, _, _) => Some(r)
    case WriteReq(r, _) => Some(r)
    case WriteResp(r, _) => Some(r)
    case ClosePut(r) => Some(r)
    case StartGet(_, r, _, _) => Some(r)
    case ReadReq(r, _) => Some(r)
    case ReadResp(r, _) => Some(r)
    case CloseGet(r) => Some(r)
  }

  lemma PutUntouched<V>(s: State<V>, v: Holding<V>, e: Event<V>, q: string)
    requires Enabled(s, e) && About(e) != Some(q) && PutCounts(s, v, q)
    ensures PutCounts(Step(s, e), v, q) && PutCounts(Step(s, e), Called(s, v, e), q)
  {
  }

  lemma GetUntouched<V>(s: State<V>, v: Holding<V>, e: Event<V>, q: string)
    requires Enabled(s, e) && About(e) != Some(q) && GetCounts(s, v, q)
    ensures GetCounts(Step(s, e), v, q) && GetCounts(Step(s, e), Called(s, v, e), q)
  {
  }

  lemma PutCountsStep<V>(s: State<V>, n: string, v: Holding<V>, e: Event<V>, q: string)
    requires PutMirrored(s, n, v, q) && PutCounts(s, v, q) && Enabled(s, e)
    requires q in s.puts ==> Tallied(s.puts[q])
    ensures PutCounts(Step(s, e), if Actor(s, e) == Some(n) then Called(s, v, e) else v, q)
  {
    if About(e) != Some(q) {
      PutUntouched(s, v, e, q);
    } else if e.WriteReq? {
      TallyDelivered(s.puts[q], e.peer);
    }
  }

  lemma GetCountsStep<V>(s: State<V>, n: string, v: Holding<V>, e: Event<V>, q: string)
    requires GetMirrored(s, n, v, q) && GetCounts(s, v, q) && Enabled(s, e)
    requires q in s.gets ==> s.gets[q].asked !! s.gets[q].answered.Keys
    ensures GetCounts(Step(s, e), if Actor(s, e) == Some(n) then Called(s, v, e) else v, q)
  {
    if About(e) != Some(q) {
      GetUntouched(s, v, e, q);
    } else if e.ReadReq? && e.peer in s.stores {
      ServedCounts(s.gets[q], e.peer, Lookup(s.stores[e.peer], s.gets[q].key));
    } else if e.ReadResp? {
      RepliedCounts(s.gets[q], e.peer);
    }
  }

  lemma ServedCounts<V>(g: Read<V>, p: string, x: Option<Entry<V>>)
    requires p in g.asked && p !in g.answered
    ensures |Served(g, p, x).asked| + |Served(g, p, x).answered| == |g.asked| + |g.answered|
  {
    assert g.answered[p := x].Keys == g.answered.Keys + {p};
    assert |g.answered[p := x]| == |g.answered[p := x].Keys| && |g.answered| == |g.answered.Keys|;
  }

  lemma RepliedCounts<V>(g: Read<V>, p: string)
    requires p in g.answered
    ensures |Replied(g, p).answered| == |g.answered| - 1
  {
    assert (g.answered - {p}).Keys == g.answered.Keys - {p};
    assert |g.answered - {p}| == |(g.answered - {p}).Keys| && |g.answered| == |g.answered.Keys|;
  }

  lemma StepCounting<V>(s: State<V>, nodes: Nodes<V>, e: Event<V>)
    requires AllMirrored(s, nodes) && Consistent(s) && Counting(s, nodes)
    ensures Counting(Step(s, e), Acted(s, nodes, e))
  {
    if !Enabled(s, e) {
      NothingMirrored(s, nodes, e);
    } else {
      var after := Acted(s, nodes, e);
      forall n, q | n in after ensures PutCounts(Step(s, e), after[n], q) && GetCounts(Step(s, e), after[n], q) {
        ActedAt(s, nodes, e, n);
        assert Mirrored(s, n, nodes[n]);
        assert PutMirrored(s, n, nodes[n], q) && GetMirrored(s, n, nodes[n], q);
        assert PutCounts(s, nodes[n], q) && GetCounts(s, nodes[n], q);
        if q in s.puts { assert WriteOk(s.stores, s.puts[q]); }
        if q in s.gets { assert Collected(s.stores.Keys, s.gets[q]); }
        PutCountsStep(s, n, nodes[n], e, q);
        GetCountsStep(s, n, nodes[n], e, q);
      }
    }
  }

  lemma {:induction false} RunCounting<V>(s: State<V>, nodes: Nodes<V>, events: seq<Event<V>>)
    requires AllMirrored(s, nodes) && Consistent(s) && Counting(s, nodes)
    ensures Counting(Run(s, events), ActedAll(s, nodes, events))
    decreases |events|
  {
    if events != [] {
      StepMirrored(s, nodes, events[0]);
      StepConsistent(s, events[0]);
      StepCounting(s, nodes, events[0]);
      RunCounting(Step(s, events[0]), Acted(s, nodes, events[0]), events[1..]);
    }
  }

  /** In every reachable state a request that waits is done, short of its timeout, exactly when every
      peer asked has been heard. */
  lemma DoneWhenAllHeard<V>(names: set<string>, events: seq<Event<V>>, n: string, q: string)
    requires n in ActedAll(Init<V>(names), Fresh<V>(names), events)
    ensures var s, v := Run(Init<V>(names), events), ActedAll(Init<V>(names), Fresh<V>(names), events)[n];
            && (q in v.puts ==> q in s.puts && (v.puts[q].done <==> s.puts[q].asked == {} && s.puts[q].answered == {}))
            && (q in v.gets ==> q in s.gets && (v.gets[q].done <==> s.gets[q].asked == {} && s.gets[q].answered == map[]))
  {
    var s0, nodes0 := Init<V>(names), Fresh<V>(names);
    ReachedMirrored<V>(names, []);
    assert Run(s0, []) == s0 && ActedAll(s0, nodes0, []) == nodes0;
    RunCounting(s0, nodes0, events);
    ReachedMirrored(names, events);
    var s, v := Run(s0, events), ActedAll(s0, nodes0, events)[n];
    assert Mirrored(s, n, v);
    assert PutMirrored(s, n, v, q) && GetMirrored(s, n, v, q) && PutCounts(s, v, q) && GetCounts(s, v, q);
  }
}
