/** Quorum writes and reads over one store per node. A request is sent once to each chosen peer
    and answered once, so the messages in flight are filed under their request: `asked` peers
    have a request coming, `answered` peers have a reply on its way back. Messages may be lost or
    late, and a request may be closed (by quorum or timeout) at any moment. */
module Quorum {
  import opened Store
  import opened Sums

  datatype Write<V> = Write(node: string, key: string, entry: Entry<V>, open: bool,
                            asked: set<string>, answered: set<string>, ackers: set<string>, acks: nat)

  datatype Reply<V> = Reply(node: string, entry: Option<Entry<V>>)

  /** `before` holds the writes that were closed when the read started. */
  datatype Read<V> = Read(node: string, key: string, open: bool, before: set<string>,
                          asked: set<string>, answered: map<string, Option<Entry<V>>>,
                          replies: seq<Reply<V>>, best: Option<Entry<V>>)

  datatype State<V> = State(stores: map<string, Data<V>>, puts: map<string, Write<V>>, gets: map<string, Read<V>>)

  datatype Event<V> =
    | Local(node: string, key: string, entry: Entry<V>)
    | StartPut(node: string, req: string, key: string, entry: Entry<V>, peers: set<string>)
    | WriteReq(req: string, peer: string)
    | WriteResp(req: string, peer: string)
    | ClosePut(req: string)
    | StartGet(node: string, req: string, key: string, peers: set<string>)
    | ReadReq(req: string, peer: string)
    | ReadResp(req: string, peer: string)
    | CloseGet(req: string)

  ghost function Init<V>(names: set<string>): State<V> {
    State(map n | n in names :: map[], map[], map[])
  }

  function Lookup<V>(d: Data<V>, k: string): Option<Entry<V>> {
    if k in d then Some(d[k]) else None
  }

  /** The newest entry among the replies; the first one of equals. */
  function Newest<V>(replies: seq<Reply<V>>): Option<Entry<V>> {
    if replies == [] then None
    else
      var best, e := Newest(replies[..|replies| - 1]), replies[|replies| - 1].entry;
      if e.Some? && (best.None? || Newer(e.value.version, best.value.version)) then e else best
  }

  ghost function Repaired<V>(d: Data<V>, k: string, best: Option<Entry<V>>): Data<V> {
    if best.Some? then MergeEntry(d, k, best.value) else d
  }

  /** Versions at a key never drop: local writes stamp above, merges only go up. */
  ghost predicate Enabled<V>(s: State<V>, e: Event<V>) {
    match e
    case Local(n, k, x) => n in s.stores && Wins(s.stores[n], k, x)
    case StartPut(n, r, k, x, ps) =>
      n in s.stores && r !in s.puts && ps <= s.stores.Keys - {n} && Wins(s.stores[n], k, x)
    case WriteReq(r, p) => r in s.puts && p in s.puts[r].asked
    case WriteResp(r, p) => r in s.puts && p in s.puts[r].answered
    case ClosePut(r) => r in s.puts && s.puts[r].open
    case StartGet(n, r, k, ps) => n in s.stores && r !in s.gets && ps <= s.stores.Keys - {n}
    case ReadReq(r, p) => r in s.gets && p in s.gets[r].asked
    case ReadResp(r, p) => r in s.gets && p in s.gets[r].answered
    case CloseGet(r) => r in s.gets && s.gets[r].open && s.gets[r].node in s.stores
  }

  /** The peer has taken the write; its acknowledgement is on its way. */
  ghost function Delivered<V>(w: Write<V>, p: string): Write<V> {
    w.(asked := w.asked - {p}, answered := w.answered + {p})
  }

  /** The acknowledgement is in; it counts unless it is late. */
  ghost function Acknowledged<V>(w: Write<V>, p: string): Write<V> {
    var w' := w.(answered := w.answered - {p});
    if w.open then w'.(ackers := w.ackers + {p}, acks := w.acks + 1) else w'
  }

  ghost function Served<V>(g: Read<V>, p: string, e: Option<Entry<V>>): Read<V> {
    g.(asked := g.asked - {p}, answered := g.answered[p := e])
  }

  ghost function Replied<V>(g: Read<V>, p: string): Read<V>
    requires p in g.answered
  {
    var g' := g.(answered := g.answered - {p});
    if g.open then g'.(replies := g.replies + [Reply(p, g.answered[p])]) else g'
  }

  ghost function Closed<V>(s: State<V>): set<string> {
    set q | q in s.puts && !s.puts[q].open
  }

  /** A read as it starts: with the reader's own entry as the first reply. */
  ghost function Opened<V>(s: State<V>, n: string, k: string, ps: set<string>): Read<V>
    requires n in s.stores
  {
    Read(n, k, true, Closed(s), ps, map[], [Reply(n, Lookup(s.stores[n], k))], None)
  }

  ghost function Step<V>(s: State<V>, e: Event<V>): State<V> {
    if !Enabled(s, e) then s
    else match e
      case Local(n, k, x) => s.(stores := s.stores[n := s.stores[n][k := x]])
      case StartPut(n, r, k, x, ps) =>
        s.(stores := s.stores[n := s.stores[n][k := x]], puts := s.puts[r := Write(n, k, x, true, ps, {}, {}, 0)])
      case WriteReq(r, p) =>
        var w := s.puts[r];
        if p !in s.stores then s
        else
          State(s.stores[p := MergeEntry(s.stores[p], w.key, w.entry)], s.puts[r := Delivered(w, p)], s.gets)
      case WriteResp(r, p) =>
        s.(puts := s.puts[r := Acknowledged(s.puts[r], p)])
      case ClosePut(r) => s.(puts := s.puts[r := s.puts[r].(open := false)])
      case StartGet(n, r, k, ps) =>
        s.(gets := s.gets[r := Opened(s, n, k, ps)])
      case ReadReq(r, p) =>
        var g := s.gets[r];
        if p !in s.stores then s
        else
          s.(gets := s.gets[r := Served(g, p, Lookup(s.stores[p], g.key))])
      case ReadResp(r, p) =>
        s.(gets := s.gets[r := Replied(s.gets[r], p)])
      case CloseGet(r) =>
        var g := s.gets[r];
        s.(stores := s.stores[g.node := Repaired(s.stores[g.node], g.key, Newest(g.replies))],
           gets := s.gets[r := g.(open := false, best := Newest(g.replies))])
  }

  ghost function Run<V>(s: State<V>, events: seq<Event<V>>): State<V>
    decreases |events|
  {
    if events == [] then s else Run(Step(s, events[0]), events[1..])
  }

  // ---- The newest reply ------------------------------------------------------------------

  /** The reply is at least as new as `v`. */
  ghost predicate AtLeast<V>(e: Option<Entry<V>>, v: Version) {
    e.Some? && !Newer(v, e.value.version)
  }

  lemma {:induction false} NewestIsNewest<V>(replies: seq<Reply<V>>, i: nat, v: Version)
    requires i < |replies| && AtLeast(replies[i].entry, v)
    ensures AtLeast(Newest(replies), v)
  {
    VersionOrder();
    if i < |replies| - 1 {
      NewestIsNewest(replies[..|replies| - 1], i, v);
    }
  }

  /** Reply `i` carries an entry that no reply is newer than. */
  ghost predicate IsNewestReply<V>(replies: seq<Reply<V>>, i: nat) {
    && i < |replies| && replies[i].entry.Some?
    && forall j :: 0 <= j < |replies| && replies[j].entry.Some? ==>
                     !Newer(replies[j].entry.value.version, replies[i].entry.value.version)
  }

  /** What is chosen is the entry of a reply, the first of the newest; nothing is chosen only when no
      reply carries an entry. */
  lemma {:induction false} NewestIsReply<V>(replies: seq<Reply<V>>) returns (i: nat)
    ensures Newest(replies).None? <==> forall j :: 0 <= j < |replies| ==> replies[j].entry.None?
    ensures Newest(replies).Some? ==>
              && IsNewestReply(replies, i) && replies[i].entry == Newest(replies)
              && forall j :: 0 <= j < i && replies[j].entry.Some? ==> replies[j].entry.value.version != replies[i].entry.value.version
  {
    i := 0;
    if replies != [] {
      var n := |replies| - 1;
      VersionOrder();
      i := NewestIsReply(replies[..n]);
      var e, before := replies[n].entry, Newest(replies[..n]);
      if e.Some? && (before.None? || Newer(e.value.version, before.value.version)) {
        assert forall j :: 0 <= j < n ==> replies[..n][j] == replies[j];
        i := n;
      } else if before.Some? {
        assert replies[..n][i] == replies[i];
      }
    }
  }

  // ---- The invariant ---------------------------------------------------------------------

  /** The nodes known to hold the write or something newer: the writer and every peer that has
      answered. */
  ghost function Holders<V>(w: Write<V>): set<string> {
    {w.node} + w.answered + w.ackers
  }

  /** The nodes counted by the result of the write. */
  ghost function Counted<V>(w: Write<V>): set<string> {
    {w.node} + w.ackers
  }

  type Stores<V> = map<string, Data<V>>

  type Puts<V> = map<string, Write<V>>

  ghost predicate Has<V>(stores: Stores<V>, n: string, w: Write<V>) {
    n in stores && AtLeast(Lookup(stores[n], w.key), w.entry.version)
  }

  /** Each peer is asked once, answers once and is counted once. */
  ghost predicate Tallied<V>(w: Write<V>) {
    && w.asked !! w.answered && w.asked !! w.ackers && w.answered !! w.ackers
    && w.node !in w.asked && w.node !in w.answered && w.node !in w.ackers
    && |w.ackers| == w.acks
  }

  ghost predicate WriteOk<V>(stores: Stores<V>, w: Write<V>) {
    && Tallied(w) && w.asked <= stores.Keys
    && forall n :: n in Holders(w) ==> Has(stores, n, w)
  }

  ghost function Repliers<V>(replies: seq<Reply<V>>): set<string> {
    set i | 0 <= i < |replies| :: replies[i].node
  }

  ghost predicate ReflectsOne<V>(w: Write<V>, key: string, n: string, e: Option<Entry<V>>) {
    w.key == key && n in Counted(w) ==> AtLeast(e, w.entry.version)
  }

  /** Whoever was counted by an earlier write replies with at least that write. */
  ghost predicate Reflects<V>(puts: Puts<V>, g: Read<V>, n: string, e: Option<Entry<V>>) {
    forall q :: q in g.before && q in puts ==> ReflectsOne(puts[q], g.key, n, e)
  }

  ghost predicate Collected<V>(names: set<string>, g: Read<V>) {
    && g.node in names && g.asked <= names && g.answered.Keys <= names && Repliers(g.replies) <= names
    && g.asked !! g.answered.Keys && g.asked !! Repliers(g.replies) && g.answered.Keys !! Repliers(g.replies)
    && |Repliers(g.replies)| == |g.replies|
    && (!g.open ==> g.best == Newest(g.replies))
  }

  ghost predicate Informed<V>(puts: Puts<V>, g: Read<V>) {
    && (forall q :: q in g.before ==> q in puts && !puts[q].open)
    && (forall n :: n in g.answered ==> Reflects(puts, g, n, g.answered[n]))
    && (forall i :: 0 <= i < |g.replies| ==> Reflects(puts, g, g.replies[i].node, g.replies[i].entry))
  }

  ghost predicate Consistent<V>(s: State<V>) {
    && (forall r :: r in s.puts ==> WriteOk(s.stores, s.puts[r]))
    && (forall r :: r in s.gets ==> Collected(s.stores.Keys, s.gets[r]) && Informed(s.puts, s.gets[r]))
  }

  // ---- Stores only go up -----------------------------------------------------------------

  ghost predicate Rise<V>(a: Stores<V>, b: Stores<V>) {
    a.Keys == b.Keys && forall n :: n in a ==> Covers(b[n], a[n])
  }

  lemma HasRises<V>(a: Stores<V>, b: Stores<V>, n: string, w: Write<V>)
    requires Rise(a, b) && Has(a, n, w)
    ensures Has(b, n, w)
  {
    assert Covers(b[n], a[n]);
    VersionOrder();
  }

  lemma WriteOkRises<V>(a: Stores<V>, b: Stores<V>, w: Write<V>)
    requires WriteOk(a, w) && Rise(a, b)
    ensures WriteOk(b, w)
  {
    forall n | n in Holders(w) ensures Has(b, n, w) { HasRises(a, b, n, w); }
  }

  lemma WinRises<V>(a: Stores<V>, n: string, key: string, x: Entry<V>)
    requires n in a && Wins(a[n], key, x)
    ensures Rise(a, a[n := a[n][key := x]])
    ensures AtLeast(Lookup(a[n][key := x], key), x.version)
  {
    VersionOrder();
  }

  lemma MergeRises<V>(a: Stores<V>, n: string, key: string, x: Entry<V>)
    requires n in a
    ensures Rise(a, a[n := MergeEntry(a[n], key, x)])
    ensures AtLeast(Lookup(MergeEntry(a[n], key, x), key), x.version)
  {
    VersionOrder();
  }

  /** Writes that are closed keep their key, entry and quorum. */
  ghost predicate KeepsClosed<V>(p: Puts<V>, p': Puts<V>) {
    forall q :: q in p && !p[q].open ==> q in p' && SameWrite(p[q], p'[q])
  }

  ghost predicate SameWrite<V>(w: Write<V>, w': Write<V>) {
    !w'.open && w'.key == w.key && w'.entry == w.entry && Counted(w') == Counted(w)
  }

  lemma InformedKept<V>(p: Puts<V>, p': Puts<V>, g: Read<V>)
    requires Informed(p, g) && KeepsClosed(p, p')
    ensures Informed(p', g)
  {
    forall n | n in g.answered ensures Reflects(p', g, n, g.answered[n]) {
      ReflectsKept(p, p', g, n, g.answered[n]);
    }
    forall i | 0 <= i < |g.replies| ensures Reflects(p', g, g.replies[i].node, g.replies[i].entry) {
      ReflectsKept(p, p', g, g.replies[i].node, g.replies[i].entry);
    }
  }

  lemma ReflectsKept<V>(p: Puts<V>, p': Puts<V>, g: Read<V>, n: string, e: Option<Entry<V>>)
    requires Reflects(p, g, n, e) && KeepsClosed(p, p')
    requires forall q :: q in g.before ==> q in p && !p[q].open
    ensures Reflects(p', g, n, e)
  {
    forall q | q in g.before && q in p' ensures ReflectsOne(p'[q], g.key, n, e) {
      assert SameWrite(p[q], p'[q]) && ReflectsOne(p[q], g.key, n, e);
    }
  }

  /** One store may rise and one write record may change. */
  lemma ReplacePut<V>(s: State<V>, stores: Stores<V>, r: string, w: Write<V>)
    requires Consistent(s) && Rise(s.stores, stores) && WriteOk(stores, w)
    requires r in s.puts && !s.puts[r].open ==> SameWrite(s.puts[r], w)
    ensures Consistent(State(stores, s.puts[r := w], s.gets))
  {
    var puts := s.puts[r := w];
    forall q | q in puts ensures WriteOk(stores, puts[q]) {
      if q != r { WriteOkRises(s.stores, stores, s.puts[q]); }
    }
    assert KeepsClosed(s.puts, puts) by {
      forall q | q in s.puts && !s.puts[q].open ensures q in puts && SameWrite(s.puts[q], puts[q]) {}
    }
    forall q | q in s.gets ensures Collected(stores.Keys, s.gets[q]) && Informed(puts, s.gets[q]) {
      InformedKept(s.puts, puts, s.gets[q]);
    }
  }

  /** One store may rise and one read record may change. */
  lemma ReplaceGet<V>(s: State<V>, stores: Stores<V>, r: string, g: Read<V>)
    requires Consistent(s) && Rise(s.stores, stores)
    requires Collected(s.stores.Keys, g) && Informed(s.puts, g)
    ensures Consistent(State(stores, s.puts, s.gets[r := g]))
  {
    forall q | q in s.puts ensures WriteOk(stores, s.puts[q]) { WriteOkRises(s.stores, stores, s.puts[q]); }
    var gets := s.gets[r := g];
    forall q | q in gets ensures Collected(stores.Keys, gets[q]) && Informed(s.puts, gets[q]) {}
  }

  lemma RiseNothing<V>(a: Stores<V>)
    ensures Rise(a, a)
  {
    VersionOrder();
  }

  // ---- Every event keeps the invariant ---------------------------------------------------

  lemma LocalStep<V>(s: State<V>, n: string, k: string, x: Entry<V>)
    requires Consistent(s) && n in s.stores && Wins(s.stores[n], k, x)
    ensures Consistent(s.(stores := s.stores[n := s.stores[n][k := x]]))
  {
    WinRises(s.stores, n, k, x);
    var stores := s.stores[n := s.stores[n][k := x]];
    forall q | q in s.puts ensures WriteOk(stores, s.puts[q]) { WriteOkRises(s.stores, stores, s.puts[q]); }
  }

  lemma StartPutStep<V>(s: State<V>, n: string, r: string, k: string, x: Entry<V>, ps: set<string>)
    requires Consistent(s) && n in s.stores && r !in s.puts && ps <= s.stores.Keys - {n} && Wins(s.stores[n], k, x)
    ensures Consistent(State(s.stores[n := s.stores[n][k := x]], s.puts[r := Write(n, k, x, true, ps, {}, {}, 0)], s.gets))
  {
    var stores, w := s.stores[n := s.stores[n][k := x]], Write(n, k, x, true, ps, {}, {}, 0);
    WinRises(s.stores, n, k, x);
    assert Holders(w) == {n} && Has(stores, n, w);
    ReplacePut(s, stores, r, w);
  }

  lemma TallyDelivered<V>(w: Write<V>, p: string)
    requires Tallied(w) && p in w.asked
    ensures Tallied(Delivered(w, p)) && Holders(Delivered(w, p)) == Holders(w) + {p}
  {
  }

  lemma TallyAcknowledged<V>(w: Write<V>, p: string)
    requires Tallied(w) && p in w.answered
    ensures Tallied(Acknowledged(w, p)) && Holders(Acknowledged(w, p)) <= Holders(w)
    ensures !w.open ==> Counted(Acknowledged(w, p)) == Counted(w)
  {
    assert p !in w.ackers;
  }

  lemma WriteOkDelivered<V>(a: Stores<V>, b: Stores<V>, w: Write<V>, p: string)
    requires WriteOk(a, w) && p in w.asked && Rise(a, b) && Has(b, p, w)
    ensures WriteOk(b, Delivered(w, p)) && Counted(Delivered(w, p)) == Counted(w)
  {
    TallyDelivered(w, p);
    forall n | n in Holders(Delivered(w, p)) ensures Has(b, n, Delivered(w, p)) {
      if n != p { HasRises(a, b, n, w); }
    }
  }

  lemma WriteReqStep<V>(s: State<V>, r: string, p: string)
    requires Consistent(s) && r in s.puts && p in s.puts[r].asked
    ensures p in s.stores
    ensures var w := s.puts[r];
            Consistent(State(s.stores[p := MergeEntry(s.stores[p], w.key, w.entry)], s.puts[r := Delivered(w, p)], s.gets))
  {
    var w := s.puts[r];
    assert WriteOk(s.stores, w);
    var stores := s.stores[p := MergeEntry(s.stores[p], w.key, w.entry)];
    MergeRises(s.stores, p, w.key, w.entry);
    WriteOkDelivered(s.stores, stores, w, p);
    ReplacePut(s, stores, r, Delivered(w, p));
  }

  lemma WriteRespStep<V>(s: State<V>, r: string, p: string)
    requires Consistent(s) && r in s.puts && p in s.puts[r].answered
    ensures Consistent(State(s.stores, s.puts[r := Acknowledged(s.puts[r], p)], s.gets))
  {
    var w := s.puts[r];
    assert WriteOk(s.stores, w);
    var w' := Acknowledged(w, p);
    TallyAcknowledged(w, p);
    forall n | n in Holders(w') ensures Has(s.stores, n, w') { assert Has(s.stores, n, w); }
    RiseNothing(s.stores);
    ReplacePut(s, s.stores, r, w');
  }

  lemma ClosePutStep<V>(s: State<V>, r: string)
    requires Consistent(s) && r in s.puts && s.puts[r].open
    ensures Consistent(s.(puts := s.puts[r := s.puts[r].(open := false)]))
  {
    var w := s.puts[r];
    assert WriteOk(s.stores, w);
    var w' := w.(open := false);
    assert Holders(w') == Holders(w);
    forall n | n in Holders(w') ensures Has(s.stores, n, w') { assert Has(s.stores, n, w); }
    RiseNothing(s.stores);
    ReplacePut(s, s.stores, r, w');
  }

  /** What a store holds now reflects every write its node was counted for. */
  lemma StoreReflects<V>(s: State<V>, g: Read<V>, n: string)
    requires Consistent(s) && n in s.stores
    ensures Reflects(s.puts, g, n, Lookup(s.stores[n], g.key))
  {
    forall q | q in g.before && q in s.puts ensures ReflectsOne(s.puts[q], g.key, n, Lookup(s.stores[n], g.key)) {
      assert WriteOk(s.stores, s.puts[q]);
      if n in Counted(s.puts[q]) { assert n in Holders(s.puts[q]) && Has(s.stores, n, s.puts[q]); }
    }
  }

  lemma StartGetStep<V>(s: State<V>, n: string, r: string, k: string, ps: set<string>)
    requires Consistent(s) && n in s.stores && ps <= s.stores.Keys - {n}
    ensures Consistent(s.(gets := s.gets[r := Opened(s, n, k, ps)]))
  {
    var g := Opened(s, n, k, ps);
    StoreReflects(s, g, n);
    RepliersAppend([], Reply(n, Lookup(s.stores[n], k)));
    assert [] + g.replies == g.replies;
    RiseNothing(s.stores);
    ReplaceGet(s, s.stores, r, g);
  }

  lemma ReadReqStep<V>(s: State<V>, r: string, p: string)
    requires Consistent(s) && r in s.gets && p in s.gets[r].asked
    ensures p in s.stores
    ensures Consistent(s.(gets := s.gets[r := Served(s.gets[r], p, Lookup(s.stores[p], s.gets[r].key))]))
  {
    var g := s.gets[r];
    assert Collected(s.stores.Keys, g) && Informed(s.puts, g);
    var g' := Served(g, p, Lookup(s.stores[p], g.key));
    StoreReflects(s, g', p);
    forall n | n in g'.answered ensures Reflects(s.puts, g', n, g'.answered[n]) {
      if n != p { ReflectsSame(s.puts, g, g', n, g.answered[n]); }
    }
    forall i | 0 <= i < |g'.replies| ensures Reflects(s.puts, g', g'.replies[i].node, g'.replies[i].entry) {
      ReflectsSame(s.puts, g, g', g.replies[i].node, g.replies[i].entry);
    }
    RiseNothing(s.stores);
    ReplaceGet(s, s.stores, r, g');
  }

  lemma ReflectsSame<V>(puts: Puts<V>, g: Read<V>, g': Read<V>, n: string, e: Option<Entry<V>>)
    requires Reflects(puts, g, n, e) && g'.before == g.before && g'.key == g.key
    ensures Reflects(puts, g', n, e)
  {
  }

  lemma RepliersAppend<V>(replies: seq<Reply<V>>, x: Reply<V>)
    ensures Repliers(replies + [x]) == Repliers(replies) + {x.node}
    ensures Repliers<V>([]) == {}
  {
    var more := replies + [x];
    assert more[|replies|] == x && forall i :: 0 <= i < |replies| ==> more[i] == replies[i];
  }

  lemma CollectReplied<V>(names: set<string>, g: Read<V>, p: string)
    requires Collected(names, g) && p in g.answered
    ensures Collected(names, Replied(g, p))
  {
    RepliersAppend(g.replies, Reply(p, g.answered[p]));
    assert p !in Repliers(g.replies);
  }

  lemma ReadRespStep<V>(s: State<V>, r: string, p: string)
    requires Consistent(s) && r in s.gets && p in s.gets[r].answered
    ensures Consistent(s.(gets := s.gets[r := Replied(s.gets[r], p)]))
  {
    var g := s.gets[r];
    assert Collected(s.stores.Keys, g) && Informed(s.puts, g);
    var g' := Replied(g, p);
    CollectReplied(s.stores.Keys, g, p);
    forall n | n in g'.answered ensures Reflects(s.puts, g', n, g'.answered[n]) {
      ReflectsSame(s.puts, g, g', n, g.answered[n]);
    }
    forall i | 0 <= i < |g'.replies| ensures Reflects(s.puts, g', g'.replies[i].node, g'.replies[i].entry) {
      if i < |g.replies| {
        ReflectsSame(s.puts, g, g', g.replies[i].node, g.replies[i].entry);
      } else {
        ReflectsSame(s.puts, g, g', p, g.answered[p]);
      }
    }
    RiseNothing(s.stores);
    ReplaceGet(s, s.stores, r, g');
  }

  lemma CloseGetStep<V>(s: State<V>, r: string)
    requires Consistent(s) && r in s.gets && s.gets[r].open && s.gets[r].node in s.stores
    ensures Consistent(Step(s, Event<V>.CloseGet(r)))
  {
    var g := s.gets[r];
    assert Collected(s.stores.Keys, g) && Informed(s.puts, g);
    var best := Newest(g.replies);
    var g' := g.(open := false, best := best);
    var stores := s.stores[g.node := Repaired(s.stores[g.node], g.key, best)];
    if best.Some? {
      MergeRises(s.stores, g.node, g.key, best.value);
    } else {
      assert stores == s.stores;
      RiseNothing(s.stores);
    }
    forall n | n in g'.answered ensures Reflects(s.puts, g', n, g'.answered[n]) {
      ReflectsSame(s.puts, g, g', n, g.answered[n]);
    }
    forall i | 0 <= i < |g'.replies| ensures Reflects(s.puts, g', g'.replies[i].node, g'.replies[i].entry) {
      ReflectsSame(s.puts, g, g', g.replies[i].node, g.replies[i].entry);
    }
    ReplaceGet(s, stores, r, g');
  }

  lemma StepConsistent<V>(s: State<V>, e: Event<V>)
    requires Consistent(s)
    ensures Consistent(Step(s, e))
  {
    if Enabled(s, e) {
      match e
      case Local(n, k, x) => LocalStep(s, n, k, x);
      case StartPut(n, r, k, x, ps) => StartPutStep(s, n, r, k, x, ps);
      case WriteReq(r, p) => WriteReqStep(s, r, p);
      case WriteResp(r, p) => WriteRespStep(s, r, p);
      case ClosePut(r) => ClosePutStep(s, r);
      case StartGet(n, r, k, ps) => StartGetStep(s, n, r, k, ps);
      case ReadReq(r, p) => ReadReqStep(s, r, p);
      case ReadResp(r, p) => ReadRespStep(s, r, p);
      case CloseGet(r) => CloseGetStep(s, r);
    }
  }

  lemma StepKeepsNames<V>(s: State<V>, e: Event<V>)
    ensures Step(s, e).stores.Keys == s.stores.Keys
  {
  }

  lemma {:induction false} RunConsistent<V>(s: State<V>, events: seq<Event<V>>)
    requires Consistent(s)
    ensures Consistent(Run(s, events)) && Run(s, events).stores.Keys == s.stores.Keys
    decreases |events|
  {
    if events != [] {
      var t := Step(s, events[0]);
      StepConsistent(s, events[0]);
      StepKeepsNames(s, events[0]);
      RunConsistent(t, events[1..]);
    }
  }

  // ---- Read your writes ------------------------------------------------------------------

  lemma Overlap(a: set<string>, b: set<string>, all: set<string>)
    requires a <= all && b <= all && |a| + |b| > |all|
    ensures exists n :: n in a && n in b
  {
    if forall n :: n in a ==> n !in b {
      assert |a + b| == |a| + |b|;
      Subset(a + b, all);
    }
  }

  /** The number of replicas `quorum_put` returns: its own and the acknowledged ones. */
  ghost function WriteCount<V>(w: Write<V>): nat {
    1 + w.acks
  }

  /** With enough copies and replies that the two quorums must overlap, the newest reply is at
      least as new as a write closed before the read started. */
  lemma NewestSeesWrite<V>(s: State<V>, q: string, r: string)
    requires Consistent(s) && q in s.puts && r in s.gets
    requires q in s.gets[r].before && s.puts[q].key == s.gets[r].key
    requires WriteCount(s.puts[q]) + |s.gets[r].replies| > |s.stores|
    ensures AtLeast(Newest(s.gets[r].replies), s.puts[q].entry.version)
  {
    var w, g := s.puts[q], s.gets[r];
    assert |s.stores.Keys| == |s.stores|;
    assert WriteOk(s.stores, w) && Collected(s.stores.Keys, g) && Informed(s.puts, g);
    QuorumsMeet(s.stores, w, g, s.stores.Keys);
    var i :| 0 <= i < |g.replies| && g.replies[i].node in Counted(w);
    assert Reflects(s.puts, g, g.replies[i].node, g.replies[i].entry);
    assert ReflectsOne(w, g.key, g.replies[i].node, g.replies[i].entry);
    NewestIsNewest(g.replies, i, w.entry.version);
  }

  /** In every run over `names`: a closed read that started after the write `q` was closed, on the
      same key, with enough replies that the two quorums must overlap, has chosen a version at
      least as new as the written one. */
  lemma QuorumReadsItsWrites<V>(names: set<string>, events: seq<Event<V>>, q: string, r: string)
    requires var s := Run(Init<V>(names), events);
             && r in s.gets && !s.gets[r].open && q in s.gets[r].before && q in s.puts
             && s.puts[q].key == s.gets[r].key
             && WriteCount(s.puts[q]) + |s.gets[r].replies| > |names|
    ensures var s := Run(Init<V>(names), events);
            AtLeast(s.gets[r].best, s.puts[q].entry.version)
  {
    var s := Run(Init<V>(names), events);
    assert Init<V>(names).stores.Keys == names;
    RunConsistent(Init<V>(names), events);
    assert |s.stores.Keys| == |s.stores|;
    assert Collected(s.stores.Keys, s.gets[r]);
    NewestSeesWrite(s, q, r);
  }

  /** A closed write stays as it is, whatever arrives late. */
  lemma {:induction false} ClosedStays<V>(s: State<V>, events: seq<Event<V>>, q: string)
    requires q in s.puts && !s.puts[q].open
    ensures var t := Run(s, events);
            q in t.puts && !t.puts[q].open && t.puts[q].acks == s.puts[q].acks
            && t.puts[q].key == s.puts[q].key && t.puts[q].entry == s.puts[q].entry
    decreases |events|
  {
    if events != [] {
      ClosedStays(Step(s, events[0]), events[1..], q);
    }
  }

  /** A read stays at its node and key, and replies are only added to it. */
  lemma {:induction false} ReadStays<V>(s: State<V>, events: seq<Event<V>>, r: string)
    requires r in s.gets && s.gets[r].replies != []
    ensures var t := Run(s, events);
            r in t.gets && t.gets[r].node == s.gets[r].node && t.gets[r].key == s.gets[r].key
            && t.gets[r].before == s.gets[r].before
            && t.gets[r].replies != [] && t.gets[r].replies[0] == s.gets[r].replies[0]
    decreases |events|
  {
    if events != [] {
      ReadStays(Step(s, events[0]), events[1..], r);
    }
  }

  /** Quorums that are large enough share a node. */
  lemma QuorumsMeet<V>(stores: Stores<V>, w: Write<V>, g: Read<V>, names: set<string>)
    requires WriteOk(stores, w) && stores.Keys == names && Collected(names, g)
    requires WriteCount(w) + |g.replies| > |names|
    ensures exists i :: 0 <= i < |g.replies| && g.replies[i].node in Counted(w)
  {
    assert |Counted(w)| == 1 + |w.ackers|;
    forall n | n in Counted(w) ensures n in names { assert n in Holders(w) && Has(stores, n, w); }
    Overlap(Counted(w), Repliers(g.replies), names);
    var n :| n in Counted(w) && n in Repliers(g.replies);
    var i :| 0 <= i < |g.replies| && g.replies[i].node == n;
  }

  /** Read repair: closing a read leaves the reader's own replica at least as new as the version
      it chose. */
  lemma CloseGetRepairs<V>(s: State<V>, r: string)
    requires Enabled(s, Event<V>.CloseGet(r)) && Newest(s.gets[r].replies).Some?
    ensures var t, g := Step(s, Event<V>.CloseGet(r)), s.gets[r];
            AtLeast(Lookup(t.stores[g.node], g.key), Newest(g.replies).value.version)
  {
    var g := s.gets[r];
    MergeRises(s.stores, g.node, g.key, Newest(g.replies).value);
  }
}
