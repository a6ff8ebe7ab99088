/** Reconciling two stores by exchanging bucket fingerprints first and then only the entries of
    the buckets that differ. The hash that spreads keys over buckets and the fingerprint of a bucket
    are any functions; an exchange converges exactly when no two different buckets of the stores have
    one fingerprint. */
module AntiEntropy {
  import opened BucketText
  import opened Store

  datatype Msg<V, F> =
    | DigestMsg(hashes: map<nat, F>)
    | Pull(buckets: set<nat>)
    | Push(entries: Data<V>)

  function BucketOf(hash: string -> nat, n: nat, key: string): nat
    requires n > 0
  {
    hash(key) % n
  }

  ghost function Items<V>(d: Data<V>, hash: string -> nat, n: nat, b: nat): set<Item>
    requires n > 0
  {
    set k | k in d && BucketOf(hash, n, k) == b :: Item(k, d[k].version, d[k].deleted)
  }

  /** One fingerprint for each bucket that holds anything. */
  ghost predicate Summarises<V, F>(hs: map<nat, F>, d: Data<V>, hash: string -> nat, n: nat, fp: set<Item> -> F)
    requires n > 0
  {
    && (forall b :: b in hs <==> Items(d, hash, n, b) != {})
    && forall b :: b in hs ==> hs[b] == fp(Items(d, hash, n, b))
  }

  /** Bucket `b` differs, and the fingerprint does not show it. */
  ghost predicate Confused<V, F(!new)>(x: Data<V>, y: Data<V>, hash: string -> nat, n: nat, fp: set<Item> -> F, b: nat)
    requires n > 0
  {
    var i, j := Items(x, hash, n, b), Items(y, hash, n, b);
    i != j && i != {} && j != {} && fp(i) == fp(j)
  }

  /** The fingerprints tell the buckets of the two stores apart. */
  ghost predicate Separates<V, F(!new)>(fp: set<Item> -> F, x: Data<V>, y: Data<V>, hash: string -> nat, n: nat)
    requires n > 0
  {
    forall b :: !Confused(x, y, hash, n, fp, b)
  }

  /** The fingerprint the source uses: a hash of the text of the bucket. */
  ghost function Print<F>(show: real -> string, sha: string -> F): set<Item> -> F {
    (items: set<Item>) => sha(Text(show, items))
  }

  ghost function AllItems<V>(d: Data<V>): set<Item> {
    set k | k in d :: Item(k, d[k].version, d[k].deleted)
  }

  lemma ItemsAmongAll<V>(d: Data<V>, hash: string -> nat, n: nat, b: nat)
    requires n > 0
    ensures Items(d, hash, n, b) <= AllItems(d)
  {
  }

  /** No separator in keys and origins, or none in origins and no version minted twice. */
  ghost predicate Legible(items: set<Item>) {
    AllPlain(items) || Signed(items)
  }

  /** The hash tells the texts of buckets apart that both stores fill. */
  ghost predicate NoCollision<V, F(!new)>(show: real -> string, sha: string -> F, x: Data<V>, y: Data<V>, hash: string -> nat, n: nat)
    requires n > 0
  {
    forall b: nat :: !Collision(show, sha, Items(x, hash, n, b), Items(y, hash, n, b))
  }

  ghost predicate Collision<F>(show: real -> string, sha: string -> F, i: set<Item>, j: set<Item>) {
    i != {} && j != {} && sha(Text(show, i)) == sha(Text(show, j)) && Text(show, i) != Text(show, j)
  }

  lemma LegibleText(show: real -> string, x: set<Item>, y: set<Item>, items: set<Item>)
    requires Spells(show, items) && Legible(items) && x + y <= items && Text(show, x) == Text(show, y)
    ensures x == y
  {
    SpellsPart(show, x + y, items);
    if AllPlain(items) {
      TextInjective(show, x, y);
    } else {
      SignedTextInjective(show, x, y);
    }
  }

  lemma ConfusedIsCollision<V, F(!new)>(show: real -> string, sha: string -> F, x: Data<V>, y: Data<V>, hash: string -> nat, n: nat, b: nat)
    requires n > 0 && Spells(show, AllItems(x) + AllItems(y)) && Legible(AllItems(x) + AllItems(y))
    ensures Confused(x, y, hash, n, Print(show, sha), b) <==> Collision(show, sha, Items(x, hash, n, b), Items(y, hash, n, b))
  {
    var i, j := Items(x, hash, n, b), Items(y, hash, n, b);
    if Text(show, i) == Text(show, j) {
      ItemsAmongAll(x, hash, n, b);
      ItemsAmongAll(y, hash, n, b);
      LegibleText(show, i, j, AllItems(x) + AllItems(y));
    }
  }

  /** For legible stores the fingerprints tell their buckets apart exactly when the hash has no
      collision among their texts. */
  lemma PrintSeparatesIff<V, F(!new)>(show: real -> string, sha: string -> F, x: Data<V>, y: Data<V>, hash: string -> nat, n: nat)
    requires n > 0 && Spells(show, AllItems(x) + AllItems(y)) && Legible(AllItems(x) + AllItems(y))
    ensures Separates(Print(show, sha), x, y, hash, n) <==> NoCollision(show, sha, x, y, hash, n)
  {
    var fp := Print(show, sha);
    if Separates(fp, x, y, hash, n) {
      forall b: nat ensures !Collision(show, sha, Items(x, hash, n, b), Items(y, hash, n, b)) {
        assert !Confused(x, y, hash, n, fp, b);
        ConfusedIsCollision(show, sha, x, y, hash, n, b);
      }
    }
    if NoCollision(show, sha, x, y, hash, n) {
      forall b: nat ensures !Confused(x, y, hash, n, fp, b) {
        assert !Collision(show, sha, Items(x, hash, n, b), Items(y, hash, n, b));
        ConfusedIsCollision(show, sha, x, y, hash, n, b);
      }
    }
  }

  /** The entries of `d` that fall into `buckets`. */
  function Selected<V>(d: Data<V>, hash: string -> nat, n: nat, buckets: set<nat>): Data<V>
    requires n > 0
  {
    map k | k in d && BucketOf(hash, n, k) in buckets :: d[k]
  }

  function Differing<F(==)>(local: map<nat, F>, remote: map<nat, F>): set<nat> {
    set b | b in local.Keys + remote.Keys && (b !in local || b !in remote || local[b] != remote[b])
  }

  /** A bucket is reported exactly when the two stores hold different items in it and the
      fingerprint shows it. */
  lemma DifferingExact<V, F(!new)>(x: Data<V>, y: Data<V>, hx: map<nat, F>, hy: map<nat, F>,
                                       hash: string -> nat, n: nat, fp: set<Item> -> F, b: nat)
    requires n > 0
    requires Summarises(hx, x, hash, n, fp) && Summarises(hy, y, hash, n, fp)
    ensures b in Differing(hx, hy) <==>
            Items(x, hash, n, b) != Items(y, hash, n, b) && !Confused(x, y, hash, n, fp, b)
  {
    assert b in hx <==> Items(x, hash, n, b) != {};
    assert b in hy <==> Items(y, hash, n, b) != {};
  }

  /** There is one summary of a store. */
  lemma SummaryUnique<V, F>(hx: map<nat, F>, hy: map<nat, F>, d: Data<V>, hash: string -> nat, n: nat, fp: set<Item> -> F)
    requires n > 0 && Summarises(hx, d, hash, n, fp) && Summarises(hy, d, hash, n, fp)
    ensures hx == hy
  {
    assert forall b :: b in hx <==> b in hy;
  }

  /** Where the items agree, so do the entries. */
  lemma SameItemsSameEntries<V>(x: Data<V>, y: Data<V>, hash: string -> nat, n: nat, k: string)
    requires n > 0 && Coherent(x, y) && k in x
    requires Items(x, hash, n, BucketOf(hash, n, k)) == Items(y, hash, n, BucketOf(hash, n, k))
    ensures k in y && x[k] == y[k]
  {
    var i := Item(k, x[k].version, x[k].deleted);
    assert i in Items(x, hash, n, BucketOf(hash, n, k));
    assert i in Items(y, hash, n, BucketOf(hash, n, k));
  }

  /** `m` is exactly the set of buckets whose items differ. */
  ghost predicate Mismatch<V>(m: set<nat>, x: Data<V>, y: Data<V>, hash: string -> nat, n: nat)
    requires n > 0
  {
    forall b :: b in m <==> Items(x, hash, n, b) != Items(y, hash, n, b)
  }

  /** Taking over the differing buckets is as good as taking over everything. */
  lemma SelectedSuffices<V>(x: Data<V>, y: Data<V>, hash: string -> nat, n: nat, m: set<nat>)
    requires n > 0 && Coherent(x, y) && Coherent(y, x) && Mismatch(m, x, y, hash, n)
    ensures Join(x, Selected(y, hash, n, m)) == Join(x, y)
  {
    var l, r := Join(x, Selected(y, hash, n, m)), Join(x, y);
    forall k | k in r ensures k in l && l[k] == r[k] { SelectedSufficesAt(x, y, hash, n, m, k); }
    assert l.Keys == r.Keys;
  }

  lemma SelectedSufficesAt<V>(x: Data<V>, y: Data<V>, hash: string -> nat, n: nat, m: set<nat>, k: string)
    requires n > 0 && Coherent(x, y) && Coherent(y, x) && Mismatch(m, x, y, hash, n)
    requires k in Join(x, y)
    ensures k in Join(x, Selected(y, hash, n, m)) && Join(x, Selected(y, hash, n, m))[k] == Join(x, y)[k]
  {
    if k in y && BucketOf(hash, n, k) !in m {
      SameItemsSameEntries(y, x, hash, n, k);
    }
  }

  /** Even after the peer's entries were merged in first. */
  lemma JoinedSuffices<V>(x: Data<V>, y: Data<V>, hash: string -> nat, n: nat, m: set<nat>)
    requires n > 0 && Coherent(x, y) && Coherent(y, x) && Mismatch(m, x, y, hash, n)
    ensures Join(y, Selected(Join(x, y), hash, n, m)) == Join(x, y)
  {
    var j := Join(x, y);
    var l := Join(y, Selected(j, hash, n, m));
    assert Join(y, j) == j by {
      JoinCommutes(x, y);
      JoinAssociates(y, y, x);
      JoinIdempotent(y);
    }
    forall k | k in x && BucketOf(hash, n, k) !in m ensures k in y && x[k] == y[k] {
      SameItemsSameEntries(x, y, hash, n, k);
    }
    forall k | k in j ensures k in l && l[k] == j[k] {
      assert k in Join(y, j) && Join(y, j)[k] == j[k];
    }
    assert l.Keys == j.Keys;
  }

  lemma NoMismatchNoDifference<V>(x: Data<V>, y: Data<V>, hash: string -> nat, n: nat)
    requires n > 0 && Coherent(x, y) && Coherent(y, x) && Mismatch({}, x, y, hash, n)
    ensures x == y
  {
    forall k | k in x ensures k in y && x[k] == y[k] { SameItemsSameEntries(x, y, hash, n, k); }
    forall k | k in y ensures k in x { SameItemsSameEntries(y, x, hash, n, k); }
  }

  // ---- The service object ----------------------------------------------------------------

  method DiffBuckets<F(==)>(local: map<nat, F>, remote: map<nat, F>) returns (mismatched: set<nat>)
    ensures mismatched == Differing(local, remote)
  {
    mismatched := {};
    var todo := local.Keys;
    while todo != {}
      invariant todo <= local.Keys
      invariant mismatched == set b | b in local.Keys - todo && (b !in remote || local[b] != remote[b])
    {
      var b :| b in todo;
      if b !in remote || local[b] != remote[b] {
        mismatched := mismatched + {b};
      }
      todo := todo - {b};
    }
    ghost var shared := mismatched;
    todo := remote.Keys;
    while todo != {}
      invariant todo <= remote.Keys
      invariant mismatched == shared + set b | b in remote.Keys - todo && b !in local
    {
      var b :| b in todo;
      if b !in local {
        mismatched := mismatched + {b};
      }
      todo := todo - {b};
    }
  }

  /** The lines of bucket `b` of `d`, in the order in which its entries were met. `lists` has the
      items they spell. */
  ghost predicate GroupedAt<V>(buckets: map<nat, seq<string>>, lists: map<nat, seq<Item>>, show: real -> string,
                               d: Data<V>, hash: string -> nat, n: nat, b: nat)
    requires n > 0
  {
    && (b in buckets <==> b in lists) && (b in lists <==> Items(d, hash, n, b) != {})
    && (b in lists && b in buckets ==> Lists(lists[b], Items(d, hash, n, b)) && buckets[b] == Lines(show, lists[b]))
  }

  ghost predicate Grouped<V>(buckets: map<nat, seq<string>>, lists: map<nat, seq<Item>>, show: real -> string,
                             d: Data<V>, hash: string -> nat, n: nat)
    requires n > 0
  {
    forall b :: GroupedAt(buckets, lists, show, d, hash, n, b)
  }

  /** `groups` with `x` added to group `b`, which starts empty. */
  function Added<X>(groups: map<nat, seq<X>>, b: nat, x: X): map<nat, seq<X>> {
    groups[b := (if b in groups then groups[b] else []) + [x]]
  }

  lemma LinesNext(show: real -> string, xs: seq<Item>, items: set<Item>, i: Item)
    requires Lists(xs, items) && i !in items
    ensures Lists(xs + [i], items + {i}) && Lines(show, xs + [i]) == Lines(show, xs) + [Line(show, i)]
  {
    LinesConcat(show, xs, [i]);
    LinesOne(show, i);
  }

  lemma GroupedHere<V>(buckets: map<nat, seq<string>>, lists: map<nat, seq<Item>>, show: real -> string,
                       d: Data<V>, done: set<string>, hash: string -> nat, n: nat, key: string)
    requires n > 0 && key in d && key !in done
    requires GroupedAt(buckets, lists, show, Part(d, done), hash, n, BucketOf(hash, n, key))
    ensures var b, item := BucketOf(hash, n, key), Item(key, d[key].version, d[key].deleted);
            GroupedAt(Added(buckets, b, Line(show, item)), Added(lists, b, item), show, Part(d, done + {key}), hash, n, b)
  {
    var b, item := BucketOf(hash, n, key), Item(key, d[key].version, d[key].deleted);
    var items := Items(Part(d, done), hash, n, b);
    var prior := if b in lists then lists[b] else [];
    ItemsNext(d, done, hash, n, key);
    assert Items(Part(d, done + {key}), hash, n, b) == items + {item};
    assert Lines(show, []) == [];
    assert Lists(prior, items) && item !in items;
    LinesNext(show, prior, items, item);
  }

  lemma GroupedNext<V>(buckets: map<nat, seq<string>>, lists: map<nat, seq<Item>>, show: real -> string,
                       d: Data<V>, done: set<string>, hash: string -> nat, n: nat, key: string)
    requires n > 0 && key in d && key !in done && Grouped(buckets, lists, show, Part(d, done), hash, n)
    ensures var b, item := BucketOf(hash, n, key), Item(key, d[key].version, d[key].deleted);
            Grouped(Added(buckets, b, Line(show, item)), Added(lists, b, item), show, Part(d, done + {key}), hash, n)
  {
    var b, item := BucketOf(hash, n, key), Item(key, d[key].version, d[key].deleted);
    ItemsNext(d, done, hash, n, key);
    forall c ensures GroupedAt(Added(buckets, b, Line(show, item)), Added(lists, b, item), show, Part(d, done + {key}), hash, n, c) {
      assert GroupedAt(buckets, lists, show, Part(d, done), hash, n, c);
      if c == b {
        GroupedHere(buckets, lists, show, d, done, hash, n, key);
      } else {
        assert Items(Part(d, done + {key}), hash, n, c) == Items(Part(d, done), hash, n, c);
      }
    }
  }

  lemma OneLessToDo(all: set<string>, todo: set<string>, key: string)
    requires key in todo && todo <= all
    ensures all - (todo - {key}) == (all - todo) + {key}
  {
  }

  class Service<V, F(==)> {
    const store: DistributedStore<V>
    const n: nat
    const hash: string -> nat
    const show: real -> string
    const sha: string -> F
    var entriesSent: nat
    var entriesReceived: nat

    constructor (store: DistributedStore<V>, n: nat, hash: string -> nat, show: real -> string, sha: string -> F)
      requires n > 0
      ensures this.store == store && this.n == n && this.hash == hash && this.show == show && this.sha == sha
      ensures entriesSent == 0 && entriesReceived == 0
    {
      this.store, this.n, this.hash, this.show, this.sha := store, n, hash, show, sha;
      entriesSent, entriesReceived := 0, 0;
    }

    ghost function Fp(): set<Item> -> F {
      Print(show, sha)
    }

    method BucketHashes() returns (out: map<nat, F>)
      requires n > 0
      ensures out == Hashes(store.data, hash, n, Fp())
    {
      var buckets: map<nat, seq<string>> := map[];
      ghost var lists: map<nat, seq<Item>> := map[];
      var todo := store.data.Keys;
      while todo != {}
        invariant todo <= store.data.Keys
        invariant Grouped(buckets, lists, show, Part(store.data, store.data.Keys - todo), hash, n)
      {
        var key :| key in todo;
        var b := BucketOf(hash, n, key);
        var e := store.data[key];
        var item := Item(key, e.version, e.deleted);
        GroupedNext(buckets, lists, show, store.data, store.data.Keys - todo, hash, n, key);
        OneLessToDo(store.data.Keys, todo, key);
        buckets := Added(buckets, b, Line(show, item));
        lists := Added(lists, b, item);
        todo := todo - {key};
      }
      assert store.data.Keys - todo == store.data.Keys;
      out := map b | b in buckets :: sha(TextOf(buckets[b]));
      PrintsAll(buckets, lists, out);
    }

    lemma PrintsAll(buckets: map<nat, seq<string>>, lists: map<nat, seq<Item>>, out: map<nat, F>)
      requires n > 0 && Grouped(buckets, lists, show, Part(store.data, store.data.Keys), hash, n)
      requires out == map b | b in buckets :: sha(TextOf(buckets[b]))
      ensures out == Hashes(store.data, hash, n, Fp())
    {
      JoinWithAll(store.data, store.data);
      forall b ensures b in out <==> Items(store.data, hash, n, b) != {} {
        assert GroupedAt(buckets, lists, show, store.data, hash, n, b);
      }
      forall b | b in out ensures out[b] == Fp()(Items(store.data, hash, n, b)) {
        assert GroupedAt(buckets, lists, show, store.data, hash, n, b);
        TextOfListing(show, Items(store.data, hash, n, b), lists[b]);
      }
      SummaryUnique(out, Hashes(store.data, hash, n, Fp()), store.data, hash, n, Fp());
    }

    /** The fingerprints go to one live peer, drawn at random; with none alive nothing is sent. */
    method Tick(alive: set<string>, pick: set<string> -> string) returns (out: Option<(string, Msg<V, F>)>)
      requires n > 0
      ensures out == if alive == {} then None else Some((pick(alive), DigestMsg(Hashes(store.data, hash, n, Fp()))))
    {
      if alive == {} {
        return None;
      }
      var hs := BucketHashes();
      out := Some((pick(alive), DigestMsg(hs)));
    }

    /** Each handler sends what `Reply` says and leaves what `Taken` says. */
    method OnDigest(remote: map<nat, F>) returns (out: seq<Msg<V, F>>)
      requires n > 0
      modifies this`entriesSent
      ensures out == Reply(store.data, DigestMsg(remote), hash, n, Fp())
      ensures entriesSent == old(entriesSent) + if out == [] then 0 else |out[0].entries|
    {
      var local := BucketHashes();
      var mismatched := DiffBuckets(local, remote);
      if mismatched == {} {
        return [];
      }
      var entries := Selected(store.data, hash, n, mismatched);
      entriesSent := entriesSent + |entries|;
      out := [Push(entries), Pull(mismatched)];
    }

    method OnPull(buckets: set<nat>) returns (out: Msg<V, F>)
      requires n > 0
      modifies this`entriesSent
      ensures [out] == Reply(store.data, Pull(buckets), hash, n, Fp()) && out.Push?
      ensures entriesSent == old(entriesSent) + |out.entries|
    {
      var entries := Selected(store.data, hash, n, buckets);
      entriesSent := entriesSent + |entries|;
      out := Push(entries);
    }

    method OnPush(entries: Data<V>)
      modifies this`entriesReceived, store
      ensures store.data == Taken(old(store.data), Msg<V, F>.Push(entries))
      ensures entriesReceived == old(entriesReceived) + |entries|
    {
      entriesReceived := entriesReceived + |entries|;
      var _ := store.ApplyDigest(entries);
    }
  }

  lemma ItemsNext<V>(d: Data<V>, done: set<string>, hash: string -> nat, n: nat, key: string)
    requires n > 0 && key in d
    ensures forall b :: Items(Part(d, done + {key}), hash, n, b) == Items(Part(d, done), hash, n, b) +
              (if b == BucketOf(hash, n, key) then {Item(key, d[key].version, d[key].deleted)} else {})
  {
    forall b ensures Items(Part(d, done + {key}), hash, n, b) == Items(Part(d, done), hash, n, b) +
              (if b == BucketOf(hash, n, key) then {Item(key, d[key].version, d[key].deleted)} else {})
    {
      var p, q := Part(d, done), Part(d, done + {key});
      var l, r := Items(q, hash, n, b), Items(p, hash, n, b) +
              (if b == BucketOf(hash, n, key) then {Item(key, d[key].version, d[key].deleted)} else {});
      forall i | i in l ensures i in r {
        assert i.key != key ==> i.key in p;
      }
      forall i | i in r ensures i in l {
        assert i.key in q;
      }
    }
  }

  /** What a node sends back on a fingerprint digest. */
  function Answers<V, F>(d: Data<V>, hash: string -> nat, n: nat, mismatched: set<nat>): seq<Msg<V, F>>
    requires n > 0
  {
    if mismatched == {} then [] else [Push(Selected(d, hash, n, mismatched)), Pull(mismatched)]
  }

  // ---- One exchange, in every order of delivery -------------------------------------------

  /** Node A has sent its digest to node B; nothing else happens to the two stores meanwhile. */
  datatype Exchange<V, F> = Exchange(a: Data<V>, b: Data<V>, toA: seq<Msg<V, F>>, toB: seq<Msg<V, F>>)

  datatype Delivery = AtA(index: nat) | AtB(index: nat)

  function Without<X>(s: seq<X>, i: nat): seq<X>
    requires i < |s|
  {
    s[..i] + s[i + 1..]
  }

  ghost function Hashes<V, F>(d: Data<V>, hash: string -> nat, n: nat, fp: set<Item> -> F): (hs: map<nat, F>)
    requires n > 0
    ensures Summarises(hs, d, hash, n, fp)
  {
    var bs := set k | k in d :: BucketOf(hash, n, k);
    forall b ensures b in bs <==> Items(d, hash, n, b) != {} {
      if b in bs {
        var k :| k in d && BucketOf(hash, n, k) == b;
        assert Item(k, d[k].version, d[k].deleted) in Items(d, hash, n, b);
      }
    }
    map b | b in bs :: fp(Items(d, hash, n, b))
  }

  ghost function Start<V, F>(a: Data<V>, b: Data<V>, hash: string -> nat, n: nat, fp: set<Item> -> F): Exchange<V, F>
    requires n > 0
  {
    Exchange(a, b, [], [DigestMsg(Hashes(a, hash, n, fp))])
  }

  /** What a node holding `d` sends back on `msg`. */
  ghost function Reply<V, F>(d: Data<V>, msg: Msg<V, F>, hash: string -> nat, n: nat, fp: set<Item> -> F): seq<Msg<V, F>>
    requires n > 0
  {
    match msg
    case DigestMsg(hs) => Answers(d, hash, n, Differing(Hashes(d, hash, n, fp), hs))
    case Pull(m) => [Push(Selected(d, hash, n, m))]
    case Push(_) => []
  }

  /** What a node holding `d` holds after `msg`. */
  ghost function Taken<V, F>(d: Data<V>, msg: Msg<V, F>): Data<V> {
    if msg.Push? then Join(d, msg.entries) else d
  }

  ghost function Deliver<V, F>(x: Exchange<V, F>, e: Delivery, hash: string -> nat, n: nat, fp: set<Item> -> F): Exchange<V, F>
    requires n > 0
  {
    match e
    case AtA(i) =>
      if i >= |x.toA| then x
      else Exchange(Taken(x.a, x.toA[i]), x.b, Without(x.toA, i), x.toB + Reply(x.a, x.toA[i], hash, n, fp))
    case AtB(i) =>
      if i >= |x.toB| then x
      else Exchange(x.a, Taken(x.b, x.toB[i]), x.toA + Reply(x.b, x.toB[i], hash, n, fp), Without(x.toB, i))
  }

  ghost function Deliveries<V, F>(x: Exchange<V, F>, es: seq<Delivery>, hash: string -> nat, n: nat, fp: set<Item> -> F): Exchange<V, F>
    requires n > 0
    decreases |es|
  {
    if es == [] then x else Deliveries(Deliver(x, es[0], hash, n, fp), es[1..], hash, n, fp)
  }

  /** The places an exchange between stores `a` and `b` with mismatch `m` can be in, once the
      digest has been answered. */
  ghost predicate Underway<V, F>(x: Exchange<V, F>, a: Data<V>, b: Data<V>, m: set<nat>, hash: string -> nat, n: nat)
    requires n > 0
  {
    var push, pull := Push(Selected(b, hash, n, m)), Pull(m);
    && (x.toA == [push, pull] || x.toA == [push] ==> x.a == a)
    && (x.toA == [pull] || x.toA == [] ==> x.a == Join(a, b))
    && (x.toA == [push, pull] || x.toA == [pull] ==> x.b == b && x.toB == [])
    && (x.toA == [push] || x.toA == [] ==>
          || (x.toB == [] && x.b == Join(a, b))
          || (x.b == b && (x.toB == [Push(Selected(a, hash, n, m))] || x.toB == [Push(Selected(Join(a, b), hash, n, m))])))
    && (x.toA == [push, pull] || x.toA == [push] || x.toA == [pull] || x.toA == [])
  }

  ghost predicate Reachable<V, F>(x: Exchange<V, F>, a: Data<V>, b: Data<V>, m: set<nat>, hash: string -> nat, n: nat, fp: set<Item> -> F)
    requires n > 0
  {
    x == Start(a, b, hash, n, fp) || (m == {} && x == Exchange(a, b, [], [])) || (m != {} && Underway(x, a, b, m, hash, n))
  }

  /** Both answers are on their way: the pushed entries or the request comes first. */
  lemma DeliverFirstOfTwo<V, F>(x: Exchange<V, F>, i: nat, a: Data<V>, b: Data<V>, m: set<nat>, hash: string -> nat, n: nat, fp: set<Item> -> F)
    requires n > 0 && Join(a, Selected(b, hash, n, m)) == Join(a, b) && Underway(x, a, b, m, hash, n)
    requires i < |x.toA| && x.toA == [Push(Selected(b, hash, n, m)), Pull(m)]
    ensures Underway(Deliver(x, AtA(i), hash, n, fp), a, b, m, hash, n)
  {
    assert Without(x.toA, 0) == [Pull(m)] && Without(x.toA, 1) == [Push(Selected(b, hash, n, m))];
    if i == 0 {
      assert Deliver(x, AtA(i), hash, n, fp) == Exchange(Join(a, b), b, [Pull(m)], []);
    } else {
      assert Deliver(x, AtA(i), hash, n, fp) == Exchange(a, b, [Push(Selected(b, hash, n, m))], [Push(Selected(a, hash, n, m))]);
    }
  }

  lemma DeliverToA<V, F>(x: Exchange<V, F>, i: nat, a: Data<V>, b: Data<V>, m: set<nat>, hash: string -> nat, n: nat, fp: set<Item> -> F)
    requires n > 0 && Coherent(a, b) && Coherent(b, a) && Mismatch(m, a, b, hash, n)
    requires i < |x.toA| && Underway(x, a, b, m, hash, n)
    ensures Underway(Deliver(x, AtA(i), hash, n, fp), a, b, m, hash, n)
  {
    SelectedSuffices(a, b, hash, n, m);
    if |x.toA| == 2 {
      DeliverFirstOfTwo(x, i, a, b, m, hash, n, fp);
    } else {
      assert Without(x.toA, 0) == [];
    }
  }

  lemma DeliverToB<V, F>(x: Exchange<V, F>, i: nat, a: Data<V>, b: Data<V>, m: set<nat>, hash: string -> nat, n: nat, fp: set<Item> -> F)
    requires n > 0 && Coherent(a, b) && Coherent(b, a) && Mismatch(m, a, b, hash, n)
    requires i < |x.toB| && Underway(x, a, b, m, hash, n)
    ensures Underway(Deliver(x, AtB(i), hash, n, fp), a, b, m, hash, n)
  {
    assert Join(b, x.toB[0].entries) == Join(a, b) by {
      JoinedSuffices(a, b, hash, n, m);
      JoinCommutes(a, b);
      MismatchSymmetric(a, b, hash, n, m);
      SelectedSuffices(b, a, hash, n, m);
    }
    assert Without(x.toB, 0) == [];
    assert Deliver(x, AtB(i), hash, n, fp) == x.(b := Join(a, b), toB := []);
  }

  lemma MismatchSymmetric<V>(a: Data<V>, b: Data<V>, hash: string -> nat, n: nat, m: set<nat>)
    requires n > 0 && Mismatch(m, a, b, hash, n)
    ensures Mismatch(m, b, a, hash, n)
  {
  }

  lemma FingerprintsFindMismatch<V, F(!new)>(a: Data<V>, b: Data<V>, m: set<nat>, hash: string -> nat, n: nat, fp: set<Item> -> F)
    requires n > 0 && Separates(fp, b, a, hash, n) && m == Differing(Hashes(b, hash, n, fp), Hashes(a, hash, n, fp))
    ensures Mismatch(m, a, b, hash, n)
  {
    forall c ensures c in m <==> Items(a, hash, n, c) != Items(b, hash, n, c) {
      DifferingExact(b, a, Hashes(b, hash, n, fp), Hashes(a, hash, n, fp), hash, n, fp, c);
    }
  }

  lemma DeliverFirst<V, F>(e: Delivery, a: Data<V>, b: Data<V>, m: set<nat>, hash: string -> nat, n: nat, fp: set<Item> -> F)
    requires n > 0 && m == Differing(Hashes(b, hash, n, fp), Hashes(a, hash, n, fp))
    ensures Reachable(Deliver(Start(a, b, hash, n, fp), e, hash, n, fp), a, b, m, hash, n, fp)
  {
    var x := Start(a, b, hash, n, fp);
    if e.AtB? && e.index == 0 {
      assert Without(x.toB, 0) == [];
      assert Deliver(x, e, hash, n, fp) == Exchange(a, b, Answers(b, hash, n, m), []);
    } else {
      assert Deliver(x, e, hash, n, fp) == x;
    }
  }

  lemma DeliverReachable<V, F(!new)>(x: Exchange<V, F>, e: Delivery, a: Data<V>, b: Data<V>, m: set<nat>, hash: string -> nat, n: nat, fp: set<Item> -> F)
    requires n > 0 && Coherent(a, b) && Coherent(b, a) && Separates(fp, b, a, hash, n)
    requires m == Differing(Hashes(b, hash, n, fp), Hashes(a, hash, n, fp))
    requires Reachable(x, a, b, m, hash, n, fp)
    ensures Reachable(Deliver(x, e, hash, n, fp), a, b, m, hash, n, fp)
  {
    if x == Start(a, b, hash, n, fp) {
      DeliverFirst(e, a, b, m, hash, n, fp);
    } else if m == {} {
      assert Deliver(x, e, hash, n, fp) == x;
    } else {
      FingerprintsFindMismatch(a, b, m, hash, n, fp);
      var y := Deliver(x, e, hash, n, fp);
      assert Underway(y, a, b, m, hash, n) by {
        match e
        case AtA(i) => if i < |x.toA| { DeliverToA(x, i, a, b, m, hash, n, fp); }
        case AtB(i) => if i < |x.toB| { DeliverToB(x, i, a, b, m, hash, n, fp); }
      }
    }
  }

  lemma {:induction false} DeliveriesReachable<V, F(!new)>(x: Exchange<V, F>, es: seq<Delivery>, a: Data<V>, b: Data<V>, m: set<nat>, hash: string -> nat, n: nat, fp: set<Item> -> F)
    requires n > 0 && Coherent(a, b) && Coherent(b, a) && Separates(fp, b, a, hash, n)
    requires m == Differing(Hashes(b, hash, n, fp), Hashes(a, hash, n, fp))
    requires Reachable(x, a, b, m, hash, n, fp)
    ensures Reachable(Deliveries(x, es, hash, n, fp), a, b, m, hash, n, fp)
    decreases |es|
  {
    if es != [] {
      DeliverReachable(x, es[0], a, b, m, hash, n, fp);
      DeliveriesReachable(Deliver(x, es[0], hash, n, fp), es[1..], a, b, m, hash, n, fp);
    }
  }

  /** Whatever order the messages arrive in, once none is left both stores hold the join of the
      two originals: the same as exchanging everything. */
  lemma ExchangeRefinesFullMerge<V, F(!new)>(a: Data<V>, b: Data<V>, es: seq<Delivery>, hash: string -> nat, n: nat, fp: set<Item> -> F)
    requires n > 0 && Coherent(a, b) && Coherent(b, a) && Separates(fp, b, a, hash, n)
    ensures var x := Deliveries(Start(a, b, hash, n, fp), es, hash, n, fp);
            x.toA == [] && x.toB == [] ==> x.a == Join(a, b) && x.b == Join(a, b)
  {
    var m := Differing(Hashes(b, hash, n, fp), Hashes(a, hash, n, fp));
    DeliveriesReachable(Start(a, b, hash, n, fp), es, a, b, m, hash, n, fp);
    if m == {} {
      FingerprintsFindMismatch(a, b, m, hash, n, fp);
      NoMismatchNoDifference(a, b, hash, n);
      JoinIdempotent(a);
    }
  }

  ghost function Weight<V, F>(m: Msg<V, F>): nat {
    if m.DigestMsg? then 4 else if m.Pull? then 2 else 1
  }

  ghost function TotalWeight<V, F>(s: seq<Msg<V, F>>): nat {
    if s == [] then 0 else Weight(s[0]) + TotalWeight(s[1..])
  }

  lemma {:induction false} WeightWithout<V, F>(s: seq<Msg<V, F>>, i: nat)
    requires i < |s|
    ensures TotalWeight(Without(s, i)) == TotalWeight(s) - Weight(s[i])
  {
    if i > 0 {
      WeightWithout(s[1..], i - 1);
      assert Without(s, i) == [s[0]] + Without(s[1..], i - 1);
    } else {
      assert Without(s, 0) == s[1..];
    }
  }

  lemma {:induction false} WeightConcat<V, F>(s: seq<Msg<V, F>>, t: seq<Msg<V, F>>)
    ensures TotalWeight(s + t) == TotalWeight(s) + TotalWeight(t)
  {
    if s == [] {
      assert s + t == t;
    } else {
      assert (s + t)[0] == s[0] && (s + t)[1..] == s[1..] + t;
      WeightConcat(s[1..], t);
    }
  }

  lemma ReplyLighter<V, F>(d: Data<V>, msg: Msg<V, F>, hash: string -> nat, n: nat, fp: set<Item> -> F)
    requires n > 0
    ensures TotalWeight(Reply(d, msg, hash, n, fp)) < Weight(msg)
  {
    var r := Reply(d, msg, hash, n, fp);
    if r != [] {
      assert TotalWeight(r) == Weight(r[0]) + TotalWeight(r[1..]);
      if |r| > 1 { assert r[1..][0] == r[1] && TotalWeight(r[1..]) == Weight(r[1]) + TotalWeight(r[1..][1..]); }
    }
  }

  /** Every delivery uses up weight, so an exchange is over after at most four of them. */
  lemma ExchangeEnds<V, F>(x: Exchange<V, F>, e: Delivery, hash: string -> nat, n: nat, fp: set<Item> -> F)
    requires n > 0
    requires if e.AtA? then e.index < |x.toA| else e.index < |x.toB|
    ensures var y := Deliver(x, e, hash, n, fp);
            TotalWeight(y.toA) + TotalWeight(y.toB) < TotalWeight(x.toA) + TotalWeight(x.toB)
  {
    if e.AtA? {
      ReplyLighter(x.a, x.toA[e.index], hash, n, fp);
      WeightWithout(x.toA, e.index);
      WeightConcat(x.toB, Reply(x.a, x.toA[e.index], hash, n, fp));
    } else {
      ReplyLighter(x.b, x.toB[e.index], hash, n, fp);
      WeightWithout(x.toB, e.index);
      WeightConcat(x.toA, Reply(x.b, x.toB[e.index], hash, n, fp));
    }
  }

  // ---- Exactly when an exchange converges ------------------------------------------------

  ghost predicate Drained<V, F>(x: Exchange<V, F>) {
    x.toA == [] && x.toB == []
  }

  /** An exchange can always be brought to its end. */
  lemma {:induction false} Drains<V, F>(x: Exchange<V, F>, hash: string -> nat, n: nat, fp: set<Item> -> F) returns (es: seq<Delivery>)
    requires n > 0
    ensures Drained(Deliveries(x, es, hash, n, fp))
    decreases TotalWeight(x.toA) + TotalWeight(x.toB)
  {
    es := [];
    if !Drained(x) {
      var e := if x.toA != [] then AtA(0) else AtB(0);
      ExchangeEnds(x, e, hash, n, fp);
      var rest := Drains(Deliver(x, e, hash, n, fp), hash, n, fp);
      es := [e] + rest;
      assert es[1..] == rest;
    }
  }

  /** A message that neither carries nor asks for anything in bucket `c`, nor shows that it differs
      from what a node there holds. */
  ghost predicate Avoids<V, F>(msg: Msg<V, F>, a: Data<V>, c: nat, hash: string -> nat, n: nat, fp: set<Item> -> F)
    requires n > 0
  {
    match msg
    case DigestMsg(hs) => c in hs && hs[c] == fp(Items(a, hash, n, c))
    case Pull(m) => c !in m
    case Push(d) => forall k :: k in d ==> BucketOf(hash, n, k) != c
  }

  ghost predicate AllAvoid<V, F>(msgs: seq<Msg<V, F>>, a: Data<V>, c: nat, hash: string -> nat, n: nat, fp: set<Item> -> F)
    requires n > 0
  {
    forall i :: 0 <= i < |msgs| ==> Avoids(msgs[i], a, c, hash, n, fp)
  }

  /** The exchange has left bucket `c` as it was on both sides. */
  ghost predicate Stuck<V, F>(x: Exchange<V, F>, a: Data<V>, b: Data<V>, c: nat, hash: string -> nat, n: nat, fp: set<Item> -> F)
    requires n > 0
  {
    && Items(x.a, hash, n, c) == Items(a, hash, n, c) && Items(x.b, hash, n, c) == Items(b, hash, n, c)
    && AllAvoid(x.toA, a, c, hash, n, fp) && AllAvoid(x.toB, a, c, hash, n, fp)
  }

  lemma TakenAvoids<V, F>(d: Data<V>, msg: Msg<V, F>, a: Data<V>, c: nat, hash: string -> nat, n: nat, fp: set<Item> -> F)
    requires n > 0 && Avoids(msg, a, c, hash, n, fp)
    ensures Items(Taken(d, msg), hash, n, c) == Items(d, hash, n, c)
  {
    forall i ensures i in Items(Taken(d, msg), hash, n, c) <==> i in Items(d, hash, n, c) {
      if BucketOf(hash, n, i.key) == c {
        assert i.key in Taken(d, msg) <==> i.key in d;
      }
    }
  }

  lemma ReplyAvoids<V, F>(d: Data<V>, msg: Msg<V, F>, a: Data<V>, c: nat, hash: string -> nat, n: nat, fp: set<Item> -> F)
    requires n > 0 && Avoids(msg, a, c, hash, n, fp)
    requires Items(d, hash, n, c) != {} && fp(Items(d, hash, n, c)) == fp(Items(a, hash, n, c))
    ensures AllAvoid(Reply(d, msg, hash, n, fp), a, c, hash, n, fp)
  {
    if msg.DigestMsg? {
      assert c in Hashes(d, hash, n, fp);
    }
  }

  lemma AvoidConcat<V, F>(s: seq<Msg<V, F>>, i: nat, t: seq<Msg<V, F>>, u: seq<Msg<V, F>>, a: Data<V>, c: nat,
                          hash: string -> nat, n: nat, fp: set<Item> -> F)
    requires n > 0 && i < |s| && AllAvoid(s, a, c, hash, n, fp) && AllAvoid(t, a, c, hash, n, fp) && AllAvoid(u, a, c, hash, n, fp)
    ensures AllAvoid(Without(s, i), a, c, hash, n, fp) && AllAvoid(t + u, a, c, hash, n, fp)
  {
  }

  lemma DeliverStuck<V, F(!new)>(x: Exchange<V, F>, e: Delivery, a: Data<V>, b: Data<V>, c: nat, hash: string -> nat, n: nat, fp: set<Item> -> F)
    requires n > 0 && Confused(b, a, hash, n, fp, c) && Stuck(x, a, b, c, hash, n, fp)
    ensures Stuck(Deliver(x, e, hash, n, fp), a, b, c, hash, n, fp)
  {
    if e.AtA? && e.index < |x.toA| {
      TakenAvoids(x.a, x.toA[e.index], a, c, hash, n, fp);
      ReplyAvoids(x.a, x.toA[e.index], a, c, hash, n, fp);
      AvoidConcat(x.toA, e.index, x.toB, Reply(x.a, x.toA[e.index], hash, n, fp), a, c, hash, n, fp);
    }
    if e.AtB? && e.index < |x.toB| {
      TakenAvoids(x.b, x.toB[e.index], a, c, hash, n, fp);
      ReplyAvoids(x.b, x.toB[e.index], a, c, hash, n, fp);
      AvoidConcat(x.toB, e.index, x.toA, Reply(x.b, x.toB[e.index], hash, n, fp), a, c, hash, n, fp);
    }
  }

  lemma {:induction false} DeliveriesStuck<V, F(!new)>(x: Exchange<V, F>, es: seq<Delivery>, a: Data<V>, b: Data<V>, c: nat,
                                                       hash: string -> nat, n: nat, fp: set<Item> -> F)
    requires n > 0 && Confused(b, a, hash, n, fp, c) && Stuck(x, a, b, c, hash, n, fp)
    ensures Stuck(Deliveries(x, es, hash, n, fp), a, b, c, hash, n, fp)
    decreases |es|
  {
    if es != [] {
      DeliverStuck(x, es[0], a, b, c, hash, n, fp);
      DeliveriesStuck(Deliver(x, es[0], hash, n, fp), es[1..], a, b, c, hash, n, fp);
    }
  }

  /** A bucket that differs without showing it is never reconciled. */
  lemma ConfusedStaysApart<V, F(!new)>(a: Data<V>, b: Data<V>, c: nat, es: seq<Delivery>, hash: string -> nat, n: nat, fp: set<Item> -> F)
    requires n > 0 && Confused(b, a, hash, n, fp, c)
    ensures var x := Deliveries(Start(a, b, hash, n, fp), es, hash, n, fp); x.a != x.b
  {
    assert Stuck(Start(a, b, hash, n, fp), a, b, c, hash, n, fp);
    DeliveriesStuck(Start(a, b, hash, n, fp), es, a, b, c, hash, n, fp);
  }

  /** Every order of delivery leads both stores to the join, if and only if the fingerprints tell the
      buckets of the two stores apart. */
  lemma ExchangeConvergesIff<V, F(!new)>(a: Data<V>, b: Data<V>, hash: string -> nat, n: nat, fp: set<Item> -> F)
    requires n > 0 && Coherent(a, b) && Coherent(b, a)
    ensures Separates(fp, b, a, hash, n) <==>
            forall es: seq<Delivery> :: var x := Deliveries(Start(a, b, hash, n, fp), es, hash, n, fp);
              Drained(x) ==> x.a == Join(a, b) && x.b == Join(a, b)
  {
    if Separates(fp, b, a, hash, n) {
      forall es: seq<Delivery>
        ensures var x := Deliveries(Start(a, b, hash, n, fp), es, hash, n, fp);
                Drained(x) ==> x.a == Join(a, b) && x.b == Join(a, b)
      {
        ExchangeRefinesFullMerge(a, b, es, hash, n, fp);
      }
    } else {
      var c :| Confused(b, a, hash, n, fp, c);
      var es := Drains(Start(a, b, hash, n, fp), hash, n, fp);
      ConfusedStaysApart(a, b, c, es, hash, n, fp);
    }
  }

  /** For stores whose text can be read, every order of delivery leads both to the join if and only
      if the hash has no collision among the texts of their buckets. */
  lemma LegibleExchangeConvergesIff<V, F(!new)>(a: Data<V>, b: Data<V>, hash: string -> nat, n: nat, show: real -> string, sha: string -> F)
    requires n > 0 && Coherent(a, b) && Coherent(b, a)
    requires Spells(show, AllItems(b) + AllItems(a)) && Legible(AllItems(b) + AllItems(a))
    ensures NoCollision(show, sha, b, a, hash, n) <==>
            forall es: seq<Delivery> :: var x := Deliveries(Start(a, b, hash, n, Print(show, sha)), es, hash, n, Print(show, sha));
              Drained(x) ==> x.a == Join(a, b) && x.b == Join(a, b)
  {
    PrintSeparatesIff(show, sha, b, a, hash, n);
    ExchangeConvergesIff(a, b, hash, n, Print(show, sha));
  }
}
