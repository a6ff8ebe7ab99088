/** The replicated last-writer-wins map: entries tagged with `(timestamp, origin)` versions, and
    merges that keep the newer entry of each key. */
module Store {
  import opened Order

  datatype Option<+T> = None | Some(value: T)

  /** Times are real numbers: the rounding of Python's floats is not modelled. */
  datatype Version = Version(ts: real, origin: string)

  /** `value` is None for a tombstone, and for an explicit write of None. */
  datatype Entry<V> = Entry(value: Option<V>, version: Version, deleted: bool)

  type Data<V> = map<string, Entry<V>>

  predicate Newer(a: Version, b: Version) {
    a.ts > b.ts || (a.ts == b.ts && Less(b.origin, a.origin))
  }

  lemma VersionOrder()
    ensures forall a :: !Newer(a, a)
    ensures forall a, b, c :: Newer(a, b) && Newer(b, c) ==> Newer(a, c)
    ensures forall a, b :: a == b || Newer(a, b) || Newer(b, a)
  {
    StringOrder();
  }

  /** A later stamp wins; of two equal stamps the one of the greater origin does, whichever way
      the two entries meet. */
  lemma TieGoesToGreaterOrigin<V>(k: string, x: Entry<V>, y: Entry<V>)
    requires x.version.ts > y.version.ts || (x.version.ts == y.version.ts && Less(y.version.origin, x.version.origin))
    ensures MergeEntry(map[k := x], k, y) == map[k := x] && MergeEntry(map[k := y], k, x) == map[k := x]
  {
    StringOrder();
  }

  /** A tick past the highest stamp so far when the clock has not moved on. */
  function NextTs(highest: real, now: real): real {
    if now <= highest then highest + 0.000001 else now
  }

  predicate Contains<V>(d: Data<V>, k: string) {
    k in d && !d[k].deleted
  }

  /** Whether `merge_entry` takes `e` over what it holds at `k`. */
  predicate Wins<V>(d: Data<V>, k: string, e: Entry<V>) {
    k !in d || Newer(e.version, d[k].version)
  }

  function MergeEntry<V>(d: Data<V>, k: string, e: Entry<V>): Data<V> {
    if Wins(d, k, e) then d[k := e] else d
  }

  /** Key by key, the newer of two stores. */
  ghost function Join<V>(a: Data<V>, b: Data<V>): Data<V> {
    map k | k in a.Keys + b.Keys :: if k in b && Wins(a, k, b[k]) then b[k] else a[k]
  }

  /** Equal versions stand for equal entries. */
  ghost predicate Coherent<V>(a: Data<V>, b: Data<V>) {
    forall k :: k in a && k in b && a[k].version == b[k].version ==> a[k] == b[k]
  }

  lemma JoinCommutes<V>(a: Data<V>, b: Data<V>)
    requires Coherent(a, b)
    ensures Join(a, b) == Join(b, a)
  {
    VersionOrder();
  }

  lemma JoinAssociates<V>(a: Data<V>, b: Data<V>, c: Data<V>)
    ensures Join(Join(a, b), c) == Join(a, Join(b, c))
  {
    VersionOrder();
    var l, r := Join(Join(a, b), c), Join(a, Join(b, c));
    assert l.Keys == r.Keys;
    forall k | k in l ensures l[k] == r[k] {}
  }

  lemma JoinIdempotent<V>(a: Data<V>)
    ensures Join(a, a) == a
  {
    VersionOrder();
  }

  /** Joining in one entry is what `merge_entry` does. */
  lemma MergeEntryIsJoin<V>(d: Data<V>, k: string, e: Entry<V>)
    ensures MergeEntry(d, k, e) == Join(d, map[k := e])
  {
  }

  // ---- Merging many ---------------------------------------------------------------------

  /** The stores in `xs` folded into `d`, left to right. */
  ghost function JoinAll<V>(d: Data<V>, xs: seq<Data<V>>): Data<V>
    decreases |xs|
  {
    if xs == [] then d else JoinAll(Join(d, xs[0]), xs[1..])
  }

  /** `d` holds nothing older than `x`. */
  ghost predicate Covers<V>(d: Data<V>, x: Data<V>) {
    forall k :: k in x ==> k in d && !Newer(x[k].version, d[k].version)
  }

  ghost predicate Mentions<V>(x: Data<V>, k: string, e: Entry<V>) {
    k in x && x[k] == e
  }

  ghost predicate FromOneOf<V>(k: string, e: Entry<V>, xs: seq<Data<V>>) {
    exists i :: 0 <= i < |xs| && Mentions(xs[i], k, e)
  }

  /** Key by key the newest entry in any of `xs`, whatever their order or repetitions. */
  ghost predicate IsJoin<V>(r: Data<V>, xs: seq<Data<V>>) {
    && (forall i {:trigger Covers(r, xs[i])} :: 0 <= i < |xs| ==> Covers(r, xs[i]))
    && forall k {:trigger FromOneOf(k, r[k], xs)} :: k in r ==> FromOneOf(k, r[k], xs)
  }

  lemma JoinCovers<V>(d: Data<V>, x: Data<V>, r: Data<V>)
    requires Covers(r, Join(d, x))
    ensures Covers(r, d) && Covers(r, x)
  {
    VersionOrder();
    forall k | k in d ensures k in r && !Newer(d[k].version, r[k].version) {
      assert k in Join(d, x);
    }
    forall k | k in x ensures k in r && !Newer(x[k].version, r[k].version) {
      assert k in Join(d, x);
    }
  }

  lemma JoinMentions<V>(d: Data<V>, x: Data<V>, k: string, e: Entry<V>)
    requires Mentions(Join(d, x), k, e)
    ensures Mentions(d, k, e) || Mentions(x, k, e)
  {
  }

  /** A join of what `d` and `xs[0]` join to with the rest of `xs` is a join of them all. */
  lemma JoinRegroups<V>(r: Data<V>, d: Data<V>, xs: seq<Data<V>>)
    requires xs != [] && IsJoin(r, [Join(d, xs[0])] + xs[1..])
    ensures IsJoin(r, [d] + xs)
  {
    var all, rest := [d] + xs, [Join(d, xs[0])] + xs[1..];
    assert all[0] == d && all[1] == xs[0] && rest[0] == Join(d, xs[0]);
    assert forall i :: 2 <= i < |all| ==> all[i] == rest[i - 1];
    assert Covers(r, rest[0]);
    JoinCovers(d, xs[0], r);
    forall i | 0 <= i < |all| ensures Covers(r, all[i]) {
      assert i > 1 ==> Covers(r, rest[i - 1]);
    }
    forall k | k in r ensures FromOneOf(k, r[k], all) {
      assert FromOneOf(k, r[k], rest);
      var i :| 0 <= i < |rest| && Mentions(rest[i], k, r[k]);
      if i > 0 {
        assert Mentions(all[i + 1], k, r[k]);
      } else {
        JoinMentions(d, xs[0], k, r[k]);
        assert Mentions(all[0], k, r[k]) || Mentions(all[1], k, r[k]);
      }
    }
  }

  lemma CoversItself<V>(d: Data<V>)
    ensures Covers(d, d)
  {
    VersionOrder();
  }

  lemma {:induction false} JoinAllIsJoin<V>(d: Data<V>, xs: seq<Data<V>>)
    ensures IsJoin(JoinAll(d, xs), [d] + xs)
    decreases |xs|
  {
    if xs == [] {
      CoversItself(d);
      forall k | k in d ensures FromOneOf(k, d[k], [d] + xs) { assert Mentions(([d] + xs)[0], k, d[k]); }
    } else {
      JoinAllIsJoin(Join(d, xs[0]), xs[1..]);
      JoinRegroups(JoinAll(d, xs), d, xs);
    }
  }

  ghost predicate AllCoherent<V>(xs: seq<Data<V>>) {
    forall i, j {:trigger Coherent(xs[i], xs[j])} :: 0 <= i < |xs| && 0 <= j < |xs| ==> Coherent(xs[i], xs[j])
  }

  /** Every member of `xs` is one of `ys`. */
  ghost predicate Among<V>(xs: seq<Data<V>>, ys: seq<Data<V>>) {
    forall i :: 0 <= i < |xs| ==> xs[i] in ys
  }

  lemma SourceCovered<V>(xs: seq<Data<V>>, ys: seq<Data<V>>, r: Data<V>, t: Data<V>, k: string)
    returns (i: nat)
    requires Among(xs, ys)
    requires IsJoin(r, xs) && IsJoin(t, ys) && k in r
    ensures k in t && !Newer(r[k].version, t[k].version)
    ensures i < |ys| && Mentions(ys[i], k, r[k])
  {
    assert FromOneOf(k, r[k], xs);
    var j :| 0 <= j < |xs| && Mentions(xs[j], k, r[k]);
    assert xs[j] in ys;
    i :| 0 <= i < |ys| && ys[i] == xs[j];
    assert Covers(t, ys[i]);
  }

  lemma JoinsAgreeAt<V>(xs: seq<Data<V>>, ys: seq<Data<V>>, r: Data<V>, t: Data<V>, k: string)
    requires Among(xs, ys) && Among(ys, xs)
    requires AllCoherent(ys) && IsJoin(r, xs) && IsJoin(t, ys) && k in r
    ensures k in t && r[k] == t[k]
  {
    var i := SourceCovered(xs, ys, r, t, k);
    var j := OwnSource(ys, t, k);
    var _ := SourceCovered(ys, xs, t, r, k);
    NeitherNewer(r[k].version, t[k].version);
    assert Coherent(ys[i], ys[j]);
  }

  lemma OwnSource<V>(ys: seq<Data<V>>, t: Data<V>, k: string) returns (j: nat)
    requires IsJoin(t, ys) && k in t
    ensures j < |ys| && Mentions(ys[j], k, t[k])
  {
    assert FromOneOf(k, t[k], ys);
    j :| 0 <= j < |ys| && Mentions(ys[j], k, t[k]);
  }

  lemma NeitherNewer(a: Version, b: Version)
    requires !Newer(a, b) && !Newer(b, a)
    ensures a == b
  {
    VersionOrder();
  }

  lemma KeysWithin<V>(xs: seq<Data<V>>, ys: seq<Data<V>>, r: Data<V>, t: Data<V>)
    requires Among(xs, ys) && IsJoin(r, xs) && IsJoin(t, ys)
    ensures forall k :: k in r ==> k in t
  {
    forall k | k in r ensures k in t { var _ := SourceCovered(xs, ys, r, t, k); }
  }

  /** The join of a family depends only on which stores are in it. */
  lemma JoinUnique<V>(xs: seq<Data<V>>, ys: seq<Data<V>>, r: Data<V>, t: Data<V>)
    requires Among(xs, ys) && Among(ys, xs)
    requires AllCoherent(ys) && IsJoin(r, xs) && IsJoin(t, ys)
    ensures r == t
  {
    KeysWithin(xs, ys, r, t);
    KeysWithin(ys, xs, t, r);
    forall k | k in r ensures r[k] == t[k] { JoinsAgreeAt(xs, ys, r, t, k); }
  }

  lemma AmongAfter<V>(d: Data<V>, xs: seq<Data<V>>, ys: seq<Data<V>>)
    requires forall x :: x in xs ==> x in ys
    ensures Among([d] + xs, [d] + ys)
  {
    forall i | 0 <= i < |[d] + xs| ensures ([d] + xs)[i] in [d] + ys {
      assert i > 0 ==> xs[i - 1] in ys;
    }
  }

  /** Replicas that start alike and merge the same digests, in any order and any number of
      times, end alike. */
  lemma SameDigestsSameStore<V>(d: Data<V>, xs: seq<Data<V>>, ys: seq<Data<V>>)
    requires forall x :: x in xs <==> x in ys
    requires AllCoherent([d] + xs)
    ensures JoinAll(d, xs) == JoinAll(d, ys)
  {
    JoinAllIsJoin(d, xs);
    JoinAllIsJoin(d, ys);
    AmongAfter(d, ys, xs);
    AmongAfter(d, xs, ys);
    JoinUnique([d] + ys, [d] + xs, JoinAll(d, ys), JoinAll(d, xs));
  }

  // ---- A merge reports a change exactly when there was one -------------------------------

  /** Nothing was lost, and what was replaced became newer. */
  ghost predicate Advances<V>(a: Data<V>, b: Data<V>) {
    forall k :: k in a ==> k in b && (b[k] == a[k] || Newer(b[k].version, a[k].version))
  }

  lemma JoinAdvances<V>(a: Data<V>, b: Data<V>)
    ensures Advances(a, Join(a, b))
  {
  }

  lemma AdvancesTransitive<V>(a: Data<V>, b: Data<V>, c: Data<V>)
    requires Advances(a, b) && Advances(b, c)
    ensures Advances(a, c)
    ensures c == a ==> b == a
  {
    VersionOrder();
    if c == a {
      assert forall k :: k in b ==> k in c;
      assert forall k :: k in b ==> b[k] == a[k];
    }
  }

  /** The stamp bound of node `name` once its store went from `a` to `b` by a merge: raised just
      far enough to cover entries of its own that came back. */
  ghost predicate IsRaised<V>(top: real, highest: real, name: string, a: Data<V>, b: Data<V>) {
    && top >= highest
    && (forall k :: TookOwn(name, a, b, k) ==> b[k].version.ts <= top)
    && (top == highest || exists k :: TookOwn(name, a, b, k) && b[k].version.ts == top)
  }

  ghost predicate TookOwn<V>(name: string, a: Data<V>, b: Data<V>, k: string) {
    k in b && (k !in a || b[k] != a[k]) && b[k].version.origin == name
  }

  /** The part of `digest` a merge loop has processed. */
  ghost function Part<V>(digest: Data<V>, keys: set<string>): Data<V> {
    map k | k in digest && k in keys :: digest[k]
  }

  lemma JoinPartNext<V>(a: Data<V>, digest: Data<V>, done: set<string>, k: string)
    requires k in digest && k !in done
    ensures MergeEntry(Join(a, Part(digest, done)), k, digest[k]) == Join(a, Part(digest, done + {k}))
    ensures Wins(Join(a, Part(digest, done)), k, digest[k]) <==> Wins(a, k, digest[k])
  {
    assert Part(digest, done + {k}) == Part(digest, done)[k := digest[k]];
  }

  lemma JoinWithAll<V>(a: Data<V>, digest: Data<V>)
    ensures Part(digest, digest.Keys) == digest && Part(digest, {}) == map[]
    ensures Join(a, map[]) == a
  {
  }

  lemma RaisedNext<V>(name: string, low: real, top: real, top': real, before: Data<V>, prev: Data<V>, k: string, e: Entry<V>)
    requires IsRaised(top, low, name, before, prev)
    requires k in prev <==> k in before
    requires k in before ==> prev[k] == before[k]
    requires top' == if Wins(prev, k, e) && e.version.origin == name && e.version.ts > top then e.version.ts else top
    ensures IsRaised(top', low, name, before, MergeEntry(prev, k, e))
  {
    VersionOrder();
    var next := MergeEntry(prev, k, e);
    assert forall j :: j != k ==> (TookOwn(name, before, next, j) <==> TookOwn(name, before, prev, j));
    assert TookOwn(name, before, next, k) <==> Wins(prev, k, e) && e.version.origin == name;
    if top' == top && top != low {
      var j :| TookOwn(name, before, prev, j) && prev[j].version.ts == top;
      assert TookOwn(name, before, next, j);
    }
  }

  // ---- The store object ------------------------------------------------------------------

  /** The state of one store: its entries and the highest stamp it has produced. */
  datatype Node<V> = Node(data: Data<V>, highest: real)

  /** A local write at `name`: the entry, stamped above all of the node's own. */
  function Stamped<V>(name: string, n: Node<V>, value: Option<V>, deleted: bool, now: real): Entry<V> {
    Entry(value, Version(NextTs(n.highest, now), name), deleted)
  }

  function AfterSet<V>(name: string, n: Node<V>, key: string, value: Option<V>, now: real): Node<V> {
    var e := Stamped(name, n, value, false, now);
    Node(n.data[key := e], e.version.ts)
  }

  function AfterDelete<V>(name: string, n: Node<V>, key: string, now: real): Node<V> {
    if key !in n.data then n
    else
      var e := Stamped(name, n, None, true, now);
      Node(n.data[key := e], e.version.ts)
  }

  class DistributedStore<V> {
    const nodeId: string
    var data: Data<V>
    var highest: real

    constructor (nodeId: string)
      ensures this.nodeId == nodeId && data == map[] && highest == 0.0
    {
      this.nodeId := nodeId;
      data := map[];
      highest := 0.0;
    }

    ghost function Here(): Node<V>
      reads this
    {
      Node(data, highest)
    }

    /** A version above every one this node has produced. */
    method NextVersion(now: real) returns (v: Version)
      modifies this`highest
      ensures v.origin == nodeId && v.ts == highest == NextTs(old(highest), now)
      ensures v.ts > old(highest) && v.ts >= now
      ensures if now > old(highest) then v.ts == now else v.ts - old(highest) == 0.000001
    {
      var ts := now;
      if ts <= highest {
        ts := highest + 0.000001;
      }
      highest := ts;
      v := Version(ts, nodeId);
    }

    method Set(key: string, value: Option<V>, now: real) returns (entry: Entry<V>)
      modifies this
      ensures entry == Entry(value, Version(NextTs(old(highest), now), nodeId), false)
      ensures data == old(data)[key := entry] && highest == entry.version.ts > old(highest)
      ensures Here() == AfterSet(nodeId, old(Here()), key, value, now)
    {
      var v := NextVersion(now);
      entry := Entry(value, v, false);
      data := data[key := entry];
    }

    method Delete(key: string, now: real) returns (entry: Option<Entry<V>>)
      modifies this
      ensures key !in old(data) ==> entry == None && data == old(data) && highest == old(highest)
      ensures key in old(data) ==>
                && entry == Some(Entry(None, Version(NextTs(old(highest), now), nodeId), true))
                && data == old(data)[key := entry.value]
                && highest == entry.value.version.ts > old(highest)
      ensures Here() == AfterDelete(nodeId, old(Here()), key, now)
    {
      if key !in data {
        return None;
      }
      var v := NextVersion(now);
      var tomb := Entry(None, v, true);
      data := data[key := tomb];
      entry := Some(tomb);
    }

    method MergeOne(key: string, entry: Entry<V>) returns (changed: bool)
      modifies this
      ensures data == MergeEntry(old(data), key, entry)
      ensures changed <==> data != old(data)
      ensures changed <==> Wins(old(data), key, entry)
      ensures highest == if changed && entry.version.origin == nodeId && entry.version.ts > old(highest)
                         then entry.version.ts else old(highest)
    {
      VersionOrder();
      if key !in data || Newer(entry.version, data[key].version) {
        assert data[key := entry] != data;
        data := data[key := entry];
        if entry.version.origin == nodeId && entry.version.ts > highest {
          highest := entry.version.ts;
        }
        return true;
      }
      return false;
    }

    /** Merges a digest key by key, in whatever order the dictionary yields. */
    method ApplyDigest(digest: Data<V>) returns (changed: bool)
      modifies this
      ensures data == Join(old(data), digest)
      ensures changed <==> data != old(data)
      ensures IsRaised(highest, old(highest), nodeId, old(data), data)
    {
      changed := false;
      ghost var before, low := data, highest;
      ghost var done: set<string> := {};
      var todo := digest.Keys;
      JoinWithAll(before, digest);
      while todo != {}
        invariant todo !! done && todo + done == digest.Keys
        invariant data == Join(before, Part(digest, done))
        invariant changed <==> data != before
        invariant IsRaised(highest, low, nodeId, before, data)
      {
        var k :| k in todo;
        ghost var prev, top := data, highest;
        JoinPartNext(before, digest, done, k);
        JoinAdvances(before, prev);
        var now := MergeOne(k, digest[k]);
        MergeEntryIsJoin(prev, k, digest[k]);
        JoinAdvances(prev, map[k := digest[k]]);
        JoinAdvances(before, Part(digest, done));
        AdvancesTransitive(before, prev, data);
        RaisedNext(nodeId, low, top, highest, before, prev, k, digest[k]);
        changed := changed || now;
        todo, done := todo - {k}, done + {k};
      }
      assert done == digest.Keys;
    }

    /** Drops the tombstones that are at least `minAge` old and nothing else. */
    method CollectGarbage(now: real, minAge: real) returns (count: nat)
      modifies this`data
      ensures data == Kept(old(data), now, minAge)
      ensures forall k :: k in data <==> k in old(data) && (old(data)[k].deleted ==> old(data)[k].version.ts > now - minAge)
      ensures forall k :: k in data ==> data[k] == old(data)[k]
      ensures count == |old(data)| - |data|
    {
      var stale := set k | k in data && data[k].deleted && now - data[k].version.ts >= minAge;
      count := |stale|;
      ghost var before := data;
      data := data - stale;
      assert data.Keys == before.Keys - stale;
    }
  }

  /** Every live entry and every young tombstone stays as it is, every old tombstone goes, and
      nothing is added. */
  lemma KeptExact<V>(d: Data<V>, now: real, minAge: real, k: string)
    ensures k in Kept(d, now, minAge) ==> k in d && Kept(d, now, minAge)[k] == d[k]
    ensures k in d && !d[k].deleted ==> k in Kept(d, now, minAge)
    ensures k in d && d[k].version.ts > now - minAge ==> k in Kept(d, now, minAge)
    ensures k in d && d[k].deleted && d[k].version.ts <= now - minAge ==> k !in Kept(d, now, minAge)
  {
  }

  function Kept<V>(d: Data<V>, now: real, minAge: real): Data<V> {
    map k | k in d && !(d[k].deleted && now - d[k].version.ts >= minAge) :: d[k]
  }
}
