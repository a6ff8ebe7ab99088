/** The key/value database on one node as operations on the live items of its store: values,
    absolute expiry times and secondary index entries, each under its own name space. */
module KvIndex {
  import opened Keys
  import opened Seqs
  import opened Store

  datatype Item<V> = Val(v: V) | Exp(at: real) | Mark

  type Items<V> = map<string, Item<V>>

  /** An index: the string an extracted value is filed under. */
  type Indexes<!V> = map<string, V -> string>

  function ValKey(base: string, k: string): string {
    base + "/" + k
  }

  function ExpKey(base: string, k: string): string {
    base + ".exp/" + k
  }

  function IdxSpace(base: string): string {
    base + ".idx/"
  }

  function IdxPrefix(base: string, name: string, ik: string): string {
    IdxSpace(base) + name + "/" + ik + "/"
  }

  function IdxKey(base: string, name: string, ik: string, k: string): string {
    IdxPrefix(base, name, ik) + k
  }

  lemma SpacesApart(base: string, x: string, y: string, z: string)
    ensures ValKey(base, x) != ExpKey(base, y)
    ensures ValKey(base, x) != IdxSpace(base) + z && ExpKey(base, y) != IdxSpace(base) + z
  {
    assert ValKey(base, x)[|base|] == '/' && ExpKey(base, y)[|base|] == '.' && (IdxSpace(base) + z)[|base|] == '.';
    assert ExpKey(base, y)[|base| + 1] == 'e' && (IdxSpace(base) + z)[|base| + 1] == 'i';
  }

  lemma IdxKeyApart(base: string, name: string, ik: string, k: string, x: string)
    ensures IdxKey(base, name, ik, k) != ValKey(base, x) && IdxKey(base, name, ik, k) != ExpKey(base, x)
  {
    assert IdxKey(base, name, ik, k) == IdxSpace(base) + (name + "/" + ik + "/" + k);
    SpacesApart(base, x, x, name + "/" + ik + "/" + k);
  }

  lemma ValKeyInjective(base: string, x: string, y: string)
    ensures ValKey(base, x) == ValKey(base, y) ==> x == y
    ensures ExpKey(base, x) == ExpKey(base, y) ==> x == y
  {
    assert ValKey(base, x)[|base| + 1..] == x && ValKey(base, y)[|base| + 1..] == y;
    assert ExpKey(base, x)[|base| + 5..] == x && ExpKey(base, y)[|base| + 5..] == y;
  }

  /** Slash-free names and index keys can be read back from an index entry. */
  lemma IdxKeyInjective(base: string, n: string, i: string, x: string, m: string, j: string, y: string)
    requires SlashFree(n) && SlashFree(i) && SlashFree(m) && SlashFree(j)
    requires IdxKey(base, n, i, x) == IdxKey(base, m, j, y)
    ensures n == m && i == j && x == y
  {
    var s := IdxSpace(base);
    assert IdxKey(base, n, i, x) == s + n + "/" + (i + "/" + x);
    assert IdxKey(base, m, j, y) == s + m + "/" + (j + "/" + y);
    SegmentUnique(s, n, i + "/" + x, m, j + "/" + y);
    assert "" + i + "/" + x == i + "/" + x && "" + j + "/" + y == j + "/" + y;
    SegmentUnique("", i, x, j, y);
  }

  // ---- Reading ---------------------------------------------------------------------------

  function ValueAt<V>(m: Items<V>, base: string, k: string): Option<V> {
    if ValKey(base, k) in m && m[ValKey(base, k)].Val? then Some(m[ValKey(base, k)].v) else None
  }

  predicate Expired<V>(m: Items<V>, base: string, k: string, now: real) {
    ExpKey(base, k) in m && m[ExpKey(base, k)].Exp? && now >= m[ExpKey(base, k)].at
  }

  /** `(k, v)` is in the scan: stored and not expired. */
  ghost predicate Scanned<V>(m: Items<V>, base: string, k: string, v: V, now: real) {
    ValueAt(m, base, k) == Some(v) && !Expired(m, base, k, now)
  }

  /** `k` is in the answer of `query_index`. */
  ghost predicate Queried<V>(m: Items<V>, base: string, name: string, ik: string, k: string, now: real) {
    IdxKey(base, name, ik, k) in m && !Expired(m, base, k, now)
  }

  // ---- Writing ---------------------------------------------------------------------------

  ghost function EntryKeys<V>(base: string, idx: Indexes<V>, k: string, v: Option<V>): set<string> {
    if v.None? then {} else set n | n in idx :: IdxKey(base, n, idx[n](v.value), k)
  }

  /** `m` without the entries `gone` and then with the entries `added`. */
  ghost function Moved<V>(m: Items<V>, gone: set<string>, added: set<string>): Items<V> {
    (m - gone) + (map e | e in added :: Mark)
  }

  /** Index entries of `k` moved from the old value to the new one. */
  ghost function Reindexed<V>(m: Items<V>, base: string, idx: Indexes<V>, k: string, was: Option<V>, now: Option<V>): Items<V> {
    Moved(m, EntryKeys(base, idx, k, was), EntryKeys(base, idx, k, now))
  }

  /** The own part of a quorum write. Without a `ttl` an expiry recorded before stays. */
  ghost function QuorumPut<V>(m: Items<V>, base: string, idx: Indexes<V>, k: string, v: V, ttl: Option<real>, now: real): Items<V> {
    var m1 := Reindexed(m, base, idx, k, ValueAt(m, base, k), Some(v))[ValKey(base, k) := Val(v)];
    if ttl.Some? then m1[ExpKey(base, k) := Exp(now + ttl.value)] else m1
  }

  ghost function Put<V>(m: Items<V>, base: string, idx: Indexes<V>, k: string, v: V, ttl: Option<real>, now: real): Items<V> {
    var m1 := QuorumPut(m, base, idx, k, v, ttl, now);
    if ttl.Some? then m1 else m1 - {ExpKey(base, k)}
  }

  /** A newer entry for `k` merged in from elsewhere: a value or a tombstone, and no index moves. */
  ghost function Folded<V>(m: Items<V>, base: string, k: string, v: Option<V>): Items<V> {
    if v.Some? then m[ValKey(base, k) := Val(v.value)] else m - {ValKey(base, k)}
  }

  ghost function Delete<V>(m: Items<V>, base: string, idx: Indexes<V>, k: string): Items<V> {
    Reindexed(m, base, idx, k, ValueAt(m, base, k), None) - {ValKey(base, k)} - {ExpKey(base, k)}
  }

  ghost function Touched<V>(m: Items<V>, base: string, idx: Indexes<V>, k: string, now: real): Items<V> {
    if Expired(m, base, k, now) then Delete(m, base, idx, k) else m
  }

  ghost function DeleteAll<V>(m: Items<V>, base: string, idx: Indexes<V>, ks: seq<string>): Items<V>
    decreases |ks|
  {
    if ks == [] then m else DeleteAll(Delete(m, base, idx, ks[0]), base, idx, ks[1..])
  }

  /** `ks` lists the stored keys that have expired, each once, in some order. */
  ghost predicate ListsExpired<V>(m: Items<V>, base: string, ks: seq<string>, now: real) {
    NoRepeats(ks) && forall k :: k in ks <==> ValueAt(m, base, k).Some? && Expired(m, base, k, now)
  }

  /** The entries an index called `name` needs for what a scan shows. */
  ghost function BackfillKeys<V>(m: Items<V>, base: string, name: string, f: V -> string, now: real): set<string> {
    set e | e in m.Keys && HasPrefix(e, base + "/") && Scannable(m, base, e, now)
      :: IdxKey(base, name, f(m[e].v), e[|base + "/"|..])
  }

  ghost function Backfill<V>(m: Items<V>, base: string, name: string, f: V -> string, now: real): Items<V> {
    m + map e | e in BackfillKeys(m, base, name, f, now) :: Mark
  }

  predicate Scannable<V>(m: Items<V>, base: string, e: string, now: real)
    requires e in m && HasPrefix(e, base + "/")
  {
    m[e].Val? && !Expired(m, base, e[|base + "/"|..], now)
  }

  // ---- The index agrees with a scan ------------------------------------------------------

  ghost predicate SlashFreeIndexes<V(!new)>(idx: Indexes<V>) {
    forall n :: n in idx ==> SlashFree(n) && FilesSlashFree(idx[n])
  }

  ghost predicate FilesSlashFree<V(!new)>(f: V -> string) {
    forall v :: SlashFree(f(v))
  }

  /** Index entries are never wrong, and none is missing for a value that has not expired by
      `now`. A value that had expired when its index was created has no entry until it is
      written again. */
  ghost predicate Sound<V>(m: Items<V>, base: string, idx: Indexes<V>) {
    forall n, ik, k :: SlashFree(n) && SlashFree(ik) && IdxKey(base, n, ik, k) in m ==>
      n in idx && ValueAt(m, base, k).Some? && idx[n](ValueAt(m, base, k).value) == ik
  }

  ghost predicate Complete<V>(m: Items<V>, base: string, idx: Indexes<V>, now: real) {
    forall n, k :: n in idx && ValueAt(m, base, k).Some? && !Expired(m, base, k, now) ==>
      IdxKey(base, n, idx[n](ValueAt(m, base, k).value), k) in m
  }

  ghost predicate Agrees<V(!new)>(m: Items<V>, base: string, idx: Indexes<V>, now: real) {
    SlashFreeIndexes(idx) && Sound(m, base, idx) && Complete(m, base, idx, now)
  }

  /** The answer to an index query is exactly the scanned keys whose value files under `ik`. */
  lemma QueryMatchesScan<V(!new)>(m: Items<V>, base: string, idx: Indexes<V>, name: string, ik: string, k: string, last: real, now: real)
    requires Agrees(m, base, idx, last) && last <= now && name in idx && SlashFree(ik)
    ensures Queried(m, base, name, ik, k, now) <==>
            exists v :: Scanned(m, base, k, v, now) && idx[name](v) == ik
  {
    if Queried(m, base, name, ik, k, now) {
      assert Scanned(m, base, k, ValueAt(m, base, k).value, now);
    }
    if v :| Scanned(m, base, k, v, now) && idx[name](v) == ik {
      assert !Expired(m, base, k, last);
    }
  }

  // ---- Every operation keeps the agreement -----------------------------------------------

  lemma EntryLookup<V(!new)>(base: string, idx: Indexes<V>, k: string, v: Option<V>, n: string, ik: string, x: string)
    requires SlashFreeIndexes(idx) && SlashFree(n) && SlashFree(ik)
    ensures IdxKey(base, n, ik, x) in EntryKeys(base, idx, k, v) <==>
            v.Some? && n in idx && idx[n](v.value) == ik && x == k
  {
    if IdxKey(base, n, ik, x) in EntryKeys(base, idx, k, v) {
      var o :| o in idx && IdxKey(base, o, idx[o](v.value), k) == IdxKey(base, n, ik, x);
      IdxKeyInjective(base, o, idx[o](v.value), k, n, ik, x);
    }
  }

  lemma ReindexKeepsRest<V>(m: Items<V>, base: string, idx: Indexes<V>, k: string, was: Option<V>, now: Option<V>, x: string)
    ensures var r := Reindexed(m, base, idx, k, was, now);
            && (ValKey(base, x) in r <==> ValKey(base, x) in m)
            && (ExpKey(base, x) in r <==> ExpKey(base, x) in m)
            && (ValKey(base, x) in m ==> r[ValKey(base, x)] == m[ValKey(base, x)])
            && (ExpKey(base, x) in m ==> r[ExpKey(base, x)] == m[ExpKey(base, x)])
  {
    forall v: Option<V> ensures ValKey(base, x) !in EntryKeys(base, idx, k, v) && ExpKey(base, x) !in EntryKeys(base, idx, k, v) {
      if v.Some? {
        forall n | n in idx ensures IdxKey(base, n, idx[n](v.value), k) != ValKey(base, x) && IdxKey(base, n, idx[n](v.value), k) != ExpKey(base, x) {
          IdxKeyApart(base, n, idx[n](v.value), k, x);
        }
      }
    }
  }

  /** `m'` is `m` with the value at `k` now `v`, its index entries moved along, and the items of
      all other keys untouched. */
  ghost predicate Rewrites<V>(m: Items<V>, m': Items<V>, base: string, idx: Indexes<V>, k: string, v: Option<V>, now: real) {
    && ValueAt(m', base, k) == v
    && (forall x :: x != k ==> ValueAt(m', base, x) == ValueAt(m, base, x))
    && (forall x :: x != k ==> Expired(m', base, x, now) == Expired(m, base, x, now))
    && forall n, ik, x :: IdxKey(base, n, ik, x) in m' <==>
         IdxKey(base, n, ik, x) in Reindexed(m, base, idx, k, ValueAt(m, base, k), v)
  }

  lemma RewriteAgrees<V(!new)>(m: Items<V>, m': Items<V>, base: string, idx: Indexes<V>, k: string, v: Option<V>, now: real)
    requires Agrees(m, base, idx, now) && Rewrites(m, m', base, idx, k, v, now)
    ensures Agrees(m', base, idx, now)
  {
    forall n, ik, x | SlashFree(n) && SlashFree(ik) && IdxKey(base, n, ik, x) in m'
      ensures n in idx && ValueAt(m', base, x).Some? && idx[n](ValueAt(m', base, x).value) == ik
    {
      EntryLookup(base, idx, k, v, n, ik, x);
      EntryLookup(base, idx, k, ValueAt(m, base, k), n, ik, x);
    }
    forall n, x | n in idx && ValueAt(m', base, x).Some? && !Expired(m', base, x, now)
      ensures IdxKey(base, n, idx[n](ValueAt(m', base, x).value), x) in m'
    {
      EntryLookup(base, idx, k, v, n, idx[n](ValueAt(m', base, x).value), x);
      EntryLookup(base, idx, k, ValueAt(m, base, k), n, idx[n](ValueAt(m', base, x).value), x);
    }
  }

  lemma QuorumPutRewrites<V>(m: Items<V>, base: string, idx: Indexes<V>, k: string, v: V, ttl: Option<real>, now: real)
    ensures Rewrites(m, QuorumPut(m, base, idx, k, v, ttl, now), base, idx, k, Some(v), now)
  {
    var m' := QuorumPut(m, base, idx, k, v, ttl, now);
    forall x ensures x != k ==> ValueAt(m', base, x) == ValueAt(m, base, x) && Expired(m', base, x, now) == Expired(m, base, x, now) {
      ReindexKeepsRest(m, base, idx, k, ValueAt(m, base, k), Some(v), x);
      SpacesApart(base, x, k, "");
      SpacesApart(base, k, x, "");
      ValKeyInjective(base, x, k);
    }
    SpacesApart(base, k, k, "");
    forall n, ik, x ensures IdxKey(base, n, ik, x) in m' <==>
         IdxKey(base, n, ik, x) in Reindexed(m, base, idx, k, ValueAt(m, base, k), Some(v)) {
      IdxKeyApart(base, n, ik, x, k);
    }
  }

  lemma PutRewrites<V>(m: Items<V>, base: string, idx: Indexes<V>, k: string, v: V, ttl: Option<real>, now: real)
    ensures Rewrites(m, Put(m, base, idx, k, v, ttl, now), base, idx, k, Some(v), now)
  {
    var q, m' := QuorumPut(m, base, idx, k, v, ttl, now), Put(m, base, idx, k, v, ttl, now);
    QuorumPutRewrites(m, base, idx, k, v, ttl, now);
    forall x ensures ValueAt(m', base, x) == ValueAt(q, base, x) && (x != k ==> Expired(m', base, x, now) == Expired(q, base, x, now)) {
      SpacesApart(base, x, k, "");
      ValKeyInjective(base, x, k);
    }
    forall n, ik, x ensures IdxKey(base, n, ik, x) in m' <==> IdxKey(base, n, ik, x) in q {
      IdxKeyApart(base, n, ik, x, k);
    }
  }

  /** A value just put shows in a scan unless its time to live is over at once. A value just put
      by quorum may also be hidden by an expiry recorded before. */
  lemma PutShowsIff<V>(m: Items<V>, base: string, idx: Indexes<V>, k: string, v: V, ttl: Option<real>, now: real)
    ensures Scanned(Put(m, base, idx, k, v, ttl, now), base, k, v, now) <==> (ttl.Some? ==> ttl.value > 0.0)
    ensures Scanned(QuorumPut(m, base, idx, k, v, ttl, now), base, k, v, now) <==>
            if ttl.Some? then ttl.value > 0.0 else !Expired(m, base, k, now)
  {
    ReindexKeepsRest(m, base, idx, k, ValueAt(m, base, k), Some(v), k);
    SpacesApart(base, k, k, "");
  }

  /** At any time, a value put with a time to live shows until that is over and never from then on; a
      value put without one shows for good, and one put so by quorum as long as the expiry recorded
      before lets it. */
  lemma ShowsUntil<V>(m: Items<V>, base: string, idx: Indexes<V>, k: string, v: V, ttl: Option<real>, now: real, at: real)
    ensures ttl.Some? ==> (Scanned(Put(m, base, idx, k, v, ttl, now), base, k, v, at) <==> at < now + ttl.value)
    ensures ttl.Some? ==> (Scanned(QuorumPut(m, base, idx, k, v, ttl, now), base, k, v, at) <==> at < now + ttl.value)
    ensures ttl.None? ==> Scanned(Put(m, base, idx, k, v, ttl, now), base, k, v, at)
    ensures ttl.None? ==> (Scanned(QuorumPut(m, base, idx, k, v, ttl, now), base, k, v, at) <==> !Expired(m, base, k, at))
  {
    ReindexKeepsRest(m, base, idx, k, ValueAt(m, base, k), Some(v), k);
    SpacesApart(base, k, k, "");
  }

  /** A deleted key has neither value nor expiry, at any time; other keys keep theirs. */
  lemma DeletedIsGone<V>(m: Items<V>, base: string, idx: Indexes<V>, k: string, x: string, at: real)
    ensures var d := Delete(m, base, idx, k);
            && ValueAt(d, base, k) == None && !Expired(d, base, k, at)
            && (x != k ==> ValueAt(d, base, x) == ValueAt(m, base, x) && Expired(d, base, x, at) == Expired(m, base, x, at))
  {
    DeleteRewrites(m, base, idx, k, at);
    ReindexKeepsRest(m, base, idx, k, ValueAt(m, base, k), None, k);
    SpacesApart(base, k, k, "");
  }

  /** Reading a key that has expired leaves it without value and expiry, for good; reading any other
      changes nothing. */
  lemma ReadReaps<V>(m: Items<V>, base: string, idx: Indexes<V>, k: string, now: real, at: real)
    ensures !Expired(m, base, k, now) ==> Touched(m, base, idx, k, now) == m
    ensures Expired(m, base, k, now) ==>
              ValueAt(Touched(m, base, idx, k, now), base, k) == None && !Expired(Touched(m, base, idx, k, now), base, k, at)
  {
    DeletedIsGone(m, base, idx, k, k, at);
  }

  /** A sweep takes out the keys it lists, values and expiries, and no others. */
  lemma {:induction false} SweptAreGone<V>(m: Items<V>, base: string, idx: Indexes<V>, ks: seq<string>, x: string, at: real)
    ensures var d := DeleteAll(m, base, idx, ks);
            && (x in ks ==> ValueAt(d, base, x) == None && !Expired(d, base, x, at))
            && (x !in ks ==> ValueAt(d, base, x) == ValueAt(m, base, x) && Expired(d, base, x, at) == Expired(m, base, x, at))
    decreases |ks|
  {
    if ks != [] {
      var d := Delete(m, base, idx, ks[0]);
      DeletedIsGone(m, base, idx, ks[0], x, at);
      SweptAreGone(d, base, idx, ks[1..], x, at);
      assert x in ks <==> x == ks[0] || x in ks[1..];
      if x == ks[0] && x !in ks[1..] { DeletedIsGone(m, base, idx, x, x, at); }
    }
  }

  /** After a sweep of the expired keys a scan shows what it showed before, and nothing that has
      expired is left. */
  lemma SweepKeepsScan<V>(m: Items<V>, base: string, idx: Indexes<V>, ks: seq<string>, now: real, x: string, v: V)
    requires ListsExpired(m, base, ks, now)
    ensures var d := DeleteAll(m, base, idx, ks);
            && (Scanned(d, base, x, v, now) <==> Scanned(m, base, x, v, now))
            && (ValueAt(d, base, x).Some? ==> !Expired(d, base, x, now))
  {
    SweptAreGone(m, base, idx, ks, x, now);
  }

  /** The failing case: a key put for a second and put again by quorum once it has expired. */
  lemma QuorumPutStaysHidden<V>(base: string, idx: Indexes<V>, k: string, was: V, v: V, t0: real, t1: real)
    requires t0 + 1.0 <= t1
    ensures var m := Put(map[], base, idx, k, was, Some(1.0), t0);
            var m' := QuorumPut(m, base, idx, k, v, None, t1);
            ValueAt(m', base, k) == Some(v) && !Scanned(m', base, k, v, t1) && Scanned(m, base, k, was, t0)
  {
    var m := Put(map[], base, idx, k, was, Some(1.0), t0);
    PutShowsIff(map[], base, idx, k, was, Some(1.0), t0);
    PutShowsIff(m, base, idx, k, v, None, t1);
    QuorumPutRewrites(m, base, idx, k, v, None, t1);
    assert Expired(m, base, k, t1);
  }

  lemma DeleteRewrites<V>(m: Items<V>, base: string, idx: Indexes<V>, k: string, now: real)
    ensures Rewrites(m, Delete(m, base, idx, k), base, idx, k, None, now)
  {
    var m' := Delete(m, base, idx, k);
    forall x ensures x != k ==> ValueAt(m', base, x) == ValueAt(m, base, x) && Expired(m', base, x, now) == Expired(m, base, x, now) {
      ReindexKeepsRest(m, base, idx, k, ValueAt(m, base, k), None, x);
      SpacesApart(base, x, k, "");
      SpacesApart(base, k, x, "");
      ValKeyInjective(base, x, k);
    }
    forall n, ik, x ensures IdxKey(base, n, ik, x) in m' <==>
         IdxKey(base, n, ik, x) in Reindexed(m, base, idx, k, ValueAt(m, base, k), None) {
      IdxKeyApart(base, n, ik, x, k);
    }
  }

  /** An entry merged in files as the indexes have it: those that hold an entry for `k` file the
      new value where they filed the old one, and none is missing. */
  ghost predicate FilesAlike<V>(m: Items<V>, base: string, idx: Indexes<V>, k: string, v: Option<V>, now: real) {
    forall n :: n in idx ==> FilesAlikeIn(m, base, n, idx[n], k, ValueAt(m, base, k), v, now)
  }

  ghost predicate FilesAlikeIn<V>(m: Items<V>, base: string, n: string, f: V -> string, k: string, was: Option<V>, v: Option<V>, now: real) {
    && (was.Some? && IdxKey(base, n, f(was.value), k) in m ==> v.Some? && f(v.value) == f(was.value))
    && (v.Some? && !Expired(m, base, k, now) ==> was.Some? && f(was.value) == f(v.value))
  }

  lemma FoldKeepsRest<V>(m: Items<V>, base: string, k: string, v: Option<V>, x: string, now: real)
    ensures var m' := Folded(m, base, k, v);
            && ValueAt(m', base, x) == (if x == k then v else ValueAt(m, base, x))
            && Expired(m', base, x, now) == Expired(m, base, x, now)
            && forall n, ik :: IdxKey(base, n, ik, x) in m' <==> IdxKey(base, n, ik, x) in m
  {
    SpacesApart(base, k, x, "");
    ValKeyInjective(base, x, k);
    forall n, ik ensures IdxKey(base, n, ik, x) != ValKey(base, k) { IdxKeyApart(base, n, ik, x, k); }
  }

  /** Merging moves no index entries, as read repair and the writes of peers do: the indexes stay
      right exactly when the new entry files as they have it. */
  lemma FoldAgreesIff<V(!new)>(m: Items<V>, base: string, idx: Indexes<V>, k: string, v: Option<V>, now: real)
    requires Agrees(m, base, idx, now)
    ensures Agrees(Folded(m, base, k, v), base, idx, now) <==> FilesAlike(m, base, idx, k, v, now)
  {
    if FilesAlike(m, base, idx, k, v, now) {
      FoldAgrees(m, base, idx, k, v, now);
    }
    if Agrees(Folded(m, base, k, v), base, idx, now) {
      forall n | n in idx ensures FilesAlikeIn(m, base, n, idx[n], k, ValueAt(m, base, k), v, now) {
        FoldKeepsRest(m, base, k, v, k, now);
      }
    }
  }

  lemma FoldAgrees<V(!new)>(m: Items<V>, base: string, idx: Indexes<V>, k: string, v: Option<V>, now: real)
    requires Agrees(m, base, idx, now) && FilesAlike(m, base, idx, k, v, now)
    ensures Agrees(Folded(m, base, k, v), base, idx, now)
  {
    var m' := Folded(m, base, k, v);
    forall n, ik, x | SlashFree(n) && SlashFree(ik) && IdxKey(base, n, ik, x) in m'
      ensures n in idx && ValueAt(m', base, x).Some? && idx[n](ValueAt(m', base, x).value) == ik
    {
      FoldKeepsRest(m, base, k, v, x, now);
      assert IdxKey(base, n, ik, x) in m;
      if x == k { assert FilesAlikeIn(m, base, n, idx[n], k, ValueAt(m, base, k), v, now); }
    }
    forall n, x | n in idx && ValueAt(m', base, x).Some? && !Expired(m', base, x, now)
      ensures IdxKey(base, n, idx[n](ValueAt(m', base, x).value), x) in m'
    {
      FoldKeepsRest(m, base, k, v, x, now);
      if x == k { assert FilesAlikeIn(m, base, n, idx[n], k, ValueAt(m, base, k), v, now); }
    }
  }

  /** Every query answers what a scan shows. */
  ghost predicate Matches<V(!new)>(m: Items<V>, base: string, idx: Indexes<V>, now: real) {
    forall n, ik, k :: n in idx && SlashFree(ik) ==> MatchesAt(m, base, n, idx[n], ik, k, now)
  }

  ghost predicate MatchesAt<V(!new)>(m: Items<V>, base: string, n: string, f: V -> string, ik: string, k: string, now: real) {
    Queried(m, base, n, ik, k, now) <==> exists v :: Scanned(m, base, k, v, now) && f(v) == ik
  }

  lemma AgreesMatches<V(!new)>(m: Items<V>, base: string, idx: Indexes<V>, now: real)
    requires Agrees(m, base, idx, now)
    ensures Matches(m, base, idx, now)
  {
    forall n, ik, k | n in idx && SlashFree(ik) ensures MatchesAt(m, base, n, idx[n], ik, k, now) {
      QueryMatchesScan(m, base, idx, n, ik, k, now, now);
    }
  }

  /** What an index files a value under, if there is one. */
  ghost function Filed<V>(f: V -> string, v: Option<V>): Option<string> {
    if v.Some? then Some(f(v.value)) else None
  }

  /** `was` and `v` file alike in every index. */
  ghost predicate SameFiles<V>(idx: Indexes<V>, was: Option<V>, v: Option<V>) {
    forall n :: n in idx ==> Filed(idx[n], was) == Filed(idx[n], v)
  }

  /** The answers at one key after a merge, in one index. */
  lemma FoldMatchesAt<V(!new)>(m: Items<V>, base: string, idx: Indexes<V>, k: string, v: Option<V>, n: string, ik: string, x: string, now: real)
    requires Agrees(m, base, idx, now) && n in idx && SlashFree(ik)
    ensures var m' := Folded(m, base, k, v);
            && (Queried(m', base, n, ik, x, now) <==> !Expired(m, base, x, now) && Filed(idx[n], ValueAt(m, base, x)) == Some(ik))
            && (MatchesAt(m', base, n, idx[n], ik, x, now) <==>
                  (Queried(m', base, n, ik, x, now) <==>
                   !Expired(m, base, x, now) && Filed(idx[n], if x == k then v else ValueAt(m, base, x)) == Some(ik)))
  {
    var m' := Folded(m, base, k, v);
    FoldKeepsRest(m, base, k, v, x, now);
    QueryMatchesScan(m, base, idx, n, ik, x, now, now);
    if !Expired(m, base, x, now) && ValueAt(m', base, x).Some? {
      assert Scanned(m', base, x, ValueAt(m', base, x).value, now);
    }
    if !Expired(m, base, x, now) && ValueAt(m, base, x).Some? {
      assert Scanned(m, base, x, ValueAt(m, base, x).value, now);
    }
  }

  /** Right after a merge the queries answer what a scan shows exactly when the key has expired or
      its new value files as the old one did. */
  lemma FoldMatchesIff<V(!new)>(m: Items<V>, base: string, idx: Indexes<V>, k: string, v: Option<V>, now: real)
    requires Agrees(m, base, idx, now)
    ensures Matches(Folded(m, base, k, v), base, idx, now) <==>
            Expired(m, base, k, now) || SameFiles(idx, ValueAt(m, base, k), v)
  {
    var m' := Folded(m, base, k, v);
    if Expired(m, base, k, now) || SameFiles(idx, ValueAt(m, base, k), v) {
      forall n, ik, x | n in idx && SlashFree(ik) ensures MatchesAt(m', base, n, idx[n], ik, x, now) {
        FoldMatchesAt(m, base, idx, k, v, n, ik, x, now);
      }
    }
    if Matches(m', base, idx, now) && !Expired(m, base, k, now) {
      forall n | n in idx ensures Filed(idx[n], ValueAt(m, base, k)) == Filed(idx[n], v) {
        var f := idx[n];
        assert FilesSlashFree(f);
        if v.Some? {
          assert MatchesAt(m', base, n, f, f(v.value), k, now);
          FoldMatchesAt(m, base, idx, k, v, n, f(v.value), k, now);
        } else if ValueAt(m, base, k).Some? {
          var ik := f(ValueAt(m, base, k).value);
          assert MatchesAt(m', base, n, f, ik, k, now);
          FoldMatchesAt(m, base, idx, k, v, n, ik, k, now);
        }
      }
    }
  }

  /** Under the invariant, the entries of an index for `k` are none, or the one for its value. */
  lemma DeletedFold<V(!new)>(m: Items<V>, base: string, idx: Indexes<V>, k: string, v: Option<V>, n: string, ik: string, now: real)
    requires Agrees(m, base, idx, now) && n in idx && SlashFree(ik)
    ensures var d := Delete(Folded(m, base, k, v), base, idx, k);
            && ValueAt(d, base, k).None? && !Expired(d, base, k, now)
            && (IdxKey(base, n, ik, k) in d <==> IdxKey(base, n, ik, k) in m && Filed(idx[n], v) != Some(ik))
  {
    var m' := Folded(m, base, k, v);
    FoldKeepsRest(m, base, k, v, k, now);
    DeleteRewrites(m', base, idx, k, now);
    EntryLookup(base, idx, k, v, n, ik, k);
    EntryLookup(base, idx, k, None, n, ik, k);
  }

  /** For good, a merge leaves the queries right exactly when it files as the index entries have it:
      also once the key is deleted, which is what happens to it when it has expired. */
  lemma FoldMatchesForGoodIff<V(!new)>(m: Items<V>, base: string, idx: Indexes<V>, k: string, v: Option<V>, now: real)
    requires Agrees(m, base, idx, now)
    ensures var m' := Folded(m, base, k, v);
            (Matches(m', base, idx, now) && Matches(Delete(m', base, idx, k), base, idx, now)) <==>
            FilesAlike(m, base, idx, k, v, now)
  {
    var m' := Folded(m, base, k, v);
    var d := Delete(m', base, idx, k);
    if FilesAlike(m, base, idx, k, v, now) {
      FoldAgreesIff(m, base, idx, k, v, now);
      AgreesMatches(m', base, idx, now);
      DeleteRewrites(m', base, idx, k, now);
      RewriteAgrees(m', d, base, idx, k, None, now);
      AgreesMatches(d, base, idx, now);
    }
    if Matches(m', base, idx, now) && Matches(d, base, idx, now) {
      FoldMatchesIff(m, base, idx, k, v, now);
      forall n | n in idx ensures FilesAlikeIn(m, base, n, idx[n], k, ValueAt(m, base, k), v, now) {
        assert Filed(idx[n], ValueAt(m, base, k)) == Filed(idx[n], v) || Expired(m, base, k, now);
        if ValueAt(m, base, k).Some? {
          var ik := idx[n](ValueAt(m, base, k).value);
          assert FilesSlashFree(idx[n]);
          DeletedFold(m, base, idx, k, v, n, ik, now);
          assert MatchesAt(d, base, n, idx[n], ik, k, now);
        }
      }
    }
  }

  lemma FirstPutAgrees<V(!new)>(base: string, idx: Indexes<V>, n: string, k: string, v: V, now: real)
    requires SlashFreeIndexes(idx) && n in idx
    ensures var m := Put(map[], base, idx, k, v, None, now);
            && Agrees(m, base, idx, now) && ValueAt(m, base, k) == Some(v) && !Expired(m, base, k, now)
            && IdxKey(base, n, idx[n](v), k) in m
  {
    var none: Items<V> := map[];
    var m := Put(none, base, idx, k, v, None, now);
    assert Agrees(none, base, idx, now);
    PutRewrites(none, base, idx, k, v, None, now);
    RewriteAgrees(none, m, base, idx, k, Some(v), now);
    PutShowsIff(none, base, idx, k, v, None, now);
  }

  /** The failing case: a key is put, then another value that files differently is read in by
      repair. The query for the old value still finds the key. */
  lemma RepairLeavesIndexStale<V(!new)>(base: string, idx: Indexes<V>, n: string, k: string, was: V, v: V, now: real)
    requires SlashFreeIndexes(idx) && n in idx && idx[n](v) != idx[n](was)
    ensures var m := Put(map[], base, idx, k, was, None, now);
            var m' := Folded(m, base, k, Some(v));
            && Agrees(m, base, idx, now) && !Matches(m', base, idx, now)
            && Queried(m', base, n, idx[n](was), k, now) && Scanned(m', base, k, v, now)
  {
    var m := Put(map[], base, idx, k, was, None, now);
    FirstPutAgrees(base, idx, n, k, was, now);
    FoldKeepsRest(m, base, k, Some(v), k, now);
    assert Filed(idx[n], Some(was)) != Filed(idx[n], Some(v));
    FoldMatchesIff(m, base, idx, k, Some(v), now);
  }

  function YesOrNo(b: bool): string {
    if b then "yes" else "no"
  }

  /** One such case. */
  lemma RepairLeavesYes(base: string, now: real)
    ensures var idx: Indexes<bool> := map["b" := YesOrNo];
            var m' := Folded(Put(map[], base, idx, "k", true, None, now), base, "k", Some(false));
            Queried(m', base, "b", "yes", "k", now) && Scanned(m', base, "k", false, now)
  {
    var idx: Indexes<bool> := map["b" := YesOrNo];
    assert YesOrNo(true)[0] != YesOrNo(false)[0];
    RepairLeavesIndexStale(base, idx, "b", "k", true, false, now);
  }

  lemma {:induction false} DeleteAllAgrees<V(!new)>(m: Items<V>, base: string, idx: Indexes<V>, ks: seq<string>, now: real)
    requires Agrees(m, base, idx, now)
    ensures Agrees(DeleteAll(m, base, idx, ks), base, idx, now)
    decreases |ks|
  {
    if ks != [] {
      DeleteRewrites(m, base, idx, ks[0], now);
      RewriteAgrees(m, Delete(m, base, idx, ks[0]), base, idx, ks[0], None, now);
      DeleteAllAgrees(Delete(m, base, idx, ks[0]), base, idx, ks[1..], now);
    }
  }

  /** Expiry never goes back, so agreement lasts as time passes. */
  lemma AgreesLater<V(!new)>(m: Items<V>, base: string, idx: Indexes<V>, last: real, now: real)
    requires Agrees(m, base, idx, last) && last <= now
    ensures Agrees(m, base, idx, now)
  {
    assert forall k :: Expired(m, base, k, last) ==> Expired(m, base, k, now);
  }

  lemma BackfillKeysLookup<V>(m: Items<V>, base: string, name: string, f: V -> string, now: real, e: string)
    ensures e in BackfillKeys(m, base, name, f, now) <==>
            exists k, v :: Scanned(m, base, k, v, now) && e == IdxKey(base, name, f(v), k)
  {
    var p := base + "/";
    if e in BackfillKeys(m, base, name, f, now) {
      var d :| d in m.Keys && HasPrefix(d, p) && Scannable(m, base, d, now) && e == IdxKey(base, name, f(m[d].v), d[|p|..]);
      PrefixSplits(d, p);
      assert Scanned(m, base, d[|p|..], m[d].v, now);
    }
    if k, v :| Scanned(m, base, k, v, now) && e == IdxKey(base, name, f(v), k) {
      PrefixOfConcat(p, k);
      assert ValKey(base, k) in m.Keys && HasPrefix(ValKey(base, k), p) && Scannable(m, base, ValKey(base, k), now);
    }
  }

  lemma BackfillLookup<V>(m: Items<V>, base: string, name: string, f: V -> string, now: real, e: string)
    ensures e in Backfill(m, base, name, f, now) <==>
            e in m || exists k, v :: Scanned(m, base, k, v, now) && e == IdxKey(base, name, f(v), k)
    ensures e in m && !HasPrefix(e, IdxSpace(base)) ==> Backfill(m, base, name, f, now)[e] == m[e]
  {
    BackfillKeysLookup(m, base, name, f, now, e);
    if e in BackfillKeys(m, base, name, f, now) {
      var k, v :| Scanned(m, base, k, v, now) && e == IdxKey(base, name, f(v), k);
      assert e == IdxSpace(base) + (name + "/" + f(v) + "/" + k);
      PrefixOfConcat(IdxSpace(base), name + "/" + f(v) + "/" + k);
    }
  }

  lemma BackfillKeepsRest<V>(m: Items<V>, base: string, name: string, f: V -> string, now: real, x: string)
    ensures var m' := Backfill(m, base, name, f, now);
            ValueAt(m', base, x) == ValueAt(m, base, x) && Expired(m', base, x, now) == Expired(m, base, x, now)
  {
    var m' := Backfill(m, base, name, f, now);
    BackfillLookup(m, base, name, f, now, ValKey(base, x));
    BackfillLookup(m, base, name, f, now, ExpKey(base, x));
    forall k, v ensures IdxKey(base, name, f(v), k) != ValKey(base, x) && IdxKey(base, name, f(v), k) != ExpKey(base, x) {
      IdxKeyApart(base, name, f(v), k, x);
    }
    OutsideIndexSpace(base, x, ValKey(base, x));
    OutsideIndexSpace(base, x, ExpKey(base, x));
  }

  lemma OutsideIndexSpace(base: string, x: string, e: string)
    requires e == ValKey(base, x) || e == ExpKey(base, x)
    ensures !HasPrefix(e, IdxSpace(base))
  {
    if HasPrefix(e, IdxSpace(base)) {
      PrefixSplits(e, IdxSpace(base));
      SpacesApart(base, x, x, e[|IdxSpace(base)|..]);
    }
  }

  lemma BackfillAgrees<V(!new)>(m: Items<V>, base: string, idx: Indexes<V>, name: string, f: V -> string, now: real)
    requires Agrees(m, base, idx, now) && name !in idx && SlashFree(name) && FilesSlashFree(f)
    ensures Agrees(Backfill(m, base, name, f, now), base, idx[name := f], now)
  {
    var m', idx' := Backfill(m, base, name, f, now), idx[name := f];
    forall n, ik, x | SlashFree(n) && SlashFree(ik) && IdxKey(base, n, ik, x) in m'
      ensures n in idx' && ValueAt(m', base, x).Some? && idx'[n](ValueAt(m', base, x).value) == ik
    {
      BackfillKeepsRest(m, base, name, f, now, x);
      BackfillLookup(m, base, name, f, now, IdxKey(base, n, ik, x));
      if IdxKey(base, n, ik, x) !in m {
        var k, v :| Scanned(m, base, k, v, now) && IdxKey(base, n, ik, x) == IdxKey(base, name, f(v), k);
        IdxKeyInjective(base, n, ik, x, name, f(v), k);
      }
    }
    forall n, x | n in idx' && ValueAt(m', base, x).Some? && !Expired(m', base, x, now)
      ensures IdxKey(base, n, idx'[n](ValueAt(m', base, x).value), x) in m'
    {
      BackfillKeepsRest(m, base, name, f, now, x);
      BackfillLookup(m, base, name, f, now, IdxKey(base, n, idx'[n](ValueAt(m', base, x).value), x));
      if n == name { assert Scanned(m, base, x, ValueAt(m, base, x).value, now); }
    }
  }

  // ---- Whole runs ------------------------------------------------------------------------

  datatype Db<!V> = Db(items: Items<V>, indexes: Indexes<V>, last: real)

  datatype Op<!V> =
    | PutOp(key: string, value: V, ttl: Option<real>, now: real)
    | QuorumPutOp(key: string, value: V, ttl: Option<real>, now: real)
    | FoldOp(key: string, merged: Option<V>, now: real)
    | GetOp(key: string, now: real)
    | DeleteOp(key: string, now: real)
    | SweepOp(expired: seq<string>, now: real)
    | CreateOp(name: string, extractor: V -> string, now: real)

  /** The clock does not run backwards, index names and keys are slash-free, an index is created
      once, and an entry merged in files as the indexes have it. */
  ghost predicate Allowed<V(!new)>(db: Db<V>, base: string, op: Op<V>) {
    && op.now >= db.last
    && (op.FoldOp? ==> FilesAlike(db.items, base, db.indexes, op.key, op.merged, op.now))
    && (op.SweepOp? ==> ListsExpired(db.items, base, op.expired, op.now))
    && (op.CreateOp? ==> op.name !in db.indexes && SlashFree(op.name) && FilesSlashFree(op.extractor))
  }

  ghost function Apply<V>(db: Db<V>, base: string, op: Op<V>): Db<V> {
    match op
    case PutOp(k, v, ttl, now) => Db(Put(db.items, base, db.indexes, k, v, ttl, now), db.indexes, now)
    case QuorumPutOp(k, v, ttl, now) => Db(QuorumPut(db.items, base, db.indexes, k, v, ttl, now), db.indexes, now)
    case FoldOp(k, v, now) => Db(Folded(db.items, base, k, v), db.indexes, now)
    case GetOp(k, now) => Db(Touched(db.items, base, db.indexes, k, now), db.indexes, now)
    case DeleteOp(k, now) => Db(Delete(db.items, base, db.indexes, k), db.indexes, now)
    case SweepOp(ks, now) => Db(DeleteAll(db.items, base, db.indexes, ks), db.indexes, now)
    case CreateOp(name, f, now) => Db(Backfill(db.items, base, name, f, now), db.indexes[name := f], now)
  }

  ghost predicate AllAllowed<V(!new)>(db: Db<V>, base: string, ops: seq<Op<V>>)
    decreases |ops|
  {
    ops == [] || (Allowed(db, base, ops[0]) && AllAllowed(Apply(db, base, ops[0]), base, ops[1..]))
  }

  ghost function ApplyAll<V>(db: Db<V>, base: string, ops: seq<Op<V>>): Db<V>
    decreases |ops|
  {
    if ops == [] then db else ApplyAll(Apply(db, base, ops[0]), base, ops[1..])
  }

  lemma ApplyAgrees<V(!new)>(db: Db<V>, base: string, op: Op<V>)
    requires Agrees(db.items, base, db.indexes, db.last) && Allowed(db, base, op)
    ensures var d := Apply(db, base, op); Agrees(d.items, base, d.indexes, d.last)
  {
    var m, idx := db.items, db.indexes;
    AgreesLater(m, base, idx, db.last, op.now);
    match op
    case PutOp(k, v, ttl, now) =>
      PutRewrites(m, base, idx, k, v, ttl, now);
      RewriteAgrees(m, Put(m, base, idx, k, v, ttl, now), base, idx, k, Some(v), now);
    case QuorumPutOp(k, v, ttl, now) =>
      QuorumPutRewrites(m, base, idx, k, v, ttl, now);
      RewriteAgrees(m, QuorumPut(m, base, idx, k, v, ttl, now), base, idx, k, Some(v), now);
    case FoldOp(k, v, now) => FoldAgrees(m, base, idx, k, v, now);
    case GetOp(k, now) =>
      DeleteRewrites(m, base, idx, k, now);
      RewriteAgrees(m, Delete(m, base, idx, k), base, idx, k, None, now);
    case DeleteOp(k, now) =>
      DeleteRewrites(m, base, idx, k, now);
      RewriteAgrees(m, Delete(m, base, idx, k), base, idx, k, None, now);
    case SweepOp(ks, now) => DeleteAllAgrees(m, base, idx, ks, now);
    case CreateOp(name, f, now) => BackfillAgrees(m, base, idx, name, f, now);
  }

  lemma {:induction false} ApplyAllAgrees<V(!new)>(db: Db<V>, base: string, ops: seq<Op<V>>)
    requires Agrees(db.items, base, db.indexes, db.last) && AllAllowed(db, base, ops)
    ensures var d := ApplyAll(db, base, ops); Agrees(d.items, base, d.indexes, d.last)
    decreases |ops|
  {
    if ops != [] {
      ApplyAgrees(db, base, ops[0]);
      ApplyAllAgrees(Apply(db, base, ops[0]), base, ops[1..]);
    }
  }

  /** After any run of operations from an empty database, an index query at any later time
      answers exactly the keys a scan shows with a value that files under `ik`. */
  lemma IndexAgreesOverRuns<V(!new)>(base: string, ops: seq<Op<V>>, start: real, name: string, ik: string, k: string, now: real)
    requires AllAllowed(Db(map[], map[], start), base, ops) && SlashFree(ik)
    requires name in ApplyAll(Db(map[], map[], start), base, ops).indexes
    requires now >= ApplyAll(Db(map[], map[], start), base, ops).last
    ensures var d := ApplyAll(Db(map[], map[], start), base, ops);
            Queried(d.items, base, name, ik, k, now) <==>
            exists v :: Scanned(d.items, base, k, v, now) && d.indexes[name](v) == ik
  {
    var d := ApplyAll(Db(map[], map[], start), base, ops);
    ApplyAllAgrees(Db(map[], map[], start), base, ops);
    QueryMatchesScan(d.items, base, d.indexes, name, ik, k, d.last, now);
  }
}
