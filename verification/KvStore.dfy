/** The database object over a node's store: each method changes the live items as `KvIndex` says
    and answers from them. */
module KvStore {
  import opened Order
  import opened Keys
  import opened Seqs
  import opened Store
  import opened KvIndex

  /** What `items()` yields: every entry that is not a tombstone. */
  function Live<V>(d: Data<Item<V>>): Items<V> {
    map k | k in d && !d[k].deleted && d[k].value.Some? :: d[k].value.value
  }

  function OneKey<V>(base: string, n: string, f: V -> string, k: string, v: Option<V>): set<string> {
    if v.Some? then {IdxKey(base, n, f(v.value), k)} else {}
  }

  /** The part of an index table a loop has dealt with. */
  function Handled<V>(idx: Indexes<V>, done: set<string>): Indexes<V> {
    map x | x in idx && x in done :: idx[x]
  }

  lemma MovedNext<V>(m: Items<V>, gone: set<string>, added: set<string>, g: set<string>, a: set<string>)
    requires g !! added
    ensures Moved(m, gone + g, added + a) == Moved(Moved(m, gone, added), g, a)
  {
  }

  lemma MovedByOne<V>(m: Items<V>, g: set<string>, a: set<string>)
    ensures Moved(m, g, a) == (if a == {} then m - g else (m - g) + map e | e in a :: Mark)
    ensures forall x :: a == {x} ==> Moved(m, g, a) == (m - g)[x := Mark]
    ensures m - {} == m
  {
  }

  lemma NothingReindexed<V>(m: Items<V>, base: string, idx: Indexes<V>, k: string, was: Option<V>, now: Option<V>)
    ensures Reindexed(m, base, Handled(idx, {}), k, was, now) == m
  {
    assert EntryKeys(base, Handled(idx, {}), k, was) == {} && EntryKeys(base, Handled(idx, {}), k, now) == {};
  }

  /** Dealing with one more index moves that index's entry. */
  lemma ReindexNext<V(!new)>(m: Items<V>, base: string, idx: Indexes<V>, done: set<string>, n: string, k: string, was: Option<V>, now: Option<V>)
    requires SlashFreeIndexes(idx) && n in idx && n !in done && done <= idx.Keys
    ensures Reindexed(m, base, Handled(idx, done + {n}), k, was, now) ==
            Moved(Reindexed(m, base, Handled(idx, done), k, was, now), OneKey(base, n, idx[n], k, was), OneKey(base, n, idx[n], k, now))
  {
    var part := Handled(idx, done);
    EntryKeysNext(base, idx, done, n, k, was);
    EntryKeysNext(base, idx, done, n, k, now);
    assert OneKey(base, n, idx[n], k, was) !! EntryKeys(base, part, k, now) by {
      if was.Some? && now.Some? {
        forall o | o in part ensures IdxKey(base, o, part[o](now.value), k) != IdxKey(base, n, idx[n](was.value), k) {
          if IdxKey(base, o, part[o](now.value), k) == IdxKey(base, n, idx[n](was.value), k) {
            assert part[o] == idx[o];
            IdxKeyInjective(base, o, part[o](now.value), k, n, idx[n](was.value), k);
          }
        }
      }
    }
    MovedNext(m, EntryKeys(base, part, k, was), EntryKeys(base, part, k, now),
              OneKey(base, n, idx[n], k, was), OneKey(base, n, idx[n], k, now));
  }

  lemma EntryKeysNext<V>(base: string, idx: Indexes<V>, done: set<string>, n: string, k: string, v: Option<V>)
    requires n in idx && done <= idx.Keys
    ensures EntryKeys(base, Handled(idx, done + {n}), k, v) ==
            EntryKeys(base, Handled(idx, done), k, v) + OneKey(base, n, idx[n], k, v)
  {
    var part, more := Handled(idx, done), Handled(idx, done + {n});
    if v.Some? {
      forall e ensures e in EntryKeys(base, more, k, v) <==>
                       e in EntryKeys(base, part, k, v) || e == IdxKey(base, n, idx[n](v.value), k) {
        if e in EntryKeys(base, part, k, v) {
          var o :| o in part && e == IdxKey(base, o, part[o](v.value), k);
          assert o in more && e == IdxKey(base, o, more[o](v.value), k);
        }
        assert n in more && more[n] == idx[n];
      }
    }
  }

  /** Live entries carry a value of the kind their name space holds. */
  ghost predicate WellTyped<V>(d: Data<Item<V>>, base: string) {
    forall k :: k in d && !d[k].deleted ==> d[k].value.Some? && Fits(base, k, d[k].value.value)
  }

  ghost predicate Fits<V>(base: string, key: string, item: Item<V>) {
    && (forall x :: key == ValKey(base, x) ==> item.Val?)
    && (forall x :: key == ExpKey(base, x) ==> item.Exp?)
  }

  lemma ItemsFit<V>(base: string, key: string, v: V, at: real)
    ensures Fits(base, ValKey(base, key), Val(v)) && Fits(base, ExpKey(base, key), Item<V>.Exp(at))
  {
    forall x ensures ValKey(base, key) != ExpKey(base, x) && ExpKey(base, key) != ValKey(base, x) {
      SpacesApart(base, key, x, "");
      SpacesApart(base, x, key, "");
    }
  }

  lemma MarkFits<V>(base: string, name: string, ik: string, key: string)
    ensures Fits(base, IdxKey(base, name, ik, key), Item<V>.Mark)
  {
    forall x ensures IdxKey(base, name, ik, key) != ValKey(base, x) && IdxKey(base, name, ik, key) != ExpKey(base, x) {
      IdxKeyApart(base, name, ik, key, x);
    }
  }

  ghost function PairKeys<V>(base: string, name: string, f: V -> string, pairs: seq<(string, V)>): set<string> {
    set j | 0 <= j < |pairs| :: IdxKey(base, name, f(pairs[j].1), pairs[j].0)
  }

  lemma PairKeysNext<V>(m: Items<V>, base: string, name: string, f: V -> string, pairs: seq<(string, V)>, i: nat)
    requires i < |pairs|
    ensures Moved(m, {}, PairKeys(base, name, f, pairs[..i]))[IdxKey(base, name, f(pairs[i].1), pairs[i].0) := Mark] ==
            Moved(m, {}, PairKeys(base, name, f, pairs[..i + 1]))
  {
    var e, p, q := IdxKey(base, name, f(pairs[i].1), pairs[i].0), pairs[..i], pairs[..i + 1];
    assert forall j :: 0 <= j < i ==> p[j] == q[j];
    assert q[i] == pairs[i];
    assert PairKeys(base, name, f, q) == PairKeys(base, name, f, p) + {e};
    MovedAdd(m, PairKeys(base, name, f, p), e);
  }

  lemma MovedAdd<V>(m: Items<V>, added: set<string>, e: string)
    ensures Moved(m, {}, added)[e := Mark] == Moved(m, {}, added + {e})
  {
  }

  lemma PairKeysAreBackfill<V>(m: Items<V>, base: string, name: string, f: V -> string, now: real, pairs: seq<(string, V)>)
    requires forall k, v :: (k, v) in pairs <==> Scanned(m, base, k, v, now) && HasPrefix(k, "")
    ensures PairKeys(base, name, f, pairs) == BackfillKeys(m, base, name, f, now)
    ensures Moved(m, {}, PairKeys(base, name, f, pairs[..0])) == m
    ensures Moved(m, {}, PairKeys(base, name, f, pairs)) == Backfill(m, base, name, f, now)
  {
    forall e ensures e in PairKeys(base, name, f, pairs) <==> e in BackfillKeys(m, base, name, f, now) {
      BackfillKeysLookup(m, base, name, f, now, e);
      if k, v :| Scanned(m, base, k, v, now) && e == IdxKey(base, name, f(v), k) {
        assert (k, v) in pairs;
        var j :| 0 <= j < |pairs| && pairs[j] == (k, v);
      }
      if e in PairKeys(base, name, f, pairs) {
        var j :| 0 <= j < |pairs| && e == IdxKey(base, name, f(pairs[j].1), pairs[j].0);
        assert pairs[j] in pairs && pairs[j] == (pairs[j].0, pairs[j].1);
      }
    }
    assert m - {} == m;
  }

  class Database<V(!new)> {
    const store: DistributedStore<Item<V>>
    const base: string
    var indexes: Indexes<V>

    constructor (store: DistributedStore<Item<V>>, base: string)
      ensures this.store == store && this.base == base && indexes == map[]
    {
      this.store, this.base := store, base;
      indexes := map[];
    }

    ghost function Content(): Items<V>
      reads store
    {
      Live(store.data)
    }

    ghost predicate Typed()
      reads store
    {
      WellTyped(store.data, base)
    }

    method SetItem(key: string, item: Item<V>, now: real)
      requires Typed() && Fits(base, key, item)
      modifies store
      ensures Content() == old(Content())[key := item]
      ensures Typed()
    {
      var _ := store.Set(key, Some(item), now);
    }

    method DropItem(key: string, now: real)
      requires Typed()
      modifies store
      ensures Content() == old(Content()) - {key}
      ensures Typed()
    {
      var _ := store.Delete(key, now);
    }

    method ReadValue(key: string) returns (v: Option<V>)
      requires Typed()
      ensures v == ValueAt(Content(), base, key)
    {
      var k := base + "/" + key;
      if k in store.data && !store.data[k].deleted {
        assert ValKey(base, key) in Content();
        return Some(store.data[k].value.value.v);
      }
      return None;
    }

    method IsExpired(key: string, now: real) returns (b: bool)
      requires Typed()
      ensures b == Expired(Content(), base, key, now)
    {
      var k := base + ".exp/" + key;
      if k in store.data && !store.data[k].deleted {
        assert ExpKey(base, key) in Content();
        return now >= store.data[k].value.value.at;
      }
      return false;
    }

    method Reindex(key: string, was: Option<V>, becomes: Option<V>, now: real)
      requires Typed() && SlashFreeIndexes(indexes)
      modifies store
      ensures Content() == Reindexed(old(Content()), base, indexes, key, was, becomes)
      ensures Typed()
    {
      ghost var before := Content();
      var todo := indexes.Keys;
      ghost var done: set<string> := {};
      NothingReindexed(before, base, indexes, key, was, becomes);
      while todo != {}
        invariant todo !! done && todo + done == indexes.Keys
        invariant Typed()
        invariant Content() == Reindexed(before, base, Handled(indexes, done), key, was, becomes)
      {
        var name :| name in todo;
        ReindexNext(before, base, indexes, done, name, key, was, becomes);
        MoveEntry(name, key, was, becomes, now);
        todo, done := todo - {name}, done + {name};
      }
      assert Handled(indexes, done) == indexes;
    }

    method MoveEntry(name: string, key: string, was: Option<V>, becomes: Option<V>, now: real)
      requires Typed() && name in indexes
      modifies store
      ensures Content() == Moved(old(Content()), OneKey(base, name, indexes[name], key, was),
                                 OneKey(base, name, indexes[name], key, becomes))
      ensures Typed()
    {
      MovedByOne(Content(), OneKey(base, name, indexes[name], key, was), OneKey(base, name, indexes[name], key, becomes));
      if was.Some? {
        DropItem(IdxKey(base, name, indexes[name](was.value), key), now);
      }
      if becomes.Some? {
        AddIndexEntry(name, indexes[name](becomes.value), key, now);
      }
    }

    method AddIndexEntry(name: string, ik: string, key: string, now: real)
      requires Typed()
      modifies store
      ensures Content() == old(Content())[IdxKey(base, name, ik, key) := Mark]
      ensures Typed()
    {
      MarkFits<V>(base, name, ik, key);
      SetItem(IdxKey(base, name, ik, key), Mark, now);
    }

    // ---- Local operations --------------------------------------------------------------

    /** The own part of `quorum_put`: unlike a put it never clears an expiry. */
    method QuorumWrite(key: string, value: V, ttl: Option<real>, now: real)
      requires Typed() && SlashFreeIndexes(indexes)
      modifies store
      ensures Content() == QuorumPut(old(Content()), base, indexes, key, value, ttl, now)
      ensures Typed()
    {
      var was := ReadValue(key);
      Reindex(key, was, Some(value), now);
      ItemsFit(base, key, value, if ttl.Some? then now + ttl.value else now);
      SetItem(base + "/" + key, Val(value), now);
      if ttl.Some? {
        SetItem(base + ".exp/" + key, Exp(now + ttl.value), now);
      }
    }

    /** Read repair: the entry chosen is merged into the own replica, and no index moves. */
    method FoldBest(key: string, best: Entry<Item<V>>)
      requires Typed() && (!best.deleted ==> best.value.Some? && best.value.value.Val?)
      modifies store
      ensures Content() == if Wins(old(store.data), ValKey(base, key), best)
                           then Folded(old(Content()), base, key, if best.deleted then None else Some(best.value.value.v))
                           else old(Content())
      ensures Typed()
    {
      if !best.deleted { ItemsFit(base, key, best.value.value.v, 0.0); }
      var _ := store.MergeOne(base + "/" + key, best);
    }

    method PutValue(key: string, value: V, ttl: Option<real>, now: real)
      requires Typed() && SlashFreeIndexes(indexes)
      modifies store
      ensures Content() == Put(old(Content()), base, indexes, key, value, ttl, now)
      ensures Typed()
    {
      var was := ReadValue(key);
      Reindex(key, was, Some(value), now);
      ItemsFit(base, key, value, if ttl.Some? then now + ttl.value else now);
      SetItem(base + "/" + key, Val(value), now);
      if ttl.Some? {
        SetItem(base + ".exp/" + key, Exp(now + ttl.value), now);
      } else if base + ".exp/" + key in store.data && !store.data[base + ".exp/" + key].deleted {
        DropItem(base + ".exp/" + key, now);
      }
    }

    method DeleteKey(key: string, now: real)
      requires Typed() && SlashFreeIndexes(indexes)
      modifies store
      ensures Content() == Delete(old(Content()), base, indexes, key)
      ensures Typed()
    {
      var was := ReadValue(key);
      Reindex(key, was, None, now);
      DropItem(base + "/" + key, now);
      if base + ".exp/" + key in store.data && !store.data[base + ".exp/" + key].deleted {
        DropItem(base + ".exp/" + key, now);
      }
    }

    /** Lazy expiry: an expired key is deleted on access. */
    method GetValue(key: string, now: real) returns (v: Option<V>)
      requires Typed() && SlashFreeIndexes(indexes)
      modifies store
      ensures Content() == Touched(old(Content()), base, indexes, key, now)
      ensures v == if Expired(old(Content()), base, key, now) then None else ValueAt(old(Content()), base, key)
      ensures Typed()
    {
      var gone := IsExpired(key, now);
      if gone {
        DeleteKey(key, now);
        return None;
      }
      v := ReadValue(key);
    }

    /** The unexpired keys under `prefix` with their values, in key order. */
    method Scan(prefix: string, now: real) returns (out: seq<(string, V)>)
      requires Typed()
      ensures forall i, j :: 0 <= i < j < |out| ==> Less(out[i].0, out[j].0)
      ensures forall k, v :: (k, v) in out <==> Scanned(Content(), base, k, v, now) && HasPrefix(k, prefix)
    {
      var found: set<string> := {};
      var todo := store.data.Keys;
      while todo != {}
        invariant todo <= store.data.Keys
        invariant forall k :: k in found <==>
                    ValKey(base, k) in store.data.Keys - todo && HasPrefix(k, prefix) &&
                    ValueAt(Content(), base, k).Some? && !Expired(Content(), base, k, now)
      {
        var e :| e in todo;
        ghost var seen := found;
        if !store.data[e].deleted && HasPrefix(e, base + "/") {
          var short := e[|base + "/"|..];
          PrefixSplits(e, base + "/");
          var gone := IsExpired(short, now);
          if HasPrefix(short, prefix) && !gone {
            found := found + {short};
          }
        }
        ScanStep(e, todo, prefix, now, seen, found);
        todo := todo - {e};
      }
      var keys := Sorted(found);
      out := [];
      for i := 0 to |keys|
        invariant |out| == i
        invariant forall j :: 0 <= j < i ==> out[j].0 == keys[j] && ValueAt(Content(), base, keys[j]) == Some(out[j].1)
      {
        assert keys[i] in found;
        var v := ReadValue(keys[i]);
        out := out + [(keys[i], v.value)];
      }
      forall k, v ensures (k, v) in out <==> Scanned(Content(), base, k, v, now) && HasPrefix(k, prefix) {
        if Scanned(Content(), base, k, v, now) && HasPrefix(k, prefix) {
          assert k in found;
          var j :| 0 <= j < |keys| && keys[j] == k;
          assert out[j] == (k, v);
        }
        if (k, v) in out {
          var j :| 0 <= j < |out| && out[j] == (k, v);
          assert keys[j] in found;
        }
      }
    }

    lemma ScanStep(e: string, todo: set<string>, prefix: string, now: real, seen: set<string>, found: set<string>)
      requires Typed() && e in todo && todo <= store.data.Keys
      requires forall k :: k in seen <==>
                 ValKey(base, k) in store.data.Keys - todo && HasPrefix(k, prefix) &&
                 ValueAt(Content(), base, k).Some? && !Expired(Content(), base, k, now)
      requires found == seen +
                 if !store.data[e].deleted && HasPrefix(e, base + "/") && HasPrefix(e[|base + "/"|..], prefix)
                    && !Expired(Content(), base, e[|base + "/"|..], now)
                 then {e[|base + "/"|..]} else {}
      ensures forall k :: k in found <==>
                 ValKey(base, k) in store.data.Keys - (todo - {e}) && HasPrefix(k, prefix) &&
                 ValueAt(Content(), base, k).Some? && !Expired(Content(), base, k, now)
    {
      forall k ensures k in found <==>
                 ValKey(base, k) in store.data.Keys - (todo - {e}) && HasPrefix(k, prefix) &&
                 ValueAt(Content(), base, k).Some? && !Expired(Content(), base, k, now)
      {
        PrefixOfConcat(base + "/", k);
        if HasPrefix(e, base + "/") { PrefixSplits(e, base + "/"); }
        if ValKey(base, k) == e {
          assert HasPrefix(e, base + "/") && e[|base + "/"|..] == k;
          if !store.data[e].deleted { assert ValKey(base, k) in Content(); }
        }
      }
    }

    method ListOfExpired(now: real) returns (list: seq<string>)
      requires Typed()
      ensures ListsExpired(Content(), base, list, now)
    {
      list := [];
      var todo := store.data.Keys;
      while todo != {}
        invariant todo <= store.data.Keys && NoRepeats(list)
        invariant forall k :: k in list <==>
                    ValKey(base, k) in store.data.Keys - todo &&
                    ValueAt(Content(), base, k).Some? && Expired(Content(), base, k, now)
      {
        var e :| e in todo;
        ghost var seen := list;
        if !store.data[e].deleted && HasPrefix(e, base + "/") {
          PrefixSplits(e, base + "/");
          var gone := IsExpired(e[|base + "/"|..], now);
          if gone {
            list := list + [e[|base + "/"|..]];
          }
        }
        SweepStep(e, todo, now, seen, list);
        todo := todo - {e};
      }
    }

    /** Deletes every expired key, in dictionary order. */
    method SweepExpired(now: real) returns (count: nat, ghost expired: seq<string>)
      requires Typed() && SlashFreeIndexes(indexes)
      modifies store
      ensures ListsExpired(old(Content()), base, expired, now) && count == |expired|
      ensures Content() == DeleteAll(old(Content()), base, indexes, expired)
      ensures Typed()
    {
      var list := ListOfExpired(now);
      expired, count := list, |list|;
      ghost var before := Content();
      while list != []
        invariant Typed()
        invariant DeleteAll(Content(), base, indexes, list) == DeleteAll(before, base, indexes, expired)
      {
        DeleteKey(list[0], now);
        list := list[1..];
      }
    }

    lemma SweepStep(e: string, todo: set<string>, now: real, seen: seq<string>, list: seq<string>)
      requires Typed() && e in todo && todo <= store.data.Keys && NoRepeats(seen)
      requires forall k :: k in seen <==>
                 ValKey(base, k) in store.data.Keys - todo &&
                 ValueAt(Content(), base, k).Some? && Expired(Content(), base, k, now)
      requires list == seen +
                 if !store.data[e].deleted && HasPrefix(e, base + "/") && Expired(Content(), base, e[|base + "/"|..], now)
                 then [e[|base + "/"|..]] else []
      ensures NoRepeats(list)
      ensures forall k :: k in list <==>
                 ValKey(base, k) in store.data.Keys - (todo - {e}) &&
                 ValueAt(Content(), base, k).Some? && Expired(Content(), base, k, now)
    {
      if HasPrefix(e, base + "/") {
        PrefixSplits(e, base + "/");
        assert e[|base + "/"|..] !in seen;
      }
      forall k ensures k in list <==>
                 ValKey(base, k) in store.data.Keys - (todo - {e}) &&
                 ValueAt(Content(), base, k).Some? && Expired(Content(), base, k, now)
      {
        PrefixOfConcat(base + "/", k);
        if HasPrefix(e, base + "/") { PrefixSplits(e, base + "/"); }
        if ValKey(base, k) == e {
          assert HasPrefix(e, base + "/") && e[|base + "/"|..] == k;
          if !store.data[e].deleted { assert ValKey(base, k) in Content(); }
        }
      }
    }

    // ---- Secondary indexes -------------------------------------------------------------

    method CreateIndex(name: string, extractor: V -> string, now: real)
      requires Typed()
      modifies this`indexes, store
      ensures indexes == old(indexes)[name := extractor]
      ensures Content() == Backfill(old(Content()), base, name, extractor, now)
      ensures Typed()
    {
      indexes := indexes[name := extractor];
      ghost var before := Content();
      var found := Scan("", now);
      PairKeysAreBackfill(before, base, name, extractor, now, found);
      for i := 0 to |found|
        invariant Typed() && indexes == old(indexes)[name := extractor]
        invariant Content() == Moved(before, {}, PairKeys(base, name, extractor, found[..i]))
      {
        PairKeysNext(before, base, name, extractor, found, i);
        AddIndexEntry(name, extractor(found[i].1), found[i].0, now);
      }
      assert found[..|found|] == found;
    }

    /** The unexpired keys filed under `ik`, in order. */
    method QueryIndex(name: string, ik: string, now: real) returns (out: seq<string>)
      requires Typed()
      ensures Ascending(out) && forall k :: k in out <==> Queried(Content(), base, name, ik, k, now)
    {
      var found: set<string> := {};
      var prefix := base + ".idx/" + name + "/" + ik + "/";
      var todo := store.data.Keys;
      while todo != {}
        invariant todo <= store.data.Keys
        invariant forall k :: k in found <==>
                    IdxKey(base, name, ik, k) in store.data.Keys - todo && Queried(Content(), base, name, ik, k, now)
      {
        var e :| e in todo;
        if !store.data[e].deleted && HasPrefix(e, prefix) {
          var rec := e[|prefix|..];
          PrefixSplits(e, prefix);
          assert e == IdxKey(base, name, ik, rec);
          var gone := IsExpired(rec, now);
          if !gone {
            found := found + {rec};
          }
        }
        forall k | IdxKey(base, name, ik, k) == e ensures HasPrefix(e, prefix) && e[|prefix|..] == k {
          PrefixOfConcat(prefix, k);
        }
        todo := todo - {e};
      }
      forall k | Queried(Content(), base, name, ik, k, now) ensures k in found {
        assert IdxKey(base, name, ik, k) in store.data.Keys;
      }
      out := Sorted(found);
    }
  }
}
