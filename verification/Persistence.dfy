/** Write-ahead log and snapshots for one store. The disk is a snapshot file that is replaced
    atomically and a log of lines; a crash may leave the last line half written. */
module Persistence {
  import opened Store

  datatype Commit<V> = Commit(key: string, entry: Entry<V>)

  /** A line of the log: a whole record, a record cut short by a crash, or white space. */
  datatype Line<V> = Record(commit: Commit<V>) | Torn | Blank

  datatype Disk<V> = Disk(snap: Option<Data<V>>, wal: seq<Line<V>>)

  /** Replay of a log: merges record after record and stops at the first torn line. */
  function Replay<V>(d: Data<V>, wal: seq<Line<V>>): Data<V>
    decreases |wal|
  {
    if wal == [] || wal[0].Torn? then d
    else if wal[0].Blank? then Replay(d, wal[1..])
    else Replay(MergeEntry(d, wal[0].commit.key, wal[0].commit.entry), wal[1..])
  }

  function Replayed<V>(wal: seq<Line<V>>): nat {
    if wal == [] || wal[0].Torn? then 0
    else (if wal[0].Blank? then 0 else 1) + Replayed(wal[1..])
  }

  /** What stands behind a torn line is neither replayed nor counted. */
  lemma {:induction false} TornHidesRest<V>(d: Data<V>, a: seq<Line<V>>, b: seq<Line<V>>)
    ensures Replay(d, a + [Torn] + b) == Replay(d, a) && Replayed(a + [Torn] + b) == Replayed(a)
    decreases |a|
  {
    if a != [] {
      assert (a + [Torn] + b)[1..] == a[1..] + [Torn] + b;
      TornHidesRest(if a[0].Record? then MergeEntry(d, a[0].commit.key, a[0].commit.entry) else d, a[1..], b);
    }
  }

  /** Blank lines are skipped, and each whole record is counted once. */
  lemma {:induction false} BlanksSkipped<V>(d: Data<V>, wal: seq<Line<V>>)
    requires forall i :: 0 <= i < |wal| ==> !wal[i].Torn?
    ensures Replay(d, wal) == Replay(d, Records(wal)) && Replayed(wal) == |Records(wal)|
    decreases |wal|
  {
    if wal != [] {
      assert forall i :: 0 <= i < |wal[1..]| ==> wal[1..][i] == wal[i + 1];
      if wal[0].Record? {
        BlanksSkipped(MergeEntry(d, wal[0].commit.key, wal[0].commit.entry), wal[1..]);
        assert Records(wal)[1..] == Records(wal[1..]);
      } else {
        assert Records(wal) == Records(wal[1..]);
        BlanksSkipped(d, wal[1..]);
      }
    }
  }

  function Records<V>(wal: seq<Line<V>>): seq<Line<V>> {
    if wal == [] then [] else (if wal[0].Record? then [wal[0]] else []) + Records(wal[1..])
  }

  function SnapshotData<V>(snap: Option<Data<V>>): Data<V> {
    if snap.Some? then snap.value else map[]
  }

  /** What a node that starts empty finds on `disk`. */
  function Recovered<V>(disk: Disk<V>): Data<V> {
    Replay(SnapshotData(disk.snap), disk.wal)
  }

  // ---- The manager object ----------------------------------------------------------------

  class PersistenceManager<V> {
    const store: DistributedStore<V>
    const snapshotEvery: int
    var snap: Option<Data<V>>
    var wal: seq<Line<V>>
    var sinceSnapshot: int

    constructor (store: DistributedStore<V>, snap: Option<Data<V>>, wal: seq<Line<V>>, snapshotEvery: int)
      ensures this.store == store && this.snapshotEvery == snapshotEvery
      ensures this.snap == snap && this.wal == wal && sinceSnapshot == 0
    {
      this.store, this.snapshotEvery := store, snapshotEvery;
      this.snap, this.wal, sinceSnapshot := snap, wal, 0;
    }

    /** Loads the snapshot, then replays the log on top. */
    method Recover() returns (count: nat)
      modifies store
      ensures store.data == Replay(Join(old(store.data), SnapshotData(snap)), wal)
      ensures count == |SnapshotData(snap)| + Replayed(wal)
    {
      count := 0;
      JoinWithAll(store.data, map[]);
      if snap.Some? {
        var _ := store.ApplyDigest(snap.value);
        count := |snap.value|;
      }
      ghost var base, size := store.data, count;
      var i := 0;
      while i < |wal|
        invariant i <= |wal|
        invariant Replay(store.data, wal[i..]) == Replay(base, wal)
        invariant count + Replayed(wal[i..]) == size + Replayed(wal)
      {
        assert wal[i..][0] == wal[i] && wal[i..][1..] == wal[i + 1..];
        if wal[i].Torn? {
          break;
        }
        if wal[i].Record? {
          var _ := store.MergeOne(wal[i].commit.key, wal[i].commit.entry);
          count := count + 1;
        }
        i := i + 1;
      }
    }

    method Snapshot()
      modifies this
      ensures snap == Some(store.data) && wal == [] && sinceSnapshot == 0
    {
      snap := Some(store.data);
      wal := [];
      sinceSnapshot := 0;
    }

    /** Called by the store after every local write and every merge that won. */
    method OnCommit(key: string, entry: Entry<V>)
      modifies this
      ensures if old(sinceSnapshot) + 1 >= snapshotEvery
              then snap == Some(store.data) && wal == [] && sinceSnapshot == 0
              else snap == old(snap) && wal == old(wal) + [Record(Commit(key, entry))]
                   && sinceSnapshot == old(sinceSnapshot) + 1
    {
      wal := wal + [Record(Commit(key, entry))];
      sinceSnapshot := sinceSnapshot + 1;
      if sinceSnapshot >= snapshotEvery {
        Snapshot();
      }
    }
  }

  // ---- Runs with a crash at any point ----------------------------------------------------

  /** Where the manager is between two atomic effects on the disk. */
  datatype Phase<V> = Idle | Appending(commit: Commit<V>) | Replacing | Truncating

  /** `mem` is the live store; `logged` lists the commits whose record is completely on disk. */
  datatype State<V> = State(mem: Data<V>, disk: Disk<V>, phase: Phase<V>, since: int, logged: seq<Commit<V>>)

  datatype Event<V> = Write(commit: Commit<V>) | Append | SnapshotNow | Replace | Truncate

  ghost function Init<V>(): State<V> {
    State(map[], Disk(None, []), Idle, 0, [])
  }

  /** One atomic effect; events that do not fit the phase change nothing. */
  ghost function Step<V>(s: State<V>, e: Event<V>, every: int): State<V> {
    match e
    case Write(c) =>
      if s.phase.Idle? then s.(mem := s.mem[c.key := c.entry], phase := Appending(c)) else s
    case Append =>
      if s.phase.Appending? then
        State(s.mem, s.disk.(wal := s.disk.wal + [Record(s.phase.commit)]),
              if s.since + 1 >= every then Replacing else Idle, s.since + 1, s.logged + [s.phase.commit])
      else s
    case SnapshotNow => if s.phase.Idle? then s.(phase := Replacing) else s
    case Replace => if s.phase.Replacing? then s.(disk := s.disk.(snap := Some(s.mem)), phase := Truncating) else s
    case Truncate => if s.phase.Truncating? then s.(disk := s.disk.(wal := []), since := 0, phase := Idle) else s
  }

  ghost function Run<V>(s: State<V>, events: seq<Event<V>>, every: int): State<V>
    decreases |events|
  {
    if events == [] then s else Run(Step(s, events[0], every), events[1..], every)
  }

  /** How far a record being appended got when the node went down. */
  datatype Tear = Nothing | Partly | Whole

  ghost function AfterCrash<V>(s: State<V>, tear: Tear): Disk<V> {
    if !s.phase.Appending? || tear.Nothing? then s.disk
    else s.disk.(wal := s.disk.wal + [if tear.Partly? then Torn else Record(s.phase.commit)])
  }

  /** The last-writer-wins join of a list of commits. */
  ghost function Lww<V>(cs: seq<Commit<V>>): Data<V> {
    if cs == [] then map[]
    else MergeEntry(Lww(cs[..|cs| - 1]), cs[|cs| - 1].key, cs[|cs| - 1].entry)
  }

  /** The commits a crash leaves completely on disk over the whole run. */
  ghost function Durable<V>(s: State<V>, tear: Tear): seq<Commit<V>> {
    if s.phase.Appending? && tear.Whole? then s.logged + [s.phase.commit] else s.logged
  }

  /** What a local write has to do to keep the live store a join: stamp above what it
      replaces. Merged entries do so by definition. */
  ghost predicate StampsAbove<V>(s: State<V>, e: Event<V>) {
    e.Write? && s.phase.Idle? ==> Wins(s.mem, e.commit.key, e.commit.entry)
  }

  ghost predicate Ascending<V>(s: State<V>, events: seq<Event<V>>, every: int)
    decreases |events|
  {
    events == [] || (StampsAbove(s, events[0]) && Ascending(Step(s, events[0], every), events[1..], every))
  }

  // ---- Replaying and joining -------------------------------------------------------------

  /** A log without torn or blank lines, the only kind a running manager writes. */
  ghost predicate Whole<V>(wal: seq<Line<V>>) {
    forall i :: 0 <= i < |wal| ==> wal[i].Record?
  }

  lemma {:induction false} ReplayAppend<V>(d: Data<V>, wal: seq<Line<V>>, l: Line<V>)
    requires Whole(wal)
    ensures Replay(d, wal + [l]) == Replay(Replay(d, wal), [l])
    decreases |wal|
  {
    if wal == [] {
      assert wal + [l] == [l];
    } else {
      assert (wal + [l])[0] == wal[0] && (wal + [l])[1..] == wal[1..] + [l];
      ReplayAppend(MergeEntry(d, wal[0].commit.key, wal[0].commit.entry), wal[1..], l);
    }
  }

  lemma ReplayOne<V>(d: Data<V>, l: Line<V>)
    ensures Replay(d, [l]) == if l.Record? then MergeEntry(d, l.commit.key, l.commit.entry) else d
  {
    assert [l][1..] == [];
  }

  /** `d` already has everything the log says. */
  ghost predicate Absorbs<V>(d: Data<V>, wal: seq<Line<V>>) {
    forall i :: 0 <= i < |wal| && wal[i].Record? ==> !Wins(d, wal[i].commit.key, wal[i].commit.entry)
  }

  lemma {:induction false} ReplayAbsorbed<V>(d: Data<V>, wal: seq<Line<V>>)
    requires Absorbs(d, wal)
    ensures Replay(d, wal) == d
    decreases |wal|
  {
    if wal != [] && !wal[0].Torn? {
      assert forall i :: 0 <= i < |wal[1..]| ==> wal[1..][i] == wal[i + 1];
      ReplayAbsorbed(d, wal[1..]);
    }
  }

  lemma AbsorbsNext<V>(d: Data<V>, wal: seq<Line<V>>, c: Commit<V>)
    requires Absorbs(d, wal)
    ensures Absorbs(MergeEntry(d, c.key, c.entry), wal + [Record(c)])
  {
    VersionOrder();
  }

  lemma LwwAppend<V>(cs: seq<Commit<V>>, c: Commit<V>)
    ensures Lww(cs + [c]) == MergeEntry(Lww(cs), c.key, c.entry)
  {
    assert (cs + [c])[..|cs|] == cs;
  }

  /** Live store, disk and history agree at every point of an ascending run. */
  ghost predicate Synced<V>(s: State<V>) {
    && Whole(s.disk.wal)
    && Recovered(s.disk) == Lww(s.logged)
    && Absorbs(Lww(s.logged), s.disk.wal)
    && s.mem == (if s.phase.Appending? then Lww(s.logged + [s.phase.commit]) else Lww(s.logged))
    && (s.phase.Truncating? ==> s.disk.snap == Some(s.mem))
  }

  lemma StepSynced<V>(s: State<V>, e: Event<V>, every: int)
    requires Synced(s) && StampsAbove(s, e)
    ensures Synced(Step(s, e, every))
  {
    match e
    case Write(c) =>
      if s.phase.Idle? { LwwAppend(s.logged, c); }
    case Append =>
      if s.phase.Appending? {
        var c := s.phase.commit;
        LwwAppend(s.logged, c);
        ReplayAppend(SnapshotData(s.disk.snap), s.disk.wal, Record(c));
        ReplayOne(Recovered(s.disk), Record(c));
        AbsorbsNext(Lww(s.logged), s.disk.wal, c);
      }
    case SnapshotNow =>
    case Replace =>
      if s.phase.Replacing? { ReplayAbsorbed(s.mem, s.disk.wal); }
    case Truncate =>
  }

  lemma {:induction false} RunSynced<V>(s: State<V>, events: seq<Event<V>>, every: int)
    requires Synced(s) && Ascending(s, events, every)
    ensures Synced(Run(s, events, every))
    decreases |events|
  {
    if events != [] {
      StepSynced(s, events[0], every);
      RunSynced(Step(s, events[0], every), events[1..], every);
    }
  }

  lemma CrashLine<V>(s: State<V>, tear: Tear)
    requires Whole(s.disk.wal)
    ensures Recovered(AfterCrash(s, tear)) ==
            if s.phase.Appending? && tear.Whole?
            then MergeEntry(Recovered(s.disk), s.phase.commit.key, s.phase.commit.entry)
            else Recovered(s.disk)
  {
    if s.phase.Appending? && !tear.Nothing? {
      var l := if tear.Partly? then Torn else Record(s.phase.commit);
      ReplayAppend(SnapshotData(s.disk.snap), s.disk.wal, l);
      ReplayOne(Recovered(s.disk), l);
    }
  }

  /** For every run of commits and snapshots in which each local write stamps above the entry it
      replaces, and a crash at any point of it, recovery yields the join of all completely logged
      commits: the live store, short of a commit whose record did not make it to disk. */
  lemma RecoveryIsLwwJoin<V>(events: seq<Event<V>>, every: int, tear: Tear)
    requires Ascending(Init<V>(), events, every)
    ensures var s := Run(Init<V>(), events, every);
            && Recovered(AfterCrash(s, tear)) == Lww(Durable(s, tear))
            && (!(s.phase.Appending? && !tear.Whole?) ==> Recovered(AfterCrash(s, tear)) == s.mem)
  {
    var s := Run(Init<V>(), events, every);
    RunSynced(Init<V>(), events, every);
    CrashLine(s, tear);
    if s.phase.Appending? { LwwAppend(s.logged, s.phase.commit); }
  }

  // ---- Without the assumption on local writes --------------------------------------------

  ghost predicate NoSnapshot<V>(events: seq<Event<V>>) {
    forall i :: 0 <= i < |events| ==> !events[i].Replace?
  }

  ghost predicate LogOnly<V>(s: State<V>) {
    && s.disk.snap == None && Whole(s.disk.wal) && !s.phase.Truncating?
    && Recovered(s.disk) == Lww(s.logged)
  }

  lemma StepLogOnly<V>(s: State<V>, e: Event<V>, every: int)
    requires LogOnly(s) && !e.Replace?
    ensures LogOnly(Step(s, e, every))
  {
    if e.Append? && s.phase.Appending? {
      var c := s.phase.commit;
      LwwAppend(s.logged, c);
      ReplayAppend(SnapshotData(s.disk.snap), s.disk.wal, Record(c));
      ReplayOne(Recovered(s.disk), Record(c));
    }
  }

  lemma {:induction false} RunLogOnly<V>(s: State<V>, events: seq<Event<V>>, every: int)
    requires LogOnly(s) && NoSnapshot(events)
    ensures LogOnly(Run(s, events, every))
    decreases |events|
  {
    if events != [] {
      assert forall i :: 0 <= i < |events[1..]| ==> events[1..][i] == events[i + 1];
      StepLogOnly(s, events[0], every);
      RunLogOnly(Step(s, events[0], every), events[1..], every);
    }
  }

  /** As long as no snapshot has replaced the file, recovery yields the join of the logged
      commits whatever the local writes stamped. */
  lemma LogAloneIsLwwJoin<V>(events: seq<Event<V>>, every: int, tear: Tear)
    requires NoSnapshot(events)
    ensures var s := Run(Init<V>(), events, every);
            Recovered(AfterCrash(s, tear)) == Lww(Durable(s, tear))
  {
    var s := Run(Init<V>(), events, every);
    RunLogOnly(Init<V>(), events, every);
    CrashLine(s, tear);
    if s.phase.Appending? { LwwAppend(s.logged, s.phase.commit); }
  }

  /** A write, its record and a full snapshot after it. */
  ghost function WriteAndCompact<V>(c: Commit<V>): seq<Event<V>> {
    [Write(c)] + ([Append] + ([SnapshotNow] + ([Replace] + [Truncate])))
  }

  lemma WriteAndCompactState<V>(s: State<V>, c: Commit<V>, every: int)
    requires s.phase.Idle?
    ensures Run(s, WriteAndCompact(c), every) ==
            State(s.mem[c.key := c.entry], Disk(Some(s.mem[c.key := c.entry]), []), Idle, 0, s.logged + [c])
  {
    var s1 := Step(s, Write(c), every);
    var s2 := Step(s1, Append, every);
    var s3 := Step(s2, SnapshotNow, every);
    var s4 := Step(s3, Replace, every);
    var s5 := Step(s4, Truncate, every);
    RunFirst(s, Write(c), [Append] + ([SnapshotNow] + ([Replace] + [Truncate])), every);
    RunFirst(s1, Append, [SnapshotNow] + ([Replace] + [Truncate]), every);
    RunFirst(s2, SnapshotNow, [Replace] + [Truncate], every);
    RunFirst(s3, Replace, [Truncate], every);
    RunFirst(s4, Truncate, [], every);
    var last: seq<Event<V>> := [Truncate];
    assert last + [] == last;
    assert s5.logged == s.logged + [c];
  }

  lemma RunFirst<V>(s: State<V>, e: Event<V>, es: seq<Event<V>>, every: int)
    ensures Run(s, [e] + es, every) == Run(Step(s, e, every), es, every)
  {
    assert ([e] + es)[1..] == es;
  }

  /** `OnCommit` runs the machine from the append to the next idle state. */
  lemma OnCommitIsRun<V>(s: State<V>, every: int)
    requires s.phase.Appending?
    ensures var t := Run(s, [Append] + ([Replace] + [Truncate]), every);
            && t.phase.Idle? && t.mem == s.mem && t.logged == s.logged + [s.phase.commit]
            && (if s.since + 1 >= every
                then t.disk == Disk(Some(s.mem), []) && t.since == 0
                else t.disk == Disk(s.disk.snap, s.disk.wal + [Record(s.phase.commit)]) && t.since == s.since + 1)
  {
    var s1 := Step(s, Append, every);
    var s2 := Step(s1, Replace, every);
    RunFirst(s, Append, [Replace] + [Truncate], every);
    RunFirst(s1, Replace, [Truncate], every);
    RunFirst(s2, Truncate, [], every);
    var last: seq<Event<V>> := [Truncate];
    assert last + [] == last;
  }

  /** A snapshot makes a local write that stamps below the entry it replaces final: once the log
      is compacted, recovery is still the join of the logged commits if and only if the write won
      (or repeated the entry that was there). */
  lemma CompactedWriteIsLwwIff<V>(s: State<V>, c: Commit<V>, every: int)
    requires Synced(s) && s.phase.Idle?
    ensures var t := Run(s, WriteAndCompact(c), every);
            Recovered(t.disk) == Lww(t.logged) <==>
            Wins(s.mem, c.key, c.entry) || s.mem[c.key] == c.entry
  {
    WriteAndCompactState(s, c, every);
    LwwAppend(s.logged, c);
    var next := s.mem[c.key := c.entry];
    if !Wins(s.mem, c.key, c.entry) && next == s.mem { assert next[c.key] == c.entry; }
  }

  /** A concrete lagging write: a merged entry stamped 2, compacted, is overwritten locally at 1 and
      compacted again, and recovery does not bring it back. */
  lemma LaggingWriteLosesEntry(every: int)
    ensures var remote, local := Entry(Some(7), Version(2.0, "b"), false), Entry(Some(8), Version(1.0, "a"), false);
            var s := Run(Init<int>(), WriteAndCompact(Commit("k", remote)), every);
            var t := Run(s, WriteAndCompact(Commit("k", local)), every);
            Recovered(t.disk) == map["k" := local] && Lww(t.logged) == map["k" := remote]
  {
    var remote, local := Entry(Some(7), Version(2.0, "b"), false), Entry(Some(8), Version(1.0, "a"), false);
    WriteAndCompactState(Init<int>(), Commit("k", remote), every);
    var s := Run(Init<int>(), WriteAndCompact(Commit("k", remote)), every);
    WriteAndCompactState(s, Commit("k", local), every);
    LwwAppend([], Commit("k", remote));
    assert [] + [Commit("k", remote)] == [Commit("k", remote)];
    LwwAppend([Commit("k", remote)], Commit("k", local));
    assert Lww<int>([]) == map[];
  }

  // ---- Exactly when recovery is the join, over whole runs --------------------------------

  /** What a store holds after `cs`: for each key the last commit, newest or not. */
  ghost function Last<V>(cs: seq<Commit<V>>): Data<V> {
    if cs == [] then map[] else Last(cs[..|cs| - 1])[cs[|cs| - 1].key := cs[|cs| - 1].entry]
  }

  /** The first entry of version `v` in the log for `k`. */
  ghost function FirstOf<V>(wal: seq<Line<V>>, k: string, v: Version): Option<Entry<V>> {
    if wal == [] then None
    else if wal[0].Record? && wal[0].commit.key == k && wal[0].commit.entry.version == v then Some(wal[0].commit.entry)
    else FirstOf(wal[1..], k, v)
  }

  /** The newest commit for `k` is the last one, or is newer than it and still in the log. */
  ghost predicate NewestAtHand<V>(s: State<V>, k: string)
    requires k in Last(s.logged) && k in Lww(s.logged)
  {
    var last, newest := Last(s.logged)[k], Lww(s.logged)[k];
    last == newest || (Newer(newest.version, last.version) && FirstOf(s.disk.wal, k, newest.version) == Some(newest))
  }

  /** A snapshot may replace the file when every newest commit is at hand, and the log may go when
      every newest commit is the last one. */
  ghost predicate KeepsNewest<V>(s: State<V>, e: Event<V>)
    requires Last(s.logged).Keys == Lww(s.logged).Keys
  {
    && (e.Replace? && s.phase.Replacing? ==> forall k :: k in Lww(s.logged) ==> NewestAtHand(s, k))
    && (e.Truncate? && s.phase.Truncating? ==> forall k :: k in Lww(s.logged) ==> Last(s.logged)[k] == Lww(s.logged)[k])
  }

  ghost predicate AlwaysKeepsNewest<V>(s: State<V>, events: seq<Event<V>>, every: int)
    decreases |events|
  {
    SameKeys(s.logged);
    events == [] || (KeepsNewest(s, events[0]) && AlwaysKeepsNewest(Step(s, events[0], every), events[1..], every))
  }

  lemma {:induction false} SameKeys<V>(cs: seq<Commit<V>>)
    ensures Last(cs).Keys == Lww(cs).Keys
  {
    if cs != [] { SameKeys(cs[..|cs| - 1]); }
  }

  lemma LastAppend<V>(cs: seq<Commit<V>>, c: Commit<V>)
    ensures Last(cs + [c]) == Last(cs)[c.key := c.entry]
  {
    assert (cs + [c])[..|cs|] == cs;
  }

  /** Recovery yields the join of the durable commits, however far a crash let the last one get. */
  ghost predicate Recovers<V>(s: State<V>) {
    forall tear :: Recovered(AfterCrash(s, tear)) == Lww(Durable(s, tear))
  }

  /** What holds at every point of every run. */
  ghost predicate Kept<V>(s: State<V>) {
    && Whole(s.disk.wal) && Absorbs(Lww(s.logged), s.disk.wal)
    && s.mem == (if s.phase.Appending? then Last(s.logged + [s.phase.commit]) else Last(s.logged))
    && (s.phase.Truncating? ==> s.disk.snap == Some(s.mem))
  }

  lemma AppendKept<V>(s: State<V>, every: int)
    requires Kept(s) && s.phase.Appending?
    ensures Kept(Step(s, Event<V>.Append, every))
  {
    var c, t := s.phase.commit, Step(s, Event<V>.Append, every);
    LwwAppend(s.logged, c);
    AbsorbsNext(Lww(s.logged), s.disk.wal, c);
    assert t.logged == s.logged + [c] && t.disk.wal == s.disk.wal + [Record(c)];
    assert Absorbs(Lww(t.logged), t.disk.wal);
  }

  lemma WriteKept<V>(s: State<V>, c: Commit<V>, every: int)
    requires Kept(s) && s.phase.Idle?
    ensures Kept(Step(s, Event.Write(c), every))
  {
    LastAppend(s.logged, c);
  }

  lemma StepKept<V>(s: State<V>, e: Event<V>, every: int)
    requires Kept(s)
    ensures Kept(Step(s, e, every))
  {
    if e.Append? && s.phase.Appending? {
      AppendKept(s, every);
    } else if e.Write? && s.phase.Idle? {
      WriteKept(s, e.commit, every);
    } else {
      var t := Step(s, e, every);
      assert t.logged == s.logged && t.mem == s.mem && !t.phase.Appending? == !s.phase.Appending?;
      assert t.disk.wal == s.disk.wal || t.disk.wal == [];
    }
  }

  lemma RecoversIff<V>(s: State<V>)
    requires Kept(s)
    ensures Recovers(s) <==> Recovered(s.disk) == Lww(s.logged)
  {
    if Recovers(s) {
      assert Recovered(AfterCrash(s, Nothing)) == Lww(Durable(s, Nothing));
    }
    if Recovered(s.disk) == Lww(s.logged) {
      forall tear ensures Recovered(AfterCrash(s, tear)) == Lww(Durable(s, tear)) {
        CrashLine(s, tear);
        if s.phase.Appending? { LwwAppend(s.logged, s.phase.commit); }
      }
    }
  }

  /** No record for `k` is newer than `v`. */
  ghost predicate UpTo<V>(wal: seq<Line<V>>, k: string, v: Version) {
    forall i :: 0 <= i < |wal| && wal[i].Record? && wal[i].commit.key == k ==> !Newer(wal[i].commit.entry.version, v)
  }

  lemma {:induction false} ReplayAt<V>(d: Data<V>, wal: seq<Line<V>>, k: string, v: Version)
    requires Whole(wal) && UpTo(wal, k, v) && k in d && !Newer(d[k].version, v)
    ensures k in Replay(d, wal)
    ensures d[k].version == v ==> Replay(d, wal)[k] == d[k]
    ensures Newer(v, d[k].version) && FirstOf(wal, k, v).Some? ==> Replay(d, wal)[k] == FirstOf(wal, k, v).value
    ensures Newer(v, d[k].version) && FirstOf(wal, k, v).None? ==> Newer(v, Replay(d, wal)[k].version)
    decreases |wal|
  {
    if wal != [] {
      var c := wal[0].commit;
      VersionOrder();
      assert forall i :: 0 <= i < |wal[1..]| ==> wal[1..][i] == wal[i + 1];
      ReplayAt(MergeEntry(d, c.key, c.entry), wal[1..], k, v);
    }
  }

  lemma {:induction false} ReplayKeys<V>(d: Data<V>, wal: seq<Line<V>>)
    requires Whole(wal) && forall i :: 0 <= i < |wal| ==> wal[i].commit.key in d
    ensures Replay(d, wal).Keys == d.Keys
    decreases |wal|
  {
    if wal != [] {
      assert forall i :: 0 <= i < |wal[1..]| ==> wal[1..][i] == wal[i + 1];
      ReplayKeys(MergeEntry(d, wal[0].commit.key, wal[0].commit.entry), wal[1..]);
    }
  }

  /** No commit is newer than the join. */
  lemma {:induction false} LastNotNewer<V>(cs: seq<Commit<V>>, k: string)
    requires k in Last(cs)
    ensures k in Lww(cs) && !Newer(Last(cs)[k].version, Lww(cs)[k].version)
  {
    VersionOrder();
    var n := |cs| - 1;
    if k in Last(cs[..n]) { LastNotNewer(cs[..n], k); }
  }

  /** What replaying the log over the live store gives at one key. */
  lemma ReplacedAt<V>(s: State<V>, k: string)
    requires Kept(s) && s.phase.Replacing? && k in s.mem
    ensures k in Last(s.logged) && k in Lww(s.logged) && k in Replay(s.mem, s.disk.wal)
    ensures Replay(s.mem, s.disk.wal)[k] == Lww(s.logged)[k] <==> NewestAtHand(s, k)
  {
    LastNotNewer(s.logged, k);
    var newest := Lww(s.logged)[k];
    assert UpTo(s.disk.wal, k, newest.version);
    ReplayAt(s.mem, s.disk.wal, k, newest.version);
    VersionOrder();
  }

  lemma ReplaceRecoversIff<V>(s: State<V>)
    requires Kept(s) && s.phase.Replacing?
    ensures Replay(s.mem, s.disk.wal) == Lww(s.logged) <==>
            forall k :: k in Lww(s.logged) ==> k in Last(s.logged) && NewestAtHand(s, k)
  {
    SameKeys(s.logged);
    ReplayKeys(s.mem, s.disk.wal);
    var r, l := Replay(s.mem, s.disk.wal), Lww(s.logged);
    forall k | k in l ensures k in s.mem && (r[k] == l[k] <==> NewestAtHand(s, k)) { ReplacedAt(s, k); }
    assert r.Keys == l.Keys;
    if forall k :: k in l ==> NewestAtHand(s, k) {
      assert forall k :: k in l ==> r[k] == l[k];
      assert r == l;
    }
  }

  lemma StepRecoversIff<V>(s: State<V>, e: Event<V>, every: int)
    requires Kept(s) && Recovered(s.disk) == Lww(s.logged)
    ensures Last(s.logged).Keys == Lww(s.logged).Keys
    ensures var t := Step(s, e, every); Recovered(t.disk) == Lww(t.logged) <==> KeepsNewest(s, e)
  {
    SameKeys(s.logged);
    match e
    case Write(c) =>
    case Append =>
      if s.phase.Appending? {
        var c := s.phase.commit;
        LwwAppend(s.logged, c);
        ReplayAppend(SnapshotData(s.disk.snap), s.disk.wal, Record(c));
        ReplayOne(Recovered(s.disk), Record(c));
      }
    case SnapshotNow =>
    case Replace => if s.phase.Replacing? { ReplaceRecoversIff(s); }
    case Truncate => if s.phase.Truncating? { SameAt(Last(s.logged), Lww(s.logged)); }
  }

  lemma SameAt<V>(a: Data<V>, b: Data<V>)
    requires a.Keys == b.Keys
    ensures a == b <==> forall k :: k in b ==> a[k] == b[k]
  {
  }

  lemma {:induction false} RecoversThroughoutIff<V>(s: State<V>, events: seq<Event<V>>, every: int)
    requires Kept(s) && Recovered(s.disk) == Lww(s.logged)
    ensures (forall n :: 0 <= n <= |events| ==> Recovers(Run(s, events[..n], every))) <==> AlwaysKeepsNewest(s, events, every)
    decreases |events|
  {
    RecoversIff(s);
    if events == [] {
      assert events[..0] == [];
    } else {
      var e, rest, t := events[0], events[1..], Step(s, events[0], every);
      StepKept(s, e, every);
      StepRecoversIff(s, e, every);
      RecoversIff(t);
      assert events[..0] == [];
      forall n | 0 <= n <= |rest| ensures Run(s, events[..n + 1], every) == Run(t, rest[..n], every) {
        assert events[..n + 1][0] == e && events[..n + 1][1..] == rest[..n];
      }
      if Recovered(t.disk) == Lww(t.logged) {
        RecoversThroughoutIff(t, rest, every);
        if forall n :: 0 <= n <= |rest| ==> Recovers(Run(t, rest[..n], every)) {
          forall n | 0 <= n <= |events| ensures Recovers(Run(s, events[..n], every)) {
            if n > 0 { assert Run(s, events[..(n - 1) + 1], every) == Run(t, rest[..n - 1], every); }
          }
        }
        if forall n :: 0 <= n <= |events| ==> Recovers(Run(s, events[..n], every)) {
          forall n | 0 <= n <= |rest| ensures Recovers(Run(t, rest[..n], every)) {
            assert Run(s, events[..n + 1], every) == Run(t, rest[..n], every);
          }
        }
      } else {
        assert rest[..0] == [] && Run(s, events[..0 + 1], every) == t;
        assert !Recovers(Run(s, events[..1], every));
      }
    }
  }

  /** Over whole runs with any stamps: recovery yields the join of the durable commits at every
      point and after every crash if and only if no snapshot drops a newest commit. */
  lemma RecoveryIsLwwJoinIff<V>(events: seq<Event<V>>, every: int)
    ensures (forall n :: 0 <= n <= |events| ==> Recovers(Run(Init<V>(), events[..n], every))) <==>
            AlwaysKeepsNewest(Init<V>(), events, every)
  {
    RecoversThroughoutIff(Init<V>(), events, every);
  }
}
