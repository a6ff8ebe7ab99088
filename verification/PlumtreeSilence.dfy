/** Plumtree never falls silent with something left to say: once the network is empty and every
    node has ticked through a graft timeout without sending, every broadcast is everywhere. */
module PlumtreeSilence {
  import opened Plumtree
  import opened PlumtreeSwarm
  import opened PlumtreeHandlers
  import opened PlumtreeRuns
  import opened Seqs

  /** A silent repair: everyone looked at has waited one round more, and is not due yet. */
  ghost predicate OnlyWaited(s: Node, timeout: int, mids: seq<string>, t: Node) {
    && t == s.(missing := t.missing) && t.missing.Keys == s.missing.Keys
    && (forall m :: m in s.missing ==> t.missing[m] == s.missing[m] + if m in mids then 1 else 0)
    && forall m :: m in mids && m in s.missing && m in s.ihaveFrom && s.ihaveFrom[m] != [] ==> s.missing[m] + 1 < timeout
  }

  lemma SilentOne(s: Node, me: Setup, mid: string)
    requires mid in s.missing && mid !in s.received && Repaired(s, me, mid).1 == []
    ensures Repaired(s, me, mid).0 == s.(missing := s.missing[mid := s.missing[mid] + 1])
    ensures mid in s.ihaveFrom && s.ihaveFrom[mid] != [] ==> s.missing[mid] + 1 < me.timeout
  {
  }

  lemma SilentSplit(s: Node, me: Setup, mids: seq<string>, mid: string)
    requires RepairedAll(s, me, mids + [mid]).1 == []
    ensures RepairedAll(s, me, mids).1 == []
    ensures Repaired(RepairedAll(s, me, mids).0, me, mid).1 == []
    ensures RepairedAll(s, me, mids + [mid]).0 == Repaired(RepairedAll(s, me, mids).0, me, mid).0
  {
    RepairedNext(s, me, mids, mid);
  }

  lemma WaitedMore(s: Node, timeout: int, mids: seq<string>, mid: string, b: Node)
    requires OnlyWaited(s, timeout, mids, b) && mid !in mids && mid in s.missing
    requires mid in s.ihaveFrom && s.ihaveFrom[mid] != [] ==> b.missing[mid] + 1 < timeout
    ensures OnlyWaited(s, timeout, mids + [mid], b.(missing := b.missing[mid := b.missing[mid] + 1]))
  {
  }

  lemma SilentNext(s: Node, me: Setup, mids: seq<string>, mid: string)
    requires s.missing.Keys !! s.received.Keys
    requires NoRepeats(mids) && (forall m :: m in mids ==> m in s.missing) && mid in s.missing && mid !in mids
    requires OnlyWaited(s, me.timeout, mids, RepairedAll(s, me, mids).0)
    requires RepairedAll(s, me, mids + [mid]).1 == []
    ensures OnlyWaited(s, me.timeout, mids + [mid], RepairedAll(s, me, mids + [mid]).0)
  {
    SilentSplit(s, me, mids, mid);
    var b := RepairedAll(s, me, mids).0;
    SilentOne(b, me, mid);
    WaitedMore(s, me.timeout, mids, mid, b);
  }

  lemma {:induction false} SilentRepair(s: Node, me: Setup, mids: seq<string>)
    requires s.missing.Keys !! s.received.Keys
    requires NoRepeats(mids) && forall m :: m in mids ==> m in s.missing
    requires RepairedAll(s, me, mids).1 == []
    ensures OnlyWaited(s, me.timeout, mids, RepairedAll(s, me, mids).0)
  {
    if mids != [] {
      var before, mid := mids[..|mids| - 1], mids[|mids| - 1];
      assert mids == before + [mid];
      SilentSplit(s, me, before, mid);
      SilentRepair(s, me, before);
      SilentNext(s, me, before, mid);
    }
  }

  lemma FlushSpeaks(me: string, queue: seq<(string, string)>)
    requires queue != []
    ensures Flushed(me, queue) != []
  {
    FlushedExact(me, queue);
    var t := queue[0];
    assert t == (t.0, t.1) && t in queue;
  }

  lemma SilentTick(s: Node, me: Setup, nbrs: set<string>, issued: map<string, string>, mids: seq<string>)
    requires NodeOk(s, nbrs, issued) && Walks(mids, s.missing.Keys)
    requires Tick(s, me, nbrs, mids).1 == []
    ensures s.queue == [] && OnlyWaited(s, me.timeout, mids, Tick(s, me, nbrs, mids).0)
  {
    SyncedIsNothing(s, nbrs);
    if s.queue != [] {
      FlushSpeaks(me.id, s.queue);
      assert false;
    }
    assert s.(queue := []) == s;
    SilentRepair(s, me, mids);
  }

  // ---- Runs of ticks ---------------------------------------------------------------------

  ghost predicate OnlyBeats(events: seq<Event>) {
    forall i :: 0 <= i < |events| ==> events[i].Beat?
  }

  /** How often node `n` ticks. */
  ghost function BeatsOf(c: Config, g: World, events: seq<Event>, n: string): nat
    decreases |events|
  {
    if events == [] then 0
    else
      (if Enabled(c, g, events[0]) && events[0].Beat? && events[0].n == n then 1 else 0)
      + BeatsOf(c, Step(c, g, events[0]), events[1..], n)
  }

  lemma SilentStep(c: Config, g: World, events: seq<Event>)
    requires events != [] && events[0].Beat? && Enabled(c, g, events[0]) && Run(c, g, events).log == g.log
    ensures var e := events[0];
            Tick(g.nodes[e.n], Me(c, e.n), c.nbrs[e.n], e.mids).1 == [] && Step(c, g, e).log == g.log
  {
    LogGrows(c, Step(c, g, events[0]), events[1..]);
    var sent := Tick(g.nodes[events[0].n], Me(c, events[0].n), c.nbrs[events[0].n], events[0].mids).1;
    assert |g.log + sent| <= |g.log|;
  }

  /** A node that waits with a candidate at hand grafts before its timeout is over. */
  lemma {:induction false} PatienceRunsOut(c: Config, g: World, events: seq<Event>, n: string, q: string, m: string)
    requires Inv(c, g) && OnlyBeats(events) && n in g.nodes && Candidate(g.nodes[n], q, m) && m in g.nodes[n].missing
    requires Run(c, g, events).log == g.log
    ensures BeatsOf(c, g, events, n) == 0 || g.nodes[n].missing[m] + BeatsOf(c, g, events, n) < c.timeout
    decreases |events|
  {
    if events != [] {
      var e, h := events[0], Step(c, g, events[0]);
      StepKeeps(c, g, e);
      if Enabled(c, g, e) {
        SilentStep(c, g, events);
        if e.n == n {
          assert NodeOk(g.nodes[n], c.nbrs[n], g.issued);
          SilentTick(g.nodes[n], Me(c, n), c.nbrs[n], g.issued, e.mids);
        }
      }
      PatienceRunsOut(c, h, events[1..], n, q, m);
    }
  }

  lemma {:induction false} QueueIsFlushed(c: Config, g: World, events: seq<Event>, n: string)
    requires Inv(c, g) && OnlyBeats(events) && n in g.nodes
    requires Run(c, g, events).log == g.log && BeatsOf(c, g, events, n) > 0
    ensures g.nodes[n].queue == []
    decreases |events|
  {
    var e, h := events[0], Step(c, g, events[0]);
    StepKeeps(c, g, e);
    if Enabled(c, g, e) {
      SilentStep(c, g, events);
    }
    if Enabled(c, g, e) && e.n == n {
      assert NodeOk(g.nodes[n], c.nbrs[n], g.issued);
      SilentTick(g.nodes[n], Me(c, n), c.nbrs[n], g.issued, e.mids);
    } else {
      QueueIsFlushed(c, h, events[1..], n);
    }
  }

  lemma SilentIsIdle(c: Config, g: World, beats: seq<Event>, n: string)
    requires Inv(c, g) && OnlyBeats(beats) && n in g.nodes
    requires Run(c, g, beats).log == g.log
    requires BeatsOf(c, g, beats, n) >= 1 && BeatsOf(c, g, beats, n) >= c.timeout
    ensures Idle(g.nodes[n])
  {
    QueueIsFlushed(c, g, beats, n);
    forall q, m ensures !Candidate(g.nodes[n], q, m) {
      if Candidate(g.nodes[n], q, m) {
        assert NodeOk(g.nodes[n], c.nbrs[n], g.issued);
        PatienceRunsOut(c, g, beats, n, q, m);
        assert false;
      }
    }
  }

  /** With nothing in flight, a graft timeout of silent ticks at every node shows that every
      broadcast has been delivered by every node. */
  lemma SilenceMeansComplete(c: Config, start: World, events: seq<Event>, beats: seq<Event>)
    requires Symmetric(c) && Connected(c) && Start(c, start)
    requires var g := Run(c, start, events);
             && g.net == [] && OnlyBeats(beats) && Run(c, g, beats).log == g.log
             && forall n :: n in c.nbrs ==> BeatsOf(c, g, beats, n) >= 1 && BeatsOf(c, g, beats, n) >= c.timeout
    ensures var g := Run(c, start, events);
            forall n :: n in c.nbrs ==> n in g.nodes && DeliveredAll(g.nodes[n], g.issued)
  {
    StartOk(c, start);
    RunKeeps(c, start, events);
    var g := Run(c, start, events);
    forall n | n in g.nodes ensures Idle(g.nodes[n]) { SilentIsIdle(c, g, beats, n); }
    EveryBroadcastReachesAll(c, start, events);
  }
}
