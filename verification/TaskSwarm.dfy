/** Whole runs of task boards over gossiping stores. Claims are written by their own node, never
    rewritten and never deleted; everything else in the stores may change freely. */
module TaskSwarm {
  import opened Keys
  import opened Store
  import opened Tasks
  import StoreSwarm

  /** `log` lists every execution of the run, oldest first. */
  datatype Swarm = Swarm(boards: map<string, Board>, published: seq<Data<Value>>, log: seq<Execution>)

  datatype Event =
    | Submit(node: string, tid: string, kind: string, args: string, now: real)
    | WriteOther(node: string, key: string, value: Option<string>, deleted: bool, now: real)
    | Evaluate(node: string, tasks: seq<Task>, times: nat -> Times)
    | Publish(node: string)
    | Receive(node: string, index: nat)

  /** Each node's name, handlers and grace period; fixed for the run. */
  type Setups = map<string, Config>

  ghost predicate Named(setups: Setups) {
    forall n :: n in setups ==> setups[n].name == n
  }

  ghost function Init(setups: Setups): Swarm {
    Swarm(map n | n in setups :: Board(map[], 0.0, {}, map[], map[]), [], [])
  }

  ghost function WithBoard(s: Swarm, node: string, b: Board): Swarm {
    s.(boards := s.boards[node := b])
  }

  ghost function EvalOne(s: Swarm, c: Config, task: Task, t: Times): Swarm
    requires c.name in s.boards
  {
    var b := s.boards[c.name];
    WithBoard(s, c.name, EvalTask(b, c, task, t)).(log := s.log + Executions(b, c, task, t))
  }

  /** The loop of `evaluate` over the tasks it found at its start. */
  ghost function EvalEach(s: Swarm, c: Config, tasks: seq<Task>, times: nat -> Times): (t: Swarm)
    requires c.name in s.boards
    ensures t.boards.Keys == s.boards.Keys
  {
    if tasks == [] then s
    else
      var last := |tasks| - 1;
      EvalOne(EvalEach(s, c, tasks[..last], times), c, tasks[last], times(last))
  }

  ghost predicate Enabled(s: Swarm, e: Event, setups: Setups) {
    && e.node in s.boards && e.node in setups
    && match e
       case Submit(_, tid, _, _, _) => SlashFree(tid)
       case WriteOther(_, key, _, _, _) => !HasPrefix(key, CLAIM_PREFIX) && !HasPrefix(key, TASK_PREFIX)
       case Evaluate(node, tasks, _) => ListsTasks(s.boards[node].data, tasks)
       case Publish(_) => true
       case Receive(_, i) => i < |s.published|
  }

  ghost function Step(s: Swarm, e: Event, setups: Setups): Swarm
    requires Named(setups)
  {
    if !Enabled(s, e, setups) then s
    else
      var b := s.boards[e.node];
      match e
      case Submit(node, tid, kind, args, now) =>
        WithBoard(s, node, Write(b, node, TASK_PREFIX + tid, TaskValue(NewTask(tid, kind, args, node)), now))
      case WriteOther(node, key, value, deleted, now) =>
        var v := if value.Some? then Some(Plain(value.value)) else None;
        var ts := NextTs(b.highest, now);
        WithBoard(s, node, b.(data := b.data[key := Entry(v, Version(ts, node), deleted)], highest := ts))
      case Evaluate(node, tasks, times) => EvalEach(s, setups[node], tasks, times)
      case Publish(node) => s.(published := s.published + [b.data])
      case Receive(node, i) =>
        var d := Join(b.data, s.published[i]);
        WithBoard(s, node, b.(data := d, highest := StoreSwarm.Raised(node, b.highest, b.data, d)))
  }

  ghost function Run(s: Swarm, events: seq<Event>, setups: Setups): Swarm
    requires Named(setups)
    decreases |events|
  {
    if events == [] then s else Run(Step(s, events[0], setups), events[1..], setups)
  }

  // ---- Claims are write-once -------------------------------------------------------------

  /** The entry at claim key `k` is the one its node wrote and still holds. */
  ghost predicate Canonical(s: Swarm, d: Data<Value>, k: string)
    requires k in d
  {
    && !d[k].deleted && ClaimAt(d, k)
    && var n := d[k].value.value.nodeId;
       n in s.boards && k in s.boards[n].data && s.boards[n].data[k] == d[k]
  }

  ghost predicate CanonicalData(s: Swarm, d: Data<Value>) {
    forall k :: k in d && HasPrefix(k, CLAIM_PREFIX) ==> Canonical(s, d, k)
  }

  ghost predicate TasksFormed(d: Data<Value>) {
    forall k :: k in d && HasPrefix(k, TASK_PREFIX) ==> TaskAt(d, k)
  }

  /** The execution was won, and every claim it saw is still on its node's own board. */
  ghost predicate Witnessed(s: Swarm, e: Execution) {
    && e.node in s.boards && e.task in s.boards[e.node].executed
    && IsWinner(e.view, e.node)
    && forall n :: n in e.view ==> OnBoard(s, e, n)
  }

  ghost predicate OnBoard(s: Swarm, e: Execution, n: string)
    requires n in e.view
  {
    && n in s.boards && LiveClaim(s.boards[n].data, ClaimKey(e.task, n), e.task)
    && s.boards[n].data[ClaimKey(e.task, n)].value.value.claimTs == e.view[n]
  }

  ghost predicate Consistent(s: Swarm) {
    && (forall n :: n in s.boards ==> CanonicalData(s, s.boards[n].data) && TasksFormed(s.boards[n].data))
    && (forall i :: 0 <= i < |s.published| ==> CanonicalData(s, s.published[i]) && TasksFormed(s.published[i]))
    && (forall i :: 0 <= i < |s.log| ==> Witnessed(s, s.log[i]))
    && forall i, j :: 0 <= i < j < |s.log| ==> s.log[i].node != s.log[j].node || s.log[i].task != s.log[j].task
  }

  /** Node `m` keeps every claim entry it had, and gains only its own claims or claims as their
      nodes hold them. */
  ghost predicate KeepsClaims(s: Swarm, m: string, d: Data<Value>)
    requires m in s.boards
  {
    && (forall k :: k in s.boards[m].data && HasPrefix(k, CLAIM_PREFIX) ==> k in d && d[k] == s.boards[m].data[k])
    && forall k :: k in d && HasPrefix(k, CLAIM_PREFIX) ==> Own(m, d, k) || Canonical(s, d, k)
  }

  ghost predicate Own(m: string, d: Data<Value>, k: string)
    requires k in d
  {
    !d[k].deleted && ClaimAt(d, k) && d[k].value.value.nodeId == m
  }

  lemma CanonicalPersists(s: Swarm, m: string, b: Board, d: Data<Value>)
    requires m in s.boards && KeepsClaims(s, m, b.data) && CanonicalData(s, d)
    ensures CanonicalData(WithBoard(s, m, b), d)
  {
    forall k | k in d && HasPrefix(k, CLAIM_PREFIX) ensures Canonical(WithBoard(s, m, b), d, k) {
      assert Canonical(s, d, k);
    }
  }

  lemma ClaimPersists(s: Swarm, m: string, b: Board, e: Execution, n: string)
    requires m in s.boards && KeepsClaims(s, m, b.data) && n in e.view && OnBoard(s, e, n)
    ensures OnBoard(WithBoard(s, m, b), e, n)
  {
    var k := ClaimKey(e.task, n);
    assert k == CLAIM_PREFIX + (e.task + "/" + n);
    PrefixOfConcat(CLAIM_PREFIX, e.task + "/" + n);
  }

  /** Replacing one board this way, without forgetting executions, keeps the system consistent. */
  lemma ReplaceBoard(s: Swarm, m: string, b: Board)
    requires Consistent(s) && m in s.boards && KeepsClaims(s, m, b.data) && TasksFormed(b.data)
    requires s.boards[m].executed <= b.executed
    ensures Consistent(WithBoard(s, m, b))
  {
    var t := WithBoard(s, m, b);
    forall n | n in t.boards ensures CanonicalData(t, t.boards[n].data) && TasksFormed(t.boards[n].data) {
      if n != m {
        CanonicalPersists(s, m, b, s.boards[n].data);
      } else {
        forall k | k in b.data && HasPrefix(k, CLAIM_PREFIX) ensures Canonical(t, b.data, k) {
          if !Own(m, b.data, k) { assert Canonical(s, b.data, k); }
        }
      }
    }
    forall i | 0 <= i < |t.published| ensures CanonicalData(t, t.published[i]) && TasksFormed(t.published[i]) {
      CanonicalPersists(s, m, b, s.published[i]);
    }
    forall i | 0 <= i < |t.log| ensures Witnessed(t, t.log[i]) {
      assert Witnessed(s, s.log[i]);
      forall n | n in s.log[i].view ensures OnBoard(t, s.log[i], n) { ClaimPersists(s, m, b, s.log[i], n); }
    }
  }

  lemma WriteKeepsClaims(s: Swarm, m: string, d: Data<Value>, k: string, e: Entry<Value>)
    requires Consistent(s) && m in s.boards && d == s.boards[m].data[k := e] && !HasPrefix(k, CLAIM_PREFIX)
    ensures KeepsClaims(s, m, d)
  {
    assert CanonicalData(s, s.boards[m].data);
    forall l | l in d && HasPrefix(l, CLAIM_PREFIX) ensures Canonical(s, d, l) {
      assert Canonical(s, s.boards[m].data, l);
      assert ClaimAt(s.boards[m].data, l);
    }
  }

  lemma JoinKeepsClaims(s: Swarm, m: string, x: Data<Value>)
    requires Consistent(s) && m in s.boards && CanonicalData(s, x) && TasksFormed(x)
    ensures KeepsClaims(s, m, Join(s.boards[m].data, x)) && TasksFormed(Join(s.boards[m].data, x))
  {
    var a := s.boards[m].data;
    var d := Join(a, x);
    assert CanonicalData(s, a);
    forall k | k in d && HasPrefix(k, CLAIM_PREFIX) ensures Canonical(s, d, k) && (k in a ==> d[k] == a[k]) {
      if k in a { assert Canonical(s, a, k) && ClaimAt(a, k); }
      if k in x { assert Canonical(s, x, k) && ClaimAt(x, k); }
      if k in a && k in x { SameClaim(s, a, x, k); }
    }
    forall k | k in d && HasPrefix(k, TASK_PREFIX) ensures TaskAt(d, k) {
      if k in a { assert TaskAt(a, k); }
      if k in x { assert TaskAt(x, k); }
    }
  }

  /** Two stores never disagree about a claim. */
  lemma SameClaim(s: Swarm, a: Data<Value>, x: Data<Value>, k: string)
    requires k in a && k in x && Canonical(s, a, k) && Canonical(s, x, k)
    ensures a[k] == x[k]
  {
    var n, m := a[k].value.value.nodeId, x[k].value.value.nodeId;
    var t :| SlashFree(t) && k == ClaimKey(t, n);
    var u :| SlashFree(u) && k == ClaimKey(u, m);
    SegmentUnique(CLAIM_PREFIX, t, n, u, m);
  }

  // ---- Evaluation keeps the system consistent --------------------------------------------

  lemma OwnClaimKey(d: Data<Value>, tid: string, m: string)
    requires SlashFree(tid) && ClaimKey(tid, m) in d
    requires !d[ClaimKey(tid, m)].deleted && d[ClaimKey(tid, m)].value.Some?
    requires d[ClaimKey(tid, m)].value.value.ClaimValue? && d[ClaimKey(tid, m)].value.value.nodeId == m
    ensures Own(m, d, ClaimKey(tid, m))
  {
  }

  lemma ClaimStep(s: Swarm, c: Config, task: Task, t: Times)
    requires Consistent(s) && c.name in s.boards && SlashFree(task.id)
    ensures var d := MaybeClaim(s.boards[c.name], c, task, t).data;
            KeepsClaims(s, c.name, d) && TasksFormed(d)
  {
    var b := s.boards[c.name];
    var d, key := MaybeClaim(b, c, task, t).data, ClaimKey(task.id, c.name);
    assert CanonicalData(s, b.data) && TasksFormed(b.data);
    ClaimKeyPrefix(task.id, c.name);
    if key in b.data { assert Canonical(s, b.data, key); }
    forall k | k in d && HasPrefix(k, CLAIM_PREFIX) ensures Own(c.name, d, k) || Canonical(s, d, k) {
      if k == key && key !in b.data {
        OwnClaimKey(d, task.id, c.name);
      } else {
        assert Canonical(s, b.data, k) && ClaimAt(b.data, k);
      }
    }
    forall k | k in d && HasPrefix(k, TASK_PREFIX) ensures TaskAt(d, k) { assert TaskAt(b.data, k); }
  }

  lemma ClaimKeyPrefix(tid: string, n: string)
    ensures HasPrefix(ClaimKey(tid, n), CLAIM_PREFIX) && !HasPrefix(ClaimKey(tid, n), TASK_PREFIX)
  {
    assert ClaimKey(tid, n) == CLAIM_PREFIX + (tid + "/" + n);
    PrefixOfConcat(CLAIM_PREFIX, tid + "/" + n);
    assert CLAIM_PREFIX[2] == 'c' && TASK_PREFIX[2] == 't';
  }

  /** The board after the claim and the bookkeeping, before a possible execution. */
  lemma ObserveStep(s: Swarm, c: Config, task: Task, t: Times)
    requires Consistent(s) && c.name in s.boards && SlashFree(task.id)
    ensures Consistent(WithBoard(s, c.name, Observe(s.boards[c.name], c, task, t)))
  {
    ClaimStep(s, c, task, t);
    ReplaceBoard(s, c.name, Observe(s.boards[c.name], c, task, t));
  }

  /** A view taken from a consistent system is backed by the boards of the nodes in it. */
  lemma ViewBacked(s: Swarm, name: string, tid: string)
    requires Consistent(s) && name in s.boards && SlashFree(tid)
    ensures forall n :: n in ClaimsOf(s.boards[name].data, tid) ==>
              OnBoard(s, Execution(name, tid, ClaimsOf(s.boards[name].data, tid)), n)
  {
    var d := s.boards[name].data;
    assert CanonicalData(s, d);
    forall n | n in ClaimsOf(d, tid) ensures OnBoard(s, Execution(name, tid, ClaimsOf(d, tid)), n) {
      ClaimsLookup(d, tid, n);
      var k := ClaimKey(tid, n);
      ClaimKeyPrefix(tid, n);
      assert Canonical(s, d, k);
      var m := d[k].value.value.nodeId;
      var t :| SlashFree(t) && k == ClaimKey(t, m);
      SegmentUnique(CLAIM_PREFIX, t, m, tid, n);
    }
  }

  lemma ExecuteStep(s: Swarm, c: Config, task: Task, t: Times)
    requires Consistent(s) && c.name in s.boards && SlashFree(task.id) && task.kind in c.handlers
    requires Executes(s.boards[c.name], c, task)
    ensures Consistent(WithBoard(s, c.name, MaybeExecute(s.boards[c.name], c, task, t))
                         .(log := s.log + [Execution(c.name, task.id, ClaimsOf(s.boards[c.name].data, task.id))]))
  {
    var b := s.boards[c.name];
    var b' := MaybeExecute(b, c, task, t);
    var e := Execution(c.name, task.id, ClaimsOf(b.data, task.id));
    var u := WithBoard(s, c.name, b');
    var v := u.(log := s.log + [e]);
    TaskKeyIsNoClaim(task.id);
    WriteKeepsClaims(s, c.name, b'.data, TASK_PREFIX + task.id, b'.data[TASK_PREFIX + task.id]);
    assert TasksFormed(b'.data) by {
      assert TasksFormed(b.data);
      forall k | k in b'.data && HasPrefix(k, TASK_PREFIX) ensures TaskAt(b'.data, k) {
        if k != TASK_PREFIX + task.id { assert TaskAt(b.data, k); }
      }
    }
    ReplaceBoard(s, c.name, b');
    ViewBacked(s, c.name, task.id);
    forall n | n in e.view ensures OnBoard(u, e, n) { ClaimPersists(s, c.name, b', e, n); }
    forall i | 0 <= i < |v.log| ensures Witnessed(v, v.log[i]) {
      if i < |s.log| {
        assert v.log[i] == u.log[i] && Witnessed(u, u.log[i]);
        forall n | n in v.log[i].view ensures OnBoard(v, v.log[i], n) { assert OnBoard(u, u.log[i], n); }
      } else {
        forall n | n in e.view ensures OnBoard(v, e, n) { assert OnBoard(u, e, n); }
      }
    }
    forall i, j | 0 <= i < j < |v.log| ensures v.log[i].node != v.log[j].node || v.log[i].task != v.log[j].task {
      assert Witnessed(s, s.log[i]);
    }
    forall n | n in v.boards ensures CanonicalData(v, v.boards[n].data) { SameBoards(u, v, u.boards[n].data); }
    forall i | 0 <= i < |v.published| ensures CanonicalData(v, v.published[i]) { SameBoards(u, v, u.published[i]); }
  }

  lemma SameBoards(u: Swarm, v: Swarm, d: Data<Value>)
    requires u.boards == v.boards && CanonicalData(u, d)
    ensures CanonicalData(v, d)
  {
    forall k | k in d && HasPrefix(k, CLAIM_PREFIX) ensures Canonical(v, d, k) { assert Canonical(u, d, k); }
  }

  lemma EvalOneConsistent(s: Swarm, c: Config, task: Task, t: Times)
    requires Consistent(s) && c.name in s.boards && SlashFree(task.id)
    ensures Consistent(EvalOne(s, c, task, t))
  {
    if task.state.Pending? && task.kind in c.handlers {
      EvalAbleConsistent(s, c, task, t);
    } else {
      assert s.log + [] == s.log;
      assert CanonicalData(s, s.boards[c.name].data);
      assert KeepsClaims(s, c.name, s.boards[c.name].data);
      ReplaceBoard(s, c.name, EvalTask(s.boards[c.name], c, task, t));
    }
  }

  /** An evaluation of a task this node can handle is its observation, followed by the execution
      if there is one. */
  lemma EvalOneUnfolds(s: Swarm, c: Config, task: Task, t: Times)
    requires c.name in s.boards && task.state.Pending? && task.kind in c.handlers
    ensures var o := Observe(s.boards[c.name], c, task, t);
            EvalOne(s, c, task, t) ==
              if Ready(s.boards[c.name], c, task, t) && Executes(o, c, task)
              then WithBoard(WithBoard(s, c.name, o), c.name, MaybeExecute(o, c, task, t))
                     .(log := s.log + [Execution(c.name, task.id, ClaimsOf(o.data, task.id))])
              else WithBoard(s, c.name, o)
  {
    assert s.log + [] == s.log;
    assert WithBoard(WithBoard(s, c.name, Observe(s.boards[c.name], c, task, t)), c.name,
                     MaybeExecute(Observe(s.boards[c.name], c, task, t), c, task, t))
        == WithBoard(s, c.name, MaybeExecute(Observe(s.boards[c.name], c, task, t), c, task, t));
  }

  lemma EvalAbleConsistent(s: Swarm, c: Config, task: Task, t: Times)
    requires Consistent(s) && c.name in s.boards && SlashFree(task.id)
    requires task.state.Pending? && task.kind in c.handlers
    ensures Consistent(EvalOne(s, c, task, t))
  {
    EvalOneUnfolds(s, c, task, t);
    ObserveStep(s, c, task, t);
    var mid := WithBoard(s, c.name, Observe(s.boards[c.name], c, task, t));
    if Ready(s.boards[c.name], c, task, t) && Executes(mid.boards[c.name], c, task) {
      ExecuteStep(mid, c, task, t);
    }
  }

  /** At its own node the loop does what `TaskBoard.Evaluate` does. */
  lemma {:induction false} EvalEachIsEvaluate(s: Swarm, c: Config, tasks: seq<Task>, times: nat -> Times)
    requires c.name in s.boards
    ensures EvalEach(s, c, tasks, times).boards[c.name] == EvalAll(s.boards[c.name], c, tasks, times)
  {
    if tasks != [] {
      EvalEachIsEvaluate(s, c, tasks[..|tasks| - 1], times);
    }
  }

  lemma EvalNextConsistent(s: Swarm, c: Config, task: Task, t: Times, u: Swarm)
    requires Consistent(s) && c.name in s.boards && SlashFree(task.id) && u == EvalOne(s, c, task, t)
    ensures Consistent(u)
  {
    EvalOneConsistent(s, c, task, t);
  }

  lemma {:induction false} EvalEachConsistent(s: Swarm, c: Config, tasks: seq<Task>, times: nat -> Times)
    requires Consistent(s) && c.name in s.boards
    requires forall i :: 0 <= i < |tasks| ==> SlashFree(tasks[i].id)
    ensures Consistent(EvalEach(s, c, tasks, times))
  {
    if tasks != [] {
      var last := |tasks| - 1;
      EvalEachConsistent(s, c, tasks[..last], times);
      EvalNextConsistent(EvalEach(s, c, tasks[..last], times), c, tasks[last], times(last), EvalEach(s, c, tasks, times));
    }
  }

  lemma StepConsistent(s: Swarm, e: Event, setups: Setups)
    requires Consistent(s) && Named(setups)
    ensures Consistent(Step(s, e, setups))
  {
    if Enabled(s, e, setups) {
      var b := s.boards[e.node];
      assert CanonicalData(s, b.data) && TasksFormed(b.data);
      match e
      case Submit(node, tid, kind, args, now) =>
        var b' := Write(b, node, TASK_PREFIX + tid, TaskValue(NewTask(tid, kind, args, node)), now);
        TaskKeyIsNoClaim(tid);
        WriteKeepsClaims(s, node, b'.data, TASK_PREFIX + tid, b'.data[TASK_PREFIX + tid]);
        WriteKeepsTasks(b.data, TASK_PREFIX + tid, b'.data[TASK_PREFIX + tid]);
        ReplaceBoard(s, node, b');
      case WriteOther(node, key, value, deleted, now) =>
        var b' := Step(s, e, setups).boards[node];
        WriteKeepsClaims(s, node, b'.data, key, b'.data[key]);
        WriteKeepsTasks(b.data, key, b'.data[key]);
        ReplaceBoard(s, node, b');
      case Evaluate(node, tasks, times) =>
        forall i | 0 <= i < |tasks| ensures SlashFree(tasks[i].id) {
          var k := ListedTask(b.data, tasks, i);
          assert TaskAt(b.data, k);
        }
        EvalEachConsistent(s, setups[node], tasks, times);
      case Publish(node) =>
        var t := Step(s, e, setups);
        forall n | n in t.boards ensures CanonicalData(t, t.boards[n].data) { SameBoards(s, t, s.boards[n].data); }
        forall i | 0 <= i < |t.published| ensures CanonicalData(t, t.published[i]) && TasksFormed(t.published[i]) {
          SameBoards(s, t, t.published[i]);
        }
        forall i | 0 <= i < |t.log| ensures Witnessed(t, t.log[i]) {
          assert Witnessed(s, s.log[i]);
          forall n | n in t.log[i].view ensures OnBoard(t, t.log[i], n) { assert OnBoard(s, s.log[i], n); }
        }
      case Receive(node, i) =>
        JoinKeepsClaims(s, node, s.published[i]);
        ReplaceBoard(s, node, Step(s, e, setups).boards[node]);
    }
  }

  lemma WriteKeepsTasks(d: Data<Value>, k: string, e: Entry<Value>)
    requires TasksFormed(d)
    requires HasPrefix(k, TASK_PREFIX) ==> e.value.Some? && e.value.value.TaskValue? && SlashFree(e.value.value.task.id)
    ensures TasksFormed(d[k := e])
  {
    forall l | l in d[k := e] && HasPrefix(l, TASK_PREFIX) ensures TaskAt(d[k := e], l) {
      if l != k { assert TaskAt(d, l); }
    }
  }

  lemma {:induction false} RunConsistent(s: Swarm, events: seq<Event>, setups: Setups)
    requires Consistent(s) && Named(setups)
    ensures Consistent(Run(s, events, setups))
    decreases |events|
  {
    if events != [] {
      StepConsistent(s, events[0], setups);
      RunConsistent(Step(s, events[0], setups), events[1..], setups);
    }
  }

  // ---- What holds of every run -----------------------------------------------------------

  /** No node executes a task twice, and if two nodes execute the same task then one of them did
      not yet see the other's claim. */
  lemma ArbitrationOverRuns(setups: Setups, events: seq<Event>, i: nat, j: nat)
    requires Named(setups) && i < j < |Run(Init(setups), events, setups).log|
    requires Run(Init(setups), events, setups).log[i].task == Run(Init(setups), events, setups).log[j].task
    ensures var x, y := Run(Init(setups), events, setups).log[i], Run(Init(setups), events, setups).log[j];
            x.node != y.node && (y.node !in x.view || x.node !in y.view)
  {
    var s := Run(Init(setups), events, setups);
    RunConsistent(Init(setups), events, setups);
    var x, y := s.log[i], s.log[j];
    assert Witnessed(s, x) && Witnessed(s, y);
    ViewsAgree(s, x, y, x.node);
    ViewsAgree(s, x, y, y.node);
    TwoWinnersMissedOne(x.view, y.view, x.node, y.node);
  }

  /** Claims never change once written: any two executions of a task that saw a node's claim saw
      the same claim. */
  lemma ViewsAgree(s: Swarm, x: Execution, y: Execution, n: string)
    requires Witnessed(s, x) && Witnessed(s, y) && x.task == y.task
    ensures SameAt(x.view, y.view, n)
  {
    if n in x.view && n in y.view {
      assert OnBoard(s, x, n) && OnBoard(s, y, n);
    }
  }

  /** Whatever two boards of a reachable state show of a claim, they show the same, so boards that
      show the same claims name the same winner. */
  lemma EqualClaimsOneWinner(setups: Setups, events: seq<Event>, m: string, n: string, tid: string, v: string, w: string)
    requires Named(setups) && SlashFree(tid)
    requires m in Run(Init(setups), events, setups).boards && n in Run(Init(setups), events, setups).boards
    ensures var s := Run(Init(setups), events, setups);
            var a, b := ClaimsOf(s.boards[m].data, tid), ClaimsOf(s.boards[n].data, tid);
            && (forall o :: SameAt(a, b, o))
            && (a.Keys == b.Keys && IsWinner(a, v) && IsWinner(b, w) ==> v == w)
  {
    var s := Run(Init(setups), events, setups);
    RunConsistent(Init(setups), events, setups);
    var a, b := ClaimsOf(s.boards[m].data, tid), ClaimsOf(s.boards[n].data, tid);
    ViewBacked(s, m, tid);
    ViewBacked(s, n, tid);
    forall o ensures SameAt(a, b, o) {
      if o in a && o in b {
        assert OnBoard(s, Execution(m, tid, a), o) && OnBoard(s, Execution(n, tid, b), o);
      }
    }
    if a.Keys == b.Keys && IsWinner(a, v) && IsWinner(b, w) {
      SameViews(a, b);
      WinnerUnique(a, v, w);
    }
  }

  lemma SameViews(a: map<string, real>, b: map<string, real>)
    requires a.Keys == b.Keys && forall o :: SameAt(a, b, o)
    ensures a == b
  {
    assert forall o :: o in a ==> SameAt(a, b, o);
  }
}
