/** Decentralised task execution: every able node claims a pending task in the replicated store,
    and the node with the earliest claim it can see runs it. */
module Tasks {
  import opened Order
  import opened Keys
  import opened Seqs
  import opened Store

  const TASK_PREFIX := "__task__/"
  const CLAIM_PREFIX := "__claim__/"

  datatype TaskState = Pending | Done | Failed

  /** Arguments, results and error texts are opaque strings. */
  datatype Task = Task(id: string, kind: string, args: string, state: TaskState, submittedBy: string,
                       owner: Option<string>, result: Option<string>, error: Option<string>)

  datatype Value = TaskValue(task: Task) | ClaimValue(nodeId: string, claimTs: real) | Plain(text: string)

  datatype Outcome = Finished(result: string) | Raised(error: string)

  /** Clock readings for one task: the stamp a new claim carries, load penalty included, and the
      store's clock when the claim and the result are written. */
  datatype Times = Times(claim: real, claimWrite: real, resultWrite: real)

  datatype Config = Config(name: string, handlers: map<string, Task -> Outcome>, grace: int)

  /** The state of one task board, its store included. */
  datatype Board = Board(data: Data<Value>, highest: real, executed: set<string>,
                         age: map<string, int>, sig: map<string, map<string, real>>)

  /** A node ran a task, having seen these claims. */
  datatype Execution = Execution(node: string, task: string, view: map<string, real>)

  function ClaimPrefix(tid: string): string {
    CLAIM_PREFIX + tid + "/"
  }

  function ClaimKey(tid: string, node: string): string {
    ClaimPrefix(tid) + node
  }

  predicate LiveClaim(d: Data<Value>, k: string, tid: string) {
    Contains(d, k) && HasPrefix(k, ClaimPrefix(tid)) && d[k].value.Some? && d[k].value.value.ClaimValue?
  }

  /** The claims on a task a store shows: node to claim time. */
  ghost function ClaimsOf(d: Data<Value>, tid: string): map<string, real> {
    map n | n in ClaimNodes(d, tid) && LiveClaim(d, ClaimKey(tid, n), tid) ::
      d[ClaimKey(tid, n)].value.value.claimTs
  }

  ghost function ClaimNodes(d: Data<Value>, tid: string): set<string> {
    set k | k in d && LiveClaim(d, k, tid) :: k[|ClaimPrefix(tid)|..]
  }

  lemma ClaimsLookup(d: Data<Value>, tid: string, n: string)
    ensures n in ClaimsOf(d, tid) <==> LiveClaim(d, ClaimKey(tid, n), tid)
    ensures n in ClaimsOf(d, tid) ==> ClaimsOf(d, tid)[n] == d[ClaimKey(tid, n)].value.value.claimTs
  {
    if LiveClaim(d, ClaimKey(tid, n), tid) {
      PrefixOfConcat(ClaimPrefix(tid), n);
      assert ClaimKey(tid, n) in d;
    }
  }

  /** Earliest claim first, ties by node name. */
  predicate Before(claims: map<string, real>, a: string, b: string)
    requires a in claims && b in claims
  {
    claims[a] < claims[b] || (claims[a] == claims[b] && Less(a, b))
  }

  ghost predicate Leads(claims: map<string, real>, w: string, ns: set<string>)
    requires w in claims && ns <= claims.Keys
  {
    forall n :: n in ns ==> n == w || Before(claims, w, n)
  }

  lemma BestSoFar(claims: map<string, real>, best: string, n: string, seen: set<string>)
    requires best in claims && n in claims && seen <= claims.Keys && Leads(claims, best, seen)
    ensures Leads(claims, if Before(claims, n, best) then n else best, seen + {n})
  {
    StringOrder();
  }

  ghost predicate IsWinner(claims: map<string, real>, w: string) {
    w in claims && forall n :: n in claims ==> n == w || Before(claims, w, n)
  }

  /** The winner has the earliest claim, and of equally early claims the one of the lesser node. */
  lemma EarliestWins(claims: map<string, real>, w: string, n: string)
    requires IsWinner(claims, w) && n in claims && n != w
    ensures claims[w] < claims[n] || (claims[w] == claims[n] && Less(w, n))
  {
  }

  /** Equal claims name one winner. */
  lemma WinnerUnique(claims: map<string, real>, v: string, w: string)
    requires IsWinner(claims, v) && IsWinner(claims, w)
    ensures v == w
  {
    StringOrder();
  }

  ghost predicate SameAt(a: map<string, real>, b: map<string, real>, n: string) {
    n in a && n in b ==> a[n] == b[n]
  }

  /** Two nodes that both see themselves win cannot both have seen the other's claim. */
  lemma TwoWinnersMissedOne(x: map<string, real>, y: map<string, real>, a: string, b: string)
    requires IsWinner(x, a) && IsWinner(y, b) && a != b
    requires SameAt(x, y, a) && SameAt(x, y, b)
    ensures b !in x || a !in y
  {
    StringOrder();
  }

  // ---- One coordination step -------------------------------------------------------------

  function Write(b: Board, name: string, key: string, value: Value, now: real): Board {
    var ts := NextTs(b.highest, now);
    b.(data := b.data[key := Entry(Some(value), Version(ts, name), false)], highest := ts)
  }

  function NewTask(tid: string, kind: string, args: string, node: string): Task {
    Task(tid, kind, args, Pending, node, None, None, None)
  }

  function MaybeClaim(b: Board, c: Config, task: Task, t: Times): Board {
    if Contains(b.data, ClaimKey(task.id, c.name)) then b
    else Write(b, c.name, ClaimKey(task.id, c.name), ClaimValue(c.name, t.claim), t.claimWrite)
  }

  function Completed(c: Config, task: Task, outcome: Outcome): Task {
    match outcome
    case Finished(r) => task.(state := Done, result := Some(r), owner := Some(c.name))
    case Raised(e) => task.(state := Failed, error := Some(e), owner := Some(c.name))
  }

  /** `after` is the task as it was submitted, owned by the node that ran it: done with the result
      the handler gave, or failed with the error it raised. */
  ghost predicate Records(task: Task, owner: string, outcome: Outcome, after: Task) {
    && after.id == task.id && after.kind == task.kind && after.args == task.args && after.submittedBy == task.submittedBy
    && after.owner == Some(owner) && !after.state.Pending?
    && (after.state.Done? <==> outcome.Finished?) && (after.state.Failed? <==> outcome.Raised?)
    && (outcome.Finished? ==> after.result == Some(outcome.result) && after.error == task.error)
    && (outcome.Raised? ==> after.error == Some(outcome.error) && after.result == task.result)
  }

  lemma CompletedRecords(c: Config, task: Task, outcome: Outcome)
    ensures Records(task, c.name, outcome, Completed(c, task, outcome))
  {
  }

  /** A claim is written once, with the claim time of the moment; one that is there stays. */
  lemma ClaimOnce(b: Board, c: Config, task: Task, t: Times)
    ensures var d := MaybeClaim(b, c, task, t).data;
            && Contains(d, ClaimKey(task.id, c.name))
            && (Contains(b.data, ClaimKey(task.id, c.name)) ==> d == b.data)
            && (!Contains(b.data, ClaimKey(task.id, c.name)) ==>
                  d[ClaimKey(task.id, c.name)].value == Some(ClaimValue(c.name, t.claim)) && ClaimsOf(d, task.id) == ClaimsOf(b.data, task.id)[c.name := t.claim])
            && forall k :: k != ClaimKey(task.id, c.name) ==> (k in d <==> k in b.data) && (k in d ==> d[k] == b.data[k])
  {
    var d, key := MaybeClaim(b, c, task, t).data, ClaimKey(task.id, c.name);
    PrefixOfConcat(ClaimPrefix(task.id), c.name);
    if !Contains(b.data, key) {
      var l, r := ClaimsOf(d, task.id), ClaimsOf(b.data, task.id)[c.name := t.claim];
      forall n ensures SameEntry(l, r, n) {
        ClaimsLookup(d, task.id, n);
        ClaimsLookup(b.data, task.id, n);
        ClaimKeyInjective(task.id, n, c.name);
      }
      SameEntriesSameMap(l, r);
    }
  }

  lemma ClaimKeyInjective(tid: string, m: string, n: string)
    ensures ClaimKey(tid, m) == ClaimKey(tid, n) ==> m == n
  {
    PrefixOfConcat(ClaimPrefix(tid), m);
    PrefixOfConcat(ClaimPrefix(tid), n);
  }

  ghost predicate Executes(b: Board, c: Config, task: Task) {
    task.id !in b.executed && IsWinner(ClaimsOf(b.data, task.id), c.name)
  }

  ghost function MaybeExecute(b: Board, c: Config, task: Task, t: Times): Board
    requires task.kind in c.handlers
  {
    if !Executes(b, c, task) then b
    else
      Write(b.(executed := b.executed + {task.id}), c.name, TASK_PREFIX + task.id,
            TaskValue(Completed(c, task, c.handlers[task.kind](task))), t.resultWrite)
  }

  /** The claim set was the same one round earlier, and the claim is old enough. */
  ghost predicate Settled(b: Board, c: Config, task: Task) {
    var age := if task.id in b.age then b.age[task.id] + 1 else 1;
    age >= c.grace && task.id in b.sig
  }

  /** Claims the task and notes this round's view of the claims. */
  ghost function Observe(b: Board, c: Config, task: Task, t: Times): Board {
    var b' := MaybeClaim(b, c, task, t);
    b'.(age := b'.age[task.id := if task.id in b.age then b.age[task.id] + 1 else 1],
        sig := b'.sig[task.id := ClaimsOf(b'.data, task.id)])
  }

  ghost predicate Ready(b: Board, c: Config, task: Task, t: Times) {
    Settled(b, c, task) && b.sig[task.id] == Observe(b, c, task, t).sig[task.id]
  }

  ghost function EvalTask(b: Board, c: Config, task: Task, t: Times): Board {
    if !task.state.Pending? then b.(age := b.age - {task.id}, sig := b.sig - {task.id})
    else if task.kind !in c.handlers then b
    else if Ready(b, c, task, t) then MaybeExecute(Observe(b, c, task, t), c, task, t)
    else Observe(b, c, task, t)
  }

  /** The executions one such step performs: none or one. */
  ghost function Executions(b: Board, c: Config, task: Task, t: Times): seq<Execution> {
    if task.state.Pending? && task.kind in c.handlers && Ready(b, c, task, t)
       && Executes(Observe(b, c, task, t), c, task)
    then [Execution(c.name, task.id, ClaimsOf(Observe(b, c, task, t).data, task.id))]
    else []
  }

  // ---- The board object ------------------------------------------------------------------

  /** Claim keys hold claims of the node they name, on a slash-free task id. */
  ghost predicate WellKeyed(d: Data<Value>) {
    forall k :: k in d && Contains(d, k) && HasPrefix(k, CLAIM_PREFIX) ==> ClaimAt(d, k)
  }

  ghost predicate ClaimAt(d: Data<Value>, k: string)
    requires k in d
  {
    && d[k].value.Some? && d[k].value.value.ClaimValue?
    && exists t :: SlashFree(t) && k == ClaimKey(t, d[k].value.value.nodeId)
  }

  lemma ClaimOfTask(d: Data<Value>, k: string, tid: string)
    requires WellKeyed(d) && SlashFree(tid) && Contains(d, k) && HasPrefix(k, ClaimPrefix(tid))
    ensures LiveClaim(d, k, tid) && k == ClaimKey(tid, d[k].value.value.nodeId)
  {
    assert HasPrefix(k, CLAIM_PREFIX) by {
      PrefixSplits(k, ClaimPrefix(tid));
      assert k == CLAIM_PREFIX + (tid + "/" + k[|ClaimPrefix(tid)|..]);
    }
    assert ClaimAt(d, k);
    var n := d[k].value.value.nodeId;
    var t :| SlashFree(t) && k == ClaimKey(t, n);
    UnderSegment(CLAIM_PREFIX, tid, t, n);
  }

  ghost predicate SameEntry(l: map<string, real>, r: map<string, real>, n: string) {
    (n in l <==> n in r) && (n in l ==> l[n] == r[n])
  }

  lemma SameEntriesSameMap(l: map<string, real>, r: map<string, real>)
    requires forall n :: SameEntry(l, r, n)
    ensures l == r
  {
    forall n ensures n in l <==> n in r { assert SameEntry(l, r, n); }
    forall n | n in l ensures l[n] == r[n] { assert SameEntry(l, r, n); }
  }

  lemma ClaimsNext(d: Data<Value>, done: set<string>, k: string, tid: string, m: string)
    requires k in d && k !in done && LiveClaim(d, k, tid) && k == ClaimKey(tid, m)
    ensures ClaimsOf(Part(d, done + {k}), tid) == ClaimsOf(Part(d, done), tid)[m := d[k].value.value.claimTs]
  {
    var l, r := ClaimsOf(Part(d, done + {k}), tid), ClaimsOf(Part(d, done), tid)[m := d[k].value.value.claimTs];
    forall n ensures SameEntry(l, r, n) { ClaimsNextAt(d, done, k, tid, m, n); }
    SameEntriesSameMap(l, r);
  }

  lemma ClaimsNextAt(d: Data<Value>, done: set<string>, k: string, tid: string, m: string, n: string)
    requires k in d && k !in done && LiveClaim(d, k, tid) && k == ClaimKey(tid, m)
    ensures SameEntry(ClaimsOf(Part(d, done + {k}), tid), ClaimsOf(Part(d, done), tid)[m := d[k].value.value.claimTs], n)
  {
    ClaimsLookup(Part(d, done), tid, n);
    ClaimsLookup(Part(d, done + {k}), tid, n);
    LiveNext(d, done, k, tid, n, m);
  }

  lemma NoClaimNext(d: Data<Value>, done: set<string>, k: string, tid: string)
    requires k in d && !LiveClaim(d, k, tid)
    ensures ClaimsOf(Part(d, done + {k}), tid) == ClaimsOf(Part(d, done), tid)
  {
    var p, q := Part(d, done), Part(d, done + {k});
    forall n ensures SameEntry(ClaimsOf(q, tid), ClaimsOf(p, tid), n) {
      ClaimsLookup(p, tid, n);
      ClaimsLookup(q, tid, n);
    }
    SameEntriesSameMap(ClaimsOf(q, tid), ClaimsOf(p, tid));
  }

  lemma LiveNext(d: Data<Value>, done: set<string>, k: string, tid: string, n: string, m: string)
    requires k in d && k !in done && LiveClaim(d, k, tid) && k == ClaimKey(tid, m)
    ensures LiveClaim(Part(d, done + {k}), ClaimKey(tid, n), tid) <==> n == m || LiveClaim(Part(d, done), ClaimKey(tid, n), tid)
    ensures n != m ==> ClaimKey(tid, n) != k
  {
    PrefixOfConcat(ClaimPrefix(tid), n);
    PrefixOfConcat(ClaimPrefix(tid), m);
  }

  /** Python's `min` over the claims, by claim time and then by node. */
  method Earliest(claims: map<string, real>) returns (best: string)
    requires claims != map[]
    ensures IsWinner(claims, best)
  {
    assert claims.Keys != {};
    best :| best in claims;
    var todo := claims.Keys - {best};
    while todo != {}
      invariant todo <= claims.Keys && best in claims
      invariant Leads(claims, best, claims.Keys - todo)
    {
      var n :| n in todo;
      BestSoFar(claims, best, n, claims.Keys - todo);
      if Before(claims, n, best) {
        best := n;
      }
      assert claims.Keys - (todo - {n}) == claims.Keys - todo + {n};
      todo := todo - {n};
    }
    assert claims.Keys - todo == claims.Keys;
  }

  class TaskBoard {
    const store: DistributedStore<Value>
    const handlers: map<string, Task -> Outcome>
    const grace: int
    var executed: set<string>
    var claimAge: map<string, int>
    var claimSig: map<string, map<string, real>>

    constructor (store: DistributedStore<Value>, handlers: map<string, Task -> Outcome>, grace: int)
      ensures this.store == store && this.handlers == handlers && this.grace == grace
      ensures executed == {} && claimAge == map[] && claimSig == map[]
    {
      this.store, this.handlers, this.grace := store, handlers, grace;
      executed, claimAge, claimSig := {}, map[], map[];
    }

    ghost function View(): Board
      reads this, store
    {
      Board(store.data, store.highest, executed, claimAge, claimSig)
    }

    ghost function Setup(): Config {
      Config(store.nodeId, handlers, grace)
    }

    method Claims(tid: string) returns (claims: map<string, real>)
      requires WellKeyed(store.data) && SlashFree(tid)
      ensures claims == ClaimsOf(store.data, tid)
    {
      claims := map[];
      var prefix := CLAIM_PREFIX + tid + "/";
      var todo := store.data.Keys;
      ghost var done: set<string> := {};
      assert Part(store.data, done) == map[];
      while todo != {}
        invariant todo !! done && todo + done == store.data.Keys
        invariant claims == ClaimsOf(Part(store.data, done), tid)
      {
        var k :| k in todo;
        if !store.data[k].deleted && HasPrefix(k, prefix) {
          ClaimOfTask(store.data, k, tid);
          var value := store.data[k].value.value;
          ClaimsNext(store.data, done, k, tid, value.nodeId);
          claims := claims[value.nodeId := value.claimTs];
        } else {
          NoClaimNext(store.data, done, k, tid);
        }
        todo, done := todo - {k}, done + {k};
      }
      JoinWithAll(store.data, store.data);
      assert done == store.data.Keys;
    }

    /** Earliest claim, ties by node id; None when nobody claimed. */
    method Winner(tid: string) returns (w: Option<string>)
      requires WellKeyed(store.data) && SlashFree(tid)
      ensures w.None? <==> ClaimsOf(store.data, tid) == map[]
      ensures w.Some? ==> IsWinner(ClaimsOf(store.data, tid), w.value)
      ensures w.Some? ==> var claims := ClaimsOf(store.data, tid);
                          forall n :: n in claims && n != w.value ==>
                            claims[w.value] < claims[n] || (claims[w.value] == claims[n] && Less(w.value, n))
    {
      var claims := Claims(tid);
      if claims == map[] {
        return None;
      }
      var best := Earliest(claims);
      w := Some(best);
    }

    /** Publishes a new task. */
    method Submit(tid: string, kind: string, args: string, now: real)
      modifies store
      ensures View() == Write(old(View()), store.nodeId, TASK_PREFIX + tid, TaskValue(NewTask(tid, kind, args, store.nodeId)), now)
      ensures exists t :: ShowsTask(store.data, TASK_PREFIX + tid, t) && t.state.Pending? && t.id == tid && t.kind == kind && t.args == args
                          && t.submittedBy == store.nodeId && t.owner.None? && t.result.None? && t.error.None?
    {
      PrefixOfConcat(TASK_PREFIX, tid);
      var task := Task(tid, kind, args, Pending, store.nodeId, None, None, None);
      var _ := store.Set(TASK_PREFIX + tid, Some(TaskValue(task)), now);
      assert ShowsTask(store.data, TASK_PREFIX + tid, task);
    }

    method ClaimIfNeeded(task: Task, t: Times)
      modifies store
      ensures View() == MaybeClaim(old(View()), Setup(), task, t)
    {
      var key := CLAIM_PREFIX + task.id + "/" + store.nodeId;
      if key !in store.data || store.data[key].deleted {
        var _ := store.Set(key, Some(ClaimValue(store.nodeId, t.claim)), t.claimWrite);
      }
    }

    method ExecuteIfWon(task: Task, t: Times) returns (ran: bool)
      requires WellKeyed(store.data) && SlashFree(task.id) && task.kind in handlers
      modifies this, store
      ensures View() == MaybeExecute(old(View()), Setup(), task, t)
      ensures ran <==> Executes(old(View()), Setup(), task)
      ensures !ran ==> View() == old(View())
      ensures ran ==> exists after :: ShowsTask(store.data, TASK_PREFIX + task.id, after)
                                      && Records(task, store.nodeId, handlers[task.kind](task), after)
    {
      if task.id in executed {
        return false;
      }
      var w := Winner(task.id);
      if w != Some(store.nodeId) {
        if w.Some? && IsWinner(ClaimsOf(store.data, task.id), store.nodeId) {
          WinnerUnique(ClaimsOf(store.data, task.id), w.value, store.nodeId);
        }
        return false;
      }
      executed := executed + {task.id};
      var outcome := handlers[task.kind](task);
      var after := match outcome
        case Finished(r) => task.(state := Done, result := Some(r), owner := Some(store.nodeId))
        case Raised(e) => task.(state := Failed, error := Some(e), owner := Some(store.nodeId));
      var _ := store.Set(TASK_PREFIX + task.id, Some(TaskValue(after)), t.resultWrite);
      assert Records(task, store.nodeId, outcome, after);
      PrefixOfConcat(TASK_PREFIX, task.id);
      assert ShowsTask(store.data, TASK_PREFIX + task.id, after);
      return true;
    }

    /** Claims the task and notes this round's view of the claims. */
    method WatchClaims(task: Task, t: Times) returns (ready: bool)
      requires WellKeyed(store.data) && SlashFree(task.id)
      modifies this, store
      ensures View() == Observe(old(View()), Setup(), task, t) && WellKeyed(store.data)
      ensures ready <==> Ready(old(View()), Setup(), task, t)
    {
      ClaimKeepsKeyed(View(), Setup(), task, t);
      ClaimIfNeeded(task, t);
      var age := (if task.id in claimAge then claimAge[task.id] else 0) + 1;
      claimAge := claimAge[task.id := age];
      var sig := Claims(task.id);
      var stable := task.id in claimSig && claimSig[task.id] == sig;
      claimSig := claimSig[task.id := sig];
      ready := age >= grace && stable;
    }

    /** One pass of the loop in `evaluate`. A task runs only if this node wins the claims it sees,
        the same claims it saw a round ago, after at least `grace` rounds, and never twice. */
    method EvaluateOne(task: Task, t: Times) returns (ran: bool)
      requires WellKeyed(store.data) && SlashFree(task.id)
      modifies this, store
      ensures View() == EvalTask(old(View()), Setup(), task, t)
      ensures ran <==> Executions(old(View()), Setup(), task, t) != []
      ensures ran ==> task.id !in old(executed) && task.id in executed
      ensures ran ==> task.id in old(claimSig) && IsWinner(old(claimSig)[task.id], store.nodeId)
    {
      ran := false;
      if !task.state.Pending? {
        claimAge := claimAge - {task.id};
        claimSig := claimSig - {task.id};
        return;
      }
      if task.kind !in handlers {
        return;
      }
      var ready := WatchClaims(task, t);
      if !ready {
        return;
      }
      ran := ExecuteIfWon(task, t);
    }

    /** All tasks in the store, in dictionary order. */
    method TaskList() returns (tasks: seq<Task>)
      requires WellFormedTasks(store.data)
      ensures ListsTasks(store.data, tasks)
    {
      tasks := [];
      ghost var keys: seq<string> := [];
      var todo := store.data.Keys;
      while todo != {}
        invariant todo <= store.data.Keys && NoRepeats(keys) && |tasks| == |keys|
        invariant forall k :: k in keys <==> k in store.data.Keys - todo && Contains(store.data, k) && HasPrefix(k, TASK_PREFIX)
        invariant forall i :: 0 <= i < |tasks| ==> ShowsTask(store.data, keys[i], tasks[i])
      {
        var k :| k in todo;
        if !store.data[k].deleted && HasPrefix(k, TASK_PREFIX) {
          assert TaskAt(store.data, k);
          tasks, keys := tasks + [store.data[k].value.value.task], keys + [k];
        }
        todo := todo - {k};
      }
      assert TasksAt(store.data, keys, tasks);
    }

    /** The next of the tasks: `prior` is the state before any of them. */
    method EvaluateNext(list: seq<Task>, i: nat, times: nat -> Times, ghost prior: Board)
      requires WellKeyed(store.data) && i < |list| && SlashFree(list[i].id)
      requires View() == EvalAll(prior, Setup(), list[..i], times)
      modifies this, store
      ensures WellKeyed(store.data) && View() == EvalAll(prior, Setup(), list[..i + 1], times)
    {
      EvalKeepsKeyed(View(), Setup(), list[i], times(i));
      EvalAllNext(prior, Setup(), list, i, times);
      var _ := EvaluateOne(list[i], times(i));
    }

    method Evaluate(times: nat -> Times) returns (ghost tasks: seq<Task>)
      requires WellKeyed(store.data) && WellFormedTasks(store.data)
      modifies this, store
      ensures ListsTasks(old(store.data), tasks)
      ensures View() == EvalAll(old(View()), Setup(), tasks, times)
    {
      var list := TaskList();
      tasks := list;
      ListedSlashFree(store.data, list);
      ghost var prior := View();
      for i := 0 to |list|
        invariant WellKeyed(store.data) && View() == EvalAll(prior, Setup(), list[..i], times)
      {
        EvaluateNext(list, i, times, prior);
      }
      assert list[..|list|] == list;
    }
  }

  ghost predicate ShowsTask(d: Data<Value>, k: string, t: Task) {
    Contains(d, k) && HasPrefix(k, TASK_PREFIX) && d[k].value == Some(TaskValue(t))
  }

  ghost predicate TaskAt(d: Data<Value>, k: string)
    requires k in d
  {
    d[k].value.Some? && d[k].value.value.TaskValue? && SlashFree(d[k].value.value.task.id)
  }

  /** Task keys hold task records, and task ids are slash-free. */
  ghost predicate WellFormedTasks(d: Data<Value>) {
    forall k :: k in d && Contains(d, k) && HasPrefix(k, TASK_PREFIX) ==> TaskAt(d, k)
  }

  /** The live task keys, each once, and the task each of them holds. */
  ghost predicate TasksAt(d: Data<Value>, keys: seq<string>, tasks: seq<Task>) {
    && NoRepeats(keys) && (forall k :: k in keys <==> Contains(d, k) && HasPrefix(k, TASK_PREFIX))
    && |tasks| == |keys| && forall i :: 0 <= i < |tasks| ==> ShowsTask(d, keys[i], tasks[i])
  }

  /** `tasks` lists the tasks in the store, one for each of their keys, in some order. */
  ghost predicate ListsTasks(d: Data<Value>, tasks: seq<Task>) {
    exists keys :: TasksAt(d, keys, tasks)
  }

  lemma ListedTask(d: Data<Value>, tasks: seq<Task>, i: nat) returns (k: string)
    requires ListsTasks(d, tasks) && i < |tasks|
    ensures k in d && ShowsTask(d, k, tasks[i])
  {
    var keys :| TasksAt(d, keys, tasks);
    k := keys[i];
  }

  lemma ListedSlashFree(d: Data<Value>, tasks: seq<Task>)
    requires WellFormedTasks(d) && ListsTasks(d, tasks)
    ensures forall i :: 0 <= i < |tasks| ==> SlashFree(tasks[i].id)
  {
    forall i | 0 <= i < |tasks| ensures SlashFree(tasks[i].id) {
      var k := ListedTask(d, tasks, i);
      assert TaskAt(d, k);
    }
  }

  ghost function EvalAll(b: Board, c: Config, tasks: seq<Task>, times: nat -> Times): Board {
    if tasks == [] then b
    else
      var last := |tasks| - 1;
      EvalTask(EvalAll(b, c, tasks[..last], times), c, tasks[last], times(last))
  }

  lemma TaskKeyIsNoClaim(tid: string)
    ensures !HasPrefix(TASK_PREFIX + tid, CLAIM_PREFIX)
  {
    assert (TASK_PREFIX + tid)[2] == 't' && CLAIM_PREFIX[2] == 'c';
  }

  lemma EvalAllNext(b: Board, c: Config, list: seq<Task>, i: nat, times: nat -> Times)
    requires i < |list|
    ensures EvalAll(b, c, list[..i + 1], times) == EvalTask(EvalAll(b, c, list[..i], times), c, list[i], times(i))
  {
    assert list[..i + 1][..i] == list[..i];
  }

  lemma EvalKeepsKeyed(b: Board, c: Config, task: Task, t: Times)
    requires WellKeyed(b.data) && SlashFree(task.id)
    ensures WellKeyed(EvalTask(b, c, task, t).data)
  {
    ClaimKeepsKeyed(b, c, task, t);
    TaskKeyIsNoClaim(task.id);
    var o, d := Observe(b, c, task, t).data, EvalTask(b, c, task, t).data;
    forall k | k in d && Contains(d, k) && HasPrefix(k, CLAIM_PREFIX) ensures ClaimAt(d, k) {
      if k in o { assert Contains(o, k) ==> ClaimAt(o, k); }
      if k in b.data { assert Contains(b.data, k) ==> ClaimAt(b.data, k); }
    }
  }

  lemma ClaimKeepsKeyed(b: Board, c: Config, task: Task, t: Times)
    requires WellKeyed(b.data) && SlashFree(task.id)
    ensures WellKeyed(MaybeClaim(b, c, task, t).data)
  {
    var d := MaybeClaim(b, c, task, t).data;
    forall k | k in d && Contains(d, k) && HasPrefix(k, CLAIM_PREFIX) ensures ClaimAt(d, k) {
      if k != ClaimKey(task.id, c.name) { assert ClaimAt(b.data, k); }
    }
  }
}
