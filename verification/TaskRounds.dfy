/** One node evaluating one pending task round after round, with no claims coming in from elsewhere:
    it runs the task exactly once, in the first round its patience allows. */
module TaskRounds {
  import opened Keys
  import opened Store
  import opened Tasks

  ghost function Age(b: Board, tid: string): int {
    if tid in b.age then b.age[tid] else 0
  }

  /** One round for one task: nothing but forgetting its rounds when it is no longer pending, nothing
      at all when this node cannot run it, and else one round more, with the claims seen noted. */
  lemma RoundEffects(b: Board, c: Config, task: Task, t: Times)
    ensures var d := EvalTask(b, c, task, t);
            && (!task.state.Pending? ==>
                  d.data == b.data && d.executed == b.executed && d.highest == b.highest && task.id !in d.age && task.id !in d.sig)
            && (task.state.Pending? && task.kind !in c.handlers ==> d == b)
            && (task.state.Pending? && task.kind in c.handlers ==>
                  Age(d, task.id) == Age(b, task.id) + 1 && task.id in d.sig
                  && d.sig[task.id] == ClaimsOf(MaybeClaim(b, c, task, t).data, task.id))
            && forall o :: o != task.id ==> (o in d.age <==> o in b.age) && (o in b.age ==> d.age[o] == b.age[o])
                                            && (o in d.sig <==> o in b.sig) && (o in b.sig ==> d.sig[o] == b.sig[o])
  {
  }

  /** A task is run in a round exactly when it is pending and of a kind this node handles, has been
      watched for `grace` rounds, shows the claims it showed a round ago, was not run here before,
      and this node wins those claims. */
  lemma RunsExactlyWhen(b: Board, c: Config, task: Task, t: Times)
    ensures var view := ClaimsOf(MaybeClaim(b, c, task, t).data, task.id);
            Executions(b, c, task, t) == [Execution(c.name, task.id, view)] <==>
              && task.state.Pending? && task.kind in c.handlers
              && Age(b, task.id) + 1 >= c.grace
              && task.id in b.sig && b.sig[task.id] == view
              && task.id !in b.executed && IsWinner(view, c.name)
    ensures Executions(b, c, task, t) == [] || |Executions(b, c, task, t)| == 1
  {
  }

  /** The board after `n` rounds. */
  ghost function Rounds(b: Board, c: Config, task: Task, times: nat -> Times, n: nat): Board {
    if n == 0 then b else EvalTask(Rounds(b, c, task, times, n - 1), c, task, times(n - 1))
  }

  ghost function RanIn(b: Board, c: Config, task: Task, times: nat -> Times, n: nat): seq<Execution> {
    if n == 0 then []
    else RanIn(b, c, task, times, n - 1) + Executions(Rounds(b, c, task, times, n - 1), c, task, times(n - 1))
  }

  /** A claim set must be seen twice, and for `grace` rounds. */
  ghost function FirstChance(c: Config): nat {
    if c.grace > 2 then c.grace else 2
  }

  /** The node has watched the same claims for `n` rounds and not run the task. */
  ghost predicate Watched(b: Board, c: Config, task: Task, view: map<string, real>, n: nat) {
    && task.id in b.age && b.age[task.id] == n && task.id in b.sig && b.sig[task.id] == view
    && ClaimsOf(b.data, task.id) == view && Contains(b.data, ClaimKey(task.id, c.name)) && task.id !in b.executed
  }

  lemma WatchMore(b: Board, c: Config, task: Task, view: map<string, real>, n: nat, t: Times)
    requires task.state.Pending? && task.kind in c.handlers && IsWinner(view, c.name) && Watched(b, c, task, view, n)
    ensures n + 1 < c.grace ==> Executions(b, c, task, t) == [] && Watched(EvalTask(b, c, task, t), c, task, view, n + 1)
    ensures n + 1 >= c.grace ==>
              Executions(b, c, task, t) == [Execution(c.name, task.id, view)] && task.id in EvalTask(b, c, task, t).executed
  {
    ClaimOnce(b, c, task, t);
    assert Observe(b, c, task, t).data == b.data;
  }

  lemma WatchStarts(b: Board, c: Config, task: Task, t: Times)
    requires task.state.Pending? && task.kind in c.handlers
    requires task.id !in b.age && task.id !in b.sig && task.id !in b.executed
    ensures Executions(b, c, task, t) == []
    ensures Watched(EvalTask(b, c, task, t), c, task, ClaimsOf(MaybeClaim(b, c, task, t).data, task.id), 1)
  {
    ClaimOnce(b, c, task, t);
  }

  lemma RunOnce(b: Board, c: Config, task: Task, t: Times)
    requires task.id in b.executed
    ensures Executions(b, c, task, t) == [] && task.id in EvalTask(b, c, task, t).executed
  {
  }

  /** After `n` rounds the node is watching still, or it has run the task once. */
  ghost predicate OnTime(b: Board, c: Config, task: Task, view: map<string, real>, ran: seq<Execution>, n: nat) {
    if n < FirstChance(c) then ran == [] && Watched(b, c, task, view, n)
    else ran == [Execution(c.name, task.id, view)] && task.id in b.executed
  }

  lemma OnTimeNext(b: Board, c: Config, task: Task, view: map<string, real>, ran: seq<Execution>, n: nat, t: Times)
    requires task.state.Pending? && task.kind in c.handlers && n >= 1 && IsWinner(view, c.name)
    requires OnTime(b, c, task, view, ran, n)
    ensures OnTime(EvalTask(b, c, task, t), c, task, view, ran + Executions(b, c, task, t), n + 1)
  {
    if n < FirstChance(c) {
      WatchMore(b, c, task, view, n, t);
    } else {
      RunOnce(b, c, task, t);
    }
  }

  lemma RoundsNext(b: Board, c: Config, task: Task, times: nat -> Times, n: nat, prior: Board, ran: seq<Execution>)
    requires n > 0 && prior == Rounds(b, c, task, times, n - 1) && ran == RanIn(b, c, task, times, n - 1)
    ensures Rounds(b, c, task, times, n) == EvalTask(prior, c, task, times(n - 1))
    ensures RanIn(b, c, task, times, n) == ran + Executions(prior, c, task, times(n - 1))
  {
  }

  lemma NothingBefore(ran: seq<Execution>)
    ensures [] + ran == ran
  {
  }

  lemma NoRounds(b: Board, c: Config, task: Task, times: nat -> Times)
    ensures Rounds(b, c, task, times, 0) == b && RanIn(b, c, task, times, 0) == []
  {
  }

  ghost predicate Starts(b: Board, c: Config, task: Task, view: map<string, real>, t: Times) {
    && task.state.Pending? && task.kind in c.handlers
    && task.id !in b.age && task.id !in b.sig && task.id !in b.executed
    && view == ClaimsOf(MaybeClaim(b, c, task, t).data, task.id) && IsWinner(view, c.name)
  }

  lemma FirstRound(b: Board, c: Config, task: Task, view: map<string, real>, t: Times)
    requires Starts(b, c, task, view, t)
    ensures OnTime(EvalTask(b, c, task, t), c, task, view, Executions(b, c, task, t), 1)
  {
    WatchStarts(b, c, task, t);
  }

  lemma {:induction false} RoundsFrom(b: Board, c: Config, task: Task, view: map<string, real>, times: nat -> Times, n: nat)
    requires Starts(b, c, task, view, times(0)) && n >= 1
    ensures OnTime(Rounds(b, c, task, times, n), c, task, view, RanIn(b, c, task, times, n), n)
  {
    var k := n - 1;
    var prior, ran := Rounds(b, c, task, times, k), RanIn(b, c, task, times, k);
    RoundsNext(b, c, task, times, n, prior, ran);
    if k == 0 {
      NoRounds(b, c, task, times);
      FirstRound(b, c, task, view, times(0));
      NothingBefore(Executions(b, c, task, times(0)));
    } else {
      RoundsFrom(b, c, task, view, times, k);
      OnTimeNext(prior, c, task, view, ran, k, times(k));
    }
  }

  /** A node that wins the claims it sees runs the task exactly once: never before its claim has been
      watched for `grace` rounds and the claims seen twice unchanged, and no later than that. */
  lemma WinnerRunsOnTime(b: Board, c: Config, task: Task, times: nat -> Times, n: nat)
    requires task.state.Pending? && task.kind in c.handlers
    requires task.id !in b.age && task.id !in b.sig && task.id !in b.executed
    requires IsWinner(ClaimsOf(MaybeClaim(b, c, task, times(0)).data, task.id), c.name)
    ensures |RanIn(b, c, task, times, n)| == if n < FirstChance(c) then 0 else 1
  {
    if n > 0 { RoundsFrom(b, c, task, ClaimsOf(MaybeClaim(b, c, task, times(0)).data, task.id), times, n); }
  }

  /** What a run leaves in the store: the task with the outcome of the handler. */
  lemma RunStoresOutcome(b: Board, c: Config, task: Task, t: Times)
    requires Executions(b, c, task, t) != []
    ensures exists after :: ShowsTask(EvalTask(b, c, task, t).data, TASK_PREFIX + task.id, after)
                            && Records(task, c.name, c.handlers[task.kind](task), after)
  {
    var after := Completed(c, task, c.handlers[task.kind](task));
    CompletedRecords(c, task, c.handlers[task.kind](task));
    PrefixOfConcat(TASK_PREFIX, task.id);
    assert ShowsTask(EvalTask(b, c, task, t).data, TASK_PREFIX + task.id, after);
  }
}
