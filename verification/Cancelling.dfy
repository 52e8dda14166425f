// What asking for the cancellation of a job comes to: which runs see the request,
// what its tasks do then, and what they no longer do.
module Cancelling {
  import opened Basics
  import opened Broker
  import opened Delivery
  import Settling

  // The cancellation of a job has been asked for, and the request has not expired
  // since.
  ghost predicate Requested(steps: seq<Step>, j: nat) {
    Since(steps, RequestCancel(j), {ExpireCancel(j)})
  }

  // Between the counting of an attempt and the end of the work.
  predicate AtWork(pc: Pc) { pc.Bump? || pc.MarkProcessing? || pc.Work? }

  ghost predicate Working(s: Cluster, t: nat, j: nat) { t in s.tasks && s.tasks[t].job == j && AtWork(s.tasks[t].pc) }

  // --------------------------------------------- where the request is noted

  lemma FlagStep(cfg: Config, s: Cluster, step: Step, j: nat)
    requires Enabled(cfg, s, step)
    ensures j in Apply(cfg, s, step).cancels
            <==> step == RequestCancel(j) || (j in s.cancels && step != ExpireCancel(j))
  {
    if step.Exec? || step.Raise? { EffectIsNarrow(s, s.tasks[step.t]); }
    hide Effect, Next, FirstFrom, Enabled;
    match step
    case Reserve(_, _) =>
    case _ =>
  }

  lemma {:induction false} FlagRun(cfg: Config, s: Cluster, steps: seq<Step>, u: Cluster, j: nat)
    requires Leads(cfg, s, steps, u)
    ensures j in u.cancels <==> Requested(steps, j) || (j in s.cancels && ExpireCancel(j) !in steps)
    decreases |steps|
  {
    if steps != [] {
      var step, rest := steps[0], steps[1..];
      assert steps == [step] + rest;
      FlagStep(cfg, s, step, j);
      hide Apply, Enabled;
      FlagRun(cfg, Apply(cfg, s, step), rest, u, j);
      SinceNext(step, rest, RequestCancel(j), {ExpireCancel(j)});
      hide Since;
      assert ExpireCancel(j) in steps <==> step == ExpireCancel(j) || ExpireCancel(j) in rest;
    }
  }

  // A task that comes to the check is sent to cancel its job if and only if the
  // run before it holds a request that has not expired, and else to count the
  // attempt.
  lemma CheckSeesRequestIff(cfg: Config, steps: seq<Step>, s: Cluster, t: nat, out: Outcome)
    requires Leads(cfg, Initial, steps, s) && t in s.tasks && s.tasks[t].pc.CheckCancel?
    ensures var u := Apply(cfg, s, Exec(t, out));
            && t in u.tasks
            && u.tasks[t] == s.tasks[t].(pc := if Requested(steps, s.tasks[t].job) then MarkCancelled else Bump)
  {
    FlagRun(cfg, Initial, steps, s, s.tasks[t].job);
    Settling.After(cfg, s, t, out);
    hide Apply, Requested, Leads;
  }

  // --------------------------------------------- nobody starts on the job

  lemma NextAtWork(cfg: Config, s: Cluster, task: Task, out: Outcome)
    ensures var next := Next(cfg, s, task, out);
            next.Some? && AtWork(next.value) ==> AtWork(task.pc) || (task.pc.CheckCancel? && task.job !in s.cancels)
  {
  }

  // While the flag is up a task at work was at work before.
  lemma WorkStep(cfg: Config, s: Cluster, step: Step, j: nat, t: nat)
    requires Enabled(cfg, s, step) && j in s.cancels && Working(Apply(cfg, s, step), t, j)
    ensures Working(s, t, j)
  {
    match step
    case Exec(x, out) =>
      EffectTasks(s, s.tasks[x]);
      NextAtWork(cfg, s, s.tasks[x], out);
      hide Effect, Next;
    case Raise(x, _) =>
      EffectTasks(s, s.tasks[x]);
      hide Effect, Next;
    case Reserve(_, _) => hide FirstFrom, HasNew;
    case _ =>
  }

  lemma {:induction false} WorkRun(cfg: Config, s: Cluster, steps: seq<Step>, u: Cluster, j: nat, t: nat)
    requires Leads(cfg, s, steps, u) && j in s.cancels && ExpireCancel(j) !in steps && Working(u, t, j)
    ensures Working(s, t, j)
    decreases |steps|
  {
    if steps != [] {
      FlagStep(cfg, s, steps[0], j);
      hide Apply, Enabled, Working;
      WorkRun(cfg, Apply(cfg, s, steps[0]), steps[1..], u, j, t);
      WorkStep(cfg, s, steps[0], j, t);
    }
  }

  // Once the cancellation of a job has been asked for, and until the request
  // expires, no task of the job gets to counting an attempt, or to the work, that
  // was not there already: whatever everybody else does.
  lemma NoWorkAfterRequest(cfg: Config, s: Cluster, rest: seq<Step>, u: Cluster, j: nat, t: nat)
    requires Leads(cfg, s, [RequestCancel(j)] + rest, u) && ExpireCancel(j) !in rest && Working(u, t, j)
    ensures Working(s, t, j)
  {
    var step := RequestCancel(j);
    assert ([step] + rest)[1..] == rest;
    FlagStep(cfg, s, step, j);
    WorkRun(cfg, Apply(cfg, s, step), rest, u, j, t);
    WorkStillThere(cfg, s, j, t);
  }

  lemma WorkStillThere(cfg: Config, s: Cluster, j: nat, t: nat)
    requires Working(Apply(cfg, s, RequestCancel(j)), t, j)
    ensures Working(s, t, j)
  {
  }

  // --------------------------------------------- nor counts an attempt

  // What a task does to the counter of its job.
  lemma EffectOnCounter(s: Cluster, task: Task)
    ensures !task.pc.Bump? && !task.pc.MarkProcessing? ==> AttemptsOf(Effect(s, task), task.job) == AttemptsOf(s, task.job)
  {
  }

  lemma ContinueCounts(s: Cluster, t: nat, next: Option<Pc>, k: nat, j: nat)
    requires t in s.tasks
    ensures AttemptsOf(Continue(s, t, next), j) == AttemptsOf(s, j) == AttemptsOf(Lose(Continue(s, t, next), k), j)
  {
  }

  // Such a task leaves the counter of the job as it is, at every step it takes.
  lemma RequestedNeverCounts(cfg: Config, s: Cluster, rest: seq<Step>, u: Cluster, j: nat, step: Step)
    requires Leads(cfg, s, [RequestCancel(j)] + rest, u) && ExpireCancel(j) !in rest
    requires (step.Exec? || step.Raise?) && Enabled(cfg, u, step) && u.tasks[step.t].job == j && !Working(s, step.t, j)
    ensures AttemptsOf(Apply(cfg, u, step), j) == AttemptsOf(u, j)
  {
    if Working(u, step.t, j) { NoWorkAfterRequest(cfg, s, rest, u, j, step.t); }
    OffWorkKeepsCounter(cfg, u, step);
  }

  lemma OffWorkKeepsCounter(cfg: Config, s: Cluster, step: Step)
    requires (step.Exec? || step.Raise?) && Enabled(cfg, s, step) && !AtWork(s.tasks[step.t].pc)
    ensures AttemptsOf(Apply(cfg, s, step), s.tasks[step.t].job) == AttemptsOf(s, s.tasks[step.t].job)
  {
    var t, task := step.t, s.tasks[step.t];
    EffectOnCounter(s, task);
    EffectTasks(s, task);
    var next := if step.Exec? then Next(cfg, s, task, step.out)
                else if Guarded(task.pc) then Some(ReadAttempts(false)) else None;
    var r := if step.Exec? || step.applied then Effect(s, task) else s;
    ContinueCounts(r, t, next, task.job, task.job);
    hide Effect, Next, Guarded, AttemptsOf, Continue, Lose;
  }

  // --------------------------------------------- and the job is cancelled

  // A delivery that is loaded after the request and not interrupted leaves an
  // unfinished job cancelled, with no attempt counted, its entry acknowledged and
  // deleted, and nothing dead-lettered.
  lemma RequestedSettlesCancelled(cfg: Config, s: Cluster, rest: seq<Step>, u: Cluster, t: nat, out: Outcome)
    returns (n: nat, v: Cluster)
    requires t in u.tasks && u.tasks[t].pc.Load? && u.tasks[t].job in u.jobs
    requires StatusOf(u, u.tasks[t].job) != Some(Completed) && StatusOf(u, u.tasks[t].job) != Some(Cancelled)
    requires var j := u.tasks[t].job; Leads(cfg, s, [RequestCancel(j)] + rest, u) && ExpireCancel(j) !in rest
    ensures n <= 11 && Settling.Drives(cfg, u, t, out, n, v) && t !in v.tasks
    ensures var j, e := u.tasks[t].job, u.tasks[t].entry;
            && StatusOf(v, j) == Some(Cancelled) && AttemptsOf(v, j) == AttemptsOf(u, j)
            && e !in v.q.pel && e !in v.q.stream && v.q.dead == u.q.dead
  {
    var j := u.tasks[t].job;
    assert ([RequestCancel(j)] + rest)[1..] == rest;
    FlagStep(cfg, s, RequestCancel(j), j);
    FlagRun(cfg, Apply(cfg, s, RequestCancel(j)), rest, u, j);
    n, v := Settling.DeliverySettles(cfg, u, t, out);
    hide Leads, Apply, Settling.Drives, Requested;
  }

  // --------------------------------------------- cancelled for good

  // Once the cancellation is announced, an acknowledgement that fails ends the task
  // and leaves the job cancelled: it is not taken for a broken attempt.  The entry
  // stays pending exactly if the acknowledgement took no effect.
  lemma FailingAckKeepsCancelled(cfg: Config, s: Cluster, t: nat, out: Outcome, applied: bool)
    requires t in s.tasks && s.tasks[t].pc.AnnounceCancel?
    ensures var r := Apply(cfg, s, Exec(t, out)); Enabled(cfg, r, Raise(t, applied))
    ensures var u := Apply(cfg, Apply(cfg, s, Exec(t, out)), Raise(t, applied));
            && t !in u.tasks && u.jobs == s.jobs
            && u.q == if applied then s.q.(pel := s.q.pel - {s.tasks[t].entry}) else s.q
  {
    Settling.After(cfg, s, t, out);
    var r := Apply(cfg, s, Exec(t, out));
    assert r.q == s.q && r.tasks[t].entry == s.tasks[t].entry && r.tasks[t].pc == XAck(false);
    hide Apply, Enabled, Next;
    Settling.FailingHandlingEnds(cfg, r, t, applied);
  }

  // So does a deletion that fails after it; the entry is then no longer pending.
  lemma FailingDelKeepsCancelled(cfg: Config, s: Cluster, t: nat, out: Outcome, applied: bool)
    requires t in s.tasks && s.tasks[t].pc.AnnounceCancel?
    ensures var a := Apply(cfg, s, Exec(t, out));
            Enabled(cfg, a, Exec(t, out)) && Enabled(cfg, Apply(cfg, a, Exec(t, out)), Raise(t, applied))
    ensures var b := Apply(cfg, Apply(cfg, s, Exec(t, out)), Exec(t, out));
            var u := Apply(cfg, b, Raise(t, applied));
            && t !in u.tasks && u.jobs == s.jobs && s.tasks[t].entry !in u.q.pel && u.q.dead == s.q.dead
  {
    Settling.After(cfg, s, t, out);
    var a := Apply(cfg, s, Exec(t, out));
    assert a.q == s.q && a.tasks[t].entry == s.tasks[t].entry && a.tasks[t].pc == XAck(false);
    assert Enabled(cfg, a, Exec(t, out));
    Settling.AckOnly(cfg, a, t, out);
    var b := Apply(cfg, a, Exec(t, out));
    hide Apply, Enabled, Next;
    Settling.FailingHandlingEnds(cfg, b, t, applied);
  }
}
