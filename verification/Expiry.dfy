// The hash of a job between the gateway, which writes it, its tasks, and the day it
// expires.
module Expiry {
  import opened Basics
  import opened Broker
  import opened Delivery
  import Settling

  // The step writes or removes the hash of the job: its submission, its expiry, or a
  // command of one of its tasks.
  predicate Writes(s: Cluster, step: Step, j: nat) {
    match step
    case Submit(k) => k == j
    case ExpireJob(k) => k == j
    case Exec(t, _) => t in s.tasks && s.tasks[t].job == j
    case Raise(t, _) => t in s.tasks && s.tasks[t].job == j
    case _ => false
  }

  // The run leads from s to u without such a step.
  ghost predicate Unwritten(cfg: Config, s: Cluster, steps: seq<Step>, u: Cluster, j: nat)
    decreases |steps|
  {
    if steps == [] then u == s
    else Enabled(cfg, s, steps[0]) && !Writes(s, steps[0], j) && Unwritten(cfg, Apply(cfg, s, steps[0]), steps[1..], u, j)
  }

  ghost predicate Same(s: Cluster, u: Cluster, j: nat) {
    (j in u.jobs <==> j in s.jobs) && (j in s.jobs ==> u.jobs[j] == s.jobs[j])
  }

  lemma EffectOfOther(s: Cluster, task: Task, j: nat)
    requires task.job != j
    ensures Same(s, Effect(s, task), j)
  {
  }

  lemma StepLeaves(cfg: Config, s: Cluster, step: Step, j: nat)
    requires Enabled(cfg, s, step) && !Writes(s, step, j)
    ensures Same(s, Apply(cfg, s, step), j)
  {
    match step
    case Exec(t, _) =>
      EffectOfOther(s, s.tasks[t], j);
      hide Effect, Next, Same;
      assert Apply(cfg, s, step).jobs == Effect(s, s.tasks[t]).jobs;
      SameJobs(s, Effect(s, s.tasks[t]), Apply(cfg, s, step), j);
    case Raise(t, applied) =>
      EffectOfOther(s, s.tasks[t], j);
      hide Effect, Next, Same;
      var r := if applied then Effect(s, s.tasks[t]) else s;
      assert Apply(cfg, s, step).jobs == r.jobs;
      SameItself(s, j);
      SameJobs(s, r, Apply(cfg, s, step), j);
    case Reserve(_, _) => hide FirstFrom, HasNew;
    case _ =>
  }

  lemma SameItself(s: Cluster, j: nat)
    ensures Same(s, s, j)
  {
  }

  lemma SameJobs(s: Cluster, t: Cluster, u: Cluster, j: nat)
    requires Same(s, t, j) && u.jobs == t.jobs
    ensures Same(s, u, j)
  {
  }

  lemma {:induction false} RunLeaves(cfg: Config, s: Cluster, steps: seq<Step>, u: Cluster, j: nat)
    requires Unwritten(cfg, s, steps, u, j)
    ensures Same(s, u, j)
    decreases |steps|
  {
    if steps != [] {
      StepLeaves(cfg, s, steps[0], j);
      hide Apply, Enabled, Writes;
      RunLeaves(cfg, Apply(cfg, s, steps[0]), steps[1..], u, j);
    }
  }

  // A job that was submitted waits, with no attempt counted, until a task of its own
  // takes a command or its hash expires.
  lemma SubmittedWaits(cfg: Config, s: Cluster, rest: seq<Step>, u: Cluster, j: nat)
    requires Enabled(cfg, s, Submit(j)) && Unwritten(cfg, Apply(cfg, s, Submit(j)), rest, u, j)
    ensures j in u.jobs && StatusOf(u, j) == Some(Waiting) && AttemptsOf(u, j) == 0
  {
    RunLeaves(cfg, Apply(cfg, s, Submit(j)), rest, u, j);
  }

  // A delivery that is loaded after the hash has expired, unless it was written anew,
  // and is not interrupted, leaves the job failed with no attempt counted, its entry
  // acknowledged and deleted, and nothing dead-lettered.
  lemma ExpiredSettlesFailed(cfg: Config, s: Cluster, rest: seq<Step>, u: Cluster, t: nat, out: Outcome)
    returns (n: nat, v: Cluster)
    requires t in u.tasks && u.tasks[t].pc.Load?
    requires var j := u.tasks[t].job; Enabled(cfg, s, ExpireJob(j)) && Unwritten(cfg, Apply(cfg, s, ExpireJob(j)), rest, u, j)
    ensures n <= 11 && Settling.Drives(cfg, u, t, out, n, v) && t !in v.tasks
    ensures var j, e := u.tasks[t].job, u.tasks[t].entry;
            && StatusOf(v, j) == Some(Failed) && AttemptsOf(v, j) == 0
            && e !in v.q.pel && e !in v.q.stream && v.q.dead == u.q.dead
  {
    RunLeaves(cfg, Apply(cfg, s, ExpireJob(u.tasks[t].job)), rest, u, u.tasks[t].job);
    n, v := Settling.DeliverySettles(cfg, u, t, out);
    hide Apply, Settling.Drives, Unwritten;
  }
}
