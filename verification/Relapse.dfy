// A terminal status is not the end of a job.  A failed job stays failed until a
// run of it is cut short while it is being closed down, and a completed one stays
// completed until a command fails for it with its attempts used up.  Both are
// exact, step by step.
module Relapse {
  import opened Basics
  import opened Broker
  import opened Delivery
  import opened Exclusive
  import opened Attempts
  import opened Scenes
  import Races
  import Settling

  // --------------------------------------------- failed jobs

  // All that is left to do once FAILED is written.
  predicate ClosingDown(pc: Pc) {
    pc.AnnounceFailed? || pc.DeadLetterAdd? || (pc.XAck? && !pc.guarded) || (pc.XDel? && !pc.guarded)
  }

  // Nobody will load the job again: it is being closed down, or its entry is gone.
  ghost predicate Sealed(s: Cluster, j: nat, e: nat) {
    && (Resting(s, j) ==> !Owed(s, e))
    && (forall t :: t in s.tasks && s.tasks[t].job == j ==> ClosingDown(s.tasks[t].pc))
  }

  // The closing down ends before the entry is acknowledged: its worker crashes, or
  // one of its commands fails and is not the acknowledgement taking effect.
  ghost predicate CutsShort(s: Cluster, step: Step, j: nat, e: nat) {
    && e in s.q.pel
    && match step
       case Crash(w) => Runs(s, w, j)
       case Raise(t, applied) => t in s.tasks && s.tasks[t].job == j && !(s.tasks[t].pc.XAck? && applied)
       case _ => false
  }

  lemma UntouchedSealed(s: Cluster, u: Cluster, j: nat, e: nat)
    requires Sealed(s, j, e) && Untouched(s, u, j, e)
    ensures Sealed(u, j, e) && StatusOf(u, j) == StatusOf(s, j)
  {
    hide LettersFor;
    if Resting(u, j) { assert Resting(s, j); }
  }

  lemma UntouchedIsUncut(s: Cluster, step: Step, j: nat, e: nat)
    requires !Touches(s, step, j, e)
    ensures !CutsShort(s, step, j, e)
  {
  }

  // Once failed, a task goes on closing down until the entry is gone.
  lemma ClosesDown(cfg: Config, s: Cluster, task: Task, out: Outcome)
    requires task.pc.MarkFailed? || ClosingDown(task.pc)
    ensures var next := Next(cfg, s, task, out); if next.Some? then ClosingDown(next.value) else task.pc.XDel?
    ensures StatusAfter(s, task) == if task.pc.MarkFailed? then Some(Failed) else StatusOf(s, task.job)
  {
  }

  // Closing down, and writing FAILED to begin with, seals the job.
  lemma ExecSeals(cfg: Config, s: Cluster, t: nat, out: Outcome, e: nat)
    requires t in s.tasks && s.tasks[t].entry == e && TaskOk(s, s.tasks[t]) && Sole(s, s.tasks[t].job)
    requires s.tasks[t].pc.MarkFailed? || ClosingDown(s.tasks[t].pc)
    ensures var u, j := Apply(cfg, s, Exec(t, out)), s.tasks[t].job;
            Sealed(u, j, e) && StatusOf(u, j) == if s.tasks[t].pc.MarkFailed? then Some(Failed) else StatusOf(s, j)
  {
    var task := s.tasks[t];
    EffectOnStatus(s, task);
    EffectLeaves(s, task);
    ClosesDown(cfg, s, task, out);
    var r, next := Effect(s, task), Next(cfg, s, task, out);
    hide Effect, Next;
    ContinueSealed(r, t, next, e);
  }

  lemma ContinueSealed(r: Cluster, t: nat, next: Option<Pc>, e: nat)
    requires t in r.tasks && Sole(r, r.tasks[t].job)
    requires if next.Some? then ClosingDown(next.value) else !Owed(r, e)
    ensures var u, j := Continue(r, t, next), r.tasks[t].job; Sealed(u, j, e) && StatusOf(u, j) == StatusOf(r, j)
  {
    var u := Continue(r, t, next);
    if next.Some? { assert t in u.tasks && u.tasks[t].job == r.tasks[t].job; }
  }

  // A command that fails ends the closing down; the job is sealed exactly when its
  // entry is gone.  So it is when the write of FAILED took effect but failed.
  lemma RaiseSealedIff(cfg: Config, s: Cluster, t: nat, applied: bool, e: nat)
    requires t in s.tasks && s.tasks[t].entry == e && e <= s.q.last && Sole(s, s.tasks[t].job)
    requires ClosingDown(s.tasks[t].pc) || (s.tasks[t].pc.MarkFailed? && applied)
    ensures Enabled(cfg, s, Raise(t, applied))
    ensures var u, j := Apply(cfg, s, Raise(t, applied)), s.tasks[t].job;
            && Resting(u, j) && StatusOf(u, j) == (if s.tasks[t].pc.MarkFailed? then Some(Failed) else StatusOf(s, j))
            && (e in u.q.pel <==> e in s.q.pel && !(s.tasks[t].pc.XAck? && applied)) && e <= u.q.last
            && (Sealed(u, j, e) <==> !CutsShort(s, Raise(t, applied), j, e))
  {
    var task := s.tasks[t];
    EffectOnStatus(s, task);
    EffectLeaves(s, task);
    var r := if applied then Effect(s, task) else s;
    hide Effect;
    assert Resting(Continue(r, t, None), task.job);
  }

  lemma CrashSealedIff(cfg: Config, s: Cluster, w: nat, j: nat, e: nat)
    requires w in s.live && Sole(s, j) && Runs(s, w, j) && e <= s.q.last
    ensures var u := Apply(cfg, s, Crash(w));
            Resting(u, j) && StatusOf(u, j) == StatusOf(s, j) && (Sealed(u, j, e) <==> !CutsShort(s, Crash(w), j, e))
  {
  }

  // A sealed job is not handed over to anyone.
  lemma HandSealed(s: Cluster, u: Cluster, w: nat, arrives: bool, j: nat, e: nat)
    requires EntryOf(s, j, e) && Sealed(s, j, e) && Owed(s, e) && HandedOver(s, u, w, e, arrives) && Sole(u, j)
    ensures Sealed(u, j, e) && StatusOf(u, j) == StatusOf(s, j)
  {
    NewTask(s);
    assert s.q.stream[e] == j;
    hide EntryOf, Inv;
    assert StatusOf(u, j) == StatusOf(s, j);
    if arrives {
      assert u.tasks[s.nextTask].job == j;
      forall t | t in s.tasks ensures s.tasks[t].job != j { assert t in u.tasks && t != s.nextTask; }
    }
  }

  lemma HashSealed(cfg: Config, s: Cluster, step: Step, j: nat, e: nat)
    requires Sealed(s, j, e) && Enabled(cfg, s, step)
    requires step.RequestCancel? || step.ExpireCancel? || step.ExpireJob? || step.Begin?
    ensures Sealed(Apply(cfg, s, step), j, e)
    ensures step != ExpireJob(j) ==> StatusOf(Apply(cfg, s, step), j) == StatusOf(s, j)
  {
    var u := Apply(cfg, s, step);
    if Resting(u, j) {
      forall t | t in s.tasks ensures s.tasks[t].job != j { assert t in u.tasks && u.tasks[t].job == s.tasks[t].job; }
    }
  }

  lemma ReadEntry(s: Cluster, t: nat, j: nat, e: nat)
    requires EntryOf(s, j, e) && t in s.tasks && s.tasks[t].job == j
    ensures s.tasks[t].entry == e && e <= s.q.last && TaskOk(s, s.tasks[t])
  {
    OtherEntry(s, t, j, e);
    TaskFacts(s, t);
  }

  // A sealed job stays sealed through exactly the steps that do not cut its closing
  // down short, and its status stays too unless its state expires.
  lemma SealedIff(cfg: Config, s: Cluster, step: Step, j: nat, e: nat)
    requires EntryOf(s, j, e) && Sealed(s, j, e) && Enabled(cfg, s, step)
    requires Sole(s, j) && Sole(Apply(cfg, s, step), j)
    ensures Sealed(Apply(cfg, s, step), j, e) <==> !CutsShort(s, step, j, e)
    ensures step != ExpireJob(j) ==> StatusOf(Apply(cfg, s, step), j) == StatusOf(s, j)
  {
    EntryIsNamed(s, j, e);
    if !Touches(s, step, j, e) {
      UntouchedIsUncut(s, step, j, e);
      Elsewhere(cfg, s, step, j, e);
      UntouchedSealed(s, Apply(cfg, s, step), j, e);
    } else {
      TouchedSealedIff(cfg, s, step, j, e);
    }
  }

  lemma TouchedSealedIff(cfg: Config, s: Cluster, step: Step, j: nat, e: nat)
    requires EntryOf(s, j, e) && Sealed(s, j, e) && Enabled(cfg, s, step) && Touches(s, step, j, e)
    requires Sole(s, j) && Sole(Apply(cfg, s, step), j)
    ensures Sealed(Apply(cfg, s, step), j, e) <==> !CutsShort(s, step, j, e)
    ensures step != ExpireJob(j) ==> StatusOf(Apply(cfg, s, step), j) == StatusOf(s, j)
  {
    SealedTasks(s, j, e);
    hide Sealed, Inv, Apply, Sole, HandedOver, EntryOf;
    match step
    case Exec(t, out) =>
      ReadEntry(s, t, j, e);
      ExecSeals(cfg, s, t, out, e);
    case Raise(t, applied) =>
      ReadEntry(s, t, j, e);
      RaiseSealedIff(cfg, s, t, applied, e);
    case Crash(w) =>
      var t :| t in s.tasks && s.tasks[t].worker == w && s.tasks[t].job == j;
      ReadEntry(s, t, j, e);
      CrashSealedIff(cfg, s, w, j, e);
    case Reserve(_, _) => SealedIsRead(s, j, e);
    case Reclaim(w, _, arrives) =>
      ReclaimHands(cfg, s, w, e, arrives);
      HandSealed(s, Apply(cfg, s, step), w, arrives, j, e);
    case _ => HashSealed(cfg, s, step, j, e);
  }

  lemma SealedIsRead(s: Cluster, j: nat, e: nat)
    requires EntryOf(s, j, e) && Sealed(s, j, e)
    ensures e <= s.q.last
  {
    hide EntryOf;
    if t :| t in s.tasks && s.tasks[t].job == j { ReadEntry(s, t, j, e); }
  }

  lemma SealedTasks(s: Cluster, j: nat, e: nat)
    requires EntryOf(s, j, e) && Sealed(s, j, e)
    ensures Inv(s) && forall t :: t in s.tasks && s.tasks[t].job == j ==> ClosingDown(s.tasks[t].pc)
  {
  }

  // A run with at most one task for the job that never cuts its closing down short.
  ghost predicate UncutRun(cfg: Config, s: Cluster, steps: seq<Step>, u: Cluster, j: nat, e: nat)
    decreases |steps|
  {
    && Sole(s, j)
    && if steps == [] then u == s
       else Enabled(cfg, s, steps[0]) && !CutsShort(s, steps[0], j, e)
            && UncutRun(cfg, Apply(cfg, s, steps[0]), steps[1..], u, j, e)
  }

  lemma UncutIsSole(cfg: Config, s: Cluster, steps: seq<Step>, u: Cluster, j: nat, e: nat)
    requires UncutRun(cfg, s, steps, u, j, e)
    ensures Sole(s, j)
  {
  }

  lemma {:induction false} RunStaysSealed(cfg: Config, s: Cluster, steps: seq<Step>, u: Cluster, j: nat, e: nat)
    requires EntryOf(s, j, e) && Sealed(s, j, e) && UncutRun(cfg, s, steps, u, j, e)
    ensures Sealed(u, j, e) && (Lasting(steps, j) ==> StatusOf(u, j) == StatusOf(s, j))
    decreases |steps|
  {
    hide EntryOf, Sealed, Enabled, Apply, Sole, CutsShort;
    if steps != [] {
      UncutIsSole(cfg, Apply(cfg, s, steps[0]), steps[1..], u, j, e);
      SealedIff(cfg, s, steps[0], j, e);
      StepKeepsEntry(cfg, s, steps[0], j, e);
      assert Lasting(steps, j) ==> Lasting(steps[1..], j) && steps[0] != ExpireJob(j);
      RunStaysSealed(cfg, Apply(cfg, s, steps[0]), steps[1..], u, j, e);
    }
  }

  lemma {:induction false} RunIsSound(cfg: Config, s: Cluster, steps: seq<Step>, u: Cluster, j: nat)
    requires Inv(s) && Distinct(s) && SoleRun(cfg, s, steps, u, j)
    ensures Inv(u) && Distinct(u) && Sole(u, j)
    decreases |steps|
  {
    hide Inv, Distinct, Enabled, Apply, Sole;
    if steps != [] {
      StepKeepsInv(cfg, s, steps[0]);
      StepKeepsDistinct(cfg, s, steps[0]);
      RunIsSound(cfg, Apply(cfg, s, steps[0]), steps[1..], u, j);
    }
  }

  // However often the job was interrupted before: from the moment FAILED is written
  // it is never loaded or worked on again, and stays failed as long as its state is
  // kept, in every run with one task for it that does not cut its closing down
  // short; when its task is over, its entry is gone.
  lemma FailedStaysFailed(cfg: Config, before: seq<Step>, s: Cluster, t: nat, out: Outcome, after: seq<Step>, u: Cluster)
    requires t in s.tasks && s.tasks[t].pc.MarkFailed? && SoleRun(cfg, Initial, before, s, s.tasks[t].job)
    requires UncutRun(cfg, Apply(cfg, s, Exec(t, out)), after, u, s.tasks[t].job, s.tasks[t].entry)
    ensures var j, e := s.tasks[t].job, s.tasks[t].entry;
            && StatusOf(Apply(cfg, s, Exec(t, out)), j) == Some(Failed) && (Lasting(after, j) ==> StatusOf(u, j) == Some(Failed))
            && (forall k :: k in u.tasks && u.tasks[k].job == j ==> ClosingDown(u.tasks[k].pc))
            && (Resting(u, j) ==> e <= u.q.last && e !in u.q.pel)
  {
    hide TaskOk, Sole, EntryOf, Apply, SoleRun, UncutRun;
    var j, e := s.tasks[t].job, s.tasks[t].entry;
    RunFacts(cfg, before, s, t);
    FailingSeals(cfg, s, t, out);
    RunStaysSealed(cfg, Apply(cfg, s, Exec(t, out)), after, u, j, e);
  }

  lemma RunFacts(cfg: Config, steps: seq<Step>, s: Cluster, t: nat)
    requires t in s.tasks && SoleRun(cfg, Initial, steps, s, s.tasks[t].job)
    ensures EntryOf(s, s.tasks[t].job, s.tasks[t].entry) && TaskOk(s, s.tasks[t]) && Sole(s, s.tasks[t].job)
  {
    InitialInv();
    RunIsSound(cfg, Initial, steps, s, s.tasks[t].job);
    TaskJobIsEnqueued(s, t);
    TaskFacts(s, t);
    hide SoleRun;
  }

  lemma FailingSeals(cfg: Config, s: Cluster, t: nat, out: Outcome)
    requires t in s.tasks && s.tasks[t].pc.MarkFailed?
    requires EntryOf(s, s.tasks[t].job, s.tasks[t].entry) && TaskOk(s, s.tasks[t]) && Sole(s, s.tasks[t].job)
    ensures var u, j, e := Apply(cfg, s, Exec(t, out)), s.tasks[t].job, s.tasks[t].entry;
            EntryOf(u, j, e) && Sealed(u, j, e) && StatusOf(u, j) == Some(Failed)
  {
    hide EntryOf, Sealed, TaskOk, Apply;
    StepKeepsEntry(cfg, s, Exec(t, out), s.tasks[t].job, s.tasks[t].entry);
    ExecSeals(cfg, s, t, out, s.tasks[t].entry);
  }

  // --------------------------------------------- after the cut

  lemma {:induction false} LeadsJoin(cfg: Config, s: Cluster, a: seq<Step>, t: Cluster, b: seq<Step>, u: Cluster)
    requires Leads(cfg, s, a, t) && Leads(cfg, t, b, u)
    ensures Leads(cfg, s, a + b, u)
    decreases |a|
  {
    hide Enabled, Apply;
    if a == [] {
      assert a + b == b;
    } else {
      LeadsJoin(cfg, Apply(cfg, s, a[0]), a[1..], t, b, u);
      TailOfConcat(a, b);
    }
  }

  // A job that is failed, resting and still pending is loaded by whoever reclaims
  // it.
  lemma PendingIsLoaded(cfg: Config, s: Cluster, j: nat, e: nat, w: nat, ms: nat) returns (u: Cluster)
    requires EntryOf(s, j, e) && e in s.q.pel && w in s.live && s.now + ms >= s.q.pel[e].since + cfg.visibilityMs
    ensures Leads(cfg, s, [Tick(ms), Reclaim(w, e, true), Begin(s.nextTask)], u)
    ensures s.nextTask in u.tasks && u.tasks[s.nextTask].job == j && u.tasks[s.nextTask].pc.Load?
    ensures StatusOf(u, j) == StatusOf(s, j) && u.cancels == s.cancels
  {
    PendingIsRead(s, e);
    var n, x, y, z := s.nextTask, Tick(ms), Reclaim(w, e, true), Begin(s.nextTask);
    var a := s.(now := s.now + ms);
    assert Apply(cfg, s, x) == a && Enabled(cfg, a, y) && s.q.stream[e] == j;
    hide EntryOf, Inv;
    var b := Apply(cfg, a, y);
    TakenTask(cfg, a, w, e);
    u := Apply(cfg, b, z);
    BegunTask(cfg, b, n);
    hide Apply, Enabled;
    assert Leads(cfg, u, [], u);
    Precede(cfg, b, z, [], u);
    Precede(cfg, a, y, [z], u);
    Precede(cfg, s, x, [y, z], u);
    assert [x] + [y, z] == [x, y, z];
  }

  lemma TakenTask(cfg: Config, s: Cluster, w: nat, e: nat)
    requires Enabled(cfg, s, Reclaim(w, e, true))
    ensures var u, n := Apply(cfg, s, Reclaim(w, e, true)), s.nextTask;
            && n in u.tasks && u.tasks[n].pc.Fetched? && u.tasks[n].job == s.q.stream[e]
            && u.jobs == s.jobs && u.cancels == s.cancels
  {
  }

  lemma BegunTask(cfg: Config, s: Cluster, t: nat)
    requires t in s.tasks && s.tasks[t].pc.Fetched?
    ensures Enabled(cfg, s, Begin(t))
    ensures var u := Apply(cfg, s, Begin(t));
            && t in u.tasks && u.tasks[t].job == s.tasks[t].job && u.tasks[t].pc.Load?
            && u.jobs == s.jobs && u.cancels == s.cancels
  {
  }

  lemma CutRests(cfg: Config, s: Cluster, step: Step, j: nat, e: nat)
    requires EntryOf(s, j, e) && Sealed(s, j, e) && Enabled(cfg, s, step) && Sole(s, j) && CutsShort(s, step, j, e)
    ensures var u := Apply(cfg, s, step);
            Resting(u, j) && e in u.q.pel && u.q.pel[e] == s.q.pel[e] && StatusOf(u, j) == StatusOf(s, j) && u.cancels == s.cancels
  {
    SealedTasks(s, j, e);
    match step
    case Raise(t, applied) =>
      ReadEntry(s, t, j, e);
      RaiseSealedIff(cfg, s, t, applied, e);
      EffectLeaves(s, s.tasks[t]);
      hide Effect, Inv, EntryOf;
    case Crash(w) =>
      var t :| t in s.tasks && s.tasks[t].worker == w && s.tasks[t].job == j;
      ReadEntry(s, t, j, e);
      CrashSealedIff(cfg, s, w, j, e);
  }

  // And such a cut does make the failed job run again: with a worker alive and no
  // cancel flag, seven steps lead from there to the work.
  lemma CutRunsAgain(cfg: Config, s: Cluster, step: Step, j: nat, e: nat, w: nat, ms: nat) returns (more: seq<Step>, u: Cluster)
    requires EntryOf(s, j, e) && Sealed(s, j, e) && Enabled(cfg, s, step) && Sole(s, j) && CutsShort(s, step, j, e)
    requires StatusOf(s, j) == Some(Failed) && j !in s.cancels && w in Apply(cfg, s, step).live
    requires Apply(cfg, s, step).now + ms >= s.q.pel[e].since + cfg.visibilityMs
    ensures |more| == 7 && Leads(cfg, Apply(cfg, s, step), more, u)
    ensures exists k :: k in u.tasks && u.tasks[k].job == j && u.tasks[k].pc.Work?
    ensures StatusOf(u, j) == Some(Processing)
  {
    var c := Apply(cfg, s, step);
    StepKeepsEntry(cfg, s, step, j, e);
    CutRests(cfg, s, step, j, e);
    hide EntryOf, Sealed, Sole, CutsShort, Apply, Enabled, Leads;
    var n := c.nextTask;
    var loaded := PendingIsLoaded(cfg, c, j, e, w, ms);
    FailedJobRunsAgain(cfg, loaded, n);
    var again := seq(4, _ => Exec(n, Breaks));
    u :| Leads(cfg, loaded, again, u) && n in u.tasks && u.tasks[n].job == loaded.tasks[n].job && u.tasks[n].pc.Work?
         && StatusOf(u, loaded.tasks[n].job) == Some(Processing);
    more := [Tick(ms), Reclaim(w, e, true), Begin(n)] + again;
    LeadsJoin(cfg, c, [Tick(ms), Reclaim(w, e, true), Begin(n)], loaded, again, u);
  }

  // --------------------------------------------- completed jobs

  predicate UsedUp(cfg: Config, s: Cluster, j: nat) {
    (if AttemptsOf(s, j) == 0 then 1 else AttemptsOf(s, j)) >= cfg.maxAttempts
  }

  // What follows the writing of COMPLETED and is still part of the processing.
  predicate AfterCompletion(pc: Pc) { pc.Announce? || (pc.XAck? && pc.guarded) || (pc.XDel? && pc.guarded) }

  // Where a task of a completed job may be: it has just completed it, or it has got
  // the entry again and will skip it, or one of these was interrupted with attempts
  // left.
  predicate Harmless(cfg: Config, s: Cluster, j: nat, pc: Pc) {
    || pc.Fetched? || pc.Load? || AfterCompletion(pc) || pc.NoteRetry?
    || (pc.ReadAttempts? && !pc.permanent && !UsedUp(cfg, s, j))
  }

  ghost predicate Kept(cfg: Config, s: Cluster, j: nat) {
    && StatusOf(s, j) == Some(Completed)
    && (forall t :: t in s.tasks && s.tasks[t].job == j ==> Harmless(cfg, s, j, s.tasks[t].pc))
  }

  // A command of a task of the job fails inside its processing with the attempts
  // used up.
  ghost predicate Spoils(cfg: Config, s: Cluster, step: Step, j: nat) {
    && step.Raise? && step.t in s.tasks && s.tasks[step.t].job == j
    && (s.tasks[step.t].pc.Load? || AfterCompletion(s.tasks[step.t].pc)) && UsedUp(cfg, s, j)
  }

  lemma SameHashKept(cfg: Config, s: Cluster, u: Cluster, j: nat)
    requires Kept(cfg, s, j) && SameHash(s, u, j)
    requires forall t :: t in u.tasks && u.tasks[t].job == j ==>
               u.tasks[t].pc.Fetched? || u.tasks[t].pc.Load? || (t in s.tasks && u.tasks[t] == s.tasks[t])
    ensures Kept(cfg, u, j)
  {
    hide LostOf;
    assert UsedUp(cfg, u, j) == UsedUp(cfg, s, j);
    forall t | t in u.tasks && u.tasks[t].job == j ensures Harmless(cfg, u, j, u.tasks[t].pc) {
      if t in s.tasks && u.tasks[t] == s.tasks[t] { assert Harmless(cfg, s, j, s.tasks[t].pc); }
    }
  }

  // A step of a task of the job, which leaves the hash as it is.
  lemma OneTaskKept(cfg: Config, s: Cluster, r: Cluster, t: nat, next: Option<Pc>)
    requires t in s.tasks && Kept(cfg, s, s.tasks[t].job) && r.tasks == s.tasks
    requires StatusOf(r, s.tasks[t].job) == StatusOf(s, s.tasks[t].job) && AttemptsOf(r, s.tasks[t].job) == AttemptsOf(s, s.tasks[t].job)
    ensures var u, j := Continue(r, t, next), s.tasks[t].job;
            && (Kept(cfg, u, j) <==> next.None? || Harmless(cfg, s, j, next.value))
            && (Kept(cfg, Lose(u, j), j) <==> Kept(cfg, u, j))
  {
    var u, j := Continue(r, t, next), s.tasks[t].job;
    KeptAlike(cfg, u, Lose(u, j), j);
    assert StatusOf(u, j) == StatusOf(s, j) && UsedUp(cfg, u, j) == UsedUp(cfg, s, j);
    forall k | k in u.tasks && u.tasks[k].job == j && k != t ensures Harmless(cfg, u, j, u.tasks[k].pc) {
      assert Harmless(cfg, s, j, s.tasks[k].pc);
    }
    if next.Some? { assert t in u.tasks && u.tasks[t].pc == next.value && u.tasks[t].job == j; }
  }

  lemma KeptAlike(cfg: Config, s: Cluster, u: Cluster, j: nat)
    requires u.tasks == s.tasks && u.jobs == s.jobs
    ensures Kept(cfg, u, j) <==> Kept(cfg, s, j)
  {
  }

  // What the commands of such a task do and where they lead.
  lemma HarmlessNext(cfg: Config, s: Cluster, task: Task, out: Outcome)
    requires StatusOf(s, task.job) == Some(Completed) && Harmless(cfg, s, task.job, task.pc) && !task.pc.Fetched?
    ensures var next := Next(cfg, s, task, out); next.None? || Harmless(cfg, s, task.job, next.value)
    ensures StatusAfter(s, task) == StatusOf(s, task.job) && Counted(s, task) == AttemptsOf(s, task.job)
    ensures Guarded(task.pc) <==> task.pc.Load? || AfterCompletion(task.pc)
  {
  }

  lemma TaskKeptIff(cfg: Config, s: Cluster, step: Step)
    requires Enabled(cfg, s, step) && (step.Exec? || step.Raise?) && Kept(cfg, s, s.tasks[step.t].job)
    ensures var j := s.tasks[step.t].job; Kept(cfg, Apply(cfg, s, step), j) <==> !Spoils(cfg, s, step, j)
  {
    var t := step.t;
    var task := s.tasks[t];
    EffectCounts(s, task);
    EffectOnStatus(s, task);
    EffectTasks(s, task);
    HarmlessNext(cfg, s, task, if step.Exec? then step.out else Breaks);
    hide Effect, Next, StatusAfter, Counted, Guarded, Kept;
    var next := if step.Exec? then Next(cfg, s, task, step.out)
                else if Guarded(task.pc) then Some(ReadAttempts(false)) else None;
    var r := if step.Exec? || step.applied then Effect(s, task) else s;
    OneTaskKept(cfg, s, r, t, next);
  }

  lemma OtherTaskKept(cfg: Config, s: Cluster, step: Step, j: nat)
    requires Enabled(cfg, s, step) && (step.Exec? || step.Raise?) && s.tasks[step.t].job != j && Kept(cfg, s, j)
    ensures Kept(cfg, Apply(cfg, s, step), j)
  {
    var t := step.t;
    var task := s.tasks[t];
    var e := task.entry + 1;
    EffectElsewhere(s, task, j, e);
    UntouchedItself(s, j, e);
    var next := if step.Exec? then Next(cfg, s, task, step.out)
                else if Guarded(task.pc) then Some(ReadAttempts(false)) else None;
    var r := if step.Exec? || step.applied then Effect(s, task) else s;
    hide Effect, Next, Guarded, LettersFor, Untouched, Kept;
    ContinueElsewhere(r, t, next, j, e);
    UntouchedChain(s, r, Continue(r, t, next), j, e);
    LoseElsewhere(Continue(r, t, next), task.job, j, e);
    UntouchedChain(s, Continue(r, t, next), Lose(Continue(r, t, next), task.job), j, e);
    UntouchedKept(cfg, s, Apply(cfg, s, step), j, e);
  }

  lemma UntouchedKept(cfg: Config, s: Cluster, u: Cluster, j: nat, e: nat)
    requires Untouched(s, u, j, e) && Kept(cfg, s, j)
    ensures Kept(cfg, u, j)
  {
    hide Kept, LettersFor, SameHash;
    SameHashKept(cfg, s, u, j);
  }

  lemma HandKept(cfg: Config, s: Cluster, u: Cluster, w: nat, e: nat, arrives: bool, j: nat)
    requires HandedOver(s, u, w, e, arrives) && s.nextTask !in s.tasks && Kept(cfg, s, j)
    ensures Kept(cfg, u, j)
  {
    hide Kept;
    SameHashKept(cfg, s, u, j);
  }

  lemma RestKept(cfg: Config, s: Cluster, step: Step, j: nat)
    requires Kept(cfg, s, j) && Enabled(cfg, s, step) && step != ExpireJob(j)
    requires !step.Exec? && !step.Raise? && !step.Reserve? && !step.Reclaim?
    ensures Kept(cfg, Apply(cfg, s, step), j)
  {
    var u := Apply(cfg, s, step);
    assert StatusOf(u, j) == StatusOf(s, j) && AttemptsOf(u, j) == AttemptsOf(s, j);
    forall t | t in u.tasks && u.tasks[t].job == j ensures Harmless(cfg, u, j, u.tasks[t].pc) {
      assert t in s.tasks && s.tasks[t].job == j && Harmless(cfg, s, j, s.tasks[t].pc);
    }
  }

  // A completed job with no task elsewhere in its processing is kept by exactly the
  // steps that do not spoil it, as long as its state does not expire.
  lemma KeptIff(cfg: Config, s: Cluster, step: Step, j: nat)
    requires Inv(s) && Kept(cfg, s, j) && Enabled(cfg, s, step) && step != ExpireJob(j)
    ensures Kept(cfg, Apply(cfg, s, step), j) <==> !Spoils(cfg, s, step, j)
  {
    hide Inv, Apply, Kept, Enabled;
    match step
    case Exec(_, _) | Raise(_, _) => CommandKeptIff(cfg, s, step, j);
    case Reserve(_, _) | Reclaim(_, _, _) => TakeKept(cfg, s, step, j);
    case _ => RestKept(cfg, s, step, j);
  }

  lemma CommandKeptIff(cfg: Config, s: Cluster, step: Step, j: nat)
    requires Kept(cfg, s, j) && Enabled(cfg, s, step) && (step.Exec? || step.Raise?)
    ensures Kept(cfg, Apply(cfg, s, step), j) <==> !Spoils(cfg, s, step, j)
  {
    hide Apply, Kept;
    if s.tasks[step.t].job == j { TaskKeptIff(cfg, s, step); } else { OtherTaskKept(cfg, s, step, j); }
  }

  lemma TakeKept(cfg: Config, s: Cluster, step: Step, j: nat)
    requires Inv(s) && Kept(cfg, s, j) && Enabled(cfg, s, step) && (step.Reserve? || step.Reclaim?)
    ensures Kept(cfg, Apply(cfg, s, step), j)
  {
    NewTask(s);
    hide Inv, Apply, Kept, HandedOver;
    match step
    case Reserve(w, arrives) =>
      ReserveHands(cfg, s, w, arrives);
      HandKept(cfg, s, Apply(cfg, s, step), w, s.q.last + 1, arrives, j);
    case Reclaim(w, e, arrives) =>
      ReclaimHands(cfg, s, w, e, arrives);
      HandKept(cfg, s, Apply(cfg, s, step), w, e, arrives, j);
  }

  // The writing of COMPLETED by the only task of the job starts it; when the write
  // takes effect but fails, exactly if attempts are left.
  lemma CompletingKeeps(cfg: Config, s: Cluster, t: nat, out: Outcome)
    requires t in s.tasks && s.tasks[t].pc.MarkCompleted? && Sole(s, s.tasks[t].job)
    ensures Kept(cfg, Apply(cfg, s, Exec(t, out)), s.tasks[t].job)
    ensures Kept(cfg, Apply(cfg, s, Raise(t, true)), s.tasks[t].job) <==> !UsedUp(cfg, s, s.tasks[t].job)
  {
    var task := s.tasks[t];
    EffectOnStatus(s, task);
    EffectCounts(s, task);
    EffectTasks(s, task);
    hide Effect;
    var r, j := Effect(s, task), task.job;
    OnlyTaskKept(cfg, r, t, Announce);
    OnlyTaskKept(cfg, r, t, ReadAttempts(false));
    assert UsedUp(cfg, r, j) == UsedUp(cfg, s, j);
  }

  lemma OnlyTaskKept(cfg: Config, r: Cluster, t: nat, pc: Pc)
    requires t in r.tasks && Sole(r, r.tasks[t].job) && StatusOf(r, r.tasks[t].job) == Some(Completed)
    ensures Kept(cfg, Continue(r, t, Some(pc)), r.tasks[t].job) <==> Harmless(cfg, r, r.tasks[t].job, pc)
  {
    var u, j := Continue(r, t, Some(pc)), r.tasks[t].job;
    assert StatusOf(u, j) == StatusOf(r, j) && UsedUp(cfg, u, j) == UsedUp(cfg, r, j);
    assert t in u.tasks && u.tasks[t].pc == pc && u.tasks[t].job == j;
  }

  // A run that never spoils the job, and during which its state does not expire.
  ghost predicate UnspoiledRun(cfg: Config, s: Cluster, steps: seq<Step>, u: Cluster, j: nat)
    decreases |steps|
  {
    if steps == [] then u == s
    else Enabled(cfg, s, steps[0]) && steps[0] != ExpireJob(j) && !Spoils(cfg, s, steps[0], j)
         && UnspoiledRun(cfg, Apply(cfg, s, steps[0]), steps[1..], u, j)
  }

  lemma {:induction false} RunStaysKept(cfg: Config, s: Cluster, steps: seq<Step>, u: Cluster, j: nat)
    requires Inv(s) && Kept(cfg, s, j) && UnspoiledRun(cfg, s, steps, u, j)
    ensures Kept(cfg, u, j)
    decreases |steps|
  {
    hide Inv, Kept, Enabled, Apply, Spoils;
    if steps != [] {
      StepKeepsInv(cfg, s, steps[0]);
      KeptIff(cfg, s, steps[0], j);
      RunStaysKept(cfg, Apply(cfg, s, steps[0]), steps[1..], u, j);
    }
  }

  // From the moment COMPLETED is written by the only task of the job it stays
  // completed in every run that does not spoil it, with any number of redeliveries,
  // crashes and tasks.
  lemma CompletedStaysCompleted(cfg: Config, before: seq<Step>, s: Cluster, t: nat, out: Outcome, after: seq<Step>, u: Cluster)
    requires t in s.tasks && s.tasks[t].pc.MarkCompleted? && Leads(cfg, Initial, before, s) && Sole(s, s.tasks[t].job)
    requires UnspoiledRun(cfg, Apply(cfg, s, Exec(t, out)), after, u, s.tasks[t].job)
    ensures StatusOf(u, s.tasks[t].job) == Some(Completed)
    ensures forall k :: k in u.tasks && u.tasks[k].job == s.tasks[t].job ==> Harmless(cfg, u, s.tasks[t].job, u.tasks[k].pc)
  {
    InitialInv();
    RunKeepsInv(cfg, Initial, before, s);
    CompletingKeeps(cfg, s, t, out);
    StepKeepsInv(cfg, s, Exec(t, out));
    hide Inv, Apply, Leads, UnspoiledRun;
    RunStaysKept(cfg, Apply(cfg, s, Exec(t, out)), after, u, s.tasks[t].job);
  }

  // --------------------------------------------- spoiling a completed job

  // A command fails inside the processing of a job that is completed, or is by the
  // command that fails.
  predicate Late(s: Cluster, task: Task, applied: bool) {
    || ((task.pc.Load? || AfterCompletion(task.pc)) && StatusOf(s, task.job) == Some(Completed))
    || (task.pc.MarkCompleted? && applied)
  }

  lemma RaisedLate(cfg: Config, s: Cluster, t: nat, applied: bool)
    requires t in s.tasks && Late(s, s.tasks[t], applied)
    ensures Enabled(cfg, s, Raise(t, applied))
    ensures var r, j := Apply(cfg, s, Raise(t, applied)), s.tasks[t].job;
            && r.tasks == s.tasks[t := s.tasks[t].(pc := ReadAttempts(false))]
            && StatusOf(r, j) == Some(Completed) && AttemptsOf(r, j) == AttemptsOf(s, j) && r.q.dead == s.q.dead
  {
    EffectOnStatus(s, s.tasks[t]);
    EffectCounts(s, s.tasks[t]);
    EffectTasks(s, s.tasks[t]);
    EffectOnQueue(s, s.tasks[t]);
    hide Effect;
  }

  // Run on, the failure handling marks the job as failed, puts it on the
  // dead-letter stream and takes its entry off the queue, exactly when the attempts
  // are used up; otherwise the job stays completed.
  lemma LateFailure(cfg: Config, s: Cluster, t: nat, applied: bool, out: Outcome) returns (n: nat, u: Cluster)
    requires t in s.tasks && Late(s, s.tasks[t], applied)
    ensures Leads(cfg, s, [Raise(t, applied)] + Settling.Repeat(Exec(t, out), n), u) && t !in u.tasks
    ensures var j, e := s.tasks[t].job, s.tasks[t].entry;
            if UsedUp(cfg, s, j)
            then StatusOf(u, j) == Some(Failed) && u.q.dead == s.q.dead + [DeadLetter(j, e)] && e !in u.q.pel
            else StatusOf(u, j) == Some(Completed) && u.q.dead == s.q.dead
  {
    var x, j := Raise(t, applied), s.tasks[t].job;
    var r := Apply(cfg, s, x);
    RaisedLate(cfg, s, t, applied);
    hide Effect, Apply, Enabled;
    n, u := Settling.FromFailure(cfg, r, t, out);
    Precede(cfg, s, x, Settling.Repeat(Exec(t, out), n), u);
    hide Leads;
  }

  // --------------------------------------------- runs from the start

  // A run of the job is interrupted by the crash of its worker, just after a
  // heartbeat; the worker comes back, and the entry is as it was.
  lemma CrashRun(cfg: Config, tm: Timing, c: Scene, pc: Pc)
    requires !pc.Fetched? && c.beat == c.now && c.who == 0
    ensures Piece(cfg, tm, Running(c, pc), [Crash(0)] + [Start(0)], Bare(c.(n := c.n + 1, lost := c.lost + 1)), 0)
  {
    var s, w := Running(c, pc), c.(n := c.n + 1, lost := c.lost + 1);
    var dead := Bare(w).(live := {1});
    CrashApplies(cfg, c, pc);
    BackApplies(cfg, tm, w);
    assert Timely(tm, s);
    hide Piece, Timely, Apply, Running, Bare, Enabled;
    OneStep(cfg, tm, s, Crash(0));
    OneMore(cfg, tm, s, [Crash(0)], dead, 0, Start(0));
  }

  lemma CrashApplies(cfg: Config, c: Scene, pc: Pc)
    requires c.who == 0
    ensures Enabled(cfg, Running(c, pc), Crash(0))
    ensures Apply(cfg, Running(c, pc), Crash(0)) == Bare(c.(n := c.n + 1, lost := c.lost + 1)).(live := {1})
  {
    var s := Running(c, pc);
    var u := Die(s, 0);
    assert s.enqueued[1] == 7 && forall j :: j in s.enqueued.Values ==> j == 7;
    assert c.n in s.tasks && Runs(s, 0, 7);
    assert u.lost == map[7 := c.lost + 1];
    assert u.tasks == map[] && u.inflight == {} && u.live == {1};
  }

  lemma BackApplies(cfg: Config, tm: Timing, c: Scene)
    requires c.beat == c.now
    ensures var dead := Bare(c).(live := {1});
            Enabled(cfg, dead, Start(0)) && Apply(cfg, dead, Start(0)) == Bare(c) && Timely(tm, dead) && Timely(tm, Bare(c))
  {
  }

  // The entry is handed out for the attempt after a that broke, with a heartbeat
  // just sent.
  lemma HandedAfter(cfg: Config, tm: Timing, a: nat) returns (steps: seq<Step>, c: Scene, b: nat)
    requires Ordinary(tm) && (a == 0 || a < cfg.maxAttempts)
    ensures Open(c.h) && c.h.attempts == a && c.lost == 0 && Beating(tm, c) && c.beat == c.now && c.who == 0
    ensures Piece(cfg, tm, Initial, steps, Running(c, Load), b)
  {
    hide Piece, Bare, Handed, Running;
    var before, rest, take;
    before, rest, b := AfterAttempts(cfg, tm, a);
    var d := Races.Moment(cfg, tm, rest, 0);
    take, c := ReclaimRun(cfg, tm, rest, d, 0);
    Races.BeatInStages(tm.beatGap, rest.beat, rest.now + d, rest.now + d);
    BeginRun(cfg, tm, c);
    Chain(cfg, tm, Initial, before, Bare(rest), b, take, Handed(c), 0);
    steps := before + take;
    Chain(cfg, tm, Initial, steps, Handed(c), b, [Begin(c.n)], Running(c, Load), 0);
    steps := steps + [Begin(c.n)];
  }

  // After a crash the other worker takes the entry over and loads the job.
  lemma OverTaken(cfg: Config, tm: Timing, c: Scene, pc: Pc) returns (steps: seq<Step>, c': Scene)
    requires Ordinary(tm) && !pc.Fetched? && c.beat == c.now && c.who == 0 && c.at <= c.now
    ensures Piece(cfg, tm, Running(c, pc), steps, Running(c', Load), 0) && Beating(tm, c')
    ensures c'.h == c.h && c'.lost == c.lost + 1
  {
    hide Piece, Bare, Handed, Running;
    var w := c.(n := c.n + 1, lost := c.lost + 1);
    CrashRun(cfg, tm, c, pc);
    var take;
    take, c' := ReclaimRun(cfg, tm, w, cfg.visibilityMs, 1);
    BeginRun(cfg, tm, c');
    steps := [Crash(0)] + [Start(0)];
    Chain(cfg, tm, Running(c, pc), steps, Bare(w), 0, take, Handed(c'), 0);
    steps := steps + take;
    Chain(cfg, tm, Running(c, pc), steps, Handed(c'), 0, [Begin(c'.n)], Running(c', Load), 0);
    steps := steps + [Begin(c'.n)];
  }

  // An unreadable document: the attempt fails for good.
  lemma FailRun(cfg: Config, tm: Timing, c: Scene) returns (steps: seq<Step>, c': Scene)
    requires Open(c.h) && Beating(tm, c)
    ensures c' == c.(h := Hash(Some(Failed), c.h.attempts + 1), g := c.g + {7})
    ensures Piece(cfg, tm, Running(c, Load), steps, Running(c', AnnounceFailed(true)), 1)
  {
    hide Piece, Running;
    var x, p := [Exec(c.n, Unreadable)], c.(h := Hash(Some(Processing), c.h.attempts + 1));
    c' := c.(h := Hash(Some(Failed), c.h.attempts + 1), g := c.g + {7});
    var s := Running(c, Load);
    var work := ToWork(cfg, tm, c, Unreadable);
    RunningMoves(cfg, tm, p, Work, Unreadable, p.h, p.g, ReadAttempts(true));
    RunningMoves(cfg, tm, p, ReadAttempts(true), Unreadable, p.h, p.g, MarkFailed(true));
    RunningMoves(cfg, tm, p, MarkFailed(true), Unreadable, c'.h, c'.g, AnnounceFailed(true));
    hide Went;
    Chain(cfg, tm, s, work, Running(p, Work), 1, x, Running(p, ReadAttempts(true)), 0);
    steps := work + x;
    Chain(cfg, tm, s, steps, Running(p, ReadAttempts(true)), 1, x, Running(p, MarkFailed(true)), 0);
    steps := steps + x;
    Chain(cfg, tm, s, steps, Running(p, MarkFailed(true)), 1, x, Running(c', AnnounceFailed(true)), 0);
    steps := steps + x;
  }

  ghost predicate AtCommand(s: Cluster, t: nat, pc: Pc, st: Status, lost: nat) {
    && t in s.tasks && s.tasks[t].job == 7 && s.tasks[t].pc == pc
    && StatusOf(s, 7) == Some(st) && LostOf(s, 7) == lost
  }

  lemma RunningAt(c: Scene, pc: Pc, st: Status)
    requires c.h.status == Some(st)
    ensures AtCommand(Running(c, pc), c.n, pc, st, c.lost)
  {
  }

  // One cut is enough, whatever the settings: the worker crashes before the entry
  // of the failed job is acknowledged, another takes it over, loads a job that is
  // marked as failed, and works on it.
  lemma FailedRunsAgain(cfg: Config, tm: Timing)
    returns (steps: seq<Step>, s: Cluster, more: seq<Step>, u: Cluster, t: nat)
    requires Ordinary(tm)
    ensures SteadyRun(cfg, tm, Initial, steps, s) && AtCommand(s, t, Load, Failed, 1)
    ensures SteadyRun(cfg, tm, s, more, u) && AtCommand(u, t, Work, Processing, 1)
    ensures InTime(cfg, tm) ==> SoleRun(cfg, Initial, steps + more, u, 7)
  {
    hide Piece, Running, TimelyRun, NoStops, Lasting, BumpsIn, AtCommand;
    var c, b;
    steps, c, b := HandedAfter(cfg, tm, 0);
    var fail, f := FailRun(cfg, tm, c);
    var taken, again := OverTaken(cfg, tm, f, AnnounceFailed(true));
    more := ToWork(cfg, tm, again, Breaks);
    var w := again.(h := Hash(Some(Processing), again.h.attempts + 1));
    s, u, t := Running(again, Load), Running(w, Work), again.n;
    RunningAt(again, Load, Failed);
    RunningAt(w, Work, Processing);
    Chain(cfg, tm, Initial, steps, Running(c, Load), b, fail, Running(f, AnnounceFailed(true)), 1);
    steps := steps + fail;
    Chain(cfg, tm, Initial, steps, Running(f, AnnounceFailed(true)), b + 1, taken, s, 0);
    steps := steps + taken;
    BothParts(cfg, tm, steps, s, b + 1, more, u, 1);
  }

  // Of a run in two parts.
  lemma BothParts(cfg: Config, tm: Timing, a: seq<Step>, s: Cluster, m: nat, b: seq<Step>, u: Cluster, n: nat)
    requires Piece(cfg, tm, Initial, a, s, m) && Piece(cfg, tm, s, b, u, n)
    ensures SteadyRun(cfg, tm, Initial, a, s) && SteadyRun(cfg, tm, s, b, u)
    ensures InTime(cfg, tm) ==> SoleRun(cfg, Initial, a + b, u, 7)
  {
    PieceIsSteady(cfg, tm, Initial, a, s, m);
    PieceIsSteady(cfg, tm, s, b, u, n);
    Chain(cfg, tm, Initial, a, s, m, b, u, n);
    PieceIsSteady(cfg, tm, Initial, a + b, u, m + n);
    hide Piece, TimelyRun;
    if InTime(cfg, tm) {
      InitialTimeInv(tm);
      TimelyRunIsSole(cfg, tm, Initial, a + b, u, 7);
    }
  }

  lemma Completing(cfg: Config, tm: Timing, c: Scene) returns (steps: seq<Step>, c': Scene)
    requires c.h.status == Some(Processing) && Beating(tm, c)
    ensures c' == c.(h := Hash(Some(Completed), c.h.attempts), g := c.g + {7})
    ensures Piece(cfg, tm, Running(c, Work), steps, Running(c', XAck(true)), 0)
  {
    hide Piece, Running;
    c' := c.(h := Hash(Some(Completed), c.h.attempts), g := c.g + {7});
    var x, s := [Exec(c.n, Completes)], Running(c, Work);
    RunningMoves(cfg, tm, c, Work, Completes, c.h, c.g, MarkCompleted);
    RunningMoves(cfg, tm, c, MarkCompleted, Completes, c'.h, c'.g, Announce);
    RunningMoves(cfg, tm, c', Announce, Completes, c'.h, c'.g, XAck(true));
    hide Went;
    Chain(cfg, tm, s, x, Running(c, MarkCompleted), 0, x, Running(c', Announce), 0);
    Chain(cfg, tm, s, x + x, Running(c', Announce), 0, x, Running(c', XAck(true)), 0);
    steps := x + x + x;
  }

  // The job completes in its last attempt, after all before it broke.
  lemma CompleteRun(cfg: Config, tm: Timing) returns (steps: seq<Step>, c: Scene, b: nat)
    requires Ordinary(tm)
    ensures c.h == Hash(Some(Completed), Limit(cfg)) && c.lost == 0 && Beating(tm, c) && c.beat == c.now && c.who == 0
    ensures Piece(cfg, tm, Initial, steps, Running(c, XAck(true)), b)
  {
    hide Piece, Running;
    var c0, b0;
    steps, c0, b0 := HandedAfter(cfg, tm, Limit(cfg) - 1);
    var work := ToWork(cfg, tm, c0, Completes);
    var p := c0.(h := Hash(Some(Processing), Limit(cfg)));
    var complete;
    complete, c := Completing(cfg, tm, p);
    hide Limit;
    Chain(cfg, tm, Initial, steps, Running(c0, Load), b0, work, Running(p, Work), 1);
    steps := steps + work;
    Chain(cfg, tm, Initial, steps, Running(p, Work), b0 + 1, complete, Running(c, XAck(true)), 0);
    steps, b := steps + complete, b0 + 1;
  }

  // The failure handling, from there to its end.
  lemma HandlingEnds(cfg: Config, tm: Timing, c: Scene) returns (more: seq<Step>, u: Cluster, b: nat)
    requires c.h == Hash(Some(Completed), Limit(cfg)) && Beating(tm, c)
    ensures Piece(cfg, tm, Running(c, ReadAttempts(false)), more, u, b)
    ensures StatusOf(u, 7) == Some(Failed) && u.q.dead == [DeadLetter(7, 1)] && u.tasks == map[] && LostOf(u, 7) == c.lost
  {
    var r := Running(c, ReadAttempts(false));
    var k;
    RunningIsTimely(tm, c, ReadAttempts(false));
    hide Apply, Timely, Piece;
    k, u := Settling.FromFailure(cfg, r, c.n, Breaks);
    more := Settling.Repeat(Exec(c.n, Breaks), k);
    assert u.tasks == map[] && u.lost == map[7 := c.lost];
    DrivesTimely(cfg, tm, r, c.n, Breaks, k, u);
    hide Settling.Drives, Settling.Over, SteadyRun, Running;
    b := SteadyIsPiece(cfg, tm, r, more, u);
  }

  // The next command of a completed job fails in its last attempt.
  lemma LateFails(cfg: Config, tm: Timing, c: Scene, pc: Pc) returns (steps: seq<Step>, u: Cluster, b: nat)
    requires c.h == Hash(Some(Completed), Limit(cfg)) && Beating(tm, c) && (pc.Load? || pc == XAck(true))
    ensures Piece(cfg, tm, Running(c, pc), steps, u, b)
    ensures StatusOf(u, 7) == Some(Failed) && u.q.dead == [DeadLetter(7, 1)] && u.tasks == map[] && LostOf(u, 7) == c.lost
  {
    var s, r, x := Running(c, pc), Running(c, ReadAttempts(false)), Raise(c.n, false);
    assert Apply(cfg, s, x) == r;
    RunningIsTimely(tm, c, pc);
    RunningIsTimely(tm, c, ReadAttempts(false));
    hide Apply, Timely;
    OneStep(cfg, tm, s, x);
    hide Piece, Running;
    var more;
    more, u, b := HandlingEnds(cfg, tm, c);
    Chain(cfg, tm, s, [x], r, 0, more, u, b);
    steps := [x] + more;
  }

  ghost predicate EndsFailed(u: Cluster, lost: nat) {
    StatusOf(u, 7) == Some(Failed) && u.q.dead == [DeadLetter(7, 1)] && u.tasks == map[] && LostOf(u, 7) == lost
  }

  // So a job can be completed and yet end up failed and dead-lettered, with one
  // worker, nothing interrupted and whatever the settings: its acknowledgement
  // fails.
  lemma CompletedEndsFailed(cfg: Config, tm: Timing)
    returns (steps: seq<Step>, s: Cluster, more: seq<Step>, u: Cluster, t: nat)
    requires Ordinary(tm)
    ensures SteadyRun(cfg, tm, Initial, steps, s) && AtCommand(s, t, XAck(true), Completed, 0)
    ensures SteadyRun(cfg, tm, s, more, u) && EndsFailed(u, 0)
    ensures InTime(cfg, tm) ==> SoleRun(cfg, Initial, steps + more, u, 7)
  {
    hide Piece, Running, TimelyRun, NoStops, Lasting, BumpsIn, AtCommand;
    var c, b, m;
    steps, c, b := CompleteRun(cfg, tm);
    more, u, m := LateFails(cfg, tm, c, XAck(true));
    s, t := Running(c, XAck(true)), c.n;
    RunningAt(c, XAck(true), Completed);
    BothParts(cfg, tm, steps, s, b, more, u, m);
  }

  // Nor need anything fail around the completion: the worker crashes before the
  // acknowledgement, another takes the entry over, and the loading of the job, which
  // would have been skipped, fails.
  lemma RedeliveredEndsFailed(cfg: Config, tm: Timing)
    returns (steps: seq<Step>, s: Cluster, more: seq<Step>, u: Cluster, t: nat)
    requires Ordinary(tm)
    ensures SteadyRun(cfg, tm, Initial, steps, s) && AtCommand(s, t, Load, Completed, 1)
    ensures SteadyRun(cfg, tm, s, more, u) && EndsFailed(u, 1)
    ensures InTime(cfg, tm) ==> SoleRun(cfg, Initial, steps + more, u, 7)
  {
    hide Piece, Running, TimelyRun, NoStops, Lasting, BumpsIn, AtCommand;
    var c, b, m;
    steps, c, b := CompleteRun(cfg, tm);
    var taken, again := OverTaken(cfg, tm, c, XAck(true));
    more, u, m := LateFails(cfg, tm, again, Load);
    s, t := Running(again, Load), again.n;
    RunningAt(again, Load, Completed);
    Chain(cfg, tm, Initial, steps, Running(c, XAck(true)), b, taken, s, 0);
    steps := steps + taken;
    BothParts(cfg, tm, steps, s, b, more, u, m);
  }
}
