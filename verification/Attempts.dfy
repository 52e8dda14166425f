// How often a job is tried.  The counter of attempts lives in the hash of the
// job and is bumped by one command and written back by another, so it counts
// truly only while no two tasks have the job.
module Attempts {
  import opened Basics
  import opened Broker
  import opened Delivery
  import Exclusive

  // A worker always tries a job once before it looks at the limit.
  function Limit(cfg: Config): nat { if cfg.maxAttempts == 0 then 1 else cfg.maxAttempts }

  ghost predicate Sole(s: Cluster, j: nat) {
    forall t, k :: t in s.tasks && k in s.tasks && s.tasks[t].job == j && s.tasks[k].job == j ==> t == k
  }

  ghost predicate Resting(s: Cluster, j: nat) {
    forall t :: t in s.tasks ==> s.tasks[t].job != j
  }

  ghost predicate Distinct(s: Cluster) {
    forall d, e :: d in s.enqueued && e in s.enqueued && s.enqueued[d] == s.enqueued[e] ==> d == e
  }

  ghost predicate EntryOf(s: Cluster, j: nat, e: nat) {
    Inv(s) && Distinct(s) && e in s.enqueued && s.enqueued[e] == j
  }

  // Still to be delivered or redelivered.
  predicate Owed(s: Cluster, e: nat) { e > s.q.last || e in s.q.pel }

  function LettersFor(dead: seq<DeadLetter>, j: nat): nat
    decreases |dead|
  {
    if dead == [] then 0
    else LettersFor(dead[..|dead| - 1], j) + if dead[|dead| - 1].job == j then 1 else 0
  }

  lemma LettersAdd(dead: seq<DeadLetter>, d: DeadLetter, j: nat)
    ensures LettersFor(dead + [d], j) == LettersFor(dead, j) + if d.job == j then 1 else 0
  {
    assert (dead + [d])[..|dead|] == dead;
  }

  // --------------------------------------------- what other jobs leave alone

  ghost predicate Touches(s: Cluster, step: Step, j: nat, e: nat) {
    match step
    case Exec(t, _) => t in s.tasks && s.tasks[t].job == j
    case Raise(t, _) => t in s.tasks && s.tasks[t].job == j
    case Begin(t) => t in s.tasks && s.tasks[t].job == j
    case Reserve(_, _) => s.q.last + 1 == e
    case Reclaim(_, x, _) => x == e
    case Crash(w) => Runs(s, w, j)
    case RequestCancel(k) => k == j
    case ExpireCancel(k) => k == j
    case ExpireJob(k) => k == j
    case _ => false
  }

  ghost predicate SameHash(s: Cluster, u: Cluster, j: nat) {
    && (j in u.jobs <==> j in s.jobs) && (j in s.jobs ==> u.jobs[j] == s.jobs[j])
    && (j in u.cancels <==> j in s.cancels)
    && LostOf(u, j) == LostOf(s, j)
  }

  ghost predicate SameTasks(s: Cluster, u: Cluster, j: nat) {
    forall t :: (t in s.tasks && s.tasks[t].job == j) || (t in u.tasks && u.tasks[t].job == j) ==>
      t in s.tasks && t in u.tasks && u.tasks[t] == s.tasks[t]
  }

  ghost predicate SameEntry(s: Cluster, u: Cluster, j: nat, e: nat) {
    && LettersFor(u.q.dead, j) == LettersFor(s.q.dead, j)
    && (e in u.q.pel <==> e in s.q.pel) && (e in u.q.stream <==> e in s.q.stream)
    && (e > u.q.last <==> e > s.q.last)
  }

  ghost predicate Untouched(s: Cluster, u: Cluster, j: nat, e: nat) {
    SameHash(s, u, j) && SameTasks(s, u, j) && SameEntry(s, u, j, e)
  }

  lemma StepKeepsEntry(cfg: Config, s: Cluster, step: Step, j: nat, e: nat)
    requires EntryOf(s, j, e) && Enabled(cfg, s, step)
    ensures EntryOf(Apply(cfg, s, step), j, e)
  {
    StepKeepsInv(cfg, s, step);
    EnqueuedBy(cfg, s, step);
    hide Inv, Apply;
  }

  lemma EnqueuedBy(cfg: Config, s: Cluster, step: Step)
    requires Enabled(cfg, s, step)
    ensures var u := Apply(cfg, s, step);
            u.enqueued == if step.Enqueue? then s.enqueued[s.q.nextId := step.j] else s.enqueued
  {
    hide FirstFrom, HasNew, Runs;
    match step
    case Exec(t, _) => CommandEnqueues(cfg, s, step);
    case Raise(t, _) => CommandEnqueues(cfg, s, step);
    case _ =>
  }

  lemma CommandEnqueues(cfg: Config, s: Cluster, step: Step)
    requires Enabled(cfg, s, step) && (step.Exec? || step.Raise?)
    ensures Apply(cfg, s, step).enqueued == s.enqueued
  {
    EffectEnqueued(s, s.tasks[step.t]);
    EffectTasks(s, s.tasks[step.t]);
    hide Effect, Next;
  }

  lemma EffectEnqueued(s: Cluster, task: Task)
    ensures Effect(s, task).enqueued == s.enqueued
  {
    EffectIsNarrow(s, task);
    hide Effect;
  }

  lemma UntouchedChain(s: Cluster, t: Cluster, u: Cluster, j: nat, e: nat)
    requires Untouched(s, t, j, e) && Untouched(t, u, j, e)
    ensures Untouched(s, u, j, e)
  {
  }

  lemma UntouchedItself(s: Cluster, j: nat, e: nat)
    ensures Untouched(s, s, j, e)
  {
  }

  // A command of a task of another job.
  lemma EffectElsewhere(s: Cluster, task: Task, j: nat, e: nat)
    requires task.job != j && task.entry != e
    ensures Untouched(s, Effect(s, task), j, e)
    ensures Effect(s, task).tasks == s.tasks && Effect(s, task).nextTask == s.nextTask
  {
    EffectTasks(s, task);
    hide Untouched;
    match task.pc
    case DeadLetterAdd | XAck(_) | XDel(_) => QueueEffect(s, task, j, e);
    case Bump | MarkProcessing(_) | ReadAttempts(_) | MarkCompleted | MarkFailed(_) | MarkCancelled => HashEffect(s, task, j, e);
    case _ =>
      assert Effect(s, task) == s;
      UntouchedItself(s, j, e);
  }

  lemma QueueEffect(s: Cluster, task: Task, j: nat, e: nat)
    requires task.job != j && task.entry != e
    requires task.pc.DeadLetterAdd? || task.pc.XAck? || task.pc.XDel?
    ensures Untouched(s, Effect(s, task), j, e)
  {
    EffectOnQueue(s, task);
    EffectIsNarrow(s, task);
    QueueOnly(s, task);
    LettersAdd(s.q.dead, DeadLetter(task.job, task.entry), j);
    hide LettersFor, Effect;
  }

  lemma QueueOnly(s: Cluster, task: Task)
    requires task.pc.DeadLetterAdd? || task.pc.XAck? || task.pc.XDel?
    ensures SameButQueue(s, Effect(s, task))
  {
    hide Ack, Del, AddDead;
  }

  lemma HashEffect(s: Cluster, task: Task, j: nat, e: nat)
    requires task.job != j
    requires task.pc.Bump? || task.pc.MarkProcessing? || task.pc.ReadAttempts?
             || task.pc.MarkCompleted? || task.pc.MarkFailed? || task.pc.MarkCancelled?
    ensures Untouched(s, Effect(s, task), j, e)
  {
    hide Untouched, SetStatus, SetAttempts;
    match task.pc
    case Bump => AttemptsElsewhere(s, task.job, AttemptsOf(s, task.job) + 1, j, e);
    case MarkProcessing(n) =>
      StatusElsewhere(s, task.job, Processing, j, e);
      AttemptsElsewhere(SetStatus(s, task.job, Processing), task.job, n, j, e);
      UntouchedChain(s, SetStatus(s, task.job, Processing), Effect(s, task), j, e);
    case ReadAttempts(_) => AttemptsElsewhere(s, task.job, AttemptsOf(s, task.job), j, e);
    case MarkCompleted => StatusElsewhere(s, task.job, Completed, j, e);
    case MarkFailed(_) => StatusElsewhere(s, task.job, Failed, j, e);
    case MarkCancelled => StatusElsewhere(s, task.job, Cancelled, j, e);
  }

  lemma StatusElsewhere(s: Cluster, k: nat, st: Status, j: nat, e: nat)
    requires k != j
    ensures Untouched(s, SetStatus(s, k, st), j, e)
  {
    hide LettersFor;
  }

  lemma AttemptsElsewhere(s: Cluster, k: nat, n: nat, j: nat, e: nat)
    requires k != j
    ensures Untouched(s, SetAttempts(s, k, n), j, e)
  {
    hide LettersFor;
  }

  lemma ContinueElsewhere(s: Cluster, t: nat, next: Option<Pc>, j: nat, e: nat)
    requires t in s.tasks && s.tasks[t].job != j
    ensures Untouched(s, Continue(s, t, next), j, e)
  {
    hide LettersFor;
  }

  lemma LoseElsewhere(s: Cluster, k: nat, j: nat, e: nat)
    requires k != j
    ensures Untouched(s, Lose(s, k), j, e)
  {
    hide LettersFor;
  }

  lemma OtherEntry(s: Cluster, t: nat, j: nat, e: nat)
    requires EntryOf(s, j, e) && t in s.tasks
    ensures s.tasks[t].job == j <==> s.tasks[t].entry == e
    ensures s.tasks[t].job in s.enqueued.Values
  {
    assert TaskOk(s, s.tasks[t]);
  }

  lemma Elsewhere(cfg: Config, s: Cluster, step: Step, j: nat, e: nat)
    requires EntryOf(s, j, e) && Enabled(cfg, s, step) && !Touches(s, step, j, e)
    ensures Untouched(s, Apply(cfg, s, step), j, e)
  {
    NotTouched(s, step, j, e);
    hide Apply, Inv, Untouched, HandedOver, Enabled;
    match step
    case Exec(t, _) => TaskElsewhere(cfg, s, step, j, e);
    case Raise(t, _) => TaskElsewhere(cfg, s, step, j, e);
    case Reserve(w, arrives) => 
      ReserveHands(cfg, s, w, arrives);
      HandElsewhere(s, Apply(cfg, s, step), w, s.q.last + 1, arrives, j, e);
    case Reclaim(w, x, arrives) => 
      ReclaimHands(cfg, s, w, x, arrives);
      HandElsewhere(s, Apply(cfg, s, step), w, x, arrives, j, e);
    case Tombstone(w, x) => NoTombstones(cfg, s, w, x);
    case _ => WorkerElsewhere(cfg, s, step, j, e);
  }

  lemma NotTouched(s: Cluster, step: Step, j: nat, e: nat)
    requires EntryOf(s, j, e) && !Touches(s, step, j, e)
    ensures Inv(s)
    ensures step.Reserve? ==> s.q.last + 1 != e
    ensures step.Reclaim? ==> step.e != e
  {
  }

  lemma WorkerElsewhere(cfg: Config, s: Cluster, step: Step, j: nat, e: nat)
    requires EntryOf(s, j, e) && Enabled(cfg, s, step) && !Touches(s, step, j, e)
    requires !step.Exec? && !step.Raise? && !step.Reserve? && !step.Reclaim? && !step.Tombstone?
    ensures Untouched(s, Apply(cfg, s, step), j, e)
  {
    EntryIsNamed(s, j, e);
    hide EntryOf, Untouched;
    match step
    case Begin(_) | Heartbeat(_) => BeginElsewhere(cfg, s, step, j, e);
    case Crash(w) => CrashElsewhere(s, w, j, e);
    case _ => ProducerElsewhere(cfg, s, step, j, e);
  }

  lemma BeginElsewhere(cfg: Config, s: Cluster, step: Step, j: nat, e: nat)
    requires Enabled(cfg, s, step) && !Touches(s, step, j, e) && (step.Begin? || step.Heartbeat?)
    ensures Untouched(s, Apply(cfg, s, step), j, e)
  {
    hide LettersFor;
    assert SameTasks(s, Apply(cfg, s, step), j);
  }

  lemma CrashElsewhere(s: Cluster, w: nat, j: nat, e: nat)
    requires j in s.enqueued.Values && !Runs(s, w, j)
    ensures Untouched(s, Die(s, w), j, e)
  {
    hide LettersFor;
    assert forall t :: t in s.tasks && s.tasks[t].job == j ==> s.tasks[t].worker != w;
  }

  lemma ProducerElsewhere(cfg: Config, s: Cluster, step: Step, j: nat, e: nat)
    requires j in s.enqueued.Values && e < s.q.nextId && Enabled(cfg, s, step) && !Touches(s, step, j, e)
    requires step.Submit? || step.Enqueue? || step.RequestCancel? || step.ExpireCancel? || step.ExpireJob? || step.Tick?
             || step.Start? || step.Stop?
    ensures Untouched(s, Apply(cfg, s, step), j, e)
  {
    hide LettersFor, SameTasks;
    TasksItself(s, Apply(cfg, s, step), j);
  }

  lemma TasksItself(s: Cluster, u: Cluster, j: nat)
    requires u.tasks == s.tasks
    ensures SameTasks(s, u, j)
  {
  }

  lemma EntryIsNamed(s: Cluster, j: nat, e: nat)
    requires EntryOf(s, j, e)
    ensures j in s.enqueued.Values && e in s.enqueued && e < s.q.nextId
  {
  }

  // Another entry is handed over.
  lemma HandElsewhere(s: Cluster, u: Cluster, w: nat, x: nat, arrives: bool, j: nat, e: nat)
    requires EntryOf(s, j, e) && HandedOver(s, u, w, x, arrives) && x <= s.q.last + 1 && x != e
    ensures Untouched(s, u, j, e)
  {
    NewTask(s);
    StreamJob(s, x, j, e);
    hide EntryOf, LettersFor, Inv;
    assert SameTasks(s, u, j);
  }

  lemma StreamJob(s: Cluster, x: nat, j: nat, e: nat)
    requires EntryOf(s, j, e) && x != e
    ensures x in s.q.stream ==> s.q.stream[x] != j
  {
  }

  lemma NewTask(s: Cluster)
    requires Inv(s)
    ensures s.nextTask !in s.tasks
  {
  }

  lemma TaskElsewhere(cfg: Config, s: Cluster, step: Step, j: nat, e: nat)
    requires EntryOf(s, j, e) && Enabled(cfg, s, step) && !Touches(s, step, j, e) && (step.Exec? || step.Raise?)
    ensures Untouched(s, Apply(cfg, s, step), j, e)
  {
    var t := step.t;
    var task := s.tasks[t];
    OtherEntry(s, t, j, e);
    EffectElsewhere(s, task, j, e);
    UntouchedItself(s, j, e);
    hide EntryOf, Effect, Next, LettersFor, Untouched;
    var next := if step.Exec? then Next(cfg, s, task, step.out)
                else if Guarded(task.pc) then Some(ReadAttempts(false)) else None;
    var r := if step.Exec? || step.applied then Effect(s, task) else s;
    ContinueElsewhere(r, t, next, j, e);
    UntouchedChain(s, r, Continue(r, t, next), j, e);
    LoseElsewhere(Continue(r, t, next), task.job, j, e);
    UntouchedChain(s, Continue(r, t, next), Lose(Continue(r, t, next), task.job), j, e);
  }

  // --------------------------------------------- the limit

  // Before the counter is bumped, and after the limit was found not reached.
  predicate HasRoom(pc: Pc) { pc.Fetched? || pc.Load? || pc.CheckCancel? || pc.Bump? || pc.NoteRetry? }

  function Allowed(cfg: Config, s: Cluster, j: nat): nat { Limit(cfg) + LostOf(s, j) }

  ghost predicate TaskBounded(cfg: Config, s: Cluster, task: Task) {
    && (HasRoom(task.pc) ==> AttemptsOf(s, task.job) < Allowed(cfg, s, task.job))
    && (task.pc.MarkProcessing? ==> task.pc.n <= Allowed(cfg, s, task.job))
  }

  ghost predicate Bounded(cfg: Config, s: Cluster, j: nat, e: nat) {
    && AttemptsOf(s, j) <= Allowed(cfg, s, j)
    && (Owed(s, e) && Resting(s, j) ==> AttemptsOf(s, j) < Allowed(cfg, s, j))
    && forall t :: t in s.tasks && s.tasks[t].job == j ==> TaskBounded(cfg, s, s.tasks[t])
  }

  lemma UntouchedBounded(cfg: Config, s: Cluster, u: Cluster, j: nat, e: nat)
    requires Bounded(cfg, s, j, e) && Untouched(s, u, j, e)
    ensures Bounded(cfg, u, j, e)
  {
    hide LettersFor;
    if Resting(u, j) { assert Resting(s, j); }
  }

  // The counter after the command of a task.
  function Counted(s: Cluster, task: Task): nat {
    match task.pc
    case Bump => AttemptsOf(s, task.job) + 1
    case MarkProcessing(n) => n
    case _ => AttemptsOf(s, task.job)
  }

  lemma EffectCounts(s: Cluster, task: Task)
    ensures AttemptsOf(Effect(s, task), task.job) == Counted(s, task)
  {
    var j := task.job;
    match task.pc
    case Bump => AttemptsWritten(s, j, AttemptsOf(s, j) + 1);
    case MarkProcessing(n) => AttemptsWritten(SetStatus(s, j, Processing), j, n);
    case ReadAttempts(_) => AttemptsWritten(s, j, AttemptsOf(s, j));
    case MarkCompleted => StatusWritten(s, j, Completed);
    case MarkCancelled => StatusWritten(s, j, Cancelled);
    case MarkFailed(_) => StatusWritten(s, j, Failed);
    case _ =>
      hide SetStatus, SetAttempts;
  }

  // And the status.
  function StatusAfter(s: Cluster, task: Task): Option<Status> {
    match task.pc
    case MarkProcessing(_) => Some(Processing)
    case MarkCompleted => Some(Completed)
    case MarkCancelled => Some(Cancelled)
    case MarkFailed(_) => Some(Failed)
    case _ => StatusOf(s, task.job)
  }

  lemma EffectOnStatus(s: Cluster, task: Task)
    ensures StatusOf(Effect(s, task), task.job) == StatusAfter(s, task)
    ensures task.job in s.jobs ==> task.job in Effect(s, task).jobs
  {
    var j := task.job;
    match task.pc
    case Bump => AttemptsWritten(s, j, AttemptsOf(s, j) + 1);
    case MarkProcessing(n) =>
      StatusWritten(s, j, Processing);
      AttemptsWritten(SetStatus(s, j, Processing), j, n);
    case ReadAttempts(_) => AttemptsWritten(s, j, AttemptsOf(s, j));
    case MarkCompleted => StatusWritten(s, j, Completed);
    case MarkCancelled => StatusWritten(s, j, Cancelled);
    case MarkFailed(_) => StatusWritten(s, j, Failed);
    case _ =>
      hide SetStatus, SetAttempts;
  }

  lemma StatusWritten(s: Cluster, j: nat, st: Status)
    ensures StatusOf(SetStatus(s, j, st), j) == Some(st) && AttemptsOf(SetStatus(s, j, st), j) == AttemptsOf(s, j)
    ensures j in SetStatus(s, j, st).jobs
  {
  }

  lemma AttemptsWritten(s: Cluster, j: nat, n: nat)
    ensures AttemptsOf(SetAttempts(s, j, n), j) == n && StatusOf(SetAttempts(s, j, n), j) == StatusOf(s, j)
    ensures j in SetAttempts(s, j, n).jobs
  {
  }

  // Commands leave alone who has what.
  lemma EffectLeaves(s: Cluster, task: Task)
    ensures var u := Effect(s, task);
            && u.tasks == s.tasks && u.nextTask == s.nextTask && u.lost == s.lost && u.q.last == s.q.last
            && u.cancels == s.cancels && u.live == s.live && u.stopping == s.stopping
            && u.q.pel == (if task.pc.XAck? then s.q.pel - {task.entry} else s.q.pel)
  {
    EffectIsNarrow(s, task);
    EffectOnQueue(s, task);
    hide Effect;
  }

  // Where one task of a job goes on, or ends.
  lemma OneTask(cfg: Config, r: Cluster, t: nat, next: Option<Pc>, e: nat)
    requires t in r.tasks && Sole(r, r.tasks[t].job) && e == r.tasks[t].entry
    requires AttemptsOf(r, r.tasks[t].job) <= Allowed(cfg, r, r.tasks[t].job)
    requires next.Some? ==> TaskBounded(cfg, r, r.tasks[t].(pc := next.value))
    requires next.None? && Owed(r, e) ==> AttemptsOf(r, r.tasks[t].job) < Allowed(cfg, r, r.tasks[t].job)
    ensures Bounded(cfg, Continue(r, t, next), r.tasks[t].job, e)
  {
    var j := r.tasks[t].job;
    var u := Continue(r, t, next);
    assert AttemptsOf(u, j) == AttemptsOf(r, j) && Allowed(cfg, u, j) == Allowed(cfg, r, j);
    if next.Some? { assert t in u.tasks && u.tasks[t].job == j; }
  }

  // What the next command may rely on, and what it leaves when there is none.
  lemma NextBounded(cfg: Config, s: Cluster, task: Task, out: Outcome)
    requires TaskBounded(cfg, s, task) && AttemptsOf(s, task.job) <= Allowed(cfg, s, task.job)
    ensures var next, a, most := Next(cfg, s, task, out), Counted(s, task), Allowed(cfg, s, task.job);
            && a <= most
            && (next.Some? && HasRoom(next.value) && !task.pc.Fetched? ==> a < most)
            && (next.Some? && next.value.MarkProcessing? ==> next.value.n <= most)
            && (next.None? ==> task.pc.XDel? || a < most)
  {
    hide AttemptsOf, LostOf, StatusOf;
  }

  lemma ExecBounded(cfg: Config, s: Cluster, t: nat, out: Outcome, e: nat)
    requires t in s.tasks && s.tasks[t].entry == e && TaskOk(s, s.tasks[t]) && !s.tasks[t].pc.Fetched?
    requires Sole(s, s.tasks[t].job) && Bounded(cfg, s, s.tasks[t].job, e)
    ensures Bounded(cfg, Apply(cfg, s, Exec(t, out)), s.tasks[t].job, e)
  {
    var task := s.tasks[t];
    EffectCounts(s, task);
    EffectLeaves(s, task);
    assert TaskBounded(cfg, s, task);
    NextBounded(cfg, s, task, out);
    hide Effect, Next, AttemptsOf, Counted, HasRoom;
    assert Allowed(cfg, Effect(s, task), task.job) == Allowed(cfg, s, task.job);
    OneTask(cfg, Effect(s, task), t, Next(cfg, s, task, out), e);
  }

  lemma RaiseBounded(cfg: Config, s: Cluster, t: nat, applied: bool, e: nat)
    requires t in s.tasks && s.tasks[t].entry == e && Enabled(cfg, s, Raise(t, applied))
    requires Sole(s, s.tasks[t].job) && Bounded(cfg, s, s.tasks[t].job, e)
    ensures Bounded(cfg, Apply(cfg, s, Raise(t, applied)), s.tasks[t].job, e)
  {
    var task := s.tasks[t];
    var j := task.job;
    EffectCounts(s, task);
    EffectLeaves(s, task);
    assert TaskBounded(cfg, s, task);
    var r := if applied then Effect(s, task) else s;
    hide Effect;
    assert Sole(r, j);
    if Guarded(task.pc) {
      OneTask(cfg, r, t, Some(ReadAttempts(false)), e);
    } else {
      var u := Continue(r, t, None);
      assert Resting(u, j);
      LostMore(cfg, r, u, j, e);
    }
  }

  // One interruption more is allowed for.
  lemma LostMore(cfg: Config, s: Cluster, u: Cluster, j: nat, e: nat)
    requires AttemptsOf(s, j) <= Allowed(cfg, s, j) && u.jobs == s.jobs && u.lost == s.lost && Resting(u, j)
    ensures Bounded(cfg, Lose(u, j), j, e)
  {
    var v := Lose(u, j);
    assert AttemptsOf(v, j) == AttemptsOf(s, j) && LostOf(v, j) == LostOf(s, j) + 1;
    assert v.tasks == u.tasks;
  }

  // An entry is handed over that was owed, and the job was resting if a task
  // comes of it.
  lemma HandBounded(cfg: Config, s: Cluster, u: Cluster, w: nat, arrives: bool, j: nat, e: nat)
    requires EntryOf(s, j, e) && Bounded(cfg, s, j, e) && Owed(s, e) && HandedOver(s, u, w, e, arrives) && Sole(u, j)
    ensures Bounded(cfg, u, j, e)
  {
    NewTask(s);
    assert s.q.stream[e] == j;
    hide EntryOf, Inv;
    assert AttemptsOf(u, j) == AttemptsOf(s, j) && Allowed(cfg, u, j) == Allowed(cfg, s, j);
    if arrives {
      assert u.tasks[s.nextTask].job == j;
      forall t | t in s.tasks ensures s.tasks[t].job != j { assert t in u.tasks && t != s.nextTask; }
    }
  }

  lemma CrashBounded(cfg: Config, s: Cluster, w: nat, j: nat, e: nat)
    requires j in s.enqueued.Values && Sole(s, j) && Bounded(cfg, s, j, e) && Runs(s, w, j)
    requires w in s.live
    ensures Bounded(cfg, Apply(cfg, s, Crash(w)), j, e)
  {
    var u := Die(s, w);
    assert LostOf(u, j) == LostOf(s, j) + 1 && AttemptsOf(u, j) == AttemptsOf(s, j);
    assert Resting(u, j);
  }

  // Steps on the hash and the flag of a job, and its registration.
  lemma HashBounded(cfg: Config, s: Cluster, step: Step, j: nat, e: nat)
    requires Bounded(cfg, s, j, e) && Enabled(cfg, s, step)
    requires step.RequestCancel? || step.ExpireCancel? || step.ExpireJob? || step.Begin?
    ensures Bounded(cfg, Apply(cfg, s, step), j, e)
  {
    var u := Apply(cfg, s, step);
    assert AttemptsOf(u, j) <= AttemptsOf(s, j) && Allowed(cfg, u, j) == Allowed(cfg, s, j);
    forall t | t in u.tasks && u.tasks[t].job == j ensures TaskBounded(cfg, u, u.tasks[t]) {
      assert TaskBounded(cfg, s, s.tasks[t]);
    }
    if Resting(u, j) {
      forall t | t in s.tasks ensures s.tasks[t].job != j { assert t in u.tasks && u.tasks[t].job == s.tasks[t].job; }
    }
  }

  lemma StepBounded(cfg: Config, s: Cluster, step: Step, j: nat, e: nat)
    requires EntryOf(s, j, e) && Bounded(cfg, s, j, e) && Enabled(cfg, s, step)
    requires Sole(s, j) && Sole(Apply(cfg, s, step), j)
    ensures Bounded(cfg, Apply(cfg, s, step), j, e)
  {
    hide Bounded, Inv, Apply, Sole, Untouched, HandedOver;
    if !Touches(s, step, j, e) {
      Elsewhere(cfg, s, step, j, e);
      UntouchedBounded(cfg, s, Apply(cfg, s, step), j, e);
      return;
    }
    match step
    case Exec(t, out) =>
      OtherEntry(s, t, j, e);
      TaskFacts(s, t);
      ExecBounded(cfg, s, t, out, e);
    case Raise(t, applied) =>
      OtherEntry(s, t, j, e);
      RaiseBounded(cfg, s, t, applied, e);
    case Reserve(w, arrives) =>
      ReserveHands(cfg, s, w, arrives);
      HandBounded(cfg, s, Apply(cfg, s, step), w, arrives, j, e);
    case Reclaim(w, _, arrives) =>
      ReclaimHands(cfg, s, w, e, arrives);
      HandBounded(cfg, s, Apply(cfg, s, step), w, arrives, j, e);
    case Crash(w) =>
      CrashBounded(cfg, s, w, j, e);
    case _ => HashBounded(cfg, s, step, j, e);
  }

  // Every state of the run has at most one task for the job.
  ghost predicate SoleRun(cfg: Config, s: Cluster, steps: seq<Step>, u: Cluster, j: nat)
    decreases |steps|
  {
    && Sole(s, j)
    && if steps == [] then u == s
       else Enabled(cfg, s, steps[0]) && SoleRun(cfg, Apply(cfg, s, steps[0]), steps[1..], u, j)
  }

  // What is true of a job before and after it is enqueued.
  ghost predicate JobBounded(cfg: Config, s: Cluster, j: nat) {
    && Inv(s) && Distinct(s)
    && (j !in s.enqueued.Values ==> AttemptsOf(s, j) == 0)
    && (forall e :: e in s.enqueued && s.enqueued[e] == j ==> Bounded(cfg, s, j, e))
  }

  lemma TaskJobIsEnqueued(s: Cluster, t: nat)
    requires Inv(s) && t in s.tasks
    ensures s.tasks[t].job in s.enqueued.Values && s.tasks[t].entry in s.enqueued
    ensures s.enqueued[s.tasks[t].entry] == s.tasks[t].job
  {
    assert TaskOk(s, s.tasks[t]);
  }

  // Nothing is counted for a job that was never enqueued.
  lemma UnknownJob(cfg: Config, s: Cluster, step: Step, j: nat)
    requires Inv(s) && Enabled(cfg, s, step)
    requires j !in s.enqueued.Values && AttemptsOf(s, j) == 0
    ensures AttemptsOf(Apply(cfg, s, step), j) == 0
  {
    match step
    case Exec(t, out) =>
      TaskJobIsEnqueued(s, t);
      EffectOther(s, s.tasks[t], j);
    case Raise(t, applied) =>
      TaskJobIsEnqueued(s, t);
      EffectOther(s, s.tasks[t], j);
    case _ =>
  }

  lemma EffectOther(s: Cluster, task: Task, j: nat)
    requires task.job != j
    ensures AttemptsOf(Effect(s, task), j) == AttemptsOf(s, j)
  {
    EffectElsewhere(s, task, j, task.entry + 1);
  }

  lemma EnqueueBounded(cfg: Config, s: Cluster, j: nat)
    requires JobBounded(cfg, s, j) && Enabled(cfg, s, Enqueue(j))
    ensures JobBounded(cfg, Apply(cfg, s, Enqueue(j)), j)
  {
    var u := Apply(cfg, s, Enqueue(j));
    StepKeepsInv(cfg, s, Enqueue(j));
    EnqueuedBy(cfg, s, Enqueue(j));
    forall t | t in u.tasks ensures u.tasks[t].job != j { TaskJobIsEnqueued(s, t); }
    assert AttemptsOf(u, j) == AttemptsOf(s, j);
    FreshEntry(s);
  }

  lemma FreshEntry(s: Cluster)
    requires Inv(s)
    ensures s.q.nextId !in s.enqueued
  {
  }

  lemma StepKeepsDistinct(cfg: Config, s: Cluster, step: Step)
    requires Inv(s) && Distinct(s) && Enabled(cfg, s, step)
    ensures Distinct(Apply(cfg, s, step))
  {
    EnqueuedBy(cfg, s, step);
    FreshEntry(s);
    hide Inv, Apply;
    var u := Apply(cfg, s, step);
    if step.Enqueue? {
      assert step.j !in s.enqueued.Values;
      forall d, e | d in u.enqueued && e in u.enqueued && u.enqueued[d] == u.enqueued[e] ensures d == e {
        assert d != s.q.nextId ==> s.enqueued[d] in s.enqueued.Values;
        assert e != s.q.nextId ==> s.enqueued[e] in s.enqueued.Values;
      }
    }
  }

  lemma StepJobBounded(cfg: Config, s: Cluster, step: Step, j: nat)
    requires JobBounded(cfg, s, j) && Enabled(cfg, s, step) && Sole(s, j) && Sole(Apply(cfg, s, step), j)
    ensures JobBounded(cfg, Apply(cfg, s, step), j)
  {
    var u := Apply(cfg, s, step);
    StepKeepsInv(cfg, s, step);
    StepKeepsDistinct(cfg, s, step);
    EnqueuedBy(cfg, s, step);
    hide Inv, Apply, Distinct, Bounded, Sole;
    if step == Enqueue(j) {
      EnqueueBounded(cfg, s, j);
    } else {
      FreshEntry(s);
      forall e | e in s.enqueued ensures e in u.enqueued && u.enqueued[e] == s.enqueued[e] {}
      if j !in u.enqueued.Values {
        UnknownJob(cfg, s, step, j);
      }
      forall e | e in u.enqueued && u.enqueued[e] == j ensures Bounded(cfg, u, j, e) {
        StepBounded(cfg, s, step, j, e);
      }
    }
  }

  lemma {:induction false} RunJobBounded(cfg: Config, s: Cluster, steps: seq<Step>, u: Cluster, j: nat)
    requires JobBounded(cfg, s, j) && SoleRun(cfg, s, steps, u, j)
    ensures JobBounded(cfg, u, j)
    decreases |steps|
  {
    hide JobBounded, Enabled, Apply, Sole;
    if steps != [] {
      StepJobBounded(cfg, s, steps[0], j);
      RunJobBounded(cfg, Apply(cfg, s, steps[0]), steps[1..], u, j);
    }
  }

  // While no two tasks ever have the job, the counter stays within the limit
  // plus the number of times a run of the job was interrupted.
  lemma AttemptBound(cfg: Config, steps: seq<Step>, u: Cluster, j: nat)
    requires SoleRun(cfg, Initial, steps, u, j)
    ensures AttemptsOf(u, j) <= Limit(cfg) + LostOf(u, j)
  {
    InitialInv();
    RunJobBounded(cfg, Initial, steps, u, j);
    if j in u.enqueued.Values {
      var e :| e in u.enqueued && u.enqueued[e] == j;
      assert Bounded(cfg, u, j, e);
    }
  }

  // --------------------------------------------- heartbeats give sole tasks

  lemma OneRunnerIsSole(s: Cluster, j: nat)
    requires Inv(s) && Distinct(s) && Exclusive.OneRunner(s) && Exclusive.ClockOk(s) && s.stopping == {}
    ensures Sole(s, j)
  {
    forall t, k | t in s.tasks && k in s.tasks && s.tasks[t].job == j && s.tasks[k].job == j ensures t == k {
      TaskJobIsEnqueued(s, t);
      TaskJobIsEnqueued(s, k);
      assert Exclusive.Active(s, s.tasks[t].worker) && Exclusive.Active(s, s.tasks[k].worker);
    }
  }

  lemma StillNotStopping(cfg: Config, s: Cluster, step: Step)
    requires s.stopping == {} && Enabled(cfg, s, step) && !step.Stop?
    ensures Apply(cfg, s, step).stopping == {}
  {
    match step
    case Exec(t, _) => EffectLeaves(s, s.tasks[t]);
    case Raise(t, _) => EffectLeaves(s, s.tasks[t]);
    case _ =>
  }

  lemma {:induction false} TimelyRunIsSole(cfg: Config, tm: Exclusive.Timing, s: Cluster, steps: seq<Step>, u: Cluster, j: nat)
    requires Exclusive.InTime(cfg, tm) && Exclusive.TimelyRun(cfg, tm, s, steps, u) && Exclusive.NoStops(steps)
    requires Exclusive.TimeInv(tm, s) && Distinct(s) && s.stopping == {}
    ensures SoleRun(cfg, s, steps, u, j)
    decreases |steps|
  {
    OneRunnerIsSole(s, j);
    hide Inv, Distinct, Apply, Enabled, Exclusive.TimeInv, Exclusive.Timely, Exclusive.InTime;
    if steps != [] {
      Exclusive.TimedStep(cfg, tm, s, steps[0]);
      Exclusive.TimeInvIsInv(tm, s);
      StepKeepsDistinct(cfg, s, steps[0]);
      StillNotStopping(cfg, s, steps[0]);
      TimelyRunIsSole(cfg, tm, Apply(cfg, s, steps[0]), steps[1..], u, j);
    }
  }

  // So the bound holds whenever heartbeats come in time and no worker is shut
  // down with jobs still running.
  lemma AttemptBoundInTime(cfg: Config, tm: Exclusive.Timing, steps: seq<Step>, u: Cluster, j: nat)
    requires Exclusive.InTime(cfg, tm) && Exclusive.TimelyRun(cfg, tm, Initial, steps, u) && Exclusive.NoStops(steps)
    ensures AttemptsOf(u, j) <= Limit(cfg) + LostOf(u, j)
  {
    Exclusive.InitialTimeInv(tm);
    TimelyRunIsSole(cfg, tm, Initial, steps, u, j);
    AttemptBound(cfg, steps, u, j);
  }
}
