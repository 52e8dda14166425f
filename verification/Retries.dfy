// A job that nothing interrupts and that fails every time: it is tried exactly
// as often as the limit says, then marked as failed, put on the dead-letter
// stream once, and taken off the queue.
module Retries {
  import opened Basics
  import opened Broker
  import opened Delivery
  import opened Attempts

  // Steps of the kind considered: the work on the job breaks down whenever it
  // is tried, and nothing else happens to the job.  Other jobs and the workers
  // are free.
  ghost predicate Smooth(s: Cluster, step: Step, j: nat, e: nat) {
    Touches(s, step, j, e) ==>
      match step
      case Exec(t, out) => out.Breaks?
      case Begin(_) => true
      case Reserve(_, arrives) => arrives
      case Reclaim(_, _, arrives) => arrives
      case _ => false
  }

  ghost predicate SmoothRun(cfg: Config, s: Cluster, steps: seq<Step>, u: Cluster, j: nat, e: nat)
    decreases |steps|
  {
    && Sole(s, j)
    && if steps == [] then u == s
       else Enabled(cfg, s, steps[0]) && Smooth(s, steps[0], j, e)
            && SmoothRun(cfg, Apply(cfg, s, steps[0]), steps[1..], u, j, e)
  }

  // A job just submitted.
  ghost predicate Submitted(s: Cluster, j: nat, e: nat) {
    && EntryOf(s, j, e) && e > s.q.last && Resting(s, j)
    && j in s.jobs && s.jobs[j] == Hash(Some(Waiting), 0) && j !in s.cancels
    && LettersFor(s.q.dead, j) == 0
  }

  predicate Tries(s: Cluster, step: Step, j: nat) {
    step.Exec? && step.t in s.tasks && s.tasks[step.t].job == j && s.tasks[step.t].pc.Work?
  }

  // How often the work on the job is tried, and how many steps are about it.
  ghost function TriesIn(cfg: Config, s: Cluster, steps: seq<Step>, u: Cluster, j: nat, e: nat): nat
    requires SmoothRun(cfg, s, steps, u, j, e)
    decreases |steps|
  {
    if steps == [] then 0
    else (if Tries(s, steps[0], j) then 1 else 0) + TriesIn(cfg, Apply(cfg, s, steps[0]), steps[1..], u, j, e)
  }

  ghost function MovesIn(cfg: Config, s: Cluster, steps: seq<Step>, u: Cluster, j: nat, e: nat): nat
    requires SmoothRun(cfg, s, steps, u, j, e)
    decreases |steps|
  {
    if steps == [] then 0
    else (if Touches(s, steps[0], j, e) then 1 else 0) + MovesIn(cfg, Apply(cfg, s, steps[0]), steps[1..], u, j, e)
  }

  // --------------------------------------------- where the job is

  predicate Open(s: Cluster, j: nat) { StatusOf(s, j) == Some(Waiting) || StatusOf(s, j) == Some(Processing) }

  // Where a task of the job can be after so many tries.
  predicate Stage(cfg: Config, s: Cluster, pc: Pc, j: nat, tries: nat) {
    var a, st, letters := AttemptsOf(s, j), StatusOf(s, j), LettersFor(s.q.dead, j);
    match pc
    case Fetched | Load | CheckCancel | Bump => a == tries < Limit(cfg) && Open(s, j) && letters == 0
    case MarkProcessing(n) => a == n == tries + 1 <= Limit(cfg) && Open(s, j) && letters == 0
    case Work => a == tries + 1 <= Limit(cfg) && st == Some(Processing) && letters == 0
    case ReadAttempts(permanent) => !permanent && 1 <= a == tries <= Limit(cfg) && st == Some(Processing) && letters == 0
    case NoteRetry => a == tries < Limit(cfg) && st == Some(Processing) && letters == 0
    case MarkFailed(permanent) => !permanent && a == tries == Limit(cfg) && letters == 0
    case AnnounceFailed(permanent) => !permanent && a == tries == Limit(cfg) && st == Some(Failed) && letters == 0
    case DeadLetterAdd => a == tries == Limit(cfg) && st == Some(Failed) && letters == 0
    case XAck(guarded) => !guarded && a == tries == Limit(cfg) && st == Some(Failed) && letters == 1
    case XDel(guarded) => !guarded && a == tries == Limit(cfg) && st == Some(Failed) && letters == 1
    case _ => false
  }

  // Between two tries.
  predicate Waits(cfg: Config, s: Cluster, j: nat, tries: nat) {
    AttemptsOf(s, j) == tries < Limit(cfg) && Open(s, j) && LettersFor(s.q.dead, j) == 0
  }

  predicate Done(cfg: Config, s: Cluster, j: nat, e: nat, tries: nat) {
    && AttemptsOf(s, j) == tries == Limit(cfg) && StatusOf(s, j) == Some(Failed)
    && LettersFor(s.q.dead, j) == 1 && e !in s.q.stream
  }

  ghost predicate At(cfg: Config, s: Cluster, j: nat, e: nat, tries: nat) {
    && EntryOf(s, j, e) && Sole(s, j) && j in s.jobs && j !in s.cancels
    && (Resting(s, j) ==> if Owed(s, e) then Waits(cfg, s, j, tries) else Done(cfg, s, j, e, tries))
    && (forall t :: t in s.tasks && s.tasks[t].job == j ==>
          Stage(cfg, s, s.tasks[t].pc, j, tries) && (s.tasks[t].pc.XDel? || e in s.q.pel))
  }

  // How far the end is, at most: it takes a score of steps from one bump of the
  // counter to the next.
  function Rank(pc: Pc): nat {
    match pc
    case MarkProcessing(_) => 19
    case Work => 18
    case ReadAttempts(_) => 17
    case NoteRetry | MarkFailed(_) => 16
    case AnnounceFailed(_) => 15
    case Fetched | DeadLetterAdd => 14
    case Load | XAck(_) => 13
    case CheckCancel | XDel(_) => 12
    case Bump => 11
    case _ => 0
  }

  ghost function Left(cfg: Config, s: Cluster, j: nat, e: nat): int {
    20 * (Limit(cfg) - AttemptsOf(s, j)) +
    if Resting(s, j) then (if Owed(s, e) then 15 else 0)
    else var t :| t in s.tasks && s.tasks[t].job == j; Rank(s.tasks[t].pc)
  }

  lemma LeftAt(cfg: Config, s: Cluster, j: nat, e: nat, t: nat)
    requires Sole(s, j) && t in s.tasks && s.tasks[t].job == j
    ensures Left(cfg, s, j, e) == 20 * (Limit(cfg) - AttemptsOf(s, j)) + Rank(s.tasks[t].pc)
  {
  }

  // --------------------------------------------- steps

  lemma UntouchedAt(cfg: Config, s: Cluster, u: Cluster, j: nat, e: nat, tries: nat)
    requires At(cfg, s, j, e, tries) && Untouched(s, u, j, e) && EntryOf(u, j, e)
    ensures At(cfg, u, j, e, tries) && Left(cfg, u, j, e) == Left(cfg, s, j, e)
  {
    hide EntryOf, LettersFor;
    if t :| t in s.tasks && s.tasks[t].job == j {
      LeftAt(cfg, s, j, e, t);
      LeftAt(cfg, u, j, e, t);
      hide Left;
      assert forall k :: k in u.tasks && u.tasks[k].job == j ==> k == t;
    } else {
      assert Resting(s, j) && Resting(u, j);
    }
  }

  // Handed over while it rests.
  lemma HandAt(cfg: Config, s: Cluster, u: Cluster, w: nat, j: nat, e: nat, tries: nat)
    requires At(cfg, s, j, e, tries) && Owed(s, e) && HandedOver(s, u, w, e, true) && Sole(u, j) && EntryOf(u, j, e)
    ensures At(cfg, u, j, e, tries) && Left(cfg, u, j, e) < Left(cfg, s, j, e)
  {
    NewTask(s);
    assert s.q.stream[e] == j;
    hide EntryOf, LettersFor, Inv;
    var n := s.nextTask;
    assert u.tasks[n].job == j;
    forall t | t in s.tasks ensures s.tasks[t].job != j { assert t in u.tasks && t != n; }
    assert Resting(s, j);
    LeftAt(cfg, u, j, e, n);
    LeftResting(cfg, s, j, e);
    hide Left;
    assert AttemptsOf(u, j) == AttemptsOf(s, j) && StatusOf(u, j) == StatusOf(s, j);
    assert forall k :: k in u.tasks && u.tasks[k].job == j ==> k == n;
  }

  lemma BeginAt(cfg: Config, s: Cluster, t: nat, j: nat, e: nat, tries: nat)
    requires At(cfg, s, j, e, tries) && Enabled(cfg, s, Begin(t)) && s.tasks[t].job == j
    requires EntryOf(Apply(cfg, s, Begin(t)), j, e)
    ensures var u := Apply(cfg, s, Begin(t)); At(cfg, u, j, e, tries) && Left(cfg, u, j, e) < Left(cfg, s, j, e)
  {
    hide EntryOf, LettersFor;
    var u := Apply(cfg, s, Begin(t));
    assert u.tasks[t].job == j && Sole(u, j);
    LeftAt(cfg, s, j, e, t);
    LeftAt(cfg, u, j, e, t);
  }

  // --------------------------------------------- the commands of a task

  // What a command leaves behind when it is over.
  ghost predicate Leaves(cfg: Config, s: Cluster, r: Cluster, task: Task, next: Option<Pc>, tries: nat) {
    match next
    case Some(pc) =>
      && Stage(cfg, r, pc, task.job, tries) && (pc.XDel? || task.entry in r.q.pel)
      && Rank(pc) < Rank(task.pc) + 20 * (AttemptsOf(r, task.job) - AttemptsOf(s, task.job))
    case None =>
      && AttemptsOf(r, task.job) == AttemptsOf(s, task.job)
      && if Owed(r, task.entry) then Waits(cfg, r, task.job, tries) else Done(cfg, r, task.job, task.entry, tries)
  }

  lemma CommandLeaves(cfg: Config, s: Cluster, task: Task, tries: nat)
    requires Stage(cfg, s, task.pc, task.job, tries) && (task.pc.XDel? || task.entry in s.q.pel)
    requires task.job in s.jobs && task.job !in s.cancels && !task.pc.Fetched? && TaskOk(s, task)
    ensures Leaves(cfg, s, Effect(s, task), task, Next(cfg, s, task, Breaks), if task.pc.Work? then tries + 1 else tries)
  {
    EffectCounts(s, task);
    EffectLeaves(s, task);
    EffectOnStatus(s, task);
    EffectOnQueue(s, task);
    LettersAdd(s.q.dead, DeadLetter(task.job, task.entry), task.job);
    var r := Effect(s, task);
    hide Effect;
    match task.pc
    case Load | CheckCancel | Bump | MarkProcessing(_) | Work => UpToWork(cfg, s, r, task, tries);
    case _ => AfterWork(cfg, s, r, task, tries);
  }

  // Given what the command does to the counter, the status and the queue.
  ghost predicate Did(s: Cluster, r: Cluster, task: Task) {
    && AttemptsOf(r, task.job) == Counted(s, task) && StatusOf(r, task.job) == StatusAfter(s, task)
    && r.q.last == s.q.last && r.q.pel == (if task.pc.XAck? then s.q.pel - {task.entry} else s.q.pel)
    && (task.pc.XDel? ==> task.entry !in r.q.stream)
    && LettersFor(r.q.dead, task.job) == LettersFor(s.q.dead, task.job) + if task.pc.DeadLetterAdd? then 1 else 0
  }

  lemma UpToWork(cfg: Config, s: Cluster, r: Cluster, task: Task, tries: nat)
    requires Stage(cfg, s, task.pc, task.job, tries) && task.entry in s.q.pel && Did(s, r, task)
    requires task.job in s.jobs && task.job !in s.cancels
    requires task.pc.Load? || task.pc.CheckCancel? || task.pc.Bump? || task.pc.MarkProcessing? || task.pc.Work?
    ensures Leaves(cfg, s, r, task, Next(cfg, s, task, Breaks), if task.pc.Work? then tries + 1 else tries)
  {
    hide LettersFor, AttemptsOf, StatusOf;
  }

  lemma AfterWork(cfg: Config, s: Cluster, r: Cluster, task: Task, tries: nat)
    requires Stage(cfg, s, task.pc, task.job, tries) && (task.pc.XDel? || task.entry in s.q.pel) && Did(s, r, task)
    requires TaskOk(s, task)
    requires !task.pc.Fetched? && !task.pc.Load? && !task.pc.CheckCancel? && !task.pc.Bump? && !task.pc.MarkProcessing? && !task.pc.Work?
    ensures Leaves(cfg, s, r, task, Next(cfg, s, task, Breaks), tries)
  {
    hide LettersFor, AttemptsOf, StatusOf;
  }

  lemma ContinueAt(cfg: Config, s: Cluster, r: Cluster, t: nat, next: Option<Pc>, j: nat, e: nat, tries: nat)
    requires t in s.tasks && s.tasks[t].job == j && s.tasks[t].entry == e && Sole(s, j)
    requires !s.tasks[t].pc.Fetched?
    requires r.tasks == s.tasks && j in r.jobs && j !in r.cancels && Leaves(cfg, s, r, s.tasks[t], next, tries)
    requires EntryOf(Continue(r, t, next), j, e) && (next.None? ==> 12 <= Rank(s.tasks[t].pc))
    requires next.None? && Owed(r, e) ==> s.tasks[t].pc.NoteRetry?
    ensures At(cfg, Continue(r, t, next), j, e, tries) && Left(cfg, Continue(r, t, next), j, e) < Left(cfg, s, j, e)
  {
    hide EntryOf, LettersFor, Left;
    var u := Continue(r, t, next);
    assert AttemptsOf(u, j) == AttemptsOf(r, j) && StatusOf(u, j) == StatusOf(r, j) && u.q == r.q;
    LeftAt(cfg, s, j, e, t);
    match next
    case Some(pc) =>
      assert u.tasks[t] == s.tasks[t].(pc := pc) && Sole(u, j);
      LeftAt(cfg, u, j, e, t);
    case None =>
      assert Resting(u, j);
      LeftResting(cfg, u, j, e);
  }

  lemma ExecAt(cfg: Config, s: Cluster, t: nat, j: nat, e: nat, tries: nat)
    requires At(cfg, s, j, e, tries) && t in s.tasks && s.tasks[t].job == j && s.tasks[t].entry == e
    requires Enabled(cfg, s, Exec(t, Breaks))
    requires TaskOk(s, s.tasks[t]) && EntryOf(Apply(cfg, s, Exec(t, Breaks)), j, e)
    ensures var u := Apply(cfg, s, Exec(t, Breaks));
            At(cfg, u, j, e, if s.tasks[t].pc.Work? then tries + 1 else tries) && Left(cfg, u, j, e) < Left(cfg, s, j, e)
  {
    hide Effect, EntryOf, Left, Stage, Leaves, Next, Continue, Owed, TaskOk, AttemptsOf, StatusOf, At, Rank, Apply, Enabled;
    var task := s.tasks[t];
    TaskAt(cfg, s, t, j, e, tries);
    ExecIs(cfg, s, t, Breaks);
    CommandLeaves(cfg, s, task, tries);
    EffectLeaves(s, task);
    EffectOnStatus(s, task);
    OnlyRetryRests(cfg, s, task, tries);
    ContinueAt(cfg, s, Effect(s, task), t, Next(cfg, s, task, Breaks), j, e, if task.pc.Work? then tries + 1 else tries);
  }

  lemma TaskAt(cfg: Config, s: Cluster, t: nat, j: nat, e: nat, tries: nat)
    requires At(cfg, s, j, e, tries) && t in s.tasks && s.tasks[t].job == j
    ensures Stage(cfg, s, s.tasks[t].pc, j, tries) && (s.tasks[t].pc.XDel? || e in s.q.pel)
    ensures Sole(s, j) && j in s.jobs && j !in s.cancels
  {
  }

  lemma ExecIs(cfg: Config, s: Cluster, t: nat, out: Outcome)
    requires Enabled(cfg, s, Exec(t, out))
    ensures t in s.tasks && !s.tasks[t].pc.Fetched?
    ensures Apply(cfg, s, Exec(t, out)) == Continue(Effect(s, s.tasks[t]), t, Next(cfg, s, s.tasks[t], out))
  {
    hide Effect, Next, Continue;
  }

  lemma OnlyRetryRests(cfg: Config, s: Cluster, task: Task, tries: nat)
    requires Stage(cfg, s, task.pc, task.job, tries) && TaskOk(s, task)
    ensures Next(cfg, s, task, Breaks).None? && Owed(Effect(s, task), task.entry) ==> task.pc.NoteRetry?
    ensures Rank(task.pc) >= 11 && (Next(cfg, s, task, Breaks).None? ==> Rank(task.pc) >= 12)
  {
    EffectLeaves(s, task);
    hide Effect;
  }

  lemma LeftResting(cfg: Config, s: Cluster, j: nat, e: nat)
    requires Resting(s, j)
    ensures Left(cfg, s, j, e) == 20 * (Limit(cfg) - AttemptsOf(s, j)) + if Owed(s, e) then 15 else 0
  {
  }

  lemma StepAt(cfg: Config, s: Cluster, step: Step, j: nat, e: nat, tries: nat)
    requires At(cfg, s, j, e, tries) && Enabled(cfg, s, step) && Smooth(s, step, j, e) && Sole(Apply(cfg, s, step), j)
    ensures var u := Apply(cfg, s, step);
            && At(cfg, u, j, e, if Tries(s, step, j) then tries + 1 else tries)
            && Left(cfg, u, j, e) + (if Touches(s, step, j, e) then 1 else 0) <= Left(cfg, s, j, e)
  {
    StepKeepsEntry(cfg, s, step, j, e);
    AtEntry(cfg, s, j, e, tries);
    hide Apply, Sole, At, Left, EntryOf, Touches, Tries, Smooth, Enabled;
    if Touches(s, step, j, e) { TouchedAt(cfg, s, step, j, e, tries); } else { ElsewhereAt(cfg, s, step, j, e, tries); }
  }

  lemma ElsewhereAt(cfg: Config, s: Cluster, step: Step, j: nat, e: nat, tries: nat)
    requires At(cfg, s, j, e, tries) && EntryOf(s, j, e) && Enabled(cfg, s, step) && !Touches(s, step, j, e)
    requires EntryOf(Apply(cfg, s, step), j, e)
    ensures At(cfg, Apply(cfg, s, step), j, e, tries) && Left(cfg, Apply(cfg, s, step), j, e) == Left(cfg, s, j, e)
    ensures !Tries(s, step, j)
  {
    hide Apply, At, Left, EntryOf, Untouched;
    Elsewhere(cfg, s, step, j, e);
    UntouchedAt(cfg, s, Apply(cfg, s, step), j, e, tries);
  }

  lemma TouchedAt(cfg: Config, s: Cluster, step: Step, j: nat, e: nat, tries: nat)
    requires At(cfg, s, j, e, tries) && EntryOf(s, j, e) && Enabled(cfg, s, step) && Smooth(s, step, j, e)
    requires Touches(s, step, j, e) && Sole(Apply(cfg, s, step), j) && EntryOf(Apply(cfg, s, step), j, e)
    ensures var u := Apply(cfg, s, step);
            && At(cfg, u, j, e, if Tries(s, step, j) then tries + 1 else tries)
            && Left(cfg, u, j, e) + 1 <= Left(cfg, s, j, e)
  {
    hide Apply, At, Left, EntryOf, Sole;
    match step
    case Exec(t, _) => OwnExecAt(cfg, s, t, j, e, tries);
    case Begin(t) => BeginAt(cfg, s, t, j, e, tries);
    case Reserve(_, _) => TakenAt(cfg, s, step, j, e, tries);
    case Reclaim(_, _, _) => TakenAt(cfg, s, step, j, e, tries);
    case _ =>
  }

  lemma TakenAt(cfg: Config, s: Cluster, step: Step, j: nat, e: nat, tries: nat)
    requires At(cfg, s, j, e, tries) && EntryOf(s, j, e) && Enabled(cfg, s, step) && Smooth(s, step, j, e)
    requires (step.Reserve? || step.Reclaim?) && Touches(s, step, j, e)
    requires Sole(Apply(cfg, s, step), j) && EntryOf(Apply(cfg, s, step), j, e)
    ensures var u := Apply(cfg, s, step); At(cfg, u, j, e, tries) && Left(cfg, u, j, e) + 1 <= Left(cfg, s, j, e)
  {
    AtEntry(cfg, s, j, e, tries);
    hide Inv, Apply, At, Left, EntryOf, Sole, HandedOver;
    match step
    case Reserve(w, _) =>
      ReserveHands(cfg, s, w, true);
      HandAt(cfg, s, Apply(cfg, s, step), w, j, e, tries);
    case Reclaim(w, _, _) =>
      ReclaimHands(cfg, s, w, e, true);
      HandAt(cfg, s, Apply(cfg, s, step), w, j, e, tries);
  }

  lemma OwnExecAt(cfg: Config, s: Cluster, t: nat, j: nat, e: nat, tries: nat)
    requires At(cfg, s, j, e, tries) && Enabled(cfg, s, Exec(t, Breaks)) && s.tasks[t].job == j
    requires EntryOf(s, j, e) && EntryOf(Apply(cfg, s, Exec(t, Breaks)), j, e)
    ensures var u := Apply(cfg, s, Exec(t, Breaks));
            && At(cfg, u, j, e, if Tries(s, Exec(t, Breaks), j) then tries + 1 else tries)
            && Left(cfg, u, j, e) + 1 <= Left(cfg, s, j, e)
  {
    hide Inv, Apply, Sole, At, Left, EntryOf;
    OtherEntry(s, t, j, e);
    EntryTask(s, t, j, e);
    ExecAt(cfg, s, t, j, e, tries);
  }

  lemma AtEntry(cfg: Config, s: Cluster, j: nat, e: nat, tries: nat)
    requires At(cfg, s, j, e, tries)
    ensures EntryOf(s, j, e) && Inv(s)
  {
  }

  lemma EntryTask(s: Cluster, t: nat, j: nat, e: nat)
    requires EntryOf(s, j, e) && t in s.tasks
    ensures TaskOk(s, s.tasks[t])
  {
  }

  lemma {:induction false} RunAt(cfg: Config, s: Cluster, steps: seq<Step>, u: Cluster, j: nat, e: nat, tries: nat)
    requires At(cfg, s, j, e, tries) && SmoothRun(cfg, s, steps, u, j, e)
    ensures At(cfg, u, j, e, tries + TriesIn(cfg, s, steps, u, j, e))
    ensures Left(cfg, u, j, e) + MovesIn(cfg, s, steps, u, j, e) <= Left(cfg, s, j, e)
    decreases |steps|
  {
    hide At, Left, Apply, Enabled, Sole, Smooth, Touches, Tries;
    if steps != [] {
      SecondIsSole(cfg, Apply(cfg, s, steps[0]), steps[1..], u, j, e);
      StepAt(cfg, s, steps[0], j, e, tries);
      RunAt(cfg, Apply(cfg, s, steps[0]), steps[1..], u, j, e, if Tries(s, steps[0], j) then tries + 1 else tries);
    }
  }

  lemma SecondIsSole(cfg: Config, s: Cluster, steps: seq<Step>, u: Cluster, j: nat, e: nat)
    requires SmoothRun(cfg, s, steps, u, j, e)
    ensures Sole(s, j)
  {
  }

  lemma SubmittedAt(cfg: Config, s: Cluster, j: nat, e: nat)
    requires Submitted(s, j, e)
    ensures At(cfg, s, j, e, 0) && Left(cfg, s, j, e) == 20 * Limit(cfg) + 15
  {
  }

  // From submission to the last step: the job is never tried more often than
  // the limit says; it is marked as failed only after the last try and put on
  // the dead-letter stream at most once; the steps about it are bounded; and
  // when it is neither waiting nor being run any more it has been tried exactly
  // as often as the limit says, has failed, has been put on the dead-letter
  // stream once and is gone from the queue.
  lemma TriedExactly(cfg: Config, s: Cluster, steps: seq<Step>, u: Cluster, j: nat, e: nat)
    requires Submitted(s, j, e) && SmoothRun(cfg, s, steps, u, j, e)
    ensures TriesIn(cfg, s, steps, u, j, e) <= Limit(cfg)
    ensures MovesIn(cfg, s, steps, u, j, e) <= 20 * Limit(cfg) + 15
    ensures StatusOf(u, j) == Some(Failed) || LettersFor(u.q.dead, j) > 0 ==> TriesIn(cfg, s, steps, u, j, e) == Limit(cfg)
    ensures LettersFor(u.q.dead, j) <= 1
    ensures Resting(u, j) && !Owed(u, e) ==>
              && TriesIn(cfg, s, steps, u, j, e) == AttemptsOf(u, j) == Limit(cfg) && StatusOf(u, j) == Some(Failed)
              && LettersFor(u.q.dead, j) == 1 && e !in u.q.pel && e !in u.q.stream
  {
    hide EntryOf, SmoothRun, TriesIn, MovesIn, At, Submitted, Sole, Left, LettersFor;
    SubmittedAt(cfg, s, j, e);
    RunAt(cfg, s, steps, u, j, e, 0);
    AtSays(cfg, u, j, e, TriesIn(cfg, s, steps, u, j, e));
  }

  lemma AtSays(cfg: Config, s: Cluster, j: nat, e: nat, tries: nat)
    requires At(cfg, s, j, e, tries)
    ensures tries <= Limit(cfg) && LettersFor(s.q.dead, j) <= 1 && Left(cfg, s, j, e) >= 0
    ensures StatusOf(s, j) == Some(Failed) || LettersFor(s.q.dead, j) > 0 ==> tries == Limit(cfg)
    ensures Resting(s, j) && !Owed(s, e) ==> Done(cfg, s, j, e, tries)
  {
    hide EntryOf, LettersFor, Left;
    if t :| t in s.tasks && s.tasks[t].job == j {
      LeftAt(cfg, s, j, e, t);
      assert Stage(cfg, s, s.tasks[t].pc, j, tries);
    } else {
      LeftResting(cfg, s, j, e);
    }
  }

  // Until then the job is never stuck: its task can take its next step, or, if
  // it has none, an idle worker has a new entry to read or, once the entry has
  // been idle long enough, can reclaim it.
  lemma NeverStuck(cfg: Config, s: Cluster, j: nat, e: nat, w: nat, ms: nat)
    requires EntryOf(s, j, e) && (!Resting(s, j) || Owed(s, e)) && w in s.live && w !in s.stopping
    requires e in s.q.pel ==> s.now + ms >= s.q.pel[e].since + cfg.visibilityMs
    ensures || (exists t :: t in s.tasks && s.tasks[t].job == j && (Enabled(cfg, s, Begin(t)) || Enabled(cfg, s, Exec(t, Breaks))))
            || (e > s.q.last && Enabled(cfg, s, Reserve(w, true)))
            || Enabled(cfg, Apply(cfg, s, Tick(ms)), Reclaim(w, e, true))
  {
    if Resting(s, j) {
      if e > s.q.last {
        assert s.q.last + 1 in s.q.stream;
      } else {
        PendingIsRead(s, e);
      }
    } else {
      var t :| t in s.tasks && s.tasks[t].job == j;
      assert Enabled(cfg, s, Begin(t)) || Enabled(cfg, s, Exec(t, Breaks));
    }
  }
}
