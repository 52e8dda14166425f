// What the counter of attempts counts: the bumps, one by one, as long as no two
// tasks have the job.  With two, a count can be overwritten by an older one.
module Counting {
  import opened Basics
  import opened Broker
  import opened Delivery
  import opened Exclusive
  import opened Attempts
  import opened Scenes
  import opened Races

  ghost predicate Counts(s: Cluster, j: nat, n: nat) {
    AttemptsOf(s, j) == n && forall t :: t in s.tasks && s.tasks[t].job == j && s.tasks[t].pc.MarkProcessing? ==> s.tasks[t].pc.n == n
  }

  // --------------------------------------------- one task counts truly

  lemma OwnCounts(cfg: Config, s: Cluster, t: nat, r: Cluster, next: Option<Pc>, n: nat)
    requires t in s.tasks && Sole(s, s.tasks[t].job) && r.tasks == s.tasks && AttemptsOf(r, s.tasks[t].job) == n
    requires next.Some? && next.value.MarkProcessing? ==> next.value.n == n
    ensures Counts(Continue(r, t, next), s.tasks[t].job, n) && Counts(Lose(Continue(r, t, next), s.tasks[t].job), s.tasks[t].job, n)
  {
  }

  lemma TaskCounts(cfg: Config, s: Cluster, step: Step, n: nat)
    requires Enabled(cfg, s, step) && (step.Exec? || step.Raise?)
    requires Sole(s, s.tasks[step.t].job) && Counts(s, s.tasks[step.t].job, n)
    ensures var j := s.tasks[step.t].job; Counts(Apply(cfg, s, step), j, if Bumps(s, step, j) then n + 1 else n)
  {
    var t := step.t;
    var task := s.tasks[t];
    EffectCounts(s, task);
    EffectTasks(s, task);
    var next := if step.Exec? then Next(cfg, s, task, step.out)
                else if Guarded(task.pc) then Some(ReadAttempts(false)) else None;
    OnlyBumpLeadsToMark(cfg, s, task, if step.Exec? then step.out else Breaks);
    hide Effect, Next, Guarded;
    var r := if step.Exec? || step.applied then Effect(s, task) else s;
    OwnCounts(cfg, s, t, r, next, AttemptsOf(r, task.job));
  }

  lemma OnlyBumpLeadsToMark(cfg: Config, s: Cluster, task: Task, out: Outcome)
    ensures var next := Next(cfg, s, task, out);
            next.Some? && next.value.MarkProcessing? ==> task.pc.Bump? && next.value.n == AttemptsOf(s, task.job) + 1
  {
  }

  // Commands of other jobs' tasks.
  lemma OtherCounts(cfg: Config, s: Cluster, step: Step, j: nat, n: nat)
    requires Enabled(cfg, s, step) && (step.Exec? || step.Raise?) && s.tasks[step.t].job != j && Counts(s, j, n)
    ensures Counts(Apply(cfg, s, step), j, n)
  {
    var t := step.t;
    var task := s.tasks[t];
    var e := task.entry + 1;
    EffectElsewhere(s, task, j, e);
    UntouchedItself(s, j, e);
    var next := if step.Exec? then Next(cfg, s, task, step.out)
                else if Guarded(task.pc) then Some(ReadAttempts(false)) else None;
    var r := if step.Exec? || step.applied then Effect(s, task) else s;
    hide Effect, Next, Guarded, LettersFor, Untouched;
    ContinueElsewhere(r, t, next, j, e);
    UntouchedChain(s, r, Continue(r, t, next), j, e);
    LoseElsewhere(Continue(r, t, next), task.job, j, e);
    UntouchedChain(s, Continue(r, t, next), Lose(Continue(r, t, next), task.job), j, e);
    UntouchedCounts(s, Apply(cfg, s, step), j, e, n);
  }

  lemma UntouchedCounts(s: Cluster, u: Cluster, j: nat, e: nat, n: nat)
    requires Untouched(s, u, j, e) && Counts(s, j, n)
    ensures Counts(u, j, n)
  {
    hide LettersFor;
  }

  lemma CommandCounts(cfg: Config, s: Cluster, step: Step, j: nat, n: nat)
    requires Sole(s, j) && Counts(s, j, n) && Enabled(cfg, s, step) && (step.Exec? || step.Raise?)
    ensures Counts(Apply(cfg, s, step), j, if Bumps(s, step, j) then n + 1 else n)
  {
    hide Apply, Counts, Sole;
    if s.tasks[step.t].job == j { TaskCounts(cfg, s, step, n); } else { OtherCounts(cfg, s, step, j, n); }
  }

  lemma HandCounts(s: Cluster, u: Cluster, w: nat, e: nat, arrives: bool, j: nat, n: nat)
    requires HandedOver(s, u, w, e, arrives) && s.nextTask !in s.tasks && Counts(s, j, n)
    ensures Counts(u, j, n)
  {
  }

  lemma RestCounts(cfg: Config, s: Cluster, step: Step, j: nat, n: nat)
    requires Counts(s, j, n) && Enabled(cfg, s, step) && step != ExpireJob(j)
    requires !step.Exec? && !step.Raise? && !step.Reserve? && !step.Reclaim?
    ensures Counts(Apply(cfg, s, step), j, n)
  {
  }

  lemma TakeCounts(cfg: Config, s: Cluster, step: Step, j: nat, n: nat)
    requires Inv(s) && Counts(s, j, n) && Enabled(cfg, s, step) && (step.Reserve? || step.Reclaim?)
    ensures Counts(Apply(cfg, s, step), j, n)
  {
    NewTask(s);
    hide Inv, Apply, Counts, HandedOver;
    match step
    case Reserve(w, arrives) =>
      ReserveHands(cfg, s, w, arrives);
      HandCounts(s, Apply(cfg, s, step), w, s.q.last + 1, arrives, j, n);
    case Reclaim(w, e, arrives) =>
      ReclaimHands(cfg, s, w, e, arrives);
      HandCounts(s, Apply(cfg, s, step), w, e, arrives, j, n);
  }

  lemma StepCounts(cfg: Config, s: Cluster, step: Step, j: nat, n: nat)
    requires Inv(s) && Sole(s, j) && Counts(s, j, n) && Enabled(cfg, s, step) && step != ExpireJob(j)
    ensures Counts(Apply(cfg, s, step), j, if Bumps(s, step, j) then n + 1 else n)
  {
    hide Inv, Apply, Counts, Sole, Enabled;
    match step
    case Exec(_, _) | Raise(_, _) => CommandCounts(cfg, s, step, j, n);
    case Reserve(_, _) | Reclaim(_, _, _) => TakeCounts(cfg, s, step, j, n);
    case _ => RestCounts(cfg, s, step, j, n);
  }

  lemma {:induction false} RunCounts(cfg: Config, s: Cluster, steps: seq<Step>, u: Cluster, j: nat, n: nat)
    requires Inv(s) && Counts(s, j, n) && SoleRun(cfg, s, steps, u, j) && Lasting(steps, j)
    ensures Counts(u, j, n + BumpsIn(cfg, s, steps, j))
    decreases |steps|
  {
    hide Inv, Enabled, Apply, Sole, Counts, Bumps;
    if steps != [] {
      StepKeepsInv(cfg, s, steps[0]);
      StepCounts(cfg, s, steps[0], j, n);
      RunCounts(cfg, Apply(cfg, s, steps[0]), steps[1..], u, j, if Bumps(s, steps[0], j) then n + 1 else n);
    }
  }

  // While no two tasks ever have the job and its state is kept, the counter is
  // the number of attempts begun.
  lemma CounterIsTrue(cfg: Config, steps: seq<Step>, u: Cluster, j: nat)
    requires SoleRun(cfg, Initial, steps, u, j) && Lasting(steps, j)
    ensures AttemptsOf(u, j) == BumpsIn(cfg, Initial, steps, j)
  {
    InitialInv();
    RunCounts(cfg, Initial, steps, u, j, 0);
  }

  // --------------------------------------------- two tasks do not

  predicate AtWork(s: Cluster, t: nat) { t in s.tasks && s.tasks[t].job == 7 && s.tasks[t].pc.Work? }

  lemma BothAtWork(c: Scene)
    ensures var u := Both(c, Work, Work); AtWork(u, c.n) && AtWork(u, c.n + 1)
  {
  }

  // A run in which two attempts are begun, both tasks are at work, and one is
  // counted: the first worker writes its count over the second's.
  lemma AttemptLost(cfg: Config, tm: Timing) returns (steps: seq<Step>, u: Cluster, n: nat)
    requires Ordinary(tm) && !InTime(cfg, tm)
    ensures SteadyRun(cfg, tm, Initial, steps, u) && Lasting(steps, 7)
    ensures BumpsIn(cfg, Initial, steps, 7) == 2 && AttemptsOf(u, 7) == 1
    ensures AtWork(u, n) && AtWork(u, n + 1)
  {
    hide Piece, Both, TimelyRun, NoStops, Lasting, BumpsIn, AttemptsOf;
    var c, b;
    steps, c, b := TwoRunnersAfter(cfg, tm, 0);
    n := c.n;
    var more := BothBump(cfg, tm, c);
    var h2, m1, m2 := Hash(c.h.status, 2), MarkProcessing(1), MarkProcessing(2);
    var x, y, p1, p2 := [Exec(n, Breaks)], [Exec(n + 1, Breaks)], Hash(Some(Processing), 1), Hash(Some(Processing), 2);
    var s, v, w := Both(c, Load, Fetched), Both(c.(h := h2), m1, m2), Both(c.(h := p2), m1, Work);
    u := Both(c.(h := p1), Work, Work);
    SecondMoves(cfg, tm, c.(h := h2), m1, m2, p2, Work);
    FirstMoves(cfg, tm, c.(h := p2), m1, Work, p1, Work);
    Chain(cfg, tm, Initial, steps, s, 0, more, v, 2);
    steps := steps + more;
    Chain(cfg, tm, Initial, steps, v, 2, y, w, 0);
    steps := steps + y;
    Chain(cfg, tm, Initial, steps, w, 2, x, u, 0);
    steps := steps + x;
    PieceIsSteady(cfg, tm, Initial, steps, u, 2);
    BothHash(c.(h := p1), Work, Work);
    BothAtWork(c.(h := p1));
  }

  ghost predicate AlwaysTrue(cfg: Config, tm: Timing) {
    forall steps, u, j :: SteadyRun(cfg, tm, Initial, steps, u) && Lasting(steps, j) ==>
      AttemptsOf(u, j) == BumpsIn(cfg, Initial, steps, j)
  }

  // The counter is the number of attempts begun in every run without shutdowns
  // exactly when heartbeats come in time.
  lemma CounterIsTrueIff(cfg: Config, tm: Timing)
    requires Ordinary(tm)
    ensures AlwaysTrue(cfg, tm) <==> InTime(cfg, tm)
  {
    hide TimelyRun, NoStops, AttemptsOf, BumpsIn, Lasting;
    if InTime(cfg, tm) {
      forall steps, u, j | SteadyRun(cfg, tm, Initial, steps, u) && Lasting(steps, j)
        ensures AttemptsOf(u, j) == BumpsIn(cfg, Initial, steps, j)
      {
        InitialTimeInv(tm);
        TimelyRunIsSole(cfg, tm, Initial, steps, u, j);
        CounterIsTrue(cfg, steps, u, j);
      }
    } else {
      var steps, u, n := AttemptLost(cfg, tm);
    }
  }
}
