// Exclusive running by heartbeat.  Time passes in milliseconds.  What the
// workers promise is that an entry handed to them is registered soon, and that
// a worker that is not shutting down never goes long without a heartbeat.  If
// the two delays together are below the visibility timeout, two workers never
// run one entry.
module Exclusive {
  import opened Basics
  import opened Broker
  import opened Delivery

  // The longest a task waits to be registered, for an entry newly reserved and
  // for one reclaimed, and how long at least and at most a worker lets pass from
  // one heartbeat to the next.
  datatype Timing = Timing(reserved: nat, reclaimed: nat, pause: nat, beatGap: nat)

  function WaitOf(tm: Timing, task: Task): nat { if task.again then tm.reclaimed else tm.reserved }

  function Longest(tm: Timing): nat { if tm.reserved < tm.reclaimed then tm.reclaimed else tm.reserved }

  predicate Active(s: Cluster, w: nat) { w in s.live && w !in s.stopping }

  ghost predicate Timely(tm: Timing, s: Cluster) {
    && (forall w :: w in s.live && w !in s.stopping ==> w in s.lastBeat && s.now <= s.lastBeat[w] + tm.beatGap)
    && (forall t :: t in s.tasks && s.tasks[t].pc.Fetched? && Active(s, s.tasks[t].worker) ==>
          s.now <= s.tasks[t].at + WaitOf(tm, s.tasks[t]))
  }

  // No heartbeat before the pause is over.
  predicate Paced(tm: Timing, s: Cluster, step: Step) {
    step.Heartbeat? && step.w in s.lastBeat ==> s.now >= s.lastBeat[step.w] + tm.pause
  }

  // A run all of whose states keep the promise, with heartbeats at their pace.
  ghost predicate TimelyRun(cfg: Config, tm: Timing, s: Cluster, steps: seq<Step>, u: Cluster)
    decreases |steps|
  {
    && Timely(tm, s)
    && if steps == [] then u == s
       else Enabled(cfg, s, steps[0]) && Paced(tm, s, steps[0]) && TimelyRun(cfg, tm, Apply(cfg, s, steps[0]), steps[1..], u)
  }

  ghost predicate NoStops(steps: seq<Step>) { forall i :: 0 <= i < |steps| ==> !steps[i].Stop? }

  // No two tasks of workers that are not shutting down have the same entry.
  ghost predicate OneRunner(s: Cluster) {
    forall t, k :: t in s.tasks && k in s.tasks && t != k && s.tasks[t].entry == s.tasks[k].entry ==>
      !Active(s, s.tasks[t].worker) || !Active(s, s.tasks[k].worker)
  }

  // --------------------------------------------- what keeps a claim young

  // Until a task is registered its entry is no older than the task; from then
  // on the entry is in the register of its worker.
  ghost predicate ClaimOk(s: Cluster, task: Task) {
    Active(s, task.worker) ==>
      if task.pc.Fetched? then task.entry in s.q.pel ==> s.q.pel[task.entry].since >= task.at
      else (task.worker, task.entry) in s.inflight
  }

  // What a worker has registered was claimed for it not much before its last
  // heartbeat, or later.
  ghost predicate RegisterOk(tm: Timing, s: Cluster) {
    forall x :: x in s.inflight ==>
      && x.0 in s.live && x.1 <= s.q.last
      && (Active(s, x.0) && x.1 in s.q.pel ==> x.0 in s.lastBeat && s.q.pel[x.1].since + Longest(tm) >= s.lastBeat[x.0])
  }

  // Nor is the entry of a task in the register of another such worker.
  ghost predicate OneHolder(s: Cluster) {
    forall t, x :: t in s.tasks && x in s.inflight && Active(s, s.tasks[t].worker) && Active(s, x.0) ==>
      s.tasks[t].entry == x.1 ==> s.tasks[t].worker == x.0
  }

  ghost predicate ClockOk(s: Cluster) {
    && (forall w :: w in s.live ==> w in s.lastBeat && s.lastBeat[w] <= s.now)
    && (forall t :: t in s.tasks ==> s.tasks[t].worker in s.live && s.tasks[t].at <= s.now)
  }

  ghost predicate TimeInv(tm: Timing, s: Cluster) {
    && Inv(s) && ClockOk(s) && OneRunner(s) && OneHolder(s) && RegisterOk(tm, s)
    && forall t :: t in s.tasks ==> ClaimOk(s, s.tasks[t])
  }

  ghost predicate InTime(cfg: Config, tm: Timing) { Longest(tm) + tm.beatGap < cfg.visibilityMs }

  // An entry that a worker which is not shutting down works on is never idle
  // long enough to be taken over.
  lemma RunningIsNotIdle(cfg: Config, tm: Timing, s: Cluster, t: nat)
    requires TimeInv(tm, s) && Timely(tm, s) && InTime(cfg, tm)
    requires t in s.tasks && Active(s, s.tasks[t].worker)
    ensures !IdleFor(s.q, s.tasks[t].entry, s.now, cfg.visibilityMs)
  {
    assert ClaimOk(s, s.tasks[t]);
    assert Active(s, s.tasks[t].worker);
    if !s.tasks[t].pc.Fetched? { RegisteredIsNotIdle(cfg, tm, s, (s.tasks[t].worker, s.tasks[t].entry)); }
  }

  lemma RegisteredIsNotIdle(cfg: Config, tm: Timing, s: Cluster, x: (nat, nat))
    requires TimeInv(tm, s) && Timely(tm, s) && InTime(cfg, tm)
    requires x in s.inflight && Active(s, x.0)
    ensures !IdleFor(s.q, x.1, s.now, cfg.visibilityMs)
  {
  }

  // --------------------------------------------- one step

  lemma Rebuild(tm: Timing, s: Cluster, u: Cluster)
    requires TimeInv(tm, s) && Inv(u) && ClockOk(u)
    requires forall t :: t in u.tasks ==>
               && t in s.tasks && s.tasks[t].entry == u.tasks[t].entry && s.tasks[t].worker == u.tasks[t].worker
               && (Active(u, u.tasks[t].worker) ==> Active(s, s.tasks[t].worker))
    requires OneHolder(u) && RegisterOk(tm, u)
    requires forall t :: t in u.tasks ==> ClaimOk(u, u.tasks[t])
    ensures TimeInv(tm, u)
  {
  }

  // Steps of producers and of the clock.
  lemma QuietSteps(cfg: Config, tm: Timing, s: Cluster, step: Step)
    requires TimeInv(tm, s) && Enabled(cfg, s, step)
    requires step.Submit? || step.Enqueue? || step.RequestCancel? || step.ExpireCancel? || step.ExpireJob? || step.Tick?
    ensures TimeInv(tm, Apply(cfg, s, step))
  {
    TimeInvIsInv(tm, s);
    StepKeepsInv(cfg, s, step);
    hide Inv, TimeInv;
    var u := Apply(cfg, s, step);
    match step
    case Tick(_) => Unmoved(tm, s, u);
    case Enqueue(_) => Unmoved(tm, s, u);
    case _ => Unmoved(tm, s, u);
  }

  lemma Unmoved(tm: Timing, s: Cluster, u: Cluster)
    requires TimeInv(tm, s) && Inv(u)
    requires u.tasks == s.tasks && u.live == s.live && u.stopping == s.stopping && u.lastBeat == s.lastBeat
    requires u.inflight == s.inflight && u.q.pel == s.q.pel && u.q.last == s.q.last && u.now >= s.now
    ensures TimeInv(tm, u)
  {
    hide Inv;
    forall t | t in u.tasks ensures ClaimOk(u, u.tasks[t]) { assert ClaimOk(s, s.tasks[t]); }
  }

  lemma StartStep(cfg: Config, tm: Timing, s: Cluster, w: nat)
    requires TimeInv(tm, s) && w !in s.live
    ensures TimeInv(tm, Apply(cfg, s, Start(w)))
  {
    var u := Apply(cfg, s, Start(w));
    StepKeepsInv(cfg, s, Start(w));
    hide Inv;
    forall v | v != w ensures Active(u, v) == Active(s, v) {}
    forall t | t in u.tasks ensures ClaimOk(u, u.tasks[t]) { assert ClaimOk(s, s.tasks[t]); }
    Rebuild(tm, s, u);
  }

  lemma StopStep(cfg: Config, tm: Timing, s: Cluster, w: nat)
    requires TimeInv(tm, s) && w in s.live
    ensures TimeInv(tm, Apply(cfg, s, Stop(w)))
  {
    var u := Apply(cfg, s, Stop(w));
    StepKeepsInv(cfg, s, Stop(w));
    hide Inv;
    forall t | t in u.tasks ensures ClaimOk(u, u.tasks[t]) { assert ClaimOk(s, s.tasks[t]); }
    Rebuild(tm, s, u);
  }

  lemma CrashStep(cfg: Config, tm: Timing, s: Cluster, w: nat)
    requires TimeInv(tm, s) && w in s.live
    ensures TimeInv(tm, Apply(cfg, s, Crash(w)))
  {
    var u := Apply(cfg, s, Crash(w));
    StepKeepsInv(cfg, s, Crash(w));
    hide Inv;
    forall t | t in u.tasks ensures ClaimOk(u, u.tasks[t]) { assert ClaimOk(s, s.tasks[t]); }
    Rebuild(tm, s, u);
  }

  lemma BeatStep(cfg: Config, tm: Timing, s: Cluster, w: nat)
    requires TimeInv(tm, s) && Active(s, w)
    ensures TimeInv(tm, Apply(cfg, s, Heartbeat(w)))
  {
    var u := Apply(cfg, s, Heartbeat(w));
    StepKeepsInv(cfg, s, Heartbeat(w));
    hide Inv;
    forall t | t in u.tasks ensures ClaimOk(u, u.tasks[t]) { assert ClaimOk(s, s.tasks[t]); }
    Rebuild(tm, s, u);
  }

  lemma BeginStep(cfg: Config, tm: Timing, s: Cluster, t: nat)
    requires TimeInv(tm, s) && Timely(tm, s) && Enabled(cfg, s, Begin(t))
    ensures TimeInv(tm, Apply(cfg, s, Begin(t)))
  {
    var u := Apply(cfg, s, Begin(t));
    StepKeepsInv(cfg, s, Begin(t));
    TaskIsRead(s, t);
    hide Inv;
    assert ClaimOk(s, s.tasks[t]);
    forall k | k in u.tasks ensures ClaimOk(u, u.tasks[k]) { assert ClaimOk(s, s.tasks[k]); }
    forall v ensures Active(u, v) == Active(s, v) {}
    BeginRegister(tm, s, t);
    Rebuild(tm, s, u);
  }

  lemma BeginRegister(tm: Timing, s: Cluster, t: nat)
    requires ClockOk(s) && OneRunner(s) && OneHolder(s) && RegisterOk(tm, s) && Timely(tm, s)
    requires t in s.tasks && s.tasks[t].pc.Fetched? && ClaimOk(s, s.tasks[t]) && s.tasks[t].entry <= s.q.last
    ensures var u := s.(tasks := s.tasks[t := s.tasks[t].(pc := Load)],
                        inflight := s.inflight + {(s.tasks[t].worker, s.tasks[t].entry)});
            RegisterOk(tm, u) && OneHolder(u)
  {
    var y := (s.tasks[t].worker, s.tasks[t].entry);
    var u := s.(tasks := s.tasks[t := s.tasks[t].(pc := Load)], inflight := s.inflight + {y});
    assert forall x :: x in u.inflight ==> x == y || x in s.inflight;
    assert RegisterOk(tm, u);
  }

  lemma TaskIsRead(s: Cluster, t: nat)
    requires Inv(s) && t in s.tasks
    ensures s.tasks[t].entry <= s.q.last
  {
    assert TaskOk(s, s.tasks[t]);
  }

  // The commands of tasks can only take entries off the pending list.
  ghost predicate OnlyReleases(s: Cluster, u: Cluster) {
    && u.tasks == s.tasks && u.live == s.live && u.stopping == s.stopping && u.lastBeat == s.lastBeat
    && u.now == s.now && u.inflight == s.inflight
    && (forall e :: e in u.q.pel ==> e in s.q.pel && u.q.pel[e] == s.q.pel[e])
    && s.q.last == u.q.last
  }

  lemma EffectOnClaims(s: Cluster, task: Task)
    ensures OnlyReleases(s, Effect(s, task))
  {
    hide AttemptsOf, StatusOf, Terminal;
    match task.pc
    case MarkProcessing(n) =>
    case _ =>
  }

  lemma ContinueStep(tm: Timing, s: Cluster, r: Cluster, t: nat, next: Option<Pc>)
    requires TimeInv(tm, s) && t in s.tasks && !s.tasks[t].pc.Fetched?
    requires OnlyReleases(s, r)
    requires Inv(Continue(r, t, next)) && (next.Some? ==> !next.value.Fetched?)
    ensures TimeInv(tm, Continue(r, t, next))
  {
    hide Inv;
    var u := Continue(r, t, next);
    forall k | k in u.tasks ensures ClaimOk(u, u.tasks[k]) { assert ClaimOk(s, s.tasks[k]); }
    Rebuild(tm, s, u);
  }

  lemma TaskStep(cfg: Config, tm: Timing, s: Cluster, step: Step)
    requires TimeInv(tm, s) && Enabled(cfg, s, step) && (step.Exec? || step.Raise?)
    ensures TimeInv(tm, Apply(cfg, s, step))
  {
    hide Inv, Effect, TimeInv;
    TimeInvIsInv(tm, s);
    StepKeepsInv(cfg, s, step);
    var task := s.tasks[step.t];
    EffectOnClaims(s, task);
    match step
    case Exec(t, out) =>
      NextIsNotFetched(cfg, s, task, out);
      ContinueStep(tm, s, Effect(s, task), t, Next(cfg, s, task, out));
    case Raise(t, applied) =>
      var r := if applied then Effect(s, task) else s;
      if Guarded(task.pc) {
        ContinueStep(tm, s, r, t, Some(ReadAttempts(false)));
      } else {
        UnloseInv(Continue(r, t, None), task.job);
        ContinueStep(tm, s, r, t, None);
        LoseStep(tm, Continue(r, t, None), task.job);
      }
  }

  lemma TimeInvIsInv(tm: Timing, s: Cluster)
    requires TimeInv(tm, s)
    ensures Inv(s)
  {
  }

  lemma NextIsNotFetched(cfg: Config, s: Cluster, task: Task, out: Outcome)
    ensures var next := Next(cfg, s, task, out); next.Some? ==> !next.value.Fetched?
  {
  }

  lemma UnloseInv(s: Cluster, j: nat)
    requires Inv(Lose(s, j))
    ensures Inv(s)
  {
    var u := Lose(s, j);
    forall t | t in s.tasks ensures t < s.nextTask && TaskOk(s, s.tasks[t]) { assert TaskOk(u, u.tasks[t]); }
    forall e | e in s.enqueued ensures Safe(s, e) { assert Safe(u, e); }
  }

  lemma LoseStep(tm: Timing, s: Cluster, j: nat)
    requires TimeInv(tm, s)
    ensures TimeInv(tm, Lose(s, j))
  {
    LoseKeeps(s, j);
    hide Inv;
    var u := Lose(s, j);
    forall k | k in u.tasks ensures ClaimOk(u, u.tasks[k]) { assert ClaimOk(s, s.tasks[k]); }
    Rebuild(tm, s, u);
  }

  // Handing an entry over, new or reclaimed, to a worker when no worker that is
  // not shutting down has it.
  lemma HandOver(tm: Timing, s: Cluster, u: Cluster, w: nat, e: nat, arrives: bool)
    requires TimeInv(tm, s) && w in s.live
    requires forall t :: t in s.tasks && s.tasks[t].entry == e ==> !Active(s, s.tasks[t].worker)
    requires forall x :: x in s.inflight && x.1 == e ==> !Active(s, x.0)
    requires u.tasks == (if arrives then s.tasks[s.nextTask := Task(w, e, if e in s.q.stream then s.q.stream[e] else 0, Fetched, s.now, e <= s.q.last)] else s.tasks)
    requires u.live == s.live && u.stopping == s.stopping && u.lastBeat == s.lastBeat && u.now == s.now && u.inflight == s.inflight
    requires u.q.pel == s.q.pel[e := Pending(w, s.now)]
    requires s.nextTask !in s.tasks && Inv(u) && s.q.last <= u.q.last
    ensures TimeInv(tm, u)
  {
    hide Inv;
    forall t | t in u.tasks ensures ClaimOk(u, u.tasks[t]) {
      if t in s.tasks { assert ClaimOk(s, s.tasks[t]); }
    }
  }

  lemma NextTaskIsNew(s: Cluster)
    requires Inv(s)
    ensures s.nextTask !in s.tasks
    ensures forall t :: t in s.tasks ==> s.tasks[t].entry <= s.q.last
  {
    forall t | t in s.tasks ensures s.tasks[t].entry <= s.q.last { assert TaskOk(s, s.tasks[t]); }
  }

  lemma RegisterIsRead(tm: Timing, s: Cluster)
    requires TimeInv(tm, s)
    ensures forall x :: x in s.inflight ==> x.1 <= s.q.last
  {
  }

  lemma ReserveStep(cfg: Config, tm: Timing, s: Cluster, w: nat, arrives: bool)
    requires TimeInv(tm, s) && Enabled(cfg, s, Reserve(w, arrives))
    ensures TimeInv(tm, Apply(cfg, s, Reserve(w, arrives)))
  {
    StepKeepsInv(cfg, s, Reserve(w, arrives));
    NextTaskIsNew(s);
    ReserveHands(cfg, s, w, arrives);
    assert w in s.live;
    hide Inv, Apply, Enabled, TimeInv;
    RegisterIsRead(tm, s);
    HandOver(tm, s, Apply(cfg, s, Reserve(w, arrives)), w, s.q.last + 1, arrives);
  }

  lemma ReclaimStep(cfg: Config, tm: Timing, s: Cluster, w: nat, e: nat, arrives: bool)
    requires TimeInv(tm, s) && Timely(tm, s) && InTime(cfg, tm) && Enabled(cfg, s, Reclaim(w, e, arrives))
    ensures TimeInv(tm, Apply(cfg, s, Reclaim(w, e, arrives)))
  {
    TimeInvIsInv(tm, s);
    StepKeepsInv(cfg, s, Reclaim(w, e, arrives));
    NextTaskIsNew(s);
    ReclaimHands(cfg, s, w, e, arrives);
    assert IdleFor(s.q, e, s.now, cfg.visibilityMs) && w in s.live;
    hide Inv, Apply, Enabled, TimeInv, Timely, InTime;
    forall t | t in s.tasks && s.tasks[t].entry == e ensures !Active(s, s.tasks[t].worker) {
      if Active(s, s.tasks[t].worker) { RunningIsNotIdle(cfg, tm, s, t); }
    }
    forall x | x in s.inflight && x.1 == e ensures !Active(s, x.0) {
      if Active(s, x.0) { RegisteredIsNotIdle(cfg, tm, s, x); }
    }
    HandOver(tm, s, Apply(cfg, s, Reclaim(w, e, arrives)), w, e, arrives);
  }

  lemma TimedStep(cfg: Config, tm: Timing, s: Cluster, step: Step)
    requires TimeInv(tm, s) && Timely(tm, s) && InTime(cfg, tm) && Enabled(cfg, s, step)
    ensures TimeInv(tm, Apply(cfg, s, step))
  {
    hide TimeInv, Timely, Apply, Inv, FirstFrom;
    match step
    case Exec(_, _) | Raise(_, _) => TaskStep(cfg, tm, s, step);
    case Begin(t) => BeginStep(cfg, tm, s, t);
    case Heartbeat(w) => BeatStep(cfg, tm, s, w);
    case Crash(w) => CrashStep(cfg, tm, s, w);
    case Reserve(w, arrives) => ReserveStep(cfg, tm, s, w, arrives);
    case Reclaim(w, e, arrives) => ReclaimStep(cfg, tm, s, w, e, arrives);
    case Tombstone(w, e) =>
      TimeInvIsInv(tm, s);
      NoTombstones(cfg, s, w, e);
    case Start(w) => StartStep(cfg, tm, s, w);
    case Stop(w) => StopStep(cfg, tm, s, w);
    case _ => QuietSteps(cfg, tm, s, step);
  }

  lemma {:induction false} TimedRun(cfg: Config, tm: Timing, s: Cluster, steps: seq<Step>, u: Cluster)
    requires TimeInv(tm, s) && InTime(cfg, tm) && TimelyRun(cfg, tm, s, steps, u)
    ensures TimeInv(tm, u) && Timely(tm, u)
    decreases |steps|
  {
    hide TimeInv, Timely, Apply, Enabled;
    if steps != [] {
      TimedStep(cfg, tm, s, steps[0]);
      TimedRun(cfg, tm, Apply(cfg, s, steps[0]), steps[1..], u);
    }
  }

  lemma InitialTimeInv(tm: Timing)
    ensures TimeInv(tm, Initial)
  {
    InitialInv();
  }

  // If the two delays together stay below the visibility timeout, no two
  // workers that are not shutting down ever run one entry, and whatever such a
  // worker runs or has registered is never idle long enough to be reclaimed.
  lemma ExclusiveRunning(cfg: Config, tm: Timing, steps: seq<Step>, u: Cluster)
    requires InTime(cfg, tm) && TimelyRun(cfg, tm, Initial, steps, u)
    ensures OneRunner(u)
    ensures forall t, w, arrives :: t in u.tasks && Active(u, u.tasks[t].worker) ==>
              !Enabled(cfg, u, Reclaim(w, u.tasks[t].entry, arrives))
    ensures forall x :: x in u.inflight && Active(u, x.0) ==> !IdleFor(u.q, x.1, u.now, cfg.visibilityMs)
  {
    InitialTimeInv(tm);
    TimedRun(cfg, tm, Initial, steps, u);
    forall t | t in u.tasks && Active(u, u.tasks[t].worker)
      ensures !IdleFor(u.q, u.tasks[t].entry, u.now, cfg.visibilityMs)
    {
      RunningIsNotIdle(cfg, tm, u, t);
    }
    forall x | x in u.inflight && Active(u, x.0) ensures !IdleFor(u.q, x.1, u.now, cfg.visibilityMs) {
      RegisteredIsNotIdle(cfg, tm, u, x);
    }
  }

  // --------------------------------------------- a crashed worker's entry

  // Pending, and in the hands of no worker that would send heartbeats for it.
  ghost predicate Orphan(s: Cluster, e: nat) {
    && e in s.q.pel
    && (forall t :: t in s.tasks && Active(s, s.tasks[t].worker) ==> s.tasks[t].entry != e)
    && (forall x :: x in s.inflight && Active(s, x.0) ==> x.1 != e)
  }

  ghost predicate Housed(s: Cluster) {
    && (forall t :: t in s.tasks ==> s.tasks[t].worker in s.live)
    && (forall x :: x in s.inflight ==> x.0 in s.live)
  }

  ghost predicate StillOrphan(s: Cluster, u: Cluster, e: nat) {
    Housed(u) && u.now >= s.now && (e in u.q.pel ==> e in s.q.pel && Orphan(u, e) && u.q.pel[e] == s.q.pel[e])
  }

  // A step that hands nothing over and registers nothing.
  ghost predicate OnlyDrops(s: Cluster, u: Cluster) {
    && u.now >= s.now
    && (forall t :: t in u.tasks ==> t in s.tasks && u.tasks[t].worker == s.tasks[t].worker && u.tasks[t].entry == s.tasks[t].entry)
    && u.inflight <= s.inflight && u.live == s.live && u.stopping == s.stopping
    && (forall e :: e in u.q.pel ==> e in s.q.pel && u.q.pel[e] == s.q.pel[e])
  }

  lemma DropsLeaveOrphans(s: Cluster, u: Cluster, e: nat)
    requires Housed(s) && Orphan(s, e) && OnlyDrops(s, u)
    ensures StillOrphan(s, u, e)
  {
  }

  lemma TaskDrops(s: Cluster, r: Cluster, t: nat, next: Option<Pc>)
    requires t in s.tasks && OnlyReleases(s, r)
    ensures OnlyDrops(s, Continue(r, t, next))
  {
  }

  lemma OrphanStep(cfg: Config, s: Cluster, step: Step, e: nat)
    requires Inv(s) && Housed(s) && Orphan(s, e) && Enabled(cfg, s, step)
    requires step.Reclaim? ==> step.e != e
    ensures StillOrphan(s, Apply(cfg, s, step), e)
  {
    PendingIsRead(s, e);
    hide Inv, Effect, Next, Orphan, FirstFrom, StillOrphan, HasNew, OnlyReleases, OnlyDrops;
    var u := Apply(cfg, s, step);
    match step
    case Exec(t, out) =>
      EffectOnClaims(s, s.tasks[t]);
      TaskDrops(s, Effect(s, s.tasks[t]), t, Next(cfg, s, s.tasks[t], out));
      DropsLeaveOrphans(s, u, e);
    case Raise(t, applied) =>
      var r := if applied then Effect(s, s.tasks[t]) else s;
      EffectOnClaims(s, s.tasks[t]);
      ReleasesNothing(s);
      var next := if Guarded(s.tasks[t].pc) then Some(ReadAttempts(false)) else None;
      TaskDrops(s, r, t, next);
      LoseDrops(s, Continue(r, t, next), s.tasks[t].job);
      DropsLeaveOrphans(s, u, e);
    case _ => OrphanElsewhere(cfg, s, step, e);
  }

  lemma ReleasesNothing(s: Cluster)
    ensures OnlyReleases(s, s)
  {
  }

  lemma LoseDrops(s: Cluster, u: Cluster, j: nat)
    requires OnlyDrops(s, u)
    ensures OnlyDrops(s, Lose(u, j))
  {
  }

  // Handing another entry to a worker.
  lemma HandOverOther(s: Cluster, u: Cluster, w: nat, x: nat, e: nat)
    requires Housed(s) && Orphan(s, e) && x != e && w in s.live
    requires HandedOver(s, u, w, x, true) || HandedOver(s, u, w, x, false)
    ensures StillOrphan(s, u, e)
  {
  }

  // Workers that come, go, register and send heartbeats.
  lemma OrphanWorkers(cfg: Config, s: Cluster, step: Step, e: nat)
    requires Housed(s) && Orphan(s, e) && Enabled(cfg, s, step)
    requires step.Start? || step.Stop? || step.Crash? || step.Begin? || step.Heartbeat?
    ensures StillOrphan(s, Apply(cfg, s, step), e)
  {
    var u := Apply(cfg, s, step);
    match step
    case Start(w) => forall v | v != w ensures Active(u, v) == Active(s, v) {}
    case Stop(w) => forall v | v != w ensures Active(u, v) == Active(s, v) {}
    case Crash(w) => forall v | v != w ensures Active(u, v) == Active(s, v) {}
    case Begin(t) =>
      var y := (s.tasks[t].worker, s.tasks[t].entry);
      assert forall x :: x in u.inflight ==> x == y || x in s.inflight;
    case Heartbeat(w) =>
  }

  lemma OrphanElsewhere(cfg: Config, s: Cluster, step: Step, e: nat)
    requires Inv(s) && Housed(s) && Orphan(s, e) && Enabled(cfg, s, step)
    requires !step.Exec? && !step.Raise? && (step.Reclaim? ==> step.e != e)
    ensures StillOrphan(s, Apply(cfg, s, step), e)
  {
    OrphanIsPending(s, e);
    PendingIsRead(s, e);
    hide Inv, HandedOver, Apply, Orphan, Housed, StillOrphan, OnlyDrops;
    var u := Apply(cfg, s, step);
    match step
    case Start(_) | Stop(_) | Crash(_) | Begin(_) | Heartbeat(_) => OrphanWorkers(cfg, s, step, e);
    case Reserve(w, arrives) =>
      ReserveHands(cfg, s, w, arrives);
      HandOverOther(s, u, w, s.q.last + 1, e);
    case Reclaim(w, x, arrives) =>
      ReclaimHands(cfg, s, w, x, arrives);
      HandOverOther(s, u, w, x, e);
    case Tombstone(w, x) => NoTombstones(cfg, s, w, x);
    case _ => ProducersLeaveOrphans(cfg, s, step, e);
  }

  lemma ProducersLeaveOrphans(cfg: Config, s: Cluster, step: Step, e: nat)
    requires Housed(s) && Orphan(s, e) && Enabled(cfg, s, step)
    requires step.Submit? || step.Enqueue? || step.RequestCancel? || step.ExpireCancel? || step.ExpireJob? || step.Tick?
    ensures StillOrphan(s, Apply(cfg, s, step), e)
  {
    hide Orphan, Housed, StillOrphan, OnlyDrops, Apply;
    ProducersDrop(cfg, s, step);
    DropsLeaveOrphans(s, Apply(cfg, s, step), e);
  }

  lemma ProducersDrop(cfg: Config, s: Cluster, step: Step)
    requires Enabled(cfg, s, step)
    requires step.Submit? || step.Enqueue? || step.RequestCancel? || step.ExpireCancel? || step.ExpireJob? || step.Tick?
    ensures OnlyDrops(s, Apply(cfg, s, step))
  {
  }

  lemma OrphanIsPending(s: Cluster, e: nat)
    requires Orphan(s, e)
    ensures e in s.q.pel
  {
  }

  ghost predicate Unclaimed(steps: seq<Step>, e: nat) {
    forall i :: 0 <= i < |steps| && steps[i].Reclaim? ==> steps[i].e != e
  }

  // Until somebody reclaims it an orphan stays as it is, or its job has ended.
  lemma {:induction false} OrphanRun(cfg: Config, s: Cluster, steps: seq<Step>, u: Cluster, e: nat)
    requires Inv(s) && Housed(s) && Orphan(s, e) && Leads(cfg, s, steps, u) && Unclaimed(steps, e)
    ensures Inv(u) && (e in u.q.pel ==> Orphan(u, e) && u.q.pel[e] == s.q.pel[e])
    ensures e in u.enqueued && (e in u.q.pel || u.enqueued[e] in u.ended)
    decreases |steps|
  {
    RunKeepsInv(cfg, s, steps, u);
    RunKeeps(cfg, s, steps, u);
    PendingIsRead(s, e);
    StaysPendingOrEnded(u, e);
    if steps != [] {
      var t := Apply(cfg, s, steps[0]);
      OrphanStep(cfg, s, steps[0], e);
      StepKeepsInv(cfg, s, steps[0]);
      StepKeeps(cfg, s, steps[0]);
      RunKeeps(cfg, t, steps[1..], u);
      hide Inv, Enabled, Apply, Orphan;
      assert Unclaimed(steps[1..], e);
      if e in t.q.pel { OrphanRun(cfg, t, steps[1..], u, e); }
    }
  }

  lemma StaysPendingOrEnded(s: Cluster, e: nat)
    requires Inv(s) && e in s.enqueued && e <= s.q.last
    ensures e in s.q.pel || s.enqueued[e] in s.ended
  {
    assert Safe(s, e);
  }

  // --------------------------------------------- who sends heartbeats

  lemma ActiveNext(cfg: Config, s: Cluster, step: Step, w: nat)
    requires Enabled(cfg, s, step)
    ensures Active(Apply(cfg, s, step), w)
            <==> step == Start(w) || (Active(s, w) && step !in {Stop(w), Crash(w)})
  {
    if step.Exec? || step.Raise? { EffectIsNarrow(s, s.tasks[step.t]); }
    hide Effect, Next, FirstFrom, HasNew;
    match step
    case Reserve(_, _) =>
    case _ =>
  }

  lemma {:induction false} ActiveRun(cfg: Config, s: Cluster, steps: seq<Step>, u: Cluster, w: nat)
    requires Leads(cfg, s, steps, u)
    ensures Active(u, w) <==> Since(steps, Start(w), {Stop(w), Crash(w)}) || (Active(s, w) && Avoids(steps, {Stop(w), Crash(w)}))
    decreases |steps|
  {
    if steps != [] {
      var step, rest := steps[0], steps[1..];
      assert steps == [step] + rest;
      ActiveNext(cfg, s, step, w);
      hide Apply, Enabled, Active;
      ActiveRun(cfg, Apply(cfg, s, step), rest, u, w);
      SinceNext(step, rest, Start(w), {Stop(w), Crash(w)});
      hide Since;
      assert forall k :: 0 < k < |steps| ==> steps[k] == rest[k - 1];
      assert forall k :: 0 <= k < |rest| ==> rest[k] == steps[k + 1];
    }
  }

  // A worker sends heartbeats if and only if it has been started and neither crashed
  // nor begun to shut down since: also after a restart.
  lemma HeartbeatsIff(cfg: Config, steps: seq<Step>, s: Cluster, w: nat)
    requires Leads(cfg, Initial, steps, s)
    ensures Enabled(cfg, s, Heartbeat(w)) <==> Since(steps, Start(w), {Stop(w), Crash(w)})
  {
    ActiveRun(cfg, Initial, steps, s, w);
    hide Since, Leads;
  }

  // --------------------------------------------- workers that go away

  // The crash of a worker orphans what it was running.
  lemma CrashOrphans(cfg: Config, tm: Timing, s: Cluster, t: nat)
    requires TimeInv(tm, s) && t in s.tasks && Active(s, s.tasks[t].worker) && s.tasks[t].entry in s.q.pel
    ensures var u := Apply(cfg, s, Crash(s.tasks[t].worker));
            Housed(u) && Orphan(u, s.tasks[t].entry) && u.q.pel == s.q.pel
  {
    hide Inv;
    var w := s.tasks[t].worker;
    var u := Apply(cfg, s, Crash(w));
    forall v | v != w ensures Active(u, v) == Active(s, v) {}
  }

  // So does a worker that starts to shut down: it goes on with what it runs, but
  // sends no more heartbeats for it.
  lemma StopOrphans(cfg: Config, tm: Timing, s: Cluster, t: nat)
    requires TimeInv(tm, s) && t in s.tasks && Active(s, s.tasks[t].worker) && s.tasks[t].entry in s.q.pel
    ensures var u := Apply(cfg, s, Stop(s.tasks[t].worker));
            Housed(u) && Orphan(u, s.tasks[t].entry) && u.q.pel == s.q.pel && u.tasks == s.tasks
  {
    hide Inv;
    var w := s.tasks[t].worker;
    var u := Apply(cfg, s, Stop(w));
    forall v | v != w ensures Active(u, v) == Active(s, v) {}
  }

  // What a crashed worker was running does become reclaimable: whatever happens
  // after the crash, as long as nobody has reclaimed the entry its job has
  // ended or, once the visibility timeout has passed since it was last claimed,
  // every worker that is not shutting down can take it over.
  lemma CrashedEntryIsReclaimable(cfg: Config, tm: Timing, before: seq<Step>, s: Cluster, t: nat,
                                  after: seq<Step>, u: Cluster, w: nat, arrives: bool)
    requires InTime(cfg, tm) && TimelyRun(cfg, tm, Initial, before, s)
    requires t in s.tasks && Active(s, s.tasks[t].worker) && s.tasks[t].entry in s.q.pel
    requires Leads(cfg, Apply(cfg, s, Crash(s.tasks[t].worker)), after, u) && Unclaimed(after, s.tasks[t].entry)
    requires Active(u, w) && u.now >= s.q.pel[s.tasks[t].entry].since + cfg.visibilityMs
    ensures var e := s.tasks[t].entry;
            e in u.enqueued && (u.enqueued[e] in u.ended || Enabled(cfg, u, Reclaim(w, e, arrives)))
  {
    InitialTimeInv(tm);
    TimedRun(cfg, tm, Initial, before, s);
    CrashOrphans(cfg, tm, s, t);
    TimeInvIsInv(tm, s);
    StepKeepsInv(cfg, s, Crash(s.tasks[t].worker));
    hide Inv, TimeInv, Timely, TimelyRun, Leads, InTime, Orphan, Housed, Unclaimed;
    OrphanIsTaken(cfg, Apply(cfg, s, Crash(s.tasks[t].worker)), after, u, s.tasks[t].entry, w, arrives);
  }

  lemma OrphanIsTaken(cfg: Config, s: Cluster, steps: seq<Step>, u: Cluster, e: nat, w: nat, arrives: bool)
    requires Inv(s) && Housed(s) && Orphan(s, e) && Leads(cfg, s, steps, u) && Unclaimed(steps, e)
    requires Active(u, w) && e in s.q.pel && u.now >= s.q.pel[e].since + cfg.visibilityMs
    ensures e in u.enqueued && (u.enqueued[e] in u.ended || Enabled(cfg, u, Reclaim(w, e, arrives)))
  {
    OrphanRun(cfg, s, steps, u, e);
    hide Inv, Orphan, Leads;
    if e in u.q.pel { PendingIsRead(u, e); }
  }

  // So, when a worker shuts down for longer than the timeout, what it still runs can
  // be taken over by any other, and run by both.
  lemma StoppedEntryIsReclaimable(cfg: Config, tm: Timing, before: seq<Step>, s: Cluster, t: nat,
                                  after: seq<Step>, u: Cluster, w: nat, arrives: bool)
    requires InTime(cfg, tm) && TimelyRun(cfg, tm, Initial, before, s)
    requires t in s.tasks && Active(s, s.tasks[t].worker) && s.tasks[t].entry in s.q.pel
    requires Leads(cfg, Apply(cfg, s, Stop(s.tasks[t].worker)), after, u) && Unclaimed(after, s.tasks[t].entry)
    requires Active(u, w) && u.now >= s.q.pel[s.tasks[t].entry].since + cfg.visibilityMs
    ensures var e := s.tasks[t].entry;
            e in u.enqueued && (u.enqueued[e] in u.ended || Enabled(cfg, u, Reclaim(w, e, arrives)))
  {
    InitialTimeInv(tm);
    TimedRun(cfg, tm, Initial, before, s);
    StopOrphans(cfg, tm, s, t);
    TimeInvIsInv(tm, s);
    StepKeepsInv(cfg, s, Stop(s.tasks[t].worker));
    hide Inv, TimeInv, Timely, TimelyRun, Leads, InTime, Orphan, Housed, Unclaimed;
    OrphanIsTaken(cfg, Apply(cfg, s, Stop(s.tasks[t].worker)), after, u, s.tasks[t].entry, w, arrives);
  }
}
