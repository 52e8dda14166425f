// The job-delivery protocol as a state machine: producers, any number of
// workers with any number of job tasks each, heartbeats, reclaiming, crashes
// and failing commands, interleaved at every command to the broker.
//
// The fields ended and lost, and the time at in a task, are history: they
// record what has happened and no step depends on them.
module Delivery {
  import opened Basics
  import opened Broker

  datatype Status = Waiting | Processing | Completed | Failed | Cancelled

  predicate Terminal(st: Status) { st.Completed? || st.Failed? || st.Cancelled? }

  // The hash of a job.  A counter bumped on a missing hash has no status.
  datatype Hash = Hash(status: Option<Status>, attempts: nat)

  // Where a job task stands: the command it issues next.
  datatype Pc =
    | Fetched                          // handed over by the broker, not yet registered
    | Load | CheckCancel | Bump | MarkProcessing(n: nat) | Work
    | MarkCompleted | Announce
    | MarkCancelled | AnnounceCancel
    | ReadAttempts(permanent: bool) | NoteRetry
    | MarkFailed(permanent: bool) | AnnounceFailed(permanent: bool) | DeadLetterAdd
    | XAck(guarded: bool) | XDel(guarded: bool)

  // at is when the broker handed the entry over; again says that it had been
  // handed out before.
  datatype Task = Task(worker: nat, entry: nat, job: nat, pc: Pc, at: nat, again: bool)

  datatype Config = Config(visibilityMs: nat, maxAttempts: nat)

  datatype Cluster = Cluster(
    now: nat, q: Queue, enqueued: map<nat, nat>, jobs: map<nat, Hash>, cancels: set<nat>,
    tasks: map<nat, Task>, nextTask: nat, inflight: set<(nat, nat)>,
    live: set<nat>, stopping: set<nat>, lastBeat: map<nat, nat>,
    ended: set<nat>, lost: map<nat, nat>)

  const Initial: Cluster :=
    Cluster(0, EmptyQueue, map[], map[], {}, map[], 0, {}, {}, {}, map[], {}, map[])

  // How the work on the pages of a job goes.
  datatype Outcome = Completes | Cancels | Unreadable | Breaks

  // Stop is where a worker that was asked to shut down cancels its heartbeats and
  // waits for its tasks; between the signal and this it works as before, and an
  // entry it was still waiting for may even reach it later.
  datatype Step =
    | Start(w: nat)
    | Stop(w: nat)
    | Crash(w: nat)
    | Submit(j: nat)
    | Enqueue(j: nat)
    | RequestCancel(j: nat)
    | ExpireCancel(j: nat)
    | ExpireJob(j: nat)
    | Tick(ms: nat)
    | Heartbeat(w: nat)
    | Reserve(w: nat, arrives: bool)
    | Reclaim(w: nat, e: nat, arrives: bool)
    | Tombstone(w: nat, e: nat)        // reclaimed, but gone from the stream
    | Begin(t: nat)
    | Exec(t: nat, out: Outcome)
    | Raise(t: nat, applied: bool)

  // --------------------------------------------- the job hash

  function StatusOf(s: Cluster, j: nat): Option<Status> {
    if j in s.jobs then s.jobs[j].status else None
  }

  function AttemptsOf(s: Cluster, j: nat): nat {
    if j in s.jobs then s.jobs[j].attempts else 0
  }

  // Writing a status creates the hash if need be, and ends the job for good in
  // the history if the status is terminal.
  function SetStatus(s: Cluster, j: nat, st: Status): Cluster {
    s.(jobs := s.jobs[j := Hash(Some(st), AttemptsOf(s, j))],
       ended := if Terminal(st) then s.ended + {j} else s.ended)
  }

  function SetAttempts(s: Cluster, j: nat, n: nat): Cluster {
    s.(jobs := s.jobs[j := Hash(StatusOf(s, j), n)])
  }

  function LostOf(s: Cluster, j: nat): nat {
    if j in s.lost then s.lost[j] else 0
  }

  // --------------------------------------------- one command of a task

  // The effect of the command a task is at, on everything but the task itself.
  function Effect(s: Cluster, task: Task): Cluster {
    var j, e := task.job, task.entry;
    match task.pc
    case Bump => SetAttempts(s, j, AttemptsOf(s, j) + 1)
    case MarkProcessing(n) => SetAttempts(SetStatus(s, j, Processing), j, n)
    case MarkCompleted => SetStatus(s, j, Completed)
    case MarkCancelled => SetStatus(s, j, Cancelled)
    case MarkFailed(_) => SetStatus(s, j, Failed)
    case ReadAttempts(_) => SetAttempts(s, j, AttemptsOf(s, j))
    case DeadLetterAdd => s.(q := AddDead(s.q, j, e))
    case XAck(_) => s.(q := Ack(s.q, e))
    case XDel(_) => s.(q := Del(s.q, e))
    case _ => s
  }

  // Where the task goes from there; nowhere, when it is over.
  function Next(cfg: Config, s: Cluster, task: Task, out: Outcome): Option<Pc> {
    var j := task.job;
    match task.pc
    case Fetched => Some(Load)
    case Load =>
      if j !in s.jobs then Some(ReadAttempts(true))
      else if StatusOf(s, j) == Some(Completed) || StatusOf(s, j) == Some(Cancelled) then Some(XAck(true))
      else Some(CheckCancel)
    case CheckCancel => Some(if j in s.cancels then MarkCancelled else Bump)
    case Bump => Some(MarkProcessing(AttemptsOf(s, j) + 1))
    case MarkProcessing(_) => Some(Work)
    case Work =>
      Some(match out
           case Completes => MarkCompleted
           case Cancels => MarkCancelled
           case Unreadable => ReadAttempts(true)
           case Breaks => ReadAttempts(false))
    case MarkCompleted => Some(Announce)
    case Announce => Some(XAck(true))
    case MarkCancelled => Some(AnnounceCancel)
    case AnnounceCancel => Some(XAck(false))
    case ReadAttempts(permanent) =>
      var attempts := if AttemptsOf(s, j) == 0 then 1 else AttemptsOf(s, j);
      Some(if permanent || attempts >= cfg.maxAttempts then MarkFailed(permanent) else NoteRetry)
    case NoteRetry => None
    case MarkFailed(permanent) => Some(AnnounceFailed(permanent))
    case AnnounceFailed(permanent) => Some(if permanent then XAck(false) else DeadLetterAdd)
    case DeadLetterAdd => Some(XAck(false))
    case XAck(guarded) => Some(XDel(guarded))
    case XDel(_) => None
  }

  // A command that fails inside the processing of a job sends the task to its
  // failure handling; one that fails in that handling ends it.
  predicate Guarded(pc: Pc) {
    match pc
    case Load | CheckCancel | Bump | MarkProcessing(_) | MarkCompleted | Announce | MarkCancelled | AnnounceCancel => true
    case XAck(guarded) => guarded
    case XDel(guarded) => guarded
    case _ => false
  }

  // A task that goes on is kept; one that is over leaves the worker's register.
  function Continue(s: Cluster, t: nat, next: Option<Pc>): Cluster
    requires t in s.tasks
  {
    match next
    case Some(pc) => s.(tasks := s.tasks[t := s.tasks[t].(pc := pc)])
    case None => s.(tasks := s.tasks - {t}, inflight := s.inflight - {(s.tasks[t].worker, s.tasks[t].entry)})
  }

  function Lose(s: Cluster, j: nat): Cluster { s.(lost := s.lost[j := LostOf(s, j) + 1]) }

  // --------------------------------------------- the steps

  predicate Enabled(cfg: Config, s: Cluster, step: Step) {
    match step
    case Start(w) => w !in s.live
    case Stop(w) => w in s.live
    case Crash(w) => w in s.live
    case Submit(j) => j !in s.jobs && j !in s.enqueued.Values
    case Enqueue(j) => j !in s.enqueued.Values
    case Reserve(w, _) => w in s.live && HasNew(s.q)
    case Reclaim(w, e, _) => w in s.live && e in s.q.stream && IdleFor(s.q, e, s.now, cfg.visibilityMs)
    case Tombstone(w, e) => w in s.live && e !in s.q.stream && IdleFor(s.q, e, s.now, cfg.visibilityMs)
    case Heartbeat(w) => w in s.live && w !in s.stopping
    case Begin(t) => t in s.tasks && s.tasks[t].pc.Fetched?
    case Exec(t, _) => t in s.tasks && !s.tasks[t].pc.Fetched?
    case Raise(t, _) => t in s.tasks && !s.tasks[t].pc.Fetched? && !s.tasks[t].pc.Work?
    case _ => true
  }

  function Spawn(s: Cluster, w: nat, e: nat, j: nat, again: bool): Cluster {
    s.(tasks := s.tasks[s.nextTask := Task(w, e, j, Fetched, s.now, again)], nextTask := s.nextTask + 1)
  }

  // XCLAIM of everything a worker has registered.
  function Beat(s: Cluster, w: nat): Cluster {
    s.(q := s.q.(pel := map e | e in s.q.pel :: if (w, e) in s.inflight then Pending(w, s.now) else s.q.pel[e]),
       lastBeat := s.lastBeat[w := s.now])
  }

  // A crash takes the worker's tasks and register with it.
  function Die(s: Cluster, w: nat): Cluster {
    s.(live := s.live - {w}, stopping := s.stopping - {w},
       tasks := map t | t in s.tasks && s.tasks[t].worker != w :: s.tasks[t],
       inflight := (set x | x in s.inflight && x.0 != w),
       lost := map j | j in s.enqueued.Values :: LostOf(s, j) + (if Runs(s, w, j) then 1 else 0))
  }

  predicate Runs(s: Cluster, w: nat, j: nat) {
    exists t :: t in s.tasks && s.tasks[t].worker == w && s.tasks[t].job == j
  }

  function Apply(cfg: Config, s: Cluster, step: Step): Cluster
    requires Enabled(cfg, s, step)
  {
    match step
    case Start(w) => s.(live := s.live + {w}, stopping := s.stopping - {w}, lastBeat := s.lastBeat[w := s.now])
    case Stop(w) => s.(stopping := s.stopping + {w})
    case Crash(w) => Die(s, w)
    case Submit(j) => s.(jobs := s.jobs[j := Hash(Some(Waiting), 0)])
    case Enqueue(j) => s.(q := Add(s.q, j), enqueued := s.enqueued[s.q.nextId := j])
    case RequestCancel(j) => s.(cancels := s.cancels + {j})
    case ExpireCancel(j) => s.(cancels := s.cancels - {j})
    case ExpireJob(j) => s.(jobs := s.jobs - {j})
    case Tick(ms) => s.(now := s.now + ms)
    case Heartbeat(w) => Beat(s, w)
    case Reserve(w, arrives) =>
      var e := FirstFrom(s.q, s.q.last + 1);
      var t := s.(q := ReadNew(s.q, w, s.now));
      if arrives then Spawn(t, w, e, s.q.stream[e], false) else t
    case Reclaim(w, e, arrives) =>
      var t := s.(q := Claim(s.q, e, w, s.now));
      if arrives then Spawn(t, w, e, s.q.stream[e], true) else t
    case Tombstone(w, e) => s.(q := Del(Ack(s.q, e), e))
    case Begin(t) =>
      var task := s.tasks[t];
      s.(tasks := s.tasks[t := task.(pc := Load)], inflight := s.inflight + {(task.worker, task.entry)})
    case Exec(t, out) => Continue(Effect(s, s.tasks[t]), t, Next(cfg, s, s.tasks[t], out))
    case Raise(t, applied) =>
      var r := if applied then Effect(s, s.tasks[t]) else s;
      if Guarded(s.tasks[t].pc) then Continue(r, t, Some(ReadAttempts(false)))
      else Lose(Continue(r, t, None), s.tasks[t].job)
  }

  // The steps can be taken one after the other from s and lead to u.
  ghost predicate Leads(cfg: Config, s: Cluster, steps: seq<Step>, u: Cluster)
    decreases |steps|
  {
    if steps == [] then u == s
    else Enabled(cfg, s, steps[0]) && Leads(cfg, Apply(cfg, s, steps[0]), steps[1..], u)
  }

  // --------------------------------------------- at least once

  // A terminal status has been written by the time these commands are issued.
  predicate PastTerminal(pc: Pc) {
    pc.Announce? || pc.AnnounceCancel? || pc.AnnounceFailed? || pc.DeadLetterAdd? || pc.XAck? || pc.XDel?
  }

  // What holds of a task at each of its commands.
  ghost predicate TaskOk(s: Cluster, task: Task) {
    && task.entry in s.enqueued && s.enqueued[task.entry] == task.job && task.entry <= s.q.last
    && (PastTerminal(task.pc) ==> task.job in s.ended)
    && (task.pc.XDel? ==> task.entry !in s.q.pel)
  }

  ghost predicate QueueOk(s: Cluster) {
    && Sound(s.q) && s.q.nextId >= 1
    && (forall e :: e in s.enqueued <==> 1 <= e < s.q.nextId)
    && (forall e :: e in s.q.stream ==> e in s.enqueued && s.q.stream[e] == s.enqueued[e])
  }

  // Undelivered, or pending with its text still in the stream, or its job has
  // had COMPLETED, FAILED or CANCELLED written at some time.
  ghost predicate Safe(s: Cluster, e: nat)
    requires e in s.enqueued
  {
    || (e > s.q.last && e in s.q.stream)
    || (e in s.q.pel && e in s.q.stream)
    || s.enqueued[e] in s.ended
  }

  ghost predicate StatusOk(s: Cluster) {
    forall j :: j in s.jobs && s.jobs[j].status.Some? && Terminal(s.jobs[j].status.value) ==> j in s.ended
  }

  ghost predicate Inv(s: Cluster) {
    && QueueOk(s) && StatusOk(s)
    && (forall e :: e in s.enqueued ==> Safe(s, e))
    && (forall t :: t in s.tasks ==> t < s.nextTask && TaskOk(s, s.tasks[t]))
  }

  lemma InitialInv()
    ensures Inv(Initial)
  {
  }

  // Nothing a task relies on is undone by others.
  ghost predicate Keeps(s: Cluster, u: Cluster) {
    && s.ended <= u.ended
    && s.q.last <= u.q.last
    && (forall e :: e in s.enqueued ==> e in u.enqueued && u.enqueued[e] == s.enqueued[e])
    && (forall e :: e in u.q.pel ==> e in s.q.pel || e > s.q.last)
  }

  lemma TaskStaysOk(s: Cluster, u: Cluster, task: Task)
    requires TaskOk(s, task) && Keeps(s, u)
    ensures TaskOk(u, task)
  {
  }

  // Steps of producers, clocks, heartbeats and worker processes.
  lemma OutsideSteps(cfg: Config, s: Cluster, step: Step)
    requires Inv(s) && Enabled(cfg, s, step)
    requires !step.Exec? && !step.Raise? && !step.Begin? && !step.Reserve? && !step.Reclaim? && !step.Tombstone?
    ensures Inv(Apply(cfg, s, step))
  {
    var u := Apply(cfg, s, step);
    assert Keeps(s, u);
    forall t | t in u.tasks ensures t < u.nextTask && TaskOk(u, u.tasks[t]) { TaskStaysOk(s, u, s.tasks[t]); }
    forall e | e in u.enqueued ensures Safe(u, e) {
      if e in s.enqueued { assert Safe(s, e); }
    }
  }

  // Everything pending is still in the stream, so nothing is ever acknowledged
  // for being missing.
  lemma NoTombstones(cfg: Config, s: Cluster, w: nat, e: nat)
    requires Inv(s)
    ensures !Enabled(cfg, s, Tombstone(w, e))
  {
  }

  lemma SpawnKeeps(s: Cluster, w: nat, e: nat, again: bool)
    requires Inv(s) && e in s.q.stream && e <= s.q.last
    ensures Inv(Spawn(s, w, e, s.q.stream[e], again))
  {
    var u := Spawn(s, w, e, s.q.stream[e], again);
    assert Keeps(s, u);
    forall t | t in u.tasks ensures t < u.nextTask && TaskOk(u, u.tasks[t]) {
      if t != s.nextTask { TaskStaysOk(s, u, s.tasks[t]); }
    }
    forall x | x in u.enqueued ensures Safe(u, x) { assert Safe(s, x); }
  }

  lemma ReadNewKeeps(s: Cluster, w: nat)
    requires Inv(s) && HasNew(s.q)
    ensures FirstFrom(s.q, s.q.last + 1) == s.q.last + 1 == ReadNew(s.q, w, s.now).last
    ensures Inv(s.(q := ReadNew(s.q, w, s.now)))
  {
    var u := s.(q := ReadNew(s.q, w, s.now));
    assert s.q.last + 1 in s.q.stream;
    assert Keeps(s, u);
    forall t | t in u.tasks ensures t < u.nextTask && TaskOk(u, u.tasks[t]) { TaskStaysOk(s, u, s.tasks[t]); }
    forall x | x in u.enqueued ensures Safe(u, x) { assert Safe(s, x); }
  }

  // What a worker gets when the broker hands it an entry, new or reclaimed.
  ghost predicate HandedOver(s: Cluster, u: Cluster, w: nat, e: nat, arrives: bool) {
    && e in s.q.stream
    && u == s.(q := s.q.(last := if e > s.q.last then e else s.q.last, pel := s.q.pel[e := Pending(w, s.now)]),
               tasks := if arrives then s.tasks[s.nextTask := Task(w, e, s.q.stream[e], Fetched, s.now, e <= s.q.last)] else s.tasks,
               nextTask := if arrives then s.nextTask + 1 else s.nextTask)
  }

  lemma ReserveHands(cfg: Config, s: Cluster, w: nat, arrives: bool)
    requires Inv(s) && Enabled(cfg, s, Reserve(w, arrives))
    ensures HandedOver(s, Apply(cfg, s, Reserve(w, arrives)), w, s.q.last + 1, arrives)
  {
    ReadNewKeeps(s, w);
    assert s.q.last + 1 in s.q.stream;
    hide Inv, FirstFrom, HasNew;
  }

  lemma ReclaimHands(cfg: Config, s: Cluster, w: nat, e: nat, arrives: bool)
    requires Inv(s) && Enabled(cfg, s, Reclaim(w, e, arrives))
    ensures HandedOver(s, Apply(cfg, s, Reclaim(w, e, arrives)), w, e, arrives) && e <= s.q.last
  {
    PendingIsRead(s, e);
    hide Inv;
  }

  lemma ClaimKeeps(s: Cluster, e: nat, w: nat)
    requires Inv(s)
    ensures Inv(s.(q := Claim(s.q, e, w, s.now)))
  {
    var u := s.(q := Claim(s.q, e, w, s.now));
    assert Keeps(s, u);
    forall t | t in u.tasks ensures t < u.nextTask && TaskOk(u, u.tasks[t]) { TaskStaysOk(s, u, s.tasks[t]); }
    forall x | x in u.enqueued ensures Safe(u, x) { assert Safe(s, x); }
  }

  lemma SetStatusKeeps(s: Cluster, j: nat, st: Status)
    requires Inv(s)
    ensures Inv(SetStatus(s, j, st)) && Keeps(s, SetStatus(s, j, st))
  {
    var u := SetStatus(s, j, st);
    assert Keeps(s, u);
    forall k | k in u.tasks ensures k < u.nextTask && TaskOk(u, u.tasks[k]) { TaskStaysOk(s, u, s.tasks[k]); }
    forall x | x in u.enqueued ensures Safe(u, x) { assert Safe(s, x); }
  }

  lemma SetAttemptsKeeps(s: Cluster, j: nat, n: nat)
    requires Inv(s)
    ensures Inv(SetAttempts(s, j, n)) && Keeps(s, SetAttempts(s, j, n))
  {
    var u := SetAttempts(s, j, n);
    assert Keeps(s, u);
    forall k | k in u.tasks ensures k < u.nextTask && TaskOk(u, u.tasks[k]) { TaskStaysOk(s, u, s.tasks[k]); }
    forall x | x in u.enqueued ensures Safe(u, x) { assert Safe(s, x); }
  }

  lemma AddDeadKeeps(s: Cluster, j: nat, e: nat)
    requires Inv(s)
    ensures Inv(s.(q := AddDead(s.q, j, e))) && Keeps(s, s.(q := AddDead(s.q, j, e)))
  {
    var u := s.(q := AddDead(s.q, j, e));
    assert Keeps(s, u);
    forall k | k in u.tasks ensures k < u.nextTask && TaskOk(u, u.tasks[k]) { TaskStaysOk(s, u, s.tasks[k]); }
    forall x | x in u.enqueued ensures Safe(u, x) { assert Safe(s, x); }
  }

  lemma AckKeeps(s: Cluster, e: nat)
    requires Inv(s) && e in s.enqueued && s.enqueued[e] in s.ended
    ensures Inv(s.(q := Ack(s.q, e))) && Keeps(s, s.(q := Ack(s.q, e)))
  {
    var u := s.(q := Ack(s.q, e));
    assert Keeps(s, u);
    forall k | k in u.tasks ensures k < u.nextTask && TaskOk(u, u.tasks[k]) { TaskStaysOk(s, u, s.tasks[k]); }
    forall x | x in u.enqueued ensures Safe(u, x) { assert Safe(s, x); }
  }

  lemma DelKeeps(s: Cluster, e: nat)
    requires Inv(s) && e in s.enqueued && s.enqueued[e] in s.ended && e <= s.q.last && e !in s.q.pel
    ensures Inv(s.(q := Del(s.q, e))) && Keeps(s, s.(q := Del(s.q, e)))
  {
    var u := s.(q := Del(s.q, e));
    assert Keeps(s, u);
    forall k | k in u.tasks ensures k < u.nextTask && TaskOk(u, u.tasks[k]) { TaskStaysOk(s, u, s.tasks[k]); }
    forall x | x in u.enqueued ensures Safe(u, x) { assert Safe(s, x); }
  }

  lemma KeepsChain(s: Cluster, t: Cluster, u: Cluster)
    requires Keeps(s, t) && Keeps(t, u)
    ensures Keeps(s, u)
  {
  }

  // The command of a task keeps the invariant of everything but the task.
  lemma EffectKeeps(s: Cluster, t: nat)
    requires Inv(s) && t in s.tasks
    ensures Inv(Effect(s, s.tasks[t])) && Keeps(s, Effect(s, s.tasks[t]))
  {
    hide Inv, Keeps, SetStatus, SetAttempts;
    var task := s.tasks[t];
    TaskFacts(s, t);
    var j, e := task.job, task.entry;
    match task.pc
    case Bump => SetAttemptsKeeps(s, j, AttemptsOf(s, j) + 1);
    case MarkProcessing(n) =>
      SetStatusKeeps(s, j, Processing);
      SetAttemptsKeeps(SetStatus(s, j, Processing), j, n);
      KeepsChain(s, SetStatus(s, j, Processing), SetAttempts(SetStatus(s, j, Processing), j, n));
    case MarkCompleted => SetStatusKeeps(s, j, Completed);
    case MarkCancelled => SetStatusKeeps(s, j, Cancelled);
    case MarkFailed(_) => SetStatusKeeps(s, j, Failed);
    case ReadAttempts(_) => SetAttemptsKeeps(s, j, AttemptsOf(s, j));
    case DeadLetterAdd => AddDeadKeeps(s, j, e);
    case XAck(_) => AckKeeps(s, e);
    case XDel(_) => DelKeeps(s, e);
    case _ => KeepsItself(s);
  }

  lemma KeepsItself(s: Cluster)
    ensures Keeps(s, s)
  {
  }

  lemma TaskFacts(s: Cluster, t: nat)
    requires Inv(s) && t in s.tasks
    ensures TaskOk(s, s.tasks[t])
  {
  }

  // A command writes the hash of its job, or the queue, and nothing else.
  ghost predicate SameButHashes(s: Cluster, u: Cluster) {
    u == s.(jobs := u.jobs, ended := u.ended)
  }

  lemma HashesOnly(s: Cluster, j: nat, st: Status, n: nat)
    ensures SameButHashes(s, SetStatus(s, j, st)) && SameButHashes(s, SetAttempts(s, j, n))
    ensures SameButHashes(s, SetAttempts(SetStatus(s, j, st), j, n))
  {
  }

  ghost predicate SameButQueue(s: Cluster, u: Cluster) { u == s.(q := u.q) }

  lemma EffectIsNarrow(s: Cluster, task: Task)
    ensures SameButHashes(s, Effect(s, task)) || SameButQueue(s, Effect(s, task))
  {
    hide SetStatus, SetAttempts, AttemptsOf, SameButHashes;
    var j := task.job;
    match task.pc
    case MarkProcessing(n) => HashesOnly(s, j, Processing, n);
    case Bump => HashesOnly(s, j, Processing, AttemptsOf(s, j) + 1);
    case ReadAttempts(_) => HashesOnly(s, j, Processing, AttemptsOf(s, j));
    case MarkCompleted => HashesOnly(s, j, Completed, 0);
    case MarkCancelled => HashesOnly(s, j, Cancelled, 0);
    case MarkFailed(_) => HashesOnly(s, j, Failed, 0);
    case _ => assert SameButQueue(s, Effect(s, task));
  }

  lemma EffectOnQueue(s: Cluster, task: Task)
    ensures Effect(s, task).q == match task.pc
      case DeadLetterAdd => AddDead(s.q, task.job, task.entry)
      case XAck(_) => Ack(s.q, task.entry)
      case XDel(_) => Del(s.q, task.entry)
      case _ => s.q
  {
    hide AttemptsOf, StatusOf, Terminal, Ack, Del, AddDead;
    match task.pc
    case MarkProcessing(n) =>
    case _ =>
  }

  lemma EffectTasks(s: Cluster, task: Task)
    ensures Effect(s, task).tasks == s.tasks && Effect(s, task).nextTask == s.nextTask
    ensures Effect(s, task).inflight == s.inflight
  {
    EffectIsNarrow(s, task);
    hide Effect;
  }

  predicate Ends(pc: Pc) { pc.MarkCompleted? || pc.MarkCancelled? || pc.MarkFailed? }

  // Only three commands write a terminal status.
  lemma EffectEnds(s: Cluster, task: Task)
    requires Ends(task.pc)
    ensures task.job in Effect(s, task).ended
  {
    hide AttemptsOf, SetAttempts;
  }

  lemma ContinueKeeps(s: Cluster, t: nat, next: Option<Pc>)
    requires Inv(s) && t in s.tasks
    requires next.Some? ==> TaskOk(s, s.tasks[t].(pc := next.value))
    ensures Inv(Continue(s, t, next))
  {
    var u := Continue(s, t, next);
    assert Keeps(s, u);
    forall k | k in u.tasks ensures k < u.nextTask && TaskOk(u, u.tasks[k]) {
      assert k != t ==> TaskOk(s, s.tasks[k]);
    }
    forall x | x in u.enqueued ensures Safe(u, x) { assert Safe(s, x); }
  }

  // A task is only sent past the terminal status once that is written.
  lemma NextIsEnded(cfg: Config, s: Cluster, t: nat, out: Outcome)
    requires Inv(s) && t in s.tasks
    ensures var next := Next(cfg, s, s.tasks[t], out);
            next.Some? && PastTerminal(next.value) ==> s.tasks[t].job in Effect(s, s.tasks[t]).ended
  {
    var task := s.tasks[t];
    TaskFacts(s, t);
    if Ends(task.pc) { EffectEnds(s, task); }
    EffectKeeps(s, t);
    assert s.ended <= Effect(s, task).ended;
    assert StatusOf(s, task.job).Some? && Terminal(StatusOf(s, task.job).value) ==> task.job in s.ended;
    hide Effect, Inv;
    PastOnlyFrom(cfg, s, task, out);
  }

  // Past the terminal status a task comes only from its writing, from further on,
  // or from finding the job finished.
  lemma PastOnlyFrom(cfg: Config, s: Cluster, task: Task, out: Outcome)
    ensures var next := Next(cfg, s, task, out);
            next.Some? && PastTerminal(next.value) ==>
              || Ends(task.pc) || PastTerminal(task.pc)
              || StatusOf(s, task.job) == Some(Completed) || StatusOf(s, task.job) == Some(Cancelled)
  {
    hide AttemptsOf, StatusOf;
  }

  lemma NextIsOk(cfg: Config, s: Cluster, t: nat, out: Outcome)
    requires Inv(s) && t in s.tasks && !s.tasks[t].pc.Fetched?
    ensures var next := Next(cfg, s, s.tasks[t], out);
            next.Some? ==> TaskOk(Effect(s, s.tasks[t]), s.tasks[t].(pc := next.value))
  {
    hide Inv, Keeps;
    NextIsEnded(cfg, s, t, out);
    EffectKeeps(s, t);
    TaskFacts(s, t);
    TaskStaysOk(s, Effect(s, s.tasks[t]), s.tasks[t]);
  }

  lemma TaskSteps(cfg: Config, s: Cluster, step: Step)
    requires Inv(s) && Enabled(cfg, s, step)
    requires step.Exec? || step.Raise? || step.Begin?
    ensures Inv(Apply(cfg, s, step))
  {
    hide Inv, Effect, Next, TaskOk;
    EffectKeeps(s, step.t);
    EffectTasks(s, s.tasks[step.t]);
    var task := s.tasks[step.t];
    match step
    case Begin(t) =>
      BeginKeeps(s, t);
    case Exec(t, out) =>
      NextIsOk(cfg, s, t, out);
      ContinueKeeps(Effect(s, task), t, Next(cfg, s, task, out));
    case Raise(t, applied) =>
      var r := if applied then Effect(s, task) else s;
      ToFailureIsOk(r, t);
      if Guarded(task.pc) {
        ContinueKeeps(r, t, Some(ReadAttempts(false)));
      } else {
        ContinueKeeps(r, t, None);
        LoseKeeps(Continue(r, t, None), task.job);
      }
  }

  lemma ToFailureIsOk(s: Cluster, t: nat)
    requires Inv(s) && t in s.tasks
    ensures TaskOk(s, s.tasks[t].(pc := ReadAttempts(false)))
  {
    assert TaskOk(s, s.tasks[t]);
  }

  lemma LoseKeeps(s: Cluster, j: nat)
    requires Inv(s)
    ensures Inv(Lose(s, j))
  {
    var u := Lose(s, j);
    assert Keeps(s, u);
    forall k | k in u.tasks ensures k < u.nextTask && TaskOk(u, u.tasks[k]) { TaskStaysOk(s, u, s.tasks[k]); }
    forall x | x in u.enqueued ensures Safe(u, x) { assert Safe(s, x); }
  }

  lemma BeginKeeps(s: Cluster, t: nat)
    requires Inv(s) && t in s.tasks
    ensures Inv(s.(tasks := s.tasks[t := s.tasks[t].(pc := Load)],
                   inflight := s.inflight + {(s.tasks[t].worker, s.tasks[t].entry)}))
  {
    var u := s.(tasks := s.tasks[t := s.tasks[t].(pc := Load)],
                inflight := s.inflight + {(s.tasks[t].worker, s.tasks[t].entry)});
    assert Keeps(s, u);
    forall k | k in u.tasks ensures k < u.nextTask && TaskOk(u, u.tasks[k]) { assert TaskOk(s, s.tasks[k]); }
    forall x | x in u.enqueued ensures Safe(u, x) { assert Safe(s, x); }
  }

  lemma StepKeepsInv(cfg: Config, s: Cluster, step: Step)
    requires Inv(s) && Enabled(cfg, s, step)
    ensures Inv(Apply(cfg, s, step))
  {
    hide Inv, Effect, Next, TaskOk, FirstFrom;
    match step
    case Exec(_, _) | Raise(_, _) | Begin(_) => TaskSteps(cfg, s, step);
    case Tombstone(w, e) => NoTombstones(cfg, s, w, e);
    case Reserve(w, arrives) =>
      ReadNewKeeps(s, w);
      var t := s.(q := ReadNew(s.q, w, s.now));
      if arrives { SpawnKeeps(t, w, s.q.last + 1, false); }
    case Reclaim(w, e, arrives) =>
      ClaimKeeps(s, e, w);
      PendingIsRead(s, e);
      if arrives { SpawnKeeps(s.(q := Claim(s.q, e, w, s.now)), w, e, true); }
    case _ => OutsideSteps(cfg, s, step);
  }

  lemma PendingIsRead(s: Cluster, e: nat)
    requires Inv(s) && e in s.q.pel
    ensures e <= s.q.last && e in s.q.stream && e in s.enqueued && s.q.stream[e] == s.enqueued[e]
  {
  }

  lemma {:induction false} RunKeepsInv(cfg: Config, s: Cluster, steps: seq<Step>, u: Cluster)
    requires Inv(s) && Leads(cfg, s, steps, u)
    ensures Inv(u)
    decreases |steps|
  {
    hide Inv, Enabled, Apply;
    if steps != [] {
      StepKeepsInv(cfg, s, steps[0]);
      RunKeepsInv(cfg, Apply(cfg, s, steps[0]), steps[1..], u);
    }
  }

  // No step undoes what tasks rely on.
  lemma StepKeeps(cfg: Config, s: Cluster, step: Step)
    requires Inv(s) && Enabled(cfg, s, step)
    ensures Keeps(s, Apply(cfg, s, step))
  {
    match step
    case Exec(t, out) => TaskKeeps(cfg, s, step);
    case Raise(t, applied) => TaskKeeps(cfg, s, step);
    case Reserve(w, _) => ReadNewKeeps(s, w);
    case Tombstone(w, e) => NoTombstones(cfg, s, w, e);
    case _ =>
  }

  lemma TaskKeeps(cfg: Config, s: Cluster, step: Step)
    requires Inv(s) && Enabled(cfg, s, step) && (step.Exec? || step.Raise?)
    ensures Keeps(s, Apply(cfg, s, step))
  {
    hide Inv, Effect, Next, Keeps;
    var task := s.tasks[step.t];
    EffectKeeps(s, step.t);
    EffectTasks(s, task);
    KeepsItself(s);
    var r := if step.Exec? || step.applied then Effect(s, task) else s;
    var next := if step.Exec? then Next(cfg, s, task, step.out)
                else if Guarded(task.pc) then Some(ReadAttempts(false)) else None;
    ContinueKeepsRest(s, r, step.t, next);
    LoseKeepsRest(s, Continue(r, step.t, next), task.job);
  }

  lemma ContinueKeepsRest(s: Cluster, r: Cluster, t: nat, next: Option<Pc>)
    requires Keeps(s, r) && t in r.tasks
    ensures Keeps(s, Continue(r, t, next))
  {
  }

  lemma LoseKeepsRest(s: Cluster, u: Cluster, j: nat)
    requires Keeps(s, u)
    ensures Keeps(s, Lose(u, j))
  {
  }

  lemma {:induction false} RunKeeps(cfg: Config, s: Cluster, steps: seq<Step>, u: Cluster)
    requires Inv(s) && Leads(cfg, s, steps, u)
    ensures Keeps(s, u)
    decreases |steps|
  {
    hide Inv, Enabled, Apply, Keeps;
    if steps == [] {
      KeepsItself(s);
    } else {
      StepKeeps(cfg, s, steps[0]);
      StepKeepsInv(cfg, s, steps[0]);
      RunKeeps(cfg, Apply(cfg, s, steps[0]), steps[1..], u);
      KeepsChain(s, Apply(cfg, s, steps[0]), u);
    }
  }

  // At least once: in every interleaving of producers, workers, heartbeats,
  // reclaims, failing commands and crashes, every entry ever enqueued is still
  // undelivered, or pending, or its job has been given a terminal status.
  lemma AtLeastOnce(cfg: Config, steps: seq<Step>, u: Cluster, e: nat)
    requires Leads(cfg, Initial, steps, u) && e in u.enqueued
    ensures Safe(u, e)
    ensures e in u.q.pel ==> e in u.q.stream && u.q.stream[e] == u.enqueued[e]
    ensures forall w :: !Enabled(cfg, u, Tombstone(w, e))
  {
    InitialInv();
    RunKeepsInv(cfg, Initial, steps, u);
    forall w ensures !Enabled(cfg, u, Tombstone(w, e)) { NoTombstones(cfg, u, w, e); }
  }

  // The step that takes an entry off the pending list finds its job ended.
  lemma AckedOnlyAfterTerminal(cfg: Config, steps: seq<Step>, s: Cluster, step: Step, e: nat)
    requires Leads(cfg, Initial, steps, s) && Enabled(cfg, s, step)
    requires e in s.q.pel && e !in Apply(cfg, s, step).q.pel
    ensures e in s.enqueued && s.enqueued[e] in s.ended
  {
    InitialInv();
    RunKeepsInv(cfg, Initial, steps, s);
    OnlyAckRemoves(cfg, s, step, e);
  }

  lemma OnlyAckRemoves(cfg: Config, s: Cluster, step: Step, e: nat)
    requires Inv(s) && Enabled(cfg, s, step)
    requires e in s.q.pel && e !in Apply(cfg, s, step).q.pel
    ensures e in s.enqueued && s.enqueued[e] in s.ended
  {
    hide Inv, Enabled, Apply, Effect;
    match step
    case Exec(t, _) =>
      TaskLeavesPending(cfg, s, step);
      RemovedByAck(s, t, e);
    case Raise(t, _) =>
      TaskLeavesPending(cfg, s, step);
      RemovedByAck(s, t, e);
    case Tombstone(w, x) => NoTombstones(cfg, s, w, x);
    case _ => OthersKeepPending(cfg, s, step, e);
  }

  lemma TaskLeavesPending(cfg: Config, s: Cluster, step: Step)
    requires Enabled(cfg, s, step) && (step.Exec? || step.Raise?)
    ensures step.t in s.tasks
    ensures Apply(cfg, s, step).q.pel == Effect(s, s.tasks[step.t]).q.pel || Apply(cfg, s, step).q.pel == s.q.pel
  {
    EffectTasks(s, s.tasks[step.t]);
    hide Effect, Next;
  }

  lemma OthersKeepPending(cfg: Config, s: Cluster, step: Step, e: nat)
    requires Enabled(cfg, s, step) && !step.Exec? && !step.Raise? && !step.Tombstone? && e in s.q.pel
    ensures e in Apply(cfg, s, step).q.pel
  {
    hide FirstFrom, HasNew, Runs, LostOf;
  }

  lemma RemovedByAck(s: Cluster, t: nat, e: nat)
    requires Inv(s) && t in s.tasks
    ensures e in s.q.pel && e !in Effect(s, s.tasks[t]).q.pel ==> e in s.enqueued && s.enqueued[e] in s.ended
  {
    TaskFacts(s, t);
    EffectOnQueue(s, s.tasks[t]);
    hide Inv, Effect;
  }

  // A job that has failed for good runs again if its entry is delivered again:
  // FAILED, unlike COMPLETED and CANCELLED, is not skipped.
  lemma FailedJobRunsAgain(cfg: Config, s: Cluster, t: nat)
    requires t in s.tasks && s.tasks[t].pc.Load? && StatusOf(s, s.tasks[t].job) == Some(Failed)
    requires s.tasks[t].job !in s.cancels
    ensures exists u :: Leads(cfg, s, seq(4, _ => Exec(t, Breaks)), u)
                        && t in u.tasks && u.tasks[t].job == s.tasks[t].job && u.tasks[t].pc.Work?
                        && StatusOf(u, s.tasks[t].job) == Some(Processing)
  {
    var x := Exec(t, Breaks);
    var a := Apply(cfg, s, x);
    var b := Apply(cfg, a, x);
    var c := Apply(cfg, b, x);
    var d := Apply(cfg, c, x);
    LoadOn(cfg, s, t);
    BumpOn(cfg, b, t);
    hide Apply, Enabled;
    assert Leads(cfg, d, [], d);
    Precede(cfg, c, x, [], d);
    Precede(cfg, b, x, [x], d);
    Precede(cfg, a, x, [x, x], d);
    Precede(cfg, s, x, [x, x, x], d);
    assert seq(4, _ => x) == [x] + [x, x, x];
  }

  lemma Precede(cfg: Config, s: Cluster, step: Step, rest: seq<Step>, u: Cluster)
    requires Enabled(cfg, s, step) && Leads(cfg, Apply(cfg, s, step), rest, u)
    ensures Leads(cfg, s, [step] + rest, u)
  {
    assert ([step] + rest)[1..] == rest;
  }

  lemma LoadOn(cfg: Config, s: Cluster, t: nat)
    requires t in s.tasks && s.tasks[t].pc.Load? && StatusOf(s, s.tasks[t].job) == Some(Failed)
    requires s.tasks[t].job !in s.cancels
    ensures var a := Apply(cfg, s, Exec(t, Breaks));
            && Enabled(cfg, a, Exec(t, Breaks))
            && Apply(cfg, a, Exec(t, Breaks)).tasks == s.tasks[t := s.tasks[t].(pc := Bump)]
  {
  }

  lemma BumpOn(cfg: Config, s: Cluster, t: nat)
    requires t in s.tasks && s.tasks[t].pc.Bump?
    ensures var a := Apply(cfg, s, Exec(t, Breaks));
            && Enabled(cfg, a, Exec(t, Breaks))
            && Apply(cfg, a, Exec(t, Breaks)).tasks == s.tasks[t := s.tasks[t].(pc := Work)]
            && StatusOf(Apply(cfg, a, Exec(t, Breaks)), s.tasks[t].job) == Some(Processing)
  {
  }
}
