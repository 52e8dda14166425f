// What one delivery of a job comes to when nothing interrupts it: its task runs
// from loading the job to its end, and leaves behind exactly what the verdict
// on the job says.
module Settling {
  import opened Basics
  import opened Broker
  import opened Delivery

  // The status and the counter the job is left with, whether its entry leaves
  // the queue, and whether it goes to the dead-letter stream.
  datatype Verdict = Verdict(status: Option<Status>, attempts: nat, acked: bool, buried: bool)

  // The rules: a job whose state is gone has failed; a finished one is skipped; a
  // cancelled one is not worked on; a broken one is left for another attempt
  // until the attempts are used up, and only then is it buried.
  function VerdictOn(cfg: Config, s: Cluster, j: nat, out: Outcome): Verdict {
    var a := AttemptsOf(s, j);
    if j !in s.jobs then Verdict(Some(Failed), 0, true, false)
    else if StatusOf(s, j) == Some(Completed) || StatusOf(s, j) == Some(Cancelled) then Verdict(StatusOf(s, j), a, true, false)
    else if j in s.cancels then Verdict(Some(Cancelled), a, true, false)
    else AfterAttempt(cfg, a + 1, out)
  }

  // What the a-th attempt makes of a job.
  function AfterAttempt(cfg: Config, a: nat, out: Outcome): Verdict {
    match out
    case Completes => Verdict(Some(Completed), a, true, false)
    case Cancels => Verdict(Some(Cancelled), a, true, false)
    case Unreadable => Verdict(Some(Failed), a, true, false)
    case Breaks =>
      if a >= cfg.maxAttempts then Verdict(Some(Failed), a, true, true)
      else Verdict(Some(Processing), a, false, false)
  }

  function Repeat(step: Step, n: nat): seq<Step> { if n == 0 then [] else [step] + Repeat(step, n - 1) }

  // The task alone takes n steps.
  ghost predicate Drives(cfg: Config, s: Cluster, t: nat, out: Outcome, n: nat, u: Cluster) {
    Leads(cfg, s, Repeat(Exec(t, out), n), u)
  }

  // The task is over, the given hashes are written, and of the queue nothing has
  // changed but what the verdict says of the entry.
  ghost predicate Over(s: Cluster, u: Cluster, t: nat, jobs: map<nat, Hash>, acked: bool, buried: bool)
    requires t in s.tasks
  {
    var j, e := s.tasks[t].job, s.tasks[t].entry;
    && u == s.(jobs := jobs, tasks := s.tasks - {t}, inflight := s.inflight - {(s.tasks[t].worker, e)}, q := u.q, ended := u.ended)
    && u.q == s.q.(pel := if acked then s.q.pel - {e} else s.q.pel,
                   stream := if acked then s.q.stream - {e} else s.q.stream,
                   dead := if buried then s.q.dead + [DeadLetter(j, e)] else s.q.dead)
  }

  ghost predicate Settles(cfg: Config, s: Cluster, u: Cluster, t: nat, v: Verdict)
    requires t in s.tasks
  {
    Over(s, u, t, s.jobs[s.tasks[t].job := Hash(v.status, v.attempts)], v.acked, v.buried)
  }

  // The next command only writes hashes, and the rest is known.
  lemma OneMore(cfg: Config, s: Cluster, t: nat, out: Outcome, n: nat, u: Cluster,
                jobs: map<nat, Hash>, acked: bool, buried: bool)
    requires t in s.tasks && !s.tasks[t].pc.Fetched? && Next(cfg, s, s.tasks[t], out).Some?
    requires !s.tasks[t].pc.DeadLetterAdd? && !s.tasks[t].pc.XAck? && !s.tasks[t].pc.XDel?
    requires var r := Apply(cfg, s, Exec(t, out)); t in r.tasks && Drives(cfg, r, t, out, n, u) && Over(r, u, t, jobs, acked, buried)
    ensures Drives(cfg, s, t, out, n + 1, u) && Over(s, u, t, jobs, acked, buried)
  {
    EffectIsNarrow(s, s.tasks[t]);
    EffectOnQueue(s, s.tasks[t]);
    Precede(cfg, s, Exec(t, out), Repeat(Exec(t, out), n), u);
    hide Effect, Next, Leads;
  }

  // The state after one command.
  lemma After(cfg: Config, s: Cluster, t: nat, out: Outcome)
    requires t in s.tasks && !s.tasks[t].pc.Fetched? && Next(cfg, s, s.tasks[t], out).Some?
    ensures var r := Apply(cfg, s, Exec(t, out));
            && r.tasks == s.tasks[t := s.tasks[t].(pc := Next(cfg, s, s.tasks[t], out).value)]
            && r.jobs == Effect(s, s.tasks[t]).jobs && r.cancels == s.cancels
  {
    EffectIsNarrow(s, s.tasks[t]);
    hide Effect, Next;
  }

  // The last two commands of a delivery that leaves the queue.
  lemma AckOnly(cfg: Config, s: Cluster, t: nat, out: Outcome)
    requires t in s.tasks && s.tasks[t].pc.XAck?
    ensures Apply(cfg, s, Exec(t, out))
            == s.(tasks := s.tasks[t := s.tasks[t].(pc := XDel(s.tasks[t].pc.guarded))], q := Ack(s.q, s.tasks[t].entry))
  {
    hide Ack;
  }

  lemma DeleteOnly(cfg: Config, s: Cluster, t: nat, out: Outcome)
    requires t in s.tasks && s.tasks[t].pc.XDel?
    ensures Apply(cfg, s, Exec(t, out))
            == s.(tasks := s.tasks - {t}, inflight := s.inflight - {(s.tasks[t].worker, s.tasks[t].entry)},
                  q := Del(s.q, s.tasks[t].entry))
  {
    hide Del;
  }

  lemma FromAck(cfg: Config, s: Cluster, t: nat, out: Outcome) returns (n: nat, u: Cluster)
    requires t in s.tasks && s.tasks[t].pc.XAck?
    ensures n == 2 && Drives(cfg, s, t, out, n, u) && Over(s, u, t, s.jobs, true, false)
  {
    var x := Exec(t, out);
    AckOnly(cfg, s, t, out);
    var r := s.(tasks := s.tasks[t := s.tasks[t].(pc := XDel(s.tasks[t].pc.guarded))], q := Ack(s.q, s.tasks[t].entry));
    DeleteOnly(cfg, r, t, out);
    u := Apply(cfg, r, x);
    n := 2;
    assert u.tasks == s.tasks - {t};
    assert Enabled(cfg, s, x) && Enabled(cfg, r, x);
    hide Apply, Enabled, Ack, Del;
    assert Leads(cfg, u, [], u);
    Precede(cfg, r, x, [], u);
    Precede(cfg, s, x, [x], u);
    assert Repeat(x, 1) == [x] + [] && Repeat(x, 2) == [x] + Repeat(x, 1);
    assert Over(s, u, t, s.jobs, true, false) by { OverAfterAck(s, u, t); }
  }

  lemma OverAfterAck(s: Cluster, u: Cluster, t: nat)
    requires t in s.tasks
    requires u == s.(tasks := s.tasks - {t}, inflight := s.inflight - {(s.tasks[t].worker, s.tasks[t].entry)},
                     q := Del(Ack(s.q, s.tasks[t].entry), s.tasks[t].entry))
    ensures Over(s, u, t, s.jobs, true, false)
  {
  }

  lemma FromDeadLetter(cfg: Config, s: Cluster, t: nat, out: Outcome) returns (n: nat, u: Cluster)
    requires t in s.tasks && s.tasks[t].pc.DeadLetterAdd?
    ensures n == 3 && Drives(cfg, s, t, out, n, u) && Over(s, u, t, s.jobs, true, true)
  {
    var x := Exec(t, out);
    var r := Apply(cfg, s, x);
    n, u := FromAck(cfg, r, t, out);
    Precede(cfg, s, x, Repeat(x, n), u);
    n := n + 1;
    hide Leads;
  }

  function Written(s: Cluster, j: nat, st: Status): map<nat, Hash> { s.jobs[j := Hash(Some(st), AttemptsOf(s, j))] }

  lemma FromFailedAnnounced(cfg: Config, s: Cluster, t: nat, out: Outcome) returns (n: nat, u: Cluster)
    requires t in s.tasks && s.tasks[t].pc.AnnounceFailed?
    ensures n <= 4 && Drives(cfg, s, t, out, n, u) && Over(s, u, t, s.jobs, true, !s.tasks[t].pc.permanent)
  {
    After(cfg, s, t, out);
    var r := Apply(cfg, s, Exec(t, out));
    hide Apply, Drives, Over;
    if s.tasks[t].pc.permanent { n, u := FromAck(cfg, r, t, out); } else { n, u := FromDeadLetter(cfg, r, t, out); }
    OneMore(cfg, s, t, out, n, u, s.jobs, true, !s.tasks[t].pc.permanent);
    n := n + 1;
  }

  lemma FromFailed(cfg: Config, s: Cluster, t: nat, out: Outcome) returns (n: nat, u: Cluster)
    requires t in s.tasks && s.tasks[t].pc.MarkFailed?
    ensures n <= 5 && Drives(cfg, s, t, out, n, u)
    ensures Over(s, u, t, Written(s, s.tasks[t].job, Failed), true, !s.tasks[t].pc.permanent)
  {
    After(cfg, s, t, out);
    var r := Apply(cfg, s, Exec(t, out));
    assert r.jobs == Written(s, s.tasks[t].job, Failed);
    hide Apply, Drives, Over;
    n, u := FromFailedAnnounced(cfg, r, t, out);
    OneMore(cfg, s, t, out, n, u, r.jobs, true, !s.tasks[t].pc.permanent);
    n := n + 1;
  }

  lemma EndedHash(s: Cluster, task: Task)
    requires task.pc.MarkCompleted? || task.pc.MarkCancelled?
    ensures Effect(s, task).jobs == Written(s, task.job, if task.pc.MarkCompleted? then Completed else Cancelled)
  {
  }

  lemma FromAnnounced(cfg: Config, s: Cluster, t: nat, out: Outcome) returns (n: nat, u: Cluster)
    requires t in s.tasks && (s.tasks[t].pc.Announce? || s.tasks[t].pc.AnnounceCancel?)
    ensures n == 3 && Drives(cfg, s, t, out, n, u) && Over(s, u, t, s.jobs, true, false)
  {
    After(cfg, s, t, out);
    var r := Apply(cfg, s, Exec(t, out));
    hide Apply, Drives, Over;
    n, u := FromAck(cfg, r, t, out);
    OneMore(cfg, s, t, out, n, u, s.jobs, true, false);
    n := n + 1;
  }

  lemma FromEnded(cfg: Config, s: Cluster, t: nat, out: Outcome) returns (n: nat, u: Cluster)
    requires t in s.tasks && (s.tasks[t].pc.MarkCompleted? || s.tasks[t].pc.MarkCancelled?)
    ensures n == 4 && Drives(cfg, s, t, out, n, u)
    ensures Over(s, u, t, Written(s, s.tasks[t].job, if s.tasks[t].pc.MarkCompleted? then Completed else Cancelled), true, false)
  {
    After(cfg, s, t, out);
    EndedHash(s, s.tasks[t]);
    var r := Apply(cfg, s, Exec(t, out));
    hide Apply, Drives, Over, Effect, Written;
    n, u := FromAnnounced(cfg, r, t, out);
    OneMore(cfg, s, t, out, n, u, r.jobs, true, false);
    n := n + 1;
  }

  lemma FromRetry(cfg: Config, s: Cluster, t: nat, out: Outcome) returns (n: nat, u: Cluster)
    requires t in s.tasks && s.tasks[t].pc.NoteRetry?
    ensures n == 1 && Drives(cfg, s, t, out, n, u) && Over(s, u, t, s.jobs, false, false)
  {
    var x := Exec(t, out);
    u := Apply(cfg, s, x);
    n := 1;
    assert Leads(cfg, u, [], u);
    Precede(cfg, s, x, [], u);
    assert Repeat(x, 1) == [x] + [];
  }

  // The failure handling: what it leaves of a job counts from its hash alone.
  lemma FromFailure(cfg: Config, s: Cluster, t: nat, out: Outcome) returns (n: nat, u: Cluster)
    requires t in s.tasks && s.tasks[t].pc.ReadAttempts?
    ensures n <= 6 && Drives(cfg, s, t, out, n, u)
    ensures var j, permanent := s.tasks[t].job, s.tasks[t].pc.permanent;
            var a := AttemptsOf(s, j);
            if permanent || a >= cfg.maxAttempts || (a == 0 && 1 >= cfg.maxAttempts)
            then Over(s, u, t, Written(s, j, Failed), true, !permanent)
            else Over(s, u, t, s.jobs[j := Hash(StatusOf(s, j), a)], false, false)
  {
    var j := s.tasks[t].job;
    After(cfg, s, t, out);
    var r := Apply(cfg, s, Exec(t, out));
    assert r.jobs == s.jobs[j := Hash(StatusOf(s, j), AttemptsOf(s, j))];
    assert Written(r, j, Failed) == Written(s, j, Failed);
    hide Apply, Drives, Over, Written;
    if r.tasks[t].pc.MarkFailed? {
      n, u := FromFailed(cfg, r, t, out);
      OneMore(cfg, s, t, out, n, u, Written(s, j, Failed), true, !s.tasks[t].pc.permanent);
    } else {
      n, u := FromRetry(cfg, r, t, out);
      OneMore(cfg, s, t, out, n, u, r.jobs, false, false);
    }
    n := n + 1;
  }

  // From the work on: the attempt is counted and the job is being processed.
  lemma FromWork(cfg: Config, s: Cluster, t: nat, out: Outcome, a: nat) returns (n: nat, u: Cluster)
    requires t in s.tasks && s.tasks[t].pc.Work? && s.tasks[t].job in s.jobs
    requires s.jobs[s.tasks[t].job] == Hash(Some(Processing), a + 1)
    ensures n <= 7 && Drives(cfg, s, t, out, n, u)
    ensures Settles(cfg, s, u, t, AfterAttempt(cfg, a + 1, out))
  {
    var j := s.tasks[t].job;
    After(cfg, s, t, out);
    var r := Apply(cfg, s, Exec(t, out));
    assert r.jobs == s.jobs;
    assert s.jobs[j := s.jobs[j]] == s.jobs;
    hide Apply, Drives, Over;
    match out
    case Completes =>
      n, u := FromEnded(cfg, r, t, out);
      OneMore(cfg, s, t, out, n, u, Written(r, j, Completed), true, false);
      n := n + 1;
    case Cancels =>
      n, u := FromEnded(cfg, r, t, out);
      OneMore(cfg, s, t, out, n, u, Written(r, j, Cancelled), true, false);
      n := n + 1;
    case Unreadable =>
      n, u := FromFailure(cfg, r, t, out);
      OneMore(cfg, s, t, out, n, u, Written(r, j, Failed), true, false);
      n := n + 1;
    case Breaks =>
      n, u := FromFailure(cfg, r, t, out);
      if a + 1 >= cfg.maxAttempts {
        OneMore(cfg, s, t, out, n, u, Written(r, j, Failed), true, true);
      } else {
        OneMore(cfg, s, t, out, n, u, s.jobs, false, false);
      }
      n := n + 1;
  }

  // From the second write of the count on, with both hashes known.
  lemma FromMark(cfg: Config, s: Cluster, t: nat, out: Outcome, jobs: map<nat, Hash>, a: nat, v: Verdict) returns (n: nat, u: Cluster)
    requires t in s.tasks && s.tasks[t].pc == MarkProcessing(a + 1) && s.tasks[t].job in s.jobs
    requires s.jobs == jobs[s.tasks[t].job := s.jobs[s.tasks[t].job]] && v == AfterAttempt(cfg, a + 1, out)
    ensures n <= 8 && Drives(cfg, s, t, out, n, u)
    ensures Over(s, u, t, jobs[s.tasks[t].job := Hash(v.status, v.attempts)], v.acked, v.buried)
  {
    var j := s.tasks[t].job;
    After(cfg, s, t, out);
    var r := Apply(cfg, s, Exec(t, out));
    MarkedHash(s, s.tasks[t]);
    assert r.jobs == jobs[j := Hash(Some(Processing), a + 1)];
    var h := Hash(v.status, v.attempts);
    assert jobs[j := h] == r.jobs[j := h];
    hide Apply, Drives, Over, Effect, AfterAttempt, Next;
    n, u := FromWork(cfg, r, t, out, a);
    OneMore(cfg, s, t, out, n, u, jobs[j := h], v.acked, v.buried);
    n := n + 1;
  }

  lemma MarkedHash(s: Cluster, task: Task)
    requires task.pc.MarkProcessing?
    ensures Effect(s, task).jobs == s.jobs[task.job := Hash(Some(Processing), task.pc.n)]
  {
  }

  lemma FromBump(cfg: Config, s: Cluster, t: nat, out: Outcome) returns (n: nat, u: Cluster)
    requires t in s.tasks && s.tasks[t].pc.Bump? && s.tasks[t].job in s.jobs && s.tasks[t].job !in s.cancels
    requires StatusOf(s, s.tasks[t].job) != Some(Completed) && StatusOf(s, s.tasks[t].job) != Some(Cancelled)
    ensures n <= 9 && Drives(cfg, s, t, out, n, u) && Settles(cfg, s, u, t, VerdictOn(cfg, s, s.tasks[t].job, out))
  {
    var j, a, v := s.tasks[t].job, AttemptsOf(s, s.tasks[t].job), VerdictOn(cfg, s, s.tasks[t].job, out);
    After(cfg, s, t, out);
    var r := Apply(cfg, s, Exec(t, out));
    assert r.jobs == s.jobs[j := Hash(StatusOf(s, j), a + 1)];
    hide Apply, Drives, Over;
    n, u := FromMark(cfg, r, t, out, s.jobs, a, v);
    OneMore(cfg, s, t, out, n, u, s.jobs[j := Hash(v.status, v.attempts)], v.acked, v.buried);
    n := n + 1;
  }

  lemma FromCheck(cfg: Config, s: Cluster, t: nat, out: Outcome) returns (n: nat, u: Cluster)
    requires t in s.tasks && s.tasks[t].pc.CheckCancel? && s.tasks[t].job in s.jobs
    requires StatusOf(s, s.tasks[t].job) != Some(Completed) && StatusOf(s, s.tasks[t].job) != Some(Cancelled)
    ensures n <= 10 && Drives(cfg, s, t, out, n, u) && Settles(cfg, s, u, t, VerdictOn(cfg, s, s.tasks[t].job, out))
  {
    var j, v := s.tasks[t].job, VerdictOn(cfg, s, s.tasks[t].job, out);
    After(cfg, s, t, out);
    var r := Apply(cfg, s, Exec(t, out));
    assert r.jobs == s.jobs;
    hide Apply, Drives, Over;
    if j in s.cancels { n, u := FromEnded(cfg, r, t, out); } else { n, u := FromBump(cfg, r, t, out); }
    OneMore(cfg, s, t, out, n, u, s.jobs[j := Hash(v.status, v.attempts)], v.acked, v.buried);
    n := n + 1;
  }

  // A delivery that is not interrupted settles, within eleven commands, exactly
  // as the verdict says; the tasks of other deliveries, the hashes of other jobs
  // and the entries of others are as before.
  lemma DeliverySettles(cfg: Config, s: Cluster, t: nat, out: Outcome) returns (n: nat, u: Cluster)
    requires t in s.tasks && s.tasks[t].pc.Load?
    ensures n <= 11 && Drives(cfg, s, t, out, n, u)
    ensures Settles(cfg, s, u, t, VerdictOn(cfg, s, s.tasks[t].job, out))
  {
    var j, v := s.tasks[t].job, VerdictOn(cfg, s, s.tasks[t].job, out);
    After(cfg, s, t, out);
    var r := Apply(cfg, s, Exec(t, out));
    assert r.jobs == s.jobs;
    hide Apply, Drives, Over;
    if j !in s.jobs {
      n, u := FromFailure(cfg, r, t, out);
    } else if StatusOf(s, j) == Some(Completed) || StatusOf(s, j) == Some(Cancelled) {
      n, u := FromAck(cfg, r, t, out);
      assert s.jobs[j := s.jobs[j]] == s.jobs;
    } else {
      n, u := FromCheck(cfg, r, t, out);
    }
    OneMore(cfg, s, t, out, n, u, s.jobs[j := Hash(v.status, v.attempts)], v.acked, v.buried);
    n := n + 1;
  }

  // --------------------------------------------- a command that fails

  // The commands whose failure the run of a job handles, and those of the handling.
  predicate InProcessing(pc: Pc) {
    || pc.Load? || pc.CheckCancel? || pc.Bump? || pc.MarkProcessing? || pc.MarkCompleted? || pc.Announce?
    || pc.MarkCancelled? || pc.AnnounceCancel? || pc == XAck(true) || pc == XDel(true)
  }

  predicate InHandling(pc: Pc) {
    || pc.ReadAttempts? || pc.NoteRetry? || pc.MarkFailed? || pc.AnnounceFailed? || pc.DeadLetterAdd?
    || pc == XAck(false) || pc == XDel(false)
  }

  // The state of a job once the command has failed, and taken effect or not.
  function AfterCommand(s: Cluster, t: nat, applied: bool): Cluster
    requires t in s.tasks
  {
    if applied then Effect(s, s.tasks[t]) else s
  }

  lemma RaisedInProcessing(cfg: Config, s: Cluster, t: nat, applied: bool)
    requires t in s.tasks && InProcessing(s.tasks[t].pc)
    ensures Enabled(cfg, s, Raise(t, applied))
    ensures var r, a := Apply(cfg, s, Raise(t, applied)), AfterCommand(s, t, applied);
            && r.tasks == s.tasks[t := s.tasks[t].(pc := ReadAttempts(false))] && r.jobs == a.jobs && r.q == a.q
  {
    EffectTasks(s, s.tasks[t]);
    hide Effect;
  }

  // A command that fails while a job is processed, whether it took effect or not, is
  // an attempt that broke: run on, the job is marked as failed, dead-lettered and
  // taken off the queue if the attempts are used up, and otherwise left as the
  // command left it.
  lemma FailingCommandSettles(cfg: Config, s: Cluster, t: nat, applied: bool, out: Outcome) returns (n: nat, u: Cluster)
    requires t in s.tasks && InProcessing(s.tasks[t].pc)
    ensures n <= 6 && Leads(cfg, s, [Raise(t, applied)] + Repeat(Exec(t, out), n), u) && t !in u.tasks
    ensures var a, j, e := AfterCommand(s, t, applied), s.tasks[t].job, s.tasks[t].entry;
            && AttemptsOf(u, j) == AttemptsOf(a, j)
            && (if AttemptsOf(a, j) >= cfg.maxAttempts || (AttemptsOf(a, j) == 0 && 1 >= cfg.maxAttempts)
                then StatusOf(u, j) == Some(Failed) && e !in u.q.pel && e !in u.q.stream
                     && u.q.dead == a.q.dead + [DeadLetter(j, e)]
                else StatusOf(u, j) == StatusOf(a, j) && u.q == a.q)
  {
    var r := Apply(cfg, s, Raise(t, applied));
    RaisedInProcessing(cfg, s, t, applied);
    hide Apply, Enabled, Effect, InProcessing, AfterCommand;
    n, u := FromFailure(cfg, r, t, out);
    Precede(cfg, s, Raise(t, applied), Repeat(Exec(t, out), n), u);
    hide Leads;
  }

  // One that fails in the handling ends the task, off the register, with nothing but
  // its own effect.
  lemma FailingHandlingEnds(cfg: Config, s: Cluster, t: nat, applied: bool)
    requires t in s.tasks && InHandling(s.tasks[t].pc)
    ensures Enabled(cfg, s, Raise(t, applied))
    ensures var r, a, j := Apply(cfg, s, Raise(t, applied)), AfterCommand(s, t, applied), s.tasks[t].job;
            && r.tasks == s.tasks - {t} && r.inflight == s.inflight - {(s.tasks[t].worker, s.tasks[t].entry)}
            && r.jobs == a.jobs && r.q == a.q && LostOf(r, j) == LostOf(s, j) + 1
  {
    EffectTasks(s, s.tasks[t]);
    EffectIsNarrow(s, s.tasks[t]);
    hide Effect;
  }
}
