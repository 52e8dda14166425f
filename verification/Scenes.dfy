// Timely runs put together from pieces: two workers, one job, and whatever
// becomes of it.  They show what can happen when a promise is not kept.
module Scenes {
  import opened Basics
  import opened Broker
  import opened Delivery
  import opened Exclusive
  import Settling

  // --------------------------------------------- putting runs together

  lemma {:induction false} Join(cfg: Config, tm: Timing, s: Cluster, a: seq<Step>, t: Cluster, b: seq<Step>, u: Cluster)
    requires TimelyRun(cfg, tm, s, a, t) && TimelyRun(cfg, tm, t, b, u)
    ensures TimelyRun(cfg, tm, s, a + b, u)
    decreases |a|
  {
    hide Timely, Enabled, Apply;
    if a == [] {
      assert a + b == b;
    } else {
      Join(cfg, tm, Apply(cfg, s, a[0]), a[1..], t, b, u);
      TailOfConcat(a, b);
    }
  }

  lemma Single(cfg: Config, tm: Timing, s: Cluster, step: Step)
    requires Timely(tm, s) && Enabled(cfg, s, step) && Paced(tm, s, step) && Timely(tm, Apply(cfg, s, step))
    ensures TimelyRun(cfg, tm, s, [step], Apply(cfg, s, step))
  {
    var u := Apply(cfg, s, step);
    assert TimelyRun(cfg, tm, u, [], u);
    assert [step][1..] == [];
    hide Timely, Enabled, Apply;
  }

  lemma {:induction false} EndIsTimely(cfg: Config, tm: Timing, s: Cluster, steps: seq<Step>, u: Cluster)
    requires TimelyRun(cfg, tm, s, steps, u)
    ensures Timely(tm, u)
    decreases |steps|
  {
    hide Timely, Enabled, Apply;
    if steps != [] { EndIsTimely(cfg, tm, Apply(cfg, s, steps[0]), steps[1..], u); }
  }

  // Commands of tasks take no time.
  lemma CommandsAreTimely(cfg: Config, tm: Timing, s: Cluster, t: nat, out: Outcome)
    requires Timely(tm, s) && Enabled(cfg, s, Exec(t, out))
    ensures Timely(tm, Apply(cfg, s, Exec(t, out)))
  {
    EffectOnClaims(s, s.tasks[t]);
    NextIsNotFetched(cfg, s, s.tasks[t], out);
    hide Effect, Next;
  }

  lemma {:induction false} DrivesTimely(cfg: Config, tm: Timing, s: Cluster, t: nat, out: Outcome, n: nat, u: Cluster)
    requires Timely(tm, s) && Settling.Drives(cfg, s, t, out, n, u)
    ensures SteadyRun(cfg, tm, s, Settling.Repeat(Exec(t, out), n), u) && Lasting(Settling.Repeat(Exec(t, out), n), 7)
    decreases n
  {
    hide Timely, Apply, Enabled;
    var x := Exec(t, out);
    if n > 0 {
      assert Settling.Repeat(x, n)[1..] == Settling.Repeat(x, n - 1);
      CommandsAreTimely(cfg, tm, s, t, out);
      DrivesTimely(cfg, tm, Apply(cfg, s, x), t, out, n - 1, u);
    }
    RepeatNoStops(x, n);
  }

  // A timely run in which no worker is shut down.
  ghost predicate SteadyRun(cfg: Config, tm: Timing, s: Cluster, steps: seq<Step>, u: Cluster) {
    TimelyRun(cfg, tm, s, steps, u) && NoStops(steps)
  }

  // The command that takes the next number, whether or not its reply arrives.
  predicate Bumps(s: Cluster, step: Step, j: nat) {
    match step
    case Exec(t, _) => t in s.tasks && s.tasks[t].job == j && s.tasks[t].pc.Bump?
    case Raise(t, applied) => applied && t in s.tasks && s.tasks[t].job == j && s.tasks[t].pc.Bump?
    case _ => false
  }

  // The attempts at a job that a run begins.
  function BumpsIn(cfg: Config, s: Cluster, steps: seq<Step>, j: nat): nat
    decreases |steps|
  {
    if steps == [] || !Enabled(cfg, s, steps[0]) then 0
    else (if Bumps(s, steps[0], j) then 1 else 0) + BumpsIn(cfg, Apply(cfg, s, steps[0]), steps[1..], j)
  }

  // The state of the job does not expire during the run.
  ghost predicate Lasting(steps: seq<Step>, j: nat) {
    forall i :: 0 <= i < |steps| ==> steps[i] != ExpireJob(j)
  }

  // The pieces below: steady, with the state of job 7 kept and b attempts at it
  // begun.
  ghost predicate Piece(cfg: Config, tm: Timing, s: Cluster, steps: seq<Step>, u: Cluster, b: nat) {
    SteadyRun(cfg, tm, s, steps, u) && Lasting(steps, 7) && BumpsIn(cfg, s, steps, 7) == b
  }

  lemma {:induction false} BumpsJoin(cfg: Config, tm: Timing, s: Cluster, a: seq<Step>, t: Cluster, b: seq<Step>, j: nat)
    requires TimelyRun(cfg, tm, s, a, t)
    ensures BumpsIn(cfg, s, a + b, j) == BumpsIn(cfg, s, a, j) + BumpsIn(cfg, t, b, j)
    decreases |a|
  {
    hide Timely, Enabled, Apply, Bumps;
    if a == [] {
      assert a + b == b;
    } else {
      BumpsJoin(cfg, tm, Apply(cfg, s, a[0]), a[1..], t, b, j);
      TailOfConcat(a, b);
    }
  }

  lemma NoStopsJoin(a: seq<Step>, b: seq<Step>)
    requires NoStops(a) && NoStops(b) && Lasting(a, 7) && Lasting(b, 7)
    ensures NoStops(a + b) && Lasting(a + b, 7)
  {
  }

  lemma Chain(cfg: Config, tm: Timing, s: Cluster, a: seq<Step>, t: Cluster, m: nat, b: seq<Step>, u: Cluster, n: nat)
    requires Piece(cfg, tm, s, a, t, m) && Piece(cfg, tm, t, b, u, n)
    ensures Piece(cfg, tm, s, a + b, u, m + n)
  {
    Join(cfg, tm, s, a, t, b, u);
    NoStopsJoin(a, b);
    BumpsJoin(cfg, tm, s, a, t, b, 7);
  }

  function BumpBit(s: Cluster, step: Step): nat { if Bumps(s, step, 7) then 1 else 0 }

  lemma OneStep(cfg: Config, tm: Timing, s: Cluster, step: Step)
    requires Timely(tm, s) && Enabled(cfg, s, step) && Paced(tm, s, step) && Timely(tm, Apply(cfg, s, step))
    requires !step.Stop? && step != ExpireJob(7)
    ensures Piece(cfg, tm, s, [step], Apply(cfg, s, step), BumpBit(s, step))
  {
    Single(cfg, tm, s, step);
    assert [step][1..] == [];
    assert BumpsIn(cfg, Apply(cfg, s, step), [], 7) == 0;
    hide Timely, Enabled, Apply, Bumps, TimelyRun;
  }

  lemma OneMore(cfg: Config, tm: Timing, s: Cluster, steps: seq<Step>, t: Cluster, m: nat, step: Step)
    requires Piece(cfg, tm, s, steps, t, m) && Enabled(cfg, t, step) && Paced(tm, t, step) && Timely(tm, Apply(cfg, t, step))
    requires !step.Stop? && step != ExpireJob(7)
    ensures Piece(cfg, tm, s, steps + [step], Apply(cfg, t, step), m + BumpBit(t, step))
  {
    EndIsTimely(cfg, tm, s, steps, t);
    OneStep(cfg, tm, t, step);
    hide Piece, Timely, Enabled, Apply;
    Chain(cfg, tm, s, steps, t, m, [step], Apply(cfg, t, step), BumpBit(t, step));
  }

  lemma {:induction false} RepeatNoStops(step: Step, n: nat)
    requires step.Exec?
    ensures NoStops(Settling.Repeat(step, n)) && Lasting(Settling.Repeat(step, n), 7)
  {
    if n > 0 { RepeatNoStops(step, n - 1); }
  }

  // --------------------------------------------- time passing

  // The settings of the runs below: heartbeats as far apart as they may be, and a
  // newly reserved entry is registered no later than a reclaimed one.
  predicate Ordinary(tm: Timing) { 1 <= tm.beatGap && tm.pause <= tm.beatGap && tm.reserved <= tm.reclaimed }

  // Both workers sent a heartbeat at the same time, less than the gap ago, and
  // have nothing registered.
  predicate Calm(tm: Timing, s: Cluster) {
    && s.live == {0, 1} && s.stopping == {} && s.inflight == {}
    && 0 in s.lastBeat && s.lastBeat == map[0 := s.lastBeat[0], 1 := s.lastBeat[0]]
    && s.lastBeat[0] <= s.now < s.lastBeat[0] + tm.beatGap
  }

  // The last by then of the heartbeats that come every gap.
  function LastBeat(gap: nat, beat: nat, end: nat): (last: nat)
    requires gap >= 1 && beat <= end
    ensures beat <= last <= end < last + gap
    decreases end - beat
  {
    if end < beat + gap then beat else LastBeat(gap, beat + gap, end)
  }

  function Later(tm: Timing, s: Cluster, d: nat): Cluster
    requires tm.beatGap >= 1 && Calm(tm, s)
  {
    var beat := LastBeat(tm.beatGap, s.lastBeat[0], s.now + d);
    s.(now := s.now + d, lastBeat := map[0 := beat, 1 := beat])
  }

  // Nobody waits to be registered for too long within the next d milliseconds.
  predicate Unhurried(tm: Timing, s: Cluster, d: nat) {
    forall t :: t in s.tasks && s.tasks[t].pc.Fetched? ==> s.now + d <= s.tasks[t].at + WaitOf(tm, s.tasks[t])
  }

  // Waiting for d milliseconds, so long after the last heartbeat.
  function Waits(gap: nat, since: nat, d: nat): seq<Step>
    requires since < gap
    decreases d
  {
    if since + d < gap then [Tick(d)]
    else [Tick(gap - since), Heartbeat(0), Heartbeat(1)] + Waits(gap, 0, d - (gap - since))
  }

  // A heartbeat of a worker with nothing registered claims nothing.
  lemma BeatCalm(s: Cluster, w: nat)
    requires s.inflight == {}
    ensures Beat(s, w) == s.(lastBeat := s.lastBeat[w := s.now])
  {
    assert Beat(s, w).q.pel == s.q.pel;
  }

  function Ticked(s: Cluster, d: nat): Cluster { s.(now := s.now + d) }

  function Beaten(s: Cluster, w: nat): Cluster { s.(lastBeat := s.lastBeat[w := s.now]) }

  lemma TickIsTimely(tm: Timing, s: Cluster, d: nat)
    requires Calm(tm, s) && Unhurried(tm, s, d) && s.now + d <= s.lastBeat[0] + tm.beatGap
    ensures Timely(tm, s) && Timely(tm, Ticked(s, d))
  {
  }

  // Heartbeats only help.
  lemma BeatIsTimely(tm: Timing, s: Cluster, w: nat)
    requires Timely(tm, s) && w in s.lastBeat && s.lastBeat[w] <= s.now
    ensures Timely(tm, Beaten(s, w))
  {
    forall v ensures Active(Beaten(s, w), v) == Active(s, v) {}
  }

  lemma TickRun(cfg: Config, tm: Timing, s: Cluster, d: nat)
    requires Calm(tm, s) && Unhurried(tm, s, d) && s.now + d <= s.lastBeat[0] + tm.beatGap
    ensures Piece(cfg, tm, s, [Tick(d)], Ticked(s, d), 0)
  {
    TickIsTimely(tm, s, d);
    assert Apply(cfg, s, Tick(d)) == Ticked(s, d);
    hide Timely, Apply, Calm, Unhurried, Ticked, Piece;
    OneStep(cfg, tm, s, Tick(d));
  }

  // Up to and including the next heartbeats.
  lemma RoundRun(cfg: Config, tm: Timing, s: Cluster, d: nat)
    requires Ordinary(tm) && Calm(tm, s) && Unhurried(tm, s, d) && d == s.lastBeat[0] + tm.beatGap - s.now
    ensures Piece(cfg, tm, s, [Tick(d)] + [Heartbeat(0)] + [Heartbeat(1)], Beaten(Beaten(Ticked(s, d), 0), 1), 0)
  {
    var a := Ticked(s, d);
    var b := Beaten(a, 0);
    TickRun(cfg, tm, s, d);
    TickIsTimely(tm, s, d);
    BeatIsTimely(tm, a, 0);
    BeatIsTimely(tm, b, 1);
    BeatCalm(a, 0);
    BeatCalm(b, 1);
    assert Apply(cfg, a, Heartbeat(0)) == b && Apply(cfg, b, Heartbeat(1)) == Beaten(b, 1);
    assert Enabled(cfg, a, Heartbeat(0)) && Enabled(cfg, b, Heartbeat(1));
    assert Paced(tm, a, Heartbeat(0)) && Paced(tm, b, Heartbeat(1));
    hide Timely, Apply, Enabled, Calm, Unhurried, Ticked, Beaten, Piece, Beat, Paced;
    OneMore(cfg, tm, s, [Tick(d)], a, 0, Heartbeat(0));
    OneMore(cfg, tm, s, [Tick(d)] + [Heartbeat(0)], b, 0, Heartbeat(1));
  }

  // What is left to wait after the next heartbeats.
  lemma LaterAgain(tm: Timing, s: Cluster, d: nat, e: nat)
    requires Ordinary(tm) && Calm(tm, s) && Unhurried(tm, s, e + d) && e == s.lastBeat[0] + tm.beatGap - s.now
    ensures var r := Beaten(Beaten(Ticked(s, e), 0), 1);
            Calm(tm, r) && r.now == r.lastBeat[0] && Unhurried(tm, r, d) && Later(tm, r, d) == Later(tm, s, e + d)
  {
    var r := Beaten(Beaten(Ticked(s, e), 0), 1);
    assert r.lastBeat == map[0 := r.now, 1 := r.now];
  }

  lemma LaterSoon(tm: Timing, s: Cluster, d: nat)
    requires tm.beatGap >= 1 && Calm(tm, s) && s.now + d < s.lastBeat[0] + tm.beatGap
    ensures Later(tm, s, d) == Ticked(s, d)
  {
  }

  lemma {:induction false} WaitRun(cfg: Config, tm: Timing, s: Cluster, d: nat)
    requires Ordinary(tm) && Calm(tm, s) && Unhurried(tm, s, d)
    ensures Piece(cfg, tm, s, Waits(tm.beatGap, s.now - s.lastBeat[0], d), Later(tm, s, d), 0)
    decreases d
  {
    var since := s.now - s.lastBeat[0];
    if since + d < tm.beatGap {
      LaterSoon(tm, s, d);
      TickRun(cfg, tm, s, d);
    } else {
      var e := tm.beatGap - since;
      var r := Beaten(Beaten(Ticked(s, e), 0), 1);
      assert Unhurried(tm, s, e);
      LaterAgain(tm, s, d - e, e);
      var round := [Tick(e)] + [Heartbeat(0)] + [Heartbeat(1)];
      assert round == [Tick(e), Heartbeat(0), Heartbeat(1)];
      assert Waits(tm.beatGap, since, d) == round + Waits(tm.beatGap, 0, d - e);
      hide Calm, Unhurried, Later, Beaten, Ticked, Piece, Waits;
      RoundRun(cfg, tm, s, e);
      WaitRun(cfg, tm, r, d - e);
      Chain(cfg, tm, s, round, r, 0, Waits(tm.beatGap, 0, d - e), Later(tm, r, d - e), 0);
    }
  }

  // --------------------------------------------- the stage

  // Job 7 with its hash; the number of its next task; who its entry was claimed
  // for, and when; the last heartbeats; the time; the jobs ended; and how often a
  // run of the job was interrupted.
  datatype Scene = Scene(h: Hash, n: nat, who: nat, at: nat, beat: nat, now: nat, g: set<nat>, lost: nat)

  function Bare(c: Scene): Cluster {
    Cluster(c.now, Queue(map[1 := 7], 2, 1, map[1 := Pending(c.who, c.at)], []), map[1 := 7], map[7 := c.h], {},
            map[], c.n, {}, {0, 1}, {}, map[0 := c.beat, 1 := c.beat], c.g, map[7 := c.lost])
  }

  // The entry has been reclaimed, and is not registered yet.
  function Handed(c: Scene): Cluster {
    Bare(c).(tasks := map[c.n := Task(c.who, 1, 7, Fetched, c.at, true)], nextTask := c.n + 1)
  }

  // It has, and its task is at pc.
  function Running(c: Scene, pc: Pc): Cluster {
    Bare(c).(tasks := map[c.n := Task(c.who, 1, 7, pc, c.at, true)], nextTask := c.n + 1, inflight := {(c.who, 1)})
  }

  predicate Open(h: Hash) { h.status == Some(Waiting) || h.status == Some(Processing) }

  // A redelivered job is skipped only in these two states.
  predicate Unfinished(h: Hash) { h.status != Some(Completed) && h.status != Some(Cancelled) }

  // A heartbeat is not overdue.
  predicate Beating(tm: Timing, c: Scene) { c.who <= 1 && c.at <= c.now && c.beat <= c.now < c.beat + tm.beatGap }

  function Aged(tm: Timing, c: Scene, d: nat): Scene
    requires tm.beatGap >= 1 && c.beat <= c.now
  {
    c.(now := c.now + d, beat := LastBeat(tm.beatGap, c.beat, c.now + d))
  }

  lemma AgedIsBeating(tm: Timing, c: Scene, d: nat)
    requires tm.beatGap >= 1 && Beating(tm, c)
    ensures Beating(tm, Aged(tm, c, d)) && Aged(tm, c, d).beat >= c.beat
  {
  }

  // --------------------------------------------- the beginning

  // The first worker is handed the entry and crashes before it knows; it comes
  // back, and the entry is pending for nobody.
  const Opening: seq<Step> :=
    ([Start(0)] + [Start(1)]) + ([Submit(7)] + [Enqueue(7)]) + [Reserve(0, false)] + [Crash(0)] + [Start(0)]

  const First: Scene := Scene(Hash(Some(Waiting), 0), 0, 0, 0, 0, 0, {}, 0)

  function Started(): Cluster { Initial.(live := {0, 1}, lastBeat := map[0 := 0, 1 := 0]) }

  function Posted(): Cluster {
    Started().(q := Queue(map[1 := 7], 2, 0, map[], []), enqueued := map[1 := 7], jobs := map[7 := Hash(Some(Waiting), 0)])
  }

  function Taken(): Cluster { Posted().(q := Queue(map[1 := 7], 2, 1, map[1 := Pending(0, 0)], [])) }

  lemma StartBoth(cfg: Config, tm: Timing)
    ensures Piece(cfg, tm, Initial, [Start(0)] + [Start(1)], Started(), 0)
  {
    var a := Initial.(live := {0}, lastBeat := map[0 := 0]);
    assert Apply(cfg, Initial, Start(0)) == a;
    assert Apply(cfg, a, Start(1)) == Started();
    OneStep(cfg, tm, Initial, Start(0));
    hide Piece;
    OneMore(cfg, tm, Initial, [Start(0)], a, 0, Start(1));
  }

  lemma PostJob(cfg: Config, tm: Timing)
    ensures Piece(cfg, tm, Started(), [Submit(7)] + [Enqueue(7)], Posted(), 0)
  {
    var a := Started().(jobs := map[7 := Hash(Some(Waiting), 0)]);
    assert Apply(cfg, Started(), Submit(7)) == a;
    assert Apply(cfg, a, Enqueue(7)) == Posted();
    OneStep(cfg, tm, Started(), Submit(7));
    hide Piece;
    OneMore(cfg, tm, Started(), [Submit(7)], a, 0, Enqueue(7));
  }

  lemma PostedIsTaken(cfg: Config, tm: Timing)
    ensures Enabled(cfg, Posted(), Reserve(0, false)) && Apply(cfg, Posted(), Reserve(0, false)) == Taken()
    ensures Timely(tm, Posted()) && Timely(tm, Taken())
  {
    assert FirstFrom(Posted().q, 1) == 1;
    hide FirstFrom;
  }

  lemma CrashAndBack(cfg: Config, tm: Timing)
    ensures var dead := Bare(First).(live := {1});
            && Enabled(cfg, Taken(), Crash(0)) && Apply(cfg, Taken(), Crash(0)) == dead && Timely(tm, dead)
            && Enabled(cfg, dead, Start(0)) && Apply(cfg, dead, Start(0)) == Bare(First) && Timely(tm, Bare(First))
  {
    var s := Taken();
    assert s.enqueued[1] == 7 && forall j :: j in s.enqueued.Values ==> j == 7;
    assert !Runs(s, 0, 7);
    assert Die(s, 0).lost == map[7 := 0];
  }

  lemma OpeningRun(cfg: Config, tm: Timing)
    ensures Piece(cfg, tm, Initial, Opening, Bare(First), 0)
  {
    PostedIsTaken(cfg, tm);
    CrashAndBack(cfg, tm);
    var dead := Bare(First).(live := {1});
    hide Piece, Apply, Enabled, Timely, Started, Posted, Taken, Bare;
    StartBoth(cfg, tm);
    PostJob(cfg, tm);
    var a, b := [Start(0)] + [Start(1)], [Submit(7)] + [Enqueue(7)];
    Chain(cfg, tm, Initial, a, Started(), 0, b, Posted(), 0);
    OneMore(cfg, tm, Initial, a + b, Posted(), 0, Reserve(0, false));
    OneMore(cfg, tm, Initial, a + b + [Reserve(0, false)], Taken(), 0, Crash(0));
    OneMore(cfg, tm, Initial, a + b + [Reserve(0, false)] + [Crash(0)], dead, 0, Start(0));
  }

  // --------------------------------------------- attempts that fail

  lemma BeginRun(cfg: Config, tm: Timing, c: Scene)
    requires c.who <= 1 && c.now <= c.at + tm.reclaimed && c.now <= c.beat + tm.beatGap
    ensures Piece(cfg, tm, Handed(c), [Begin(c.n)], Running(c, Load), 0)
  {
    var s, u := Handed(c), Running(c, Load);
    assert Apply(cfg, s, Begin(c.n)) == u;
    assert Timely(tm, s) && Timely(tm, u);
    hide Apply, Timely, Handed, Running;
    OneStep(cfg, tm, s, Begin(c.n));
  }

  lemma RunningIsTimely(tm: Timing, c: Scene, pc: Pc)
    requires !pc.Fetched? && c.now <= c.beat + tm.beatGap
    ensures Timely(tm, Running(c, pc))
  {
  }

  // An attempt that breaks, with attempts left.
  lemma BreakRun(cfg: Config, tm: Timing, c: Scene) returns (steps: seq<Step>, g: set<nat>, b: nat)
    requires Open(c.h) && c.h.attempts + 1 < cfg.maxAttempts && Beating(tm, c)
    ensures Piece(cfg, tm, Running(c, Load), steps, Bare(c.(h := Hash(Some(Processing), c.h.attempts + 1), n := c.n + 1, g := g)), b)
  {
    var s := Running(c, Load);
    assert Settling.VerdictOn(cfg, s, 7, Breaks) == Settling.Verdict(Some(Processing), c.h.attempts + 1, false, false);
    var k, u := Settling.DeliverySettles(cfg, s, c.n, Breaks);
    steps := Settling.Repeat(Exec(c.n, Breaks), k);
    g := u.ended;
    assert u == Bare(c.(h := Hash(Some(Processing), c.h.attempts + 1), n := c.n + 1, g := g));
    RunningIsTimely(tm, c, Load);
    hide SteadyRun, Settling.Drives, Timely, Bare, Running, Settling.Repeat;
    DrivesTimely(cfg, tm, s, c.n, Breaks, k, u);
    b := BumpsIn(cfg, s, steps, 7);
  }

  // Time passes while nobody has the entry.
  lemma RestRun(cfg: Config, tm: Timing, c: Scene, d: nat)
    requires Ordinary(tm) && Beating(tm, c)
    ensures Piece(cfg, tm, Bare(c), Waits(tm.beatGap, c.now - c.beat, d), Bare(Aged(tm, c, d)), 0)
  {
    var s := Bare(c);
    assert Calm(tm, s) && Unhurried(tm, s, d) && Later(tm, s, d) == Bare(Aged(tm, c, d));
    hide Piece, Calm, Unhurried, Later, Aged, Waits;
    WaitRun(cfg, tm, s, d);
  }

  // A worker takes the entry over once it is idle for long enough.
  lemma ClaimRun(cfg: Config, tm: Timing, c: Scene, who: nat)
    requires who <= 1 && Beating(tm, c) && c.now >= c.at + cfg.visibilityMs
    ensures Piece(cfg, tm, Bare(c), [Reclaim(who, 1, true)], Handed(c.(who := who, at := c.now)), 0)
  {
    var s, u, x := Bare(c), Handed(c.(who := who, at := c.now)), Reclaim(who, 1, true);
    assert Apply(cfg, s, x) == u && Enabled(cfg, s, x);
    assert Timely(tm, s) && Timely(tm, u);
    hide Piece, Apply, Enabled, Timely, Bare, Handed;
    OneStep(cfg, tm, s, x);
  }

  // Waiting and taking it over.
  lemma ReclaimRun(cfg: Config, tm: Timing, c: Scene, d: nat, who: nat) returns (steps: seq<Step>, c': Scene)
    requires Ordinary(tm) && Beating(tm, c) && d >= cfg.visibilityMs && who <= 1
    ensures Piece(cfg, tm, Bare(c), steps, Handed(c'), 0) && Beating(tm, c')
    ensures c' == Aged(tm, c, d).(who := who, at := c.now + d)
  {
    var a := Aged(tm, c, d);
    c' := a.(who := who, at := a.now);
    AgedIsBeating(tm, c, d);
    assert a.at == c.at && a.now == c.now + d;
    hide Piece, Bare, Handed, Waits, Aged;
    RestRun(cfg, tm, c, d);
    ClaimRun(cfg, tm, a, who);
    var waits := Waits(tm.beatGap, c.now - c.beat, d);
    Chain(cfg, tm, Bare(c), waits, Bare(a), 0, [Reclaim(who, 1, true)], Handed(c'), 0);
    steps := waits + [Reclaim(who, 1, true)];
  }

  // One attempt more: the first worker takes the entry, begins, and breaks.
  lemma NextAttempt(cfg: Config, tm: Timing, c: Scene) returns (steps: seq<Step>, c': Scene, b: nat)
    requires Ordinary(tm) && Beating(tm, c) && Open(c.h) && c.h.attempts + 1 < cfg.maxAttempts
    ensures Piece(cfg, tm, Bare(c), steps, Bare(c'), b) && Beating(tm, c')
    ensures c'.h == Hash(Some(Processing), c.h.attempts + 1) && c'.lost == c.lost
  {
    hide Piece, Bare, Handed, Running;
    var take, h := ReclaimRun(cfg, tm, c, cfg.visibilityMs, 0);
    BeginRun(cfg, tm, h);
    var broken, g, m := BreakRun(cfg, tm, h);
    c' := h.(h := Hash(Some(Processing), c.h.attempts + 1), n := h.n + 1, g := g);
    b := m;
    Chain(cfg, tm, Bare(c), take, Handed(h), 0, [Begin(h.n)], Running(h, Load), 0);
    Chain(cfg, tm, Bare(c), take + [Begin(h.n)], Running(h, Load), 0, broken, Bare(c'), m);
    steps := take + [Begin(h.n)] + broken;
  }

  // A run after which a attempts have broken and nobody has the job, which nothing
  // has interrupted.
  lemma {:induction false} AfterAttempts(cfg: Config, tm: Timing, a: nat) returns (steps: seq<Step>, c: Scene, b: nat)
    requires Ordinary(tm) && (a == 0 || a < cfg.maxAttempts)
    ensures Open(c.h) && c.h.attempts == a && c.lost == 0 && Beating(tm, c)
    ensures Piece(cfg, tm, Initial, steps, Bare(c), b)
    ensures a == 0 ==> b == 0
  {
    hide Piece, Bare;
    if a == 0 {
      steps, c, b := Opening, First, 0;
      OpeningRun(cfg, tm);
    } else {
      var before, c0, b0 := AfterAttempts(cfg, tm, a - 1);
      var more, b1;
      more, c, b1 := NextAttempt(cfg, tm, c0);
      Chain(cfg, tm, Initial, before, Bare(c0), b0, more, Bare(c), b1);
      steps, b := before + more, b0 + b1;
    }
  }

  // --------------------------------------------- single commands

  // The commands up to the work, on the hash and the task.
  predicate Moved(h: Hash, pc: Pc, h': Hash, pc': Pc) {
    match pc
    case Load => h' == h && pc' == CheckCancel
    case CheckCancel => h' == h && pc' == Bump
    case Bump => h' == Hash(h.status, h.attempts + 1) && pc' == MarkProcessing(h.attempts + 1)
    case MarkProcessing(m) => h' == Hash(Some(Processing), m) && pc' == Work
    case _ => false
  }

  lemma CommandMoves(cfg: Config, s: Cluster, t: nat, h': Hash, pc': Pc)
    requires t in s.tasks && s.tasks[t].job in s.jobs && s.tasks[t].job !in s.cancels
    requires s.tasks[t].pc.Load? ==> Unfinished(s.jobs[s.tasks[t].job])
    requires Moved(s.jobs[s.tasks[t].job], s.tasks[t].pc, h', pc')
    ensures Apply(cfg, s, Exec(t, Breaks))
            == s.(jobs := s.jobs[s.tasks[t].job := h'], tasks := s.tasks[t := s.tasks[t].(pc := pc')])
  {
    var j := s.tasks[t].job;
    assert s.jobs[j := s.jobs[j]] == s.jobs;
  }

  // And from there on, with the jobs ended.
  predicate Went(cfg: Config, h: Hash, g: set<nat>, pc: Pc, out: Outcome, h': Hash, g': set<nat>, pc': Pc) {
    match pc
    case Load | CheckCancel | Bump | MarkProcessing(_) => Moved(h, pc, h', pc') && g' == g
    case Work =>
      && h' == h && g' == g
      && pc' == (match out case Completes => MarkCompleted case Cancels => MarkCancelled
                           case Unreadable => ReadAttempts(true) case Breaks => ReadAttempts(false))
    case ReadAttempts(permanent) =>
      && h' == h && g' == g
      && pc' == if permanent || (if h.attempts == 0 then 1 else h.attempts) >= cfg.maxAttempts then MarkFailed(permanent) else NoteRetry
    case MarkFailed(permanent) => h' == Hash(Some(Failed), h.attempts) && g' == g + {7} && pc' == AnnounceFailed(permanent)
    case MarkCompleted => h' == Hash(Some(Completed), h.attempts) && g' == g + {7} && pc' == Announce
    case Announce => h' == h && g' == g && pc' == XAck(true)
    case _ => false
  }

  lemma RunningMoves(cfg: Config, tm: Timing, c: Scene, pc: Pc, out: Outcome, h: Hash, g: set<nat>, pc': Pc)
    requires Went(cfg, c.h, c.g, pc, out, h, g, pc') && (pc.Load? ==> Unfinished(c.h)) && c.now <= c.beat + tm.beatGap
    ensures Piece(cfg, tm, Running(c, pc), [Exec(c.n, out)], Running(c.(h := h, g := g), pc'), if pc.Bump? then 1 else 0)
  {
    var s, x := Running(c, pc), Exec(c.n, out);
    RunningApplies(cfg, c, pc, out, h, g, pc');
    assert !pc.Fetched?;
    RunningIsTimely(tm, c, pc);
    assert Enabled(cfg, s, x) && (Bumps(s, x, 7) <==> pc.Bump?);
    hide Piece, Apply, Timely, Enabled, Went, Bumps, Running;
    CommandsAreTimely(cfg, tm, s, c.n, out);
    OneStep(cfg, tm, s, x);
  }

  lemma RunningApplies(cfg: Config, c: Scene, pc: Pc, out: Outcome, h: Hash, g: set<nat>, pc': Pc)
    requires Went(cfg, c.h, c.g, pc, out, h, g, pc') && (pc.Load? ==> Unfinished(c.h))
    ensures Apply(cfg, Running(c, pc), Exec(c.n, out)) == Running(c.(h := h, g := g), pc')
  {
    var s, n := Running(c, pc), c.n;
    assert s.jobs[7 := c.h] == s.jobs;
    assert s.tasks[n := s.tasks[n].(pc := pc')] == Running(c.(h := h, g := g), pc').tasks;
    hide Apply;
    match pc
    case Load | CheckCancel | Bump | MarkProcessing(_) =>
      MovesAnyway(cfg, s, n, out, h, pc');
    case _ => LaterApplies(cfg, s, n, out, c.h, c.g, h, g, pc');
  }

  // These do not depend on how the work will go.
  lemma MovesAnyway(cfg: Config, s: Cluster, t: nat, out: Outcome, h': Hash, pc': Pc)
    requires t in s.tasks && s.tasks[t].job in s.jobs && s.tasks[t].job !in s.cancels
    requires s.tasks[t].pc.Load? ==> Unfinished(s.jobs[s.tasks[t].job])
    requires Moved(s.jobs[s.tasks[t].job], s.tasks[t].pc, h', pc')
    ensures Apply(cfg, s, Exec(t, out))
            == s.(jobs := s.jobs[s.tasks[t].job := h'], tasks := s.tasks[t := s.tasks[t].(pc := pc')])
  {
    CommandMoves(cfg, s, t, h', pc');
    assert Next(cfg, s, s.tasks[t], out) == Next(cfg, s, s.tasks[t], Breaks);
    hide Effect, Next;
  }

  lemma LaterApplies(cfg: Config, s: Cluster, t: nat, out: Outcome, h: Hash, g: set<nat>, h': Hash, g': set<nat>, pc': Pc)
    requires t in s.tasks && s.tasks[t].job == 7 && s.jobs == map[7 := h] && s.ended == g
    requires var pc := s.tasks[t].pc;
             !pc.Load? && !pc.CheckCancel? && !pc.Bump? && !pc.MarkProcessing? && Went(cfg, h, g, pc, out, h', g', pc')
    ensures Apply(cfg, s, Exec(t, out)) == s.(jobs := map[7 := h'], ended := g', tasks := s.tasks[t := s.tasks[t].(pc := pc')])
  {
    assert s.jobs[7 := h] == s.jobs && s.jobs[7 := h'] == map[7 := h'];
  }

  // The commands up to the work.
  lemma ToWork(cfg: Config, tm: Timing, c: Scene, out: Outcome) returns (steps: seq<Step>)
    requires Unfinished(c.h) && c.now <= c.beat + tm.beatGap
    ensures Piece(cfg, tm, Running(c, Load), steps, Running(c.(h := Hash(Some(Processing), c.h.attempts + 1)), Work), 1)
  {
    hide Piece, Running;
    var a, x := c.h.attempts, [Exec(c.n, out)];
    var h1, h2, m := Hash(c.h.status, a + 1), Hash(Some(Processing), a + 1), MarkProcessing(a + 1);
    var s, s1, s2, s3 := Running(c, Load), Running(c, CheckCancel), Running(c, Bump), Running(c.(h := h1), m);
    RunningMoves(cfg, tm, c, Load, out, c.h, c.g, CheckCancel);
    RunningMoves(cfg, tm, c, CheckCancel, out, c.h, c.g, Bump);
    RunningMoves(cfg, tm, c, Bump, out, h1, c.g, m);
    RunningMoves(cfg, tm, c.(h := h1), m, out, h2, c.g, Work);
    hide Went, Moved, Unfinished;
    Chain(cfg, tm, s, x, s1, 0, x, s2, 0);
    steps := x + x;
    Chain(cfg, tm, s, steps, s2, 0, x, s3, 1);
    steps := steps + x;
    Chain(cfg, tm, s, steps, s3, 1, x, Running(c.(h := h2), Work), 0);
    steps := steps + x;
  }

  lemma PieceIsSteady(cfg: Config, tm: Timing, s: Cluster, steps: seq<Step>, u: Cluster, b: nat)
    requires Piece(cfg, tm, s, steps, u, b)
    ensures SteadyRun(cfg, tm, s, steps, u) && Lasting(steps, 7) && BumpsIn(cfg, s, steps, 7) == b
  {
  }

  lemma SteadyIsPiece(cfg: Config, tm: Timing, s: Cluster, steps: seq<Step>, u: Cluster) returns (b: nat)
    requires SteadyRun(cfg, tm, s, steps, u) && Lasting(steps, 7)
    ensures Piece(cfg, tm, s, steps, u, b)
  {
    b := BumpsIn(cfg, s, steps, 7);
  }
}
