// What heartbeats that come too late lead to: two workers on one entry, an
// attempt over the limit, and an attempt that is not counted.  Each happens in
// some run if, and only if, the two delays together reach the visibility
// timeout.
module Races {
  import opened Basics
  import opened Broker
  import opened Delivery
  import opened Exclusive
  import opened Scenes
  import opened Attempts

  // Both workers have the entry, each with a task of its own: the first since it
  // reclaimed it, the second since now.
  function Both(c: Scene, first: Pc, second: Pc): Cluster {
    Bare(c).(
      q := Queue(map[1 := 7], 2, 1, map[1 := Pending(1, c.now)], []),
      tasks := map[c.n := Task(0, 1, 7, first, c.at, true), c.n + 1 := Task(1, 1, 7, second, c.now, true)],
      nextTask := c.n + 2,
      inflight := if second.Fetched? then {(0, 1)} else {(0, 1), (1, 1)})
  }

  // The entry waits to be registered while heartbeats go out.
  lemma HoldRun(cfg: Config, tm: Timing, c: Scene, d: nat)
    requires Ordinary(tm) && Beating(tm, c) && c.at == c.now && d <= tm.reclaimed
    ensures Piece(cfg, tm, Handed(c), Waits(tm.beatGap, c.now - c.beat, d), Handed(Aged(tm, c, d)), 0)
  {
    var s := Handed(c);
    assert Calm(tm, s) && Unhurried(tm, s, d) && Later(tm, s, d) == Handed(Aged(tm, c, d));
    hide Piece, Calm, Unhurried, Later, Aged, Waits, Handed;
    WaitRun(cfg, tm, s, d);
  }

  lemma StealApplies(cfg: Config, c: Scene, now: nat)
    requires now == c.at + cfg.visibilityMs && c.now <= now && c.who == 0
    ensures var s, x, y := Running(c, Load), Tick(now - c.now), Reclaim(1, 1, true);
            && Apply(cfg, s, x) == s.(now := now) && Enabled(cfg, s.(now := now), y)
            && Apply(cfg, s.(now := now), y) == Both(c.(now := now), Load, Fetched)
  {
  }

  lemma BothIsTimely(tm: Timing, c: Scene, first: Pc, second: Pc)
    requires c.now <= c.beat + tm.beatGap && !first.Fetched?
    ensures Timely(tm, Both(c, first, second))
  {
  }

  // The second worker takes the entry over while the first is running it.
  lemma StealRun(cfg: Config, tm: Timing, c: Scene, now: nat)
    requires now == c.at + cfg.visibilityMs && c.now <= now <= c.beat + tm.beatGap && c.who == 0
    ensures Piece(cfg, tm, Running(c, Load), [Tick(now - c.now)] + [Reclaim(1, 1, true)], Both(c.(now := now), Load, Fetched), 0)
  {
    var s, x, y := Running(c, Load), Tick(now - c.now), Reclaim(1, 1, true);
    var a, u := s.(now := now), Both(c.(now := now), Load, Fetched);
    StealApplies(cfg, c, now);
    assert Timely(tm, s) && Timely(tm, a);
    BothIsTimely(tm, c.(now := now), Load, Fetched);
    hide Piece, Apply, Timely, Running, Both;
    OneStep(cfg, tm, s, x);
    OneMore(cfg, tm, s, [x], a, 0, y);
  }

  // A heartbeat falls on every multiple of the gap.
  lemma {:induction false} BeatOnTime(gap: nat, beat: nat, m: nat)
    requires gap >= 1
    ensures LastBeat(gap, beat, beat + m * gap) == beat + m * gap
    decreases m
  {
    if m > 0 {
      assert beat + m * gap == (beat + gap) + (m - 1) * gap;
      BeatOnTime(gap, beat + gap, m - 1);
    }
  }

  lemma {:induction false} BeatInStages(gap: nat, beat: nat, a: nat, b: nat)
    requires gap >= 1 && beat <= a <= b
    ensures LastBeat(gap, LastBeat(gap, beat, a), b) == LastBeat(gap, beat, b)
    decreases a - beat
  {
    if a >= beat + gap { BeatInStages(gap, beat + gap, a, b); }
  }

  // How long to wait before reclaiming, at least the timeout, so that a heartbeat
  // falls just before the entry is registered r milliseconds later.
  lemma Moment(cfg: Config, tm: Timing, c: Scene, r: nat) returns (d: nat)
    requires Ordinary(tm) && Beating(tm, c)
    ensures d >= cfg.visibilityMs && Aged(tm, Aged(tm, c, d), r).beat == c.now + d + r
  {
    var m := c.now + cfg.visibilityMs + r;
    Enough(m, tm.beatGap);
    d := c.beat + m * tm.beatGap - r - c.now;
    BeatOnTime(tm.beatGap, c.beat, m);
    BeatInStages(tm.beatGap, c.beat, c.now + d, c.now + d + r);
  }

  lemma Enough(m: nat, gap: nat)
    requires gap >= 1
    ensures m * gap >= m
  {
  }

  // A run in which two workers have the entry of a job that a attempts broke.
  lemma TwoRunnersAfter(cfg: Config, tm: Timing, a: nat) returns (steps: seq<Step>, c: Scene, b: nat)
    requires Ordinary(tm) && !InTime(cfg, tm) && (a == 0 || a < cfg.maxAttempts)
    ensures Open(c.h) && c.h.attempts == a && c.lost == 0 && c.now <= c.beat + tm.beatGap
    ensures Piece(cfg, tm, Initial, steps, Both(c, Load, Fetched), b)
    ensures a == 0 ==> b == 0
  {
    hide Piece, Handed, Running, Both, Bare, Waits;
    var r := if tm.reclaimed < cfg.visibilityMs then tm.reclaimed else cfg.visibilityMs;
    var before, rest;
    before, rest, b := AfterAttempts(cfg, tm, a);
    var d := Moment(cfg, tm, rest, r);
    var take, h := ReclaimRun(cfg, tm, rest, d, 0);
    var hold, w := Waits(tm.beatGap, h.now - h.beat, r), Aged(tm, h, r);
    HoldRun(cfg, tm, h, r);
    BeginRun(cfg, tm, w);
    var now := w.at + cfg.visibilityMs;
    StealRun(cfg, tm, w, now);
    c := w.(now := now);
    var steal := [Tick(now - w.now)] + [Reclaim(1, 1, true)];
    Chain(cfg, tm, Initial, before, Bare(rest), b, take, Handed(h), 0);
    steps := before + take;
    Chain(cfg, tm, Initial, steps, Handed(h), b, hold, Handed(w), 0);
    steps := steps + hold;
    Chain(cfg, tm, Initial, steps, Handed(w), b, [Begin(w.n)], Running(w, Load), 0);
    steps := steps + [Begin(w.n)];
    Chain(cfg, tm, Initial, steps, Running(w, Load), b, steal, Both(c, Load, Fetched), 0);
    steps := steps + steal;
  }

  lemma TwoRunners(cfg: Config, tm: Timing) returns (steps: seq<Step>, u: Cluster)
    requires Ordinary(tm) && !InTime(cfg, tm)
    ensures SteadyRun(cfg, tm, Initial, steps, u) && !OneRunner(u)
  {
    var c, b;
    steps, c, b := TwoRunnersAfter(cfg, tm, 0);
    u := Both(c, Load, Fetched);
    hide TimelyRun, Bare;
    assert c.n in u.tasks && c.n + 1 in u.tasks && u.tasks[c.n].entry == u.tasks[c.n + 1].entry;
    BothActive(c, Load, Fetched);
  }

  lemma BothActive(c: Scene, first: Pc, second: Pc)
    ensures Active(Both(c, first, second), 0) && Active(Both(c, first, second), 1)
  {
  }

  ghost predicate AlwaysOneRunner(cfg: Config, tm: Timing) {
    forall steps, u :: TimelyRun(cfg, tm, Initial, steps, u) ==> OneRunner(u)
  }

  // Exactly when no two workers ever run one entry.
  lemma ExclusiveIff(cfg: Config, tm: Timing)
    requires Ordinary(tm)
    ensures AlwaysOneRunner(cfg, tm) <==> InTime(cfg, tm)
  {
    hide TimelyRun, OneRunner;
    if InTime(cfg, tm) {
      forall steps, u | TimelyRun(cfg, tm, Initial, steps, u) ensures OneRunner(u) {
        ExclusiveRunning(cfg, tm, steps, u);
      }
    } else {
      var steps, u := TwoRunners(cfg, tm);
    }
  }

  // A heartbeat is due every third of the visibility timeout, but no sooner
  // than after five seconds.
  function BeatInterval(cfg: Config): nat {
    if (cfg.visibilityMs + 2) / 3 < 5000 then 5000 else (cfg.visibilityMs + 2) / 3
  }

  // The timing of the code, with heartbeats late by slack at most: an entry that is
  // reserved is registered at once, one that is reclaimed waits for a free slot.
  function CodeTiming(cfg: Config, reclaimed: nat, slack: nat): Timing {
    Timing(0, reclaimed, BeatInterval(cfg), BeatInterval(cfg) + slack)
  }

  // With that interval a timeout of five seconds or less is never enough, and
  // with a longer one what is left beside the interval is shared by the wait
  // for a slot and the lateness of a heartbeat.
  lemma IntervalSuffices(cfg: Config, reclaimed: nat, slack: nat)
    ensures AlwaysOneRunner(cfg, CodeTiming(cfg, reclaimed, slack))
            <==> cfg.visibilityMs > 5000 && reclaimed + slack < cfg.visibilityMs - 5000
                 && 3 * (reclaimed + slack) < 2 * cfg.visibilityMs - 2
  {
    hide AlwaysOneRunner;
    ExclusiveIff(cfg, CodeTiming(cfg, reclaimed, slack));
  }

  // --------------------------------------------- over the limit

  // One command of either task.
  lemma FirstChanges(c: Scene, first: Pc, second: Pc, h: Hash, first': Pc)
    requires first.Fetched? == first'.Fetched?
    ensures var s := Both(c, first, second);
            s.(jobs := s.jobs[7 := h], tasks := s.tasks[c.n := s.tasks[c.n].(pc := first')]) == Both(c.(h := h), first', second)
  {
    var s := Both(c, first, second);
    assert s.jobs[7 := h] == map[7 := h];
    assert s.tasks[c.n := s.tasks[c.n].(pc := first')] == Both(c.(h := h), first', second).tasks;
  }

  lemma SecondChanges(c: Scene, first: Pc, second: Pc, h: Hash, second': Pc)
    requires !second.Fetched? && !second'.Fetched?
    ensures var s, k := Both(c, first, second), c.n + 1;
            s.(jobs := s.jobs[7 := h], tasks := s.tasks[k := s.tasks[k].(pc := second')]) == Both(c.(h := h), first, second')
  {
    var s, k := Both(c, first, second), c.n + 1;
    assert s.jobs[7 := h] == map[7 := h];
    assert s.tasks[k := s.tasks[k].(pc := second')] == Both(c.(h := h), first, second').tasks;
  }

  lemma BothFacts(c: Scene, first: Pc, second: Pc)
    ensures var s := Both(c, first, second);
            && c.n in s.tasks && s.tasks[c.n].job == 7 && s.tasks[c.n].pc == first
            && c.n + 1 in s.tasks && s.tasks[c.n + 1].job == 7 && s.tasks[c.n + 1].pc == second
            && s.jobs == map[7 := c.h] && 7 !in s.cancels
  {
  }

  lemma FirstApplies(cfg: Config, c: Scene, first: Pc, second: Pc, h: Hash, first': Pc)
    requires Open(c.h) && Moved(c.h, first, h, first')
    ensures var s, x := Both(c, first, second), Exec(c.n, Breaks);
            Enabled(cfg, s, x) && Apply(cfg, s, x) == Both(c.(h := h), first', second) && (Bumps(s, x, 7) <==> first.Bump?)
  {
    BothFacts(c, first, second);
    FirstChanges(c, first, second, h, first');
    hide Apply, Both;
    CommandMoves(cfg, Both(c, first, second), c.n, h, first');
  }

  lemma SecondApplies(cfg: Config, c: Scene, first: Pc, second: Pc, h: Hash, second': Pc)
    requires Open(c.h) && Moved(c.h, second, h, second')
    ensures var s, x := Both(c, first, second), Exec(c.n + 1, Breaks);
            Enabled(cfg, s, x) && Apply(cfg, s, x) == Both(c.(h := h), first, second') && (Bumps(s, x, 7) <==> second.Bump?)
  {
    BothFacts(c, first, second);
    SecondChanges(c, first, second, h, second');
    hide Apply, Both;
    CommandMoves(cfg, Both(c, first, second), c.n + 1, h, second');
  }

  lemma FirstMoves(cfg: Config, tm: Timing, c: Scene, first: Pc, second: Pc, h: Hash, first': Pc)
    requires c.now <= c.beat + tm.beatGap && !second.Fetched? && Open(c.h) && Moved(c.h, first, h, first')
    ensures Piece(cfg, tm, Both(c, first, second), [Exec(c.n, Breaks)], Both(c.(h := h), first', second), if first.Bump? then 1 else 0)
  {
    var s, u, x := Both(c, first, second), Both(c.(h := h), first', second), Exec(c.n, Breaks);
    FirstApplies(cfg, c, first, second, h, first');
    BothIsTimely(tm, c, first, second);
    hide Apply, Timely, Moved, Open, Piece, SteadyRun, Both, Enabled, Bumps;
    CommandsAreTimely(cfg, tm, s, c.n, Breaks);
    OneStep(cfg, tm, s, x);
  }

  lemma SecondMoves(cfg: Config, tm: Timing, c: Scene, first: Pc, second: Pc, h: Hash, second': Pc)
    requires c.now <= c.beat + tm.beatGap && !first.Fetched? && Open(c.h) && Moved(c.h, second, h, second')
    ensures Piece(cfg, tm, Both(c, first, second), [Exec(c.n + 1, Breaks)], Both(c.(h := h), first, second'), if second.Bump? then 1 else 0)
  {
    var s, u, x := Both(c, first, second), Both(c.(h := h), first, second'), Exec(c.n + 1, Breaks);
    SecondApplies(cfg, c, first, second, h, second');
    BothIsTimely(tm, c, first, second);
    hide Apply, Timely, Moved, Open, Piece, SteadyRun, Both, Enabled, Bumps;
    CommandsAreTimely(cfg, tm, s, c.n + 1, Breaks);
    OneStep(cfg, tm, s, x);
  }

  lemma SecondBegins(cfg: Config, tm: Timing, c: Scene)
    requires c.now <= c.beat + tm.beatGap
    ensures Piece(cfg, tm, Both(c, Load, Fetched), [Begin(c.n + 1)], Both(c, Load, Load), 0)
  {
    var s, u := Both(c, Load, Fetched), Both(c, Load, Load);
    assert Apply(cfg, s, Begin(c.n + 1)) == u;
    BothIsTimely(tm, c, Load, Fetched);
    BothIsTimely(tm, c, Load, Load);
    hide Piece, Apply, Timely, Both;
    OneStep(cfg, tm, s, Begin(c.n + 1));
  }

  // Both tasks get as far as counting their attempt.
  lemma BothReachBump(cfg: Config, tm: Timing, c: Scene) returns (steps: seq<Step>)
    requires c.now <= c.beat + tm.beatGap && Open(c.h)
    ensures Piece(cfg, tm, Both(c, Load, Fetched), steps, Both(c, Bump, Bump), 0)
  {
    hide Piece, Both;
    var x, y, s := [Exec(c.n, Breaks)], [Exec(c.n + 1, Breaks)], Both(c, Load, Fetched);
    SecondBegins(cfg, tm, c);
    FirstMoves(cfg, tm, c, Load, Load, c.h, CheckCancel);
    SecondMoves(cfg, tm, c, CheckCancel, Load, c.h, CheckCancel);
    FirstMoves(cfg, tm, c, CheckCancel, CheckCancel, c.h, Bump);
    SecondMoves(cfg, tm, c, Bump, CheckCancel, c.h, Bump);
    hide Moved, Open;
    steps := [Begin(c.n + 1)];
    Chain(cfg, tm, s, steps, Both(c, Load, Load), 0, x, Both(c, CheckCancel, Load), 0);
    steps := steps + x;
    Chain(cfg, tm, s, steps, Both(c, CheckCancel, Load), 0, y, Both(c, CheckCancel, CheckCancel), 0);
    steps := steps + y;
    Chain(cfg, tm, s, steps, Both(c, CheckCancel, CheckCancel), 0, x, Both(c, Bump, CheckCancel), 0);
    steps := steps + x;
    Chain(cfg, tm, s, steps, Both(c, Bump, CheckCancel), 0, y, Both(c, Bump, Bump), 0);
    steps := steps + y;
  }

  // And count it.
  lemma BothBump(cfg: Config, tm: Timing, c: Scene) returns (steps: seq<Step>)
    requires c.now <= c.beat + tm.beatGap && Open(c.h)
    ensures var a := c.h.attempts;
            Piece(cfg, tm, Both(c, Load, Fetched), steps,
                  Both(c.(h := Hash(c.h.status, a + 2)), MarkProcessing(a + 1), MarkProcessing(a + 2)), 2)
  {
    hide Piece, Both;
    var a, x, y := c.h.attempts, [Exec(c.n, Breaks)], [Exec(c.n + 1, Breaks)];
    var h1, h2, m1, m2 := Hash(c.h.status, a + 1), Hash(c.h.status, a + 2), MarkProcessing(a + 1), MarkProcessing(a + 2);
    var s := Both(c, Load, Fetched);
    var before := BothReachBump(cfg, tm, c);
    FirstMoves(cfg, tm, c, Bump, Bump, h1, m1);
    SecondMoves(cfg, tm, c.(h := h1), m1, Bump, h2, m2);
    Chain(cfg, tm, s, before, Both(c, Bump, Bump), 0, x, Both(c.(h := h1), m1, Bump), 1);
    steps := before + x;
    Chain(cfg, tm, s, steps, Both(c.(h := h1), m1, Bump), 1, y, Both(c.(h := h2), m1, m2), 1);
    steps := steps + y;
  }

  // A run that takes the counter over the limit, with nothing interrupted: all
  // attempts but the last break, and the last is made by both workers.
  lemma OverTheLimit(cfg: Config, tm: Timing) returns (steps: seq<Step>, u: Cluster)
    requires Ordinary(tm) && !InTime(cfg, tm)
    ensures SteadyRun(cfg, tm, Initial, steps, u) && LostOf(u, 7) == 0 && AttemptsOf(u, 7) == Limit(cfg) + 1
  {
    hide Piece, Both, TimelyRun, NoStops, LostOf, AttemptsOf;
    var c, b;
    steps, c, b := TwoRunnersAfter(cfg, tm, Limit(cfg) - 1);
    var more := BothBump(cfg, tm, c);
    var a := c.h.attempts;
    var over := c.(h := Hash(c.h.status, a + 2));
    u := Both(over, MarkProcessing(a + 1), MarkProcessing(a + 2));
    BothHash(over, MarkProcessing(a + 1), MarkProcessing(a + 2));
    Chain(cfg, tm, Initial, steps, Both(c, Load, Fetched), b, more, u, 2);
    steps := steps + more;
    PieceIsSteady(cfg, tm, Initial, steps, u, b + 2);
  }

  lemma BothHash(c: Scene, first: Pc, second: Pc)
    ensures var u := Both(c, first, second); LostOf(u, 7) == c.lost && AttemptsOf(u, 7) == c.h.attempts
  {
  }

  ghost predicate AlwaysBounded(cfg: Config, tm: Timing) {
    forall steps, u, j :: SteadyRun(cfg, tm, Initial, steps, u) ==> AttemptsOf(u, j) <= Limit(cfg) + LostOf(u, j)
  }

  // The attempts of a job stay within the limit plus its interruptions in every
  // run without shutdowns exactly when heartbeats come in time.
  lemma AttemptBoundIff(cfg: Config, tm: Timing)
    requires Ordinary(tm)
    ensures AlwaysBounded(cfg, tm) <==> InTime(cfg, tm)
  {
    hide TimelyRun, NoStops, AttemptsOf, LostOf, Limit;
    if InTime(cfg, tm) {
      forall steps, u, j | SteadyRun(cfg, tm, Initial, steps, u) ensures AttemptsOf(u, j) <= Limit(cfg) + LostOf(u, j) {
        AttemptBoundInTime(cfg, tm, steps, u, j);
      }
    } else {
      var steps, u := OverTheLimit(cfg, tm);
    }
  }
}
