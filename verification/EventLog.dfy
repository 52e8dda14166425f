// The replayable event stream of a job and the readers that tail it.
//
// A history is every event of a job in publication order, with strictly
// increasing ids.  What a read sees is a window of it: appended at the end by
// later publications, cut at the front by trimming.
module EventLog {
  import opened Basics

  datatype EventType =
    JobStarted | PageStarted | Token | PageComplete | Progress | JobComplete | JobFailed | JobCancelled

  predicate Terminal(t: EventType) { t.JobComplete? || t.JobFailed? || t.JobCancelled? }

  datatype Event = Event(id: nat, kind: EventType, data: string, seqNo: int)

  const FromStart: nat := 0

  ghost predicate Ascending(es: seq<Event>) {
    && (forall i :: 0 <= i < |es| ==> es[i].id > FromStart)
    && (forall i, j :: 0 <= i < j < |es| ==> es[i].id < es[j].id)
  }

  // --------------------------------------------- the log

  class Stream {
    var entries: seq<Event>
    var lastId: nat

    ghost predicate Valid()
      reads this
    {
      Ascending(entries) && forall i :: 0 <= i < |entries| ==> entries[i].id <= lastId
    }

    constructor ()
      ensures Valid() && entries == []
    {
      entries, lastId := [], FromStart;
    }

    // Appends with a fresh id and may trim from the front, but keeps maxLen entries.
    method Publish(kind: EventType, data: string, seqNo: int, now: nat, trim: nat, maxLen: nat) returns (id: nat)
      requires Valid()
      modifies this
      ensures Valid() && id > old(lastId) && lastId == id
      ensures var all := old(entries) + [Event(id, kind, data, seqNo)];
              entries == if trim <= |all| && |all| - trim >= maxLen then all[trim..] else all
    {
      id := if now > lastId then now else lastId + 1;
      entries := entries + [Event(id, kind, data, seqNo)];
      lastId := id;
      if trim <= |entries| && |entries| - trim >= maxLen {
        entries := entries[trim..];
      }
    }
  }

  // How many of es have ids up to last.
  function Index(es: seq<Event>, last: nat): (n: nat)
    ensures n <= |es|
    ensures forall i :: 0 <= i < n ==> es[i].id <= last
    ensures n < |es| ==> es[n].id > last
  {
    if es == [] || es[0].id > last then 0 else 1 + Index(es[1..], last)
  }

  // Up to count entries with ids beyond last.
  function ReadEvents(log: seq<Event>, last: nat, count: nat): seq<Event> {
    var rest := log[Index(log, last)..];
    if |rest| <= count then rest else rest[..count]
  }

  // --------------------------------------------- the reader

  // One round of the reader: the window of the history it reads, whether the
  // client had left, how many events were published when the status of the job
  // was asked for, and whether that said the job was over (or gone).
  datatype Round = Round(lo: nat, hi: nat, left: bool, seen: nat, over: bool)

  datatype End = Open | Left | Drained | Done

  // Where a session stands: the cursor, what it has delivered, how it ended.
  datatype Session = Session(cursor: nat, out: seq<Event>, end: End)

  ghost predicate NoTerminal(out: seq<Event>) {
    forall i :: 0 <= i < |out| ==> !Terminal(out[i].kind)
  }

  // The position of the first terminal event, or the end.
  function TerminalAt(batch: seq<Event>): (n: nat)
    ensures n <= |batch| && NoTerminal(batch[..n])
    ensures n < |batch| ==> Terminal(batch[n].kind)
  {
    if batch == [] || Terminal(batch[0].kind) then 0 else 1 + TerminalAt(batch[1..])
  }

  predicate HasTerminal(batch: seq<Event>) { TerminalAt(batch) < |batch| }

  // A batch up to its first terminal event, that event included.
  function UpToTerminal(batch: seq<Event>): seq<Event> {
    if HasTerminal(batch) then batch[..TerminalAt(batch) + 1] else batch
  }

  // Delivering a batch: a terminal event ends the session at once or, on the
  // socket, once the whole batch has been sent.
  function Deliver(s: Session, batch: seq<Event>, whole: bool): Session {
    var sent := if whole then batch else UpToTerminal(batch);
    Session(if sent == [] then s.cursor else sent[|sent| - 1].id, s.out + sent,
            if HasTerminal(batch) then Done else s.end)
  }

  function Step(h: seq<Event>, s: Session, r: Round, count: nat, whole: bool): Session
    requires r.lo <= r.hi <= |h|
  {
    if r.left then s.(end := Left)
    else
      var batch := ReadEvents(h[r.lo..r.hi], s.cursor, count);
      if batch == [] then (if r.over then s.(end := Drained) else s)
      else Deliver(s, batch, whole)
  }

  ghost predicate Windows(h: seq<Event>, rounds: seq<Round>) {
    && (forall i :: 0 <= i < |rounds| ==> rounds[i].lo <= rounds[i].hi <= |h|)
    && (forall i, j :: 0 <= i < j < |rounds| ==> rounds[i].lo <= rounds[j].lo && rounds[i].hi <= rounds[j].hi)
  }

  // The session after at most n rounds, started after lastId.
  ghost function After(h: seq<Event>, rounds: seq<Round>, n: nat, lastId: nat, count: nat, whole: bool): Session
    requires Windows(h, rounds) && n <= |rounds|
  {
    if n == 0 then Session(lastId, [], Open)
    else
      var s := After(h, rounds, n - 1, lastId, count, whole);
      if s.end.Open? then Step(h, s, rounds[n - 1], count, whole) else s
  }

  // The inner loop: events are handed to the client one by one.
  method SendBatch(batch: seq<Event>, cursor0: nat, out0: seq<Event>, whole: bool)
    returns (cursor: nat, out: seq<Event>, end: End)
    ensures Session(cursor, out, end) == Deliver(Session(cursor0, out0, Open), batch, whole)
  {
    cursor, out, end := cursor0, out0, Open;
    var j := 0;
    while j < |batch|
      invariant 0 <= j <= |batch|
      invariant Deliver(Session(cursor, out, end), batch[j..], whole)
                == Deliver(Session(cursor0, out0, Open), batch, whole)
      invariant end.Open? || (end.Done? && whole)
      decreases |batch| - j
    {
      DeliverOne(Session(cursor, out, end), batch[j..], whole);
      assert batch[j..][1..] == batch[j + 1..];
      cursor := batch[j].id;
      out := out + [batch[j]];
      if Terminal(batch[j].kind) {
        end := Done;
        if !whole {
          return;
        }
      }
      j := j + 1;
    }
  }

  lemma DeliverOne(s: Session, batch: seq<Event>, whole: bool)
    requires batch != []
    ensures var e := batch[0];
            var t := Session(e.id, s.out + [e], if Terminal(e.kind) then Done else s.end);
            Deliver(s, batch, whole) == if Terminal(e.kind) && !whole then t else Deliver(t, batch[1..], whole)
  {
    var e, rest := batch[0], batch[1..];
    assert batch == [e] + rest;
    var sent := if whole then rest else UpToTerminal(rest);
    if !Terminal(e.kind) && !whole { SentAfterFirst(batch); }
    hide TerminalAt, UpToTerminal;
    Associates(s.out, [e], sent);
  }

  lemma SentAfterFirst(batch: seq<Event>)
    requires batch != [] && !Terminal(batch[0].kind)
    ensures TerminalAt(batch) == 1 + TerminalAt(batch[1..])
    ensures UpToTerminal(batch) == [batch[0]] + UpToTerminal(batch[1..])
  {
    var e, rest := batch[0], batch[1..];
    var n := TerminalAt(rest);
    assert TerminalAt(batch) == 1 + n;
    hide TerminalAt;
    assert batch == [e] + rest;
    if n < |rest| { TakeBeyond([e], rest, n + 1); }
  }

  // The generator behind the server-sent events, and the loop of the socket.
  method EventSource(h: seq<Event>, rounds: seq<Round>, lastId: nat, count: nat, whole: bool)
    returns (cursor: nat, out: seq<Event>, end: End)
    requires Windows(h, rounds)
    ensures Session(cursor, out, end) == After(h, rounds, |rounds|, lastId, count, whole)
  {
    hide ReadEvents, Deliver;
    cursor, out, end := lastId, [], Open;
    var i := 0;
    while i < |rounds| && end.Open?
      invariant 0 <= i <= |rounds|
      invariant Session(cursor, out, end) == After(h, rounds, i, lastId, count, whole)
      decreases |rounds| - i
    {
      var r := rounds[i];
      if r.left {
        end := Left;
      } else {
        var batch := ReadEvents(h[r.lo..r.hi], cursor, count);
        if batch == [] {
          if r.over {
            end := Drained;
          }
        } else {
          cursor, out, end := SendBatch(batch, cursor, out, whole);
        }
      }
      i := i + 1;
    }
    AfterStops(h, rounds, i, |rounds|, lastId, count, whole);
  }

  lemma {:induction false} AfterStops(h: seq<Event>, rounds: seq<Round>, n: nat, m: nat,
                                      lastId: nat, count: nat, whole: bool)
    requires Windows(h, rounds) && n <= m <= |rounds|
    requires n == m || !After(h, rounds, n, lastId, count, whole).end.Open?
    ensures After(h, rounds, m, lastId, count, whole) == After(h, rounds, n, lastId, count, whole)
  {
    if n < m { AfterStops(h, rounds, n, m - 1, lastId, count, whole); }
  }

  // --------------------------------------------- what a session delivers

  // Where in the history the reading begins.
  ghost predicate Segment(h: seq<Event>, start: nat, out: seq<Event>) {
    start + |out| <= |h| && out == h[start..start + |out|]
  }

  // The next unread event of the history.
  ghost predicate At(h: seq<Event>, cursor: nat, pos: nat) {
    pos <= |h| && (pos > 0 ==> h[pos - 1].id <= cursor) && (pos < |h| ==> cursor < h[pos].id)
  }

  lemma IndexIsUnique(es: seq<Event>, last: nat, n: nat)
    requires Ascending(es) && n <= |es|
    requires n > 0 ==> es[n - 1].id <= last
    requires n < |es| ==> last < es[n].id
    ensures Index(es, last) == n
  {
    var m := Index(es, last);
  }

  function Clamp(pos: nat, lo: nat, hi: nat): nat
    requires lo <= hi
  {
    if pos < lo then lo else if pos > hi then hi else pos
  }

  lemma IndexOfWindow(h: seq<Event>, lo: nat, hi: nat, cursor: nat, pos: nat)
    requires Ascending(h) && lo <= hi <= |h| && At(h, cursor, pos)
    ensures Index(h[lo..hi], cursor) == Clamp(pos, lo, hi) - lo
  {
    var log, first := h[lo..hi], Clamp(pos, lo, hi);
    if first > lo {
      assert log[first - lo - 1] == h[first - 1];
      assert first < pos ==> h[first - 1].id < h[pos - 1].id;
    }
    if first < hi {
      assert log[first - lo] == h[first];
      assert first > pos ==> h[pos].id < h[first].id;
    }
    assert Ascending(log) by {
      assert forall i :: 0 <= i < |log| ==> log[i] == h[lo + i];
    }
    hide Ascending;
    IndexIsUnique(log, cursor, first - lo);
  }

  // A read returns the events from the cursor, or from the trimming point if
  // that lies beyond it, on.
  lemma ReadIsWindow(h: seq<Event>, r: Round, cursor: nat, pos: nat, count: nat)
    requires Ascending(h) && r.lo <= r.hi <= |h| && At(h, cursor, pos)
    ensures var first := Clamp(pos, r.lo, r.hi);
            var batch := ReadEvents(h[r.lo..r.hi], cursor, count);
            && first + |batch| <= r.hi && batch == h[first..first + |batch|]
            && |batch| <= count && (|batch| < count ==> first + |batch| == r.hi)
  {
    hide Index, At, Ascending;
    IndexOfWindow(h, r.lo, r.hi, cursor, pos);
    var first := Clamp(pos, r.lo, r.hi);
    var log := h[r.lo..r.hi];
    assert log[first - r.lo..] == log[first - r.lo..r.hi - r.lo];
    SliceOfSlice(h, r.lo, r.hi, first - r.lo, r.hi - r.lo);
    if r.hi - first > count { SliceOfSlice(h, first, r.hi, 0, count); }
  }

  // --------------------------------------------- untrimmed logs

  ghost predicate Untrimmed(rounds: seq<Round>) {
    forall i :: 0 <= i < |rounds| ==> rounds[i].lo == 0
  }

  ghost predicate EndsRight(s: Session, whole: bool) {
    && (s.end.Done? <==> HasTerminal(s.out))
    && (s.end.Done? && !whole ==> TerminalAt(s.out) == |s.out| - 1)
  }

  // What is known of a session that has delivered a segment of the history.
  ghost predicate Delivered(h: seq<Event>, start: nat, s: Session, whole: bool) {
    Segment(h, start, s.out) && At(h, s.cursor, start + |s.out|) && EndsRight(s, whole)
  }

  lemma {:induction false} TerminalOfConcat(a: seq<Event>, b: seq<Event>)
    requires !HasTerminal(a)
    ensures TerminalAt(a + b) == |a| + TerminalAt(b)
  {
    if a == [] {
      assert a + b == b;
    } else {
      assert (a + b)[1..] == a[1..] + b;
      TerminalOfConcat(a[1..], b);
    }
  }

  lemma {:induction false} TerminalOfPrefix(batch: seq<Event>, n: nat)
    requires HasTerminal(batch) && TerminalAt(batch) < n <= |batch|
    ensures TerminalAt(batch[..n]) == TerminalAt(batch)
  {
    if !Terminal(batch[0].kind) {
      assert batch[..n][1..] == batch[1..][..n - 1];
      TerminalOfPrefix(batch[1..], n - 1);
    }
  }

  lemma SentOfBatch(batch: seq<Event>, whole: bool)
    ensures var sent := if whole then batch else UpToTerminal(batch);
            && sent <= batch && (HasTerminal(sent) <==> HasTerminal(batch))
            && (HasTerminal(batch) && !whole ==> TerminalAt(sent) == |sent| - 1)
  {
    if HasTerminal(batch) { TerminalOfPrefix(batch, TerminalAt(batch) + 1); }
  }

  lemma SentExtends(h: seq<Event>, start: nat, out: seq<Event>, batch: seq<Event>, sent: seq<Event>)
    requires Segment(h, start, out) && Segment(h, start + |out|, batch) && sent <= batch
    ensures Segment(h, start, out + sent)
    ensures sent != [] ==> sent[|sent| - 1] == h[start + |out| + |sent| - 1]
  {
    SliceOfSlice(h, start + |out|, start + |out| + |batch|, 0, |sent|);
    SlicesJoin(h, start, start + |out|, start + |out| + |sent|);
  }

  // What a delivery adds and where it leaves the session.
  lemma Delivery(s: Session, batch: seq<Event>, whole: bool) returns (sent: seq<Event>)
    ensures sent <= batch && Deliver(s, batch, whole).out == s.out + sent
    ensures Deliver(s, batch, whole).cursor == if sent == [] then s.cursor else sent[|sent| - 1].id
    ensures EndsRight(s, whole) && s.end.Open? ==>
              EndsRight(Deliver(s, batch, whole), whole) && !Deliver(s, batch, whole).end.Drained?
  {
    hide TerminalAt, UpToTerminal;
    sent := if whole then batch else UpToTerminal(batch);
    SentOfBatch(batch, whole);
    if !HasTerminal(s.out) { TerminalOfConcat(s.out, sent); }
  }

  lemma DeliverExtends(h: seq<Event>, start: nat, s: Session, batch: seq<Event>, whole: bool)
    requires Ascending(h) && Delivered(h, start, s, whole) && s.end.Open?
    requires Segment(h, start + |s.out|, batch)
    ensures Delivered(h, start, Deliver(s, batch, whole), whole)
    ensures !Deliver(s, batch, whole).end.Drained?
  {
    hide Ascending, Deliver, Segment, At, EndsRight;
    var sent := Delivery(s, batch, whole);
    SentExtends(h, start, s.out, batch, sent);
    CursorMoves(h, start, s, sent);
  }

  lemma CursorMoves(h: seq<Event>, start: nat, s: Session, sent: seq<Event>)
    requires Ascending(h) && At(h, s.cursor, start + |s.out|) && Segment(h, start, s.out + sent)
    requires sent != [] ==> start + |s.out| + |sent| <= |h| && sent[|sent| - 1] == h[start + |s.out| + |sent| - 1]
    ensures At(h, if sent == [] then s.cursor else sent[|sent| - 1].id, start + |s.out + sent|)
  {
    hide Ascending, At;
    if sent != [] { AtAfter(h, start + |s.out| + |sent|); }
  }

  lemma AtAfter(h: seq<Event>, pos: nat)
    requires Ascending(h) && 0 < pos <= |h|
    ensures At(h, h[pos - 1].id, pos)
  {
  }

  // A session delivers exactly the stretch of the history behind its last id,
  // whatever the cuts between reads, and stops at the first terminal event
  // (the socket at the end of the batch that holds it).
  lemma {:induction false} SessionIsSegment(h: seq<Event>, rounds: seq<Round>, n: nat, lastId: nat,
                                            count: nat, whole: bool, start: nat)
    requires Ascending(h) && Windows(h, rounds) && Untrimmed(rounds) && n <= |rounds|
    requires At(h, lastId, start)
    ensures Delivered(h, start, After(h, rounds, n, lastId, count, whole), whole)
  {
    hide Deliver, Delivered, ReadEvents, At;
    if n == 0 {
      NothingDelivered(h, start, lastId, whole);
    } else {
      SessionIsSegment(h, rounds, n - 1, lastId, count, whole, start);
      var s, r := After(h, rounds, n - 1, lastId, count, whole), rounds[n - 1];
      if s.end.Open? {
        StepDelivers(h, start, s, r, count, whole);
      }
    }
  }

  lemma NothingDelivered(h: seq<Event>, start: nat, lastId: nat, whole: bool)
    requires At(h, lastId, start)
    ensures Delivered(h, start, Session(lastId, [], Open), whole)
  {
  }

  lemma StepDelivers(h: seq<Event>, start: nat, s: Session, r: Round, count: nat, whole: bool)
    requires Ascending(h) && r.lo == 0 && r.hi <= |h|
    requires Delivered(h, start, s, whole) && s.end.Open?
    ensures Delivered(h, start, Step(h, s, r, count, whole), whole)
    ensures Step(h, s, r, count, whole).end.Drained? && count > 0 ==> r.hi <= start + |s.out|
  {
    hide Deliver, ReadEvents, At;
    ReadIsWindow(h, r, s.cursor, start + |s.out|, count);
    var batch := ReadEvents(h[r.lo..r.hi], s.cursor, count);
    if !r.left && batch != [] { DeliverExtends(h, start, s, batch, whole); }
  }

  // A round in which the client is there delivers all there is to read, up to count
  // events: on the socket always, on the event stream unless a terminal event comes
  // first.
  lemma RoundDelivers(h: seq<Event>, rounds: seq<Round>, n: nat, lastId: nat, count: nat, whole: bool, start: nat)
    requires Ascending(h) && Windows(h, rounds) && Untrimmed(rounds) && 1 <= n <= |rounds|
    requires At(h, lastId, start)
    requires After(h, rounds, n - 1, lastId, count, whole).end.Open? && !rounds[n - 1].left
    ensures var s, t := After(h, rounds, n - 1, lastId, count, whole), After(h, rounds, n, lastId, count, whole);
            var pos := start + |s.out|;
            whole || !t.end.Done? ==> start + |t.out| == Min(pos + count, Max(pos, rounds[n - 1].hi))
  {
    hide *;
    SessionIsSegment(h, rounds, n - 1, lastId, count, whole, start);
    RoundInHistory(h, rounds, n - 1);
    AfterNext(h, rounds, n, lastId, count, whole);
    UntrimmedAt(rounds, n - 1);
    StepReaches(h, start, After(h, rounds, n - 1, lastId, count, whole), rounds[n - 1], count, whole);
  }

  lemma UntrimmedAt(rounds: seq<Round>, i: nat)
    requires Untrimmed(rounds) && i < |rounds|
    ensures rounds[i].lo == 0
  {
  }

  lemma AfterNext(h: seq<Event>, rounds: seq<Round>, n: nat, lastId: nat, count: nat, whole: bool)
    requires Windows(h, rounds) && 1 <= n <= |rounds|
    ensures rounds[n - 1].lo <= rounds[n - 1].hi <= |h|
    ensures var s := After(h, rounds, n - 1, lastId, count, whole);
            s.end.Open? ==> After(h, rounds, n, lastId, count, whole) == Step(h, s, rounds[n - 1], count, whole)
  {
    hide Step;
  }

  lemma StepReaches(h: seq<Event>, start: nat, s: Session, r: Round, count: nat, whole: bool)
    requires Ascending(h) && r.lo == 0 && r.hi <= |h| && Delivered(h, start, s, whole) && s.end.Open? && !r.left
    ensures var t, pos := Step(h, s, r, count, whole), start + |s.out|;
            whole || !t.end.Done? ==> start + |t.out| == Min(pos + count, Max(pos, r.hi))
  {
    hide Ascending, ReadEvents, At, EndsRight, TerminalAt, Segment;
    ReadIsWindow(h, r, s.cursor, start + |s.out|, count);
  }

  // Nor does it deliver anything published after its last read.
  lemma {:induction false} OnlyWhatWasRead(h: seq<Event>, rounds: seq<Round>, n: nat, lastId: nat, count: nat,
                                           whole: bool, start: nat)
    requires Ascending(h) && Windows(h, rounds) && Untrimmed(rounds) && 1 <= n <= |rounds|
    requires At(h, lastId, start)
    ensures var out := After(h, rounds, n, lastId, count, whole).out;
            out == [] || start + |out| <= rounds[n - 1].hi
  {
    hide ReadEvents, At, Ascending, Windows, TerminalAt, UpToTerminal;
    var s := After(h, rounds, n - 1, lastId, count, whole);
    SessionIsSegment(h, rounds, n - 1, lastId, count, whole, start);
    RoundInHistory(h, rounds, n - 1);
    if n > 1 {
      OnlyWhatWasRead(h, rounds, n - 1, lastId, count, whole, start);
      WindowsGrow(h, rounds, n - 2, n - 1);
    }
    if s.end.Open? { StepStaysInWindow(h, start, s, rounds[n - 1], count, whole); }
  }

  lemma StepStaysInWindow(h: seq<Event>, start: nat, s: Session, r: Round, count: nat, whole: bool)
    requires Ascending(h) && r.lo == 0 && r.hi <= |h| && Delivered(h, start, s, whole)
    ensures var out := Step(h, s, r, count, whole).out; out == s.out || start + |out| <= r.hi
  {
    hide Ascending, ReadEvents, Deliver, At, EndsRight;
    ReadIsWindow(h, r, s.cursor, start + |s.out|, count);
    var sent := Delivery(s, ReadEvents(h[r.lo..r.hi], s.cursor, count), whole);
  }

  lemma WindowsGrow(h: seq<Event>, rounds: seq<Round>, i: nat, j: nat)
    requires Windows(h, rounds) && i <= j < |rounds|
    ensures rounds[i].hi <= rounds[j].hi
  {
  }

  // A session that ended because the job was over ended in a round in which it
  // was told so, and had by then delivered exactly what was published up to the
  // last read: everything, if and only if nothing was published after that.
  lemma {:induction false} DrainedSawExactly(h: seq<Event>, rounds: seq<Round>, n: nat, lastId: nat, count: nat,
                                             whole: bool, start: nat) returns (i: nat)
    requires Ascending(h) && Windows(h, rounds) && Untrimmed(rounds) && n <= |rounds|
    requires At(h, lastId, start) && count > 0
    requires After(h, rounds, n, lastId, count, whole).end.Drained?
    ensures i < n && rounds[i].over
    ensures var out := After(h, rounds, n, lastId, count, whole).out;
            && start + |out| == Max(start, rounds[i].hi)
            && (out == h[start..] <==> Max(start, rounds[i].hi) == |h|)
  {
    hide Deliver, ReadEvents, At, Ascending, Windows, TerminalAt;
    var s := After(h, rounds, n - 1, lastId, count, whole);
    SessionIsSegment(h, rounds, n, lastId, count, whole, start);
    if s.end.Open? {
      SessionIsSegment(h, rounds, n - 1, lastId, count, whole, start);
      RoundInHistory(h, rounds, n - 1);
      StepDelivers(h, start, s, rounds[n - 1], count, whole);
      DeliverNeverDrains(s, ReadEvents(h[rounds[n - 1].lo..rounds[n - 1].hi], s.cursor, count), whole);
      OnlyWhatWasRead(h, rounds, n, lastId, count, whole, start);
      i := n - 1;
      WholeSegment(h, start, s.out);
    } else {
      i := DrainedSawExactly(h, rounds, n - 1, lastId, count, whole, start);
    }
  }

  lemma WholeSegment(h: seq<Event>, start: nat, out: seq<Event>)
    requires Segment(h, start, out)
    ensures out == h[start..] <==> start + |out| == |h|
  {
  }

  lemma RoundInHistory(h: seq<Event>, rounds: seq<Round>, i: nat)
    requires Windows(h, rounds) && i < |rounds|
    ensures rounds[i].lo <= rounds[i].hi <= |h|
  {
  }

  lemma DeliverNeverDrains(s: Session, batch: seq<Event>, whole: bool)
    requires s.end.Open?
    ensures !Deliver(s, batch, whole).end.Drained?
  {
  }

  // What the status says in each round, when it became terminal after so many
  // events: the read comes first, then the status.
  ghost predicate Reported(h: seq<Event>, rounds: seq<Round>, ended: nat) {
    forall i :: 0 <= i < |rounds| ==>
      && rounds[i].hi <= rounds[i].seen <= |h|
      && (rounds[i].over ==> ended <= rounds[i].seen) && (ended < rounds[i].seen ==> rounds[i].over)
  }

  // The id before the last event.
  function BeforeLast(h: seq<Event>): nat { if |h| < 2 then FromStart else h[|h| - 2].id }

  // One round: the last event is published between the read and the look at the
  // status.
  function LateRound(h: seq<Event>): Round
    requires h != []
  {
    Round(0, |h| - 1, false, |h|, true)
  }

  // Of every history the last event can be missed, whether the status is written
  // before it is published or after.
  lemma LastEventCanBeMissed(h: seq<Event>, ended: nat, count: nat)
    requires Ascending(h) && h != [] && ended <= |h|
    ensures Windows(h, [LateRound(h)]) && Untrimmed([LateRound(h)]) && Reported(h, [LateRound(h)], ended)
    ensures At(h, BeforeLast(h), |h| - 1)
    ensures After(h, [LateRound(h)], 1, BeforeLast(h), count, false) == Session(BeforeLast(h), [], Drained)
  {
    var n, rounds, lastId := |h| - 1, [LateRound(h)], BeforeLast(h);
    assert At(h, lastId, n);
    ReadIsWindow(h, rounds[0], lastId, n, count);
    assert ReadEvents(h[0..n], lastId, count) == [];
    hide ReadEvents, Ascending, At;
    assert After(h, rounds, 0, lastId, count, false) == Session(lastId, [], Open);
  }

  // --------------------------------------------- how a session ends

  // Once the client has left nothing more is delivered, whatever is published.
  lemma NothingAfterLeaving(h: seq<Event>, rounds: seq<Round>, n: nat, m: nat, lastId: nat, count: nat, whole: bool)
    requires Windows(h, rounds) && n < m <= |rounds| && rounds[n].left
    ensures var s := After(h, rounds, n, lastId, count, whole);
            After(h, rounds, m, lastId, count, whole) == if s.end.Open? then s.(end := Left) else s
  {
    AfterStops(h, rounds, n + 1, m, lastId, count, whole);
  }

  lemma {:induction false} HasTerminalIff(out: seq<Event>)
    ensures HasTerminal(out) <==> exists i :: 0 <= i < |out| && out[i].kind in {JobComplete, JobFailed, JobCancelled}
  {
    if out != [] {
      HasTerminalIff(out[1..]);
      if i :| 0 < i < |out| && out[i].kind in {JobComplete, JobFailed, JobCancelled} { assert out[1..][i - 1] == out[i]; }
    }
  }

  lemma {:induction false} EndsRightAlways(h: seq<Event>, rounds: seq<Round>, n: nat, lastId: nat, count: nat, whole: bool)
    requires Windows(h, rounds) && n <= |rounds|
    ensures EndsRight(After(h, rounds, n, lastId, count, whole), whole)
  {
    hide Step, EndsRight, Windows;
    if n == 0 {
      NothingEndsRight(lastId, whole);
    } else {
      EndsRightAlways(h, rounds, n - 1, lastId, count, whole);
      RoundInHistory(h, rounds, n - 1);
      var s := After(h, rounds, n - 1, lastId, count, whole);
      if s.end.Open? { StepEndsRight(h, s, rounds[n - 1], count, whole); }
    }
  }

  lemma NothingEndsRight(lastId: nat, whole: bool)
    ensures EndsRight(Session(lastId, [], Open), whole)
  {
  }

  lemma StepEndsRight(h: seq<Event>, s: Session, r: Round, count: nat, whole: bool)
    requires r.lo <= r.hi <= |h| && EndsRight(s, whole) && s.end.Open?
    ensures EndsRight(Step(h, s, r, count, whole), whole)
  {
    hide ReadEvents, Deliver, TerminalAt;
    if !r.left {
      var sent := Delivery(s, ReadEvents(h[r.lo..r.hi], s.cursor, count), whole);
    }
  }

  // Whatever is read and trimmed, a session is over because of an event if and only if
  // it has delivered that the job was complete, failed or cancelled; the event stream
  // then ends on that event.
  lemma DoneIffTerminalDelivered(h: seq<Event>, rounds: seq<Round>, n: nat, lastId: nat, count: nat, whole: bool)
    requires Windows(h, rounds) && n <= |rounds|
    ensures var s := After(h, rounds, n, lastId, count, whole);
            && (s.end.Done? <==> exists i :: 0 <= i < |s.out| && s.out[i].kind in {JobComplete, JobFailed, JobCancelled})
            && (s.end.Done? && !whole ==> forall i :: 0 <= i < |s.out| - 1 ==> s.out[i].kind !in {JobComplete, JobFailed, JobCancelled})
  {
    var s := After(h, rounds, n, lastId, count, whole);
    EndsRightAlways(h, rounds, n, lastId, count, whole);
    HasTerminalIff(s.out);
    hide After, TerminalAt;
    if s.end.Done? && !whole {
      assert NoTerminal(s.out[..TerminalAt(s.out)]);
      forall i | 0 <= i < |s.out| - 1 ensures s.out[i].kind !in {JobComplete, JobFailed, JobCancelled} {
        assert s.out[..TerminalAt(s.out)][i] == s.out[i];
      }
    }
  }

  // --------------------------------------------- reconnecting

  // The id a client hands back after its first k events.
  function ResumeId(out: seq<Event>, k: nat, lastId: nat): nat
    requires k <= |out|
  {
    if k == 0 then lastId else out[k - 1].id
  }

  lemma ResumesAt(h: seq<Event>, start: nat, out: seq<Event>, k: nat, lastId: nat)
    requires Ascending(h) && At(h, lastId, start) && Segment(h, start, out) && k <= |out|
    ensures At(h, ResumeId(out, k, lastId), start + k)
  {
    if k > 0 {
      assert out[k - 1] == h[start + k - 1];
      AtAfter(h, start + k);
    }
  }

  // A client that drops out after any k events and resumes from the last id it
  // saw has, in all, one unbroken stretch of the history; when both the resumed
  // and the unsplit session reach the end of the job, it has the same events.
  lemma ResumeIsSeamless(h: seq<Event>, rounds: seq<Round>, again: seq<Round>, lastId: nat, count: nat,
                         k: nat, start: nat)
    requires Ascending(h) && Windows(h, rounds) && Untrimmed(rounds) && Windows(h, again) && Untrimmed(again)
    requires At(h, lastId, start)
    requires k <= TerminalAt(After(h, rounds, |rounds|, lastId, count, false).out)
    ensures var a := After(h, rounds, |rounds|, lastId, count, false);
            var b := After(h, again, |again|, ResumeId(a.out, k, lastId), count, false);
            && Segment(h, start, a.out[..k] + b.out)
            && (a.end.Done? && b.end.Done? ==> a.out[..k] + b.out == a.out)
  {
    hide Ascending, Windows, Untrimmed, At, TerminalAt, After, Segment;
    var a := After(h, rounds, |rounds|, lastId, count, false);
    SessionIsSegment(h, rounds, |rounds|, lastId, count, false, start);
    ResumesAt(h, start, a.out, k, lastId);
    var c := ResumeId(a.out, k, lastId);
    var b := After(h, again, |again|, c, count, false);
    SessionIsSegment(h, again, |again|, c, count, false, start + k);
    SegmentsJoin(h, start, a.out, k, b.out);
    if a.end.Done? && b.end.Done? {
      SameFirstTerminal(h, start, a.out, k, b.out);
    }
  }

  lemma SegmentsJoin(h: seq<Event>, start: nat, a: seq<Event>, k: nat, b: seq<Event>)
    requires Segment(h, start, a) && k <= |a| && Segment(h, start + k, b)
    ensures Segment(h, start, a[..k] + b)
  {
    SlicesJoin(h, start, start + k, start + k + |b|);
    SliceOfSlice(h, start, start + |a|, 0, k);
  }

  lemma SameFirstTerminal(h: seq<Event>, start: nat, a: seq<Event>, k: nat, b: seq<Event>)
    requires Segment(h, start, a) && k <= TerminalAt(a) == |a| - 1
    requires Segment(h, start, a[..k] + b) && TerminalAt(b) == |b| - 1
    ensures a[..k] + b == a
  {
    hide TerminalAt, Segment;
    var c := a[..k] + b;
    NoneBefore(a, k);
    TerminalOfConcat(a[..k], b);
    if |a| <= |c| { LongerSegment(h, start, a, c); } else { LongerSegment(h, start, c, a); }
    SameSegment(h, start, a, c);
  }

  lemma SameSegment(h: seq<Event>, start: nat, a: seq<Event>, c: seq<Event>)
    requires Segment(h, start, a) && Segment(h, start, c) && |a| == |c|
    ensures a == c
  {
  }

  lemma LongerSegment(h: seq<Event>, start: nat, a: seq<Event>, c: seq<Event>)
    requires Segment(h, start, a) && Segment(h, start, c) && |a| <= |c| && HasTerminal(a)
    ensures TerminalAt(c) == TerminalAt(a)
  {
    hide TerminalAt;
    SlicesJoin(h, start, start + |a|, start + |c|);
    TerminalOfExtension(a, h[start + |a|..start + |c|]);
  }

  lemma {:induction false} TerminalOfExtension(a: seq<Event>, more: seq<Event>)
    requires HasTerminal(a)
    ensures TerminalAt(a + more) == TerminalAt(a)
  {
    assert (a + more)[1..] == a[1..] + more;
    if !Terminal(a[0].kind) { TerminalOfExtension(a[1..], more); }
  }

  lemma {:induction false} NoneBefore(a: seq<Event>, k: nat)
    requires k <= TerminalAt(a)
    ensures !HasTerminal(a[..k])
  {
    if k > 0 {
      NoneBefore(a[1..], k - 1);
      assert a[..k][1..] == a[1..][..k - 1];
    }
  }

  // --------------------------------------------- the socket and the stream

  // On the same reads the socket delivers what the event stream does, plus, in
  // the batch of the first terminal event, what follows it there.
  lemma {:induction false} SocketExtendsStream(h: seq<Event>, rounds: seq<Round>, n: nat, lastId: nat, count: nat)
    requires Windows(h, rounds) && n <= |rounds|
    ensures var sse := After(h, rounds, n, lastId, count, false);
            var ws := After(h, rounds, n, lastId, count, true);
            && sse.out <= ws.out && sse.end == ws.end
            && (!sse.end.Done? ==> sse == ws)
  {
    hide Windows, ReadEvents, TerminalAt;
    if n > 0 {
      SocketExtendsStream(h, rounds, n - 1, lastId, count);
      RoundInHistory(h, rounds, n - 1);
    }
  }

  // --------------------------------------------- trimmed logs

  // With trimming the events still come in strictly ascending order, from
  // behind the last id, each from the history; and every event up to the cursor
  // that the last trimming point had left in place has been delivered.
  ghost predicate Thinned(h: seq<Event>, lastId: nat, s: Session, lo: nat) {
    && (forall i, j :: 0 <= i < j < |s.out| ==> s.out[i].id < s.out[j].id)
    && (forall i :: 0 <= i < |s.out| ==> lastId < s.out[i].id <= s.cursor && s.out[i] in h)
    && lastId <= s.cursor
    && (forall j :: lo <= j < |h| && lastId < h[j].id <= s.cursor ==> h[j] in s.out)
  }

  lemma {:induction false} TrimmedSession(h: seq<Event>, rounds: seq<Round>, n: nat, lastId: nat,
                                          count: nat, whole: bool)
    requires Ascending(h) && Windows(h, rounds) && n <= |rounds|
    ensures Thinned(h, lastId, After(h, rounds, n, lastId, count, whole), if n == 0 then 0 else rounds[n - 1].lo)
  {
    hide Deliver, ReadEvents, Thinned, Ascending;
    if n == 0 {
      NothingThinned(h, lastId);
    } else {
      TrimmedSession(h, rounds, n - 1, lastId, count, whole);
      var s, r := After(h, rounds, n - 1, lastId, count, whole), rounds[n - 1];
      LaterTrim(h, lastId, s, if n == 1 then 0 else rounds[n - 2].lo, r.lo);
      if s.end.Open? { StepThins(h, lastId, s, r, count, whole); }
    }
  }

  lemma NothingThinned(h: seq<Event>, lastId: nat)
    ensures Thinned(h, lastId, Session(lastId, [], Open), 0)
  {
  }

  lemma LaterTrim(h: seq<Event>, lastId: nat, s: Session, lo: nat, later: nat)
    requires Thinned(h, lastId, s, lo) && lo <= later
    ensures Thinned(h, lastId, s, later)
  {
  }

  lemma StepThins(h: seq<Event>, lastId: nat, s: Session, r: Round, count: nat, whole: bool)
    requires Ascending(h) && r.lo <= r.hi <= |h| && s.end.Open?
    requires Thinned(h, lastId, s, r.lo)
    ensures Thinned(h, lastId, Step(h, s, r, count, whole), r.lo)
  {
    hide ReadEvents, Deliver, Thinned, Ascending, Index, At, EndsRight;
    var pos := Index(h, s.cursor);
    CursorAt(h, s.cursor);
    ReadIsWindow(h, r, s.cursor, pos, count);
    var batch := ReadEvents(h[r.lo..r.hi], s.cursor, count);
    if !r.left && batch != [] {
      BatchThins(h, lastId, s, r, Clamp(pos, r.lo, r.hi), batch, whole);
    } else if !r.left && r.over {
      ThinKeeps(h, lastId, s, r.lo, Drained);
    } else if r.left {
      ThinKeeps(h, lastId, s, r.lo, Left);
    }
  }

  lemma CursorAt(h: seq<Event>, cursor: nat)
    ensures At(h, cursor, Index(h, cursor))
  {
  }

  lemma BatchThins(h: seq<Event>, lastId: nat, s: Session, r: Round, first: nat, batch: seq<Event>, whole: bool)
    requires Ascending(h) && r.lo <= r.hi <= |h| && Thinned(h, lastId, s, r.lo) && Segment(h, first, batch)
    requires first == Clamp(Index(h, s.cursor), r.lo, r.hi) < r.hi
    ensures Thinned(h, lastId, Deliver(s, batch, whole), r.lo)
  {
    hide Deliver, Thinned, Ascending, EndsRight;
    var sent := Delivery(s, batch, whole);
    SliceOfSlice(h, first, first + |batch|, 0, |sent|);
    ThinExtends(h, lastId, s, r.lo, first, sent, Deliver(s, batch, whole));
  }

  lemma ThinKeeps(h: seq<Event>, lastId: nat, s: Session, lo: nat, end: End)
    requires Thinned(h, lastId, s, lo)
    ensures Thinned(h, lastId, s.(end := end), lo)
  {
  }

  lemma ThinExtends(h: seq<Event>, lastId: nat, s: Session, lo: nat, first: nat, sent: seq<Event>, t: Session)
    requires Ascending(h) && Thinned(h, lastId, s, lo)
    requires first + |sent| <= |h| && sent == h[first..first + |sent|]
    requires first >= Index(h, s.cursor) && first >= lo
    requires forall j :: lo <= j < first ==> h[j].id <= s.cursor
    requires t.out == s.out + sent && t.cursor == if sent == [] then s.cursor else sent[|sent| - 1].id
    ensures Thinned(h, lastId, t, lo)
  {
    hide Ascending, Index;
    SentIsBeyond(h, s.cursor, first, sent);
    forall j | lo <= j < |h| && lastId < h[j].id <= t.cursor ensures h[j] in t.out {
      if j < first {
        assert h[j] in s.out;
      } else {
        SentIsAll(h, s.cursor, first, sent, j);
      }
    }
    OrderOfConcat(h, lastId, s.cursor, s.out, sent);
  }

  lemma OrderOfConcat(h: seq<Event>, lastId: nat, cursor: nat, out: seq<Event>, sent: seq<Event>)
    requires forall i, j :: 0 <= i < j < |out| ==> out[i].id < out[j].id
    requires forall i, j :: 0 <= i < j < |sent| ==> sent[i].id < sent[j].id
    requires forall i :: 0 <= i < |out| ==> lastId < out[i].id <= cursor && out[i] in h
    requires forall i :: 0 <= i < |sent| ==> cursor < sent[i].id <= sent[|sent| - 1].id && sent[i] in h
    requires lastId <= cursor
    ensures var all := out + sent;
            && (forall i, j :: 0 <= i < j < |all| ==> all[i].id < all[j].id)
            && (forall i :: 0 <= i < |all| ==>
                  lastId < all[i].id <= (if sent == [] then cursor else sent[|sent| - 1].id) && all[i] in h)
  {
  }

  lemma SentIsBeyond(h: seq<Event>, cursor: nat, first: nat, sent: seq<Event>)
    requires Ascending(h) && first + |sent| <= |h| && sent == h[first..first + |sent|]
    requires first >= Index(h, cursor)
    ensures forall i :: 0 <= i < |sent| ==> cursor < sent[i].id <= sent[|sent| - 1].id && sent[i] in h
    ensures forall i, j :: 0 <= i < j < |sent| ==> sent[i].id < sent[j].id
  {
    forall i | 0 <= i < |sent| ensures cursor < sent[i].id <= sent[|sent| - 1].id && sent[i] in h {
      assert sent[i] == h[first + i];
      assert h[Index(h, cursor)].id > cursor;
    }
  }

  lemma SentIsAll(h: seq<Event>, cursor: nat, first: nat, sent: seq<Event>, j: nat)
    requires Ascending(h) && first + |sent| <= |h| && sent == h[first..first + |sent|]
    requires first >= Index(h, cursor) && first <= j < |h|
    requires h[j].id <= if sent == [] then cursor else sent[|sent| - 1].id
    ensures h[j] in sent
  {
    if j < first + |sent| {
      assert sent[j - first] == h[j];
    }
  }
}
