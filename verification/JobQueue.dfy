// The producer and consumer sides of the job queue, as methods over the
// broker's state.
module JobQueue {
  import opened Broker

  datatype QueuedJob = QueuedJob(entry: nat, job: nat, deliveries: nat)

  // The entries from id first on that have been idle long enough: the oldest, at
  // most count.
  function IdleEntries(q: Queue, first: nat, now: nat, minIdle: nat, count: nat): (es: seq<nat>)
    ensures |es| <= count
    ensures forall i :: 0 <= i < |es| ==> first <= es[i] < q.nextId && es[i] in q.pel && now - q.pel[es[i]].since >= minIdle
    ensures forall i, j :: 0 <= i < j < |es| ==> es[i] < es[j]
    ensures |es| < count ==> forall e :: first <= e < q.nextId && e in q.pel && now - q.pel[e].since >= minIdle ==> e in es
    decreases q.nextId - first
  {
    if first >= q.nextId || count == 0 then []
    else if IdleFor(q, first, now, minIdle) then [first] + IdleEntries(q, first + 1, now, minIdle, count - 1)
    else IdleEntries(q, first + 1, now, minIdle, count)
  }

  // Older entries go first: one that is passed over is newer than all of them.
  lemma {:induction false} OldestFirst(q: Queue, first: nat, now: nat, minIdle: nat, count: nat, e: nat)
    requires first <= e < q.nextId && e in q.pel && now - q.pel[e].since >= minIdle
    ensures var es := IdleEntries(q, first, now, minIdle, count);
            e !in es ==> |es| == count && forall i :: 0 <= i < |es| ==> es[i] < e
    decreases q.nextId - first
  {
    if count > 0 && first < e {
      OldestFirst(q, first + 1, now, minIdle, if IdleFor(q, first, now, minIdle) then count - 1 else count, e);
    }
  }

  class JobQueue {
    const consumer: nat
    const visibilityMs: nat
    var q: Queue

    ghost predicate Valid()
      reads this
    {
      Sound(q)
    }

    constructor (consumer: nat, visibilityMs: nat)
      ensures Valid() && q == EmptyQueue && this.consumer == consumer && this.visibilityMs == visibilityMs
    {
      this.consumer, this.visibilityMs := consumer, visibilityMs;
      q := EmptyQueue;
    }

    method Enqueue(job: nat) returns (entry: nat)
      requires Valid()
      modifies this`q
      ensures Valid() && entry == old(q).nextId
      ensures q == old(q).(stream := old(q).stream[entry := job], nextId := entry + 1)
    {
      entry := q.nextId;
      q := Add(q, job);
    }

    // The oldest entries never delivered before, as many as there are and at most
    // count, now pending for this consumer.
    method Reserve(now: nat, count: nat) returns (jobs: seq<QueuedJob>)
      requires Valid()
      modifies this`q
      ensures Valid()
      ensures var was, n := old(q), Available(old(q), count);
              && |jobs| == n && q.last == was.last + n
              && (forall i :: 0 <= i < n ==>
                    was.last + 1 + i in was.stream
                    && jobs[i] == QueuedJob(was.last + 1 + i, was.stream[was.last + 1 + i], 1))
              && (forall e :: e in q.pel <==> e in was.pel || was.last < e <= was.last + n)
              && (forall e :: e in q.pel ==> q.pel[e] == if e > was.last then Pending(consumer, now) else was.pel[e])
              && q == was.(last := q.last, pel := q.pel)
    {
      var was, n := q, Available(q, count);
      q := ReadUpTo(q, consumer, now, n);
      ReadUpToReads(was, consumer, now, n);
      jobs := seq(n, i requires 0 <= i < n => QueuedJob(was.last + 1 + i, was.stream[was.last + 1 + i], 1));
    }

    // Takes over the oldest entries idle for the visibility timeout and hands each
    // on with the job it carries; an entry that is pending but gone from the
    // stream is acknowledged instead.  In a sound queue there is none.  Without a
    // consumer group there is nothing to take over.
    method Reclaim(now: nat, count: nat, grouped: bool) returns (jobs: seq<QueuedJob>)
      modifies this`q
      ensures !grouped ==> jobs == [] && q == old(q)
      ensures grouped ==>
              var was, es := old(q), IdleEntries(old(q), 0, now, visibilityMs, count);
              && Hands(was, es, |es|, jobs)
              && (forall e :: e in q.pel <==> e in was.pel && (e in es ==> e in was.stream))
              && (forall e :: e in q.pel ==> q.pel[e] == if e in es then Pending(consumer, now) else was.pel[e])
              && q == was.(pel := q.pel)
      ensures old(Valid()) && grouped ==>
              var was, es := old(q), IdleEntries(old(q), 0, now, visibilityMs, count);
              && |jobs| == |es| && q.pel.Keys == was.pel.Keys
              && (forall i :: 0 <= i < |es| ==> es[i] in was.stream && jobs[i] == QueuedJob(es[i], was.stream[es[i]], 2))
      ensures old(Valid()) ==> Valid()
    {
      var es := IdleEntries(q, 0, now, visibilityMs, count);
      if !grouped {
        return [];
      }
      assert forall i :: 0 <= i < |es| ==> es[i] in q.pel;
      HandsNothing(q, es);
      hide Hands, Sound, ClaimAll, IdleFor, NoneMissing, DropMissing, Broker.Ack, Del;
      ghost var before := q;
      ClaimAllKeeps(q, es, consumer, now);
      q := ClaimAll(q, es, consumer, now);
      ghost var claimed := q;
      jobs := [];
      for i := 0 to |es|
        invariant q == DropMissing(claimed, es, i) && Hands(before, es, i, jobs)
      {
        DropNext(claimed, es, i);
        HandsNext(before, es, i, jobs);
        if es[i] !in q.stream {
          Ack(es[i]);
        } else {
          jobs := jobs + [QueuedJob(es[i], q.stream[es[i]], 2)];
        }
      }
      Reclaimed(before, claimed, es, consumer, now);
      if Sound(before) {
        SoundMissesNone(before, claimed, es);
        HandsAll(before, es, jobs);
      }
    }

    method Ack(entry: nat)
      modifies this`q
      ensures q == old(q).(pel := old(q).pel - {entry}, stream := old(q).stream - {entry})
      ensures old(Valid()) && entry <= old(q).last ==> Valid()
    {
      q := Broker.Ack(q, entry);
      q := Del(q, entry);
    }

    method DeadLetterJob(job: QueuedJob)
      modifies this`q
      ensures q == old(q).(pel := old(q).pel - {job.entry}, stream := old(q).stream - {job.entry},
                           dead := old(q).dead + [DeadLetter(job.job, job.entry)])
      ensures old(Valid()) && job.entry <= old(q).last ==> Valid()
    {
      q := AddDead(q, job.job, job.entry);
      Ack(job.entry);
    }
  }

  // How many entries a read of at most count can get.
  function Available(q: Queue, count: nat): nat
    requires q.last < q.nextId
  {
    if count < q.nextId - 1 - q.last then count else q.nextId - 1 - q.last
  }

  // XREADGROUP for several entries is one read after another.
  function ReadUpTo(q: Queue, who: nat, now: nat, n: nat): Queue
    decreases n
  {
    if n == 0 || !HasNew(q) then q else ReadUpTo(ReadNew(q, who, now), who, now, n - 1)
  }

  // In a sound queue they are the next n by id.
  lemma {:induction false} ReadUpToReads(q: Queue, who: nat, now: nat, n: nat)
    requires Sound(q) && q.last + n < q.nextId
    ensures var r := ReadUpTo(q, who, now, n);
            && Sound(r) && r.last == q.last + n && r == q.(last := r.last, pel := r.pel)
            && (forall e :: q.last < e <= q.last + n ==> e in q.stream)
            && (forall e :: e in r.pel <==> e in q.pel || q.last < e <= q.last + n)
            && (forall e :: e in r.pel ==> r.pel[e] == if e > q.last then Pending(who, now) else q.pel[e])
    decreases n
  {
    if n > 0 {
      NextRead(q, who, now);
      var next := ReadNew(q, who, now);
      assert ReadUpTo(q, who, now, n) == ReadUpTo(next, who, now, n - 1);
      hide Sound, HasNew, ReadNew;
      ReadUpToReads(next, who, now, n - 1);
    }
  }

  lemma NextRead(q: Queue, who: nat, now: nat)
    requires Sound(q) && q.last + 1 < q.nextId
    ensures HasNew(q) && Sound(ReadNew(q, who, now))
    ensures q.last + 1 in q.stream
    ensures ReadNew(q, who, now) == q.(last := q.last + 1, pel := q.pel[q.last + 1 := Pending(who, now)])
  {
    assert q.last + 1 in q.stream;
  }

  // Acknowledging those of the first n claimed entries that left the stream.
  function DropMissing(q: Queue, es: seq<nat>, n: nat): Queue
    requires n <= |es|
  {
    if n == 0 then q
    else
      var r := DropMissing(q, es, n - 1);
      if es[n - 1] in r.stream then r else Del(Ack(r, es[n - 1]), es[n - 1])
  }

  ghost predicate HandsOut(jobs: seq<QueuedJob>, e: nat) {
    exists i :: 0 <= i < |jobs| && jobs[i].entry == e
  }

  // The jobs are those of the first n entries still in the stream, oldest first:
  // each goes with the job its entry carries.
  ghost predicate Hands(q: Queue, es: seq<nat>, n: nat, jobs: seq<QueuedJob>)
    requires n <= |es|
  {
    && (forall i :: 0 <= i < |jobs| ==>
          && jobs[i].entry in es[..n] && jobs[i].entry in q.stream
          && jobs[i] == QueuedJob(jobs[i].entry, q.stream[jobs[i].entry], 2))
    && (forall i, j :: 0 <= i < j < |jobs| ==> jobs[i].entry < jobs[j].entry)
    && (forall i :: 0 <= i < n && es[i] in q.stream ==> HandsOut(jobs, es[i]))
    && |jobs| <= n && (NoneMissing(q, es) ==> |jobs| == n && forall i :: 0 <= i < n ==> jobs[i].entry == es[i])
  }

  lemma HandsNothing(q: Queue, es: seq<nat>)
    ensures Hands(q, es, 0, [])
  {
  }

  lemma HandsNext(q: Queue, es: seq<nat>, n: nat, jobs: seq<QueuedJob>)
    requires n < |es| && Hands(q, es, n, jobs) && forall i, j :: 0 <= i < j < |es| ==> es[i] < es[j]
    ensures if es[n] in q.stream then Hands(q, es, n + 1, jobs + [QueuedJob(es[n], q.stream[es[n]], 2)])
            else Hands(q, es, n + 1, jobs)
  {
    assert es[..n + 1] == es[..n] + [es[n]];
    forall i | 0 <= i < |jobs| ensures jobs[i].entry < es[n] {
      var k :| 0 <= k < n && es[..n][k] == jobs[i].entry;
    }
    if es[n] in q.stream {
      HandsOneMore(q, es, n, jobs, QueuedJob(es[n], q.stream[es[n]], 2));
    }
  }

  lemma HandsOneMore(q: Queue, es: seq<nat>, n: nat, jobs: seq<QueuedJob>, job: QueuedJob)
    requires n < |es| && Hands(q, es, n, jobs) && es[..n + 1] == es[..n] + [es[n]]
    requires forall i :: 0 <= i < |jobs| ==> jobs[i].entry < es[n]
    requires es[n] in q.stream && job == QueuedJob(es[n], q.stream[es[n]], 2)
    ensures Hands(q, es, n + 1, jobs + [job])
  {
    var more := jobs + [job];
    forall i | 0 <= i < n + 1 && es[i] in q.stream ensures HandsOut(more, es[i]) {
      if i == n { assert more[|jobs|].entry == es[i]; } else { HandsOutStill(jobs, job, es[i]); }
    }
    hide HandsOut;
  }

  lemma HandsOutStill(jobs: seq<QueuedJob>, job: QueuedJob, e: nat)
    requires HandsOut(jobs, e)
    ensures HandsOut(jobs + [job], e)
  {
    var i :| 0 <= i < |jobs| && jobs[i].entry == e;
    assert (jobs + [job])[i].entry == e;
  }

  lemma Reclaimed(q: Queue, claimed: Queue, es: seq<nat>, who: nat, now: nat)
    requires claimed == q.(pel := claimed.pel) && claimed.pel.Keys == q.pel.Keys
    requires forall e :: e in q.pel ==> claimed.pel[e] == if e in es then Pending(who, now) else q.pel[e]
    ensures var r := DropMissing(claimed, es, |es|);
            && r == q.(pel := r.pel)
            && (forall e :: e in r.pel <==> e in q.pel && (e in es ==> e in q.stream))
            && (forall e :: e in r.pel ==> r.pel[e] == if e in es then Pending(who, now) else q.pel[e])
  {
    DropMissingIs(claimed, es, |es|);
    assert es[..|es|] == es;
  }

  lemma HandsAll(q: Queue, es: seq<nat>, jobs: seq<QueuedJob>)
    requires Hands(q, es, |es|, jobs) && NoneMissing(q, es)
    ensures |jobs| == |es|
    ensures forall i :: 0 <= i < |es| ==> es[i] in q.stream && jobs[i] == QueuedJob(es[i], q.stream[es[i]], 2)
  {
  }

  ghost predicate NoneMissing(q: Queue, es: seq<nat>) {
    forall i :: 0 <= i < |es| ==> es[i] in q.stream
  }

  lemma DropNext(q: Queue, es: seq<nat>, n: nat)
    requires n < |es|
    ensures var r := DropMissing(q, es, n);
            && r.stream == q.stream
            && DropMissing(q, es, n + 1) == if es[n] in r.stream then r else Del(Ack(r, es[n]), es[n])
  {
    DropMissingIs(q, es, n);
  }

  // What is dropped is pending no longer, and that is all.
  lemma {:induction false} DropMissingIs(q: Queue, es: seq<nat>, n: nat)
    requires n <= |es|
    ensures var r := DropMissing(q, es, n);
            && r == q.(pel := r.pel)
            && (forall e :: e in r.pel <==> e in q.pel && (e in q.stream || e !in es[..n]))
            && (forall e :: e in r.pel ==> r.pel[e] == q.pel[e])
  {
    if n > 0 {
      DropMissingIs(q, es, n - 1);
      assert es[..n] == es[..n - 1] + [es[n - 1]];
      var r := DropMissing(q, es, n - 1);
      assert es[n - 1] !in r.stream ==> r.stream - {es[n - 1]} == r.stream;
    }
  }

  lemma {:induction false} NothingDropped(q: Queue, es: seq<nat>, n: nat)
    requires n <= |es| && NoneMissing(q, es)
    ensures DropMissing(q, es, n) == q
  {
    if n > 0 { NothingDropped(q, es, n - 1); }
  }

  lemma SoundMissesNone(q: Queue, claimed: Queue, es: seq<nat>)
    requires Sound(q) && forall i :: 0 <= i < |es| ==> es[i] in q.pel
    requires claimed.stream == q.stream && claimed.nextId == q.nextId && claimed.last == q.last
    requires claimed.pel.Keys == q.pel.Keys
    ensures NoneMissing(q, es) && DropMissing(claimed, es, |es|) == claimed && Sound(claimed)
  {
    NothingDropped(claimed, es, |es|);
    forall e | e in claimed.pel ensures e <= claimed.last && e in claimed.stream { assert e in q.pel; }
  }

  lemma {:induction false} ClaimAllKeeps(q: Queue, es: seq<nat>, who: nat, now: nat)
    ensures var r := ClaimAll(q, es, who, now);
            && r.stream == q.stream && r.nextId == q.nextId && r.last == q.last && r.dead == q.dead
            && r.pel.Keys == q.pel.Keys
            && forall e :: e in q.pel ==> r.pel[e] == if e in es then Pending(who, now) else q.pel[e]
    decreases |es|
  {
    if es != [] {
      var c := Claim(q, es[0], who, now);
      ClaimAllKeeps(c, es[1..], who, now);
      assert c.pel.Keys == q.pel.Keys;
    }
  }
}
