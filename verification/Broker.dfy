// The broker's side of the job queue: a stream of entries, the cursor of the
// consumer group, the list of entries delivered but not acknowledged, and the
// dead-letter stream.  One function a command.
module Broker {

  // Who an unacknowledged entry was last claimed for, and when.
  datatype Pending = Pending(owner: nat, since: nat)

  datatype DeadLetter = DeadLetter(job: nat, entry: nat)

  datatype Queue = Queue(stream: map<nat, nat>, nextId: nat, last: nat, pel: map<nat, Pending>, dead: seq<DeadLetter>)

  const EmptyQueue: Queue := Queue(map[], 1, 0, map[], [])

  // XADD: entry ids count up from 1.
  function Add(q: Queue, job: nat): Queue {
    q.(stream := q.stream[q.nextId := job], nextId := q.nextId + 1)
  }

  // The first entry of the stream from id on; nextId if there is none.
  function FirstFrom(q: Queue, id: nat): (e: nat)
    requires id <= q.nextId
    ensures id <= e <= q.nextId
    ensures e < q.nextId ==> e in q.stream
    ensures forall k :: id <= k < e ==> k !in q.stream
    decreases q.nextId - id
  {
    if id == q.nextId || id in q.stream then id else FirstFrom(q, id + 1)
  }

  predicate HasNew(q: Queue) { q.last < q.nextId && FirstFrom(q, q.last + 1) < q.nextId }

  // XREADGROUP with ">": the next entry, now pending for who.
  function ReadNew(q: Queue, who: nat, now: nat): Queue
    requires HasNew(q)
  {
    var e := FirstFrom(q, q.last + 1);
    q.(last := e, pel := q.pel[e := Pending(who, now)])
  }

  predicate IdleFor(q: Queue, e: nat, now: nat, minIdle: nat) {
    e in q.pel && now >= q.pel[e].since + minIdle
  }

  // XCLAIM, and XAUTOCLAIM for one entry: nothing happens to an entry that is
  // not pending.
  function Claim(q: Queue, e: nat, who: nat, now: nat): Queue {
    if e in q.pel then q.(pel := q.pel[e := Pending(who, now)]) else q
  }

  function ClaimAll(q: Queue, es: seq<nat>, who: nat, now: nat): Queue
    decreases |es|
  {
    if es == [] then q else ClaimAll(Claim(q, es[0], who, now), es[1..], who, now)
  }

  // XACK and XDEL.
  function Ack(q: Queue, e: nat): Queue { q.(pel := q.pel - {e}) }

  function Del(q: Queue, e: nat): Queue { q.(stream := q.stream - {e}) }

  function AddDead(q: Queue, job: nat, e: nat): Queue { q.(dead := q.dead + [DeadLetter(job, e)]) }

  // What every history of these commands keeps, provided entries are
  // acknowledged before they are deleted.
  ghost predicate Sound(q: Queue) {
    && q.last < q.nextId
    && (forall e :: e in q.stream ==> e < q.nextId)
    && (forall e :: q.last < e < q.nextId ==> e in q.stream)
    && (forall e :: e in q.pel ==> e <= q.last && e in q.stream)
  }
}
