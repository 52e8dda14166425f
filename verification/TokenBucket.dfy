// The token bucket behind the request rate limit: refill by elapsed time, take
// or refuse, write back, and let the key expire.  Tokens are exact reals, the
// clock counts milliseconds and may jump.
module TokenBucket {
  import opened Basics
  import opened Rounding

  datatype Limits = Limits(rate: real, burst: real)

  datatype Bucket = Fresh | Held(tokens: real, ts: int)

  datatype Decision = Decision(allowed: bool, remaining: int, retryMs: int)

  ghost predicate Sane(lim: Limits) { lim.rate > 0.0 && lim.burst >= 0.0 }

  function Positive(ms: int): int { if ms > 0 then ms else 0 }

  // What ms milliseconds add to a bucket.
  function Gain(lim: Limits, ms: int): real { ms as real / 1000.0 * lim.rate }

  // How many milliseconds it takes to gain the given tokens, rounded up.
  function TimeToGain(lim: Limits, tokens: real): int
    requires lim.rate > 0.0
  {
    Ceil(tokens / lim.rate * 1000.0)
  }

  function Refilled(b: Bucket, lim: Limits, now: int): real {
    match b
    case Fresh => MinR(lim.burst, lim.burst + Gain(lim, 0))
    case Held(tokens, ts) => MinR(lim.burst, tokens + Gain(lim, Positive(now - ts)))
  }

  // The script: the bucket it writes back and what it answers.
  function Take(b: Bucket, lim: Limits, now: int, cost: real): (Bucket, Decision)
    requires lim.rate > 0.0
  {
    var tokens := Refilled(b, lim, now);
    if tokens >= cost then (Held(tokens - cost, now), Decision(true, (tokens - cost).Floor, 0))
    else (Held(tokens, now), Decision(false, tokens.Floor, TimeToGain(lim, cost - tokens)))
  }

  ghost predicate InRange(b: Bucket, lim: Limits) {
    b.Held? ==> 0.0 <= b.tokens <= lim.burst
  }

  lemma GainAdds(lim: Limits, a: int, b: int)
    ensures Gain(lim, a + b) == Gain(lim, a) + Gain(lim, b)
  {
    assert (a + b) as real / 1000.0 == a as real / 1000.0 + b as real / 1000.0;
  }

  lemma GainGrows(lim: Limits, ms: int)
    requires lim.rate > 0.0 && ms >= 0
    ensures Gain(lim, ms) >= 0.0 && (ms == 0 ==> Gain(lim, ms) == 0.0)
  {
  }

  // Tokens stay between nothing and the burst, whatever the clock does.
  lemma TakeStaysInRange(b: Bucket, lim: Limits, now: int, cost: real)
    requires Sane(lim) && InRange(b, lim) && cost >= 0.0
    ensures 0.0 <= Refilled(b, lim, now) <= lim.burst
    ensures InRange(Take(b, lim, now, cost).0, lim)
  {
    hide Gain;
    GainGrows(lim, 0);
    if b.Held? { GainGrows(lim, Positive(now - b.ts)); }
  }

  // --------------------------------------------- a whole run of requests

  datatype Request = Request(now: int, cost: real)

  ghost predicate Costs(rs: seq<Request>) { forall i :: 0 <= i < |rs| ==> rs[i].cost >= 0.0 }

  // The bucket after the first n requests.
  function After(b: Bucket, lim: Limits, rs: seq<Request>, n: nat): Bucket
    requires lim.rate > 0.0 && n <= |rs|
  {
    if n == 0 then b else Take(After(b, lim, rs, n - 1), lim, rs[n - 1].now, rs[n - 1].cost).0
  }

  function Answer(b: Bucket, lim: Limits, rs: seq<Request>, i: nat): Decision
    requires lim.rate > 0.0 && i < |rs|
  {
    Take(After(b, lim, rs, i), lim, rs[i].now, rs[i].cost).1
  }

  // The cost admitted among requests first..end.
  function Admitted(b: Bucket, lim: Limits, rs: seq<Request>, first: nat, end: nat): real
    requires lim.rate > 0.0 && first <= end <= |rs|
    decreases end
  {
    if first == end then 0.0
    else Admitted(b, lim, rs, first, end - 1) + (if Answer(b, lim, rs, end - 1).allowed then rs[end - 1].cost else 0.0)
  }

  // The forward movement of the clock from request first to request end - 1.
  function Advance(rs: seq<Request>, first: nat, end: nat): int
    requires first < end <= |rs|
    decreases end
  {
    if first + 1 == end then 0 else Advance(rs, first, end - 1) + Positive(rs[end - 1].now - rs[end - 2].now)
  }

  lemma {:induction false} AfterStaysInRange(b: Bucket, lim: Limits, rs: seq<Request>, n: nat)
    requires Sane(lim) && InRange(b, lim) && Costs(rs) && n <= |rs|
    ensures InRange(After(b, lim, rs, n), lim)
    ensures n > 0 ==> After(b, lim, rs, n).Held? && After(b, lim, rs, n).ts == rs[n - 1].now
  {
    hide Gain, InRange, Refilled;
    if n > 0 {
      AfterStaysInRange(b, lim, rs, n - 1);
      TakeStaysInRange(After(b, lim, rs, n - 1), lim, rs[n - 1].now, rs[n - 1].cost);
    }
  }

  // What is admitted from first on, plus what is left, never exceeds the burst
  // plus what the forward movement of the clock brought in.
  lemma {:induction false} WindowPotential(b: Bucket, lim: Limits, rs: seq<Request>, first: nat, end: nat)
    requires Sane(lim) && InRange(b, lim) && Costs(rs) && first < end <= |rs|
    ensures After(b, lim, rs, end).Held?
    ensures Admitted(b, lim, rs, first, end) + After(b, lim, rs, end).tokens
            <= lim.burst + Gain(lim, Advance(rs, first, end))
    decreases end
  {
    hide Gain;
    var before := After(b, lim, rs, end - 1);
    AfterStaysInRange(b, lim, rs, end - 1);
    TakeStaysInRange(before, lim, rs[end - 1].now, rs[end - 1].cost);
    GainGrows(lim, 0);
    if first + 1 < end {
      WindowPotential(b, lim, rs, first, end - 1);
      GainAdds(lim, Advance(rs, first, end - 1), Positive(rs[end - 1].now - rs[end - 2].now));
    } else {
      assert Admitted(b, lim, rs, first, first) == 0.0;
    }
  }

  // The admission bound for every window of every run, on any clock.
  lemma AdmissionBound(b: Bucket, lim: Limits, rs: seq<Request>, first: nat, end: nat)
    requires Sane(lim) && InRange(b, lim) && Costs(rs) && first < end <= |rs|
    ensures Admitted(b, lim, rs, first, end) <= lim.burst + Gain(lim, Advance(rs, first, end))
  {
    WindowPotential(b, lim, rs, first, end);
    AfterStaysInRange(b, lim, rs, end);
  }

  lemma {:induction false} AdvanceOfSteadyClock(rs: seq<Request>, first: nat, end: nat)
    requires first < end <= |rs|
    requires forall i :: first < i < end ==> rs[i - 1].now <= rs[i].now
    ensures Advance(rs, first, end) == rs[end - 1].now - rs[first].now
    decreases end
  {
    if first + 1 < end { AdvanceOfSteadyClock(rs, first, end - 1); }
  }

  // On a clock that never steps back: burst plus rate times the length of the window,
  // which is ms milliseconds.
  lemma SteadyAdmissionBound(b: Bucket, lim: Limits, rs: seq<Request>, first: nat, end: nat, ms: int)
    requires Sane(lim) && InRange(b, lim) && Costs(rs) && first < end <= |rs|
    requires forall i :: first < i < end ==> rs[i - 1].now <= rs[i].now
    requires ms == rs[end - 1].now - rs[first].now
    ensures Admitted(b, lim, rs, first, end) <= lim.burst + lim.rate * (ms as real / 1000.0)
  {
    assert lim.rate > 0.0;
    hide *;
    AdmissionBound(b, lim, rs, first, end);
    AdvanceOfSteadyClock(rs, first, end);
    WithinGain(lim, ms, Admitted(b, lim, rs, first, end));
  }

  lemma WithinGain(lim: Limits, ms: int, cost: real)
    requires cost <= lim.burst + Gain(lim, ms)
    ensures cost <= lim.burst + lim.rate * (ms as real / 1000.0)
  {
  }

  lemma GainIs(lim: Limits, ms: int)
    ensures Gain(lim, ms) == lim.rate * (ms as real / 1000.0)
  {
  }

  // --------------------------------------------- what a run is granted

  // What the run may have spent from request first to request i, which is burst
  // plus rate times the forward movement of the clock between them, less the cost
  // admitted among requests first..end.
  function Unspent(lim: Limits, rs: seq<Request>, first: nat, i: nat, end: nat): real
    requires lim.rate > 0.0 && first <= i < |rs| && first <= end <= |rs|
  {
    lim.burst + Gain(lim, Advance(rs, first, i + 1)) - Admitted(Fresh, lim, rs, first, end)
  }

  // What request i finds in the bucket of a fresh key.
  function Found(lim: Limits, rs: seq<Request>, i: nat): real
    requires lim.rate > 0.0 && i < |rs|
  {
    Refilled(After(Fresh, lim, rs, i), lim, rs[i].now)
  }

  // Every request finds the least of what is unspent since any request before it.
  lemma {:induction false} FoundIsLeast(lim: Limits, rs: seq<Request>, i: nat) returns (least: nat)
    requires lim.rate > 0.0 && i < |rs|
    ensures forall first :: 0 <= first <= i ==> Found(lim, rs, i) <= Unspent(lim, rs, first, i, i)
    ensures least <= i && Found(lim, rs, i) == Unspent(lim, rs, least, i, i)
  {
    hide Gain;
    GainIsNone(lim);
    least := i;
    if i > 0 {
      var before := FoundIsLeast(lim, rs, i - 1);
      forall first | 0 <= first <= i - 1
        ensures Unspent(lim, rs, first, i, i) - Unspent(lim, rs, before, i, i)
                == Unspent(lim, rs, first, i - 1, i - 1) - Unspent(lim, rs, before, i - 1, i - 1)
      {
        UnspentNext(lim, rs, first, i);
        UnspentNext(lim, rs, before, i);
      }
      UnspentNext(lim, rs, before, i);
      FoundNext(lim, rs, i);
      if Unspent(lim, rs, before, i, i) < lim.burst { least := before; }
    }
  }

  lemma GainIsNone(lim: Limits)
    ensures Gain(lim, 0) == 0.0
  {
  }

  // What one request pays.
  function Paid(lim: Limits, rs: seq<Request>, i: nat): real
    requires lim.rate > 0.0 && i < |rs|
  {
    if Answer(Fresh, lim, rs, i).allowed then rs[i].cost else 0.0
  }

  lemma FoundNext(lim: Limits, rs: seq<Request>, i: nat)
    requires lim.rate > 0.0 && 0 < i < |rs|
    ensures Found(lim, rs, i)
            == MinR(lim.burst, Found(lim, rs, i - 1) - Paid(lim, rs, i - 1) + Gain(lim, Positive(rs[i].now - rs[i - 1].now)))
  {
    hide Gain;
  }

  lemma UnspentNext(lim: Limits, rs: seq<Request>, first: nat, i: nat)
    requires lim.rate > 0.0 && first < i < |rs|
    ensures Unspent(lim, rs, first, i, i)
            == Unspent(lim, rs, first, i - 1, i - 1) - Paid(lim, rs, i - 1) + Gain(lim, Positive(rs[i].now - rs[i - 1].now))
  {
    hide Gain, Take;
    GainAdds(lim, Advance(rs, first, i), Positive(rs[i].now - rs[i - 1].now));
  }

  // A request on a fresh key is granted if and only if, counted from any request
  // before it and from itself, what was admitted and its own cost stay within
  // burst plus rate times the forward movement of the clock.
  lemma GrantedIff(lim: Limits, rs: seq<Request>, i: nat)
    requires lim.rate > 0.0 && i < |rs|
    ensures Answer(Fresh, lim, rs, i).allowed
            <==> forall first :: 0 <= first <= i ==>
                   Admitted(Fresh, lim, rs, first, i) + rs[i].cost <= lim.burst + lim.rate * (Advance(rs, first, i + 1) as real / 1000.0)
  {
    hide *;
    var least := FoundIsLeast(lim, rs, i);
    AllowedIff(lim, rs, i);
    if Answer(Fresh, lim, rs, i).allowed {
      forall first | 0 <= first <= i
        ensures Admitted(Fresh, lim, rs, first, i) + rs[i].cost <= lim.burst + lim.rate * (Advance(rs, first, i + 1) as real / 1000.0)
      {
        UnspentIs(lim, rs, first, i);
      }
    } else {
      UnspentIs(lim, rs, least, i);
    }
  }

  lemma UnspentIs(lim: Limits, rs: seq<Request>, first: nat, i: nat)
    requires lim.rate > 0.0 && first <= i < |rs|
    ensures Unspent(lim, rs, first, i, i) + Admitted(Fresh, lim, rs, first, i)
            == lim.burst + lim.rate * (Advance(rs, first, i + 1) as real / 1000.0)
  {
    hide Gain, Advance, Admitted;
    GainIs(lim, Advance(rs, first, i + 1));
    PlainRearranged(lim.burst, Gain(lim, Advance(rs, first, i + 1)), Admitted(Fresh, lim, rs, first, i));
  }

  lemma PlainRearranged(a: real, b: real, c: real)
    ensures a + b - c + c == a + b
  {
  }

  lemma AllowedIff(lim: Limits, rs: seq<Request>, i: nat)
    requires lim.rate > 0.0 && i < |rs|
    ensures Answer(Fresh, lim, rs, i).allowed <==> rs[i].cost <= Found(lim, rs, i)
  {
    hide Gain, After, Refilled;
  }

  // What is left of it after the decision on request i.
  function Left(lim: Limits, rs: seq<Request>, first: nat, i: nat): real
    requires lim.rate > 0.0 && first <= i < |rs|
  {
    Unspent(lim, rs, first, i, i + 1)
  }

  // What the client is told to have left is the whole part of the least of these.
  lemma RemainingIsLeast(lim: Limits, rs: seq<Request>, i: nat)
    requires lim.rate > 0.0 && i < |rs|
    ensures forall first :: 0 <= first <= i ==> Answer(Fresh, lim, rs, i).remaining <= Left(lim, rs, first, i).Floor
    ensures exists first :: 0 <= first <= i && Answer(Fresh, lim, rs, i).remaining == Left(lim, rs, first, i).Floor
  {
    var least := FoundIsLeast(lim, rs, i);
    RemainingIs(lim, rs, i);
    forall first | 0 <= first <= i
      ensures Left(lim, rs, first, i) == Unspent(lim, rs, first, i, i) - Paid(lim, rs, i)
    {
      LeftIs(lim, rs, first, i);
    }
    hide *;
    assert Answer(Fresh, lim, rs, i).remaining == Left(lim, rs, least, i).Floor;
  }

  lemma RemainingIs(lim: Limits, rs: seq<Request>, i: nat)
    requires lim.rate > 0.0 && i < |rs|
    ensures Answer(Fresh, lim, rs, i).remaining == (Found(lim, rs, i) - Paid(lim, rs, i)).Floor
  {
    hide Gain, After, Refilled;
  }

  lemma LeftIs(lim: Limits, rs: seq<Request>, first: nat, i: nat)
    requires lim.rate > 0.0 && first <= i < |rs|
    ensures Left(lim, rs, first, i) == Unspent(lim, rs, first, i, i) - Paid(lim, rs, i)
  {
    hide Gain, Take;
  }

  // --------------------------------------------- expiry

  function Ttl(lim: Limits): int
    requires lim.rate > 0.0
  {
    TimeToGain(lim, lim.burst) + 1000
  }

  lemma TimeToGainIsLeast(lim: Limits, tokens: real, ms: int)
    requires lim.rate > 0.0
    ensures ms >= TimeToGain(lim, tokens) <==> Gain(lim, ms) >= tokens
  {
    var x := tokens / lim.rate;
    assert x * lim.rate == tokens;
    CeilIsLeast(x * 1000.0, ms);
    assert ms as real >= x * 1000.0 <==> ms as real / 1000.0 >= x;
    ScaleKeepsOrder(ms as real / 1000.0, x, lim.rate);
  }

  lemma CeilIsLeast(x: real, n: int)
    ensures n >= Ceil(x) <==> n as real >= x
  {
  }

  lemma ScaleKeepsOrder(a: real, b: real, k: real)
    requires k > 0.0
    ensures a >= b <==> a * k >= b * k
  {
  }

  // By the time its key is gone a bucket would be full again.
  lemma ExpiryIsInvisible(b: Bucket, lim: Limits, now: int)
    requires Sane(lim) && InRange(b, lim) && b.Held? && now > b.ts + Ttl(lim)
    ensures Refilled(b, lim, now) == Refilled(Fresh, lim, now) == lim.burst
  {
    hide Gain, TimeToGain;
    TimeToGainIsLeast(lim, lim.burst, Positive(now - b.ts));
    TimeToGainIsLeast(lim, lim.burst, 0);
    GainGrows(lim, 0);
    NonNegativeTime(lim);
  }

  lemma NonNegativeTime(lim: Limits)
    requires Sane(lim)
    ensures TimeToGain(lim, lim.burst) >= 0
  {
    assert lim.burst / lim.rate * 1000.0 >= 0.0;
  }

  // --------------------------------------------- the limiter

  // The client is told the wait in seconds: the double nearest to it, rounded
  // to hundredths.
  function Hundredths(retryMs: nat): nat {
    ToHundredths(Nearest(retryMs, 1000))
  }

  datatype Reply = Reply(allowed: bool, remaining: int, retryHundredths: nat)

  function ReplyTo(d: Decision): Reply {
    Reply(d.allowed, d.remaining, if d.retryMs < 0 then 0 else Hundredths(d.retryMs))
  }

  // A wait is never negative, and a refused request has one.
  lemma WaitIsPositive(b: Bucket, lim: Limits, now: int, cost: real)
    requires lim.rate > 0.0
    ensures var d := Take(b, lim, now, cost).1; d.retryMs >= 0 && (d.allowed <==> d.retryMs == 0)
  {
    hide Refilled, TimeToGain;
    var missing := cost - Refilled(b, lim, now);
    if missing > 0.0 { TimeToGainIsLeast(lim, missing, 0); }
  }

  datatype Stored = Stored(bucket: Bucket, expireAt: int)

  class RateLimiter {
    const lim: Limits
    var stored: map<string, Stored>

    ghost predicate Valid()
      reads this
    {
      lim.rate > 0.0 ==>
        Sane(lim) && forall key :: key in stored ==>
          && stored[key].bucket.Held? && InRange(stored[key].bucket, lim)
          && stored[key].expireAt == stored[key].bucket.ts + Ttl(lim)
    }

    // The bucket of a key as if keys never expired.
    ghost function Kept(key: string): Bucket
      reads this
    {
      if key in stored then stored[key].bucket else Fresh
    }

    constructor (lim: Limits)
      requires lim.rate > 0.0 ==> lim.burst >= 0.0
      ensures Valid() && this.lim == lim && stored == map[]
    {
      this.lim := lim;
      stored := map[];
    }

    // The decision on a request is the one a bucket that never expires would
    // give; a limit switched off and an unreachable store let everything pass.
    method Check(key: string, now: int, cost: real, reachable: bool) returns (d: Reply)
      requires Valid() && cost >= 0.0
      modifies this`stored
      ensures Valid()
      ensures lim.rate > 0.0 && reachable ==>
                && d == ReplyTo(Take(old(Kept(key)), lim, now, cost).1)
                && Kept(key) == Take(old(Kept(key)), lim, now, cost).0
                && (forall other :: other != key ==> Kept(other) == old(Kept(other)))
      ensures lim.rate <= 0.0 || !reachable ==> d == Reply(true, 0, 0) && stored == old(stored)
    {
      if lim.rate <= 0.0 || !reachable {
        return Reply(true, 0, 0);
      }
      var bucket := Fresh;
      if key in stored && now <= stored[key].expireAt {
        bucket := stored[key].bucket;
      } else if key in stored {
        ExpiryIsInvisible(stored[key].bucket, lim, now);
      }
      TakeStaysInRange(bucket, lim, now, cost);
      var r := Take(bucket, lim, now, cost);
      stored := stored[key := Stored(r.0, now + Ttl(lim))];
      WaitIsPositive(bucket, lim, now, cost);
      d := Reply(r.1.allowed, r.1.remaining, Hundredths(r.1.retryMs));
    }
  }

  // --------------------------------------------- when to come back

  // Refused probes in between, on a clock that does not step back.
  ghost predicate Probes(b: Bucket, lim: Limits, now: int, rs: seq<Request>)
    requires lim.rate > 0.0
  {
    forall i :: 0 <= i < |rs| ==>
      && (if i == 0 then now else rs[i - 1].now) <= rs[i].now
      && !Answer(b, lim, rs, i).allowed
  }

  // Refused requests only write down the refill: the level is what it would be
  // had they never come.
  lemma {:induction false} ProbesLeaveNoTrace(b: Bucket, lim: Limits, rs: seq<Request>, n: nat)
    requires Sane(lim) && b.Held? && b.tokens <= lim.burst && Probes(b, lim, b.ts, rs) && n <= |rs|
    ensures var last := if n == 0 then b.ts else rs[n - 1].now;
            && last >= b.ts
            && After(b, lim, rs, n) == Held(MinR(lim.burst, b.tokens + Gain(lim, last - b.ts)), last)
  {
    hide Gain;
    GainGrows(lim, 0);
    if n > 0 {
      ProbesLeaveNoTrace(b, lim, rs, n - 1);
      var before := if n == 1 then b.ts else rs[n - 2].now;
      assert !Answer(b, lim, rs, n - 1).allowed;
      assert (if n - 1 == 0 then b.ts else rs[n - 1 - 1].now) <= rs[n - 1].now;
      assert before <= rs[n - 1].now;
      GainAdds(lim, before - b.ts, rs[n - 1].now - before);
      GainGrows(lim, rs[n - 1].now - before);
    }
  }

  // A refused request that fits the burst is granted from retryMs milliseconds
  // on and at no earlier millisecond, whatever refused probes come in between.
  lemma RetryIsExact(b: Bucket, lim: Limits, now: int, cost: real, probes: seq<Request>, at: int)
    requires Sane(lim) && InRange(b, lim) && 0.0 <= cost <= lim.burst
    requires !Take(b, lim, now, cost).1.allowed
    requires Probes(Take(b, lim, now, cost).0, lim, now, probes)
    requires at >= if probes == [] then now else probes[|probes| - 1].now
    ensures var later := After(Take(b, lim, now, cost).0, lim, probes, |probes|);
            Take(later, lim, at, cost).1.allowed <==> at >= now + Take(b, lim, now, cost).1.retryMs
  {
    hide Gain, TimeToGain;
    var first := Take(b, lim, now, cost).0;
    TakeStaysInRange(b, lim, now, cost);
    ProbesLeaveNoTrace(first, lim, probes, |probes|);
    var last := if probes == [] then now else probes[|probes| - 1].now;
    GainAdds(lim, last - now, at - last);
    GainGrows(lim, at - last);
    TimeToGainIsLeast(lim, cost - first.tokens, at - now);
  }

  // A request above the burst is never granted.
  lemma AboveBurstNeverGranted(b: Bucket, lim: Limits, now: int, cost: real)
    requires lim.rate > 0.0 && cost > lim.burst
    ensures !Take(b, lim, now, cost).1.allowed
  {
  }

  // In the header the double nearest to the hundredths is cut down to whole
  // seconds, but at least one.
  function RetryAfterHeader(retryMs: nat): nat {
    var s := Whole(Nearest(Hundredths(retryMs), 100));
    if s < 1 then 1 else s
  }

  // Waiting for the hundredths is enough exactly when rounding did not shorten
  // the wait; on a tie that depends on which side of it the double lies.
  lemma HundredthsSufficeIff(retryMs: nat)
    requires retryMs < Exact
    ensures 10 * Hundredths(retryMs) >= retryMs
            <==> retryMs % 10 == 0 || retryMs % 10 > 5 || (retryMs % 10 == 5 && TieGoesUp(retryMs))
  {
    HundredthsOf(retryMs);
    hide TieGoesUp, Hundredths;
    assert Hundredths(retryMs) == ToHundredths(Nearest(retryMs, 1000)) by { HundredthsIs(retryMs); }
  }

  lemma HundredthsIs(retryMs: nat)
    ensures Hundredths(retryMs) == ToHundredths(Nearest(retryMs, 1000))
  {
  }

  // The header is long enough exactly for waits of up to one second, of whole
  // seconds, within 4 ms below a whole second, and of 5 ms below one if the
  // double nearest to the wait lies above it.
  predicate HeaderCovers(retryMs: nat) {
    || retryMs <= 1000 || retryMs % 1000 == 0 || retryMs % 1000 >= 996
    || (retryMs % 1000 == 995 && TieGoesUp(retryMs))
  }

  lemma HeaderSufficesIff(retryMs: nat)
    requires retryMs < Exact
    ensures 1000 * RetryAfterHeader(retryMs) >= retryMs <==> HeaderCovers(retryMs)
  {
    HundredthsOf(retryMs);
    HundredthsIs(retryMs);
    var h, up := Hundredths(retryMs), TieGoesUp(retryMs);
    HeaderOf(retryMs, h);
    hide TieGoesUp, Hundredths, RetryAfterHeader, Nearest;
    Seconds(retryMs, h, up);
  }

  // The arithmetic of it.
  lemma Seconds(ms: nat, h: nat, up: bool)
    requires h == if ms % 10 < 5 || (ms % 10 == 5 && !up) then ms / 10 else ms / 10 + 1
    ensures 1000 * (if h / 100 < 1 then 1 else h / 100) >= ms
            <==> ms <= 1000 || ms % 1000 == 0 || ms % 1000 >= 996 || (ms % 1000 == 995 && up)
  {
    var s, r := ms / 1000, ms % 1000;
    assert ms / 10 == 100 * s + r / 10 && ms % 10 == r % 10;
    assert h / 100 == if r >= 996 || (r == 995 && up) then s + 1 else s by {
      assert h == 100 * s + r / 10 || h == 100 * s + r / 10 + 1;
    }
  }

  // So a client that waits as the header says and asks again, alone, is served
  // exactly then; otherwise it is refused again.
  lemma ObeyingHeaderServedIff(b: Bucket, lim: Limits, now: int, cost: real)
    requires Sane(lim) && InRange(b, lim) && 0.0 <= cost <= lim.burst
    requires !Take(b, lim, now, cost).1.allowed
    ensures var wait := Take(b, lim, now, cost).1.retryMs;
            && wait > 0
            && (wait < Exact ==>
                  (Take(Take(b, lim, now, cost).0, lim, now + 1000 * RetryAfterHeader(wait), cost).1.allowed
                   <==> HeaderCovers(wait)))
  {
    hide Refilled, RetryAfterHeader, TimeToGain, HeaderCovers;
    var wait := Take(b, lim, now, cost).1.retryMs;
    TimeToGainIsLeast(lim, cost - Refilled(b, lim, now), 0);
    if wait < Exact {
      HeaderSufficesIff(wait);
      HeaderIsPositive(wait);
      RetryIsExact(b, lim, now, cost, [], now + 1000 * RetryAfterHeader(wait));
    }
  }

  lemma HeaderIsPositive(retryMs: nat)
    ensures RetryAfterHeader(retryMs) >= 1
  {
  }

  lemma SmallPowers()
    ensures Pow2(3) == 8 && Pow2(7) == 128
  {
  }

  lemma BigPowers()
    ensures Pow2(49) == 562949953421312 && Pow2(52) == 4503599627370496
  {
    hide Pow2;
    SmallPowers();
    Pow2Adds(7, 7);
    Pow2Adds(14, 14);
    Pow2Adds(28, 14);
    Pow2Adds(42, 7);
    Pow2Adds(49, 3);
  }

  lemma Above1995()
    ensures Error(1995, 1000) == 480
  {
    BigPowers();
    ErrorAt(1995, 1000, 52);
    hide Error, Pow2;
    assert RoundDiv(8984681256604139520, 1000) == 8984681256604140;
  }

  lemma Below8995()
    ensures Error(8995, 1000) == -440
  {
    BigPowers();
    ErrorAt(8995, 1000, 49);
    hide Error, Pow2;
    assert RoundDiv(5063734831024701440, 1000) == 5063734831024701;
  }

  // Both sides of a tie occur: the double nearest to 8.995 lies below it, and
  // the client is told 8 s; the one nearest to 1.995 lies above, and it is told 2.
  lemma TiesGoBothWays()
    ensures !TieGoesUp(8995) && RetryAfterHeader(8995) == 8
    ensures TieGoesUp(1995) && RetryAfterHeader(1995) == 2
  {
    Below8995();
    Above1995();
    assert !TieGoesUp(8995) && TieGoesUp(1995);
    HundredthsOf(8995);
    HundredthsOf(1995);
    HundredthsIs(8995);
    HundredthsIs(1995);
    assert Hundredths(8995) == 899 && Hundredths(1995) == 200 by { hide Nearest, Error, ToHundredths, Hundredths, TieGoesUp; }
    HeaderOf(8995, 899);
    HeaderOf(1995, 200);
    hide *;
  }

  lemma HeaderOf(retryMs: nat, h: nat)
    requires h == Hundredths(retryMs) < Exact / 10 + 1
    ensures RetryAfterHeader(retryMs) == if h / 100 < 1 then 1 else h / 100
  {
    WholeOfHundredths(h);
    hide Hundredths, Nearest;
  }
}
