// Token deltas on their way from the engine to the event stream: the retry
// loop that drives one engine request, and the relay that batches its deltas.
//
// What the engine does on each attempt is a script: the chunks it sends and
// how the attempt ends.  Publishing can fail at any chunk.
module TokenStream {
  import opened Basics

  function Concat(parts: seq<string>): string {
    if parts == [] then "" else Concat(parts[..|parts| - 1]) + parts[|parts| - 1]
  }

  // --------------------------------------------- the relay

  datatype Payload = Payload(seqNo: nat, data: string)

  function Joined(ps: seq<Payload>): string {
    if ps == [] then "" else Joined(ps[..|ps| - 1]) + ps[|ps| - 1].data
  }

  class TokenRelay {
    const flushChars: int
    var buf: seq<string>
    var size: nat
    var seqNo: nat
    var issued: seq<Payload>   // handed to publish, in sequence order
    var lost: set<nat>         // the numbers of those whose publishing failed

    ghost predicate Valid()
      reads this
    {
      && size == |Concat(buf)|
      && |issued| == seqNo
      && (forall i :: 0 <= i < |issued| ==> issued[i].seqNo == i + 1)
      && (forall k :: k in lost ==> 1 <= k <= seqNo)
    }

    // All text ever given to the relay: what it has issued, then what it holds.
    ghost function Text(): string
      reads this
    {
      Joined(issued) + Concat(buf)
    }

    constructor (flushChars: int)
      ensures Valid() && Text() == "" && issued == [] && lost == {} && this.flushChars == flushChars
    {
      this.flushChars := flushChars;
      buf, size, seqNo, issued, lost := [], 0, 0, [], {};
    }

    // No delta is reordered or issued twice, and none waits once the buffer is
    // full or the flush interval has passed.  A publish that fails raises, and
    // loses what it was to publish, number and all, but nothing else.
    method Call(delta: string, late: bool, stored: bool) returns (raised: bool)
      requires Valid()
      modifies this
      ensures Valid() && Text() == old(Text()) + delta
      ensures old(issued) <= issued <= old(issued) + [Payload(old(seqNo) + 1, Concat(old(buf)) + delta)]
      ensures late || old(size) + |delta| >= flushChars <==> issued != old(issued)
      ensures issued != old(issued) ==> buf == []
      ensures flushChars > 0 ==> size < flushChars
      ensures raised <==> issued != old(issued) && !stored
      ensures seqNo == if issued == old(issued) then old(seqNo) else old(seqNo) + 1
      ensures lost == if raised then old(lost) + {old(seqNo) + 1} else old(lost)
    {
      buf := buf + [delta];
      assert buf[..|buf| - 1] == old(buf);
      size := size + |delta|;
      raised := false;
      if size >= flushChars || late {
        raised := Flush(stored);
      }
    }

    method Flush(stored: bool) returns (raised: bool)
      requires Valid()
      modifies this
      ensures Valid() && Text() == old(Text()) && buf == []
      ensures issued == if old(buf) == [] then old(issued)
                        else old(issued) + [Payload(old(seqNo) + 1, Concat(old(buf)))]
      ensures raised <==> old(buf) != [] && !stored
      ensures seqNo == if old(buf) == [] then old(seqNo) else old(seqNo) + 1
      ensures lost == if raised then old(lost) + {old(seqNo) + 1} else old(lost)
    {
      if buf == [] {
        return false;
      }
      var payload := Concat(buf);
      buf, size := [], 0;
      seqNo := seqNo + 1;
      issued := issued + [Payload(seqNo, payload)];
      assert issued[..|issued| - 1] == old(issued);
      if !stored {
        lost := lost + {seqNo};
      }
      return !stored;
    }
  }

  // --------------------------------------------- the engine's script

  // Token counts as the engine reports them; zero stands for absent.
  datatype Usage = Usage(completion: nat, prompt: nat)

  // stored says that publishing succeeds if the chunk makes the relay publish.
  datatype Chunk = Chunk(usage: Usage, delta: string, late: bool, stored: bool)

  datatype Fault = Clean | Transient | Fatal

  datatype Attempt = Attempt(chunks: seq<Chunk>, fault: Fault)

  function Deltas(chunks: seq<Chunk>, n: nat): string
    requires n <= |chunks|
  {
    if n == 0 then "" else Deltas(chunks, n - 1) + chunks[n - 1].delta
  }

  function TextOf(a: Attempt): string { Deltas(a.chunks, |a.chunks|) }

  // One chunk's effect on the completion and prompt tokens.
  function Count(t: Usage, c: Chunk): Usage {
    var prompt := if c.usage.prompt != 0 then c.usage.prompt else t.prompt;
    var completion := if c.usage.completion != 0 then c.usage.completion else t.completion;
    Usage(if c.delta != "" && prompt == 0 then completion + 1 else completion, prompt)
  }

  function Tally(before: Usage, chunks: seq<Chunk>, n: nat): Usage
    requires n <= |chunks|
  {
    if n == 0 then before else Count(Tally(before, chunks, n - 1), chunks[n - 1])
  }

  // How many attempts are made: up to the first that is not a transient failure.
  function Tries(script: seq<Attempt>, maxRetries: nat): (n: nat)
    requires |script| > maxRetries
    ensures 1 <= n <= maxRetries + 1
    ensures forall i :: 0 <= i < n - 1 ==> script[i].fault.Transient?
    ensures n == maxRetries + 1 || !script[n - 1].fault.Transient?
  {
    if maxRetries == 0 || !script[0].fault.Transient? then 1 else 1 + Tries(script[1..], maxRetries - 1)
  }

  // Everything emitted by the first n attempts.
  function Emitted(script: seq<Attempt>, n: nat): string
    requires n <= |script|
  {
    if n == 0 then "" else Emitted(script, n - 1) + TextOf(script[n - 1])
  }

  // The prompt count carried into attempt n: it survives a retry.
  function PromptBefore(script: seq<Attempt>, n: nat): nat
    requires n <= |script|
  {
    if n == 0 then 0
    else Tally(Usage(0, PromptBefore(script, n - 1)), script[n - 1].chunks, |script[n - 1].chunks|).prompt
  }

  // The completion count a request ends with if the given attempt is its last.
  function Completion(script: seq<Attempt>, attempt: nat): nat
    requires attempt < |script|
  {
    Tally(Usage(0, PromptBefore(script, attempt)), script[attempt].chunks, |script[attempt].chunks|).completion
  }

  // --------------------------------------------- the client

  class StreamStats {
    var text: string
    var completionTokens: nat
    var promptTokens: nat
    var attempts: int
    var failed: bool

    constructor ()
      ensures text == "" && completionTokens == 0 && promptTokens == 0 && attempts == 1 && !failed
    {
      text, completionTokens, promptTokens, attempts, failed := "", 0, 0, 1, false;
    }

    ghost function Tokens(): Usage
      reads this
    {
      Usage(completionTokens, promptTokens)
    }

    method ConsumeChunk(c: Chunk, relay: TokenRelay) returns (raised: bool)
      requires relay.Valid()
      modifies this, relay
      ensures relay.Valid() && relay.Text() == old(relay.Text()) + c.delta
      ensures text == old(text) + c.delta && Tokens() == Count(old(Tokens()), c)
      ensures attempts == old(attempts) && failed == old(failed)
      ensures raised ==> !c.stored
      ensures relay.lost == if raised then old(relay.lost) + {relay.seqNo} else old(relay.lost)
    {
      if c.usage.completion != 0 {
        completionTokens := c.usage.completion;
      }
      if c.usage.prompt != 0 {
        promptTokens := c.usage.prompt;
      }
      raised := false;
      if c.delta != "" {
        text := text + c.delta;
        if promptTokens == 0 {
          completionTokens := completionTokens + 1;
        }
        raised := relay.Call(c.delta, c.late, c.stored);
      }
    }

    // Drives one response into the statistics and, delta by delta, the relay, up to
    // its end or to the chunk at which publishing fails.
    method ConsumeStream(a: Attempt, relay: TokenRelay) returns (used: nat, raised: bool)
      requires relay.Valid()
      modifies this, relay
      ensures used <= |a.chunks| && relay.Valid() && relay.Text() == old(relay.Text()) + Deltas(a.chunks, used)
      ensures text == old(text) + Deltas(a.chunks, used) && Tokens() == Tally(old(Tokens()), a.chunks, used)
      ensures attempts == old(attempts) && failed == old(failed)
      ensures if raised then used > 0 && !a.chunks[used - 1].stored else used == |a.chunks|
      ensures relay.lost == if raised then old(relay.lost) + {relay.seqNo} else old(relay.lost)
    {
      hide Count, TokenRelay.Valid, TokenRelay.Text;
      ghost var text0, tokens0, given0 := text, Tokens(), relay.Text();
      for i := 0 to |a.chunks|
        invariant relay.Valid() && relay.Text() == given0 + Deltas(a.chunks, i)
        invariant text == text0 + Deltas(a.chunks, i) && Tokens() == Tally(tokens0, a.chunks, i)
        invariant attempts == old(attempts) && failed == old(failed) && relay.lost == old(relay.lost)
      {
        Associates(given0, Deltas(a.chunks, i), a.chunks[i].delta);
        Associates(text0, Deltas(a.chunks, i), a.chunks[i].delta);
        raised := ConsumeChunk(a.chunks[i], relay);
        if raised {
          return i + 1, true;
        }
      }
      return |a.chunks|, false;
    }
  }

  // --------------------------------------------- what is played

  // A script as it goes: if publishing fails the attempt ends there, and for good.
  function CutAt(a: Attempt, used: nat): Attempt
    requires used <= |a.chunks|
  {
    Attempt(a.chunks[..used], Fatal)
  }

  ghost predicate Plays(played: Attempt, a: Attempt) {
    played == a || exists used :: 0 < used <= |a.chunks| && !a.chunks[used - 1].stored && played == CutAt(a, used)
  }

  lemma {:induction false} CutText(chunks: seq<Chunk>, used: nat, n: nat, before: Usage)
    requires n <= used <= |chunks|
    ensures Deltas(chunks[..used], n) == Deltas(chunks, n) && Tally(before, chunks[..used], n) == Tally(before, chunks, n)
  {
    if n > 0 { CutText(chunks, used, n - 1, before); }
  }

  ghost predicate AllStored(script: seq<Attempt>) {
    forall i, k :: 0 <= i < |script| && 0 <= k < |script[i].chunks| ==> script[i].chunks[k].stored
  }

  // Attempts as they go: all but the last end in a transient failure, and the last
  // does only if there are no retries left.
  ghost predicate Played(played: seq<Attempt>, script: seq<Attempt>, maxRetries: nat) {
    && 1 <= |played| <= maxRetries + 1 && |played| <= |script|
    && (forall i :: 0 <= i < |played| ==> Plays(played[i], script[i]))
    && (forall i :: 0 <= i < |played| - 1 ==> played[i].fault.Transient?)
    && (|played| == maxRetries + 1 || !played[|played| - 1].fault.Transient?)
  }

  // One round of the retry loop; again says that there is another.
  method TryOnce(stats: StreamStats, a: Attempt, attempt: nat, maxRetries: int, relay: TokenRelay)
    returns (again: bool, ghost played: Attempt)
    requires relay.Valid() && stats.text == "" && stats.completionTokens == 0
    modifies stats, relay
    ensures Plays(played, a) && relay.Valid() && relay.Text() == old(relay.Text()) + TextOf(played)
    ensures again <==> played.fault.Transient? && attempt <= maxRetries
    ensures var t := Tally(Usage(0, old(stats.promptTokens)), played.chunks, |played.chunks|);
            && stats.promptTokens == t.prompt
            && stats.completionTokens == (if again then 0 else t.completion)
            && stats.text == (if again then "" else TextOf(played))
    ensures stats.attempts == attempt && stats.failed == !played.fault.Clean?
    ensures relay.lost == old(relay.lost) || (!again && relay.lost == old(relay.lost) + {relay.seqNo})
  {
    hide TokenRelay.Valid, TokenRelay.Text;
    ghost var before := stats.Tokens();
    stats.attempts := attempt;
    var used, raised := stats.ConsumeStream(a, relay);
    played := if raised then CutAt(a, used) else a;
    CutText(a.chunks, used, used, before);
    if !raised && a.fault.Clean? {
      stats.failed := false;
      return false, played;
    }
    stats.failed := true;
    if raised || !a.fault.Transient? || attempt > maxRetries {
      return false, played;
    }
    stats.text, stats.completionTokens := "", 0;
    return true, played;
  }

  // The retry loop: every delta of every attempt reaches the relay in order, and
  // the statistics are those of the last attempt alone.  A publish that fails ends
  // the request, so at most one payload is lost.
  method OcrPageStream(script: seq<Attempt>, maxRetries: int, relay: TokenRelay)
    returns (stats: StreamStats, ghost played: seq<Attempt>)
    requires relay.Valid() && |script| > maxRetries
    modifies relay
    ensures fresh(stats) && relay.Valid()
    ensures maxRetries < 0 ==> stats.attempts == 1 && stats.text == "" && relay.Text() == old(relay.Text()) && played == []
    ensures maxRetries >= 0 ==>
            var n := |played|;
            && Played(played, script, maxRetries)
            && stats.attempts == n
            && stats.text == TextOf(played[n - 1])
            && relay.Text() == old(relay.Text()) + Emitted(played, n)
            && EndsIn(relay.Text(), stats.text)
            && stats.failed == !played[n - 1].fault.Clean?
            && stats.completionTokens == Completion(played, n - 1)
            && stats.promptTokens == PromptBefore(played, n)
    ensures relay.lost == old(relay.lost) || relay.lost == old(relay.lost) + {relay.seqNo}
  {
    hide Tally, TextOf, TokenRelay.Valid, TokenRelay.Text, Plays, CutAt;
    stats := new StreamStats();
    played := [];
    ghost var given := relay.Text();
    if maxRetries < 0 {
      return;
    }
    var attempt := 1;
    var again := true;
    while again
      invariant 1 <= attempt <= maxRetries + 2 && fresh(stats) && relay.Valid() && |played| == attempt - 1
      invariant again ==> attempt <= maxRetries + 1 && relay.lost == old(relay.lost)
      invariant forall i :: 0 <= i < |played| ==> Plays(played[i], script[i])
      invariant forall i :: 0 <= i < |played| - 1 ==> played[i].fault.Transient?
      invariant again && attempt > 1 ==> played[attempt - 2].fault.Transient?
      invariant relay.Text() == given + Emitted(played, |played|)
      invariant again ==> stats.text == "" && stats.completionTokens == 0
                          && stats.promptTokens == PromptBefore(played, |played|)
      invariant !again ==>
                  && attempt > 1 && (attempt == maxRetries + 2 || !played[attempt - 2].fault.Transient?)
                  && stats.text == TextOf(played[attempt - 2])
                  && stats.attempts == attempt - 1 && stats.failed == !played[attempt - 2].fault.Clean?
                  && stats.completionTokens == Completion(played, attempt - 2)
      invariant stats.promptTokens == PromptBefore(played, |played|)
      invariant relay.lost == old(relay.lost) || relay.lost == old(relay.lost) + {relay.seqNo}
      decreases maxRetries + 2 - attempt
    {
      ghost var p;
      again, p := TryOnce(stats, script[attempt - 1], attempt, maxRetries, relay);
      Longer(played, p);
      Associates(given, Emitted(played, |played|), TextOf(p));
      played := played + [p];
      attempt := attempt + 1;
    }
    EmittedEndsInLast(played, |played|);
    EndsInLonger(given, Emitted(played, |played|), stats.text);
  }

  // Attempts added later change nothing about those before.
  lemma {:induction false} SameBefore(script: seq<Attempt>, a: Attempt, n: nat)
    requires n <= |script|
    ensures Emitted(script + [a], n) == Emitted(script, n) && PromptBefore(script + [a], n) == PromptBefore(script, n)
  {
    if n > 0 { SameBefore(script, a, n - 1); }
  }

  lemma Longer(script: seq<Attempt>, a: Attempt)
    ensures var longer, n := script + [a], |script|;
            && Emitted(longer, n) == Emitted(script, n) && PromptBefore(longer, n) == PromptBefore(script, n)
            && Emitted(longer, n + 1) == Emitted(script, n) + TextOf(a)
            && PromptBefore(longer, n + 1) == Tally(Usage(0, PromptBefore(script, n)), a.chunks, |a.chunks|).prompt
  {
    SameBefore(script, a, |script|);
  }

  predicate EndsIn(s: string, part: string) { |part| <= |s| && s[|s| - |part|..] == part }

  lemma EndsInLonger(before: string, s: string, part: string)
    requires EndsIn(s, part)
    ensures EndsIn(before + s, part)
  {
    assert (before + s)[|before| + (|s| - |part|)..] == s[|s| - |part|..];
  }

  // When no publish fails the attempts made are those of the script, up to the
  // first that is not a transient failure.
  lemma PlayedIsScript(played: seq<Attempt>, script: seq<Attempt>, maxRetries: nat)
    requires Played(played, script, maxRetries) && AllStored(script) && |script| > maxRetries
    ensures played == script[..|played|] && |played| == Tries(script, maxRetries)
  {
    forall i | 0 <= i < |played| ensures played[i] == script[i] { assert Plays(played[i], script[i]); }
    TriesIs(script, maxRetries, |played|);
  }

  lemma TriesIs(script: seq<Attempt>, maxRetries: nat, n: nat)
    requires |script| > maxRetries && 1 <= n <= maxRetries + 1
    requires forall i :: 0 <= i < n - 1 ==> script[i].fault.Transient?
    requires n == maxRetries + 1 || !script[n - 1].fault.Transient?
    ensures Tries(script, maxRetries) == n
  {
  }

  // --------------------------------------------- what the client sees

  lemma EmittedEndsInLast(script: seq<Attempt>, n: nat)
    requires 1 <= n <= |script|
    ensures EndsIn(Emitted(script, n), TextOf(script[n - 1]))
  {
  }

  lemma {:induction false} EmittedNothingIff(script: seq<Attempt>, n: nat)
    requires n <= |script|
    ensures Emitted(script, n) == "" <==> forall i :: 0 <= i < n ==> TextOf(script[i]) == ""
  {
    if n > 0 { EmittedNothingIff(script, n - 1); }
  }

  // The stream carries exactly the final text if and only if no attempt that
  // was retried had emitted anything; otherwise it repeats text.
  lemma StreamIsTextIff(played: seq<Attempt>)
    requires played != []
    ensures var n := |played|;
            Emitted(played, n) == TextOf(played[n - 1])
            <==> forall i :: 0 <= i < n - 1 ==> TextOf(played[i]) == ""
  {
    var n := |played|;
    EmittedNothingIff(played, n - 1);
    assert Emitted(played, n) == Emitted(played, n - 1) + TextOf(played[n - 1]);
  }

  // A transient failure in mid-stream is retried although tokens were emitted.
  lemma RetryCanFollowTokens()
    ensures exists script: seq<Attempt> ::
              && |script| > 2 && TextOf(script[0]) != ""
              && Tries(script, 2) == 2 && Emitted(script, 2) == "abab" && TextOf(script[1]) == "ab"
  {
    var c := Chunk(Usage(0, 0), "ab", false, true);
    var script := [Attempt([c], Transient), Attempt([c], Clean), Attempt([], Clean)];
    assert Deltas([c], 0) == "" && Deltas([c], 1) == "ab";
    TriesIs(script, 2, 2);
    assert TextOf(script[0]) == "ab" && TextOf(script[1]) == "ab";
    assert Emitted(script, 0) == "" && Emitted(script, 1) == "" + TextOf(script[0]);
    assert Emitted(script, 2) == Emitted(script, 1) + TextOf(script[1]);
    hide *;
    assert "" + "ab" == "ab" && "ab" + "ab" == "abab";
  }

  function NonEmpty(chunks: seq<Chunk>, n: nat): nat
    requires n <= |chunks|
  {
    if n == 0 then 0 else NonEmpty(chunks, n - 1) + (if chunks[n - 1].delta != "" then 1 else 0)
  }

  ghost predicate NoUsage(chunks: seq<Chunk>) {
    forall i :: 0 <= i < |chunks| ==> chunks[i].usage == Usage(0, 0)
  }

  lemma {:induction false} TallyWithoutUsage(prompt: nat, chunks: seq<Chunk>, n: nat)
    requires n <= |chunks|
    requires NoUsage(chunks)
    ensures Tally(Usage(0, prompt), chunks, n) == Usage(if prompt == 0 then NonEmpty(chunks, n) else 0, prompt)
  {
    if n > 0 { TallyWithoutUsage(prompt, chunks, n - 1); }
  }

  // Without usage reports in the last attempt its tokens are the deltas it sent,
  // unless a failed attempt before it had reported a prompt count: that survives
  // the retry and switches the counting off.
  lemma FallbackCountIff(script: seq<Attempt>, n: nat)
    requires 1 <= n <= |script|
    requires NoUsage(script[n - 1].chunks)
    ensures var last := script[n - 1].chunks;
            Completion(script, n - 1) == NonEmpty(last, |last|)
            <==> PromptBefore(script, n - 1) == 0 || NonEmpty(last, |last|) == 0
  {
    var last := script[n - 1].chunks;
    TallyWithoutUsage(PromptBefore(script, n - 1), last, |last|);
  }

  // Chunk k brings the last completion count of them all.
  ghost predicate LastReport(chunks: seq<Chunk>, k: nat) {
    k < |chunks| && chunks[k].usage.completion != 0 && forall i :: k < i < |chunks| ==> chunks[i].usage.completion == 0
  }

  ghost predicate NoReport(chunks: seq<Chunk>) { forall i :: 0 <= i < |chunks| ==> chunks[i].usage.completion == 0 }

  ghost predicate NoPrompt(chunks: seq<Chunk>, n: nat) {
    forall i :: 0 <= i < n && i < |chunks| ==> chunks[i].usage.prompt == 0
  }

  // No prompt count has come yet: not with an attempt before the given one, and not
  // with its chunks up to the m-th.
  ghost predicate PromptUnknown(script: seq<Attempt>, attempt: nat, m: nat)
    requires attempt < |script|
  {
    && (forall a :: 0 <= a < attempt ==> NoPrompt(script[a].chunks, |script[a].chunks|))
    && NoPrompt(script[attempt].chunks, m + 1)
  }

  // The deltas among chunks lo..hi of an attempt that come while no prompt count is
  // known.
  ghost function Uncounted(script: seq<Attempt>, attempt: nat, lo: nat, hi: nat): set<nat>
    requires attempt < |script| && hi <= |script[attempt].chunks|
  {
    set i: nat | lo <= i < hi && script[attempt].chunks[i].delta != "" && PromptUnknown(script, attempt, i)
  }

  lemma {:induction false} TallyPrompt(before: Usage, chunks: seq<Chunk>, m: nat)
    requires m <= |chunks|
    ensures Tally(before, chunks, m).prompt == 0 <==> before.prompt == 0 && NoPrompt(chunks, m)
    ensures forall k :: 0 <= k < m && chunks[k].usage.prompt != 0 && (forall i :: k < i < m ==> chunks[i].usage.prompt == 0)
              ==> Tally(before, chunks, m).prompt == chunks[k].usage.prompt
    ensures NoPrompt(chunks, m) ==> Tally(before, chunks, m).prompt == before.prompt
  {
    if m > 0 { TallyPrompt(before, chunks, m - 1); }
  }

  lemma {:induction false} PromptBeforeUnknown(script: seq<Attempt>, n: nat)
    requires n <= |script|
    ensures PromptBefore(script, n) == 0 <==> forall a :: 0 <= a < n ==> NoPrompt(script[a].chunks, |script[a].chunks|)
  {
    if n > 0 {
      PromptBeforeUnknown(script, n - 1);
      TallyPrompt(Usage(0, PromptBefore(script, n - 1)), script[n - 1].chunks, |script[n - 1].chunks|);
    }
  }

  // The prompt count is the last that any attempt reported.
  lemma {:induction false} PromptIsLastReport(script: seq<Attempt>, n: nat, a: nat, k: nat)
    requires a < n <= |script| && k < |script[a].chunks| && script[a].chunks[k].usage.prompt != 0
    requires forall i :: k < i < |script[a].chunks| ==> script[a].chunks[i].usage.prompt == 0
    requires forall b :: a < b < n ==> NoPrompt(script[b].chunks, |script[b].chunks|)
    ensures PromptBefore(script, n) == script[a].chunks[k].usage.prompt
  {
    TallyPrompt(Usage(0, PromptBefore(script, n - 1)), script[n - 1].chunks, |script[n - 1].chunks|);
    if a < n - 1 { PromptIsLastReport(script, n - 1, a, k); }
  }

  lemma UncountedNext(script: seq<Attempt>, attempt: nat, lo: nat, hi: nat)
    requires attempt < |script| && lo <= hi < |script[attempt].chunks|
    ensures |Uncounted(script, attempt, lo, hi + 1)| == |Uncounted(script, attempt, lo, hi)|
            + if script[attempt].chunks[hi].delta != "" && PromptUnknown(script, attempt, hi) then 1 else 0
  {
    var counts := script[attempt].chunks[hi].delta != "" && PromptUnknown(script, attempt, hi);
    hide PromptUnknown;
    assert Uncounted(script, attempt, lo, hi + 1) == Uncounted(script, attempt, lo, hi) + if counts then {hi} else {};
  }

  // From chunk lo on, nothing reported, the uncounted deltas are what is added.
  lemma {:induction false} TallyAdds(script: seq<Attempt>, attempt: nat, lo: nat, hi: nat)
    requires attempt < |script| && lo <= hi <= |script[attempt].chunks|
    requires forall i :: lo <= i < hi ==> script[attempt].chunks[i].usage.completion == 0
    ensures var before, chunks := Usage(0, PromptBefore(script, attempt)), script[attempt].chunks;
            Tally(before, chunks, hi).completion == Tally(before, chunks, lo).completion + |Uncounted(script, attempt, lo, hi)|
    decreases hi
  {
    if lo < hi {
      TallyAdds(script, attempt, lo, hi - 1);
      UncountedNext(script, attempt, lo, hi - 1);
      PromptBeforeUnknown(script, attempt);
      TallyPrompt(Usage(0, PromptBefore(script, attempt)), script[attempt].chunks, hi);
      hide Uncounted, PromptBefore;
    } else {
      assert Uncounted(script, attempt, lo, hi) == {};
    }
  }

  // The completion count is the last one the last attempt reported, plus the deltas
  // from that report on that came before any prompt count was known; without a
  // report it is those deltas alone.
  lemma CompletionCount(script: seq<Attempt>, attempt: nat)
    requires attempt < |script|
    ensures var last := script[attempt].chunks;
            && (NoReport(last) ==> Completion(script, attempt) == |Uncounted(script, attempt, 0, |last|)|)
            && (forall k: nat :: LastReport(last, k) ==>
                  Completion(script, attempt) == last[k].usage.completion + |Uncounted(script, attempt, k, |last|)|)
  {
    var last := script[attempt].chunks;
    if NoReport(last) { TallyAdds(script, attempt, 0, |last|); }
    forall k: nat | LastReport(last, k)
      ensures Completion(script, attempt) == last[k].usage.completion + |Uncounted(script, attempt, k, |last|)|
    {
      TallyAfterReport(script, attempt, k);
    }
  }

  lemma TallyAfterReport(script: seq<Attempt>, attempt: nat, k: nat)
    requires attempt < |script| && LastReport(script[attempt].chunks, k)
    ensures var last := script[attempt].chunks;
            Completion(script, attempt) == last[k].usage.completion + |Uncounted(script, attempt, k, |last|)|
  {
    var last := script[attempt].chunks;
    TallyAdds(script, attempt, k + 1, |last|);
    PromptBeforeUnknown(script, attempt);
    TallyPrompt(Usage(0, PromptBefore(script, attempt)), last, k + 1);
    UncountedAfter(script, attempt, k, |last|);
    hide Uncounted, PromptBefore;
  }

  lemma UncountedAfter(script: seq<Attempt>, attempt: nat, lo: nat, hi: nat)
    requires attempt < |script| && lo < hi <= |script[attempt].chunks|
    ensures |Uncounted(script, attempt, lo, hi)| == |Uncounted(script, attempt, lo + 1, hi)|
            + if script[attempt].chunks[lo].delta != "" && PromptUnknown(script, attempt, lo) then 1 else 0
  {
    var counts := script[attempt].chunks[lo].delta != "" && PromptUnknown(script, attempt, lo);
    hide PromptUnknown;
    assert Uncounted(script, attempt, lo, hi) == Uncounted(script, attempt, lo + 1, hi) + if counts then {lo} else {};
  }

  // So a report that comes with a prompt count, or after one, is the count.
  lemma ReportIsCount(script: seq<Attempt>, attempt: nat, k: nat)
    requires attempt < |script| && LastReport(script[attempt].chunks, k) && !PromptUnknown(script, attempt, k)
    ensures Completion(script, attempt) == script[attempt].chunks[k].usage.completion
  {
    TallyAfterReport(script, attempt, k);
    assert Uncounted(script, attempt, k, |script[attempt].chunks|) == {};
  }

  // --------------------------------------------- the regions of a page

  // The regions of a page are read at the same time and share one relay: what
  // reaches it is their deltas, and their closing flushes, in any interleaving.
  datatype Act = Delta(region: nat, text: string, late: bool, stored: bool) | Finish(region: nat, stored: bool)

  function SpokenBy(act: Act): string { if act.Delta? then act.text else "" }

  // All that is said, and who says each character of it.
  function Spoken(acts: seq<Act>): string {
    if acts == [] then "" else Spoken(acts[..|acts| - 1]) + SpokenBy(acts[|acts| - 1])
  }

  function Speakers(acts: seq<Act>): (who: seq<nat>)
    ensures |who| == |Spoken(acts)|
  {
    if acts == [] then []
    else
      var act := acts[|acts| - 1];
      Speakers(acts[..|acts| - 1]) + seq(|SpokenBy(act)|, _ => act.region)
  }

  // What one region says.
  function Said(acts: seq<Act>, region: nat): string {
    if acts == [] then ""
    else
      var act := acts[|acts| - 1];
      Said(acts[..|acts| - 1], region) + (if act.region == region then SpokenBy(act) else "")
  }

  // The characters of s that are marked with k.
  function Marked(s: string, marks: seq<nat>, k: nat): string
    requires |s| == |marks|
  {
    if s == [] then []
    else Marked(s[..|s| - 1], marks[..|s| - 1], k) + (if marks[|s| - 1] == k then [s[|s| - 1]] else [])
  }

  lemma {:induction false} MarkedJoins(s: string, marks: seq<nat>, more: string, who: nat, k: nat)
    requires |s| == |marks|
    ensures Marked(s + more, marks + seq(|more|, _ => who), k)
            == Marked(s, marks, k) + (if who == k then more else [])
  {
    var marks' := marks + seq(|more|, _ => who);
    if more == [] {
      assert s + more == s && marks' == marks;
    } else {
      var m := |more| - 1;
      MarkedJoins(s, marks, more[..m], who, k);
      assert (s + more)[..|s| + m] == s + more[..m];
      assert marks'[..|s| + m] == marks + seq(m, _ => who);
      assert more == more[..m] + [more[m]];
      assert (s + more)[|s| + m] == more[m] && marks'[|s| + m] == who;
    }
  }

  // Nothing a region says is lost, changed or reordered: its characters, picked
  // out of all that is said, are what it said.
  lemma {:induction false} EachIsHeard(acts: seq<Act>, region: nat)
    ensures Marked(Spoken(acts), Speakers(acts), region) == Said(acts, region)
  {
    if acts != [] {
      var before, act := acts[..|acts| - 1], acts[|acts| - 1];
      EachIsHeard(before, region);
      MarkedJoins(Spoken(before), Speakers(before), SpokenBy(act), act.region, region);
    }
  }

  // Whatever the interleaving, the relay holds or has issued exactly what was said,
  // all of it once the last act is a closing flush; and what is lost are payloads
  // whose publishing failed.
  method RelayPage(acts: seq<Act>, relay: TokenRelay)
    requires relay.Valid()
    modifies relay
    ensures relay.Valid() && relay.Text() == old(relay.Text()) + Spoken(acts)
    ensures acts != [] && acts[|acts| - 1].Finish? ==> Joined(relay.issued) == relay.Text()
    ensures forall region :: Marked(Spoken(acts), Speakers(acts), region) == Said(acts, region)
    ensures old(relay.lost) <= relay.lost
    ensures forall k :: k in relay.lost ==> k in old(relay.lost) || old(relay.seqNo) < k <= relay.seqNo
    ensures (forall i :: 0 <= i < |acts| ==> acts[i].stored) ==> relay.lost == old(relay.lost)
  {
    ghost var given := relay.Text();
    for i := 0 to |acts|
      invariant relay.Valid() && relay.Text() == given + Spoken(acts[..i])
      invariant i > 0 && acts[i - 1].Finish? ==> relay.buf == []
      invariant old(relay.seqNo) <= relay.seqNo && old(relay.lost) <= relay.lost
      invariant forall k :: k in relay.lost ==> k in old(relay.lost) || old(relay.seqNo) < k <= relay.seqNo
      invariant (forall k :: 0 <= k < i ==> acts[k].stored) ==> relay.lost == old(relay.lost)
    {
      SpokenNext(acts, i);
      Associates(given, Spoken(acts[..i]), SpokenBy(acts[i]));
      var raised: bool;
      match acts[i] {
        case Delta(_, text, late, stored) => raised := relay.Call(text, late, stored);
        case Finish(_, stored) => raised := relay.Flush(stored);
      }
    }
    assert acts[..|acts|] == acts;
    forall region ensures Marked(Spoken(acts), Speakers(acts), region) == Said(acts, region) {
      EachIsHeard(acts, region);
    }
  }

  lemma SpokenNext(acts: seq<Act>, i: nat)
    requires i < |acts|
    ensures Spoken(acts[..i + 1]) == Spoken(acts[..i]) + SpokenBy(acts[i])
  {
    assert acts[..i + 1][..i] == acts[..i];
  }
}
