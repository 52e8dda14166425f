// The pages of one job as concurrent tasks.  A task needs one of a few slots;
// a page whose image hash was seen before waits, slot in hand, for the page
// that is being read.  Steps are the stretches between two awaits; a task can
// raise at each await but the one for another page.
module PageSchedule {
  import Sorting

  datatype Kind = Native | Blank | Scan(hash: int)

  // What the scheduler is given: the pages, the limits, and what reading a page,
  // in full or in part, and filtering its text yield.
  datatype Job = Job(kinds: seq<Kind>, slots: nat, prefetch: nat, dedupe: bool,
                     native: nat -> string, stitched: nat -> string, partial: nat -> string, filter: string -> string)

  // A task that raises before its page is in the result is dropped, with the
  // text its duplicates wait for handed to them or not; one that raises later
  // has its page in the result, counted or not.
  datatype Pc =
    | Absent | Queued | Preparing | Waiting(original: nat) | Announcing | Reading
    | Appended | Publishing | Finished
    | Dropped(resolved: bool) | Broken(counted: bool)

  datatype Source = FromText | FromBlank | FromOcr | FromDuplicate(of: nat)

  datatype Page = Page(index: nat, text: string, source: Source)

  datatype State = State(pcs: seq<Pc>, created: nat, dedupe: map<int, nat>, pages: seq<Page>, done: nat)

  datatype Step =
    | Create | Acquire(i: nat) | Look(i: nat) | Announce(i: nat) | Resolve(i: nat) | Wake(i: nat)
    | Increment(i: nat) | Publish(i: nat)
    | Raise(i: nat, resolved: bool)

  // --------------------------------------------- counting tasks

  function Sum(pcs: seq<Pc>, f: Pc -> nat): nat {
    if pcs == [] then 0 else Sum(pcs[..|pcs| - 1], f) + f(pcs[|pcs| - 1])
  }

  predicate Holds(p: Pc) { p.Preparing? || p.Waiting? || p.Announcing? || p.Reading? }

  predicate Landed(p: Pc) { p.Appended? || p.Publishing? || p.Finished? || p.Broken? }

  predicate Ended(p: Pc) { p.Finished? || p.Dropped? || p.Broken? }

  // Its duplicates can go on.
  predicate Settled(p: Pc) { Landed(p) || (p.Dropped? && p.resolved) }

  predicate Owning(p: Pc) { p.Announcing? || p.Reading? || Landed(p) || p.Dropped? }

  function HoldBit(p: Pc): nat { if Holds(p) then 1 else 0 }

  function LiveBit(p: Pc): nat { if p.Absent? || Ended(p) then 0 else 1 }

  function DoneBit(p: Pc): nat { if p.Publishing? || p.Finished? || (p.Broken? && p.counted) then 1 else 0 }

  function LandedBit(p: Pc): nat { if Landed(p) then 1 else 0 }

  // How many steps a task has still to go.
  function Rank(p: Pc): nat {
    match p
    case Absent => 7 case Queued => 6 case Preparing => 5 case Announcing => 4 case Waiting(_) => 3 case Reading => 3
    case Appended => 2 case Publishing => 1 case _ => 0
  }

  lemma {:induction false} SumUpdate(pcs: seq<Pc>, f: Pc -> nat, i: nat, p: Pc)
    requires i < |pcs|
    ensures Sum(pcs[i := p], f) + f(pcs[i]) == Sum(pcs, f) + f(p)
  {
    var n := |pcs| - 1;
    if i < n {
      SumUpdate(pcs[..n], f, i, p);
      assert pcs[i := p][..n] == pcs[..n][i := p];
    } else {
      assert pcs[i := p][..n] == pcs[..n];
    }
  }

  lemma {:induction false} SumZero(pcs: seq<Pc>, f: Pc -> nat)
    ensures Sum(pcs, f) == 0 <==> forall i :: 0 <= i < |pcs| ==> f(pcs[i]) == 0
  {
    if pcs != [] { SumZero(pcs[..|pcs| - 1], f); }
  }

  lemma {:induction false} SumBounded(pcs: seq<Pc>, f: Pc -> nat, k: nat)
    requires forall i :: 0 <= i < |pcs| ==> f(pcs[i]) == k
    ensures Sum(pcs, f) == k * |pcs|
  {
    if pcs != [] { SumBounded(pcs[..|pcs| - 1], f, k); }
  }

  // --------------------------------------------- the steps

  function Initial(job: Job): State {
    State(seq(|job.kinds|, _ => Absent), 0, map[], [], 0)
  }

  function At(s: State, i: nat): Pc {
    if i < |s.pcs| then s.pcs[i] else Finished
  }

  predicate Enabled(job: Job, s: State, step: Step) {
    match step
    case Create => s.created < |s.pcs| && Sum(s.pcs, LiveBit) <= job.slots + job.prefetch
    case Acquire(i) => At(s, i).Queued? && Sum(s.pcs, HoldBit) < job.slots
    case Look(i) => At(s, i).Preparing?
    case Announce(i) => At(s, i).Announcing?
    case Resolve(i) => At(s, i).Reading?
    case Wake(i) => At(s, i).Waiting? && Settled(At(s, s.pcs[i].original))
    case Increment(i) => At(s, i).Appended?
    case Publish(i) => At(s, i).Publishing?
    case Raise(i, _) =>
      At(s, i).Preparing? || At(s, i).Announcing? || At(s, i).Reading? || At(s, i).Appended? || At(s, i).Publishing?
  }

  // What the duplicates of page o are given: its text, or what had been read of
  // it when its task raised.
  function Shared(job: Job, s: State, o: nat): string {
    if At(s, o).Dropped? then job.partial(o) else job.stitched(o)
  }

  function Set(s: State, i: nat, p: Pc): State
    requires i < |s.pcs|
  {
    s.(pcs := s.pcs[i := p])
  }

  function Land(s: State, page: Page): State
    requires page.index < |s.pcs|
  {
    s.(pcs := s.pcs[page.index := Appended], pages := s.pages + [page])
  }

  function Apply(job: Job, s: State, step: Step): State
    requires Enabled(job, s, step) && |s.pcs| == |job.kinds|
  {
    match step
    case Create => Set(s, s.created, Queued).(created := s.created + 1)
    case Acquire(i) => Set(s, i, Preparing)
    case Look(i) =>
      (match job.kinds[i]
       case Native => Land(s, Page(i, job.native(i), FromText))
       case Blank => Land(s, Page(i, "", FromBlank))
       case Scan(h) =>
         if job.dedupe && h in s.dedupe then Set(s, i, Waiting(s.dedupe[h]))
         else Set(s, i, Announcing).(dedupe := if job.dedupe then s.dedupe[h := i] else s.dedupe))
    case Announce(i) => Set(s, i, Reading)
    case Resolve(i) => Land(s, Page(i, job.filter(job.stitched(i)), FromOcr))
    case Wake(i) => Land(s, Page(i, Shared(job, s, s.pcs[i].original), FromDuplicate(s.pcs[i].original)))
    case Increment(i) => Set(s, i, Publishing).(done := s.done + 1)
    case Publish(i) => Set(s, i, Finished)
    case Raise(i, resolved) =>
      Set(s, i, match s.pcs[i]
                case Preparing => Dropped(true)
                case Announcing => Dropped(false)
                case Reading => Dropped(resolved)
                case Appended => Broken(false)
                case _ => Broken(true))
  }

  // --------------------------------------------- the invariant

  // The page task i is where the table of hashes says.
  ghost predicate TaskOk(job: Job, s: State, i: nat)
    requires i < |s.pcs| == |job.kinds|
  {
    var p, kind := s.pcs[i], job.kinds[i];
    && (p.Absent? <==> i >= s.created)
    && (p.Announcing? || p.Reading? ==> kind.Scan? && (job.dedupe ==> kind.hash in s.dedupe && s.dedupe[kind.hash] == i))
    && (p.Waiting? ==> job.dedupe && kind.Scan? && kind.hash in s.dedupe && s.dedupe[kind.hash] == p.original != i)
    && (Landed(p) && kind.Scan? && job.dedupe ==> kind.hash in s.dedupe)
  }

  // The page that owns a hash is being read, has landed, read by itself, or was
  // dropped.
  ghost predicate OwnerOk(job: Job, s: State, h: int)
    requires h in s.dedupe && |s.pcs| == |job.kinds|
  {
    var o := s.dedupe[h];
    o < |s.pcs| && job.kinds[o] == Scan(h) && Owning(s.pcs[o])
  }

  // What a landed page must look like.
  ghost predicate PageOk(job: Job, s: State, page: Page) {
    && page.index < |job.kinds|
    && (match job.kinds[page.index]
        case Native => page.source == FromText && page.text == job.native(page.index)
        case Blank => page.source == FromBlank && page.text == ""
        case Scan(h) =>
          if job.dedupe && h in s.dedupe && s.dedupe[h] != page.index
          then page.source == FromDuplicate(s.dedupe[h]) && page.text == Shared(job, s, s.dedupe[h]) && Settled(At(s, s.dedupe[h]))
          else page.source == FromOcr && page.text == job.filter(job.stitched(page.index)))
  }

  ghost predicate PagesOk(job: Job, s: State) {
    && (forall k :: 0 <= k < |s.pages| ==> PageOk(job, s, s.pages[k]) && Landed(At(s, s.pages[k].index)))
    && (forall j, k :: 0 <= j < k < |s.pages| ==> s.pages[j].index != s.pages[k].index)
    && |s.pages| == Sum(s.pcs, LandedBit)
    && (forall i :: 0 <= i < |s.pcs| && Landed(s.pcs[i]) ==> Occurs(s.pages, i))
  }

  ghost predicate Occurs(pages: seq<Page>, i: nat) {
    exists k :: 0 <= k < |pages| && pages[k].index == i
  }

  ghost predicate Inv(job: Job, s: State) {
    && |s.pcs| == |job.kinds| && s.created <= |s.pcs|
    && (forall i :: 0 <= i < |s.pcs| ==> TaskOk(job, s, i))
    && (forall h :: h in s.dedupe ==> OwnerOk(job, s, h))
    && PagesOk(job, s)
    && s.done == Sum(s.pcs, DoneBit)
    && Sum(s.pcs, HoldBit) <= job.slots
  }

  lemma InitialInv(job: Job)
    ensures Inv(job, Initial(job))
  {
    SumZero(Initial(job).pcs, LandedBit);
    SumZero(Initial(job).pcs, DoneBit);
    SumZero(Initial(job).pcs, HoldBit);
  }

  lemma CountsUpdate(s: State, i: nat, p: Pc)
    requires i < |s.pcs|
    ensures var t := s.pcs[i := p];
            && Sum(t, LandedBit) + LandedBit(s.pcs[i]) == Sum(s.pcs, LandedBit) + LandedBit(p)
            && Sum(t, DoneBit) + DoneBit(s.pcs[i]) == Sum(s.pcs, DoneBit) + DoneBit(p)
            && Sum(t, HoldBit) + HoldBit(s.pcs[i]) == Sum(s.pcs, HoldBit) + HoldBit(p)
            && Sum(t, Rank) + Rank(s.pcs[i]) == Sum(s.pcs, Rank) + Rank(p)
  {
    hide *;
    SumUpdate(s.pcs, LandedBit, i, p);
    SumUpdate(s.pcs, DoneBit, i, p);
    SumUpdate(s.pcs, HoldBit, i, p);
    SumUpdate(s.pcs, Rank, i, p);
  }

  // What has settled stays settled the same way.
  ghost predicate SettledStays(s: State, t: State) {
    forall o: nat :: Settled(At(s, o)) ==> Settled(At(t, o)) && (At(t, o).Dropped? <==> At(s, o).Dropped?)
  }

  lemma PageStays(job: Job, s: State, t: State, page: Page)
    requires PageOk(job, s, page) && SettledStays(s, t) && t.dedupe == s.dedupe
    ensures PageOk(job, t, page)
  {
  }

  // Moving one task without landing it.
  lemma MoveKeepsInv(job: Job, s: State, i: nat, t: State)
    requires Inv(job, s) && i < |s.pcs| && Landed(s.pcs[i]) == Landed(At(t, i))
    requires t.pcs == s.pcs[i := At(t, i)] && t.pages == s.pages && t.created >= s.created
    requires t.dedupe == s.dedupe && t.created <= |t.pcs|
    requires forall k :: 0 <= k < |t.pcs| ==> TaskOk(job, t, k)
    requires !s.pcs[i].Dropped? && (Owning(s.pcs[i]) ==> Owning(At(t, i)))
    ensures PagesOk(job, t) && forall h :: h in t.dedupe ==> OwnerOk(job, t, h)
  {
    hide Sum;
    CountsUpdate(s, i, At(t, i));
    assert SettledStays(s, t);
    forall h | h in t.dedupe ensures OwnerOk(job, t, h) { assert OwnerOk(job, s, h); }
    forall k | 0 <= k < |t.pages| ensures PageOk(job, t, t.pages[k]) && Landed(At(t, t.pages[k].index)) {
      PageStays(job, s, t, s.pages[k]);
    }
  }

  lemma OthersStayOk(job: Job, s: State, i: nat, t: State)
    requires Inv(job, s) && i < |s.pcs|
    requires t.pcs == s.pcs[i := At(t, i)] && t.dedupe == s.dedupe && t.created == s.created
    requires TaskOk(job, t, i)
    ensures forall k :: 0 <= k < |t.pcs| ==> TaskOk(job, t, k)
  {
    forall k | 0 <= k < |t.pcs| ensures TaskOk(job, t, k) { assert TaskOk(job, s, k); }
  }

  lemma LandKeepsInv(job: Job, s: State, page: Page)
    requires Inv(job, s) && page.index < |s.pcs| && Holds(s.pcs[page.index])
    requires PageOk(job, s, page)
    requires job.dedupe && job.kinds[page.index].Scan? ==> job.kinds[page.index].hash in s.dedupe
    ensures Inv(job, Land(s, page))
  {
    hide Sum, PageOk;
    var t := Land(s, page);
    CountsUpdate(s, page.index, Appended);
    assert TaskOk(job, s, page.index);
    OthersStayOk(job, s, page.index, t);
    assert SettledStays(s, t);
    forall h | h in t.dedupe ensures OwnerOk(job, t, h) { assert OwnerOk(job, s, h); }
    assert forall k :: 0 <= k < |s.pages| ==> Landed(At(s, s.pages[k].index));
    forall k | 0 <= k < |t.pages| ensures PageOk(job, t, t.pages[k]) && Landed(At(t, t.pages[k].index)) {
      PageStays(job, s, t, t.pages[k]);
    }
    LandedOccur(s, page);
  }

  lemma LandedOccur(s: State, page: Page)
    requires page.index < |s.pcs|
    requires forall i :: 0 <= i < |s.pcs| && Landed(s.pcs[i]) ==> Occurs(s.pages, i)
    ensures var t := Land(s, page); forall i :: 0 <= i < |t.pcs| && Landed(t.pcs[i]) ==> Occurs(t.pages, i)
  {
    var t := Land(s, page);
    assert t.pages[|s.pages|] == page;
    forall i | 0 <= i < |t.pcs| && Landed(t.pcs[i]) ensures Occurs(t.pages, i) {
      if i != page.index {
        var k :| 0 <= k < |s.pages| && s.pages[k].index == i;
        assert t.pages[k].index == i;
      }
    }
  }

  lemma MoveStep(job: Job, s: State, i: nat, t: State)
    requires Inv(job, s) && i < |s.pcs| && Landed(s.pcs[i]) == Landed(At(t, i))
    requires t.pcs == s.pcs[i := At(t, i)] && t.pages == s.pages && t.dedupe == s.dedupe && t.created == s.created
    requires TaskOk(job, t, i) && !s.pcs[i].Dropped? && (Owning(s.pcs[i]) ==> Owning(At(t, i)))
    requires t.done + DoneBit(s.pcs[i]) == s.done + DoneBit(At(t, i))
    requires Holds(At(t, i)) ==> Holds(s.pcs[i]) || Sum(s.pcs, HoldBit) < job.slots
    ensures Inv(job, t)
  {
    hide Sum, TaskOk, PagesOk, OwnerOk;
    OthersStayOk(job, s, i, t);
    MoveKeepsInv(job, s, i, t);
    CountsUpdate(s, i, At(t, i));
  }

  lemma CreateStep(job: Job, s: State)
    requires Inv(job, s) && Enabled(job, s, Create)
    ensures Inv(job, Apply(job, s, Create))
  {
    hide Sum;
    var i, t := s.created, Apply(job, s, Create);
    assert TaskOk(job, s, i);
    forall k | 0 <= k < |t.pcs| ensures TaskOk(job, t, k) { assert TaskOk(job, s, k); }
    MoveKeepsInv(job, s, i, t);
    CountsUpdate(s, i, Queued);
  }

  // A page nobody has seen before becomes the one that is read for its hash.
  lemma ReadStep(job: Job, s: State, i: nat)
    requires Inv(job, s) && At(s, i).Preparing? && i < |s.pcs| && job.kinds[i].Scan?
    requires job.dedupe ==> job.kinds[i].hash !in s.dedupe
    ensures Inv(job, Apply(job, s, Look(i)))
  {
    hide Sum;
    var t := Apply(job, s, Look(i));
    assert TaskOk(job, s, i);
    forall k | 0 <= k < |t.pcs| ensures TaskOk(job, t, k) { assert TaskOk(job, s, k); }
    forall h | h in t.dedupe ensures OwnerOk(job, t, h) {
      if h in s.dedupe { assert OwnerOk(job, s, h); }
    }
    assert SettledStays(s, t);
    forall k | 0 <= k < |t.pages| ensures PageOk(job, t, t.pages[k]) && Landed(At(t, t.pages[k].index)) {
      assert PageOk(job, s, s.pages[k]) && TaskOk(job, s, s.pages[k].index);
    }
    CountsUpdate(s, i, Announcing);
  }

  lemma StepKeepsInv(job: Job, s: State, step: Step)
    requires Inv(job, s) && Enabled(job, s, step)
    ensures Inv(job, Apply(job, s, step))
  {
    hide Sum;
    if !step.Create? { assert TaskOk(job, s, step.i); }
    var t := Apply(job, s, step);
    match step
    case Create => CreateStep(job, s);
    case Acquire(i) => MoveStep(job, s, i, t);
    case Look(i) =>
      match job.kinds[i] {
        case Native => LandKeepsInv(job, s, Page(i, job.native(i), FromText));
        case Blank => LandKeepsInv(job, s, Page(i, "", FromBlank));
        case Scan(h) =>
          if job.dedupe && h in s.dedupe {
            assert OwnerOk(job, s, h);
            MoveStep(job, s, i, t);
          } else {
            ReadStep(job, s, i);
          }
      }
    case Resolve(i) => LandKeepsInv(job, s, Page(i, job.filter(job.stitched(i)), FromOcr));
    case Wake(i) =>
      var o := s.pcs[i].original;
      LandKeepsInv(job, s, Page(i, Shared(job, s, o), FromDuplicate(o)));
    case Increment(i) => MoveStep(job, s, i, t);
    case Publish(i) => MoveStep(job, s, i, t);
    case Announce(i) => MoveStep(job, s, i, t);
    case Raise(i, _) => MoveStep(job, s, i, t);
  }

  // --------------------------------------------- progress

  // Each step brings one task one or more places nearer its end.
  lemma StepDescends(job: Job, s: State, step: Step)
    requires Inv(job, s) && Enabled(job, s, step)
    ensures Sum(Apply(job, s, step).pcs, Rank) < Sum(s.pcs, Rank)
  {
    hide Sum;
    var i := if step.Create? then s.created else step.i;
    assert TaskOk(job, s, i);
    CountsUpdate(s, i, At(Apply(job, s, step), i));
  }

  ghost predicate AllFinished(s: State) { forall i :: 0 <= i < |s.pcs| ==> s.pcs[i].Finished? }

  ghost predicate AllEnded(s: State) { forall i :: 0 <= i < |s.pcs| ==> Ended(s.pcs[i]) }

  // A page that waits, or will have to wait, for one whose task raised without
  // handing over any text.
  ghost predicate DoomedPage(job: Job, s: State, i: nat)
    requires |s.pcs| == |job.kinds| && i < |s.pcs|
  {
    && job.dedupe && job.kinds[i].Scan? && job.kinds[i].hash in s.dedupe && !Ended(s.pcs[i]) && !Landed(s.pcs[i])
    && At(s, s.dedupe[job.kinds[i].hash]) == Dropped(false)
  }

  ghost predicate Doomed(job: Job, s: State)
    requires |s.pcs| == |job.kinds|
  {
    exists i :: 0 <= i < |s.pcs| && DoomedPage(job, s, i)
  }

  // A task that can move on without a slot becoming free.
  lemma LocalStep(job: Job, s: State, i: nat) returns (step: Step)
    requires Inv(job, s) && i < |s.pcs| && !DoomedPage(job, s, i)
    requires s.pcs[i].Appended? || s.pcs[i].Publishing? || Holds(s.pcs[i])
    ensures Enabled(job, s, step) && !step.Raise?
  {
    assert TaskOk(job, s, i);
    match s.pcs[i]
    case Preparing => step := Look(i);
    case Announcing => step := Announce(i);
    case Reading => step := Resolve(i);
    case Appended => step := Increment(i);
    case Publishing => step := Publish(i);
    case Waiting(o) =>
      assert OwnerOk(job, s, job.kinds[i].hash);
      step := if s.pcs[o].Announcing? then Announce(o) else if s.pcs[o].Reading? then Resolve(o) else Wake(i);
  }

  // Duplicates wait with a slot in hand, and still the pages never block each
  // other for good: until every page has ended some step can be taken, as long
  // as no page is doomed.
  lemma NeverStuck(job: Job, s: State) returns (step: Step)
    requires Inv(job, s) && job.slots >= 1 && !AllEnded(s) && !Doomed(job, s)
    ensures Enabled(job, s, step) && !step.Raise?
  {
    hide Sum;
    if i :| 0 <= i < |s.pcs| && (s.pcs[i].Appended? || s.pcs[i].Publishing? || Holds(s.pcs[i])) {
      step := LocalStep(job, s, i);
    } else if i :| 0 <= i < |s.pcs| && s.pcs[i].Queued? {
      SumZero(s.pcs, HoldBit);
      step := Acquire(i);
    } else {
      SumZero(s.pcs, LiveBit);
      var i :| 0 <= i < |s.pcs| && !Ended(s.pcs[i]);
      assert TaskOk(job, s, i);
      step := Create;
    }
  }

  // A step that does not raise dooms no page, and saves none.
  lemma DoomStays(job: Job, s: State, step: Step)
    requires Inv(job, s) && Enabled(job, s, step) && !step.Raise?
    ensures Doomed(job, s) <==> Doomed(job, Apply(job, s, step))
  {
    hide Sum, PagesOk;
    var t := Apply(job, s, step);
    var k := if step.Create? then s.created else step.i;
    assert TaskOk(job, s, k);
    forall i | 0 <= i < |s.pcs| ensures DoomedPage(job, t, i) <==> DoomedPage(job, s, i) {
      assert TaskOk(job, s, i);
      DoomOf(job, s, step, i);
    }
  }

  lemma DoomOf(job: Job, s: State, step: Step, i: nat)
    requires Inv(job, s) && Enabled(job, s, step) && !step.Raise? && i < |s.pcs| && TaskOk(job, s, i)
    ensures DoomedPage(job, Apply(job, s, step), i) <==> DoomedPage(job, s, i)
  {
    hide Sum, PagesOk;
    var k := if step.Create? then s.created else step.i;
    assert TaskOk(job, s, k);
    if job.kinds[i].Scan? && job.kinds[i].hash in s.dedupe { assert OwnerOk(job, s, job.kinds[i].hash); }
    if job.kinds[k].Scan? && job.kinds[k].hash in s.dedupe { assert OwnerOk(job, s, job.kinds[k].hash); }
  }

  // --------------------------------------------- whole runs

  // The steps can be taken one after the other from s and lead to t.
  ghost predicate Leads(job: Job, s: State, steps: seq<Step>, t: State)
    decreases |steps|
  {
    if steps == [] then t == s
    else |s.pcs| == |job.kinds| && Enabled(job, s, steps[0]) && Leads(job, Apply(job, s, steps[0]), steps[1..], t)
  }

  lemma {:induction false} RunKeepsInv(job: Job, s: State, steps: seq<Step>, t: State)
    requires Inv(job, s) && Leads(job, s, steps, t)
    ensures Inv(job, t) && |steps| + Sum(t.pcs, Rank) <= Sum(s.pcs, Rank)
    decreases |steps|
  {
    hide Inv, Sum, Apply, Enabled;
    if steps != [] {
      StepKeepsInv(job, s, steps[0]);
      StepDescends(job, s, steps[0]);
      RunKeepsInv(job, Apply(job, s, steps[0]), steps[1..], t);
    }
  }

  // The outcome the worker promises for the pages of a job.
  ghost predicate Complete(job: Job, t: State) {
    var n := |job.kinds|;
    && t.done == n && |t.pages| == n && |t.pcs| == n && AllFinished(t)
    // every page exactly once
    && (forall i :: 0 <= i < n ==> Occurs(t.pages, i))
    && (forall j, k :: 0 <= j < k < n ==> t.pages[j].index != t.pages[k].index)
    // with the text and source it must have
    && (forall k :: 0 <= k < n ==> PageOk(job, t, t.pages[k]))
    // and one owner, itself read, for every hash seen
    && (job.dedupe ==> forall i :: 0 <= i < n && job.kinds[i].Scan? ==>
          job.kinds[i].hash in t.dedupe && OwnerOk(job, t, job.kinds[i].hash))
  }

  lemma FinishedIsComplete(job: Job, t: State)
    requires Inv(job, t) && AllFinished(t)
    ensures Complete(job, t)
  {
    var n := |job.kinds|;
    SumBounded(t.pcs, LandedBit, 1);
    SumBounded(t.pcs, DoneBit, 1);
    forall k | 0 <= k < n ensures t.pages[k].index < n { assert PageOk(job, t, t.pages[k]); }
    forall i | 0 <= i < n ensures Occurs(t.pages, i) {
      EveryIndexOccurs(t.pages, n, i);
    }
    forall i | 0 <= i < n && job.kinds[i].Scan? && job.dedupe
      ensures job.kinds[i].hash in t.dedupe && OwnerOk(job, t, job.kinds[i].hash)
    {
      assert TaskOk(job, t, i);
    }
  }

  // n pairwise distinct indices below n leave none out.
  lemma EveryIndexOccurs(pages: seq<Page>, n: nat, i: nat)
    requires |pages| == n && i < n
    requires forall k :: 0 <= k < n ==> pages[k].index < n
    requires forall j, k :: 0 <= j < k < n ==> pages[j].index != pages[k].index
    ensures Occurs(pages, i)
  {
    var used := IndexSet(pages, n);
    var all := Upto(n);
    if i !in used {
      assert used <= all - {i};
      SubsetSize(used, all - {i});
      assert false;
    }
  }

  lemma {:induction false} IndexSet(pages: seq<Page>, k: nat) returns (used: set<nat>)
    requires k <= |pages|
    requires forall i, j :: 0 <= i < j < |pages| ==> pages[i].index != pages[j].index
    ensures |used| == k
    ensures forall x :: x in used <==> exists j :: 0 <= j < k && pages[j].index == x
  {
    used := {};
    if k > 0 {
      var before := IndexSet(pages, k - 1);
      used := before + {pages[k - 1].index};
    }
  }

  lemma {:induction false} Upto(n: nat) returns (all: set<nat>)
    ensures |all| == n && forall x: nat :: x in all <==> x < n
  {
    all := {};
    if n > 0 {
      var before := Upto(n - 1);
      all := before + {n - 1};
    }
  }

  lemma {:induction false} SubsetSize(a: set<nat>, b: set<nat>)
    requires a <= b
    ensures |a| <= |b|
  {
    if a != {} {
      var x :| x in a;
      SubsetSize(a - {x}, b - {x});
    }
  }

  predicate Smooth(steps: seq<Step>) { forall i :: 0 <= i < |steps| ==> !steps[i].Raise? }

  lemma {:induction false} DoomStaysOnRuns(job: Job, s: State, steps: seq<Step>, t: State)
    requires Inv(job, s) && Leads(job, s, steps, t) && Smooth(steps)
    ensures Inv(job, t) && (Doomed(job, s) <==> Doomed(job, t))
    decreases |steps|
  {
    hide Inv, Sum, Apply, Enabled, Doomed;
    if steps != [] {
      StepKeepsInv(job, s, steps[0]);
      DoomStays(job, s, steps[0]);
      DoomStaysOnRuns(job, Apply(job, s, steps[0]), steps[1..], t);
    }
  }

  lemma {:induction false} FinishRun(job: Job, s: State) returns (steps: seq<Step>, t: State)
    requires Inv(job, s) && job.slots >= 1 && !Doomed(job, s)
    ensures Smooth(steps) && Leads(job, s, steps, t) && AllEnded(t)
    decreases Sum(s.pcs, Rank)
  {
    SizeOf(job, s);
    hide Inv, Sum, Apply, Enabled, Doomed;
    if AllEnded(s) {
      steps, t := [], s;
    } else {
      var step := NeverStuck(job, s);
      StepKeepsInv(job, s, step);
      StepDescends(job, s, step);
      DoomStays(job, s, step);
      var more;
      more, t := FinishRun(job, Apply(job, s, step));
      steps := [step] + more;
      assert steps[1..] == more;
    }
  }

  lemma SizeOf(job: Job, s: State)
    requires Inv(job, s)
    ensures |s.pcs| == |job.kinds|
  {
  }

  // Exactly when the pages can still all be brought to an end: when no page that
  // has not ended shares the hash of one whose task raised, while announcing the
  // page or flushing its tokens, without handing over any text.
  lemma CanFinishIff(job: Job, s: State)
    requires Inv(job, s) && job.slots >= 1
    ensures (exists steps, t :: Smooth(steps) && Leads(job, s, steps, t) && AllEnded(t)) <==> !Doomed(job, s)
  {
    SizeOf(job, s);
    hide Inv, Leads;
    if !Doomed(job, s) {
      var steps, t := FinishRun(job, s);
    } else {
      forall steps, t | Smooth(steps) && Leads(job, s, steps, t) ensures !AllEnded(t) {
        DoomStaysOnRuns(job, s, steps, t);
      }
    }
  }

  // One failed announcement is enough, if the next page is a duplicate.
  lemma AnnouncementDooms(job: Job) returns (t: State)
    requires job.dedupe && job.slots >= 1 && |job.kinds| >= 2 && job.kinds[0].Scan? && job.kinds[1] == job.kinds[0]
    ensures Leads(job, Initial(job), [Create, Acquire(0), Look(0), Raise(0, false)], t)
    ensures |t.pcs| == |job.kinds| && Doomed(job, t)
  {
    hide Sum;
    var s := Initial(job);
    SumZero(s.pcs, LiveBit);
    var a := Apply(job, s, Create);
    SumZero(a.pcs, HoldBit);
    var b := Apply(job, a, Acquire(0));
    var c := Apply(job, b, Look(0));
    t := Apply(job, c, Raise(0, false));
    assert DoomedPage(job, t, 1);
    assert Enabled(job, s, Create) && Enabled(job, a, Acquire(0)) && Enabled(job, b, Look(0)) && Enabled(job, c, Raise(0, false));
    hide Apply, Enabled, Doomed;
    assert Leads(job, t, [], t);
    Precede(job, c, Raise(0, false), [], t);
    Precede(job, b, Look(0), [Raise(0, false)], t);
    Precede(job, a, Acquire(0), [Look(0), Raise(0, false)], t);
    Precede(job, s, Create, [Acquire(0), Look(0), Raise(0, false)], t);
    assert [Create] + [Acquire(0), Look(0), Raise(0, false)] == [Create, Acquire(0), Look(0), Raise(0, false)];
  }

  lemma Precede(job: Job, s: State, step: Step, rest: seq<Step>, t: State)
    requires |s.pcs| == |job.kinds| && Enabled(job, s, step) && Leads(job, Apply(job, s, step), rest, t)
    ensures Leads(job, s, [step] + rest, t)
  {
    assert ([step] + rest)[1..] == rest;
  }

  // --------------------------------------------- how many pages are in memory

  // Pages whose task has been started and has not ended.
  function Resident(s: State): nat { Sum(s.pcs, LiveBit) }

  lemma ResidentUpdate(s: State, i: nat, p: Pc)
    requires i < |s.pcs|
    ensures Sum(s.pcs[i := p], LiveBit) + LiveBit(s.pcs[i]) == Sum(s.pcs, LiveBit) + LiveBit(p)
  {
    SumUpdate(s.pcs, LiveBit, i, p);
  }

  lemma ResidentStep(job: Job, s: State, step: Step)
    requires Inv(job, s) && Enabled(job, s, step) && Resident(s) <= job.slots + job.prefetch + 1
    ensures Resident(Apply(job, s, step)) <= job.slots + job.prefetch + 1
  {
    hide Sum;
    var i := if step.Create? then s.created else step.i;
    assert TaskOk(job, s, i);
    ResidentUpdate(s, i, At(Apply(job, s, step), i));
  }

  lemma {:induction false} ResidentBound(job: Job, s: State, steps: seq<Step>, t: State)
    requires Inv(job, s) && Resident(s) <= job.slots + job.prefetch + 1 && Leads(job, s, steps, t)
    ensures Resident(t) <= job.slots + job.prefetch + 1
    decreases |steps|
  {
    hide Inv, Resident, Apply, Enabled;
    if steps != [] {
      StepKeepsInv(job, s, steps[0]);
      ResidentStep(job, s, steps[0]);
      ResidentBound(job, Apply(job, s, steps[0]), steps[1..], t);
    }
  }

  // At most all pages of the document, and at most one more than there are slots and
  // pages to prefetch, are in memory at any time.
  lemma ResidentMost(job: Job, steps: seq<Step>, t: State)
    requires Leads(job, Initial(job), steps, t)
    ensures Resident(t) <= |job.kinds| && Resident(t) <= job.slots + job.prefetch + 1
  {
    hide Inv, Sum, Leads;
    InitialInv(job);
    SumZero(Initial(job).pcs, LiveBit);
    ResidentBound(job, Initial(job), steps, t);
    RunKeepsInv(job, Initial(job), steps, t);
    SizeOf(job, t);
    SumAtMost(t.pcs);
  }

  lemma {:induction false} SumAtMost(pcs: seq<Pc>)
    ensures Sum(pcs, LiveBit) <= |pcs|
  {
    if pcs != [] { SumAtMost(pcs[..|pcs| - 1]); }
  }

  function Creates(n: nat): seq<Step> { if n == 0 then [] else Creates(n - 1) + [Create] }

  lemma {:induction false} Follow(job: Job, s: State, steps: seq<Step>, t: State, step: Step)
    requires Leads(job, s, steps, t) && |t.pcs| == |job.kinds| && Enabled(job, t, step)
    ensures Leads(job, s, steps + [step], Apply(job, t, step))
    decreases |steps|
  {
    hide Apply, Enabled;
    if steps == [] {
      assert Leads(job, Apply(job, t, step), [], Apply(job, t, step));
      assert ([] + [step])[1..] == [];
    } else {
      Follow(job, Apply(job, s, steps[0]), steps[1..], t, step);
      assert (steps + [step])[1..] == steps[1..] + [step];
    }
  }

  // And that many can be: for every number of pages within both limits a run from the
  // start that gets so many into memory.
  lemma {:induction false} ResidentReached(job: Job, n: nat) returns (t: State)
    requires n <= |job.kinds| && n <= job.slots + job.prefetch + 1
    ensures Leads(job, Initial(job), Creates(n), t) && Resident(t) == n
    ensures Inv(job, t) && t.created == n
  {
    hide Sum;
    InitialInv(job);
    t := Initial(job);
    if n == 0 {
      SumZero(t.pcs, LiveBit);
    } else {
      var s := ResidentReached(job, n - 1);
      assert Enabled(job, s, Create) && TaskOk(job, s, s.created);
      t := Apply(job, s, Create);
      StepKeepsInv(job, s, Create);
      ResidentUpdate(s, s.created, Queued);
      hide Inv;
      Follow(job, Initial(job), Creates(n - 1), s, Create);
    }
  }

  // No task has raised.
  ghost predicate Whole(s: State) { forall i :: 0 <= i < |s.pcs| ==> !s.pcs[i].Dropped? && !s.pcs[i].Broken? }

  lemma {:induction false} SmoothRunIsWhole(job: Job, s: State, steps: seq<Step>, t: State)
    requires Whole(s) && Leads(job, s, steps, t) && Smooth(steps)
    ensures Whole(t)
    decreases |steps|
  {
    if steps != [] {
      WholeStep(job, s, steps[0]);
      hide Whole, Apply, Enabled;
      SmoothRunIsWhole(job, Apply(job, s, steps[0]), steps[1..], t);
    }
  }

  lemma WholeStep(job: Job, s: State, step: Step)
    requires Whole(s) && |s.pcs| == |job.kinds| && Enabled(job, s, step) && !step.Raise?
    ensures Whole(Apply(job, s, step))
  {
    hide Sum;
  }

  // Every run of a job is finite, at most seven steps a page, and can go on until
  // all pages have ended or one is doomed.  When all have ended, the result has
  // exactly the pages whose task did not raise too early, each once and with the
  // text it must have.
  lemma EveryRunEnds(job: Job, steps: seq<Step>, t: State)
    requires job.slots >= 1 && Leads(job, Initial(job), steps, t)
    ensures |steps| <= 7 * |job.kinds|
    ensures (forall step :: Enabled(job, t, step) ==> step.Raise?) ==> AllEnded(t) || (Inv(job, t) && Doomed(job, t))
    ensures |t.pcs| == |job.kinds|
    ensures AllEnded(t) ==>
              && (forall i :: 0 <= i < |job.kinds| ==> (Occurs(t.pages, i) <==> !t.pcs[i].Dropped?))
              && (forall j, k :: 0 <= j < k < |t.pages| ==> t.pages[j].index != t.pages[k].index)
              && (forall k :: 0 <= k < |t.pages| ==> PageOk(job, t, t.pages[k]))
  {
    InitialInv(job);
    SumBounded(Initial(job).pcs, Rank, 7);
    RunKeepsInv(job, Initial(job), steps, t);
    SizeOf(job, t);
    if AllEnded(t) { EndedPages(job, t); }
    hide Enabled, Inv, Leads, Sum, Doomed, PageOk, Occurs;
    if !AllEnded(t) && !Doomed(job, t) { var step := NeverStuck(job, t); }
  }

  lemma EndedPages(job: Job, t: State)
    requires Inv(job, t) && AllEnded(t)
    ensures forall i :: 0 <= i < |job.kinds| ==> (Occurs(t.pages, i) <==> !t.pcs[i].Dropped?)
  {
    forall i | 0 <= i < |job.kinds| ensures Occurs(t.pages, i) <==> !t.pcs[i].Dropped? {
      if k :| 0 <= k < |t.pages| && t.pages[k].index == i { assert Landed(At(t, t.pages[k].index)); }
    }
  }

  // When no task raises, no page is ever doomed, every run can go on until all
  // pages are finished, and then the result is complete.
  lemma EveryRunCompletes(job: Job, steps: seq<Step>, t: State)
    requires job.slots >= 1 && Leads(job, Initial(job), steps, t) && Smooth(steps)
    ensures (forall step :: Enabled(job, t, step) ==> step.Raise?) ==> AllFinished(t)
    ensures AllFinished(t) ==> Complete(job, t)
  {
    EveryRunEnds(job, steps, t);
    InitialInv(job);
    DoomStaysOnRuns(job, Initial(job), steps, t);
    SmoothRunIsWhole(job, Initial(job), steps, t);
    assert !Doomed(job, Initial(job));
    hide Enabled, Inv, Leads, Sum, Doomed, PageOk, Occurs;
    if AllFinished(t) { FinishedIsComplete(job, t); }
  }

  ghost predicate IsScan(job: Job, page: Page, h: int) {
    page.index < |job.kinds| && job.kinds[page.index] == Scan(h)
  }

  // In a complete result each hash is read exactly once: its pages are the one
  // that was read and duplicates that point to it and carry its text.
  lemma EachHashReadOnce(job: Job, t: State, i: nat) returns (k: nat)
    requires Complete(job, t) && job.dedupe && i < |job.kinds| && job.kinds[i].Scan?
    ensures k < |t.pages|
    ensures var h, page := job.kinds[i].hash, t.pages[k];
            && IsScan(job, page, h)
            && page.source == FromOcr && page.text == job.filter(job.stitched(page.index))
            && (forall j :: 0 <= j < |t.pages| && j != k && IsScan(job, t.pages[j], h) ==>
                  t.pages[j].source == FromDuplicate(page.index) && t.pages[j].text == job.stitched(page.index))
  {
    var h := job.kinds[i].hash;
    assert OwnerOk(job, t, h);
    var o := t.dedupe[h];
    assert Occurs(t.pages, o);
    k :| 0 <= k < |t.pages| && t.pages[k].index == o;
    assert PageOk(job, t, t.pages[k]);
    forall j | 0 <= j < |t.pages| && j != k && IsScan(job, t.pages[j], h)
      ensures t.pages[j].source == FromDuplicate(o) && t.pages[j].text == job.stitched(o)
    {
      assert PageOk(job, t, t.pages[j]);
    }
  }

  // --------------------------------------------- duplicates of a page that raised

  lemma {:induction false} DroppedStays(job: Job, s: State, steps: seq<Step>, t: State, o: nat)
    requires Inv(job, s) && Leads(job, s, steps, t) && At(s, o).Dropped?
    ensures At(t, o) == At(s, o)
    decreases |steps|
  {
    hide Inv, Sum, Apply, Enabled;
    if steps != [] {
      StepKeepsInv(job, s, steps[0]);
      DroppedStep(job, s, steps[0], o);
      DroppedStays(job, Apply(job, s, steps[0]), steps[1..], t, o);
    }
  }

  lemma DroppedStep(job: Job, s: State, step: Step, o: nat)
    requires Inv(job, s) && Enabled(job, s, step) && At(s, o).Dropped?
    ensures At(Apply(job, s, step), o) == At(s, o)
  {
    hide Sum;
    if step.Create? { assert TaskOk(job, s, s.created); }
  }

  // When the reading of a page raises after its partial text was handed over, its
  // duplicates land with exactly that text, and any of them that waits can go on.
  // When it was not, none of them ever lands.
  lemma RaisedReadingShares(job: Job, s: State, o: nat, handedOver: bool, steps: seq<Step>, t: State)
    requires Inv(job, s) && At(s, o).Reading? && Leads(job, Apply(job, s, Raise(o, handedOver)), steps, t)
    ensures forall k :: 0 <= k < |t.pages| && t.pages[k].source == FromDuplicate(o) ==>
                          handedOver && t.pages[k].text == job.partial(o)
    ensures forall i :: 0 <= i < |t.pcs| && t.pcs[i] == Waiting(o) ==> (Enabled(job, t, Wake(i)) <==> handedOver)
  {
    hide Sum;
    var r := Apply(job, s, Raise(o, handedOver));
    StepKeepsInv(job, s, Raise(o, handedOver));
    DroppedStays(job, r, steps, t, o);
    RunKeepsInv(job, r, steps, t);
    forall k | 0 <= k < |t.pages| && t.pages[k].source == FromDuplicate(o)
      ensures handedOver && t.pages[k].text == job.partial(o)
    {
      assert PageOk(job, t, t.pages[k]);
    }
  }

  // --------------------------------------------- the sorted result

  predicate ByIndex(a: Page, b: Page) { a.index <= b.index }

  lemma {:induction false} SortedDistinctAt(pages: seq<Page>, n: nat, k: nat)
    requires |pages| == n && k < n
    requires forall i, j :: 0 <= i < j < n ==> pages[i].index < pages[j].index
    requires forall i :: 0 <= i < n ==> pages[i].index < n
    ensures pages[k].index == k
  {
    LowerBound(pages, k);
    UpperBound(pages, n, k);
  }

  lemma {:induction false} LowerBound(pages: seq<Page>, k: nat)
    requires k < |pages| && forall i, j :: 0 <= i < j < |pages| ==> pages[i].index < pages[j].index
    ensures pages[k].index >= k
  {
    if k > 0 { LowerBound(pages, k - 1); }
  }

  lemma {:induction false} UpperBound(pages: seq<Page>, n: nat, k: nat)
    requires |pages| == n && k < n
    requires forall i, j :: 0 <= i < j < n ==> pages[i].index < pages[j].index
    requires forall i :: 0 <= i < n ==> pages[i].index < n
    ensures pages[k].index <= k
    decreases n - k
  {
    if k + 1 < n { UpperBound(pages, n, k + 1); }
  }

  // Sorted by index, page k of the result is page k of the document.
  lemma SortedResult(job: Job, t: State)
    requires Complete(job, t)
    ensures var sorted := Sorting.Sort(t.pages, ByIndex);
            && |sorted| == |job.kinds|
            && forall k :: 0 <= k < |sorted| ==> sorted[k].index == k && PageOk(job, t, sorted[k])
  {
    var sorted := Sorting.Sort(t.pages, ByIndex);
    Sorting.SortIsPermutation(t.pages, ByIndex);
    Sorting.SortSorts(t.pages, ByIndex);
    Sorting.SameElements(t.pages, sorted);
    SortedIsStrict(t.pages, sorted);
    forall k | 0 <= k < |sorted| ensures PageOk(job, t, sorted[k]) { assert sorted[k] in t.pages; }
    forall k | 0 <= k < |sorted| ensures sorted[k].index == k { SortedDistinctAt(sorted, |sorted|, k); }
  }

  lemma SortedIsStrict(pages: seq<Page>, sorted: seq<Page>)
    requires multiset(pages) == multiset(sorted) && Sorting.SortedBy(sorted, ByIndex)
    requires forall j, k :: 0 <= j < k < |pages| ==> pages[j].index != pages[k].index
    ensures forall i, j :: 0 <= i < j < |sorted| ==> sorted[i].index < sorted[j].index
  {
    forall i, j | 0 <= i < j < |sorted| ensures sorted[i].index < sorted[j].index {
      assert ByIndex(sorted[i], sorted[j]);
      if sorted[i].index == sorted[j].index {
        SameIndexTwice(pages, sorted, i, j);
      }
    }
  }

  // Two places of the sorted list cannot share an index: the page would occur
  // twice, and two different pages never share one.
  lemma SameIndexTwice(pages: seq<Page>, sorted: seq<Page>, i: nat, j: nat)
    requires multiset(pages) == multiset(sorted) && i < j < |sorted|
    requires forall a, b :: 0 <= a < b < |pages| ==> pages[a].index != pages[b].index
    ensures sorted[i].index != sorted[j].index
  {
    Sorting.SameElements(pages, sorted);
    assert sorted[i] in pages && sorted[j] in pages;
    if sorted[i] == sorted[j] {
      OccursOnce(pages, sorted[i]);
      OccursTwice(sorted, i, j);
    }
  }

  lemma OccursTwice(s: seq<Page>, i: nat, j: nat)
    requires i < j < |s| && s[i] == s[j]
    ensures multiset(s)[s[i]] >= 2
  {
    assert s == s[..j] + s[j..];
    assert s[i] in s[..j] && s[j] in s[j..];
  }

  lemma {:induction false} OccursOnce(pages: seq<Page>, page: Page)
    requires forall a, b :: 0 <= a < b < |pages| ==> pages[a].index != pages[b].index
    ensures multiset(pages)[page] <= 1
  {
    if pages != [] {
      Sorting.SplitFirst(pages);
      OccursOnce(pages[1..], page);
      if pages[0] == page {
        assert page !in pages[1..];
        assert multiset(pages[1..])[page] == 0;
      }
    }
  }
}
