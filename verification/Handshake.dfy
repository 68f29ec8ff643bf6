/** The threaded tick: one comparator and two samplers interleaving over shared buffers, semaphores and
    generation stamps. Every step of every thread is an action; a run is any list of enabled actions. */
module Handshake {
  import opened Types
  import opened Wire
  import opened Estop
  import opened Session
  import opened SlotRun
  import opened Ticks

  /** What the threads share and begin_tick prepares: the slots, which of them are due, and the stamps. */
  datatype Snap = Snap(slots: seq<Slot>, due: seq<bool>, now: u64, role: u32)

  /** Slots asked to be rebonded or reconfigured. */
  datatype Requests = Requests(rebond: set<int>, reconfigure: set<int>)

  /** Where a sampler thread is: blocked on its go semaphore, past it but before reading the generation,
      inside a pass (next slot to encode), or about to give its done semaphore. */
  datatype Pc = Waiting | Taken | Passing(gen: nat, verdict: Option<Verdict>, next: nat) | Giving

  /** `hist` and `ids` record, for the claims only, every sample taken and the sender id each frame was
      built with. */
  datatype Sampler = Sampler(pc: Pc, go: bool, done: bool, gen: nat,
                             hist: seq<Reading>, verdict: Verdict, frames: seq<seq<u8>>, ids: seq<u32>)

  /** Where the comparator thread is; while it prepares or closes a tick, how many writes it has made. */
  datatype Phase =
    | Sleeping
    | Preparing(k: nat)
    | Resetting(c: nat)
    | Waking(c: nat)
    | Awaiting(c: nat, late: bool)
    | Deciding(late: bool)
    | Comparing
    | Closing(k: nat)

  /** `snap` is what the threads read and write; `minted` and `sampledAt` record, for the claims only,
      what it was and how many samples existed when the current generation was minted. `asked` are the
      pending requests and `taken` those the current tick took; `reports` are the observer's calls. */
  datatype State = State(phase: Phase, gen: nat, snap: Snap, samplers: seq<Sampler>,
                         minted: Snap, sampledAt: seq<nat>,
                         asked: Requests, taken: Requests, tally: Tally, reports: seq<Report>)

  datatype Action =
    // any thread
    | AskSlotRebond(slot: int) | AskSlotReconfigure(slot: int)
    // comparator; what it writes when preparing, sending and polling is arbitrary here
    | Clear | Prepare(snap: Snap) | Mint | ResetDone | Wake | TakeDone | TimeOut | Decide
    | Compared(slots: seq<Slot>) | Poll(slots: seq<Slot>) | Close
    // sampler c
    | TakeGo(c: nat) | ReadGen(c: nat) | Sample(c: nat, r: Reading) | EncodeSlot(c: nat, me: u32)
    | Publish(c: nat) | GiveDone(c: nat)
    // the same, with mint-to-wake and take-then-read each as one step
    | MintAndWake | TakeAndRead(c: nat)

  predicate WellformedSnap(n: Snap) { |n.slots| == MACHINES && |n.due| == MACHINES }

  /** The slots whose frames are built, compared and sent. */
  predicate Wanted(n: Snap, i: nat)
    requires WellformedSnap(n) && i < MACHINES
  {
    n.slots[i].active && n.due[i]
  }

  function Marks(n: Snap): (marks: seq<bool>)
    requires WellformedSnap(n)
    ensures |marks| == MACHINES && forall i :: 0 <= i < MACHINES ==> marks[i] == Wanted(n, i)
  {
    seq(MACHINES, i requires 0 <= i < MACHINES => Wanted(n, i))
  }

  predicate Wellformed(s: State) {
    && WellformedSnap(s.snap) && WellformedSnap(s.minted)
    && |s.samplers| == 2 && |s.sampledAt| == 2
    && forall c :: 0 <= c < 2 ==>
         && |s.samplers[c].frames| == |s.samplers[c].ids| == MACHINES
         && (s.samplers[c].pc.Passing? ==> s.samplers[c].pc.next <= MACHINES)
  }

  predicate Started(s: State) {
    && Wellformed(s) && s.phase == Sleeping && s.gen == 0 && s.tally == Tally(0, 0, 0) && s.reports == []
    && forall c :: 0 <= c < 2 ==>
         var p := s.samplers[c]; p.pc == Waiting && !p.go && !p.done && p.gen == 0 && p.hist == []
  }

  predicate SamplerAction(a: Action) {
    a.TakeGo? || a.ReadGen? || a.Sample? || a.EncodeSlot? || a.Publish? || a.GiveDone? || a.TakeAndRead?
  }

  predicate Mints(a: Action) { a.Mint? || a.MintAndWake? }

  /** One sampler's step, reading the shared snapshot and generation. */
  function SamplerStep(p: Sampler, a: Action, gen: nat, snap: Snap): (q: Option<Sampler>)
    requires WellformedSnap(snap) && |p.frames| == |p.ids| == MACHINES
    requires p.pc.Passing? ==> p.pc.next <= MACHINES
    requires SamplerAction(a)
    ensures q.Some? ==>
      |q.value.frames| == |q.value.ids| == MACHINES && (q.value.pc.Passing? ==> q.value.pc.next <= MACHINES)
  {
    match a
    case TakeGo(_) => if p.pc == Waiting && p.go then Some(p.(pc := Taken, go := false)) else None
    case ReadGen(_) => if p.pc == Taken then Some(p.(pc := Passing(gen, None, 0))) else None
    case TakeAndRead(_) =>
      if p.pc == Waiting && p.go then Some(p.(pc := Passing(gen, None, 0), go := false)) else None
    case Sample(_, r) =>
      if p.pc.Passing? && p.pc.verdict.None? then
        var v := VerdictOf(p.hist + [r]);
        Some(p.(pc := Passing(p.pc.gen, Some(v), 0), hist := p.hist + [r], verdict := v))
      else None
    case EncodeSlot(_, me) =>
      if p.pc.Passing? && p.pc.verdict.Some? && p.pc.next < MACHINES then
        var i := p.pc.next;
        var q := p.(pc := p.pc.(next := i + 1));
        Some(if Wanted(snap, i)
             then q.(frames := p.frames[i := Encode(Build(snap.slots[i].s, p.pc.verdict.value, snap.role, snap.now, me))],
                     ids := p.ids[i := me])
             else q)
      else None
    case Publish(_) =>
      if p.pc.Passing? && p.pc.verdict.Some? && p.pc.next == MACHINES
      then Some(p.(pc := Giving, gen := p.pc.gen)) else None
    case GiveDone(_) => if p.pc == Giving then Some(p.(pc := Waiting, done := true)) else None
  }

  function WithGo(p: Sampler): Sampler { p.(go := true) }
  function WithoutDone(p: Sampler): Sampler { p.(done := false) }

  function Lens(s: State): seq<nat>
    requires Wellformed(s)
  {
    [|s.samplers[0].hist|, |s.samplers[1].hist|]
  }

  /** What the comparison comes to on the buffers as they are. */
  ghost function Verdicted(s: State): Outcome
    requires Wellformed(s)
  {
    if !Primed(s.samplers[0].hist, s.samplers[1].hist) then Gated
    else if BuffersAgree(Marks(s.snap), s.samplers[0].frames, s.samplers[1].frames) then Agreed
    else Mismatch
  }

  /** The comparator's step, or a request by whoever makes it. */
  ghost function ComparatorStep(s: State, a: Action): (t: Option<State>)
    requires Wellformed(s) && !SamplerAction(a)
    ensures t.Some? ==> Wellformed(t.value)
  {
    hide Verdicted, Tallied, Reported;
    match a
    case AskSlotRebond(slot) =>
      Some(if ValidSlot(slot) then s.(asked := s.asked.(rebond := s.asked.rebond + {slot})) else s)
    case AskSlotReconfigure(slot) =>
      Some(if ValidSlot(slot) then s.(asked := s.asked.(reconfigure := s.asked.reconfigure + {slot})) else s)
    case Clear =>
      if s.phase == Sleeping
      then Some(s.(phase := Preparing(0), asked := Requests({}, {}), taken := s.asked)) else None
    case Prepare(snap) =>
      if s.phase.Preparing? && WellformedSnap(snap)
      then Some(s.(phase := Preparing(s.phase.k + 1), snap := snap)) else None
    case Mint =>
      if s.phase.Preparing?
      then Some(s.(phase := Resetting(0), gen := s.gen + 1, minted := s.snap, sampledAt := Lens(s))) else None
    case ResetDone =>
      if s.phase.Resetting? && s.phase.c < 2 then
        var c := s.phase.c;
        Some(s.(phase := if c == 1 then Waking(0) else Resetting(1),
                samplers := s.samplers[c := WithoutDone(s.samplers[c])]))
      else None
    case Wake =>
      if s.phase.Waking? && s.phase.c < 2 then
        var c := s.phase.c;
        Some(s.(phase := if c == 1 then Awaiting(0, false) else Waking(1),
                samplers := s.samplers[c := WithGo(s.samplers[c])]))
      else None
    case MintAndWake =>
      if s.phase.Preparing?
      then Some(s.(phase := Awaiting(0, false), gen := s.gen + 1, minted := s.snap, sampledAt := Lens(s),
                   samplers := [WithGo(WithoutDone(s.samplers[0])), WithGo(WithoutDone(s.samplers[1]))]))
      else None
    case TakeDone =>
      if s.phase.Awaiting? && s.phase.c < 2 && s.samplers[s.phase.c].done then
        var c := s.phase.c;
        Some(s.(phase := if c == 1 then Deciding(s.phase.late) else Awaiting(1, s.phase.late),
                samplers := s.samplers[c := WithoutDone(s.samplers[c])]))
      else None
    case TimeOut =>
      if s.phase.Awaiting? && s.phase.c < 2
      then Some(s.(phase := if s.phase.c == 1 then Deciding(true) else Awaiting(1, true))) else None
    case Decide =>
      if !s.phase.Deciding? then None
      else if !s.phase.late && Published(s) then Some(s.(phase := Comparing))
      else Some(s.(phase := Closing(0), tally := Tallied(s.tally, Late)))
    case Compared(slots) =>
      if s.phase == Comparing && |slots| == MACHINES then
        var o := Verdicted(s);
        Some(s.(phase := Closing(0), snap := s.snap.(slots := slots), tally := Tallied(s.tally, o),
                reports := s.reports + if Reported(o)
                  then [Report(s.gen, s.samplers[0].verdict, s.samplers[1].verdict)] else []))
      else None
    case Poll(slots) =>
      if s.phase.Closing? && |slots| == MACHINES
      then Some(s.(phase := Closing(s.phase.k + 1), snap := s.snap.(slots := slots))) else None
    case Close =>
      if s.phase.Closing? then Some(s.(phase := Sleeping)) else None
  }

  /** Both samplers' last completion belongs to the current generation. */
  predicate Published(s: State)
    requires Wellformed(s)
  {
    s.samplers[0].gen == s.gen && s.samplers[1].gen == s.gen
  }

  ghost function Step(s: State, a: Action): (t: Option<State>)
    requires Wellformed(s)
    ensures t.Some? ==> Wellformed(t.value)
  {
    hide SamplerStep, ComparatorStep;
    if SamplerAction(a) then
      if a.c >= 2 then None
      else
        match SamplerStep(s.samplers[a.c], a, s.gen, s.snap)
        case None => None
        case Some(p) => Some(s.(samplers := s.samplers[a.c := p]))
    else ComparatorStep(s, a)
  }

  ghost function Run(s: State, acts: seq<Action>): (t: Option<State>)
    requires Wellformed(s)
    ensures t.Some? ==> Wellformed(t.value)
    decreases |acts|
  {
    if acts == [] then Some(s)
    else
      match Step(s, acts[0])
      case None => None
      case Some(t) => Run(t, acts[1..])
  }

  // The guard -----------------------------------------------------------------------------------

  /** Each sampler has consumed its previous wake-up and read its generation. */
  predicate CaughtUp(s: State)
    requires Wellformed(s)
  {
    forall c :: 0 <= c < 2 ==> !s.samplers[c].go && s.samplers[c].pc != Taken
  }

  /** Minting in separate steps waits until the samplers are caught up; minting and waking in one step
      only needs that none is between its take and its read. */
  predicate Guarded(s: State, a: Action)
    requires Wellformed(s)
  {
    && (a.Mint? ==> CaughtUp(s))
    && (a.MintAndWake? ==> forall c :: 0 <= c < 2 ==> s.samplers[c].pc != Taken)
  }

  ghost predicate GuardedRun(s: State, acts: seq<Action>)
    requires Wellformed(s)
    decreases |acts|
  {
    acts == [] || (Guarded(s, acts[0]) && (Step(s, acts[0]).Some? ==> GuardedRun(Step(s, acts[0]).value, acts[1..])))
  }

  // The invariant -------------------------------------------------------------------------------

  /** From the mint to the end of the comparison. */
  predicate InWindow(ph: Phase) {
    ph.Resetting? || ph.Waking? || ph.Awaiting? || ph.Deciding? || ph.Comparing?
  }

  /** Sampler c has not been woken yet in this generation. */
  predicate NotYetWoken(ph: Phase, c: nat) { ph.Resetting? || (ph.Waking? && ph.c <= c) }

  /** The first n due frames of this sampler are what it owes for the minted snapshot and for a sample
      taken since the mint. */
  predicate Fresh(p: Sampler, minted: Snap, sampledAt: nat, n: nat)
    requires WellformedSnap(minted) && |p.frames| == |p.ids| == MACHINES && n <= MACHINES
  {
    && sampledAt < |p.hist| && p.verdict == VerdictOf(p.hist)
    && forall i :: 0 <= i < n && Wanted(minted, i) ==>
         p.frames[i] == Encode(Build(minted.slots[i].s, p.verdict, minted.role, minted.now, p.ids[i]))
  }

  predicate PhaseOk(ph: Phase) {
    && (ph.Resetting? ==> ph.c < 2) && (ph.Waking? ==> ph.c < 2) && (ph.Awaiting? ==> ph.c < 2)
  }

  predicate SamplerInv(p: Sampler, c: nat, ph: Phase, gen: nat, minted: Snap, sampledAt: nat)
    requires WellformedSnap(minted) && |p.frames| == |p.ids| == MACHINES
    requires p.pc.Passing? ==> p.pc.next <= MACHINES
  {
    && p.gen <= gen
    && (p.pc.Passing? ==> p.pc.gen <= gen)
    && sampledAt <= |p.hist|
    // a wake-up or a pass of this generation precedes this generation's publication, one at a time
    && (p.go ==> p.gen != gen && p.pc != Taken && !(p.pc.Passing? && p.pc.gen == gen))
    && (p.pc == Taken ==> p.gen != gen)
    && (p.pc.Passing? ==> p.gen != gen)
    && (NotYetWoken(ph, c) ==> !p.go && p.pc != Taken && p.gen != gen && !(p.pc.Passing? && p.pc.gen == gen))
    // inside the window, everything done for this generation is fresh
    && (InWindow(ph) && p.pc.Passing? && p.pc.gen == gen && p.pc.verdict.Some? ==>
          p.pc.verdict.value == p.verdict && Fresh(p, minted, sampledAt, p.pc.next))
    && (InWindow(ph) && p.gen == gen ==> Fresh(p, minted, sampledAt, MACHINES))
  }

  predicate Inv(s: State)
    requires Wellformed(s)
  {
    && PhaseOk(s.phase)
    && (InWindow(s.phase) ==> s.snap == s.minted)
    && (s.phase == Comparing ==> Published(s))
    && forall c: nat :: c < 2 ==>
         SamplerInv(s.samplers[c], c, s.phase, s.gen, s.minted, s.sampledAt[c])
  }

  lemma FreshMore(p: Sampler, q: Sampler, minted: Snap, sampledAt: nat, me: u32)
    requires WellformedSnap(minted) && |p.frames| == |p.ids| == MACHINES
    requires p.pc.Passing? && p.pc.verdict.Some? && p.pc.next < MACHINES
    requires Fresh(p, minted, sampledAt, p.pc.next) && p.pc.verdict.value == p.verdict
    requires SamplerStep(p, EncodeSlot(0, me), 0, minted) == Some(q)
    ensures Fresh(q, minted, sampledAt, p.pc.next + 1)
  {
    hide Encode, Build, VerdictOf;
  }

  /** A sampler's own step keeps its invariant. */
  lemma SamplerKeepsInv(s: State, a: Action)
    requires Wellformed(s) && Inv(s) && SamplerAction(a) && Step(s, a).Some?
    ensures Inv(Step(s, a).value)
  {
    hide Encode, Build, VerdictOf, Fresh;
    var p := s.samplers[a.c];
    var q := SamplerStep(p, a, s.gen, s.snap).value;
    if InWindow(s.phase) && a.EncodeSlot? && p.pc.gen == s.gen {
      FreshMore(p, q, s.minted, s.sampledAt[a.c], a.me);
    }
    FreshFrame(p, q, a, s.gen, s.snap, s.minted, s.sampledAt[a.c]);
    assert SamplerInv(q, a.c, s.phase, s.gen, s.minted, s.sampledAt[a.c]);
  }

  /** Steps other than sampling and encoding leave freshness as it was; sampling starts it. */
  lemma FreshFrame(p: Sampler, q: Sampler, a: Action, gen: nat, snap: Snap, minted: Snap, sampledAt: nat)
    requires WellformedSnap(minted) && WellformedSnap(snap) && |p.frames| == |p.ids| == |q.frames| == |q.ids| == MACHINES
    requires p.pc.Passing? ==> p.pc.next <= MACHINES
    requires SamplerAction(a) && SamplerStep(p, a, gen, snap) == Some(q)
    ensures !a.Sample? && !a.EncodeSlot? ==>
      forall n: nat :: n <= MACHINES ==> Fresh(p, minted, sampledAt, n) == Fresh(q, minted, sampledAt, n)
    ensures a.Sample? && sampledAt <= |p.hist| ==> Fresh(q, minted, sampledAt, 0)
  {
    hide Encode, Build, VerdictOf;
  }

  lemma StillFresh(p: Sampler, q: Sampler, minted: Snap, sampledAt: nat)
    requires WellformedSnap(minted) && |p.frames| == |p.ids| == MACHINES
    requires q.hist == p.hist && q.verdict == p.verdict && q.frames == p.frames && q.ids == p.ids
    ensures forall n: nat :: n <= MACHINES ==> Fresh(p, minted, sampledAt, n) == Fresh(q, minted, sampledAt, n)
  {
    hide Encode, Build, VerdictOf;
  }

  /** The comparator's step keeps every sampler's invariant, as long as it mints under the guard. */
  lemma ComparatorKeepsInv(s: State, a: Action)
    requires Wellformed(s) && Inv(s) && !SamplerAction(a) && Guarded(s, a) && Step(s, a).Some?
    ensures Inv(Step(s, a).value)
  {
    hide Encode, Build, VerdictOf, SamplerInv, Verdicted, Tallied, Reported;
    var t := Step(s, a).value;
    forall c: nat | c < 2 ensures SamplerInv(t.samplers[c], c, t.phase, t.gen, t.minted, t.sampledAt[c]) {
      ComparatorKeepsSampler(s, a, c);
    }
  }

  lemma ComparatorKeepsSampler(s: State, a: Action, c: nat)
    requires Wellformed(s) && Inv(s) && !SamplerAction(a) && Guarded(s, a) && Step(s, a).Some? && c < 2
    ensures var t := Step(s, a).value; SamplerInv(t.samplers[c], c, t.phase, t.gen, t.minted, t.sampledAt[c])
  {
    hide Encode, Build, VerdictOf, Fresh, Verdicted, Tallied, Reported;
    var t := Step(s, a).value;
    var p, q := s.samplers[c], t.samplers[c];
    assert SamplerInv(p, c, s.phase, s.gen, s.minted, s.sampledAt[c]);
    assert q.hist == p.hist && q.verdict == p.verdict && q.frames == p.frames && q.ids == p.ids;
    assert q.pc == p.pc && q.gen == p.gen;
    StillFresh(p, q, t.minted, t.sampledAt[c]);
  }

  /** Every state of a guarded run keeps the invariant. */
  lemma {:induction false} RunKeepsInv(s: State, acts: seq<Action>)
    requires Wellformed(s) && Inv(s) && GuardedRun(s, acts) && Run(s, acts).Some?
    ensures Inv(Run(s, acts).value)
    decreases |acts|
  {
    hide Encode, Build, VerdictOf, SamplerStep, ComparatorStep, SamplerInv;
    if acts != [] {
      if SamplerAction(acts[0]) {
        SamplerKeepsInv(s, acts[0]);
      } else {
        ComparatorKeepsInv(s, acts[0]);
      }
      RunKeepsInv(Step(s, acts[0]).value, acts[1..]);
    }
  }

  lemma StartKeepsInv(s: State)
    requires Started(s) && s.sampledAt == [0, 0]
    ensures Inv(s)
  {
  }

  // What the guard buys --------------------------------------------------------------------------

  /** Sampler p is out of its pass and cannot start another before the next wake-up. */
  predicate Quiet(p: Sampler) { !p.go && (p.pc == Waiting || p.pc == Giving) }

  /** Whenever the comparison for a generation runs, both channels' due frames were built wholly from
      that generation's snapshot and session state, for a sample taken after its mint; both samplers
      are quiet; and the snapshot is still the one they read. A stale give never gets this far. */
  lemma CompareIsFresh(start: State, acts: seq<Action>, c: nat)
    requires Started(start) && start.sampledAt == [0, 0] && GuardedRun(start, acts)
    requires Run(start, acts).Some? && Run(start, acts).value.phase == Comparing && c < 2
    ensures var t := Run(start, acts).value;
      && t.samplers[c].gen == t.gen && t.snap == t.minted
      && Fresh(t.samplers[c], t.minted, t.sampledAt[c], MACHINES)
      && Quiet(t.samplers[c])
  {
    hide Encode, Build, VerdictOf, Fresh, Run, GuardedRun;
    StartKeepsInv(start);
    RunKeepsInv(start, acts);
    assert SamplerInv(Run(start, acts).value.samplers[c], c, Comparing, Run(start, acts).value.gen,
                      Run(start, acts).value.minted, Run(start, acts).value.sampledAt[c]);
  }

  predicate NoMint(acts: seq<Action>) { forall a :: a in acts ==> !Mints(a) }

  lemma QuietStep(s: State, a: Action, c: nat)
    requires Wellformed(s) && c < 2 && !Mints(a) && Step(s, a).Some?
    requires Quiet(s.samplers[c]) && !NotYetWoken(s.phase, c)
    ensures var t := Step(s, a).value;
      && Quiet(t.samplers[c]) && !NotYetWoken(t.phase, c)
      && t.samplers[c].frames == s.samplers[c].frames && t.samplers[c].hist == s.samplers[c].hist
  {
    hide Encode, Build, VerdictOf;
  }

  /** Once quiet after its wake-up, a sampler neither samples nor writes a frame until the next mint,
      however the threads interleave. */
  lemma {:induction false} QuietUntilMint(s: State, acts: seq<Action>, c: nat)
    requires Wellformed(s) && c < 2 && NoMint(acts) && Run(s, acts).Some?
    requires Quiet(s.samplers[c]) && !NotYetWoken(s.phase, c)
    ensures var t := Run(s, acts).value;
      && Quiet(t.samplers[c])
      && t.samplers[c].frames == s.samplers[c].frames && t.samplers[c].hist == s.samplers[c].hist
    decreases |acts|
  {
    if acts != [] {
      QuietStep(s, acts[0], c);
      assert NoMint(acts[1..]);
      QuietUntilMint(Step(s, acts[0]).value, acts[1..], c);
    }
  }

  /** The samples channel c takes in a run. */
  function SamplesIn(acts: seq<Action>, c: nat): seq<Reading> {
    if acts == [] then []
    else (if acts[0].Sample? && acts[0].c == c then [acts[0].r] else []) + SamplesIn(acts[1..], c)
  }

  lemma HistoryStep(s: State, a: Action, c: nat)
    requires Wellformed(s) && c < 2 && Step(s, a).Some?
    ensures Step(s, a).value.samplers[c].hist ==
      s.samplers[c].hist + if a.Sample? && a.c == c then [a.r] else []
  {
    hide Encode, Build, VerdictOf;
  }

  lemma {:induction false} HistoryIsSamplesIn(s: State, acts: seq<Action>, c: nat)
    requires Wellformed(s) && c < 2 && Run(s, acts).Some?
    ensures Run(s, acts).value.samplers[c].hist == s.samplers[c].hist + SamplesIn(acts, c)
    decreases |acts|
  {
    hide Step;
    if acts != [] {
      HistoryStep(s, acts[0], c);
      HistoryIsSamplesIn(Step(s, acts[0]).value, acts[1..], c);
    }
  }

  lemma FreshKind(p: Sampler, minted: Snap, sampledAt: nat, i: nat)
    requires WellformedSnap(minted) && |p.frames| == |p.ids| == MACHINES && i < MACHINES && Wanted(minted, i)
    requires Fresh(p, minted, sampledAt, MACHINES)
    ensures |p.frames[i]| == FRAME_SIZE
    ensures p.frames[i][1] == Code(Ok) ==> LastThreeHealthy(p.hist)
  {
  }

  /** Arming safety on the threads: in any guarded interleaving, a due pair of identical frames that
      carries OK means both channels' last three samples were all healthy. */
  lemma ThreadedArmingSafety(start: State, acts: seq<Action>, i: nat)
    requires Started(start) && start.sampledAt == [0, 0] && GuardedRun(start, acts)
    requires Run(start, acts).Some? && Run(start, acts).value.phase == Comparing
    requires var t := Run(start, acts).value;
      && i < MACHINES && Wanted(t.minted, i) && t.samplers[0].frames[i] == t.samplers[1].frames[i]
      && |t.samplers[0].frames[i]| == FRAME_SIZE && t.samplers[0].frames[i][1] == Code(Ok)
    ensures LastThreeHealthy(SamplesIn(acts, 0)) && LastThreeHealthy(SamplesIn(acts, 1))
  {
    hide Encode, Build, VerdictOf, Fresh, Run, GuardedRun, Step;
    var t := Run(start, acts).value;
    forall c: nat | c < 2 ensures LastThreeHealthy(SamplesIn(acts, c)) {
      CompareIsFresh(start, acts, c);
      FreshKind(t.samplers[c], t.minted, t.sampledAt[c], i);
      HistoryIsSamplesIn(start, acts, c);
      assert start.samplers[c].hist == [];
      assert t.samplers[c].hist == SamplesIn(acts, c);
    }
  }

  /** What happened since the last mint. */
  function SinceMint(acts: seq<Action>): seq<Action> {
    if acts == [] || Mints(acts[|acts| - 1]) then []
    else SinceMint(acts[..|acts| - 1]) + [acts[|acts| - 1]]
  }

  /** What the comparator remembers of the window: whether a take timed out, and only gives made in it. */
  predicate Remembers(s: State, since: seq<Action>)
    requires Wellformed(s)
  {
    && (s.phase.Resetting? || s.phase.Waking? || s.phase == Comparing ==> TimeOut !in since)
    && (s.phase.Awaiting? || s.phase.Deciding? ==> (s.phase.late <==> TimeOut in since))
    && forall c: nat :: c < 2 && s.samplers[c].done && EmptiedFor(s.phase, c) ==> GiveDone(c) in since
  }

  /** The comparator has emptied sampler c's done semaphore for this window. */
  predicate EmptiedFor(ph: Phase, c: nat) { (ph.Resetting? && c < ph.c) || ph.Waking? || ph.Awaiting? }

  lemma RememberStep(s: State, a: Action, since: seq<Action>)
    requires Wellformed(s) && Step(s, a).Some? && Remembers(s, since)
    ensures Remembers(Step(s, a).value, if Mints(a) then [] else since + [a])
  {
    hide Encode, Build, VerdictOf, Verdicted, Tallied, Reported, SamplerStep, ComparatorStep;
    var later := since + [a];
    assert a in later && forall b :: b in since ==> b in later;
    assert TimeOut in later ==> TimeOut in since || a == TimeOut;
    if SamplerAction(a) {
      OnlyItsOwnGive(s, a);
    } else {
      WindowStep(s, a);
    }
  }

  lemma OnlyItsOwnGive(s: State, a: Action)
    requires Wellformed(s) && SamplerAction(a) && Step(s, a).Some?
    ensures var t := Step(s, a).value;
      && t.phase == s.phase
      && forall c: nat :: c < 2 && t.samplers[c].done ==> s.samplers[c].done || a == GiveDone(c)
  {
    hide Encode, Build, VerdictOf;
  }

  lemma WindowStep(s: State, a: Action)
    requires Wellformed(s) && !SamplerAction(a) && Step(s, a).Some?
    ensures var t := Step(s, a).value;
      && (forall c: nat :: c < 2 && t.samplers[c].done && EmptiedFor(t.phase, c) ==>
            s.samplers[c].done && EmptiedFor(s.phase, c))
      && (Mints(a) ==> s.phase.Preparing?)
      && (t.phase.Resetting? && !Mints(a) ==> s.phase.Resetting?)
      && (t.phase.Waking? ==> s.phase.Resetting? || s.phase.Waking?)
      && (t.phase.Awaiting? && !Mints(a) ==>
            if s.phase.Waking? then !t.phase.late && a != TimeOut
            else s.phase.Awaiting? && (t.phase.late <==> s.phase.late || a == TimeOut))
      && (t.phase.Awaiting? && Mints(a) ==> !t.phase.late)
      && (t.phase.Deciding? ==>
            if s.phase.Awaiting? then t.phase.late <==> s.phase.late || a == TimeOut
            else s.phase == t.phase && a != TimeOut)
      && (t.phase == Comparing ==> (s.phase == Comparing || s.phase == Deciding(false)) && a != TimeOut)
      && (t.phase.Resetting? || t.phase.Waking? ==> a != TimeOut)
  {
    hide Encode, Build, VerdictOf, Verdicted, Tallied, Reported;
  }

  lemma RunSnoc(s: State, acts: seq<Action>)
    requires Wellformed(s) && acts != [] && Run(s, acts).Some?
    ensures var init := acts[..|acts| - 1];
      Run(s, init).Some? && Step(Run(s, init).value, acts[|acts| - 1]) == Run(s, acts)
    decreases |acts|
  {
    hide Step;
    if |acts| > 1 {
      var t := Step(s, acts[0]).value;
      RunSnoc(t, acts[1..]);
      assert acts[1..][..|acts| - 2] == acts[..|acts| - 1][1..];
    }
  }

  /** In any run: frames are only ever compared when neither take timed out since the mint, even if both
      samplers have published by then, and a take is only satisfied by a give made since the mint. */
  lemma {:induction false} ComparesOnlyOnTime(start: State, acts: seq<Action>)
    requires Wellformed(start) && start.phase == Sleeping && Run(start, acts).Some?
    ensures Remembers(Run(start, acts).value, SinceMint(acts))
    decreases |acts|
  {
    hide Step, Remembers;
    if acts == [] {
      NothingToRemember(start);
    } else {
      var init := acts[..|acts| - 1];
      RunSnoc(start, acts);
      ComparesOnlyOnTime(start, init);
      RememberStep(Run(start, init).value, acts[|acts| - 1], SinceMint(init));
    }
  }

  lemma NothingToRemember(s: State)
    requires Wellformed(s) && s.phase == Sleeping
    ensures Remembers(s, [])
  {
  }

  /** With mint-to-wake and take-then-read each one step, every run is guarded. */
  predicate Coarse(acts: seq<Action>) { forall a :: a in acts ==> !a.Mint? && !a.TakeGo? }

  lemma {:induction false} CoarseRunsAreGuarded(s: State, acts: seq<Action>)
    requires Wellformed(s) && Coarse(acts)
    requires forall c :: 0 <= c < 2 ==> s.samplers[c].pc != Taken
    ensures GuardedRun(s, acts)
    decreases |acts|
  {
    hide Encode, Build, VerdictOf;
    if acts != [] && Step(s, acts[0]).Some? {
      var t := Step(s, acts[0]).value;
      assert acts[0] in acts;
      assert forall c :: 0 <= c < 2 ==> t.samplers[c].pc != Taken;
      assert Coarse(acts[1..]);
      CoarseRunsAreGuarded(t, acts[1..]);
    }
  }

  // Without the guard ----------------------------------------------------------------------------

  ghost predicate Reaches(s: State, t: State)
    requires Wellformed(s)
  {
    exists acts :: NoMint(acts) && Run(s, acts) == Some(t)
  }

  lemma {:induction false} RunAppend(s: State, a: seq<Action>, b: seq<Action>)
    requires Wellformed(s) && Run(s, a).Some?
    ensures Run(s, a + b) == Run(Run(s, a).value, b)
    decreases |a|
  {
    if a == [] {
      assert a + b == b;
    } else {
      assert (a + b)[0] == a[0] && (a + b)[1..] == a[1..] + b;
      RunAppend(Step(s, a[0]).value, a[1..], b);
    }
  }

  lemma ReachesTrans(s: State, t: State, u: State)
    requires Wellformed(s) && Wellformed(t) && Reaches(s, t) && Reaches(t, u)
    ensures Reaches(s, u)
  {
    var a :| NoMint(a) && Run(s, a) == Some(t);
    var b :| NoMint(b) && Run(t, b) == Some(u);
    RunAppend(s, a, b);
    assert NoMint(a + b);
  }

  lemma ReachesStep(s: State, a: Action)
    requires Wellformed(s) && !Mints(a) && Step(s, a).Some?
    ensures Reaches(s, Step(s, a).value)
  {
    hide Step;
    var t := Step(s, a).value;
    assert [a][1..] == [];
    assert Run(t, []) == Some(t);
    assert Run(s, [a]) == Some(t);
    assert NoMint([a]);
  }

  lemma ReachesRefl(s: State)
    requires Wellformed(s)
    ensures Reaches(s, s)
  {
    assert Run(s, []) == Some(s) && NoMint([]);
  }

  function StepsLeft(pc: Pc): nat
    requires pc.Passing? ==> pc.next <= MACHINES
  {
    match pc
    case Waiting => 0
    case Giving => 1
    case Passing(_, v, k) => if v.Some? then 2 + MACHINES - k else 3 + MACHINES
    case Taken => 4 + MACHINES
  }

  /** The generation a sampler publishes when it finishes what it is doing. */
  function Finishing(p: Sampler, gen: nat): nat {
    match p.pc
    case Passing(g, _, _) => g
    case Taken => gen
    case _ => p.gen
  }

  /** A sampler can always run its current pass to the end, disturbing nothing else. */
  lemma {:induction false} FinishPass(s: State, c: nat) returns (t: State)
    requires Wellformed(s) && c < 2
    ensures Wellformed(t) && Reaches(s, t)
    ensures var p, q := s.samplers[c], t.samplers[c];
      && t == s.(samplers := s.samplers[c := q])
      && q.pc == Waiting && q.go == p.go && q.done == (p.done || p.pc != Waiting)
      && q.gen == Finishing(p, s.gen)
    decreases StepsLeft(s.samplers[c].pc)
  {
    hide Encode, Build, VerdictOf, Reaches;
    var p := s.samplers[c];
    if p.pc == Waiting {
      ReachesRefl(s);
      t := s;
      assert s.samplers == s.samplers[c := p];
    } else {
      var a := match p.pc
        case Giving => GiveDone(c)
        case Taken => ReadGen(c)
        case Passing(_, v, k) =>
          if v.None? then Sample(c, Reading(0, 0)) else if k < MACHINES then EncodeSlot(c, 0) else Publish(c);
      var m := Step(s, a).value;
      ReachesStep(s, a);
      t := FinishPass(m, c);
      ReachesTrans(s, m, t);
    }
  }

  /** A woken sampler can run a whole pass of the current generation. */
  lemma ServeGeneration(s: State, c: nat) returns (t: State)
    requires Wellformed(s) && c < 2 && s.samplers[c].go
    ensures Wellformed(t) && Reaches(s, t)
    ensures t == s.(samplers := s.samplers[c := t.samplers[c]])
    ensures t.samplers[c].pc == Waiting && t.samplers[c].gen == s.gen && t.samplers[c].done
  {
    hide Encode, Build, VerdictOf, Reaches, Step, Run;
    var idle := FinishPass(s, c);
    var taken := TakeWakeUp(idle, c);
    t := FinishPass(taken, c);
    ReachesTrans(s, idle, taken);
    ReachesTrans(s, taken, t);
  }

  lemma TakeWakeUp(s: State, c: nat) returns (t: State)
    requires Wellformed(s) && c < 2 && s.samplers[c].go && s.samplers[c].pc == Waiting
    ensures Wellformed(t) && Reaches(s, t)
    ensures t == s.(samplers := s.samplers[c := s.samplers[c].(pc := Taken, go := false)])
  {
    hide Reaches;
    ReachesStep(s, TakeGo(c));
    t := Step(s, TakeGo(c)).value;
  }

  /** The comparator can reset and wake both samplers. */
  lemma WakeBoth(s: State) returns (t: State)
    requires Wellformed(s) && s.phase == Resetting(0)
    ensures Wellformed(t) && Reaches(s, t)
    ensures t == s.(phase := Awaiting(0, false),
      samplers := [WithGo(WithoutDone(s.samplers[0])), WithGo(WithoutDone(s.samplers[1]))])
  {
    hide Reaches, SamplerStep, Run;
    var a := Step(s, ResetDone).value;
    ReachesStep(s, ResetDone);
    var b := Step(a, ResetDone).value;
    ReachesStep(a, ResetDone);
    ReachesTrans(s, a, b);
    var c := Step(b, Wake).value;
    ReachesStep(b, Wake);
    ReachesTrans(s, b, c);
    t := Step(c, Wake).value;
    ReachesStep(c, Wake);
    ReachesTrans(s, c, t);
  }

  /** With both published and both gives pending, the comparator goes on to compare. */
  lemma ProceedToCompare(s: State) returns (t: State)
    requires Wellformed(s) && s.phase == Awaiting(0, false) && Published(s)
    requires s.samplers[0].done && s.samplers[1].done
    ensures Wellformed(t) && Reaches(s, t)
    ensures t == s.(phase := Comparing, samplers := [WithoutDone(s.samplers[0]), WithoutDone(s.samplers[1])])
  {
    hide Reaches, SamplerStep, Run;
    var a := Step(s, TakeDone).value;
    ReachesStep(s, TakeDone);
    var b := Step(a, TakeDone).value;
    ReachesStep(a, TakeDone);
    ReachesTrans(s, a, b);
    t := Step(b, Decide).value;
    ReachesStep(b, Decide);
    ReachesTrans(s, b, t);
  }

  /** A sampler about to write frames while the comparator compares and sends them. */
  predicate TornCompare(s: State)
    requires Wellformed(s)
  {
    s.phase == Comparing && exists c :: 0 <= c < 2 && s.samplers[c].pc.Passing?
  }

  /** A sampler holding a wake-up from before the mint passes twice in one generation: the first pass
      lets the comparison go ahead, the second overlaps it. */
  lemma StaleWakeUpTears(s: State, c: nat) returns (t: State)
    requires Wellformed(s) && s.phase.Preparing? && c < 2
    requires s.samplers[c].go || s.samplers[c].pc == Taken
    ensures Wellformed(t) && Reaches(Step(s, Mint).value, t) && TornCompare(t)
  {
    hide Encode, Build, VerdictOf, Reaches, Run;
    var minted := Step(s, Mint).value;
    var taken := minted;
    ReachesRefl(minted);
    if minted.samplers[c].pc != Taken {
      var idle := FinishPass(minted, c);
      taken := TakeWakeUp(idle, c);
      ReachesTrans(minted, idle, taken);
    }
    var reading := Step(taken, ReadGen(c)).value;
    ReachesStep(taken, ReadGen(c));
    ReachesTrans(minted, taken, reading);
    var woken := WakeBoth(reading);
    ReachesTrans(minted, reading, woken);
    t := OverlappingPass(woken, c);
    ReachesTrans(minted, woken, t);
  }

  lemma OverlappingPass(s: State, c: nat) returns (t: State)
    requires Wellformed(s) && c < 2 && s.phase == Awaiting(0, false)
    requires s.samplers[0].go && s.samplers[1].go
    requires s.samplers[c].pc.Passing? && s.samplers[c].pc.gen == s.gen
    ensures Wellformed(t) && Reaches(s, t) && TornCompare(t)
  {
    hide Encode, Build, VerdictOf, Reaches, Run;
    var first := FinishPass(s, c);
    var again := TakeWakeUp(first, c);
    ReachesTrans(s, first, again);
    var second := Step(again, ReadGen(c)).value;
    ReachesStep(again, ReadGen(c));
    ReachesTrans(s, again, second);
    var both := ServeGeneration(second, 1 - c);
    ReachesTrans(s, second, both);
    t := ProceedToCompare(both);
    ReachesTrans(s, both, t);
    assert t.samplers[c].pc.Passing?;
  }

  /** Minting in separate steps is safe exactly when both samplers are caught up: then no continuation up
      to the next mint overlaps the comparison with a sampler's pass; otherwise some continuation does. */
  lemma MintSafeExactlyWhenCaughtUp(s: State)
    requires Wellformed(s) && Inv(s) && s.phase.Preparing?
    ensures CaughtUp(s) <==> forall t: State :: Wellformed(t) && Reaches(Step(s, Mint).value, t) ==> !TornCompare(t)
  {
    hide Encode, Build, VerdictOf, Reaches, Run, SamplerInv;
    var minted := Step(s, Mint).value;
    if CaughtUp(s) {
      ComparatorKeepsInv(s, Mint);
      forall t: State | Wellformed(t) && Reaches(minted, t) ensures !TornCompare(t) {
        NoTearUnderInv(minted, t);
      }
    } else {
      var c: nat :| c < 2 && (s.samplers[c].go || s.samplers[c].pc == Taken);
      var t := StaleWakeUpTears(s, c);
    }
  }

  /** Minting and waking in one step is safe exactly when no sampler is between its take and its read. */
  lemma MintAndWakeSafeExactlyWhen(s: State)
    requires Wellformed(s) && Inv(s) && s.phase.Preparing?
    ensures (forall c: nat :: c < 2 ==> s.samplers[c].pc != Taken) <==>
      forall t: State :: Wellformed(t) && Reaches(Step(s, MintAndWake).value, t) ==> !TornCompare(t)
  {
    hide Encode, Build, VerdictOf, Reaches, Run, SamplerInv;
    var woken := Step(s, MintAndWake).value;
    if forall c: nat :: c < 2 ==> s.samplers[c].pc != Taken {
      ComparatorKeepsInv(s, MintAndWake);
      forall t: State | Wellformed(t) && Reaches(woken, t) ensures !TornCompare(t) {
        NoTearUnderInv(woken, t);
      }
    } else {
      var c: nat :| c < 2 && s.samplers[c].pc == Taken;
      var t := UnreadWakeUpTears(s, c);
    }
  }

  /** A sampler between its take and its read passes twice in the generation minted meanwhile. */
  lemma UnreadWakeUpTears(s: State, c: nat) returns (t: State)
    requires Wellformed(s) && s.phase.Preparing? && c < 2 && s.samplers[c].pc == Taken
    ensures Wellformed(t) && Reaches(Step(s, MintAndWake).value, t) && TornCompare(t)
  {
    hide Encode, Build, VerdictOf, Reaches, Run;
    var woken := Step(s, MintAndWake).value;
    var reading := Step(woken, ReadGen(c)).value;
    ReachesStep(woken, ReadGen(c));
    t := OverlappingPass(reading, c);
    ReachesTrans(woken, reading, t);
  }

  // ... which does happen, from the start

  function Writes(snaps: seq<Snap>): seq<Action> {
    if snaps == [] then [] else [Prepare(snaps[0])] + Writes(snaps[1..])
  }

  function Polls(polls: seq<seq<Slot>>): seq<Action> {
    if polls == [] then [] else [Poll(polls[0])] + Polls(polls[1..])
  }

  /** A tick that both samplers miss, up to the point where the next one is about to be minted. Sampler 0
      has not taken its wake-up yet (with separate steps), or has taken it but not read the generation. */
  function MissedTick(split: bool, first: seq<Snap>, polls: seq<seq<Slot>>, second: seq<Snap>): seq<Action> {
    [Clear] + Writes(first)
    + (if split then [Mint, ResetDone, ResetDone, Wake, Wake] else [MintAndWake, TakeGo(0)])
    + [TimeOut, TimeOut, Decide] + Polls(polls) + [Close, Clear] + Writes(second)
  }

  lemma RunOn(start: State, acts: seq<Action>, s: State, a: Action) returns (t: State)
    requires Wellformed(start) && Run(start, acts) == Some(s) && Step(s, a).Some?
    ensures Step(s, a) == Some(t) && Run(start, acts + [a]) == Some(t)
  {
    hide Step;
    t := Step(s, a).value;
    RunAppend(start, acts, [a]);
    assert [a][1..] == [];
    assert Run(t, []) == Some(t);
  }

  lemma {:induction false} WriteAll(s: State, snaps: seq<Snap>) returns (t: State)
    requires Wellformed(s) && s.phase.Preparing? && forall n :: n in snaps ==> WellformedSnap(n)
    ensures Run(s, Writes(snaps)) == Some(t) && t.phase.Preparing? && t.samplers == s.samplers
    decreases |snaps|
  {
    if snaps == [] {
      t := s;
    } else {
      assert snaps[0] in snaps;
      assert Writes(snaps)[1..] == Writes(snaps[1..]);
      t := WriteAll(Step(s, Prepare(snaps[0])).value, snaps[1..]);
    }
  }

  lemma {:induction false} PollThrough(s: State, polls: seq<seq<Slot>>) returns (t: State)
    requires Wellformed(s) && s.phase.Closing? && forall n :: n in polls ==> |n| == MACHINES
    ensures Run(s, Polls(polls)) == Some(t) && t.phase.Closing? && t.samplers == s.samplers
    decreases |polls|
  {
    if polls == [] {
      t := s;
    } else {
      assert polls[0] in polls;
      assert Polls(polls)[1..] == Polls(polls[1..]);
      t := PollThrough(Step(s, Poll(polls[0])).value, polls[1..]);
    }
  }

  lemma WakeAndMiss(start: State, acts: seq<Action>, s: State, split: bool) returns (t: State)
    requires Wellformed(start) && Run(start, acts) == Some(s) && s.phase.Preparing?
    requires s.samplers[0].pc == Waiting && !s.samplers[0].go
    ensures Run(start, acts + (if split then [Mint, ResetDone, ResetDone, Wake, Wake] else [MintAndWake, TakeGo(0)])
                       + [TimeOut, TimeOut, Decide]) == Some(t)
    ensures t.phase == Closing(0) && if split then t.samplers[0].go else t.samplers[0].pc == Taken
  {
    hide Run;
    var woken := s;
    var sofar := acts;
    if split {
      var a := RunOn(start, acts, s, Mint);
      var b := RunOn(start, acts + [Mint], a, ResetDone);
      var c := RunOn(start, acts + [Mint] + [ResetDone], b, ResetDone);
      var d := RunOn(start, acts + [Mint] + [ResetDone] + [ResetDone], c, Wake);
      woken := RunOn(start, acts + [Mint] + [ResetDone] + [ResetDone] + [Wake], d, Wake);
      sofar := acts + [Mint] + [ResetDone] + [ResetDone] + [Wake] + [Wake];
      assert sofar == acts + [Mint, ResetDone, ResetDone, Wake, Wake];
    } else {
      var a := RunOn(start, acts, s, MintAndWake);
      woken := RunOn(start, acts + [MintAndWake], a, TakeGo(0));
      sofar := acts + [MintAndWake] + [TakeGo(0)];
      assert sofar == acts + [MintAndWake, TakeGo(0)];
    }
    t := MissBoth(start, sofar, woken);
  }

  lemma MissBoth(start: State, acts: seq<Action>, s: State) returns (t: State)
    requires Wellformed(start) && Run(start, acts) == Some(s) && s.phase == Awaiting(0, false)
    ensures Run(start, acts + [TimeOut, TimeOut, Decide]) == Some(t)
    ensures t.phase == Closing(0) && t.samplers == s.samplers
  {
    hide Run;
    var a := RunOn(start, acts, s, TimeOut);
    var b := RunOn(start, acts + [TimeOut], a, TimeOut);
    t := RunOn(start, acts + [TimeOut] + [TimeOut], b, Decide);
    assert acts + [TimeOut] + [TimeOut] + [Decide] == acts + [TimeOut, TimeOut, Decide];
  }

  /** From the start, whatever the comparator writes in its first two ticks: after a tick that both samplers
      missed, either split form of the code goes on to compare frames while a sampler may write them. */
  lemma MissedTickTears(start: State, split: bool, first: seq<Snap>, polls: seq<seq<Slot>>, second: seq<Snap>)
    returns (rest: seq<Action>)
    requires Started(start)
    requires forall n :: n in first + second ==> WellformedSnap(n)
    requires forall n :: n in polls ==> |n| == MACHINES
    ensures NoMint(rest)
    ensures var acts := MissedTick(split, first, polls, second) + [if split then Mint else MintAndWake] + rest;
      Run(start, acts).Some? && TornCompare(Run(start, acts).value)
  {
    hide Run, Step, SamplerStep, ComparatorStep, Writes, Polls;
    var s := Missed(start, split, first, polls, second);
    var acts, mint := MissedTick(split, first, polls, second), if split then Mint else MintAndWake;
    MintOpens(s, mint);
    var minted := RunOn(start, acts, s, mint);
    var t: State;
    if split {
      t := StaleWakeUpTears(s, 0);
    } else {
      t := UnreadWakeUpTears(s, 0);
    }
    rest :| NoMint(rest) && Run(minted, rest) == Some(t);
    RunAppend(start, acts + [mint], rest);
  }

  lemma MintOpens(s: State, a: Action)
    requires Wellformed(s) && s.phase.Preparing? && Mints(a)
    ensures Step(s, a).Some?
  {
  }

  lemma Missed(start: State, split: bool, first: seq<Snap>, polls: seq<seq<Slot>>, second: seq<Snap>) returns (s: State)
    requires Started(start)
    requires forall n :: n in first + second ==> WellformedSnap(n)
    requires forall n :: n in polls ==> |n| == MACHINES
    ensures Run(start, MissedTick(split, first, polls, second)) == Some(s) && s.phase.Preparing?
    ensures if split then s.samplers[0].go else s.samplers[0].pc == Taken
  {
    hide Run, Writes, Polls, SamplerStep;
    RunNothing(start);
    var a := RunOn(start, [], start, Clear);
    assert [] + [Clear] == [Clear];
    var b := WriteAll(a, first);
    RunAppend(start, [Clear], Writes(first));
    var c := WakeAndMiss(start, [Clear] + Writes(first), b, split);
    var acts := [Clear] + Writes(first)
      + (if split then [Mint, ResetDone, ResetDone, Wake, Wake] else [MintAndWake, TakeGo(0)]) + [TimeOut, TimeOut, Decide];
    var d := PollThrough(c, polls);
    RunAppend(start, acts, Polls(polls));
    var e := RunOn(start, acts + Polls(polls), d, Close);
    var f := RunOn(start, acts + Polls(polls) + [Close], e, Clear);
    assert acts + Polls(polls) + [Close] + [Clear] == acts + Polls(polls) + [Close, Clear];
    s := WriteAll(f, second);
    RunAppend(start, acts + Polls(polls) + [Close, Clear], Writes(second));
  }

  lemma RunNothing(s: State)
    requires Wellformed(s)
    ensures Run(s, []) == Some(s)
  {
  }

  lemma {:induction false} UnmintedRunsAreGuarded(s: State, acts: seq<Action>)
    requires Wellformed(s) && NoMint(acts)
    ensures GuardedRun(s, acts)
    decreases |acts|
  {
    hide Step;
    if acts != [] {
      assert acts[0] in acts && Guarded(s, acts[0]);
    }
    if acts != [] && Step(s, acts[0]).Some? {
      assert NoMint(acts[1..]);
      UnmintedRunsAreGuarded(Step(s, acts[0]).value, acts[1..]);
    }
  }

  lemma NoTearUnderInv(s: State, t: State)
    requires Wellformed(s) && Inv(s) && Wellformed(t) && Reaches(s, t)
    ensures !TornCompare(t)
  {
    hide Encode, Build, VerdictOf, Fresh, Run, GuardedRun;
    var acts :| NoMint(acts) && Run(s, acts) == Some(t);
    UnmintedRunsAreGuarded(s, acts);
    RunKeepsInv(s, acts);
    if t.phase == Comparing {
      forall c: nat | c < 2 ensures !t.samplers[c].pc.Passing? {
        assert SamplerInv(t.samplers[c], c, t.phase, t.gen, t.minted, t.sampledAt[c]);
      }
    }
  }
}
