/** Whole runs of the comparator: what one tick does to every slot at once, and what that guarantees
    on the wire. */
module Ticks {
  import opened Types
  import opened Wire
  import opened Estop
  import opened Session
  import opened SlotRun

  const MACHINES: nat := 4

  /** Everything outside the comparator that one tick depends on, by slot and by channel. `readBacks` are all
      the samples a channel takes from the previous tick's comparison to this one's: exactly one on the
      synchronous path, any number when a sampler thread is late. */
  datatype TickInput = TickInput(
    now: u64,
    role: u32,
    peers: nat -> Option<Peer>,
    openOk: nat -> bool,
    readBacks: nat -> seq<(bv32, bv32)>,
    ids: (nat, nat) -> u32,
    late: bool,
    sendOk: nat -> bool,
    arrivals: nat -> seq<Datagram>)

  datatype World = World(
    slots: seq<Slot>,
    hist0: seq<Reading>, hist1: seq<Reading>,
    tally: Tally,
    rebondRequests: set<int>, reconfigureRequests: set<int>)

  /** Lifetime counts of ticks that sent nothing, by cause. */
  datatype Tally = Tally(gated: u32, mismatches: u32, missed: u32)

  datatype Outcome = Late | Gated | Mismatch | Agreed

  /** What the tick observer is told: the generation and both samplers' verdicts. */
  datatype Report = Report(gen: nat, v0: Verdict, v1: Verdict)

  /** The tick observer is told of on-time, primed ticks, whether or not their frames agreed. */
  predicate Reported(o: Outcome) { o == Agreed || o == Mismatch }

  predicate Wellformed(w: World) { |w.slots| == MACHINES }

  function Sanitised(pairs: seq<(bv32, bv32)>): (h: seq<Reading>)
    ensures |h| == |pairs| && forall k :: 0 <= k < |h| ==> h[k] == Sanitise(pairs[k].0, pairs[k].1)
  {
    seq(|pairs|, k requires 0 <= k < |pairs| => Sanitise(pairs[k].0, pairs[k].1))
  }

  /** The samples a channel has taken once this tick's are in. */
  function Sampled(w: World, input: TickInput, channel: nat): (h: seq<Reading>) {
    (if channel == 0 then w.hist0 else w.hist1) + Sanitised(input.readBacks(channel))
  }

  function ReconfOf(w: World, input: TickInput, i: nat): Reconf {
    if i in w.reconfigureRequests then Apply(input.peers(i), input.openOk(i)) else Keep
  }

  /** Slot i once the tick's requests are applied. */
  function BegunSlot(w: World, input: TickInput, i: nat): Slot
    requires Wellformed(w) && i < MACHINES
  {
    Begun(w.slots[i], ReconfOf(w, input, i), i in w.rebondRequests)
  }

  predicate DueSlot(w: World, input: TickInput, i: nat)
    requires Wellformed(w) && i < MACHINES
  {
    SlotDue(BegunSlot(w, input, i), input.now)
  }

  /** The message channel c encodes for slot i. */
  function MsgAt(w: World, input: TickInput, c: nat, i: nat): Msg
    requires Wellformed(w) && i < MACHINES
  {
    Build(BegunSlot(w, input, i).s, VerdictOf(Sampled(w, input, c)), input.role, input.now, input.ids(c, i))
  }

  function FrameAt(w: World, input: TickInput, c: nat, i: nat): (f: seq<u8>)
    requires Wellformed(w) && i < MACHINES
    ensures |f| == FRAME_SIZE
  {
    Encode(MsgAt(w, input, c, i))
  }

  ghost predicate FramesAgree(w: World, input: TickInput)
    requires Wellformed(w)
  {
    forall i: nat :: i < MACHINES && DueSlot(w, input, i) ==> FrameAt(w, input, 0, i) == FrameAt(w, input, 1, i)
  }

  ghost function OutcomeOf(w: World, input: TickInput): Outcome
    requires Wellformed(w)
  {
    if input.late then Late
    else if !Primed(Sampled(w, input, 0), Sampled(w, input, 1)) then Gated
    else if FramesAgree(w, input) then Agreed
    else Mismatch
  }

  ghost function TickedSlot(w: World, input: TickInput, i: nat): Slot
    requires Wellformed(w) && i < MACHINES
  {
    Finished(Attempted(BegunSlot(w, input, i), OutcomeOf(w, input) == Agreed, input.sendOk(i), input.now),
             input.arrivals(i), input.now)
  }

  function Tallied(t: Tally, o: Outcome): Tally {
    match o
    case Gated => t.(gated := Add32(t.gated, 1))
    case Mismatch => t.(mismatches := Add32(t.mismatches, 1))
    case Late => t.(missed := Add32(t.missed, 1))
    case Agreed => t
  }

  ghost function Ticked(w: World, input: TickInput): (t: World)
    requires Wellformed(w)
    ensures Wellformed(t)
  {
    var o := OutcomeOf(w, input);
    World(seq(MACHINES, i requires 0 <= i < MACHINES => TickedSlot(w, input, i)),
          Sampled(w, input, 0), Sampled(w, input, 1),
          Tallied(w.tally, o),
          {}, {})
  }

  /** Requests arrive between ticks, from any thread. */
  datatype Event = Tick(input: TickInput) | AskRebond(slot: int) | AskReconfigure(slot: int)

  predicate ValidSlot(slot: int) { 0 <= slot < MACHINES }

  ghost function Next(w: World, e: Event): (t: World)
    requires Wellformed(w)
    ensures Wellformed(t)
  {
    match e
    case Tick(input) => Ticked(w, input)
    case AskRebond(slot) => if ValidSlot(slot) then w.(rebondRequests := w.rebondRequests + {slot}) else w
    case AskReconfigure(slot) =>
      if ValidSlot(slot) then w.(reconfigureRequests := w.reconfigureRequests + {slot}) else w
  }

  ghost function Run(w: World, es: seq<Event>): (t: World)
    requires Wellformed(w)
    ensures Wellformed(t)
  {
    if es == [] then w else Next(Run(w, es[..|es| - 1]), es[|es| - 1])
  }

  /** A world at boot: nothing sampled or counted yet, every session freshly opened or idle. */
  predicate Boot(w: World) {
    && Wellformed(w) && w.hist0 == [] && w.hist1 == [] && w.tally == Tally(0, 0, 0)
    && (forall i :: 0 <= i < MACHINES ==> AtBoot(w.slots[i]))
  }

  /** All samples a channel takes in a run, read off the inputs alone. */
  function SamplesOf(es: seq<Event>, channel: nat): seq<Reading> {
    if es == [] then []
    else
      SamplesOf(es[..|es| - 1], channel)
      + (if es[|es| - 1].Tick? then Sanitised(es[|es| - 1].input.readBacks(channel)) else [])
  }

  lemma {:induction false} HistoryIsSamples(w: World, es: seq<Event>)
    requires Boot(w)
    ensures Run(w, es).hist0 == SamplesOf(es, 0) && Run(w, es).hist1 == SamplesOf(es, 1)
  {
    if es != [] {
      HistoryIsSamples(w, es[..|es| - 1]);
    }
  }

  // What reaches the wire ------------------------------------------------------------------------

  /** This tick hands slot i's frame to its socket. */
  ghost predicate Attempts(w: World, input: TickInput, i: nat)
    requires Wellformed(w) && i < MACHINES
  {
    OutcomeOf(w, input) == Agreed && DueSlot(w, input, i)
  }

  datatype Handed = Handed(slot: nat, frame: seq<u8>)

  /** The marked ones among the first n frames, in slot order. */
  function Select(marked: seq<bool>, frames: seq<seq<u8>>, n: nat): seq<Handed>
    requires n <= |marked| && n <= |frames|
  {
    if n == 0 then []
    else Select(marked, frames, n - 1) + if marked[n - 1] then [Handed(n - 1, frames[n - 1])] else []
  }

  lemma SelectStep(marked: seq<bool>, frames: seq<seq<u8>>, n: nat)
    requires n <= |marked| && n <= |frames|
    ensures Select(marked, frames, n) == if n == 0 then [] else
      Select(marked, frames, n - 1) + if marked[n - 1] then [Handed(n - 1, frames[n - 1])] else []
  {
  }

  lemma {:induction false} SelectExactly(marked: seq<bool>, frames: seq<seq<u8>>, n: nat, h: Handed)
    requires n <= |marked| && n <= |frames|
    ensures h in Select(marked, frames, n) <==> h.slot < n && marked[h.slot] && h.frame == frames[h.slot]
  {
    if n > 0 {
      SelectExactly(marked, frames, n - 1, h);
    }
  }

  lemma {:induction false} SelectSame(a: seq<bool>, b: seq<bool>, f: seq<seq<u8>>, g: seq<seq<u8>>, n: nat)
    requires n <= |a| && n <= |b| && n <= |f| && n <= |g|
    requires forall i :: 0 <= i < n ==> a[i] == b[i] && (a[i] ==> f[i] == g[i])
    ensures Select(a, f, n) == Select(b, g, n)
  {
    if n > 0 {
      SelectSame(a, b, f, g, n - 1);
    }
  }

  lemma {:induction false} SelectNone(a: seq<bool>, f: seq<seq<u8>>, n: nat)
    requires n <= |a| && n <= |f| && forall i :: 0 <= i < n ==> !a[i]
    ensures Select(a, f, n) == []
  {
    if n > 0 {
      SelectNone(a, f, n - 1);
    }
  }

  /** The frames a tick hands to the sockets, in slot order. */
  ghost function HandedIn(w: World, input: TickInput): seq<Handed>
    requires Wellformed(w)
  {
    Select(seq(MACHINES, i requires 0 <= i < MACHINES => Attempts(w, input, i)),
           seq(MACHINES, i requires 0 <= i < MACHINES => FrameAt(w, input, 0, i)), MACHINES)
  }

  /** Everything handed to the sockets in a run, in order. */
  ghost function HandedDuring(w: World, es: seq<Event>): seq<Handed>
    requires Wellformed(w)
  {
    if es == [] then []
    else
      var before, e := es[..|es| - 1], es[|es| - 1];
      HandedDuring(w, before) + if e.Tick? then HandedIn(Run(w, before), e.input) else []
  }

  /** What the observer is told of the tick with this generation, if anything. */
  ghost function ReportAt(w: World, input: TickInput, gen: nat): seq<Report>
    requires Wellformed(w)
  {
    if Reported(OutcomeOf(w, input))
    then [Report(gen, VerdictOf(Sampled(w, input, 0)), VerdictOf(Sampled(w, input, 1)))]
    else []
  }

  lemma ReportAtGen(w: World, input: TickInput, gen: nat)
    requires Wellformed(w)
    ensures |ReportAt(w, input, gen)| <= 1 && forall r :: r in ReportAt(w, input, gen) ==> r.gen == gen
  {
    hide OutcomeOf, VerdictOf, Sampled;
  }

  /** Everything the observer is told in a run that comes after `base` ticks. */
  ghost function ReportsDuring(w: World, es: seq<Event>, base: nat): seq<Report>
    requires Wellformed(w)
  {
    if es == [] then []
    else
      var before, e := es[..|es| - 1], es[|es| - 1];
      ReportsDuring(w, before, base) + if e.Tick? then ReportAt(Run(w, before), e.input, base + TickCount(es)) else []
  }

  lemma RunNothing(w: World, base: nat)
    requires Wellformed(w)
    ensures Run(w, []) == w && TickCount([]) == 0 && HandedDuring(w, []) == [] && ReportsDuring(w, [], base) == []
  {
  }

  /** One more event: the world, the frames, the reports and the number of ticks. */
  lemma RunSnoc(w: World, es: seq<Event>, e: Event, base: nat)
    requires Wellformed(w)
    ensures Run(w, es + [e]) == Next(Run(w, es), e)
    ensures TickCount(es + [e]) == TickCount(es) + One(e.Tick?)
    ensures HandedDuring(w, es + [e]) == HandedDuring(w, es) + if e.Tick? then HandedIn(Run(w, es), e.input) else []
    ensures ReportsDuring(w, es + [e], base) ==
      ReportsDuring(w, es, base) + if e.Tick? then ReportAt(Run(w, es), e.input, base + TickCount(es) + 1) else []
  {
    hide HandedIn, ReportAt, Next;
    var all := es + [e];
    assert all[..|all| - 1] == es && all[|all| - 1] == e;
  }

  /** A socket is handed a frame exactly when its slot attempts a send, and then the compared one. */
  lemma HandedExactly(w: World, input: TickInput, h: Handed)
    requires Wellformed(w)
    ensures h in HandedIn(w, input) <==>
      h.slot < MACHINES && Attempts(w, input, h.slot) && h.frame == FrameAt(w, input, 0, h.slot)
  {
    SelectExactly(seq(MACHINES, i requires 0 <= i < MACHINES => Attempts(w, input, i)),
                  seq(MACHINES, i requires 0 <= i < MACHINES => FrameAt(w, input, 0, i)), MACHINES, h);
  }

  /** What a transmitted message type says about the samples behind it. */
  lemma SentKind(w: World, input: TickInput, i: nat)
    requires Wellformed(w) && i < MACHINES && Attempts(w, input, i)
    ensures var kind := MsgAt(w, input, 0, i).kind;
      && FrameAt(w, input, 0, i)[1] == Code(kind)
      && (kind == Bond <==> BegunSlot(w, input, i).s.state != Bonded)
      && (kind == Ok ==> LastThreeHealthy(Sampled(w, input, 0)) && LastThreeHealthy(Sampled(w, input, 1)))
      && (kind == Stop ==> !LastThreeHealthy(Sampled(w, input, 0)) && !LastThreeHealthy(Sampled(w, input, 1)))
  {
    EncodeInjective(MsgAt(w, input, 0, i), MsgAt(w, input, 1, i));
  }

  lemma SampledInRun(w: World, es: seq<Event>, input: TickInput, c: nat)
    requires Boot(w) && c < 2
    ensures Sampled(Run(w, es), input, c) == SamplesOf(es + [Tick(input)], c)
  {
    HistoryIsSamples(w, es);
    assert (es + [Tick(input)])[..|es|] == es;
  }

  /** In every run from boot, a frame that carries OK on the wire means both channels' last three
      samples were all healthy, for arbitrary integer reads, and that its session is bonded. */
  lemma ArmingSafety(w: World, es: seq<Event>, input: TickInput, h: Handed)
    requires Boot(w) && h in HandedIn(Run(w, es), input)
    requires |h.frame| == FRAME_SIZE && h.frame[1] == Code(Ok)
    ensures LastThreeHealthy(SamplesOf(es + [Tick(input)], 0))
    ensures LastThreeHealthy(SamplesOf(es + [Tick(input)], 1))
    ensures h.slot < MACHINES && BegunSlot(Run(w, es), input, h.slot).s.state == Bonded
  {
    HandedExactly(Run(w, es), input, h);
    SentKind(Run(w, es), input, h.slot);
    SampledInRun(w, es, input, 0);
    SampledInRun(w, es, input, 1);
  }

  /** A STOP on the wire means neither channel is armed: the two never disagree in a sent frame. */
  lemma StopIsUnanimous(w: World, es: seq<Event>, input: TickInput, h: Handed)
    requires Boot(w) && h in HandedIn(Run(w, es), input)
    requires |h.frame| == FRAME_SIZE && h.frame[1] == Code(Stop)
    ensures !LastThreeHealthy(SamplesOf(es + [Tick(input)], 0))
    ensures !LastThreeHealthy(SamplesOf(es + [Tick(input)], 1))
  {
    HandedExactly(Run(w, es), input, h);
    SentKind(Run(w, es), input, h.slot);
    SampledInRun(w, es, input, 0);
    SampledInRun(w, es, input, 1);
  }

  /** Byte comparison decides exactly this: an on-time primed tick transmits iff no due bonded slot saw
      the verdicts split and no due slot saw the sender id change between the two builds. */
  lemma AgreedExactlyWhen(w: World, input: TickInput)
    requires Wellformed(w)
    ensures OutcomeOf(w, input) == Agreed <==>
      && !input.late
      && Primed(Sampled(w, input, 0), Sampled(w, input, 1))
      && forall i: nat :: i < MACHINES && DueSlot(w, input, i) ==>
           && input.ids(0, i) == input.ids(1, i)
           && (BegunSlot(w, input, i).s.state == Bonded ==>
                 VerdictOf(Sampled(w, input, 0)) == VerdictOf(Sampled(w, input, 1)))
  {
    forall i: nat | i < MACHINES
      ensures FrameAt(w, input, 0, i) == FrameAt(w, input, 1, i) <==>
        MsgAt(w, input, 0, i) == MsgAt(w, input, 1, i)
    {
      if FrameAt(w, input, 0, i) == FrameAt(w, input, 1, i) {
        EncodeInjective(MsgAt(w, input, 0, i), MsgAt(w, input, 1, i));
      }
    }
  }

  /** Exactly one send was attempted: one of the two send counters moved, by one. */
  predicate OneAttempt(a: Sess, b: Sess) {
    || (b.tele.sent == Add32(a.tele.sent, 1) && b.tele.sendFail == a.tele.sendFail)
    || (b.tele.sent == a.tele.sent && b.tele.sendFail == Add32(a.tele.sendFail, 1))
  }

  predicate NoAttempt(a: Sess, b: Sess) {
    b.tele.sent == a.tele.sent && b.tele.sendFail == a.tele.sendFail
  }

  lemma AttemptMoves(slot: Slot, granted: bool, sendOk: bool, arrivals: seq<Datagram>, now: u64)
    ensures var t := Finished(Attempted(slot, granted, sendOk, now), arrivals, now);
      if granted && SlotDue(slot, now) then OneAttempt(slot.s, t.s) else NoAttempt(slot.s, t.s)
  {
    var a := Attempted(slot, granted, sendOk, now);
    PollFacts(a.s, a.queue + arrivals, now);
  }

  lemma SlotAttempts(w: World, input: TickInput, i: nat)
    requires Wellformed(w) && i < MACHINES
    ensures Attempts(w, input, i) ==> OneAttempt(BegunSlot(w, input, i).s, Ticked(w, input).slots[i].s)
    ensures !Attempts(w, input, i) ==> NoAttempt(BegunSlot(w, input, i).s, Ticked(w, input).slots[i].s)
  {
    AttemptMoves(BegunSlot(w, input, i), OutcomeOf(w, input) == Agreed, input.sendOk(i),
                 input.arrivals(i), input.now);
  }

  /** All or nothing: in an agreeing tick every due slot gets exactly one send attempt and no other slot
      does; in any other tick no slot gets any, whichever slot disagreed. */
  lemma AllOrNothing(w: World, input: TickInput)
    requires Wellformed(w)
    ensures OutcomeOf(w, input) == Agreed ==>
      forall i: nat :: i < MACHINES ==>
        if DueSlot(w, input, i) then OneAttempt(BegunSlot(w, input, i).s, Ticked(w, input).slots[i].s)
        else NoAttempt(BegunSlot(w, input, i).s, Ticked(w, input).slots[i].s)
    ensures OutcomeOf(w, input) != Agreed ==>
      forall i: nat :: i < MACHINES ==>
        NoAttempt(BegunSlot(w, input, i).s, Ticked(w, input).slots[i].s)
  {
    forall i: nat | i < MACHINES
      ensures if Attempts(w, input, i)
        then OneAttempt(BegunSlot(w, input, i).s, Ticked(w, input).slots[i].s)
        else NoAttempt(BegunSlot(w, input, i).s, Ticked(w, input).slots[i].s)
    {
      SlotAttempts(w, input, i);
    }
  }

  // Counting ticks -------------------------------------------------------------------------------

  /** How many ticks of a run had this outcome. */
  ghost function Count(w: World, es: seq<Event>, o: Outcome): nat
    requires Wellformed(w)
  {
    if es == [] then 0
    else
      var init, e := es[..|es| - 1], es[|es| - 1];
      Count(w, init, o) + One(e.Tick? && OutcomeOf(Run(w, init), e.input) == o)
  }

  function TickCount(es: seq<Event>): nat {
    if es == [] then 0 else TickCount(es[..|es| - 1]) + One(es[|es| - 1].Tick?)
  }

  predicate Counted(t: Tally, gated: nat, mismatches: nat, missed: nat) {
    t.gated == gated % 0x1_0000_0000 && t.mismatches == mismatches % 0x1_0000_0000 && t.missed == missed % 0x1_0000_0000
  }

  function One(b: bool): nat { if b then 1 else 0 }

  lemma TallyCounts(t: Tally, o: Outcome, gated: nat, mismatches: nat, missed: nat)
    requires Counted(t, gated, mismatches, missed)
    ensures Counted(Tallied(t, o), gated + One(o == Gated), mismatches + One(o == Mismatch), missed + One(o == Late))
  {
  }

  /** The three counters and the agreeing ticks account for every tick, each exactly once. */
  lemma {:induction false} TicksAccountedFor(w: World, es: seq<Event>)
    requires Wellformed(w) && w.tally == Tally(0, 0, 0)
    ensures TickCount(es) == Count(w, es, Late) + Count(w, es, Gated) + Count(w, es, Mismatch) + Count(w, es, Agreed)
    ensures Counted(Run(w, es).tally, Count(w, es, Gated), Count(w, es, Mismatch), Count(w, es, Late))
  {
    hide OutcomeOf, TickedSlot, Sampled, Tallied;
    if es != [] {
      var init, e := es[..|es| - 1], es[|es| - 1];
      TicksAccountedFor(w, init);
      if e.Tick? {
        TallyCounts(Run(w, init).tally, OutcomeOf(Run(w, init), e.input),
                    Count(w, init, Gated), Count(w, init, Mismatch), Count(w, init, Late));
      }
    }
  }

  /** Once one tick passes the boot gate, no later tick of the run is gated. */
  lemma {:induction false} GateOpensOnce(w: World, es: seq<Event>, first: TickInput, later: TickInput)
    requires Wellformed(w)
    requires Primed(Sampled(w, first, 0), Sampled(w, first, 1))
    ensures OutcomeOf(Run(Ticked(w, first), es), later) != Gated
  {
    hide Settled, TickedSlot, FramesAgree, Tallied, Sanitised, Run;
    var t := Ticked(w, first);
    HistoryGrows(t, es);
    var u := Run(t, es);
    SettledForever(t.hist0, Sampled(u, later, 0)[|t.hist0|..]);
    SettledForever(t.hist1, Sampled(u, later, 1)[|t.hist1|..]);
    assert t.hist0 + Sampled(u, later, 0)[|t.hist0|..] == Sampled(u, later, 0);
    assert t.hist1 + Sampled(u, later, 1)[|t.hist1|..] == Sampled(u, later, 1);
  }

  lemma {:induction false} HistoryGrows(w: World, es: seq<Event>)
    requires Wellformed(w)
    ensures w.hist0 <= Run(w, es).hist0 && w.hist1 <= Run(w, es).hist1
  {
    if es != [] {
      HistoryGrows(w, es[..|es| - 1]);
    }
  }

  /** Before the gate opens nothing is handed to any socket: as long as some channel has never shown
      three healthy or five unhealthy samples in a row, no slot attempts a send. */
  lemma SilentBeforeTheGate(w: World, es: seq<Event>, input: TickInput, i: nat)
    requires Boot(w) && i < MACHINES
    requires var all := es + [Tick(input)];
      !Settled(SamplesOf(all, 0)) || !Settled(SamplesOf(all, 1))
    ensures !Attempts(Run(w, es), input, i)
  {
    SampledInRun(w, es, input, 0);
    SampledInRun(w, es, input, 1);
  }

  // Every slot of a run is a slot run --------------------------------------------------------------

  /** The slot event a tick means for slot i. */
  ghost function Projected(w: World, input: TickInput, i: nat): SlotRun.Event
    requires Wellformed(w) && i < MACHINES
  {
    SlotRun.Event(input.now, ReconfOf(w, input, i), i in w.rebondRequests,
                  OutcomeOf(w, input) == Agreed, VerdictOf(Sampled(w, input, 0)), input.role, input.ids(0, i),
                  input.sendOk(i), input.arrivals(i))
  }

  ghost function SlotEvents(w: World, es: seq<Event>, i: nat): seq<SlotRun.Event>
    requires Wellformed(w) && i < MACHINES
  {
    if es == [] then []
    else
      var init, e := es[..|es| - 1], es[|es| - 1];
      SlotEvents(w, init, i) + if e.Tick? then [Projected(Run(w, init), e.input, i)] else []
  }

  lemma ProjectionSteps(w: World, input: TickInput, i: nat)
    requires Wellformed(w) && i < MACHINES
    ensures Ticked(w, input).slots[i] == Step(w.slots[i], Projected(w, input, i))
  {
  }

  /** Each slot of a comparator run goes through a slot run, so all that holds of slot runs holds here. */
  lemma {:induction false} SlotsRunIndependently(w: World, es: seq<Event>, i: nat)
    requires Wellformed(w) && i < MACHINES
    ensures Run(w, es).slots[i] == After(w.slots[i], SlotEvents(w, es, i))
  {
    if es != [] {
      var init, e := es[..|es| - 1], es[|es| - 1];
      SlotsRunIndependently(w, init, i);
      if e.Tick? {
        ProjectionSteps(Run(w, init), e.input, i);
        AfterSnoc(w.slots[i], SlotEvents(w, init, i), Projected(Run(w, init), e.input, i));
        assert Run(w, es) == Ticked(Run(w, init), e.input);
        assert SlotEvents(w, es, i) == SlotEvents(w, init, i) + [Projected(Run(w, init), e.input, i)];
      } else {
        assert SlotEvents(w, es, i) == SlotEvents(w, init, i);
      }
    }
  }

  /** The frame a tick transmits for slot i is the one its slot run logs. */
  lemma LoggedFrameIsTheComparedFrame(w: World, input: TickInput, i: nat)
    requires Wellformed(w) && i < MACHINES
    ensures Encode(MsgOf(w.slots[i], Projected(w, input, i))) == FrameAt(w, input, 0, i)
    ensures Transmits(w.slots[i], Projected(w, input, i)) <==> Attempts(w, input, i) && input.sendOk(i)
  {
  }

  /** The bytes a comparator run puts on slot i's wire between resets count 1, 2, 3, ..., and the frame any
      further tick compares and sends for it carries the next counter. */
  lemma RunCounterContiguity(w: World, es: seq<Event>, i: nat, input: TickInput)
    requires Boot(w) && i < MACHINES
    ensures var log := Log(w.slots[i], SlotEvents(w, es, i));
      && (forall k :: 0 <= k < |log| ==> CounterAt(Encode(log[k].msg)) == (k + 1) % 0x1_0000_0000)
      && (DueSlot(Run(w, es), input, i) ==>
            CounterAt(FrameAt(Run(w, es), input, 0, i))
              == ((if Resets(Projected(Run(w, es), input, i)) then 0 else |log|) + 1) % 0x1_0000_0000)
  {
    hide Encode, CounterAt, Log, SlotEvents, Run;
    SlotsRunIndependently(w, es, i);
    LoggedFrameIsTheComparedFrame(Run(w, es), input, i);
    CounterContiguity(w.slots[i], SlotEvents(w, es, i), Projected(Run(w, es), input, i));
  }

  // What the comparator's buffers must hold for a tick to come out as specified ------------------

  ghost predicate Buffered(w: World, input: TickInput, due: seq<bool>, f0: seq<seq<u8>>, f1: seq<seq<u8>>) {
    && Wellformed(w) && |due| == |f0| == |f1| == MACHINES
    && forall i: nat :: i < MACHINES ==>
         && due[i] == DueSlot(w, input, i)
         && (due[i] ==> f0[i] == FrameAt(w, input, 0, i) && f1[i] == FrameAt(w, input, 1, i))
  }

  ghost predicate BuffersAgree(due: seq<bool>, f0: seq<seq<u8>>, f1: seq<seq<u8>>)
    requires |due| == |f0| == |f1|
  {
    forall i :: 0 <= i < |due| && due[i] ==> f0[i] == f1[i]
  }

  lemma BufferedOutcome(w: World, input: TickInput, due: seq<bool>, f0: seq<seq<u8>>, f1: seq<seq<u8>>)
    requires Buffered(w, input, due, f0, f1)
    ensures FramesAgree(w, input) <==> BuffersAgree(due, f0, f1)
  {
    hide FrameAt, DueSlot;
    if BuffersAgree(due, f0, f1) {
      forall i: nat | i < MACHINES && DueSlot(w, input, i)
        ensures FrameAt(w, input, 0, i) == FrameAt(w, input, 1, i)
      {
        assert due[i];
      }
    }
  }

  /** Only an agreeing tick hands anything to a socket. */
  lemma NothingHanded(w: World, input: TickInput)
    requires Wellformed(w) && OutcomeOf(w, input) != Agreed
    ensures HandedIn(w, input) == []
  {
    hide FrameAt, DueSlot, OutcomeOf;
    SelectNone(seq(MACHINES, i requires 0 <= i < MACHINES => Attempts(w, input, i)),
               seq(MACHINES, i requires 0 <= i < MACHINES => FrameAt(w, input, 0, i)), MACHINES);
  }

  lemma BufferedHandover(w: World, input: TickInput, due: seq<bool>, f0: seq<seq<u8>>, f1: seq<seq<u8>>)
    requires Buffered(w, input, due, f0, f1)
    ensures HandedIn(w, input) == if OutcomeOf(w, input) == Agreed then Select(due, f0, MACHINES) else []
  {
    hide FrameAt, DueSlot, OutcomeOf;
    var marked := seq(MACHINES, i requires 0 <= i < MACHINES => Attempts(w, input, i));
    var frames := seq(MACHINES, i requires 0 <= i < MACHINES => FrameAt(w, input, 0, i));
    if OutcomeOf(w, input) == Agreed {
      SelectSame(marked, due, frames, f0, MACHINES);
    } else {
      NothingHanded(w, input);
    }
  }

  lemma TickedFrom(w: World, input: TickInput, t: World)
    requires Wellformed(w) && Wellformed(t)
    requires forall i: nat :: i < MACHINES ==> t.slots[i] == TickedSlot(w, input, i)
    requires t.hist0 == Sampled(w, input, 0) && t.hist1 == Sampled(w, input, 1)
    requires t.tally == Tallied(w.tally, OutcomeOf(w, input))
    requires t.rebondRequests == {} && t.reconfigureRequests == {}
    ensures t == Ticked(w, input)
  {
    hide TickedSlot, OutcomeOf, Tallied;
    assert t.slots == Ticked(w, input).slots;
  }

  // An OK does reach the wire ----------------------------------------------------------------------

  /** Slot i is freshly opened; its peer is silent for two ticks and answers the third, which sends; the
      fourth comes at least the longest send period later. */
  predicate Answered(slot: Slot, d1: TickInput, d2: TickInput, d3: TickInput, d4: TickInput, i: nat) {
    && slot.active && slot.s == Opened(slot.s.peer) && slot.queue == []
    && d1.arrivals(i) == [] && d2.arrivals(i) == [] && |d3.arrivals(i)| == 1 && d3.sendOk(i)
    && Sub64(d4.now, d3.now) >= MAX_SEND_PERIOD_MS
    && var d := d3.arrivals(i)[0];
       d.len == FRAME_SIZE && FromPeer(slot.s.peer, d) && d.reply.kind != Unbond
  }

  /** Nobody asked for anything, both channels read a closed loop for the n-th time, and the ids agree. */
  ghost predicate Calm(w: World, d: TickInput, n: nat)
    requires Wellformed(w)
  {
    && w.rebondRequests == {} && w.reconfigureRequests == {} && !d.late
    && Sampled(w, d, 0) == Sampled(w, d, 1) == seq(n, _ => Reading(1, 0))
    && forall i: nat :: i < MACHINES && DueSlot(w, d, i) ==> d.ids(0, i) == d.ids(1, i)
  }

  lemma {:induction false} ClosedLoop(n: nat)
    ensures Trailing(seq(n, _ => Reading(1, 0)), true) == n && Trailing(seq(n, _ => Reading(1, 0)), false) == 0
  {
    if n > 0 {
      ClosedLoop(n - 1);
      var h := seq(n, _ => Reading(1, 0));
      assert h[..n - 1] == seq(n - 1, _ => Reading(1, 0));
    }
  }

  lemma CalmOutcome(w: World, d: TickInput, n: nat)
    requires Wellformed(w) && Calm(w, d, n)
    ensures OutcomeOf(w, d) == if n >= 3 then Agreed else Gated
    ensures n >= 3 ==> VerdictOf(Sampled(w, d, 0)) == Ok
  {
    hide Sampled, DueSlot, FramesAgree, BegunSlot;
    var h := seq(n, _ => Reading(1, 0));
    if n >= 3 {
      ClosedLoop(n);
      assert h[..n] == h && SettlesAt(h[..n]);
      AgreedExactlyWhen(w, d);
    } else {
      forall k: nat | k <= |h| ensures !SettlesAt(h[..k]) {
      }
    }
  }

  /** A gated tick with nothing to hear leaves an idle slot as it is. */
  lemma IdleTick(w: World, d: TickInput, i: nat)
    requires Wellformed(w) && i < MACHINES && w.rebondRequests == {} && w.reconfigureRequests == {}
    requires OutcomeOf(w, d) != Agreed && w.slots[i].s.state == Idle && w.slots[i].queue + d.arrivals(i) == []
    ensures Ticked(w, d).slots[i] == w.slots[i]
  {
    hide OutcomeOf, Sampled;
  }

  /** An agreeing tick whose BOND is answered bonds the slot. */
  lemma BondTick(w: World, d: TickInput, i: nat)
    requires Wellformed(w) && i < MACHINES && w.rebondRequests == {} && w.reconfigureRequests == {}
    requires OutcomeOf(w, d) == Agreed && w.slots[i].active && w.slots[i].s.state == Idle && d.sendOk(i)
    requires w.slots[i].queue == [] && |d.arrivals(i)| == 1 && d.arrivals(i)[0].len == FRAME_SIZE
    requires FromPeer(w.slots[i].s.peer, d.arrivals(i)[0]) && d.arrivals(i)[0].reply.kind != Unbond
    ensures var t := Ticked(w, d).slots[i]; t.active && t.s.state == Bonded && t.s.lastSend == d.now
  {
    hide OutcomeOf, Sampled;
    var b := Attempted(w.slots[i], true, true, d.now);
    assert b.queue + d.arrivals(i) == [d.arrivals(i)[0]];
    OneReply(b.s, d.arrivals(i)[0], d.now);
  }

  /** From the start, four on-time ticks with a closed loop and an answer to the BOND send an OK. */
  lemma FourTicksSendOk(w: World, d1: TickInput, d2: TickInput, d3: TickInput, d4: TickInput, i: nat) returns (h: Handed)
    requires Wellformed(w) && i < MACHINES && Answered(w.slots[i], d1, d2, d3, d4, i)
    requires Calm(w, d1, 1) && Calm(Run(w, [Tick(d1)]), d2, 2)
    requires Calm(Run(w, [Tick(d1)] + [Tick(d2)]), d3, 3)
    requires Calm(Run(w, [Tick(d1)] + [Tick(d2)] + [Tick(d3)]), d4, 4)
    ensures h in HandedIn(Run(w, [Tick(d1)] + [Tick(d2)] + [Tick(d3)]), d4)
    ensures h.slot == i && |h.frame| == FRAME_SIZE && h.frame[1] == Code(Ok)
  {
    hide Run, Calm, Ticked, OutcomeOf, HandedIn, FrameAt, Sampled, VerdictOf;
    RunNothing(w, 0);
    RunSnoc(w, [], Tick(d1), 0);
    assert [] + [Tick(d1)] == [Tick(d1)];
    RunSnoc(w, [Tick(d1)], Tick(d2), 0);
    RunSnoc(w, [Tick(d1)] + [Tick(d2)], Tick(d3), 0);
    var u1 := Ticked(w, d1);
    var u2 := Ticked(u1, d2);
    var u3 := Ticked(u2, d3);
    NoRequests(w, d1, 1);
    CalmOutcome(w, d1, 1);
    IdleTick(w, d1, i);
    NoRequests(u1, d2, 2);
    CalmOutcome(u1, d2, 2);
    IdleTick(u1, d2, i);
    NoRequests(u2, d3, 3);
    CalmOutcome(u2, d3, 3);
    BondTick(u2, d3, i);
    NoRequests(u3, d4, 4);
    CalmOutcome(u3, d4, 4);
    h := Handed(i, FrameAt(u3, d4, 0, i));
    assert DueSlot(u3, d4, i);
    HandedExactly(u3, d4, h);
    SentKind(u3, d4, i);
    BuiltKind(u3, d4, i);
  }

  lemma NoRequests(w: World, d: TickInput, n: nat)
    requires Wellformed(w) && Calm(w, d, n)
    ensures w.rebondRequests == {} && w.reconfigureRequests == {}
  {
  }

  lemma BuiltKind(w: World, d: TickInput, i: nat)
    requires Wellformed(w) && i < MACHINES && BegunSlot(w, d, i).s.state == Bonded
    ensures MsgAt(w, d, 0, i).kind == VerdictOf(Sampled(w, d, 0))
  {
    hide VerdictOf, Sampled;
  }
}
