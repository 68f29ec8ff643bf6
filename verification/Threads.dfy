/** The threads refine the tick specification: every guarded interleaving whose comparator does to the slots
    what the code does goes through a run of `Ticks`. Slots, sample histories, requests, tick counters, the
    observer's reports and the frames handed to the sockets are the threads' own; at the end of every tick
    all of them are those of the run. */
module Threads {
  import opened Types
  import opened Wire
  import opened Estop
  import opened Session
  import opened SlotRun
  import opened Ticks
  import H = Handshake

  // What the threads do ----------------------------------------------------------------------------

  /** What comes from outside in each tick, by generation. Samples, sender ids and lateness are the threads'
      own and not taken from here. */
  type Outside = nat -> TickInput

  /** The generation the comparator is at work on, or will be next. */
  function GenOf(s: H.State): nat { if s.phase.Sleeping? || s.phase.Preparing? then s.gen + 1 else s.gen }

  /** begin_tick writes each slot for a reconfiguration, then for a rebond, the two stamps, each due mark. */
  const WRITES: nat := 3 * MACHINES + 2

  function ConfOf(taken: H.Requests, env: TickInput, i: nat): Reconf {
    if i in taken.reconfigure then Apply(env.peers(i), env.openOk(i)) else Keep
  }

  /** The k-th of these writes. */
  function Written(s: H.State, env: TickInput, k: nat): (n: H.Snap)
    requires H.Wellformed(s) && k < WRITES
    ensures H.WellformedSnap(n)
  {
    var n := s.snap;
    if k < MACHINES then n.(slots := n.slots[k := Reconfigured(n.slots[k], ConfOf(s.taken, env, k))])
    else if k < 2 * MACHINES then
      var i := k - MACHINES;
      n.(slots := n.slots[i := Begun(n.slots[i], Keep, i in s.taken.rebond)])
    else if k == 2 * MACHINES then n.(now := env.now)
    else if k == 2 * MACHINES + 1 then n.(role := env.role)
    else
      var i := k - 2 * MACHINES - 2;
      n.(due := n.due[i := SlotDue(n.slots[i], env.now)])
  }

  /** The slots after comparator_pass. */
  ghost function Compared(env: TickInput, s: H.State): (slots: seq<Slot>)
    requires H.Wellformed(s)
    ensures |slots| == MACHINES
  {
    seq(MACHINES, i requires 0 <= i < MACHINES =>
      var slot := s.snap.slots[i];
      if H.Verdicted(s) == Agreed && H.Wanted(s.snap, i)
      then slot.(s := Committed(slot.s, env.sendOk(i), s.snap.now)) else slot)
  }

  /** The frames comparator_pass hands to the sockets. */
  ghost function Sends(s: H.State): seq<Handed>
    requires H.Wellformed(s)
  {
    if H.Verdicted(s) == Agreed then Select(H.Marks(s.snap), s.samplers[0].frames, MACHINES) else []
  }

  /** A reading as the GPIO layer passes it on. */
  predicate Sane(r: Reading) { Sanitise(r.hi, r.lo) == r }

  /** This step does what the code does, given what comes from outside in its tick. */
  ghost predicate Follows(env: TickInput, s: H.State, a: H.Action)
    requires H.Wellformed(s)
  {
    match a
    case Prepare(snap) => s.phase.Preparing? && s.phase.k < WRITES && snap == Written(s, env, s.phase.k)
    case Mint => s.phase == H.Preparing(WRITES)
    case MintAndWake => s.phase == H.Preparing(WRITES)
    case Sample(_, r) => Sane(r)
    case Compared(slots) => slots == Compared(env, s)
    case Poll(slots) =>
      s.phase.Closing? && s.phase.k < MACHINES &&
      slots == s.snap.slots[s.phase.k := Finished(s.snap.slots[s.phase.k], env.arrivals(s.phase.k), env.now)]
    case Close => s.phase == H.Closing(MACHINES)
    case _ => true
  }

  /** A guarded run that does what the code does. */
  ghost predicate Following(env: Outside, s: H.State, acts: seq<H.Action>)
    requires H.Wellformed(s)
    decreases |acts|
  {
    acts == [] ||
    (H.Step(s, acts[0]).Some? && H.Guarded(s, acts[0]) && Follows(env(GenOf(s)), s, acts[0])
     && Following(env, H.Step(s, acts[0]).value, acts[1..]))
  }

  // The run of the specification they go through ---------------------------------------------------

  /** The events so far; the requests made since the current tick took its own, which count as made after
      it; and every frame handed to a socket. */
  datatype Track = Track(es: seq<Ticks.Event>, later: seq<Ticks.Event>, sent: seq<Handed>)

  predicate Undecided(ph: H.Phase) { !ph.Sleeping? && !ph.Closing? }

  function Noted(ph: H.Phase, e: Ticks.Event, tr: Track): Track {
    if Undecided(ph) then tr.(later := tr.later + [e]) else tr.(es := tr.es + [e])
  }

  function Raw(h: seq<Reading>): seq<(bv32, bv32)> {
    seq(|h|, k requires 0 <= k < |h| => (h[k].hi, h[k].lo))
  }

  /** The samples taken since. */
  function Since(h: seq<Reading>, before: seq<Reading>): seq<Reading> { h[Min(|before|, |h|)..] }

  /** The tick the comparator decides: every sample taken since the last decision, and the ids used. */
  function Decision(w: World, env: TickInput, s: H.State, late: bool): TickInput
    requires H.Wellformed(s)
  {
    var p0, p1 := s.samplers[0], s.samplers[1];
    env.(readBacks := (c: nat) => if c == 0 then Raw(Since(p0.hist, w.hist0)) else Raw(Since(p1.hist, w.hist1)),
         ids := (c: nat, i: nat) => if i >= MACHINES then 0 else if c == 0 then p0.ids[i] else p1.ids[i],
         late := late)
  }

  predicate Declines(s: H.State, a: H.Action)
    requires H.Wellformed(s)
  {
    a.Decide? && s.phase.Deciding? && !(!s.phase.late && H.Published(s))
  }

  function Decided(tr: Track, input: TickInput, sent: seq<Handed>): Track {
    Track(tr.es + [Tick(input)] + tr.later, [], tr.sent + sent)
  }

  ghost function NextTrack(w: World, env: TickInput, s: H.State, a: H.Action, tr: Track): Track
    requires Wellformed(w) && H.Wellformed(s)
  {
    match a
    case AskSlotRebond(slot) => Noted(s.phase, AskRebond(slot), tr)
    case AskSlotReconfigure(slot) => Noted(s.phase, AskReconfigure(slot), tr)
    case Compared(_) => Decided(tr, Decision(Ticks.Run(w, tr.es), env, s, false), Sends(s))
    case _ => if Declines(s, a) then Decided(tr, Decision(Ticks.Run(w, tr.es), env, s, true), []) else tr
  }

  ghost function TrackFrom(w: World, env: Outside, s: H.State, acts: seq<H.Action>, tr: Track): Track
    requires Wellformed(w) && H.Wellformed(s) && Following(env, s, acts)
    decreases |acts|
  {
    if acts == [] then tr
    else TrackFrom(w, env, H.Step(s, acts[0]).value, acts[1..], NextTrack(w, env(GenOf(s)), s, acts[0], tr))
  }

  /** What a run from the start amounts to. */
  ghost function TrackOf(w: World, env: Outside, s: H.State, acts: seq<H.Action>): Track
    requires Wellformed(w) && H.Wellformed(s) && Following(env, s, acts)
  {
    TrackFrom(w, env, s, acts, Track([], [], []))
  }

  // The relation -----------------------------------------------------------------------------------

  predicate OnlyAsks(es: seq<Ticks.Event>) { forall i :: 0 <= i < |es| ==> !es[i].Tick? }

  function AskedIn(es: seq<Ticks.Event>): H.Requests {
    if es == [] then H.Requests({}, {})
    else
      var q, e := AskedIn(es[..|es| - 1]), es[|es| - 1];
      if e.AskRebond? && ValidSlot(e.slot) then q.(rebond := q.rebond + {e.slot})
      else if e.AskReconfigure? && ValidSlot(e.slot) then q.(reconfigure := q.reconfigure + {e.slot})
      else q
  }

  predicate Pending(w: World, q: H.Requests) { q == H.Requests(w.rebondRequests, w.reconfigureRequests) }

  /** Both channels' histories go on from the world's, with readings the GPIO layer passes on. */
  predicate Beyond(w: World, s: H.State)
    requires H.Wellformed(s)
  {
    && w.hist0 <= s.samplers[0].hist && w.hist1 <= s.samplers[1].hist
    && (forall r :: r in s.samplers[0].hist ==> Sane(r)) && (forall r :: r in s.samplers[1].hist ==> Sane(r))
  }

  /** begin_tick's snapshot once all its writes are made. */
  function SnapOf(w: World, env: TickInput): (n: H.Snap)
    requires Wellformed(w)
    ensures H.WellformedSnap(n)
  {
    H.Snap(seq(MACHINES, i requires 0 <= i < MACHINES => BegunSlot(w, env, i)),
           seq(MACHINES, i requires 0 <= i < MACHINES => DueSlot(w, env, i)),
           env.now, env.role)
  }

  /** The snapshot after k of them. */
  predicate Partly(w: World, env: TickInput, n: H.Snap, k: nat)
    requires Wellformed(w) && H.WellformedSnap(n)
  {
    && k <= WRITES
    && (forall i: nat :: i < MACHINES ==>
          n.slots[i] == if i + MACHINES < k then BegunSlot(w, env, i)
                        else if i < k then Reconfigured(w.slots[i], ReconfOf(w, env, i))
                        else w.slots[i])
    && (k > 2 * MACHINES ==> n.now == env.now) && (k > 2 * MACHINES + 1 ==> n.role == env.role)
    && (forall i: nat :: i < MACHINES && i + 2 * MACHINES + 2 < k ==> n.due[i] == DueSlot(w, env, i))
  }

  /** The slots after k polls, when w is the world at the end of the tick. */
  predicate Closed(w: World, env: TickInput, slots: seq<Slot>, k: nat)
    requires Wellformed(w) && |slots| == MACHINES
  {
    k <= MACHINES &&
    forall i: nat :: i < MACHINES ==>
      w.slots[i] == if i < k then slots[i] else Finished(slots[i], env.arrivals(i), env.now)
  }

  /** Slots and requests: w is the world before the current tick until the comparator has decided, and the
      world after it from then on. */
  ghost predicate Staged(w: World, env: TickInput, s: H.State, later: seq<Ticks.Event>)
    requires Wellformed(w) && H.Wellformed(s)
  {
    if Undecided(s.phase) then
      && OnlyAsks(later) && s.asked == AskedIn(later) && Pending(w, s.taken)
      && if s.phase.Preparing? then Partly(w, env, s.snap, s.phase.k) else s.snap == SnapOf(w, env)
    else
      && later == [] && Pending(w, s.asked)
      && if s.phase.Closing? then Closed(w, env, s.snap.slots, s.phase.k) else s.snap.slots == w.slots
  }

  /** Samples, counters, reports and frames. */
  ghost predicate Ledger(w: World, s: H.State, tr: Track)
    requires Wellformed(w) && H.Wellformed(s)
  {
    && Beyond(Ticks.Run(w, tr.es), s)
    && s.tally == Ticks.Run(w, tr.es).tally
    && s.reports == ReportsDuring(w, tr.es, 0)
    && tr.sent == HandedDuring(w, tr.es)
    && s.gen == TickCount(tr.es) + One(H.InWindow(s.phase))
  }

  /** The threads are where the run tr.es of the specification from world w is. */
  ghost predicate Related(w: World, env: Outside, s: H.State, tr: Track)
    requires Wellformed(w) && H.Wellformed(s)
  {
    H.Inv(s) && Ledger(w, s, tr) && Staged(Ticks.Run(w, tr.es), env(GenOf(s)), s, tr.later)
  }

  // Requests ---------------------------------------------------------------------------------------

  /** Requests change nothing but the requests. */
  lemma {:induction false} AsksAfter(w: World, es: seq<Ticks.Event>, asks: seq<Ticks.Event>)
    requires Wellformed(w) && OnlyAsks(asks)
    requires Ticks.Run(w, es).rebondRequests == {} && Ticks.Run(w, es).reconfigureRequests == {}
    ensures var q := AskedIn(asks);
      Ticks.Run(w, es + asks) == Ticks.Run(w, es).(rebondRequests := q.rebond, reconfigureRequests := q.reconfigure)
    ensures TickCount(es + asks) == TickCount(es) && HandedDuring(w, es + asks) == HandedDuring(w, es)
    ensures ReportsDuring(w, es + asks, 0) == ReportsDuring(w, es, 0)
    decreases |asks|
  {
    hide Ticks.Run, HandedDuring, ReportsDuring, TickCount;
    if asks == [] {
      assert es + asks == es;
    } else {
      var init, e := asks[..|asks| - 1], asks[|asks| - 1];
      AsksAfter(w, es, init);
      RunSnoc(w, es + init, e, 0);
      assert es + init + [e] == es + asks;
    }
  }

  /** A decided tick, and then the requests made during it. */
  lemma TickThenAsks(w: World, es: seq<Ticks.Event>, input: TickInput, asks: seq<Ticks.Event>)
    requires Wellformed(w) && OnlyAsks(asks)
    ensures var u, all, q := Ticks.Run(w, es), es + [Tick(input)] + asks, AskedIn(asks);
      && Ticks.Run(w, all) == Ticked(u, input).(rebondRequests := q.rebond, reconfigureRequests := q.reconfigure)
      && TickCount(all) == TickCount(es) + 1
      && HandedDuring(w, all) == HandedDuring(w, es) + HandedIn(u, input)
      && ReportsDuring(w, all, 0) == ReportsDuring(w, es, 0) + ReportAt(u, input, TickCount(es) + 1)
  {
    hide Ticks.Run, HandedDuring, ReportsDuring, TickCount, TickedSlot, OutcomeOf, Sampled, Tallied, HandedIn, ReportAt,
      AskedIn;
    RunSnoc(w, es, Tick(input), 0);
    AsksAfter(w, es + [Tick(input)], asks);
  }

  // Samples ----------------------------------------------------------------------------------------

  lemma RawSanitised(h: seq<Reading>)
    requires forall r :: r in h ==> Sane(r)
    ensures Sanitised(Raw(h)) == h
  {
    forall k | 0 <= k < |h| ensures Sanitised(Raw(h))[k] == h[k] {
      assert h[k] in h && Sane(h[k]);
    }
  }

  lemma DecisionSamples(w: World, env: TickInput, s: H.State, late: bool)
    requires H.Wellformed(s) && Beyond(w, s)
    ensures var input := Decision(w, env, s, late);
      Sampled(w, input, 0) == s.samplers[0].hist && Sampled(w, input, 1) == s.samplers[1].hist
  {
    hide Sane;
    RawSanitised(Since(s.samplers[0].hist, w.hist0));
    RawSanitised(Since(s.samplers[1].hist, w.hist1));
  }

  /** What begin_tick computes does not depend on how the tick goes on. */
  lemma SameBegin(w: World, env: TickInput, s: H.State, late: bool)
    requires Wellformed(w) && H.Wellformed(s)
    ensures var input := Decision(w, env, s, late);
      && SnapOf(w, input) == SnapOf(w, env)
      && forall i: nat :: i < MACHINES ==>
           BegunSlot(w, input, i) == BegunSlot(w, env, i) && DueSlot(w, input, i) == DueSlot(w, env, i)
  {
    hide Begun, SlotDue;
  }

  lemma HistoriesGrow(s: H.State, a: H.Action)
    requires H.Wellformed(s) && H.Step(s, a).Some?
    ensures var t := H.Step(s, a).value;
      forall c: nat :: c < 2 ==>
        && s.samplers[c].hist <= t.samplers[c].hist
        && forall r :: r in t.samplers[c].hist ==> r in s.samplers[c].hist || (a.Sample? && r == a.r)
  {
    hide H.Step;
    H.HistoryStep(s, a, 0);
    H.HistoryStep(s, a, 1);
  }

  lemma StaysBeyond(w: World, env: TickInput, s: H.State, a: H.Action)
    requires H.Wellformed(s) && H.Step(s, a).Some? && Follows(env, s, a) && Beyond(w, s)
    ensures Beyond(w, H.Step(s, a).value)
  {
    hide H.Step, H.Wellformed, Sane, Compared, Written;
    HistoriesGrow(s, a);
  }

  // The comparison ---------------------------------------------------------------------------------

  lemma MarksAreDue(w: World, env: TickInput)
    requires Wellformed(w)
    ensures H.Marks(SnapOf(w, env)) == SnapOf(w, env).due
  {
    hide BegunSlot;
  }

  /** At the comparison both channels' buffers are those of the tick specification. */
  lemma BuffersAsSpecified(w: World, env: TickInput, s: H.State)
    requires H.Wellformed(s) && H.Inv(s) && Wellformed(w)
    requires Beyond(w, s) && s.phase == H.Comparing && s.snap == SnapOf(w, env)
    ensures Buffered(w, Decision(w, env, s, false), H.Marks(s.snap), s.samplers[0].frames, s.samplers[1].frames)
  {
    hide Encode, Build, VerdictOf, BegunSlot, DueSlot, Sampled, Sanitised;
    var input := Decision(w, env, s, false);
    SameBegin(w, env, s, false);
    DecisionSamples(w, env, s, false);
    MarksAreDue(w, env);
    forall c: nat, i: nat | c < 2 && i < MACHINES && H.Wanted(s.snap, i)
      ensures s.samplers[c].frames[i] == FrameAt(w, input, c, i)
    {
      FreshAtCompare(s, c);
      assert input.ids(c, i) == s.samplers[c].ids[i];
    }
  }

  lemma FreshAtCompare(s: H.State, c: nat)
    requires H.Wellformed(s) && H.Inv(s) && s.phase == H.Comparing && c < 2
    ensures var p := s.samplers[c];
      && p.verdict == VerdictOf(p.hist)
      && forall i: nat :: i < MACHINES && H.Wanted(s.snap, i) ==>
           p.frames[i] == Encode(Build(s.snap.slots[i].s, p.verdict, s.snap.role, s.snap.now, p.ids[i]))
  {
    hide Encode, Build, VerdictOf;
    assert H.SamplerInv(s.samplers[c], c, s.phase, s.gen, s.minted, s.sampledAt[c]);
    assert H.Fresh(s.samplers[c], s.minted, s.sampledAt[c], MACHINES);
  }

  /** Comparing and sending is what the tick specification says. */
  lemma ComparesAsSpecified(w: World, env: TickInput, s: H.State)
    requires H.Wellformed(s) && H.Inv(s) && Wellformed(w)
    requires Beyond(w, s) && s.phase == H.Comparing && s.snap == SnapOf(w, env)
    ensures var input := Decision(w, env, s, false);
      && OutcomeOf(w, input) == H.Verdicted(s) && Sends(s) == HandedIn(w, input)
      && s.samplers[0].verdict == VerdictOf(Sampled(w, input, 0))
      && s.samplers[1].verdict == VerdictOf(Sampled(w, input, 1))
  {
    hide Encode, Build, VerdictOf, BegunSlot, Sampled, Sanitised, Buffered, BuffersAgree, FramesAgree, Primed, Select,
      HandedIn, H.Marks, H.Wanted;
    var input := Decision(w, env, s, false);
    DecisionSamples(w, env, s, false);
    BuffersAsSpecified(w, env, s);
    BufferedOutcome(w, input, H.Marks(s.snap), s.samplers[0].frames, s.samplers[1].frames);
    BufferedHandover(w, input, H.Marks(s.snap), s.samplers[0].frames, s.samplers[1].frames);
    FreshAtCompare(s, 0);
    FreshAtCompare(s, 1);
  }

  // Steps ------------------------------------------------------------------------------------------

  lemma SamplerStays(w: World, env: Outside, s: H.State, a: H.Action, tr: Track)
    requires Wellformed(w) && H.Wellformed(s)
    requires Related(w, env, s, tr) && H.SamplerAction(a) && H.Step(s, a).Some? && Follows(env(GenOf(s)), s, a)
    ensures Related(w, env, H.Step(s, a).value, tr)
  {
    hide H.Inv, Ticks.Run, HandedDuring, ReportsDuring, SnapOf, Partly, Closed, Beyond, H.SamplerStep;
    H.SamplerKeepsInv(s, a);
    StaysBeyond(Ticks.Run(w, tr.es), env(GenOf(s)), s, a);
  }

  predicate Asks(a: H.Action) { a.AskSlotRebond? || a.AskSlotReconfigure? }

  function AskEvent(a: H.Action): Ticks.Event
    requires Asks(a)
  {
    if a.AskSlotRebond? then AskRebond(a.slot) else AskReconfigure(a.slot)
  }

  lemma AskStays(w: World, env: Outside, s: H.State, a: H.Action, tr: Track)
    requires Wellformed(w) && H.Wellformed(s)
    requires Related(w, env, s, tr) && Asks(a)
    ensures H.Step(s, a).Some? && Related(w, env, H.Step(s, a).value, NextTrack(w, env(GenOf(s)), s, a, tr))
  {
    hide H.Inv, Ticks.Run, HandedDuring, ReportsDuring, SnapOf, Partly, Closed, TickCount, Beyond;
    H.ComparatorKeepsInv(s, a);
    var e, u, o := AskEvent(a), Ticks.Run(w, tr.es), env(GenOf(s));
    StaysBeyond(u, o, s, a);
    if Undecided(s.phase) {
      var more := tr.later + [e];
      assert more[..|more| - 1] == tr.later && more[|more| - 1] == e;
    } else {
      RunSnoc(w, tr.es, e, 0);
      var v := Ticks.Run(w, tr.es + [e]);
      SameBeyond(u, v, H.Step(s, a).value);
      if s.phase.Closing? {
        ClosedSlots(u, v, o, s.snap.slots, s.phase.k);
      }
    }
  }

  lemma SameBeyond(u: World, v: World, s: H.State)
    requires H.Wellformed(s) && u.hist0 == v.hist0 && u.hist1 == v.hist1
    ensures Beyond(u, s) == Beyond(v, s)
  {
  }

  lemma ClearStays(w: World, env: Outside, s: H.State, tr: Track)
    requires Wellformed(w) && H.Wellformed(s)
    requires Related(w, env, s, tr) && H.Step(s, H.Clear).Some?
    ensures Related(w, env, H.Step(s, H.Clear).value, tr)
  {
    hide H.Inv, Ticks.Run, HandedDuring, ReportsDuring, SnapOf, Closed, BegunSlot, DueSlot, Beyond, TickCount;
    H.ComparatorKeepsInv(s, H.Clear);
    StaysBeyond(Ticks.Run(w, tr.es), env(GenOf(s)), s, H.Clear);
  }

  /** One more write brings the snapshot one step on. */
  lemma WriteStays(w: World, env: TickInput, s: H.State)
    requires Wellformed(w) && H.Wellformed(s) && s.phase.Preparing? && s.phase.k < WRITES
    requires Pending(w, s.taken) && Partly(w, env, s.snap, s.phase.k)
    ensures Partly(w, env, Written(s, env, s.phase.k), s.phase.k + 1)
  {
    hide Due, Rebonded, Opened, Closed;
    var n, m, k := s.snap, Written(s, env, s.phase.k), s.phase.k;
    assert forall i: nat :: i < MACHINES ==> ConfOf(s.taken, env, i) == ReconfOf(w, env, i);
    assert k < MACHINES ==> m.slots[k] == Reconfigured(w.slots[k], ReconfOf(w, env, k));
    assert MACHINES <= k < 2 * MACHINES ==> m.slots[k - MACHINES] == BegunSlot(w, env, k - MACHINES);
    hide Begun, Reconfigured, ReconfOf;
  }

  lemma AllWritten(w: World, env: TickInput, n: H.Snap)
    requires Wellformed(w) && H.WellformedSnap(n) && Partly(w, env, n, WRITES)
    ensures n == SnapOf(w, env)
  {
    hide BegunSlot, DueSlot;
    assert n.slots == SnapOf(w, env).slots;
    assert n.due == SnapOf(w, env).due;
  }

  lemma PrepareStays(w: World, env: Outside, s: H.State, a: H.Action, tr: Track)
    requires Wellformed(w) && H.Wellformed(s)
    requires Related(w, env, s, tr) && a.Prepare? && H.Step(s, a).Some? && Follows(env(GenOf(s)), s, a)
    ensures Related(w, env, H.Step(s, a).value, tr)
  {
    hide H.Inv, Ticks.Run, HandedDuring, ReportsDuring, SnapOf, Closed, Beyond, TickCount, Partly, Written;
    H.ComparatorKeepsInv(s, a);
    WriteStays(Ticks.Run(w, tr.es), env(GenOf(s)), s);
    StaysBeyond(Ticks.Run(w, tr.es), env(GenOf(s)), s, a);
  }

  /** From the mint to the decision the comparator only signals. */
  predicate Signals(a: H.Action) {
    a.Mint? || a.MintAndWake? || a.ResetDone? || a.Wake? || a.TakeDone? || a.TimeOut? || a.Decide?
  }

  lemma SignalStays(w: World, env: Outside, s: H.State, a: H.Action, tr: Track)
    requires Wellformed(w) && H.Wellformed(s)
    requires Related(w, env, s, tr) && H.Guarded(s, a) && H.Step(s, a).Some? && Follows(env(GenOf(s)), s, a)
    requires Signals(a) && !Declines(s, a)
    ensures Related(w, env, H.Step(s, a).value, tr)
  {
    hide H.Inv, Ticks.Run, HandedDuring, ReportsDuring, SnapOf, Closed, Beyond, TickCount, Partly, H.Guarded;
    H.ComparatorKeepsInv(s, a);
    StaysBeyond(Ticks.Run(w, tr.es), env(GenOf(s)), s, a);
    if s.phase.Preparing? {
      AllWritten(Ticks.Run(w, tr.es), env(GenOf(s)), s.snap);
    }
  }

  /** Declining leaves the slots as begun and sends nothing, as the specification says of a late tick. */
  lemma DeclineStays(w: World, env: Outside, s: H.State, a: H.Action, tr: Track)
    requires Wellformed(w) && H.Wellformed(s)
    requires Related(w, env, s, tr) && Declines(s, a)
    ensures H.Step(s, a).Some? && Related(w, env, H.Step(s, a).value, NextTrack(w, env(GenOf(s)), s, a, tr))
  {
    hide H.Inv, Ticks.Run, HandedDuring, ReportsDuring, TickCount, HandedIn, Sampled, Finished, BegunSlot, DueSlot,
      FramesAgree, Primed, Decision, AskedIn;
    var u, o := Ticks.Run(w, tr.es), env(GenOf(s));
    var input := Decision(u, o, s, true);
    H.ComparatorKeepsInv(s, a);
    TickThenAsks(w, tr.es, input, tr.later);
    DecisionSamples(u, o, s, true);
    DecisionFrame(u, o, s, true);
    SameBegin(u, o, s, true);
    NothingHanded(u, input);
  }

  lemma DecisionFrame(w: World, env: TickInput, s: H.State, late: bool)
    requires H.Wellformed(s)
    ensures var input := Decision(w, env, s, late);
      && input.late == late && input.now == env.now && input.role == env.role
      && input.arrivals == env.arrivals && input.sendOk == env.sendOk
  {
  }

  /** The slots after sending, polled and watched, are those of the ticked world. */
  lemma ComparedFinishes(w: World, env: TickInput, s: H.State)
    requires H.Wellformed(s) && H.Inv(s) && Wellformed(w)
    requires Beyond(w, s) && s.phase == H.Comparing && s.snap == SnapOf(w, env)
    ensures Closed(Ticked(w, Decision(w, env, s, false)), env, Compared(env, s), 0)
  {
    hide H.Inv, Sampled, Finished, Begun, FramesAgree, Primed, Decision, BuffersAgree, Committed, Due, OutcomeOf,
      H.Verdicted, ReconfOf;
    SameBegin(w, env, s, false);
    DecisionFrame(w, env, s, false);
    ComparesAsSpecified(w, env, s);
  }

  lemma CompareStays(w: World, env: Outside, s: H.State, a: H.Action, tr: Track)
    requires Wellformed(w) && H.Wellformed(s)
    requires Related(w, env, s, tr) && a.Compared? && H.Step(s, a).Some? && Follows(env(GenOf(s)), s, a)
    ensures Related(w, env, H.Step(s, a).value, NextTrack(w, env(GenOf(s)), s, a, tr))
  {
    hide H.Inv, Ticks.Run, HandedDuring, ReportsDuring, TickCount, HandedIn, Sampled, TickedSlot, OutcomeOf, SnapOf,
      Compared, Sends, Closed, Decision, AskedIn, H.Verdicted, Tallied, Reported, VerdictOf;
    var u, o := Ticks.Run(w, tr.es), env(GenOf(s));
    var input := Decision(u, o, s, false);
    H.ComparatorKeepsInv(s, a);
    TickThenAsks(w, tr.es, input, tr.later);
    DecisionSamples(u, o, s, false);
    ComparesAsSpecified(u, o, s);
    ComparedFinishes(u, o, s);
    ClosedSlots(Ticked(u, input), Ticks.Run(w, NextTrack(w, o, s, a, tr).es), o, Compared(o, s), 0);
  }

  lemma ClosedSlots(u: World, v: World, env: TickInput, slots: seq<Slot>, k: nat)
    requires Wellformed(u) && u.slots == v.slots && |slots| == MACHINES
    ensures Closed(u, env, slots, k) == Closed(v, env, slots, k)
  {
    hide Finished;
  }

  lemma PollStays(w: World, env: Outside, s: H.State, a: H.Action, tr: Track)
    requires Wellformed(w) && H.Wellformed(s)
    requires Related(w, env, s, tr) && (a.Poll? || a.Close?) && H.Step(s, a).Some? && Follows(env(GenOf(s)), s, a)
    ensures Related(w, env, H.Step(s, a).value, tr)
  {
    hide H.Inv, Ticks.Run, HandedDuring, ReportsDuring, TickCount, SnapOf, Partly, Beyond, Finished;
    H.ComparatorKeepsInv(s, a);
    StaysBeyond(Ticks.Run(w, tr.es), env(GenOf(s)), s, a);
  }

  lemma StepStays(w: World, env: Outside, s: H.State, a: H.Action, tr: Track)
    requires Wellformed(w) && H.Wellformed(s)
    requires Related(w, env, s, tr) && H.Guarded(s, a) && H.Step(s, a).Some? && Follows(env(GenOf(s)), s, a)
    ensures Related(w, env, H.Step(s, a).value, NextTrack(w, env(GenOf(s)), s, a, tr))
  {
    hide Related, H.Guarded, H.Step, Follows, Noted, Sends, Decided;
    if H.SamplerAction(a) {
      SamplerStays(w, env, s, a, tr);
    } else if Asks(a) {
      AskStays(w, env, s, a, tr);
    } else if Declines(s, a) {
      DeclineStays(w, env, s, a, tr);
    } else if Signals(a) {
      SignalStays(w, env, s, a, tr);
    } else {
      match a
      case Clear => ClearStays(w, env, s, tr);
      case Prepare(_) => PrepareStays(w, env, s, a, tr);
      case Compared(_) => CompareStays(w, env, s, a, tr);
      case _ => PollStays(w, env, s, a, tr);
    }
  }

  lemma {:induction false} RunStays(w: World, env: Outside, s: H.State, acts: seq<H.Action>, tr: Track)
    requires Wellformed(w) && H.Wellformed(s)
    requires Related(w, env, s, tr) && Following(env, s, acts)
    ensures H.Run(s, acts).Some?
    ensures Related(w, env, H.Run(s, acts).value, TrackFrom(w, env, s, acts, tr))
    decreases |acts|
  {
    hide Related, H.Step, H.Guarded, Follows, NextTrack;
    if acts != [] {
      StepStays(w, env, s, acts[0], tr);
      RunStays(w, env, H.Step(s, acts[0]).value, acts[1..], NextTrack(w, env(GenOf(s)), s, acts[0], tr));
    }
  }

  // What it means ----------------------------------------------------------------------------------

  /** Threads that have just been started, on the slots and requests of w. */
  predicate StartedOn(w: World, s: H.State) {
    Boot(w) && H.Started(s) && s.sampledAt == [0, 0] && s.snap.slots == w.slots && Pending(w, s.asked)
  }

  lemma StartRelates(w: World, env: Outside, s: H.State)
    requires StartedOn(w, s)
    ensures Related(w, env, s, Track([], [], []))
  {
    hide H.Inv;
    H.StartKeepsInv(s);
    RunNothing(w, 0);
  }

  /** The threads refine the tick specification. Whatever the interleaving, at the end of every tick the
      slots, the histories' decided part, the requests, the counters, the observer's reports and the frames
      sent are exactly those of one run of the specification, which has one tick for each generation. */
  lemma ThreadsRefineTicks(w: World, env: Outside, s: H.State, acts: seq<H.Action>)
    requires StartedOn(w, s) && Following(env, s, acts)
    requires H.Run(s, acts).Some? && H.Run(s, acts).value.phase == H.Sleeping
    ensures var t, tr := H.Run(s, acts).value, TrackOf(w, env, s, acts);
      var u := Ticks.Run(w, tr.es);
      && t.snap.slots == u.slots && Pending(u, t.asked) && t.tally == u.tally
      && u.hist0 <= t.samplers[0].hist && u.hist1 <= t.samplers[1].hist
      && t.reports == ReportsDuring(w, tr.es, 0) && tr.sent == HandedDuring(w, tr.es)
      && t.gen == TickCount(tr.es)
  {
    hide H.Inv, H.Run, Ticks.Run, HandedDuring, ReportsDuring, TickCount, Following, TrackFrom;
    StartRelates(w, env, s);
    RunStays(w, env, s, acts, Track([], [], []));
  }

  /** Each generation ends in exactly one of the four outcomes, and the threads' counters hold the three that
      send nothing. */
  lemma ThreadedTicksAccountedFor(w: World, env: Outside, s: H.State, acts: seq<H.Action>)
    requires StartedOn(w, s) && Following(env, s, acts)
    requires H.Run(s, acts).Some? && H.Run(s, acts).value.phase == H.Sleeping
    ensures var t, es := H.Run(s, acts).value, TrackOf(w, env, s, acts).es;
      && t.gen == Count(w, es, Late) + Count(w, es, Gated) + Count(w, es, Mismatch) + Count(w, es, Agreed)
      && Ticks.Counted(t.tally, Count(w, es, Gated), Count(w, es, Mismatch), Count(w, es, Late))
  {
    hide H.Run, Ticks.Run, HandedDuring, ReportsDuring, TickCount, Following, TrackFrom, Count, Ticks.Counted;
    ThreadsRefineTicks(w, env, s, acts);
    TicksAccountedFor(w, TrackOf(w, env, s, acts).es);
  }

  /** What that buys on the wire, said of the threads alone: whenever they compare, every frame handed to a
      socket is both channels' frame of a wanted slot, all wanted slots get theirs, an OK means both threads'
      last three samples were healthy and a STOP that neither's were, and the counter is the slot's next. */
  lemma ThreadedSendsAreSafe(w: World, env: Outside, s: H.State, acts: seq<H.Action>, h: Handed)
    requires StartedOn(w, s) && Following(env, s, acts)
    requires H.Run(s, acts).Some? && H.Run(s, acts).value.phase == H.Comparing && h in Sends(H.Run(s, acts).value)
    ensures var t, tr := H.Run(s, acts).value, TrackOf(w, env, s, acts);
      var u, input := Ticks.Run(w, tr.es), Decision(Ticks.Run(w, tr.es), env(t.gen), t, false);
      && h.slot < MACHINES && H.Wanted(t.snap, h.slot) && |h.frame| == FRAME_SIZE
      && h.frame == t.samplers[0].frames[h.slot] == t.samplers[1].frames[h.slot]
      && (forall i: nat :: i < MACHINES && H.Wanted(t.snap, i) ==> Handed(i, t.samplers[0].frames[i]) in Sends(t))
      && (h.frame[1] == Code(Ok) ==>
            LastThreeHealthy(H.SamplesIn(acts, 0)) && LastThreeHealthy(H.SamplesIn(acts, 1)))
      && (h.frame[1] == Code(Stop) ==>
            !LastThreeHealthy(H.SamplesIn(acts, 0)) && !LastThreeHealthy(H.SamplesIn(acts, 1)))
      && CounterAt(h.frame) ==
           ((if Resets(Projected(u, input, h.slot)) then 0 else |Log(w.slots[h.slot], SlotEvents(w, tr.es, h.slot))|) + 1)
             % 0x1_0000_0000
  {
    hide H.Inv, H.Run, Ticks.Run, HandedDuring, ReportsDuring, TickCount, Following, TrackFrom, HandedIn, OutcomeOf, Sampled,
      CounterAt, Log, SlotEvents, LastThreeHealthy, FrameAt, DueSlot, Decision, Sends, H.SamplesIn;
    StartRelates(w, env, s);
    RunStays(w, env, s, acts, Track([], [], []));
    var t, tr := H.Run(s, acts).value, TrackOf(w, env, s, acts);
    var u := Ticks.Run(w, tr.es);
    var input := Decision(u, env(t.gen), t, false);
    ComparesAsSpecified(u, env(t.gen), t);
    DecisionSamples(u, env(t.gen), t, false);
    H.HistoryIsSamplesIn(s, acts, 0);
    H.HistoryIsSamplesIn(s, acts, 1);
    assert t.samplers[0].hist == H.SamplesIn(acts, 0) && t.samplers[1].hist == H.SamplesIn(acts, 1);
    HandedExactly(u, input, h);
    SentKind(u, input, h.slot);
    RunCounterContiguity(w, tr.es, h.slot, input);
    SendsExactly(t, h);
  }

  lemma SendsExactly(s: H.State, h: Handed)
    requires H.Wellformed(s) && h in Sends(s)
    ensures h.slot < MACHINES && H.Wanted(s.snap, h.slot)
    ensures h.frame == s.samplers[0].frames[h.slot] == s.samplers[1].frames[h.slot]
    ensures forall i: nat :: i < MACHINES && H.Wanted(s.snap, i) ==> Handed(i, s.samplers[0].frames[i]) in Sends(s)
  {
    hide Primed, H.Wanted;
    var f := s.samplers[0].frames;
    SelectExactly(H.Marks(s.snap), f, MACHINES, h);
    forall i: nat | i < MACHINES && H.Wanted(s.snap, i) ensures Handed(i, f[i]) in Sends(s) {
      SelectExactly(H.Marks(s.snap), f, MACHINES, Handed(i, f[i]));
    }
  }

  // Every on-time tick can happen ------------------------------------------------------------------

  /** Some run from s does what the code does, ends in t and amounts to tr2 after tr. */
  ghost predicate Gets(w: World, env: Outside, s: H.State, tr: Track, t: H.State, tr2: Track)
    requires Wellformed(w) && H.Wellformed(s)
  {
    exists acts :: Following(env, s, acts) && H.Run(s, acts) == Some(t) && TrackFrom(w, env, s, acts, tr) == tr2
  }

  lemma GetsNothing(w: World, env: Outside, s: H.State, tr: Track)
    requires Wellformed(w) && H.Wellformed(s)
    ensures Gets(w, env, s, tr, s, tr)
  {
    assert Following(env, s, []) && H.Run(s, []) == Some(s) && TrackFrom(w, env, s, [], tr) == tr;
  }

  lemma {:induction false} FollowOn(w: World, env: Outside, s: H.State, a: seq<H.Action>, b: seq<H.Action>, tr: Track)
    requires Wellformed(w) && H.Wellformed(s) && Following(env, s, a) && H.Run(s, a).Some?
    requires Following(env, H.Run(s, a).value, b)
    ensures Following(env, s, a + b) && H.Run(s, a + b) == H.Run(H.Run(s, a).value, b)
    ensures TrackFrom(w, env, s, a + b, tr) == TrackFrom(w, env, H.Run(s, a).value, b, TrackFrom(w, env, s, a, tr))
    decreases |a|
  {
    hide H.Step, H.Guarded, Follows, NextTrack;
    if a == [] {
      assert a + b == b;
    } else {
      assert (a + b)[0] == a[0] && (a + b)[1..] == a[1..] + b;
      FollowOn(w, env, H.Step(s, a[0]).value, a[1..], b, NextTrack(w, env(GenOf(s)), s, a[0], tr));
    }
  }

  lemma GetsTrans(w: World, env: Outside, s: H.State, tr: Track, t: H.State, tr2: Track, u: H.State, tr3: Track)
    requires Wellformed(w) && H.Wellformed(s) && H.Wellformed(t)
    requires Gets(w, env, s, tr, t, tr2) && Gets(w, env, t, tr2, u, tr3)
    ensures Gets(w, env, s, tr, u, tr3)
  {
    hide Following, TrackFrom, H.Run;
    var a :| Following(env, s, a) && H.Run(s, a) == Some(t) && TrackFrom(w, env, s, a, tr) == tr2;
    var b :| Following(env, t, b) && H.Run(t, b) == Some(u) && TrackFrom(w, env, t, b, tr2) == tr3;
    FollowOn(w, env, s, a, b, tr);
  }

  /** One more step. */
  lemma GetsStep(w: World, env: Outside, s: H.State, tr: Track, t: H.State, tr2: Track, a: H.Action)
    returns (u: H.State, tr3: Track)
    requires Wellformed(w) && H.Wellformed(s) && H.Wellformed(t) && Gets(w, env, s, tr, t, tr2)
    requires H.Step(t, a).Some? && H.Guarded(t, a) && Follows(env(GenOf(t)), t, a)
    ensures H.Step(t, a) == Some(u) && tr3 == NextTrack(w, env(GenOf(t)), t, a, tr2) && Gets(w, env, s, tr, u, tr3)
  {
    hide H.Step, H.Guarded, Follows, NextTrack;
    u, tr3 := H.Step(t, a).value, NextTrack(w, env(GenOf(t)), t, a, tr2);
    assert [a][1..] == [];
    assert Following(env, u, []) && H.Run(u, []) == Some(u) && TrackFrom(w, env, u, [], tr3) == tr3;
    assert Following(env, t, [a]) && H.Run(t, [a]) == Some(u) && TrackFrom(w, env, t, [a], tr2) == tr3;
    hide Gets, Following, H.Run, TrackFrom;
    GetsOne(w, env, t, tr2, u, tr3, a);
    GetsTrans(w, env, s, tr, t, tr2, u, tr3);
  }

  lemma GetsOne(w: World, env: Outside, t: H.State, tr2: Track, u: H.State, tr3: Track, a: H.Action)
    requires Wellformed(w) && H.Wellformed(t) && Following(env, t, [a])
    requires H.Run(t, [a]) == Some(u) && TrackFrom(w, env, t, [a], tr2) == tr3
    ensures Gets(w, env, t, tr2, u, tr3)
  {
  }

  /** The comparator can finish its preparation. */
  lemma {:induction false} WriteOut(w: World, env: Outside, s: H.State, tr: Track, t: H.State, tr2: Track)
    returns (u: H.State)
    requires Wellformed(w) && H.Wellformed(s) && H.Wellformed(t) && Gets(w, env, s, tr, t, tr2)
    requires t.phase.Preparing? && t.phase.k <= WRITES
    ensures H.Wellformed(u) && Gets(w, env, s, tr, u, tr2)
    ensures u == t.(phase := H.Preparing(WRITES), snap := u.snap)
    decreases WRITES - t.phase.k
  {
    hide Gets, Written;
    u := t;
    if t.phase.k < WRITES {
      var m, _ := GetsStep(w, env, s, tr, t, tr2, H.Prepare(Written(t, env(GenOf(t)), t.phase.k)));
      u := WriteOut(w, env, s, tr, m, tr2);
    }
  }

  /** A woken sampler can run its whole pass, whatever it reads. */
  lemma PassOf(w: World, env: Outside, s: H.State, tr: Track, t: H.State, tr2: Track, c: nat, r: Reading, me: u32)
    returns (u: H.State)
    requires Wellformed(w) && H.Wellformed(s) && H.Wellformed(t) && Gets(w, env, s, tr, t, tr2)
    requires c < 2 && Sane(r) && t.samplers[c].pc == H.Waiting && t.samplers[c].go
    ensures H.Wellformed(u) && Gets(w, env, s, tr, u, tr2)
    ensures var p, q := t.samplers[c], u.samplers[c];
      && u == t.(samplers := t.samplers[c := q])
      && q.pc == H.Waiting && !q.go && q.done && q.gen == t.gen && q.hist == p.hist + [r]
      && forall i: nat :: i < MACHINES && H.Wanted(t.snap, i) ==> q.ids[i] == me
  {
    hide Gets, Encode, Build, VerdictOf, Sane, H.Step, H.Wanted;
    var a := Moves(w, env, s, tr, t, tr2, H.TakeAndRead(c));
    var b := Moves(w, env, s, tr, a, tr2, H.Sample(c, r));
    var d := EncodeOut(w, env, s, tr, b, tr2, c, me);
    var e := Moves(w, env, s, tr, d, tr2, H.Publish(c));
    u := Moves(w, env, s, tr, e, tr2, H.GiveDone(c));
  }

  /** One more step of a sampler. */
  lemma Moves(w: World, env: Outside, s: H.State, tr: Track, t: H.State, tr2: Track, a: H.Action) returns (u: H.State)
    requires Wellformed(w) && H.Wellformed(s) && H.Wellformed(t) && Gets(w, env, s, tr, t, tr2)
    requires H.SamplerAction(a) && a.c < 2 && Follows(env(GenOf(t)), t, a)
    requires H.SamplerStep(t.samplers[a.c], a, t.gen, t.snap).Some?
    ensures H.Wellformed(u) && Gets(w, env, s, tr, u, tr2)
    ensures u == t.(samplers := t.samplers[a.c := H.SamplerStep(t.samplers[a.c], a, t.gen, t.snap).value])
  {
    hide Gets, H.SamplerStep, Follows;
    var v, _ := GetsStep(w, env, s, tr, t, tr2, a);
    u := v;
  }

  lemma {:induction false} EncodeOut(w: World, env: Outside, s: H.State, tr: Track, t: H.State, tr2: Track, c: nat, me: u32)
    returns (u: H.State)
    requires Wellformed(w) && H.Wellformed(s) && H.Wellformed(t) && Gets(w, env, s, tr, t, tr2)
    requires c < 2 && t.samplers[c].pc.Passing? && t.samplers[c].pc.verdict.Some?
    requires forall i: nat :: i < t.samplers[c].pc.next && H.Wanted(t.snap, i) ==> t.samplers[c].ids[i] == me
    ensures H.Wellformed(u) && Gets(w, env, s, tr, u, tr2)
    ensures var p, q := t.samplers[c], u.samplers[c];
      && u == t.(samplers := t.samplers[c := q])
      && q == p.(pc := p.pc.(next := MACHINES), frames := q.frames, ids := q.ids)
      && forall i: nat :: i < MACHINES && H.Wanted(t.snap, i) ==> q.ids[i] == me
    decreases MACHINES - t.samplers[c].pc.next
  {
    hide Gets, Encode, Build, VerdictOf;
    u := t;
    if t.samplers[c].pc.next < MACHINES {
      var m := Moves(w, env, s, tr, t, tr2, H.EncodeSlot(c, me));
      u := EncodeOut(w, env, s, tr, m, tr2, c, me);
    }
  }

  /** The comparator can finish its polls. */
  lemma {:induction false} PollOut(w: World, env: Outside, s: H.State, tr: Track, t: H.State, tr2: Track)
    returns (u: H.State)
    requires Wellformed(w) && H.Wellformed(s) && H.Wellformed(t) && Gets(w, env, s, tr, t, tr2)
    requires t.phase.Closing? && t.phase.k <= MACHINES
    ensures H.Wellformed(u) && Gets(w, env, s, tr, u, tr2)
    ensures u == t.(phase := H.Sleeping, snap := u.snap)
    decreases MACHINES - t.phase.k
  {
    hide Gets, Finished;
    if t.phase.k < MACHINES {
      var k, o := t.phase.k, env(GenOf(t));
      var m, _ := GetsStep(w, env, s, tr, t, tr2,
        H.Poll(t.snap.slots[k := Finished(t.snap.slots[k], o.arrivals(k), o.now)]));
      u := PollOut(w, env, s, tr, m, tr2);
    } else {
      var m, _ := GetsStep(w, env, s, tr, t, tr2, H.Close);
      u := m;
    }
  }

  /** Both samplers wait for their next wake-up. */
  predicate AtRest(s: H.State)
    requires H.Wellformed(s)
  {
    forall c: nat :: c < 2 ==> s.samplers[c].pc == H.Waiting && !s.samplers[c].go
  }

  /** From the mint to the comparison, with both samplers in time. */
  lemma Approach(w: World, env: Outside, s: H.State, tr: Track, r0: Reading, r1: Reading, me: u32) returns (u: H.State)
    requires Wellformed(w) && H.Wellformed(s) && s.phase == H.Sleeping && AtRest(s) && Sane(r0) && Sane(r1)
    ensures H.Wellformed(u) && Gets(w, env, s, tr, u, tr) && u.phase == H.Comparing && AtRest(u) && u.gen == s.gen + 1
    ensures u.samplers[0].hist == s.samplers[0].hist + [r0] && u.samplers[1].hist == s.samplers[1].hist + [r1]
    ensures forall c: nat, i: nat :: c < 2 && i < MACHINES && H.Wanted(u.snap, i) ==> u.samplers[c].ids[i] == me
  {
    hide Gets, Sane, H.SamplerStep, H.Wanted;
    GetsNothing(w, env, s, tr);
    var a, _ := GetsStep(w, env, s, tr, s, tr, H.Clear);
    var b := WriteOut(w, env, s, tr, a, tr);
    var d, _ := GetsStep(w, env, s, tr, b, tr, H.MintAndWake);
    hide H.Step;
    var e := PassOf(w, env, s, tr, d, tr, 0, r0, me);
    var f := PassOf(w, env, s, tr, e, tr, 1, r1, me);
    u := TakeAndDecide(w, env, s, tr, f, tr);
  }

  lemma TakeAndDecide(w: World, env: Outside, s: H.State, tr: Track, t: H.State, tr2: Track) returns (u: H.State)
    requires Wellformed(w) && H.Wellformed(s) && H.Wellformed(t) && Gets(w, env, s, tr, t, tr2)
    requires t.phase == H.Awaiting(0, false) && t.samplers[0].done && t.samplers[1].done && H.Published(t)
    ensures H.Wellformed(u) && Gets(w, env, s, tr, u, tr2)
    ensures u == t.(phase := H.Comparing, samplers := [H.WithoutDone(t.samplers[0]), H.WithoutDone(t.samplers[1])])
  {
    hide Gets, H.SamplerStep;
    var a, _ := GetsStep(w, env, s, tr, t, tr2, H.TakeDone);
    var b, _ := GetsStep(w, env, s, tr, a, tr2, H.TakeDone);
    var d, _ := GetsStep(w, env, s, tr, b, tr2, H.Decide);
    u := d;
  }

  lemma GetsKeeps(w: World, env: Outside, s: H.State, tr: Track, t: H.State, tr2: Track)
    requires Wellformed(w) && H.Wellformed(s)
    requires Related(w, env, s, tr) && Gets(w, env, s, tr, t, tr2)
    ensures H.Wellformed(t) && Related(w, env, t, tr2)
  {
    hide Related, Following, H.Run, TrackFrom;
    var acts :| Following(env, s, acts) && H.Run(s, acts) == Some(t) && TrackFrom(w, env, s, acts, tr) == tr2;
    RunStays(w, env, s, acts, tr);
  }

  /** Every on-time tick of the specification in which each channel takes one sample can happen: from any
      related state at rest, whatever is read and whatever comes from outside, some interleaving that does
      what the code does goes through exactly that tick and comes to rest. */
  lemma OnTimeTickHappens(w: World, env: Outside, s: H.State, tr: Track, r0: Reading, r1: Reading, me: u32)
    returns (t: H.State, tr2: Track, d: TickInput)
    requires Wellformed(w) && H.Wellformed(s)
    requires Related(w, env, s, tr) && s.phase == H.Sleeping && AtRest(s) && Sane(r0) && Sane(r1)
    ensures H.Wellformed(t) && Related(w, env, t, tr2) && Gets(w, env, s, tr, t, tr2) && t.phase == H.Sleeping && AtRest(t)
    ensures t.gen == s.gen + 1 && d == env(t.gen).(readBacks := d.readBacks, ids := d.ids, late := false)
    ensures t.samplers[0].hist == s.samplers[0].hist + [r0] && t.samplers[1].hist == s.samplers[1].hist + [r1]
    ensures tr2.es == tr.es + [Tick(d)] && tr2.sent == tr.sent + HandedIn(Ticks.Run(w, tr.es), d)
    ensures Sampled(Ticks.Run(w, tr.es), d, 0) == t.samplers[0].hist
    ensures Sampled(Ticks.Run(w, tr.es), d, 1) == t.samplers[1].hist
    ensures forall c: nat, i: nat :: c < 2 && i < MACHINES && DueSlot(Ticks.Run(w, tr.es), d, i) ==> d.ids(c, i) == me
  {
    hide Gets, Sane, H.SamplerStep, H.Inv, Ticks.Run, HandedDuring, ReportsDuring, TickCount, Compared, Sends, HandedIn,
      H.Verdicted, Tallied, Reported, Sampled, H.Wanted, DueSlot, Decision, OutcomeOf, SnapOf;
    var m := Approach(w, env, s, tr, r0, r1, me);
    GetsKeeps(w, env, s, tr, m, tr);
    var u, o := Ticks.Run(w, tr.es), env(m.gen);
    d := Decision(u, o, m, false);
    ComparesAsSpecified(u, o, m);
    DecisionSamples(u, o, m, false);
    DecisionIds(u, o, m);
    var n, tr3 := GetsStep(w, env, s, tr, m, tr, H.Compared(Compared(o, m)));
    hide H.Step;
    assert tr3.es == tr.es + [Tick(d)] + tr.later == tr.es + [Tick(d)];
    tr2 := tr3;
    t := PollOut(w, env, s, tr, n, tr3);
    GetsKeeps(w, env, s, tr, t, tr2);
  }

  lemma DecisionIds(w: World, env: TickInput, s: H.State)
    requires Wellformed(w) && H.Wellformed(s) && s.snap == SnapOf(w, env)
    ensures var d := Decision(w, env, s, false);
      && d == env.(readBacks := d.readBacks, ids := d.ids, late := false)
      && forall c: nat, i: nat :: c < 2 && i < MACHINES && DueSlot(w, d, i) ==>
           d.ids(c, i) == s.samplers[c].ids[i] && H.Wanted(s.snap, i)
  {
    hide BegunSlot;
    SameBegin(w, env, s, false);
  }

  /** And from any related state in which no sampler is between its take and its read, both may miss one. */
  lemma LateTickHappens(w: World, env: Outside, s: H.State, tr: Track) returns (t: H.State, tr2: Track, d: TickInput)
    requires Wellformed(w) && H.Wellformed(s)
    requires Related(w, env, s, tr) && s.phase == H.Sleeping && forall c: nat :: c < 2 ==> s.samplers[c].pc != H.Taken
    ensures H.Wellformed(t) && Related(w, env, t, tr2) && Gets(w, env, s, tr, t, tr2) && t.phase == H.Sleeping
    ensures d == env(t.gen).(readBacks := d.readBacks, ids := d.ids, late := true)
    ensures tr2.es == tr.es + [Tick(d)] && tr2.sent == tr.sent
  {
    hide Gets, Related, H.SamplerStep, Ticks.Run, Decision;
    var g := Lapse(w, env, s, tr);
    NothingLater(w, env, s, tr);
    DecisionFields(Ticks.Run(w, tr.es), env(g.gen), g);
    d := Decision(Ticks.Run(w, tr.es), env(g.gen), g, true);
    var n, tr3 := GetsStep(w, env, s, tr, g, tr, H.Decide);
    hide H.Step;
    assert tr.es + [Tick(d)] + [] == tr.es + [Tick(d)];
    tr2 := tr3;
    t := PollOut(w, env, s, tr, n, tr3);
    GetsKeeps(w, env, s, tr, t, tr2);
  }

  lemma DecisionFields(w: World, env: TickInput, s: H.State)
    requires H.Wellformed(s)
    ensures var d := Decision(w, env, s, true); d == env.(readBacks := d.readBacks, ids := d.ids, late := true)
  {
  }

  /** Both takes time out. */
  lemma Lapse(w: World, env: Outside, s: H.State, tr: Track) returns (u: H.State)
    requires Wellformed(w) && H.Wellformed(s) && s.phase == H.Sleeping
    requires forall c: nat :: c < 2 ==> s.samplers[c].pc != H.Taken
    ensures H.Wellformed(u) && Gets(w, env, s, tr, u, tr) && u.phase == H.Deciding(true)
  {
    hide Gets, H.SamplerStep;
    GetsNothing(w, env, s, tr);
    var a, _ := GetsStep(w, env, s, tr, s, tr, H.Clear);
    var b := WriteOut(w, env, s, tr, a, tr);
    var e, _ := GetsStep(w, env, s, tr, b, tr, H.MintAndWake);
    u := LapseTakes(w, env, s, tr, e, tr);
  }

  lemma LapseTakes(w: World, env: Outside, s: H.State, tr: Track, t: H.State, tr2: Track) returns (u: H.State)
    requires Wellformed(w) && H.Wellformed(s) && H.Wellformed(t) && Gets(w, env, s, tr, t, tr2)
    requires t.phase == H.Awaiting(0, false)
    ensures H.Wellformed(u) && Gets(w, env, s, tr, u, tr2) && u.phase == H.Deciding(true)
  {
    hide Gets, H.SamplerStep;
    var a, _ := GetsStep(w, env, s, tr, t, tr2, H.TimeOut);
    var b, _ := GetsStep(w, env, s, tr, a, tr2, H.TimeOut);
    u := b;
  }

  lemma NothingLater(w: World, env: Outside, s: H.State, tr: Track)
    requires Wellformed(w) && H.Wellformed(s)
    requires Related(w, env, s, tr) && s.phase == H.Sleeping
    ensures tr.later == []
  {
  }

  /** So an OK does reach the wire on the threads: from the start, three on-time ticks with a closed loop open
      the gate and bond slot i, if its peer answers the third, and the fourth sends it an OK. */
  lemma OkReachesTheWire(w: World, env: Outside, s: H.State, i: nat) returns (t: H.State, tr: Track)
    requires StartedOn(w, s) && w.rebondRequests == {} && w.reconfigureRequests == {} && i < MACHINES
    requires Answered(w.slots[i], env(1), env(2), env(3), env(4), i)
    ensures Gets(w, env, s, Track([], [], []), t, tr)
    ensures exists h :: h in tr.sent && h.slot == i && |h.frame| == FRAME_SIZE && h.frame[1] == Code(Ok)
  {
    hide Gets, Related, AtRest, Ticks.Run, HandedIn, Sampled, DueSlot, Answered, Ticked, Calm, Sane;
    var start, r := Track([], [], []), Reading(1, 0);
    StartRelates(w, env, s);
    StartAtRest(s);
    RunNothing(w, 0);
    ClosedIsSane();
    var s1, tr1, d1 := OnTimeTickHappens(w, env, s, start, r, r, 0);
    IsCalm(w, [], d1, 1);
    assert tr1.es == [Tick(d1)];
    var s2, tr2, d2 := OnTimeTickHappens(w, env, s1, tr1, r, r, 0);
    IsCalm(w, tr1.es, d2, 2);
    GetsTrans(w, env, s, start, s1, tr1, s2, tr2);
    var s3, tr3, d3 := OnTimeTickHappens(w, env, s2, tr2, r, r, 0);
    IsCalm(w, tr2.es, d3, 3);
    GetsTrans(w, env, s, start, s2, tr2, s3, tr3);
    var s4, tr4, d4 := OnTimeTickHappens(w, env, s3, tr3, r, r, 0);
    IsCalm(w, tr3.es, d4, 4);
    GetsTrans(w, env, s, start, s3, tr3, s4, tr4);
    t, tr := s4, tr4;
    SameAnswers(w.slots[i], env, d1, d2, d3, d4, i);
    var h := FourTicksSendOk(w, d1, d2, d3, d4, i);
    assert h in tr.sent;
  }

  lemma SameAnswers(slot: Slot, env: Outside, d1: TickInput, d2: TickInput, d3: TickInput, d4: TickInput, i: nat)
    requires Answered(slot, env(1), env(2), env(3), env(4), i)
    requires d1.arrivals == env(1).arrivals && d2.arrivals == env(2).arrivals && d3.arrivals == env(3).arrivals
    requires d3.sendOk == env(3).sendOk && d3.now == env(3).now && d4.now == env(4).now
    ensures Answered(slot, d1, d2, d3, d4, i)
  {
  }

  lemma ClosedIsSane()
    ensures Sane(Reading(1, 0))
  {
  }

  lemma StartAtRest(s: H.State)
    requires H.Started(s)
    ensures AtRest(s) && s.phase == H.Sleeping && s.gen == 0
    ensures forall c: nat :: c < 2 ==> s.samplers[c].hist == []
  {
  }

  lemma IsCalm(w: World, es: seq<Ticks.Event>, d: TickInput, n: nat)
    requires Wellformed(w) && Ticks.Run(w, es).rebondRequests == {} && Ticks.Run(w, es).reconfigureRequests == {} && !d.late
    requires |Sampled(Ticks.Run(w, es), d, 0)| == |Sampled(Ticks.Run(w, es), d, 1)| == n
    requires forall c: nat, r :: c < 2 && r in Sampled(Ticks.Run(w, es), d, c) ==> r == Reading(1, 0)
    requires forall c: nat, i: nat :: c < 2 && i < MACHINES && DueSlot(Ticks.Run(w, es), d, i) ==> d.ids(c, i) == 0
    ensures Calm(Ticks.Run(w, es), d, n)
    ensures var u := Ticks.Run(w, es + [Tick(d)]); u.rebondRequests == {} && u.reconfigureRequests == {}
  {
    hide Ticks.Run, DueSlot, Sampled, TickedSlot, OutcomeOf;
    RunSnoc(w, es, Tick(d), 0);
    var u := Ticks.Run(w, es);
    AllClosed(Sampled(u, d, 0), n);
    AllClosed(Sampled(u, d, 1), n);
  }

  lemma AllClosed(h: seq<Reading>, n: nat)
    requires |h| == n && forall r :: r in h ==> r == Reading(1, 0)
    ensures h == seq(n, _ => Reading(1, 0))
  {
    forall k | 0 <= k < n ensures h[k] == Reading(1, 0) {
      assert h[k] in h;
    }
  }
}
