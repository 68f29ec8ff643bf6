/** What a comparator run means for each machine, read off the requests, the settings and the replies alone:
    which machine a slot is open for, when it is sent to, and what. */
module RunHistory {
  import opened Types
  import opened Wire
  import opened Estop
  import opened Session
  import opened SlotRun
  import opened SlotHistory
  import opened Ticks

  // Requests ---------------------------------------------------------------------------------------

  /** Slot i was asked to be rebonded since the last tick. */
  predicate AskedRebond(w: World, es: seq<Ticks.Event>, i: nat) {
    if es == [] then i in w.rebondRequests
    else match es[|es| - 1]
      case Tick(_) => false
      case AskRebond(slot) => slot == i || AskedRebond(w, es[..|es| - 1], i)
      case AskReconfigure(_) => AskedRebond(w, es[..|es| - 1], i)
  }

  predicate AskedReconfigure(w: World, es: seq<Ticks.Event>, i: nat) {
    if es == [] then i in w.reconfigureRequests
    else match es[|es| - 1]
      case Tick(_) => false
      case AskRebond(_) => AskedReconfigure(w, es[..|es| - 1], i)
      case AskReconfigure(slot) => slot == i || AskedReconfigure(w, es[..|es| - 1], i)
  }

  /** The pending requests are exactly those made since the last tick, which took all before it. */
  lemma {:induction false} PendingExactlyWhen(w: World, es: seq<Ticks.Event>, i: nat)
    requires Wellformed(w) && i < MACHINES
    ensures i in Run(w, es).rebondRequests <==> AskedRebond(w, es, i)
    ensures i in Run(w, es).reconfigureRequests <==> AskedReconfigure(w, es, i)
  {
    hide TickedSlot, Sampled, OutcomeOf, Tallied;
    if es != [] {
      PendingExactlyWhen(w, es[..|es| - 1], i);
    }
  }

  // Machines ---------------------------------------------------------------------------------------

  /** The machine slot i was last configured for, if its socket opened then. */
  function MachineOf(w: World, es: seq<Ticks.Event>, i: nat): Option<Peer>
    requires Wellformed(w) && i < MACHINES
  {
    if es == [] then PeerOfSlot(w.slots[i])
    else
      var before, e := es[..|es| - 1], es[|es| - 1];
      if e.Tick? && AskedReconfigure(w, before, i) then if e.input.openOk(i) then e.input.peers(i) else None
      else MachineOf(w, before, i)
  }

  lemma MachineAsked(w: World, es: seq<Ticks.Event>, input: TickInput, i: nat)
    requires Wellformed(w) && i < MACHINES && PeerOfSlot(Run(w, es).slots[i]) == MachineOf(w, es, i)
    ensures PeerOfSlot(BegunSlot(Run(w, es), input, i)) == MachineOf(w, es + [Tick(input)], i)
    ensures PeerOfSlot(Run(w, es + [Tick(input)]).slots[i]) == MachineOf(w, es + [Tick(input)], i)
  {
    hide Run, Step, Begun, TickedSlot, OutcomeOf, Sampled, Tallied;
    var u := Run(w, es);
    PendingExactlyWhen(w, es, i);
    RunSnoc(w, es, Tick(input), 0);
    var all := es + [Tick(input)];
    assert all[..|all| - 1] == es && all[|all| - 1] == Tick(input);
    PeerStep(u.slots[i], Projected(u, input, i));
    ProjectionSteps(u, input, i);
  }

  /** In every run each slot is open exactly for the machine its last reconfiguration found in the settings. */
  lemma {:induction false} OpenForItsMachine(w: World, es: seq<Ticks.Event>, i: nat)
    requires Wellformed(w) && i < MACHINES
    ensures PeerOfSlot(Run(w, es).slots[i]) == MachineOf(w, es, i)
  {
    hide TickedSlot, Sampled, OutcomeOf, Tallied, PeerOfSlot;
    if es != [] {
      var before, e := es[..|es| - 1], es[|es| - 1];
      OpenForItsMachine(w, before, i);
      if e.Tick? {
        assert before + [Tick(e.input)] == es;
        MachineAsked(w, before, e.input, i);
      }
    }
  }

  /** Every frame handed to a socket names the machine its slot is configured for in that very tick. */
  lemma FramesNameTheirMachine(w: World, es: seq<Ticks.Event>, input: TickInput, h: Handed)
    requires Wellformed(w) && h in HandedIn(Run(w, es), input)
    ensures h.slot < MACHINES && |h.frame| == FRAME_SIZE
    ensures var machine := MachineOf(w, es + [Tick(input)], h.slot);
      machine.Some? && ReceiverAt(h.frame) == machine.value.id
  {
    hide Run, FrameAt, Encode, HandedIn, ReceiverAt, KindAt, CounterAt, StampAt, ReceivedStampAt, IdAt, ReceivedCounterAt,
      RoleAt, OutcomeOf, MachineOf, Begun;
    var u := Run(w, es);
    HandedExactly(u, input, h);
    OpenForItsMachine(w, es, h.slot);
    MachineAsked(w, es, input, h.slot);
    FrameReceiver(u, input, h.slot);
  }

  lemma FrameReceiver(w: World, input: TickInput, i: nat)
    requires Wellformed(w) && i < MACHINES
    ensures ReceiverAt(FrameAt(w, input, 0, i)) == BegunSlot(w, input, i).s.peer.id
    ensures KindAt(FrameAt(w, input, 0, i)) == Some(MsgAt(w, input, 0, i).kind)
  {
    RoundTrip(MsgAt(w, input, 0, i));
  }

  // When a machine is sent to ------------------------------------------------------------------------

  /** Ticks come in non-decreasing time. */
  predicate InTime(es: seq<Ticks.Event>) {
    forall i, j :: 0 <= i < j < |es| && es[i].Tick? && es[j].Tick? ==> es[i].input.now <= es[j].input.now
  }

  lemma {:induction false} ProjectionInTime(w: World, es: seq<Ticks.Event>, i: nat)
    requires Wellformed(w) && i < MACHINES && InTime(es)
    ensures Timely(SlotEvents(w, es, i))
    ensures forall x :: x in SlotEvents(w, es, i) ==> exists k :: 0 <= k < |es| && es[k].Tick? && es[k].input.now == x.now
  {
    hide Run;
    if es != [] {
      var before, e := es[..|es| - 1], es[|es| - 1];
      ProjectionInTime(w, before, i);
      var earlier := SlotEvents(w, before, i);
      forall x | x in earlier
        ensures exists k :: 0 <= k < |es| && es[k].Tick? && es[k].input.now == x.now
        ensures e.Tick? ==> x.now <= e.input.now
      {
        var k :| 0 <= k < |before| && before[k].Tick? && before[k].input.now == x.now;
        assert es[k] == before[k];
      }
      if e.Tick? {
        var x := Projected(Run(w, before), e.input, i);
        assert es[|es| - 1].Tick? && es[|es| - 1].input.now == x.now;
        TimelyMore(earlier, x);
      }
    }
  }

  lemma TimelyMore(es: seq<SlotRun.Event>, e: SlotRun.Event)
    requires Timely(es) && forall x :: x in es ==> x.now <= e.now
    ensures Timely(es + [e])
  {
    var all := es + [e];
    forall i, j | 0 <= i < j < |all| ensures all[i].now <= all[j].now {
      if j == |es| {
        assert es[i] in es;
      }
    }
  }

  /** What slot i looks back on once this tick's requests are applied. */
  ghost function PastAt(w: World, es: seq<Ticks.Event>, input: TickInput, i: nat): Past
    requires Wellformed(w) && i < MACHINES
  {
    Asked(PastOf(w.slots[i], SlotEvents(w, es, i)), Projected(Run(w, es), input, i))
  }

  /** Who is sent to in a tick that agrees, and what: exactly the slots whose past wants a frame, each its
      frame. In particular a slot that is bonding gets a BOND exactly when five seconds have passed since its
      last one. */
  lemma SentExactlyWhen(w: World, es: seq<Ticks.Event>, input: TickInput, i: nat)
    requires Boot(w) && i < MACHINES && InTime(es + [Tick(input)]) && OutcomeOf(Run(w, es), input) == Agreed
    ensures var p, x := PastAt(w, es, input, i), Projected(Run(w, es), input, i);
      && ((exists h :: h in HandedIn(Run(w, es), input) && h.slot == i) <==> Wants(p, input.now))
      && (Wants(p, input.now) ==> Handed(i, Encode(FrameOf(p, x))) in HandedIn(Run(w, es), input))
      && (p.Open? && !p.parked && StayReplies(p) == [] && StayFrames(p) != [] ==>
            (Wants(p, input.now) <==> input.now - Last(StayFrames(p)).time >= 5000) && FrameOf(p, x).kind == Bond)
  {
    hide Run, Encode, HandedIn, SlotEvents, PastOf, Asked, After, SlotDue, OutcomeOf;
    var u := Run(w, es);
    var x := Projected(u, input, i);
    ProjectedInTime(w, es, input, i);
    SlotsRunIndependently(w, es, i);
    DueExactlyWhen(w.slots[i], SlotEvents(w, es, i), x);
    LoggedFrameIsTheComparedFrame(u, input, i);
    DueAlike(u, input, i);
    var h := Handed(i, FrameAt(u, input, 0, i));
    HandedExactly(u, input, h);
    if g :| g in HandedIn(u, input) && g.slot == i {
      HandedExactly(u, input, g);
    }
  }

  lemma DueAlike(w: World, input: TickInput, i: nat)
    requires Wellformed(w) && i < MACHINES
    ensures SlotDue(Began(w.slots[i], Projected(w, input, i)), input.now) == DueSlot(w, input, i)
  {
  }

  lemma ProjectedInTime(w: World, es: seq<Ticks.Event>, input: TickInput, i: nat)
    requires Wellformed(w) && i < MACHINES && InTime(es + [Tick(input)])
    ensures Timely(SlotEvents(w, es, i) + [Projected(Run(w, es), input, i)])
  {
    hide Run;
    var all := es + [Tick(input)];
    ProjectionInTime(w, all, i);
    assert all[..|all| - 1] == es && all[|all| - 1] == Tick(input);
  }

  /** An observer is told of a tick exactly when it is on time and both channels have settled. */
  lemma ReportedExactlyWhen(w: World, input: TickInput, gen: nat)
    requires Wellformed(w)
    ensures !input.late && Primed(Sampled(w, input, 0), Sampled(w, input, 1)) ==>
      ReportAt(w, input, gen) == [Report(gen, VerdictOf(Sampled(w, input, 0)), VerdictOf(Sampled(w, input, 1)))]
    ensures input.late || !Primed(Sampled(w, input, 0), Sampled(w, input, 1)) ==> ReportAt(w, input, gen) == []
  {
    hide Sampled, VerdictOf, Primed, FramesAgree;
  }
}
