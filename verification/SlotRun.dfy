/** Whole runs of one machine slot: every tick reconfigures or rebonds it on request, transmits if the
    session is due and the comparator granted the tick, drains the replies and runs the watchdog. */
module SlotRun {
  import opened Types
  import opened Wire
  import opened Session

  /** A slot: whether its session is open, the session, and what its socket still holds. */
  datatype Slot = Slot(active: bool, s: Sess, queue: seq<Datagram>)

  /** A pending reconfiguration: the peer in settings, if any, and whether the socket opens. */
  datatype Reconf = Keep | Apply(peer: Option<Peer>, openOk: bool)

  datatype Event = Event(
    now: u64, reconf: Reconf, rebond: bool,
    granted: bool, verdict: Verdict, role: u32, me: u32, sendOk: bool,
    arrivals: seq<Datagram>)

  function Reconfigured(slot: Slot, r: Reconf): Slot {
    match r
    case Keep => slot
    case Apply(peer, openOk) =>
      if peer.Some? && openOk then Slot(true, Opened(peer.value), [])
      else Slot(false, if slot.active then Closed(slot.s) else slot.s, [])
  }

  function Begun(slot: Slot, r: Reconf, rebond: bool): Slot {
    var c := Reconfigured(slot, r);
    if c.active && rebond then c.(s := Rebonded(c.s)) else c
  }

  predicate SlotDue(slot: Slot, now: u64) { slot.active && Due(slot.s, now) }

  function Attempted(slot: Slot, granted: bool, sendOk: bool, now: u64): (r: Slot)
    ensures !granted || !SlotDue(slot, now) ==> r == slot
  {
    if SlotDue(slot, now) && granted then slot.(s := Committed(slot.s, sendOk, now)) else slot
  }

  function Polled(slot: Slot, arrivals: seq<Datagram>, now: u64): Slot {
    if !slot.active then slot
    else
      var (s, rest) := Drain(slot.s, slot.queue + arrivals, now);
      slot.(s := s, queue := rest)
  }

  function Finished(slot: Slot, arrivals: seq<Datagram>, now: u64): Slot {
    var p := Polled(slot, arrivals, now);
    if p.active then p.(s := Watched(p.s, now)) else p
  }

  function Began(slot: Slot, e: Event): Slot { Begun(slot, e.reconf, e.rebond) }

  function Sent(slot: Slot, e: Event): Slot { Attempted(Began(slot, e), e.granted, e.sendOk, e.now) }

  function Step(slot: Slot, e: Event): Slot { Finished(Sent(slot, e), e.arrivals, e.now) }

  /** Initialisation leaves a slot idle or with a freshly opened session. */
  predicate AtBoot(slot: Slot) { slot.active ==> slot.s == Opened(slot.s.peer) }

  function After(boot: Slot, es: seq<Event>): Slot {
    if es == [] then boot else Step(After(boot, es[..|es| - 1]), es[|es| - 1])
  }

  lemma AfterSnoc(boot: Slot, es: seq<Event>, e: Event)
    ensures After(boot, es + [e]) == Step(After(boot, es), e)
  {
    assert (es + [e])[..|es|] == es;
  }

  predicate Resets(e: Event) { e.reconf.Apply? || e.rebond }

  predicate Transmits(slot: Slot, e: Event) {
    e.granted && e.sendOk && SlotDue(Began(slot, e), e.now)
  }

  predicate TimedOut(slot: Slot, e: Event) {
    var p := Polled(Sent(slot, e), e.arrivals, e.now);
    p.active && WatchdogFires(p.s, e.now)
  }

  /** A message that reached the wire, as the frame `Encode(msg)`, and when. */
  datatype Tx = Tx(msg: Msg, time: u64)

  /** The message this tick's builds encode for the slot. */
  function MsgOf(slot: Slot, e: Event): Msg {
    Build(Began(slot, e).s, e.verdict, e.role, e.now, e.me)
  }

  function Prefix(es: seq<Event>): seq<Event>
    requires es != []
  {
    es[..|es| - 1]
  }

  function Last<T>(s: seq<T>): T
    requires s != []
  {
    s[|s| - 1]
  }

  /** A tick's effect on what reached the wire since the slot was opened, rebonded or timed out. */
  function Logged(slot: Slot, e: Event, log: seq<Tx>): seq<Tx> {
    if TimedOut(slot, e) then []
    else (if Resets(e) then [] else log) + (if Transmits(slot, e) then [Tx(MsgOf(slot, e), e.now)] else [])
  }

  /** What reached the wire since the slot was last opened, rebonded or timed out. */
  function Log(boot: Slot, es: seq<Event>): seq<Tx> {
    if es == [] then [] else Logged(After(boot, Prefix(es)), Last(es), Log(boot, Prefix(es)))
  }

  /** Ticks come in non-decreasing time. */
  predicate Timely(es: seq<Event>) {
    forall i, j :: 0 <= i < j < |es| ==> es[i].now <= es[j].now
  }

  // Counters ------------------------------------------------------------------------------------

  predicate Contiguous(log: seq<Tx>) {
    forall i :: 0 <= i < |log| ==> log[i].msg.counter == (i + 1) % 0x1_0000_0000
  }

  ghost predicate Counted(slot: Slot, log: seq<Tx>) {
    Contiguous(log) && (slot.active ==> slot.s.proto.msgCounter == |log| % 0x1_0000_0000)
  }

  lemma SendCounts(b: Slot, log: seq<Tx>, e: Event)
    requires Counted(b, log) && b.active && e.sendOk
    ensures Counted(b.(s := Committed(b.s, true, e.now)),
                    log + [Tx(Build(b.s, e.verdict, e.role, e.now, e.me), e.now)])
  {
  }

  lemma FinishCounts(b: Slot, log: seq<Tx>, e: Event)
    requires Counted(b, log)
    ensures var p := Polled(b, e.arrivals, e.now);
      Counted(Finished(b, e.arrivals, e.now), if p.active && WatchdogFires(p.s, e.now) then [] else log)
  {
    PollFacts(b.s, b.queue + e.arrivals, e.now);
  }

  lemma StepCounts(slot: Slot, log: seq<Tx>, e: Event)
    requires Counted(slot, log)
    ensures Counted(Step(slot, e), Logged(slot, e, log))
  {
    var b := Began(slot, e);
    var base := if Resets(e) then [] else log;
    assert Counted(b, base);
    if Transmits(slot, e) {
      SendCounts(b, base, e);
    }
    var mid := base + if Transmits(slot, e) then [Tx(MsgOf(slot, e), e.now)] else [];
    assert Counted(Sent(slot, e), mid);
    FinishCounts(Sent(slot, e), mid, e);
  }

  lemma {:induction false} CountsEverywhere(boot: Slot, es: seq<Event>)
    requires AtBoot(boot)
    ensures Counted(After(boot, es), Log(boot, es))
    decreases |es|
  {
    if es != [] {
      CountsEverywhere(boot, Prefix(es));
      StepCounts(After(boot, Prefix(es)), Log(boot, Prefix(es)), Last(es));
    }
  }

  lemma BeganCounts(slot: Slot, log: seq<Tx>, e: Event)
    requires Counted(slot, log)
    ensures Counted(Began(slot, e), if Resets(e) then [] else log)
  {
  }

  /** In every run, the frames transmitted since the slot was last opened, rebonded or timed out carry the
      counters 1, 2, 3, ... modulo 2^32 in their counter bytes, and the frame of the tick that comes next
      carries the one after them (1 if that tick resets the slot), whatever was gated, mismatched, late,
      decimated or failed in between, and even if the watchdog ends the stay in that very tick. */
  lemma CounterContiguity(boot: Slot, es: seq<Event>, e: Event)
    requires AtBoot(boot)
    ensures forall i :: 0 <= i < |Log(boot, es)| ==> CounterAt(Encode(Log(boot, es)[i].msg)) == (i + 1) % 0x1_0000_0000
    ensures SlotDue(Began(After(boot, es), e), e.now) ==>
      CounterAt(Encode(MsgOf(After(boot, es), e)))
        == ((if Resets(e) then 0 else |Log(boot, es)|) + 1) % 0x1_0000_0000
  {
    hide Encode, CounterAt, After, Log, Began;
    var log, before := Log(boot, es), After(boot, es);
    CountsEverywhere(boot, es);
    forall i | 0 <= i < |log| ensures CounterAt(Encode(log[i].msg)) == (i + 1) % 0x1_0000_0000 {
      RoundTrip(log[i].msg);
    }
    BeganCounts(before, log, e);
    RoundTrip(MsgOf(before, e));
  }

  // Parking -------------------------------------------------------------------------------------

  /** A reply that is heard came in a frame-sized datagram from the peer with a good checksum. */
  lemma {:induction false} HeardFromPeer(peer: Peer, q: seq<Datagram>, i: nat)
    requires i < |Heard(peer, q)|
    ensures exists k :: 0 <= k < |q| && q[k].len == FRAME_SIZE && FromPeer(peer, q[k]) && q[k].reply == Heard(peer, q)[i]
  {
    var rest := Heard(peer, q[1..]);
    if FromPeer(peer, q[0]) && i == 0 {
      assert q[0].reply == Heard(peer, q)[0];
    } else {
      var j := if FromPeer(peer, q[0]) then i - 1 else i;
      assert Heard(peer, q)[i] == rest[j];
      HeardFromPeer(peer, q[1..], j);
      var k :| 0 <= k < |q[1..]| && q[1..][k].len == FRAME_SIZE && FromPeer(peer, q[1..][k]) && q[1..][k].reply == rest[j];
      assert q[k + 1] == q[1..][k];
    }
  }

  /** The replies adopted in a tick. */
  function AdoptedIn(slot: Slot, e: Event): seq<Reply> {
    var t := Sent(slot, e);
    if t.active then Adopted(t.s, t.queue + e.arrivals) else []
  }

  function HeardIn(slot: Slot, e: Event): seq<Reply> {
    var t := Sent(slot, e);
    if t.active then Heard(t.s.peer, t.queue + e.arrivals) else []
  }

  /** Hearing an UNBOND parks the slot in that very tick, whatever else the queue held. */
  lemma UnbondParks(slot: Slot, e: Event)
    requires exists i :: 0 <= i < |HeardIn(slot, e)| && HeardIn(slot, e)[i].kind == Unbond
    ensures Step(slot, e).active && Step(slot, e).s.state == Rejected
  {
    var t := Sent(slot, e);
    PollFacts(t.s, t.queue + e.arrivals, e.now);
  }

  /** Becoming bonded takes a frame-sized, verified datagram from the peer that is not an UNBOND. */
  lemma BondingNeedsAPeerFrame(slot: Slot, e: Event)
    requires Step(slot, e).active && Step(slot, e).s.state == Bonded
    requires !slot.active || slot.s.state != Bonded || Resets(e)
    ensures exists d: Datagram ::
      && d in Sent(slot, e).queue + e.arrivals && d.len == FRAME_SIZE
      && FromPeer(Step(slot, e).s.peer, d) && d.reply.kind != Unbond
  {
    var t := Sent(slot, e);
    var q := t.queue + e.arrivals;
    PollFacts(t.s, q, e.now);
    var heard := Heard(t.s.peer, q);
    assert Adopted(t.s, q) != [];
    HeardFromPeer(t.s.peer, q, 0);
  }

  lemma ParkedStep(slot: Slot, e: Event)
    requires slot.active && slot.s.state == Rejected && !Resets(e)
    ensures var t := Step(slot, e);
      t.active && t.s.state == Rejected && t.s.proto == slot.s.proto && t.s.lastReply == slot.s.lastReply
    ensures !SlotDue(Began(slot, e), e.now)
  {
    PollFacts(slot.s, slot.queue + e.arrivals, e.now);
  }

  /** Once parked, a slot stays parked and silent, and keeps its counter, stamp and liveness, over
      any number of ticks without a rebond or a reconfiguration. */
  lemma {:induction false} ParkedUntilReset(slot: Slot, es: seq<Event>)
    requires slot.active && slot.s.state == Rejected
    requires forall e :: e in es ==> !Resets(e)
    ensures var t := After(slot, es);
      t.active && t.s.state == Rejected && t.s.proto == slot.s.proto && t.s.lastReply == slot.s.lastReply
    ensures forall i :: 0 <= i < |es| ==> !SlotDue(Began(After(slot, es[..i]), es[i]), es[i].now)
    decreases |es|
  {
    if es != [] {
      var init, e := Prefix(es), Last(es);
      ParkedUntilReset(slot, init);
      ParkedStep(After(slot, init), e);
      forall i | 0 <= i < |es| ensures !SlotDue(Began(After(slot, es[..i]), es[i]), es[i].now) {
        if i < |init| {
          assert es[..i] == init[..i];
          assert es[i] == init[i];
        } else {
          assert es[..i] == init;
        }
      }
    }
  }

  datatype Adoption = Adoption(reply: Reply, time: u64)

  function Adopts(slot: Slot, e: Event): Option<Adoption> {
    var adopted := AdoptedIn(slot, e);
    if adopted == [] then None else Some(Adoption(LastOf(adopted), e.now))
  }

  function Later(a: Option<Adoption>, b: Option<Adoption>): Option<Adoption> {
    if b.Some? then b else a
  }

  /** The last reply adopted since the slot was opened, if any; a rebond does not forget it. */
  function LastAdoption(boot: Slot, es: seq<Event>): Option<Adoption> {
    if es == [] then None
    else
      Later(if Last(es).reconf.Apply? then None else LastAdoption(boot, Prefix(es)),
            Adopts(After(boot, Prefix(es)), Last(es)))
  }

  /** The last reply adopted since the slot was last opened, rebonded or timed out, if any. */
  function LastInStay(boot: Slot, es: seq<Event>): Option<Adoption> {
    if es == [] || TimedOut(After(boot, Prefix(es)), Last(es)) then None
    else
      Later(if Resets(Last(es)) then None else LastInStay(boot, Prefix(es)),
            Adopts(After(boot, Prefix(es)), Last(es)))
  }

  predicate AdoptedAs(s: Sess, ever: Option<Adoption>, stay: Option<Adoption>) {
    && s.lastReply == (if ever.Some? then ever.value.time else 0)
    && s.proto.rxCounter == (if stay.Some? then stay.value.reply.counter else 0)
    && s.proto.rxStamp == (if stay.Some? then stay.value.reply.stamp else 0)
    && (s.state == Bonded ==> stay.Some? && stay == ever)
    && (stay.Some? ==> stay == ever)
  }

  lemma BeginAdopts(slot: Slot, ever: Option<Adoption>, stay: Option<Adoption>, e: Event)
    requires slot.active ==> AdoptedAs(slot.s, ever, stay)
    ensures Sent(slot, e).active ==>
      AdoptedAs(Sent(slot, e).s, if e.reconf.Apply? then None else ever, if Resets(e) then None else stay)
  {
  }

  /** In every run the counter and stamp a slot echoes are those of the last reply adopted in this
      stay, zero if none, and its liveness is that of the last reply adopted since it was opened. An
      UNBOND and everything heard after it are never adopted, so this is also what a parked slot shows. */
  lemma {:induction false} StateIsLastAdoption(boot: Slot, es: seq<Event>)
    requires AtBoot(boot)
    ensures After(boot, es).active ==>
      AdoptedAs(After(boot, es).s, LastAdoption(boot, es), LastInStay(boot, es))
    decreases |es|
  {
    if es != [] {
      var before, e := After(boot, Prefix(es)), Last(es);
      StateIsLastAdoption(boot, Prefix(es));
      BeginAdopts(before, LastAdoption(boot, Prefix(es)), LastInStay(boot, Prefix(es)), e);
      var t := Sent(before, e);
      PollFacts(t.s, t.queue + e.arrivals, e.now);
    }
  }

  lemma BondedMeansNoReset(slot: Slot, e: Event)
    requires SlotDue(Began(slot, e), e.now) && Began(slot, e).s.state == Bonded
    ensures !Resets(e) && Began(slot, e) == slot
  {
  }

  /** What every frame says, field by field: its own time, sender, receiver and role; and either it is a
      BOND, which carries no echo, or it is the verdict of a bonded slot, echoing the counter and stamp
      of the last reply adopted in this stay. */
  lemma FramesEchoTheLastReply(boot: Slot, es: seq<Event>, e: Event)
    requires AtBoot(boot) && SlotDue(Began(After(boot, es), e), e.now)
    ensures var slot := Began(After(boot, es), e);
      var f, stay := Encode(MsgOf(After(boot, es), e)), LastInStay(boot, es);
      && StampAt(f) == e.now && IdAt(f) == e.me && ReceiverAt(f) == slot.s.peer.id && RoleAt(f) == e.role
      && if slot.s.state == Bonded then
           && KindAt(f) == Some(e.verdict) && stay.Some?
           && ReceivedCounterAt(f) == stay.value.reply.counter && ReceivedStampAt(f) == stay.value.reply.stamp
         else KindAt(f) == Some(Bond) && ReceivedCounterAt(f) == 0 && ReceivedStampAt(f) == 0
  {
    hide Encode, KindAt, StampAt, ReceivedStampAt, IdAt, ReceiverAt, ReceivedCounterAt, RoleAt, CounterAt;
    hide LastInStay, LastAdoption, After;
    var before := After(boot, es);
    RoundTrip(MsgOf(before, e));
    if Began(before, e).s.state == Bonded {
      BondedMeansNoReset(before, e);
      StateIsLastAdoption(boot, es);
    }
  }

  /** When what a slot shows as its last sign of life belongs to the current stay: exactly when this stay
      adopted a reply, or there is none to inherit. */
  lemma LivenessIsThisStays(boot: Slot, es: seq<Event>)
    requires AtBoot(boot) && After(boot, es).active
    ensures var s, ever, stay := After(boot, es).s, LastAdoption(boot, es), LastInStay(boot, es);
      (s.lastReply == if stay.Some? then stay.value.time else 0) <==>
      (stay.Some? || ever.None? || ever.value.time == 0)
  {
    hide LastAdoption, LastInStay, After;
    StateIsLastAdoption(boot, es);
  }

  /** Whatever run led there, a rebond that is not answered at once clears the echo but not the liveness:
      the slot goes on showing the time of a reply from before this stay. */
  lemma RebondKeepsLiveness(boot: Slot, es: seq<Event>, e: Event)
    requires AtBoot(boot) && After(boot, es).active && LastAdoption(boot, es).Some?
    requires e.reconf.Keep? && e.rebond && AdoptedIn(After(boot, es), e) == []
    ensures var all := es + [e];
      && After(boot, all).active && LastInStay(boot, all).None? && LastAdoption(boot, all) == LastAdoption(boot, es)
      && After(boot, all).s.lastReply == LastAdoption(boot, es).value.time
      && After(boot, all).s.proto.rxCounter == 0 && After(boot, all).s.proto.rxStamp == 0
  {
    var all := es + [e];
    assert Prefix(all) == es && Last(all) == e;
    StateIsLastAdoption(boot, all);
    RebondedStaysOpen(After(boot, es), e);
  }

  lemma RebondedStaysOpen(slot: Slot, e: Event)
    requires slot.active && e.reconf.Keep?
    ensures Step(slot, e).active
  {
  }

  // Timing --------------------------------------------------------------------------------------

  predicate NotAfter(s: Sess, t: u64) { s.lastSend <= t && s.lastReply <= t && s.lastBond <= t }

  lemma StepStamps(slot: Slot, e: Event, t: u64)
    requires (slot.active ==> NotAfter(slot.s, t)) && e.now <= t
    ensures Step(slot, e).active ==> NotAfter(Step(slot, e).s, t)
  {
    var s := Sent(slot, e);
    assert s.active ==> NotAfter(s.s, t);
    PollFacts(s.s, s.queue + e.arrivals, e.now);
  }

  lemma {:induction false} StampsArePast(boot: Slot, es: seq<Event>, t: u64)
    requires AtBoot(boot) && forall i :: 0 <= i < |es| ==> es[i].now <= t
    ensures After(boot, es).active ==> NotAfter(After(boot, es).s, t)
    decreases |es|
  {
    if es != [] {
      StampsArePast(boot, Prefix(es), t);
      StepStamps(After(boot, Prefix(es)), Last(es), t);
    }
  }

  /** How a bonded slot can stop being bonded in one tick: on request, by an UNBOND, or because its
      last accepted reply is strictly more than five windows and at least 2.5 s old. */
  lemma DroppedOnlyForCause(boot: Slot, es: seq<Event>)
    requires AtBoot(boot) && es != [] && Timely(es)
    requires var before := After(boot, Prefix(es)); before.active && before.s.state == Bonded
    requires var t := After(boot, es); !t.active || t.s.state != Bonded
    ensures var before, e := After(boot, Prefix(es)), Last(es);
      || Resets(e)
      || UnbondCount(HeardIn(before, e)) > 0
      || (TimedOut(before, e) && LastAdoption(boot, es).Some?
          && e.now > LastAdoption(boot, es).value.time + 5 * NewestWindow(before.s.hb, AdoptedIn(before, e))
          && e.now >= LastAdoption(boot, es).value.time + REBOND_FLOOR_MS)
  {
    var before, e := After(boot, Prefix(es)), Last(es);
    if !Resets(e) && UnbondCount(HeardIn(before, e)) == 0 {
      var t := Sent(before, e);
      PollFacts(t.s, t.queue + e.arrivals, e.now);
      StateIsLastAdoption(boot, Prefix(es));
      StampsArePast(boot, Prefix(es), e.now);
    }
  }

  /** The watchdog fires exactly when that much silence has passed: it neither undercuts the machine
      nor waits longer than its margin. */
  lemma TimesOutExactly(s: Sess, now: u64)
    requires s.state == Bonded && s.lastReply <= now
    ensures WatchdogFires(s, now) <==>
      now - s.lastReply >= REBOND_FLOOR_MS && now - s.lastReply >= 5 * s.hb + REBOND_MARGIN_MS
  {
  }

  /** What the log says about the stored times. */
  predicate LogMatches(slot: Slot, log: seq<Tx>) {
    slot.active ==>
      && (log != [] ==> slot.s.lastSend == Last(log).time)
      && (slot.s.state == Idle ==> log == [])
      && (slot.s.state == Bonding ==> log != [] && slot.s.lastBond == Last(log).time)
  }

  lemma SendMatches(slot: Slot, log: seq<Tx>, e: Event)
    requires LogMatches(slot, log)
    ensures LogMatches(Sent(slot, e),
      (if Resets(e) then [] else log) + (if Transmits(slot, e) then [Tx(MsgOf(slot, e), e.now)] else []))
  {
    assert LogMatches(Began(slot, e), if Resets(e) then [] else log);
  }

  lemma {:induction false} LogTracksTimes(boot: Slot, es: seq<Event>)
    requires AtBoot(boot)
    ensures LogMatches(After(boot, es), Log(boot, es))
    decreases |es|
  {
    if es != [] {
      var before, e := After(boot, Prefix(es)), Last(es);
      LogTracksTimes(boot, Prefix(es));
      SendMatches(before, Log(boot, Prefix(es)), e);
      var t := Sent(before, e);
      PollFacts(t.s, t.queue + e.arrivals, e.now);
    }
  }

  predicate BondsSpaced(log: seq<Tx>) {
    forall i :: 0 < i < |log| && log[i].msg.kind == Bond ==>
      log[i].time >= log[i - 1].time + BOND_RETRY_MS
  }

  lemma SpacedStep(slot: Slot, log: seq<Tx>, e: Event)
    requires BondsSpaced(log) && LogMatches(slot, log)
    requires slot.active ==> NotAfter(slot.s, e.now)
    ensures BondsSpaced(Logged(slot, e, log))
  {
  }

  /** Within one bonding stay, a successful BOND comes at least five seconds after the last frame. */
  lemma {:induction false} BondSpacing(boot: Slot, es: seq<Event>)
    requires AtBoot(boot) && Timely(es)
    ensures BondsSpaced(Log(boot, es))
    decreases |es|
  {
    if es != [] {
      BondSpacing(boot, Prefix(es));
      LogTracksTimes(boot, Prefix(es));
      StampsArePast(boot, Prefix(es), Last(es).now);
      SpacedStep(After(boot, Prefix(es)), Log(boot, Prefix(es)), Last(es));
    }
  }

  /** Two consecutive ticks that transmit whatever is due, in one bonded stay. */
  predicate BondedStretch(boot: Slot, es: seq<Event>) {
    && |es| >= 2 && Timely(es)
    && var e1, e2 := es[|es| - 2], Last(es);
    && e1.granted && e1.sendOk && !Resets(e2)
    && var b1 := Began(After(boot, Prefix(Prefix(es))), e1);
    && b1.active && b1.s.state == Bonded
    && var b2 := After(boot, Prefix(es));
    && b2.active && b2.s.state == Bonded
  }

  /** While every tick transmits, a bonded slot's last frame is younger than the send period in force
      at the previous tick plus the tick gap. */
  lemma HeartbeatGap(boot: Slot, es: seq<Event>)
    requires AtBoot(boot) && BondedStretch(boot, es)
    requires Log(boot, Prefix(es)) != []
    ensures var e1, e2 := es[|es| - 2], Last(es);
      e2.now - Last(Log(boot, Prefix(es))).time
        < SendPeriod(Began(After(boot, Prefix(Prefix(es))), e1).s.hb) + (e2.now - e1.now)
  {
    var init := Prefix(es);
    var e1 := Last(init);
    LogTracksTimes(boot, init);
    var before := After(boot, Prefix(init));
    StampsArePast(boot, Prefix(init), e1.now);
    var t := Sent(before, e1);
    PollFacts(t.s, t.queue + e1.arrivals, e1.now);
  }

  /** The same bound with the period in force now holds exactly when the slot was not already due by that
      period at the previous tick; and it was exactly when that tick, sending nothing, adopted a window so
      short that the time since the last frame had already used it up. */
  lemma CurrentPeriodBoundExactlyWhen(boot: Slot, es: seq<Event>)
    requires AtBoot(boot) && BondedStretch(boot, es)
    requires Log(boot, Prefix(es)) != []
    ensures var e1, e2 := es[|es| - 2], Last(es);
      var before, now := After(boot, Prefix(Prefix(es))), After(boot, Prefix(es)).s;
      var last := Last(Log(boot, Prefix(es))).time;
      && (e2.now - last < SendPeriod(now.hb) + (e2.now - e1.now) <==> !Due(now, e1.now))
      && (Due(now, e1.now) <==>
            && !Transmits(before, e1)
            && e1.now - last >= SendPeriod(NewestWindow(Began(before, e1).s.hb, AdoptedIn(before, e1))))
  {
    var init := Prefix(es);
    var e1 := Last(init);
    LogTracksTimes(boot, init);
    StampsArePast(boot, init, e1.now);
    var t := Sent(After(boot, Prefix(init)), e1);
    PollFacts(t.s, t.queue + e1.arrivals, e1.now);
  }

  /** A run in which it fails: the machine shortens its window between two frames. */
  function ShorteningRun(peer: Peer): seq<Event> {
    var reply := (hb: u32) => [Datagram(FRAME_SIZE, peer.addr, true, Reply(Other(0x55), 1, 1, hb))];
    var tick := (now: u64, q: seq<Datagram>) => Event(now, Keep, false, true, Ok, 0, 0, true, q);
    [tick(0, reply(2000)), tick(900, reply(200)), tick(1000, [])]
  }

  lemma ShorterWindowWitness(peer: Peer)
    ensures var boot, es := Slot(true, Opened(peer), []), ShorteningRun(peer);
      && AtBoot(boot) && BondedStretch(boot, es) && Log(boot, Prefix(es)) != []
      && SlotDue(After(boot, Prefix(es)), 1000)
      && Last(es).now - Last(Log(boot, Prefix(es))).time
           >= SendPeriod(After(boot, Prefix(es)).s.hb) + (Last(es).now - es[|es| - 2].now)
  {
    var boot, es := Slot(true, Opened(peer), []), ShorteningRun(peer);
    assert Prefix(es) == [es[0], es[1]] && Prefix(Prefix(es)) == [es[0]] && Prefix([es[0]]) == [];
    var d0, d1 := es[0].arrivals[0], es[1].arrivals[0];
    var a := Sent(boot, es[0]);
    OneReply(a.s, d0, 0);
    assert a.queue + es[0].arrivals == [d0];
    var one := Step(boot, es[0]);
    assert After(boot, [es[0]]) == one && one.s.state == Bonded && one.s.hb == 2000 && one.s.lastSend == 0;
    assert Log(boot, [es[0]]) == [Tx(MsgOf(boot, es[0]), 0)];
    OneReply(one.s, d1, 900);
    assert one.queue + es[1].arrivals == [d1];
    var two := Step(one, es[1]);
    assert After(boot, Prefix(es)) == two && two.s.state == Bonded && two.s.hb == 200 && two.s.lastSend == 0;
    assert Log(boot, Prefix(es)) == Log(boot, [es[0]]);
  }

  lemma OneReply(s: Sess, d: Datagram, now: u64)
    requires d.len == FRAME_SIZE
    ensures Drain(s, [d], now) == (Received(s, d, now), [])
  {
    assert [d][1..] == [];
    assert Drain(Received(s, d, now), [], now) == (Received(s, d, now), []);
  }
}
