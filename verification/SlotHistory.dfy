/** What a slot's session stands for. A slot's past is kept here as lists: every reply it adopted and every
    frame it sent since it was opened, and where the current stay starts in both. The session keeps a few
    numbers instead, and loses nothing by it: in every run each of its fields, what it sends and when, is
    what the lists say. */
module SlotHistory {
  import opened Types
  import opened Wire
  import opened Session
  import opened SlotRun

  /** `adopted` and `sent` go back to when the slot was opened; the current stay starts after the first
      `oldAdopted` and `oldSent` of them. */
  datatype Past =
    | Shut
    | Open(peer: Peer, unread: seq<Datagram>, adopted: seq<Adoption>, sent: seq<Tx>,
           oldAdopted: nat, oldSent: nat, parked: bool,
           fails: nat, unbonds: nat, rebonds: nat, lastHeard: Option<ReplyKind>)

  /** A count as 32 bits hold it. */
  function Kept(n: nat): u32 { n % 0x1_0000_0000 }

  function Drop<T>(s: seq<T>, n: nat): seq<T> { if n <= |s| then s[n..] else [] }

  /** The replies adopted and the frames sent in the current stay. */
  function StayReplies(p: Past): seq<Adoption> { if p.Open? then Drop(p.adopted, p.oldAdopted) else [] }

  function StayFrames(p: Past): seq<Tx> { if p.Open? then Drop(p.sent, p.oldSent) else [] }

  predicate InBond(p: Past) { p.Open? && !p.parked && StayReplies(p) != [] }

  /** The newest window that is not zero; zero if there is none. */
  function NewestOf(a: seq<Adoption>): u32 {
    if a == [] then 0
    else if a[|a| - 1].reply.heartbeat != 0 then a[|a| - 1].reply.heartbeat
    else NewestOf(a[..|a| - 1])
  }

  /** Half the newest window, but at least 100 ms and at most 1 s. */
  function PeriodOf(p: Past): nat {
    var half := NewestOf(StayReplies(p)) / 2;
    if half < 100 then 100 else if half > 1000 then 1000 else half
  }

  /** The slot has a frame for its machine: never when parked; in a bond, once the period since the last
      frame is over; otherwise a BOND at once, and again every five seconds. */
  predicate Wants(p: Past, now: u64) {
    && p.Open? && !p.parked
    && if InBond(p) then now - (if p.sent == [] then 0 else Last(p.sent).time) >= PeriodOf(p)
       else StayFrames(p) == [] || now - Last(StayFrames(p)).time >= 5000
  }

  /** That frame. */
  function FrameOf(p: Past, e: Event): Msg
    requires p.Open?
  {
    var counter := Kept(|StayFrames(p)| + 1);
    if InBond(p) then
      var r := Last(StayReplies(p)).reply;
      Msg(e.verdict, e.now, r.stamp, e.me, p.peer.id, counter, r.counter, e.role)
    else Msg(Bond, e.now, 0, e.me, p.peer.id, counter, 0, e.role)
  }

  /** Five windows and half a second, and at least 2.5 s, without a reply. */
  predicate Silent(p: Past, now: u64) {
    && InBond(p)
    && now - Last(StayReplies(p)).time >= 2500
    && now - Last(StayReplies(p)).time >= 5 * NewestOf(StayReplies(p)) + 500
  }

  /** What a tick does to the past. */
  function Fresh(peer: Peer, unread: seq<Datagram>): Past { Open(peer, unread, [], [], 0, 0, false, 0, 0, 0, None) }

  function Configured(p: Past, r: Reconf): Past {
    match r
    case Keep => p
    case Apply(peer, openOk) => if peer.Some? && openOk then Fresh(peer.value, []) else Shut
  }

  function Restarted(p: Past): Past {
    if p.Shut? then p
    else p.(oldAdopted := |p.adopted|, oldSent := |p.sent|, parked := false, rebonds := p.rebonds + 1)
  }

  function Asked(p: Past, e: Event): Past {
    var c := Configured(p, e.reconf);
    if e.rebond then Restarted(c) else c
  }

  function Sending(p: Past, e: Event): Past {
    if !e.granted || !Wants(p, e.now) then p
    else if e.sendOk then p.(sent := p.sent + [Tx(FrameOf(p, e), e.now)])
    else p.(fails := p.fails + 1)
  }

  /** What is left in the socket: whatever comes after the first datagram of the wrong size. */
  function Unread(q: seq<Datagram>): seq<Datagram> {
    if q == [] then [] else if q[0].len != FRAME_SIZE then q[1..] else Unread(q[1..])
  }

  function Times(rs: seq<Reply>, now: u64): (a: seq<Adoption>)
    ensures |a| == |rs| && forall i :: 0 <= i < |rs| ==> a[i] == Adoption(rs[i], now)
  {
    seq(|rs|, i requires 0 <= i < |rs| => Adoption(rs[i], now))
  }

  /** The past once news has been adopted from what was heard. */
  function Heeding(p: Past, rest: seq<Datagram>, heard: seq<Reply>, news: seq<Reply>, now: u64): Past
    requires p.Open?
  {
    p.(unread := rest, adopted := p.adopted + Times(news, now),
       parked := p.parked || UnbondCount(heard) > 0, unbonds := p.unbonds + UnbondCount(heard),
       lastHeard := if UnbondCount(heard) > 0 then Some(Unbond)
                    else if news == [] then p.lastHeard else Some(LastOf(news).kind))
  }

  function Hearing(p: Past, arrivals: seq<Datagram>, now: u64): Past {
    if p.Shut? then p
    else
      var heard := Heard(p.peer, p.unread + arrivals);
      var news := if p.parked then [] else Before(heard);
      Heeding(p, Unread(p.unread + arrivals), heard, news, now)
  }

  function Ended(p: Past, now: u64): Past { if Silent(p, now) then Restarted(p) else p }

  function Told(p: Past, e: Event): Past {
    Ended(Hearing(Sending(Asked(p, e), e), e.arrivals, e.now), e.now)
  }

  function AtFirst(boot: Slot): Past { if boot.active then Fresh(boot.s.peer, boot.queue) else Shut }

  function PastOf(boot: Slot, es: seq<Event>): Past {
    if es == [] then AtFirst(boot) else Told(PastOf(boot, Prefix(es)), Last(es))
  }

  // The session says the same ----------------------------------------------------------------------


  predicate Sound(p: Past, now: u64) {
    p.Open? ==>
      && p.oldAdopted <= |p.adopted| && p.oldSent <= |p.sent|
      && (forall a :: a in p.adopted ==> a.time <= now) && (forall x :: x in p.sent ==> x.time <= now)
  }

  function StateOf(p: Past): BondState
    requires p.Open?
  {
    if p.parked then Rejected
    else if StayReplies(p) != [] then Bonded
    else if StayFrames(p) != [] then Bonding
    else Idle
  }

  function ProtoOf(p: Past): Proto {
    var r := StayReplies(p);
    Proto(Kept(|StayFrames(p)|), if r == [] then 0 else Last(r).reply.counter, if r == [] then 0 else Last(r).reply.stamp)
  }

  function TelemetryOf(p: Past): Telemetry
    requires p.Open?
  {
    Telemetry(Kept(|p.sent|), Kept(|p.adopted|), Kept(p.fails), Kept(p.rebonds), Kept(p.unbonds), p.lastHeard)
  }

  /** Every field of an open slot, read off its past. */
  predicate Matches(slot: Slot, p: Past) {
    && (slot.active <==> p.Open?)
    && (p.Open? ==>
          && slot.s.peer == p.peer && slot.queue == p.unread && slot.s.state == StateOf(p)
          && slot.s.hb == NewestOf(StayReplies(p)) && slot.s.proto == ProtoOf(p) && slot.s.tele == TelemetryOf(p)
          && slot.s.lastSend == (if p.sent == [] then 0 else Last(p.sent).time)
          && slot.s.lastReply == (if p.adopted == [] then 0 else Last(p.adopted).time)
          && (slot.s.state == Bonding ==> slot.s.lastBond == Last(p.sent).time))
  }

  lemma StayEnds(p: Past)
    requires Sound(p, 0xFFFF_FFFF_FFFF_FFFF) && p.Open?
    ensures StayFrames(p) != [] ==> p.sent != [] && Last(StayFrames(p)) == Last(p.sent)
    ensures StayReplies(p) != [] ==> p.adopted != [] && Last(StayReplies(p)) == Last(p.adopted)
    ensures StayFrames(p) == p.sent[p.oldSent..] && StayReplies(p) == p.adopted[p.oldAdopted..]
  {
  }

  lemma AskedMatches(slot: Slot, p: Past, e: Event)
    requires Matches(slot, p) && Sound(p, e.now)
    ensures Matches(Began(slot, e), Asked(p, e)) && Sound(Asked(p, e), e.now)
  {
    hide Matches, Sound, Reconfigured, Configured, Restarted, Rebonded;
    ConfiguredMatches(slot, p, e.reconf, e.now);
    var c, q := Reconfigured(slot, e.reconf), Configured(p, e.reconf);
    OpenAlike(c, q);
    RestartedMatches(c, q, e.now);
  }

  lemma OpenAlike(slot: Slot, p: Past)
    requires Matches(slot, p)
    ensures slot.active <==> p.Open?
  {
  }

  lemma ConfiguredMatches(slot: Slot, p: Past, r: Reconf, now: u64)
    requires Matches(slot, p) && Sound(p, now)
    ensures Matches(Reconfigured(slot, r), Configured(p, r)) && Sound(Configured(p, r), now)
  {
    if r.Apply? {
      hide Closed;
      assert Configured(p, r).Open? ==> Configured(p, r) == Fresh(r.peer.value, []);
    }
  }

  lemma RestartedMatches(slot: Slot, p: Past, now: u64)
    requires Matches(slot, p) && Sound(p, now)
    ensures Matches(if slot.active then slot.(s := Rebonded(slot.s)) else slot, Restarted(p)) && Sound(Restarted(p), now)
  {
    if p.Open? {
      CountUp(p.rebonds);
      assert StayReplies(Restarted(p)) == [] && StayFrames(Restarted(p)) == [];
    }
  }

  /** When a slot is due, said of its past. */
  lemma DueWhenWanted(slot: Slot, p: Past, now: u64)
    requires Matches(slot, p) && Sound(p, now)
    ensures SlotDue(slot, now) <==> Wants(p, now)
  {
    if p.Open? {
      StayEnds(p);
    }
  }

  lemma BuildsFrameOf(slot: Slot, p: Past, e: Event)
    requires Matches(slot, p) && p.Open? && !p.parked
    ensures Build(slot.s, e.verdict, e.role, e.now, e.me) == FrameOf(p, e)
  {
    CountUp(|StayFrames(p)|);
  }

  lemma CountUp(n: nat)
    ensures Add32(Kept(n), 1) == Kept(n + 1)
  {
  }

  lemma CountMore(n: nat, m: nat)
    ensures Add32(Kept(n), m) == Kept(n + m)
  {
  }

  lemma SendingMatches(slot: Slot, p: Past, e: Event)
    requires Matches(slot, p) && Sound(p, e.now)
    ensures Matches(Attempted(slot, e.granted, e.sendOk, e.now), Sending(p, e)) && Sound(Sending(p, e), e.now)
  {
    hide Matches, Sound, FrameOf, Committed, Wants, SlotDue;
    DueWhenWanted(slot, p, e.now);
    if e.granted && Wants(p, e.now) {
      WantsOpen(p, e.now);
      if e.sendOk {
        SentMatches(slot, p, Tx(FrameOf(p, e), e.now), e.now);
      } else {
        FailedMatches(slot, p, e.now);
      }
    }
  }

  lemma WantsOpen(p: Past, now: u64)
    requires Wants(p, now)
    ensures p.Open? && !p.parked
  {
  }

  lemma DropMore<T>(s: seq<T>, n: nat, more: seq<T>)
    requires n <= |s|
    ensures Drop(s + more, n) == Drop(s, n) + more
  {
  }

  lemma EndOf<T>(s: seq<T>, more: seq<T>)
    requires more != []
    ensures Last(s + more) == Last(more)
  {
  }

  lemma SentStays(p: Past, x: Tx, now: u64)
    requires Sound(p, now) && p.Open? && x.time == now
    ensures var q := p.(sent := p.sent + [x]);
      && StayFrames(q) == StayFrames(p) + [x] && StayReplies(q) == StayReplies(p)
      && Last(q.sent) == x && Sound(q, now) && |q.sent| == |p.sent| + 1
  {
    hide Drop;
    DropMore(p.sent, p.oldSent, [x]);
    EndOf(p.sent, [x]);
    assert forall y :: y in p.sent + [x] ==> y in p.sent || y == x;
  }

  lemma SentMatches(slot: Slot, p: Past, x: Tx, now: u64)
    requires Matches(slot, p) && Sound(p, now) && p.Open? && !p.parked && x.time == now
    ensures var q := p.(sent := p.sent + [x]);
      Matches(slot.(s := Committed(slot.s, true, now)), q) && Sound(q, now)
  {
    hide StayFrames, StayReplies, NewestOf, Kept, Add32, Sound;
    var q := p.(sent := p.sent + [x]);
    SentStays(p, x, now);
    CountUp(|p.sent|);
    CountUp(|StayFrames(p)|);
    var t := slot.(s := Committed(slot.s, true, now));
    assert t.s.proto == ProtoOf(q);
    assert t.s.tele == TelemetryOf(q);
    assert t.s.state == StateOf(q);
    hide ProtoOf, TelemetryOf, StateOf;
  }

  lemma FailedMatches(slot: Slot, p: Past, now: u64)
    requires Matches(slot, p) && Sound(p, now) && p.Open?
    ensures var q := p.(fails := p.fails + 1);
      Matches(slot.(s := Committed(slot.s, false, now)), q) && Sound(q, now)
  {
    hide NewestOf;
    CountUp(p.fails);
    var q := p.(fails := p.fails + 1);
    assert StayFrames(q) == StayFrames(p) && StayReplies(q) == StayReplies(p);
    hide Drop, StayFrames, StayReplies;
  }

  lemma {:induction false} DrainLeaves(s: Sess, q: seq<Datagram>, now: u64)
    ensures Drain(s, q, now).1 == Unread(q)
    decreases |q|
  {
    if q != [] && q[0].len == FRAME_SIZE {
      DrainLeaves(Received(s, q[0], now), q[1..], now);
    }
  }

  lemma {:induction false} NewestMore(a: seq<Adoption>, rs: seq<Reply>, now: u64)
    ensures NewestOf(a + Times(rs, now)) == NewestWindow(NewestOf(a), rs)
    decreases |rs|
  {
    if rs == [] {
      assert a + Times(rs, now) == a;
    } else {
      var init := rs[..|rs| - 1];
      NewestMore(a, init, now);
      assert (a + Times(rs, now))[..|a| + |rs| - 1] == a + Times(init, now);
    }
  }

  lemma HearingMatches(slot: Slot, p: Past, arrivals: seq<Datagram>, now: u64)
    requires Matches(slot, p) && Sound(p, now)
    ensures Matches(Polled(slot, arrivals, now), Hearing(p, arrivals, now)) && Sound(Hearing(p, arrivals, now), now)
  {
    hide Drain, Sound, Matches, Adopting, Heard, Before, UnbondCount, Unread, LastOf;
    OpenAlike(slot, p);
    if p.Open? {
      var q := p.unread + arrivals;
      QueueIsUnread(slot, p);
      PollEffect(slot.s, q, now);
      DrainLeaves(slot.s, q, now);
      HeardMatches(slot, p, Unread(q), Heard(p.peer, q), if p.parked then [] else Before(Heard(p.peer, q)), now);
    }
  }

  lemma QueueIsUnread(slot: Slot, p: Past)
    requires Matches(slot, p) && p.Open?
    ensures slot.queue == p.unread && slot.s.peer == p.peer && (slot.s.state == Rejected <==> p.parked)
  {
  }

  lemma HeedingStays(p: Past, rest: seq<Datagram>, heard: seq<Reply>, news: seq<Reply>, now: u64)
    requires Sound(p, now) && p.Open?
    ensures var r := Heeding(p, rest, heard, news, now);
      && StayFrames(r) == StayFrames(p) && StayReplies(r) == StayReplies(p) + Times(news, now)
      && (news == [] ==> StayReplies(r) == StayReplies(p) && r.adopted == p.adopted)
      && (news != [] ==> Last(StayReplies(r)) == Last(r.adopted) == Adoption(LastOf(news), now))
      && NewestOf(StayReplies(r)) == NewestWindow(NewestOf(StayReplies(p)), news)
  {
    hide UnbondCount, NewestOf, NewestWindow, Drop;
    NewestMore(StayReplies(p), news, now);
    DropMore(p.adopted, p.oldAdopted, Times(news, now));
    if news == [] {
      assert Times(news, now) == [];
    } else {
      EndOf(p.adopted, Times(news, now));
      EndOf(StayReplies(p), Times(news, now));
    }
  }

  lemma HeedingSound(p: Past, rest: seq<Datagram>, heard: seq<Reply>, news: seq<Reply>, now: u64)
    requires Sound(p, now) && p.Open?
    ensures Sound(Heeding(p, rest, heard, news, now), now)
  {
    hide UnbondCount;
    var more := Times(news, now);
    forall a | a in p.adopted + more ensures a.time <= now {
      if a !in p.adopted {
        var i :| 0 <= i < |more| && more[i] == a;
      }
    }
  }

  lemma HeardMatches(slot: Slot, p: Past, rest: seq<Datagram>, heard: seq<Reply>, news: seq<Reply>, now: u64)
    requires Matches(slot, p) && Sound(p, now) && p.Open? && (p.parked ==> news == [])
    ensures var r := Heeding(p, rest, heard, news, now);
      Matches(slot.(s := Adopting(slot.s, heard, news, now), queue := rest), r) && Sound(r, now)
  {
    hide NewestWindow, UnbondCount, NewestOf, Kept, Add32, Sound, StayFrames, StayReplies, LastOf;
    HeedingStays(p, rest, heard, news, now);
    HeedingSound(p, rest, heard, news, now);
    CountMore(|p.adopted|, |news|);
    CountMore(p.unbonds, UnbondCount(heard));
    var r, t := Heeding(p, rest, heard, news, now), Adopting(slot.s, heard, news, now);
    assert t.proto == ProtoOf(r);
    assert t.tele == TelemetryOf(r);
    assert t.state == StateOf(r);
    hide ProtoOf, TelemetryOf, StateOf;
  }

  lemma SilentWhenFires(slot: Slot, p: Past, now: u64)
    requires Matches(slot, p) && Sound(p, now)
    ensures slot.active && WatchdogFires(slot.s, now) <==> Silent(p, now)
  {
    if p.Open? {
      StayEnds(p);
      if slot.s.state == Bonded {
        TimesOutExactly(slot.s, now);
      }
    }
  }

  lemma EndedMatches(slot: Slot, p: Past, now: u64)
    requires Matches(slot, p) && Sound(p, now)
    ensures Matches(if slot.active then slot.(s := Watched(slot.s, now)) else slot, Ended(p, now))
    ensures Sound(Ended(p, now), now)
  {
    SilentWhenFires(slot, p, now);
    if p.Open? {
      CountUp(p.rebonds);
    }
  }

  lemma ToldMatches(slot: Slot, p: Past, e: Event)
    requires Matches(slot, p) && Sound(p, e.now)
    ensures Matches(Step(slot, e), Told(p, e)) && Sound(Told(p, e), e.now)
  {
    hide Matches, Sound, Asked, Sending, Hearing, Ended, Begun, Attempted, Polled, Watched;
    AskedMatches(slot, p, e);
    SendingMatches(Began(slot, e), Asked(p, e), e);
    HearingMatches(Sent(slot, e), Sending(Asked(p, e), e), e.arrivals, e.now);
    EndedMatches(Polled(Sent(slot, e), e.arrivals, e.now), Hearing(Sending(Asked(p, e), e), e.arrivals, e.now), e.now);
  }

  /** In every run every field of the slot's session is what its past says: which machine it is open for, its
      state, window, counters, stamps and telemetry, and what is still in its socket. */
  lemma {:induction false} SlotIsItsPast(boot: Slot, es: seq<Event>)
    requires AtBoot(boot) && Timely(es)
    ensures Matches(After(boot, es), PastOf(boot, es))
    ensures forall now: u64 :: (forall e :: e in es ==> e.now <= now) ==> Sound(PastOf(boot, es), now)
    decreases |es|
  {
    hide Matches, Sound, Told, Step;
    if es == [] {
      BootMatches(boot);
    } else {
      var e := Last(es);
      SlotIsItsPast(boot, Prefix(es));
      ToldMatches(After(boot, Prefix(es)), PastOf(boot, Prefix(es)), e);
      forall now: u64 | (forall x :: x in es ==> x.now <= now) ensures Sound(PastOf(boot, es), now) {
        assert e in es;
        SoundLater(PastOf(boot, es), e.now, now);
      }
    }
  }

  lemma SoundLater(p: Past, t: u64, now: u64)
    requires Sound(p, t) && t <= now
    ensures Sound(p, now)
  {
  }

  lemma BootMatches(boot: Slot)
    requires AtBoot(boot)
    ensures Matches(boot, AtFirst(boot)) && forall now: u64 :: Sound(AtFirst(boot), now)
  {
  }

  lemma LogStep(slot: Slot, p: Past, e: Event, log: seq<Tx>)
    requires Matches(slot, p) && Sound(p, e.now) && log == StayFrames(p)
    ensures Logged(slot, e, log) == StayFrames(Told(p, e))
  {
    hide Matches, Sound, Begun, Attempted, Polled, Watched, Wants, FrameOf, WatchdogFires, Silent, Build, Heard, Before,
      UnbondCount, Unread, SlotDue;
    AskedMatches(slot, p, e);
    var a := Asked(p, e);
    DueWhenWanted(Began(slot, e), a, e.now);
    SendingMatches(Began(slot, e), a, e);
    var s := Sending(a, e);
    HearingMatches(Sent(slot, e), s, e.arrivals, e.now);
    SilentWhenFires(Polled(Sent(slot, e), e.arrivals, e.now), Hearing(s, e.arrivals, e.now), e.now);
    AskedFrames(slot, p, e);
    SendingFrames(a, e);
    HearingFrames(s, e.arrivals, e.now);
    if Wants(a, e.now) {
      WantsOpen(a, e.now);
      BuildsFrameOf(Began(slot, e), a, e);
    }
  }

  lemma AskedFrames(slot: Slot, p: Past, e: Event)
    requires Matches(slot, p)
    ensures StayFrames(Asked(p, e)) == if Resets(e) then [] else StayFrames(p)
  {
  }

  lemma SendingFrames(p: Past, e: Event)
    requires Sound(p, e.now)
    ensures StayFrames(Sending(p, e)) ==
      StayFrames(p) + if e.granted && e.sendOk && Wants(p, e.now) then [Tx(FrameOf(p, e), e.now)] else []
  {
    hide FrameOf, Wants, Drop;
    if Wants(p, e.now) {
      WantsOpen(p, e.now);
      DropMore(p.sent, p.oldSent, [Tx(FrameOf(p, e), e.now)]);
    }
    assert StayFrames(p) + [] == StayFrames(p);
  }

  lemma HearingFrames(p: Past, arrivals: seq<Datagram>, now: u64)
    ensures StayFrames(Hearing(p, arrivals, now)) == StayFrames(p)
    ensures StayFrames(Ended(p, now)) == if Silent(p, now) then [] else StayFrames(p)
  {
    hide Heard, Before, UnbondCount, Unread, Silent;
    assert p.Open? ==> Drop(p.sent, |p.sent|) == [];
  }

  /** The log of the current stay is the frames of the current stay. */
  lemma {:induction false} LogIsStayFrames(boot: Slot, es: seq<Event>)
    requires AtBoot(boot) && Timely(es)
    ensures Log(boot, es) == StayFrames(PastOf(boot, es))
    decreases |es|
  {
    hide Matches, Sound, Told, Logged;
    if es != [] {
      var e := Last(es);
      LogIsStayFrames(boot, Prefix(es));
      SlotIsItsPast(boot, Prefix(es));
      LogStep(After(boot, Prefix(es)), PastOf(boot, Prefix(es)), e, Log(boot, Prefix(es)));
    }
  }

  // When it sends ----------------------------------------------------------------------------------

  lemma TimelySnoc(es: seq<Event>, e: Event)
    requires Timely(es + [e])
    ensures Timely(es) && forall x :: x in es ==> x.now <= e.now
  {
    var all := es + [e];
    forall i, j | 0 <= i < j < |es| ensures es[i].now <= es[j].now {
      assert all[i].now <= all[j].now;
    }
    forall x | x in es ensures x.now <= e.now {
      var i :| 0 <= i < |es| && es[i] == x;
      assert all[i].now <= all[|es|].now;
    }
  }

  /** In every run a slot is due exactly when its past wants a frame, and the frame it is due is the one its
      past says. */
  lemma DueExactlyWhen(boot: Slot, es: seq<Event>, e: Event)
    requires AtBoot(boot) && Timely(es + [e])
    ensures var before, p := After(boot, es), Asked(PastOf(boot, es), e);
      && (SlotDue(Began(before, e), e.now) <==> Wants(p, e.now))
      && (Wants(p, e.now) ==> MsgOf(before, e) == FrameOf(p, e))
  {
    hide Matches, Sound, Asked, Begun, Wants, SlotDue, FrameOf, Build, After, PastOf;
    TimelySnoc(es, e);
    SlotIsItsPast(boot, es);
    var before, p := After(boot, es), PastOf(boot, es);
    AskedMatches(before, p, e);
    DueWhenWanted(Began(before, e), Asked(p, e), e.now);
    if Wants(Asked(p, e), e.now) {
      WantsOpen(Asked(p, e), e.now);
      BuildsFrameOf(Began(before, e), Asked(p, e), e);
    }
  }

  /** A tick that may send does so exactly when the slot is due, and the count of sent frames says so. */
  lemma SentMoves(slot: Slot, e: Event)
    requires slot.active && e.reconf.Keep? && e.granted && e.sendOk
    ensures Step(slot, e).active
    ensures Step(slot, e).s.tele.sent ==
      if SlotDue(Began(slot, e), e.now) then Add32(slot.s.tele.sent, 1) else slot.s.tele.sent
  {
    var t := Sent(slot, e);
    PollFacts(t.s, t.queue + e.arrivals, e.now);
  }

  /** A slot that is bonding knocks again: in a tick that may send, a frame leaves exactly when five seconds
      have passed since the last one, and it is a BOND. An idle slot's BOND leaves at once, and so does one
      whose rebond was asked for. A parked slot sends nothing. */
  lemma KnocksExactlyWhen(boot: Slot, es: seq<Event>, e: Event)
    requires AtBoot(boot) && Timely(es + [e]) && After(boot, es).active
    requires e.reconf.Keep? && e.granted && e.sendOk
    ensures var before, after := After(boot, es).s, After(boot, es + [e]).s;
      var leaves := after.tele.sent == Add32(before.tele.sent, 1);
      && (leaves || after.tele.sent == before.tele.sent)
      && (e.rebond || before.state == Idle ==> leaves)
      && (!e.rebond && before.state == Rejected ==> !leaves)
      && (!e.rebond && before.state == Bonding ==>
            Log(boot, es) != [] && (leaves <==> e.now - Last(Log(boot, es)).time >= 5000))
      && (leaves && (e.rebond || before.state != Bonded) ==> KindAt(Encode(MsgOf(After(boot, es), e))) == Some(Bond))
  {
    hide Wants, FrameOf, After, PastOf, Log, Encode, KindAt, Step;
    AfterSnoc(boot, es, e);
    TimelySnoc(es, e);
    SlotIsItsPast(boot, es);
    LogIsStayFrames(boot, es);
    DueExactlyWhen(boot, es, e);
    var before, p := After(boot, es), PastOf(boot, es);
    SentMoves(before, e);
    RoundTrip(MsgOf(before, e));
    KnockWants(before, p, e);
  }

  lemma KnockWants(slot: Slot, p: Past, e: Event)
    requires Matches(slot, p) && Sound(p, e.now) && slot.active && e.reconf.Keep?
    ensures var a := Asked(p, e);
      && (e.rebond || slot.s.state == Idle ==> Wants(a, e.now))
      && (!e.rebond && slot.s.state == Rejected ==> !Wants(a, e.now))
      && (!e.rebond && slot.s.state == Bonding ==>
            StayFrames(p) != [] && (Wants(a, e.now) <==> e.now - Last(StayFrames(p)).time >= 5000))
      && (Wants(a, e.now) && (e.rebond || slot.s.state != Bonded) ==> FrameOf(a, e).kind == Bond)
  {
    assert Drop(p.sent, |p.sent|) == [] && Drop(p.adopted, |p.adopted|) == [];
  }

  /** In a bond, a tick that may send does so exactly when half the newest window adopted in this stay, between
      100 ms and 1 s, has passed since the last frame sent. */
  lemma HeartbeatsExactlyWhen(boot: Slot, es: seq<Event>, e: Event)
    requires AtBoot(boot) && Timely(es + [e]) && !Resets(e)
    requires After(boot, es).active && After(boot, es).s.state == Bonded
    ensures var p := PastOf(boot, es);
      && p.Open? && StayReplies(p) != []
      && (Transmits(After(boot, es), e) <==>
            e.granted && e.sendOk && e.now - (if p.sent == [] then 0 else Last(p.sent).time) >= PeriodOf(p))
  {
    hide Log, PeriodOf, SlotDue, After, PastOf;
    TimelySnoc(es, e);
    SlotIsItsPast(boot, es);
    DueExactlyWhen(boot, es, e);
  }

  // Which machine it is for --------------------------------------------------------------------------

  /** The machine last configured, if it was one and its socket opened. */
  function PeerOf(first: Option<Peer>, es: seq<Event>): Option<Peer> {
    if es == [] then first
    else match Last(es).reconf
      case Keep => PeerOf(first, Prefix(es))
      case Apply(peer, openOk) => if openOk then peer else None
  }

  function PeerOfSlot(slot: Slot): Option<Peer> { if slot.active then Some(slot.s.peer) else None }

  lemma PeerStep(slot: Slot, e: Event)
    ensures PeerOfSlot(Began(slot, e)) ==
      match e.reconf case Keep => PeerOfSlot(slot) case Apply(peer, openOk) => if openOk then peer else None
    ensures PeerOfSlot(Step(slot, e)) == PeerOfSlot(Began(slot, e))
  {
    var t := Sent(slot, e);
    PollFacts(t.s, t.queue + e.arrivals, e.now);
  }

  /** In every run a slot is open exactly for the machine last configured, if its socket opened then; and that
      machine is the only one it hears. */
  lemma {:induction false} OpenForTheConfiguredPeer(boot: Slot, es: seq<Event>)
    ensures PeerOfSlot(After(boot, es)) == PeerOf(PeerOfSlot(boot), es)
    decreases |es|
  {
    hide Step;
    if es != [] {
      OpenForTheConfiguredPeer(boot, Prefix(es));
      PeerStep(After(boot, Prefix(es)), Last(es));
    }
  }

  lemma HeardOnlyFromThePeer(boot: Slot, es: seq<Event>, e: Event, i: nat)
    requires i < |AdoptedIn(After(boot, es), e)|
    ensures var peer := PeerOf(PeerOfSlot(boot), es + [e]);
      && peer.Some?
      && exists d: Datagram ::
           && d in Sent(After(boot, es), e).queue + e.arrivals && d.len == FRAME_SIZE && d.verified
           && d.from == peer.value.addr && d.reply == AdoptedIn(After(boot, es), e)[i]
  {
    hide After;
    OpenForTheConfiguredPeer(boot, es + [e]);
    AfterSnoc(boot, es, e);
    var before := After(boot, es);
    PeerStep(before, e);
    var t := Sent(before, e);
    assert t.s.peer == Began(before, e).s.peer;
    HeardFromPeer(t.s.peer, t.queue + e.arrivals, i);
  }

  /** A slot that is not open is idle, so nothing of an old machine's session shows. */
  lemma {:induction false} ShutIsIdle(boot: Slot, es: seq<Event>)
    requires !boot.active ==> boot.s.state == Idle
    ensures var t := After(boot, es); !t.active ==> t.s.state == Idle
    decreases |es|
  {
    if es != [] {
      ShutIsIdle(boot, Prefix(es));
    }
  }
}
