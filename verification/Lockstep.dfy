/** The lockstep comparator: two samplers encode a frame per machine slot, and nothing is transmitted
    unless every due slot's two encodings are byte-identical. */
module Lockstep {
  import opened Types
  import opened Wire
  import opened Estop
  import opened Session
  import opened SlotRun
  import opened Ticks

  /** Where two frames of one size first differ. */
  method FirstDifference(a: seq<u8>, b: seq<u8>) returns (offset: nat)
    requires |a| == |b| == FRAME_SIZE && a != b
    ensures offset < FRAME_SIZE && a[offset] != b[offset] && a[..offset] == b[..offset]
  {
    offset := 0;
    while offset < FRAME_SIZE && a[offset] == b[offset]
      invariant offset <= FRAME_SIZE && a[..offset] == b[..offset]
    {
      offset := offset + 1;
    }
  }

  method NewSessions(n: nat) returns (all: seq<PeerSession>)
    ensures |all| == n && fresh(all)
    ensures forall i, j :: 0 <= i < j < n ==> all[i] != all[j]
  {
    all := [];
    while |all| < n
      invariant |all| <= n && fresh(all)
      invariant forall i, j :: 0 <= i < j < |all| ==> all[i] != all[j]
    {
      var s := new PeerSession(Peer(Addr(0, 0), 0));
      all := all + [s];
    }
  }

  /** What is known of the last tick that was declined as late, and of the last content mismatch. */
  datatype Cause = NoCause | Content | Timeout

  datatype Diag = Diag(last: Cause, lateMask: set<nat>, lateBy: u32, lateAt: u64,
                       slot: nat, offset: nat, v0: Verdict, v1: Verdict, mismatchAt: u64)

  /** One 32-bit stamp for each sampler. */
  type Stamps = s: seq<u32> | |s| == 2 witness [0, 0]

  /** What the uptime clock says in a tick: when each sampler publishes, and when something is recorded. */
  datatype Clock = Clock(doneAt: nat -> u32, at: u64)

  const NoDiag := Diag(NoCause, {}, 0, 0, 0, 0, Stop, Stop, 0)

  /** Each channel samples once: the synchronous path. */
  predicate Once(input: TickInput) { |input.readBacks(0)| == |input.readBacks(1)| == 1 }

  function Sample(input: TickInput, c: nat): Reading
    requires Once(input) && c < 2
  {
    Sanitise(input.readBacks(c)[0].0, input.readBacks(c)[0].1)
  }

  lemma SampledOnce(w: World, input: TickInput, c: nat)
    requires Once(input) && c < 2
    ensures Sampled(w, input, c) == (if c == 0 then w.hist0 else w.hist1) + [Sample(input, c)]
  {
  }

  class Comparator {
    const sessions: seq<PeerSession>
    const slotActive: array<bool>
    const sockets: array<seq<Datagram>>
    const tickDue: array<bool>
    const channels: seq<Channel>
    const frames: array2<seq<u8>>
    const samplerVerdict: array<Verdict>
    const samplerGen: array<nat>
    var tickGen: nat
    var tickNow: u64
    var tickRole: u32
    var tally: Tally
    var rebondRequests: set<int>
    var reconfigureRequests: set<int>
    /** When each sampler last published. */
    var samplerDone: Stamps
    var diag: Diag
    /** Every call of the tick observer. */
    var observed: seq<Report>
    ghost var hist0: seq<Reading>
    ghost var hist1: seq<Reading>
    /** Every frame ever handed to a socket. */
    ghost var handed: seq<Handed>

    /** The fixed layout: four distinct sessions, two distinct channels, their buffers. */
    ghost predicate Layout() {
      && |sessions| == slotActive.Length == sockets.Length == tickDue.Length == MACHINES
      && (forall i, j :: 0 <= i < j < MACHINES ==> sessions[i] != sessions[j])
      && |channels| == samplerVerdict.Length == samplerGen.Length == 2
      && channels[0] != channels[1]
      && frames.Length0 == 2 && frames.Length1 == MACHINES
      && slotActive != tickDue
    }

    ghost predicate Valid()
      reads this, channels
    {
      Layout() && channels[0].Saw(hist0) && channels[1].Saw(hist1)
    }

    function SlotView(i: int): Slot
      requires Layout() && 0 <= i < MACHINES
      reads sessions, slotActive, sockets
    {
      Slot(slotActive[i], sessions[i].View(), sockets[i])
    }

    ghost function View(): World
      requires Layout()
      reads this, sessions, slotActive, sockets
    {
      World(seq(MACHINES, i requires 0 <= i < MACHINES reads sessions, slotActive, sockets => SlotView(i)),
            hist0, hist1, tally, rebondRequests, reconfigureRequests)
    }

    /** Static storage: every slot idle, every counter zero. */
    constructor ()
      ensures Layout() && tally == Tally(0, 0, 0) && handed == [] && observed == [] && diag == NoDiag
      ensures rebondRequests == {} && reconfigureRequests == {}
      ensures fresh(sessions) && fresh(slotActive) && fresh(sockets) && fresh(tickDue)
      ensures fresh(channels) && fresh(frames) && fresh(samplerVerdict) && fresh(samplerGen)
    {
      var all := NewSessions(MACHINES);
      sessions := all;
      var c0 := new Channel();
      var c1 := new Channel();
      channels := [c0, c1];
      slotActive := new bool[MACHINES](_ => false);
      sockets := new seq<Datagram>[MACHINES](_ => []);
      tickDue := new bool[MACHINES](_ => false);
      frames := new seq<u8>[2, MACHINES]((_, _) => []);
      samplerVerdict := new Verdict[2](_ => Stop);
      samplerGen := new nat[2](_ => 0);
      tickGen, tickNow, tickRole, tally := 0, 0, 0, Tally(0, 0, 0);
      rebondRequests, reconfigureRequests := {}, {};
      samplerDone, diag, observed := [0, 0], NoDiag, [];
      hist0, hist1, handed := [], [], [];
    }

    /** Reset both channels and open a session for every configured slot: a comparator at boot. */
    method Init(peers: nat -> Option<Peer>, openOk: nat -> bool)
      requires Layout() && tally == Tally(0, 0, 0)
      modifies this`hist0, this`hist1, channels, sessions, slotActive, sockets
      ensures Valid() && Boot(View())
      ensures forall i: nat :: i < MACHINES ==> OpenFor(i, if openOk(i) then peers(i) else None)
    {
      hide StateAfter, AtBoot, SlotView;
      channels[0].Init();
      channels[1].Init();
      hist0, hist1 := [], [];
      OpenAll(peers, openOk);
    }

    method OpenAll(peers: nat -> Option<Peer>, openOk: nat -> bool)
      requires Layout()
      modifies sessions, slotActive, sockets
      ensures forall j: nat :: j < MACHINES ==> OpenFor(j, if openOk(j) then peers(j) else None) && AtBoot(SlotView(j))
    {
      for slot := 0 to MACHINES
        invariant forall j: nat :: j < slot ==> OpenFor(j, if openOk(j) then peers(j) else None) && AtBoot(SlotView(j))
      {
        slotActive[slot] := false;
        var _ := SlotApplyConfig(slot, peers(slot), openOk(slot));
      }
    }

    /** Slot i is open for exactly this machine, with nothing in its socket, or not open at all. */
    predicate OpenFor(i: nat, machine: Option<Peer>)
      requires Layout() && i < MACHINES
      reads sessions, slotActive, sockets
    {
      var slot := SlotView(i);
      if machine.None? then !slot.active
      else slot.active && slot.s.peer == machine.value && slot.s.state == Idle && slot.queue == []
    }

    /** Close whatever slot has open, then open it afresh if it is configured. */
    method SlotApplyConfig(slot: nat, peer: Option<Peer>, openOk: bool) returns (ok: bool)
      requires Layout() && slot < MACHINES
      modifies sessions[slot], slotActive, sockets
      ensures SlotView(slot) == Reconfigured(old(SlotView(slot)), Apply(peer, openOk))
      ensures forall j :: 0 <= j < MACHINES && j != slot ==> SlotView(j) == old(SlotView(j))
      ensures ok == slotActive[slot] && OpenFor(slot, if openOk then peer else None)
    {
      if slotActive[slot] {
        sessions[slot].Close();
      }
      slotActive[slot] := false;
      sockets[slot] := [];
      if peer.None? {
        return false;
      }
      if !openOk {
        return false;
      }
      sessions[slot].Open(peer.value);
      slotActive[slot] := true;
      return true;
    }

    method ApplyReconfigurations(requested: set<int>, input: TickInput)
      requires Layout()
      modifies sessions, slotActive, sockets
      ensures forall j: nat :: j < MACHINES ==>
        SlotView(j) == if j in requested then Reconfigured(old(SlotView(j)), Apply(input.peers(j), input.openOk(j)))
                       else old(SlotView(j))
    {
      for slot := 0 to MACHINES
        invariant forall j: nat :: j < slot ==>
          SlotView(j) == if j in requested then Reconfigured(old(SlotView(j)), Apply(input.peers(j), input.openOk(j)))
                         else old(SlotView(j))
        invariant forall j: nat :: slot <= j < MACHINES ==> SlotView(j) == old(SlotView(j))
      {
        if slot in requested {
          var _ := SlotApplyConfig(slot, input.peers(slot), input.openOk(slot));
        }
      }
    }

    method ApplyRebonds(requested: set<int>)
      requires Layout()
      modifies sessions
      ensures forall j: nat :: j < MACHINES ==> SlotView(j) == Begun(old(SlotView(j)), Keep, j in requested)
    {
      for slot := 0 to MACHINES
        invariant forall j: nat :: j < slot ==> SlotView(j) == Begun(old(SlotView(j)), Keep, j in requested)
        invariant forall j: nat :: slot <= j < MACHINES ==> SlotView(j) == old(SlotView(j))
      {
        if slotActive[slot] && slot in requested {
          sessions[slot].Rebond();
        }
      }
    }

    method MarkDue(now: u64)
      requires Layout()
      modifies tickDue
      ensures forall j: nat :: j < MACHINES ==> tickDue[j] == SlotDue(SlotView(j), now)
    {
      for slot := 0 to MACHINES
        invariant forall j: nat :: j < slot ==> tickDue[j] == SlotDue(SlotView(j), now)
      {
        tickDue[slot] := slotActive[slot] && Due(sessions[slot].View(), now);
      }
    }

    /** Apply the pending requests, snapshot this tick's shared inputs, mint its generation. */
    method BeginTick(input: TickInput) returns (gen: nat)
      requires Layout()
      modifies this`rebondRequests, this`reconfigureRequests, this`tickNow, this`tickRole, this`tickGen
      modifies sessions, slotActive, sockets, tickDue
      ensures rebondRequests == {} && reconfigureRequests == {}
      ensures tickNow == input.now && tickRole == input.role && gen == tickGen == old(tickGen) + 1
      ensures forall i: nat :: i < MACHINES ==> SlotView(i) == BegunSlot(old(View()), input, i)
      ensures forall i: nat :: i < MACHINES ==> tickDue[i] == SlotDue(SlotView(i), input.now)
    {
      var reconfigure, rebond := reconfigureRequests, rebondRequests;
      reconfigureRequests, rebondRequests := {}, {};
      ApplyReconfigurations(reconfigure, input);
      ApplyRebonds(rebond);
      tickNow, tickRole := input.now, input.role;
      MarkDue(input.now);
      tickGen := tickGen + 1;
      gen := tickGen;
    }

    /** The encoding channel c owes slot i, given its verdict. */
    function Encoding(i: int, verdict: Verdict, me: u32): seq<u8>
      requires Layout() && 0 <= i < MACHINES
      reads this`tickRole, this`tickNow, sessions
    {
      Encode(Build(sessions[i].View(), verdict, tickRole, tickNow, me))
    }

    /** Sample one channel and encode every due slot's frame into that channel's buffers. */
    method SamplerPass(c: nat, gen: nat, input: TickInput, doneAt: u32)
      requires Valid() && c < 2 && Once(input)
      modifies this`hist0, this`hist1, this`samplerDone, channels[c], samplerVerdict, frames, samplerGen
      ensures Valid()
      ensures hist0 == if c == 0 then old(hist0) + [Sample(input, 0)] else old(hist0)
      ensures hist1 == if c == 1 then old(hist1) + [Sample(input, 1)] else old(hist1)
      ensures samplerVerdict[c] == VerdictOf(if c == 0 then hist0 else hist1)
      ensures samplerVerdict[1 - c] == old(samplerVerdict[1 - c])
      ensures samplerGen[c] == gen && samplerGen[1 - c] == old(samplerGen[1 - c])
      ensures samplerDone == old(samplerDone)[c := doneAt]
      ensures forall i :: 0 <= i < MACHINES && slotActive[i] && tickDue[i] ==>
        frames[c, i] == Encoding(i, samplerVerdict[c], input.ids(c, i))
      ensures forall d, i :: 0 <= d < 2 && d != c && 0 <= i < MACHINES ==> frames[d, i] == old(frames[d, i])
    {
      hide StateAfter, VerdictOf, Encoding, Sample, Once;
      var verdict := TakeSample(c, input);
      samplerVerdict[c] := verdict;
      EncodeAll(c, verdict, input);
      samplerDone := samplerDone[c := doneAt];
      samplerGen[c] := gen;
    }

    method TakeSample(c: nat, input: TickInput) returns (verdict: Verdict)
      requires Valid() && c < 2 && Once(input)
      modifies this`hist0, this`hist1, channels[c]
      ensures Valid()
      ensures hist0 == if c == 0 then old(hist0) + [Sample(input, 0)] else old(hist0)
      ensures hist1 == if c == 1 then old(hist1) + [Sample(input, 1)] else old(hist1)
      ensures verdict == VerdictOf(if c == 0 then hist0 else hist1)
    {
      hide StateAfter, VerdictOf;
      ghost var h := if c == 0 then hist0 else hist1;
      verdict := channels[c].Sample(c, input.readBacks(c)[0].0, input.readBacks(c)[0].1, h);
      if c == 0 {
        hist0 := hist0 + [Sample(input, 0)];
      } else {
        hist1 := hist1 + [Sample(input, 1)];
      }
    }

    /** Encode every due slot's frame into one channel's buffers. */
    method EncodeAll(c: nat, verdict: Verdict, input: TickInput)
      requires Layout() && c < 2
      modifies frames
      ensures forall i :: 0 <= i < MACHINES && slotActive[i] && tickDue[i] ==>
        frames[c, i] == Encoding(i, verdict, input.ids(c, i))
      ensures forall d, i :: 0 <= d < 2 && d != c && 0 <= i < MACHINES ==> frames[d, i] == old(frames[d, i])
    {
      hide Encode, Build;
      for slot := 0 to MACHINES
        invariant forall i :: 0 <= i < slot && slotActive[i] && tickDue[i] ==>
          frames[c, i] == Encoding(i, verdict, input.ids(c, i))
        invariant forall d, i :: 0 <= d < 2 && d != c && 0 <= i < MACHINES ==> frames[d, i] == old(frames[d, i])
      {
        if slotActive[slot] && tickDue[slot] {
          frames[c, slot] := Encoding(slot, verdict, input.ids(c, slot));
        }
      }
    }

    /** True iff every sampler's last completion belongs to this generation. */
    method SamplersPublished(gen: nat) returns (published: bool)
      requires Layout()
      ensures published <==> samplerGen[0] == gen && samplerGen[1] == gen
    {
      for c := 0 to 2
        invariant forall d :: 0 <= d < c ==> samplerGen[d] == gen
      {
        if samplerGen[c] != gen {
          return false;
        }
      }
      return true;
    }

    ghost predicate DueFramesAgree()
      requires Layout()
      reads tickDue, frames
    {
      BuffersAgree(tickDue[..], Row(0), Row(1))
    }

    /** What a comparison on this state comes to. */
    ghost function Verdicted(): Outcome
      requires Layout()
      reads this, tickDue, frames
    {
      if !Primed(hist0, hist1) then Gated else if DueFramesAgree() then Agreed else Mismatch
    }

    /** Compare every due slot's pair of encodings. A mismatch is recorded at the first due slot that disagrees
        and the first byte at which it does. */
    method CompareAll(at: u64) returns (allAgreed: bool)
      requires Layout()
      requires forall i :: 0 <= i < MACHINES && tickDue[i] ==>
        slotActive[i] && |frames[0, i]| == |frames[1, i]| == FRAME_SIZE
      modifies this`diag
      ensures allAgreed <==> DueFramesAgree()
      ensures allAgreed ==> diag == old(diag)
      ensures !allAgreed ==> FirstMismatch() && MismatchRecorded(old(diag), at)
    {
      for slot := 0 to MACHINES
        invariant forall i :: 0 <= i < slot && slotActive[i] && tickDue[i] ==> frames[0, i] == frames[1, i]
      {
        if !slotActive[slot] || !tickDue[slot] {
          continue;
        }
        if frames[0, slot] != frames[1, slot] {
          var offset := FirstDifference(frames[0, slot], frames[1, slot]);
          diag := diag.(slot := slot, offset := offset, v0 := samplerVerdict[0], v1 := samplerVerdict[1],
                        mismatchAt := at, last := Content);
          assert tickDue[..][slot] && Row(0)[slot] != Row(1)[slot];
          return false;
        }
      }
      return true;
    }

    /** The recorded slot and byte are the first that differ. */
    ghost predicate FirstMismatch()
      requires Layout()
      reads this`diag, slotActive, tickDue, frames
    {
      && diag.slot < MACHINES && slotActive[diag.slot] && tickDue[diag.slot]
      && (forall j :: 0 <= j < diag.slot && slotActive[j] && tickDue[j] ==> frames[0, j] == frames[1, j])
      && diag.offset < FRAME_SIZE && |frames[0, diag.slot]| == |frames[1, diag.slot]| == FRAME_SIZE
      && frames[0, diag.slot][diag.offset] != frames[1, diag.slot][diag.offset]
      && frames[0, diag.slot][..diag.offset] == frames[1, diag.slot][..diag.offset]
    }

    /** Apart from the slot and the byte, what a content mismatch leaves recorded. */
    ghost predicate MismatchRecorded(before: Diag, at: u64)
      requires Layout()
      reads this`diag, samplerVerdict
    {
      diag == before.(slot := diag.slot, offset := diag.offset, v0 := samplerVerdict[0], v1 := samplerVerdict[1],
                      mismatchAt := at, last := Content)
    }

    /** Compare every due slot's pair of encodings, then transmit only if all of them agreed. A mismatch is
        recorded at the first due slot that disagrees and the first byte at which it does. */
    method ComparatorPass(sendOk: nat -> bool, at: u64)
      requires Valid()
      requires forall i :: 0 <= i < MACHINES && slotActive[i] && tickDue[i] ==>
        |frames[0, i]| == |frames[1, i]| == FRAME_SIZE
      requires forall i: nat :: i < MACHINES ==> tickDue[i] == SlotDue(SlotView(i), tickNow)
      modifies this`tally, this`handed, this`diag, sessions
      ensures Valid()
      ensures tally == Tallied(old(tally), old(Verdicted()))
      ensures forall i: nat :: i < MACHINES ==>
        SlotView(i) == Attempted(old(SlotView(i)), old(Verdicted()) == Agreed, sendOk(i), tickNow)
      ensures handed == old(handed) +
        if old(Verdicted()) == Agreed then Select(tickDue[..], Row(0), MACHINES) else []
      ensures if old(Verdicted()) == Mismatch then FirstMismatch() && MismatchRecorded(old(diag), at) else diag == old(diag)
    {
      hide StateAfter, Primed, Attempted, Select, FirstMismatch, BuffersAgree, Row, MismatchRecorded;
      var primed := ChannelsPrimed(channels[0], channels[1], hist0, hist1);
      if !primed {
        tally := tally.(gated := Add32(tally.gated, 1));
        return;
      }
      var allAgreed := CompareAll(at);
      if !allAgreed {
        tally := tally.(mismatches := Add32(tally.mismatches, 1));
        return;
      }
      SendAll(sendOk);
    }

    /** One channel's buffers, by slot. */
    function Row(c: nat): (row: seq<seq<u8>>)
      requires Layout() && c < 2
      reads frames
      ensures |row| == MACHINES && forall i :: 0 <= i < MACHINES ==> row[i] == frames[c, i]
    {
      seq(MACHINES, i requires 0 <= i < MACHINES reads frames => frames[c, i])
    }

    /** Hand every due slot its frame. */
    method SendAll(sendOk: nat -> bool)
      requires Layout()
      requires forall i: nat :: i < MACHINES ==> tickDue[i] == SlotDue(SlotView(i), tickNow)
      modifies this`handed, sessions
      ensures forall i: nat :: i < MACHINES ==>
        SlotView(i) == Attempted(old(SlotView(i)), true, sendOk(i), tickNow)
      ensures handed == old(handed) + Select(tickDue[..], Row(0), MACHINES)
    {
      hide Attempted, SlotDue, Select;
      SelectStep(tickDue[..], Row(0), 0);
      for slot := 0 to MACHINES
        invariant forall j: nat :: j < slot ==> SlotView(j) == Attempted(old(SlotView(j)), true, sendOk(j), tickNow)
        invariant forall j: nat :: slot <= j < MACHINES ==> SlotView(j) == old(SlotView(j))
        invariant handed == old(handed) + Select(tickDue[..], Row(0), slot)
      {
        SelectStep(tickDue[..], Row(0), slot + 1);
        SendSlot(slot, sendOk(slot));
      }
    }

    method SendSlot(slot: nat, ok: bool)
      requires Layout() && slot < MACHINES && tickDue[slot] == SlotDue(SlotView(slot), tickNow)
      modifies this`handed, sessions[slot]
      ensures SlotView(slot) == Attempted(old(SlotView(slot)), true, ok, tickNow)
      ensures forall j: nat :: j < MACHINES && j != slot ==> SlotView(j) == old(SlotView(j))
      ensures handed == old(handed) + if tickDue[..][slot] then [Handed(slot, Row(0)[slot])] else []
    {
      if slotActive[slot] && tickDue[slot] {
        handed := handed + [Handed(slot, frames[0, slot])];
        sessions[slot].CommitSend(ok, tickNow);
      }
    }

    /** Poll every active session and run its watchdog. */
    method PollAll(arrivals: nat -> seq<Datagram>, now: u64)
      requires Layout()
      modifies sessions, sockets
      ensures forall i: nat :: i < MACHINES ==> SlotView(i) == Finished(old(SlotView(i)), arrivals(i), now)
    {
      hide Drain, Watched;
      for slot := 0 to MACHINES
        invariant forall j: nat :: j < slot ==> SlotView(j) == Finished(old(SlotView(j)), arrivals(j), now)
        invariant forall j: nat :: slot <= j < MACHINES ==> SlotView(j) == old(SlotView(j))
      {
        if slotActive[slot] {
          var rest := sessions[slot].Poll(sockets[slot] + arrivals(slot), now);
          sockets[slot] := rest;
          sessions[slot].Watchdog(now);
        }
      }
    }

    /** The samplers whose last completion is not this generation's. */
    ghost function Stale(gen: nat): set<nat>
      requires Layout()
      reads samplerGen
    {
      set c: nat | c < 2 && samplerGen[c] != gen
    }

    /** Those, besides the ones already known to be late. */
    method AddStale(gen: nat, late: set<nat>) returns (mask: set<nat>)
      requires Layout()
      ensures mask == late + Stale(gen)
    {
      mask := late;
      for c := 0 to 2
        invariant mask == late + set d: nat | d < c && samplerGen[d] != gen
      {
        if samplerGen[c] != gen {
          mask := mask + {c};
        }
      }
    }

    /** Tell the observer, which sees only primed ticks. */
    method Notify(gen: nat)
      requires Valid()
      modifies this`observed
      ensures observed == old(observed) +
        if Primed(hist0, hist1) then [Report(gen, samplerVerdict[0], samplerVerdict[1])] else []
    {
      hide StateAfter, Primed;
      var primed := ChannelsPrimed(channels[0], channels[1], hist0, hist1);
      if primed {
        observed := observed + [Report(gen, samplerVerdict[0], samplerVerdict[1])];
      }
    }

    /** What a tick with this outcome leaves recorded. */
    ghost predicate Attributed(outcome: Outcome, before: Diag, late: set<nat>, lateBy: u32, at: u64)
      requires Layout()
      reads this`diag, slotActive, tickDue, frames, samplerVerdict
    {
      match outcome
      case Late => diag == before.(lateMask := late, lateBy := lateBy, lateAt := at, last := Timeout)
      case Mismatch => FirstMismatch() && MismatchRecorded(before, at)
      case _ => diag == before
    }

    /** What a tick comes to, given who was late. */
    ghost function Decided(gen: nat, late: set<nat>): Outcome
      requires Layout()
      reads this, tickDue, frames, samplerGen
    {
      if late + Stale(gen) != {} then Late else Verdicted()
    }

    /** Compare and report, or decline. */
    method CompareOrDecline(gen: nat, late: set<nat>, lateBy: u32, sendOk: nat -> bool, at: u64)
      requires Valid()
      requires forall i :: 0 <= i < MACHINES && slotActive[i] && tickDue[i] ==>
        |frames[0, i]| == |frames[1, i]| == FRAME_SIZE
      requires forall i: nat :: i < MACHINES ==> tickDue[i] == SlotDue(SlotView(i), tickNow)
      modifies this`tally, this`handed, this`diag, this`observed, sessions
      ensures Valid()
      ensures var outcome := old(Decided(gen, late));
        && Attributed(outcome, old(diag), late + Stale(gen), lateBy, at)
        && observed == old(observed) +
             (if Reported(outcome) then [Report(gen, samplerVerdict[0], samplerVerdict[1])] else [])
        && tally == Tallied(old(tally), outcome)
        && handed == old(handed) + (if outcome == Agreed then Select(tickDue[..], Row(0), MACHINES) else [])
        && forall i: nat :: i < MACHINES ==>
             SlotView(i) == Attempted(old(SlotView(i)), outcome == Agreed, sendOk(i), tickNow)
    {
      hide StateAfter, Primed, Attempted, Select, Tallied, BuffersAgree, SlotDue, FirstMismatch, MismatchRecorded;
      var mask := AddStale(gen, late);
      var published := SamplersPublished(gen);
      NoneStale(gen);
      if mask == {} && published {
        ComparatorPass(sendOk, at);
        Notify(gen);
      } else {
        tally := Tallied(tally, Late);
        diag := diag.(lateMask := mask, lateBy := lateBy, lateAt := at, last := Timeout);
      }
    }

    /** Compare or decline, then poll. */
    method RunTickBody(now: u64, gen: nat, late: set<nat>, lateBy: u32, input: TickInput, at: u64)
      requires Valid() && now == tickNow
      requires forall i :: 0 <= i < MACHINES && slotActive[i] && tickDue[i] ==>
        |frames[0, i]| == |frames[1, i]| == FRAME_SIZE
      requires forall i: nat :: i < MACHINES ==> tickDue[i] == SlotDue(SlotView(i), tickNow)
      modifies this`tally, this`handed, this`diag, this`observed
      modifies sessions, sockets
      ensures Valid()
      ensures var outcome := old(Decided(gen, late));
        && Attributed(outcome, old(diag), late + Stale(gen), lateBy, at)
        && observed == old(observed) +
             (if Reported(outcome) then [Report(gen, samplerVerdict[0], samplerVerdict[1])] else [])
        && tally == Tallied(old(tally), outcome)
        && handed == old(handed) + (if outcome == Agreed then Select(tickDue[..], Row(0), MACHINES) else [])
        && forall i: nat :: i < MACHINES ==>
             SlotView(i) ==
               Finished(Attempted(old(SlotView(i)), outcome == Agreed, input.sendOk(i), now), input.arrivals(i), now)
    {
      hide StateAfter, Decided, Finished, Attempted, Select, Tallied, SlotDue, FirstMismatch, MismatchRecorded;
      CompareOrDecline(gen, late, lateBy, input.sendOk, at);
      PollAll(input.arrivals, now);
    }

    lemma NoneStale(gen: nat)
      requires Layout()
      ensures Stale(gen) == {} <==> samplerGen[0] == gen && samplerGen[1] == gen
    {
      assert samplerGen[0] != gen ==> 0 in Stale(gen);
      assert samplerGen[1] != gen ==> 1 in Stale(gen);
    }

    /** Begin a tick and run both samplers, one after the other. */
    method BeginAndSample(input: TickInput, clock: Clock) returns (gen: nat)
      requires Valid() && Once(input)
      modifies this`rebondRequests, this`reconfigureRequests, this`tickNow, this`tickRole, this`tickGen
      modifies this`hist0, this`hist1, this`samplerDone
      modifies sessions, slotActive, sockets, tickDue, channels, frames, samplerVerdict, samplerGen
      ensures Valid() && samplerDone == [clock.doneAt(0), clock.doneAt(1)]
      ensures rebondRequests == {} && reconfigureRequests == {}
      ensures tickNow == input.now && samplerGen[0] == samplerGen[1] == gen == tickGen == old(tickGen) + 1
      ensures samplerVerdict[0] == VerdictOf(hist0) && samplerVerdict[1] == VerdictOf(hist1)
      ensures hist0 == Sampled(old(View()), input, 0) && hist1 == Sampled(old(View()), input, 1)
      ensures forall i: nat :: i < MACHINES ==> SlotView(i) == BegunSlot(old(View()), input, i)
      ensures Buffered(old(View()), input, tickDue[..], Row(0), Row(1))
      ensures forall i: nat :: i < MACHINES ==> tickDue[i] == SlotDue(SlotView(i), tickNow)
      ensures forall i :: 0 <= i < MACHINES && slotActive[i] && tickDue[i] ==>
        |frames[0, i]| == |frames[1, i]| == FRAME_SIZE
    {
      hide StateAfter, Primed, Encode, Build, Begun, VerdictOf, Due, Sanitised, Sample, Once;
      SampledOnce(View(), input, 0);
      SampledOnce(View(), input, 1);
      gen := BeginTick(input);
      SampleBoth(gen, input, clock);
    }

    /** Both samplers, channel 0 first. */
    method SampleBoth(gen: nat, input: TickInput, clock: Clock)
      requires Valid() && Once(input)
      modifies this`hist0, this`hist1, this`samplerDone, channels, frames, samplerVerdict, samplerGen
      ensures Valid() && samplerDone == [clock.doneAt(0), clock.doneAt(1)] && samplerGen[0] == samplerGen[1] == gen
      ensures hist0 == old(hist0) + [Sample(input, 0)] && hist1 == old(hist1) + [Sample(input, 1)]
      ensures samplerVerdict[0] == VerdictOf(hist0) && samplerVerdict[1] == VerdictOf(hist1)
      ensures forall c, i :: 0 <= c < 2 && 0 <= i < MACHINES && slotActive[i] && tickDue[i] ==>
        frames[c, i] == Encoding(i, samplerVerdict[c], input.ids(c, i))
    {
      hide StateAfter, VerdictOf, Encoding, Sample, Once;
      SamplerPass(0, gen, input, clock.doneAt(0));
      SamplerPass(1, gen, input, clock.doneAt(1));
    }

    lemma DecidesAs(w: World, input: TickInput, gen: nat, late: set<nat>)
      requires Layout() && Wellformed(w) && (input.late <==> late != {})
      requires samplerGen[0] == samplerGen[1] == gen
      requires hist0 == Sampled(w, input, 0) && hist1 == Sampled(w, input, 1)
      requires Buffered(w, input, tickDue[..], Row(0), Row(1))
      ensures Decided(gen, late) == OutcomeOf(w, input)
    {
      hide StateAfter, Primed, FrameAt, Sampled, FramesAgree, BuffersAgree, Row;
      BufferedOutcome(w, input, tickDue[..], Row(0), Row(1));
      NoneStale(gen);
    }

    /** This comparator has begun the tick and sampled: w is the world before. */
    ghost predicate Began(w: World, input: TickInput, gen: nat)
      reads this, sessions, slotActive, sockets, tickDue, channels, frames, samplerVerdict, samplerGen
    {
      && Valid() && Wellformed(w)
      && rebondRequests == {} && reconfigureRequests == {} && tally == w.tally
      && tickNow == input.now && samplerGen[0] == samplerGen[1] == gen == tickGen
      && samplerVerdict[0] == VerdictOf(hist0) && samplerVerdict[1] == VerdictOf(hist1)
      && hist0 == Sampled(w, input, 0) && hist1 == Sampled(w, input, 1)
      && (forall i: nat :: i < MACHINES ==> SlotView(i) == BegunSlot(w, input, i))
      && (forall i: nat :: i < MACHINES ==> tickDue[i] == SlotDue(SlotView(i), tickNow))
      && (forall i :: 0 <= i < MACHINES && slotActive[i] && tickDue[i] ==>
            |frames[0, i]| == |frames[1, i]| == FRAME_SIZE)
      && Buffered(w, input, tickDue[..], Row(0), Row(1))
    }

    /** The rest of a tick that has begun. */
    method FinishTick(ghost w: World, input: TickInput, gen: nat, late: set<nat>, clock: Clock)
      requires Began(w, input, gen) && (input.late <==> late != {})
      modifies this`tally, this`handed, this`diag, this`observed
      modifies sessions, sockets
      ensures Valid() && View() == Ticked(w, input)
      ensures Attributed(OutcomeOf(w, input), old(diag), late, 0, clock.at)
      ensures handed == old(handed) + HandedIn(w, input)
      ensures observed == old(observed) + ReportAt(w, input, gen)
    {
      hide StateAfter, Primed, Finished, Attempted, Select, Tallied, BegunSlot, FrameAt, Sampled, Ticked, HandedIn,
        FramesAgree, BuffersAgree, VerdictOf, Decided, OutcomeOf, Buffered, SlotDue, DueSlot, Reported, Row, Attributed;
      BufferedHandover(w, input, tickDue[..], Row(0), Row(1));
      DecidesAs(w, input, gen, late);
      NoneStale(gen);
      assert late + Stale(gen) == late;
      RunTickBody(input.now, gen, late, 0, input, clock.at);
      TickedFrom(w, input, View());
    }

    /** One synchronous tick does to the whole comparator exactly what the tick specification says, hands the
        sockets exactly the frames it says, and reports exactly the on-time, primed ticks. */
    method TickSync(input: TickInput, late: set<nat>, clock: Clock)
      requires Valid() && Once(input) && (input.late <==> late != {})
      modifies this, sessions, slotActive, sockets, tickDue, channels, frames, samplerVerdict, samplerGen
      ensures Valid()
      ensures View() == Ticked(old(View()), input)
      ensures Attributed(OutcomeOf(old(View()), input), old(diag), late, 0, clock.at)
      ensures samplerDone == [clock.doneAt(0), clock.doneAt(1)]
      ensures handed == old(handed) + HandedIn(old(View()), input)
      ensures tickGen == old(tickGen) + 1
      ensures observed == old(observed) + ReportAt(old(View()), input, tickGen)
    {
      hide StateAfter, Primed, BegunSlot, FrameAt, Sampled, Ticked, HandedIn, FramesAgree, VerdictOf, OutcomeOf,
        Buffered, SlotDue, Reported, Row, ReportAt, Attributed;
      ghost var w := View();
      var gen := BeginAndSample(input, clock);
      FinishTick(w, input, gen, late, clock);
    }

    /** Any sequence of synchronous ticks and requests: the comparator goes through the specified run, hands
        the sockets everything that run hands over, and tells the observer everything it reports. */
    method RunAll(es: seq<Ticks.Event>, late: nat -> set<nat>, clock: nat -> Clock)
      requires Valid()
      requires forall k: nat :: k < |es| && es[k].Tick? ==> Once(es[k].input) && (es[k].input.late <==> late(k) != {})
      modifies this, sessions, slotActive, sockets, tickDue, channels, frames, samplerVerdict, samplerGen
      ensures Valid()
      ensures View() == Run(old(View()), es)
      ensures handed == old(handed) + HandedDuring(old(View()), es)
      ensures observed == old(observed) + ReportsDuring(old(View()), es, old(tickGen))
    {
      hide HandedIn, ReportAt, Next, Run, HandedDuring, ReportsDuring, TickCount, SlotView, StateAfter;
      ghost var w := View();
      RunNothing(w, tickGen);
      var k := 0;
      while k < |es|
        invariant k <= |es| && Valid()
        invariant View() == Run(w, es[..k]) && tickGen == old(tickGen) + TickCount(es[..k])
        invariant handed == old(handed) + HandedDuring(w, es[..k])
        invariant observed == old(observed) + ReportsDuring(w, es[..k], old(tickGen))
      {
        assert es[..k + 1] == es[..k] + [es[k]];
        RunSnoc(w, es[..k], es[k], old(tickGen));
        HandleEvent(es[k], late(k), clock(k));
        k := k + 1;
      }
      assert es[..k] == es;
    }

    method HandleEvent(e: Ticks.Event, late: set<nat>, clock: Clock)
      requires Valid() && (e.Tick? ==> Once(e.input) && (e.input.late <==> late != {}))
      modifies this, sessions, slotActive, sockets, tickDue, channels, frames, samplerVerdict, samplerGen
      ensures Valid()
      ensures View() == Next(old(View()), e) && tickGen == old(tickGen) + One(e.Tick?)
      ensures handed == old(handed) + if e.Tick? then HandedIn(old(View()), e.input) else []
      ensures observed == old(observed) + if e.Tick? then ReportAt(old(View()), e.input, tickGen) else []
    {
      hide Ticked, HandedIn, ReportAt, SlotView, StateAfter;
      match e
      case Tick(input) => TickSync(input, late, clock);
      case AskRebond(slot) => var _ := RequestRebond(slot);
      case AskReconfigure(slot) => var _ := RequestReconfigure(slot);
    }

    method RequestRebond(slot: int) returns (ok: bool)
      requires Valid()
      modifies this`rebondRequests
      ensures Valid() && View() == Next(old(View()), AskRebond(slot)) && ok == ValidSlot(slot)
    {
      if slot < 0 || slot >= MACHINES {
        return false;
      }
      rebondRequests := rebondRequests + {slot};
      return true;
    }

    method RequestReconfigure(slot: int) returns (ok: bool)
      requires Valid()
      modifies this`reconfigureRequests
      ensures Valid() && View() == Next(old(View()), AskReconfigure(slot)) && ok == ValidSlot(slot)
    {
      if slot < 0 || slot >= MACHINES {
        return false;
      }
      reconfigureRequests := reconfigureRequests + {slot};
      return true;
    }
  }
}
