/** One pstop session: the bond state machine, its counters and its timing rules. */
module Session {
  import opened Types
  import opened Wire

  const MIN_SEND_PERIOD_MS: u32 := 100
  const MAX_SEND_PERIOD_MS: u32 := 1000
  const BOND_RETRY_MS: u64 := 5000
  const REBOND_FLOOR_MS: u64 := 2500
  const REBOND_MAX_MISSED: u64 := 5
  const REBOND_MARGIN_MS: u64 := 500

  datatype BondState = Idle | Bonding | Bonded | Rejected

  datatype Addr = Addr(ip: u32, port: u16)

  datatype Peer = Peer(addr: Addr, id: u32)

  /** A decoded reply; `Other` is any message code but UNBOND's. */
  datatype ReplyKind = Unbond | Other(code: u8)

  datatype Reply = Reply(kind: ReplyKind, counter: u32, stamp: u64, heartbeat: u32)

  /** One receive result: the byte count, the source, whether the checksum verified, the fields. */
  datatype Datagram = Datagram(len: int, from: Addr, verified: bool, reply: Reply)

  /** The per-peer counters and stamps; initialising them zeroes all three. */
  datatype Proto = Proto(msgCounter: u32, rxCounter: u32, rxStamp: u64)

  const FreshProto := Proto(0, 0, 0)

  datatype Telemetry = Telemetry(sent: u32, replies: u32, sendFail: u32, rebonds: u32, unbonds: u32,
                                 lastMsg: Option<ReplyKind>)

  /** The value of a session's fields. */
  datatype Sess = Sess(peer: Peer, state: BondState, hb: u32, proto: Proto,
                       lastSend: u64, lastReply: u64, lastBond: u64, tele: Telemetry)

  function Opened(peer: Peer): Sess {
    Sess(peer, Idle, 0, FreshProto, 0, 0, 0, Telemetry(0, 0, 0, 0, 0, None))
  }

  function Closed(s: Sess): Sess { s.(state := Idle) }

  function SendPeriod(hb: u32): (p: u32)
    ensures MIN_SEND_PERIOD_MS <= p <= MAX_SEND_PERIOD_MS
    ensures 2 * MIN_SEND_PERIOD_MS <= hb <= 2 * MAX_SEND_PERIOD_MS ==> 2 * p <= hb < 2 * p + 2
  {
    if hb == 0 || hb / 2 < MIN_SEND_PERIOD_MS then MIN_SEND_PERIOD_MS
    else if hb / 2 > MAX_SEND_PERIOD_MS then MAX_SEND_PERIOD_MS
    else hb / 2
  }

  /** The result type is the overflow claim: the 64-bit sum fits for every 32-bit window. */
  function RebondAfter(hb: u32): (t: u64)
    ensures t > 5 * hb && t >= REBOND_FLOOR_MS
    ensures t == REBOND_FLOOR_MS || t == 5 * hb + REBOND_MARGIN_MS
  {
    var derived := hb * REBOND_MAX_MISSED + REBOND_MARGIN_MS;
    if derived < REBOND_FLOOR_MS then REBOND_FLOOR_MS else derived
  }

  function Due(s: Sess, now: u64): bool {
    match s.state
    case Rejected => false
    case Bonding => Sub64(now, s.lastBond) >= BOND_RETRY_MS
    case Idle => true
    case Bonded => Sub64(now, s.lastSend) >= SendPeriod(s.hb)
  }

  /** The message a due session would transmit; it changes nothing. */
  function Build(s: Sess, verdict: Verdict, role: u32, now: u64, me: u32): Msg {
    var kind: Kind := if s.state == Bonded then verdict else Bond;
    var counter := Add32(s.proto.msgCounter, 1);
    if kind == Bond
    then Msg(Bond, now, 0, me, s.peer.id, counter, 0, role)
    else Msg(kind, now, s.proto.rxStamp, me, s.peer.id, counter, s.proto.rxCounter, role)
  }

  function Committed(s: Sess, ok: bool, now: u64): Sess {
    if !ok then s.(tele := s.tele.(sendFail := Add32(s.tele.sendFail, 1)))
    else
      var t := s.(proto := s.proto.(msgCounter := Add32(s.proto.msgCounter, 1)), lastSend := now,
                  tele := s.tele.(sent := Add32(s.tele.sent, 1)));
      if s.state == Idle then t.(state := Bonding, lastBond := now)
      else if s.state == Bonding then t.(lastBond := now)
      else t
  }

  predicate FromPeer(peer: Peer, d: Datagram) { d.from == peer.addr && d.verified }

  /** One datagram of frame size. */
  function Received(s: Sess, d: Datagram, now: u64): Sess {
    if !FromPeer(s.peer, d) then s
    else if d.reply.kind == Unbond then
      s.(state := Rejected,
         tele := s.tele.(lastMsg := Some(Unbond), unbonds := Add32(s.tele.unbonds, 1)))
    else if s.state == Rejected then s
    else
      s.(proto := s.proto.(rxCounter := d.reply.counter, rxStamp := d.reply.stamp), lastReply := now,
         tele := s.tele.(lastMsg := Some(d.reply.kind), replies := Add32(s.tele.replies, 1)),
         hb := if d.reply.heartbeat != 0 then d.reply.heartbeat else s.hb, state := Bonded)
  }

  /** Drain the queue until it is empty or a receive is not frame-sized; what is left stays queued. */
  function Drain(s: Sess, q: seq<Datagram>, now: u64): (Sess, seq<Datagram>)
    decreases |q|
  {
    if q == [] then (s, [])
    else if q[0].len != FRAME_SIZE then (s, q[1..])
    else Drain(Received(s, q[0], now), q[1..], now)
  }

  function Rebonded(s: Sess): Sess {
    s.(state := Idle, hb := 0, proto := FreshProto,
       tele := s.tele.(rebonds := Add32(s.tele.rebonds, 1)))
  }

  predicate WatchdogFires(s: Sess, now: u64) {
    s.state == Bonded && Sub64(now, s.lastReply) >= RebondAfter(s.hb)
  }

  function Watched(s: Sess, now: u64): Sess { if WatchdogFires(s, now) then Rebonded(s) else s }

  // What a poll adopts, said without the drain loop.

  /** The replies a drain reads from the peer with a good checksum, in order. */
  function Heard(peer: Peer, q: seq<Datagram>): seq<Reply> {
    if q == [] || q[0].len != FRAME_SIZE then []
    else (if FromPeer(peer, q[0]) then [q[0].reply] else []) + Heard(peer, q[1..])
  }

  function UnbondCount(rs: seq<Reply>): (n: nat)
    ensures n == 0 <==> forall i :: 0 <= i < |rs| ==> rs[i].kind != Unbond
  {
    if rs == [] then 0 else (if rs[0].kind == Unbond then 1 else 0) + UnbondCount(rs[1..])
  }

  /** The replies before the first UNBOND. */
  function Before(rs: seq<Reply>): (b: seq<Reply>)
    ensures b <= rs && forall i :: 0 <= i < |b| ==> b[i].kind != Unbond
    ensures |b| < |rs| ==> rs[|b|].kind == Unbond
  {
    if rs == [] || rs[0].kind == Unbond then [] else [rs[0]] + Before(rs[1..])
  }

  /** The replies a session adopts: none once parked, else all before the first UNBOND. */
  function Adopted(s: Sess, q: seq<Datagram>): seq<Reply> {
    if s.state == Rejected then [] else Before(Heard(s.peer, q))
  }

  /** The newest non-zero heartbeat window. */
  function NewestWindow(hb: u32, rs: seq<Reply>): u32 {
    if rs == [] then hb
    else if rs[|rs| - 1].heartbeat != 0 then rs[|rs| - 1].heartbeat
    else NewestWindow(hb, rs[..|rs| - 1])
  }

  lemma {:induction false} NewestWindowCons(hb: u32, r: Reply, rs: seq<Reply>)
    ensures NewestWindow(hb, [r] + rs) == NewestWindow(if r.heartbeat != 0 then r.heartbeat else hb, rs)
  {
    if rs == [] {
      assert ([r] + rs)[..0] == [];
    } else {
      assert ([r] + rs)[..|rs|] == [r] + rs[..|rs| - 1];
      NewestWindowCons(hb, r, rs[..|rs| - 1]);
    }
  }

  function LastOf(rs: seq<Reply>): Reply
    requires rs != []
  {
    rs[|rs| - 1]
  }

  /** The session after a poll, given what it heard and what it adopted. */
  function Adopting(s: Sess, heard: seq<Reply>, adopted: seq<Reply>, now: u64): Sess {
    var parked := UnbondCount(heard) > 0;
    s.(state := if s.state == Rejected || parked then Rejected
                else if adopted != [] then Bonded else s.state,
       hb := NewestWindow(s.hb, adopted),
       proto := if adopted == [] then s.proto
                else s.proto.(rxCounter := LastOf(adopted).counter, rxStamp := LastOf(adopted).stamp),
       lastReply := if adopted == [] then s.lastReply else now,
       tele := s.tele.(replies := Add32(s.tele.replies, |adopted|),
                       unbonds := Add32(s.tele.unbonds, UnbondCount(heard)),
                       lastMsg := if parked then Some(Unbond)
                                  else if adopted == [] then s.tele.lastMsg
                                  else Some(LastOf(adopted).kind)))
  }

  lemma AdoptOne(s: Sess, d: Datagram, heard: seq<Reply>, adopted: seq<Reply>, now: u64)
    requires FromPeer(s.peer, d) && s.state != Rejected && d.reply.kind != Unbond
    ensures Adopting(Received(s, d, now), heard, adopted, now)
         == Adopting(s, [d.reply] + heard, [d.reply] + adopted, now)
  {
    assert ([d.reply] + heard)[1..] == heard;
    NewestWindowCons(s.hb, d.reply, adopted);
  }

  lemma ParkOne(s: Sess, d: Datagram, heard: seq<Reply>, now: u64)
    requires FromPeer(s.peer, d) && d.reply.kind == Unbond
    ensures Adopting(Received(s, d, now), heard, [], now) == Adopting(s, [d.reply] + heard, [], now)
  {
    assert ([d.reply] + heard)[1..] == heard;
  }

  lemma IgnoreOne(s: Sess, d: Datagram, heard: seq<Reply>, now: u64)
    requires FromPeer(s.peer, d) && s.state == Rejected && d.reply.kind != Unbond
    ensures Adopting(s, heard, [], now) == Adopting(s, [d.reply] + heard, [], now)
  {
    assert ([d.reply] + heard)[1..] == heard;
  }

  /** A poll parks the session iff it was parked or an UNBOND was heard, bonds it only on an adopted
      reply, and leaves the counter, stamp and liveness of the last reply before the first UNBOND. */
  lemma {:induction false} PollEffect(s: Sess, q: seq<Datagram>, now: u64)
    ensures Drain(s, q, now).0 == Adopting(s, Heard(s.peer, q), Adopted(s, q), now)
    decreases |q|
  {
    if q == [] || q[0].len != FRAME_SIZE {
      assert Heard(s.peer, q) == [] && Adopted(s, q) == [];
    } else {
      var m, d, heard := Received(s, q[0], now), q[0], Heard(s.peer, q[1..]);
      PollEffect(m, q[1..], now);
      if FromPeer(s.peer, d) {
        assert ([d.reply] + heard)[1..] == heard;
        if d.reply.kind == Unbond {
          ParkOne(s, d, heard, now);
        } else if s.state == Rejected {
          IgnoreOne(s, d, heard, now);
        } else {
          AdoptOne(s, d, heard, Adopted(m, q[1..]), now);
        }
      } else {
        assert Heard(s.peer, q) == heard;
      }
    }
  }

  /** The parts of a poll's effect that the whole-run arguments use. */
  lemma PollFacts(s: Sess, q: seq<Datagram>, now: u64)
    ensures var t, adopted := Drain(s, q, now).0, Adopted(s, q);
      && t.peer == s.peer && t.lastSend == s.lastSend && t.lastBond == s.lastBond
      && t.proto.msgCounter == s.proto.msgCounter
      && t.tele.sent == s.tele.sent && t.tele.sendFail == s.tele.sendFail
      && t.hb == NewestWindow(s.hb, adopted)
      && (t.state == Rejected <==> s.state == Rejected || UnbondCount(Heard(s.peer, q)) > 0)
      && (t.state == Bonded <==> t.state != Rejected && (adopted != [] || s.state == Bonded))
      && (t.state == Idle || t.state == Bonding ==> t.state == s.state)
      && (adopted == [] ==> t.lastReply == s.lastReply && t.proto == s.proto)
      && (adopted != [] ==> t.lastReply == now && t.proto.rxCounter == LastOf(adopted).counter
                            && t.proto.rxStamp == LastOf(adopted).stamp)
  {
    PollEffect(s, q, now);
  }

  /** The session object: fields updated in place. */
  class PeerSession {
    var peer: Peer
    var state: BondState
    var hb: u32
    var proto: Proto
    var lastSend: u64
    var lastReply: u64
    var lastBond: u64
    var tele: Telemetry

    function View(): Sess
      reads this
    {
      Sess(peer, state, hb, proto, lastSend, lastReply, lastBond, tele)
    }

    constructor (p: Peer)
      ensures View() == Opened(p)
    {
      peer, state, hb, proto := p, Idle, 0, FreshProto;
      lastSend, lastReply, lastBond := 0, 0, 0;
      tele := Telemetry(0, 0, 0, 0, 0, None);
    }

    method Open(p: Peer)
      modifies this
      ensures View() == Opened(p)
    {
      peer, state, hb := p, Idle, 0;
      lastSend, lastReply, lastBond := 0, 0, 0;
      tele := Telemetry(0, 0, 0, 0, 0, None);
      proto := FreshProto;
    }

    method Close()
      modifies this
      ensures View() == Closed(old(View()))
    {
      state := Idle;
    }

    method CommitSend(ok: bool, now: u64)
      modifies this
      ensures View() == Committed(old(View()), ok, now)
    {
      if !ok {
        tele := tele.(sendFail := Add32(tele.sendFail, 1));
        return;
      }
      proto := proto.(msgCounter := Add32(proto.msgCounter, 1));
      lastSend := now;
      tele := tele.(sent := Add32(tele.sent, 1));
      if state == Idle {
        state := Bonding;
        lastBond := now;
      } else if state == Bonding {
        lastBond := now;
      }
    }

    method Poll(q: seq<Datagram>, now: u64) returns (rest: seq<Datagram>)
      modifies this
      ensures (View(), rest) == Drain(old(View()), q, now)
    {
      rest := q;
      while rest != []
        invariant Drain(View(), rest, now) == Drain(old(View()), q, now)
        decreases |rest|
      {
        var d := rest[0];
        rest := rest[1..];
        if d.len != FRAME_SIZE {
          return;
        }
        if d.from != peer.addr {
          continue;
        }
        if !d.verified {
          continue;
        }
        if d.reply.kind == Unbond {
          state := Rejected;
          tele := tele.(lastMsg := Some(Unbond), unbonds := Add32(tele.unbonds, 1));
          continue;
        }
        if state == Rejected {
          continue;
        }
        proto := proto.(rxCounter := d.reply.counter, rxStamp := d.reply.stamp);
        lastReply := now;
        tele := tele.(lastMsg := Some(d.reply.kind), replies := Add32(tele.replies, 1));
        if d.reply.heartbeat != 0 {
          hb := d.reply.heartbeat;
        }
        if state != Bonded {
          state := Bonded;
        }
      }
    }

    method Watchdog(now: u64)
      modifies this
      ensures View() == Watched(old(View()), now)
    {
      if state != Bonded {
        return;
      }
      if Sub64(now, lastReply) < RebondAfter(hb) {
        return;
      }
      Rebond();
    }

    method Rebond()
      modifies this
      ensures View() == Rebonded(old(View()))
    {
      state := Idle;
      hb := 0;
      tele := tele.(rebonds := Add32(tele.rebonds, 1));
      proto := FreshProto;
    }
  }
}
