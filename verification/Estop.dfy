/** The stop-switch decision core: two read-backs in, OK or STOP out, with the release debounce
    and the boot warm-up. */
module Estop {
  import opened Types
  import opened Wire

  const RECLOSE_TICKS := 3
  const OPEN_CONFIRM_TICKS := 5

  /** One sample: the sense pin read back after driving the loop high, then low, as C ints. */
  datatype Reading = Reading(hi: bv32, lo: bv32)

  /** A closed loop conducts as driven. */
  predicate Healthy(r: Reading) { r.hi == 1 && r.lo == 0 }

  /** A failed (negative) read is replaced by the unhealthy level. */
  function Sanitise(hi: bv32, lo: bv32): Reading {
    Reading(if hi & 0x8000_0000 != 0 then 0 else hi, if lo & 0x8000_0000 != 0 then 1 else lo)
  }

  lemma FailedReadIsNeverHealthy(hi: bv32, lo: bv32)
    ensures Healthy(Sanitise(hi, lo)) <==> hi == 1 && lo == 0
    ensures hi & 0x8000_0000 != 0 || lo & 0x8000_0000 != 0 ==> !Healthy(Sanitise(hi, lo))
  {
  }

  datatype ChannelState = ChannelState(
    highOk: bool, lowOk: bool, primed: bool, closedStreak: u8, openStreak: u8, settled: bool)

  // What a channel's whole history of samples says, without reference to any stored state.

  /** How many of the newest samples, counted back without a gap, are healthy (or all unhealthy). */
  function Trailing(h: seq<Reading>, healthy: bool): (n: nat)
    ensures n <= |h|
    ensures forall k :: |h| - n <= k < |h| ==> Healthy(h[k]) == healthy
    ensures n < |h| ==> Healthy(h[|h| - 1 - n]) != healthy
  {
    if h == [] || Healthy(h[|h| - 1]) != healthy then 0 else 1 + Trailing(h[..|h| - 1], healthy)
  }

  /** Some window of the history confirmed the channel: three healthy or five unhealthy in a row. */
  ghost predicate Settled(h: seq<Reading>) {
    exists k: nat :: k <= |h| && SettlesAt(h[..k])
  }

  predicate SettlesAt(h: seq<Reading>) {
    Trailing(h, true) >= RECLOSE_TICKS || Trailing(h, false) >= OPEN_CONFIRM_TICKS
  }

  /** The arming condition: the three newest samples were all healthy. */
  predicate LastThreeHealthy(h: seq<Reading>) {
    |h| >= 3 && Healthy(h[|h| - 1]) && Healthy(h[|h| - 2]) && Healthy(h[|h| - 3])
  }

  function VerdictOf(h: seq<Reading>): Verdict { if LastThreeHealthy(h) then Ok else Stop }

  /** The boot gate: both channels have sampled and settled. */
  ghost predicate Primed(h0: seq<Reading>, h1: seq<Reading>) {
    h0 != [] && h1 != [] && Settled(h0) && Settled(h1)
  }

  function Saturate(n: nat): u8 { if n < 255 then n else 255 }

  /** The stored state of a channel that has seen exactly the samples h. */
  ghost function StateAfter(h: seq<Reading>): ChannelState {
    ChannelState(
      h != [] && h[|h| - 1].hi == 1, h != [] && h[|h| - 1].lo == 0, h != [],
      Saturate(Trailing(h, true)), Saturate(Trailing(h, false)), Settled(h))
  }

  lemma {:induction false} SettledSnoc(h: seq<Reading>, r: Reading)
    ensures Settled(h + [r]) <==> Settled(h) || SettlesAt(h + [r])
  {
    hide SettlesAt;
    var g := h + [r];
    assert g[..|g|] == g;
    if Settled(h) {
      var k: nat :| k <= |h| && SettlesAt(h[..k]);
      assert g[..k] == h[..k];
    }
    if Settled(g) && !SettlesAt(g) {
      var k: nat :| k <= |g| && SettlesAt(g[..k]);
      assert g[..k] == h[..k];
    }
  }

  lemma NothingSettlesAtBoot()
    ensures !Settled([])
  {
  }

  /** Priming never reverts: every later sample leaves a settled channel settled. */
  lemma {:induction false} SettledForever(h: seq<Reading>, more: seq<Reading>)
    requires Settled(h)
    ensures Settled(h + more)
    decreases |more|
  {
    if more == [] {
      assert h + more == h;
    } else {
      var init, last := more[..|more| - 1], more[|more| - 1];
      SettledForever(h, init);
      SettledSnoc(h + init, last);
      assert h + init + [last] == h + more;
    }
  }

  /** The arming condition and the streak that tracks it are the same thing, saturated or not. */
  lemma StreakIsArming(h: seq<Reading>)
    ensures LastThreeHealthy(h) <==> Saturate(Trailing(h, true)) >= RECLOSE_TICKS
  {
  }

  /** A channel settles at three healthy samples in a row, or five unhealthy ones. */
  lemma SettlesExactlyWhen(h: seq<Reading>)
    ensures SettlesAt(h) <==>
      || (|h| >= 3 && forall k :: |h| - 3 <= k < |h| ==> Healthy(h[k]))
      || (|h| >= 5 && forall k :: |h| - 5 <= k < |h| ==> !Healthy(h[k]))
  {
    hide Healthy;
    var a, b := Trailing(h, true), Trailing(h, false);
    assert a < |h| ==> !Healthy(h[|h| - 1 - a]);
    assert b < |h| ==> Healthy(h[|h| - 1 - b]);
  }

  /** How one more sample moves the two streaks. */
  lemma {:induction false} TrailingSnoc(h: seq<Reading>, r: Reading, healthy: bool)
    ensures Trailing(h + [r], healthy) == if Healthy(r) == healthy then 1 + Trailing(h, healthy) else 0
  {
    assert (h + [r])[..|h|] == h;
  }

  /** The arithmetic image of both read-backs selects OK. */
  predicate ImageOk(r: Reading) { ((r.hi ^ 1) | r.lo) & 1 == 0 }

  /** The arithmetic image selects OK for every healthy sample. */
  lemma ArithmeticImage(r: Reading)
    requires Healthy(r)
    ensures ImageOk(r)
  {
  }

  /** The two diverse raw expressions differ exactly on an odd high and an even low read-back that are not
      the healthy pair, e.g. 3 and 0; the override is what makes the verdicts agree there too. */
  lemma RawExpressionsDiffer(r: Reading)
    ensures ImageOk(r) != Healthy(r) <==> r.hi & 1 == 1 && r.lo & 1 == 0 && !Healthy(r)
    ensures ImageOk(Reading(3, 0)) && !Healthy(Reading(3, 0))
  {
  }

  /** One sample's effect on the stored state. */
  function Observed(s: ChannelState, r: Reading): ChannelState {
    var closed: u8 := if !Healthy(r) then 0 else if s.closedStreak < 255 then s.closedStreak + 1 else 255;
    var open: u8 := if Healthy(r) then 0 else if s.openStreak < 255 then s.openStreak + 1 else 255;
    ChannelState(r.hi == 1, r.lo == 0, true, closed, open,
      s.settled || closed >= RECLOSE_TICKS || open >= OPEN_CONFIRM_TICKS)
  }

  function Decided(s: ChannelState): Verdict { if s.closedStreak >= RECLOSE_TICKS then Ok else Stop }

  /** The incremental state always equals what the whole history says: the saturating streaks lose
      nothing the verdict or the boot gate needs. */
  lemma {:induction false} ObservedRefinesHistory(h: seq<Reading>, r: Reading)
    ensures Observed(StateAfter(h), r) == StateAfter(h + [r])
    ensures Decided(StateAfter(h + [r])) == VerdictOf(h + [r])
  {
    SettledSnoc(h, r);
    TrailingSnoc(h, r, true);
    TrailingSnoc(h, r, false);
    StreakIsArming(h + [r]);
  }

  /** One sampler's channel, updated in place by every sample. */
  class Channel {
    var highOk: bool
    var lowOk: bool
    var primedHigh: bool
    var primedLow: bool
    var closedStreak: u8
    var openStreak: u8
    var settled: bool

    function View(): ChannelState
      reads this
    {
      ChannelState(highOk, lowOk, primedHigh && primedLow, closedStreak, openStreak, settled)
    }

    /** This channel has seen exactly the samples h since it was initialised. */
    ghost predicate Saw(h: seq<Reading>)
      reads this
    {
      View() == StateAfter(h)
    }

    constructor () {
      highOk, lowOk, primedHigh, primedLow := false, false, false, false;
      closedStreak, openStreak, settled := 0, 0, false;
    }

    method Init()
      modifies this
      ensures Saw([])
    {
      highOk, lowOk, primedHigh, primedLow := false, false, false, false;
      closedStreak, openStreak, settled := 0, 0, false;
      NothingSettlesAtBoot();
    }

    /** The decision on one sample, in either of the two diverse expressions. */
    method Decide(coreId: nat, r: Reading) returns (msg: Verdict)
      modifies this
      ensures View() == Observed(old(View()), r)
      ensures msg == Decided(View())
    {
      if Healthy(r) {
        ArithmeticImage(r);
      }
      if coreId == 0 {
        msg := if ((r.hi ^ 1) | r.lo) & 1 == 0 then Ok else Stop;
      } else {
        msg := if r.hi == 1 && r.lo == 0 then Ok else Stop;
      }

      highOk, lowOk := r.hi == 1, r.lo == 0;
      primedHigh, primedLow := true, true;
      var rawClosed := highOk && lowOk;
      if rawClosed {
        if closedStreak < 255 {
          closedStreak := closedStreak + 1;
        }
        openStreak := 0;
        if closedStreak >= RECLOSE_TICKS {
          settled := true;
        }
      } else {
        closedStreak := 0;
        if openStreak < 255 {
          openStreak := openStreak + 1;
        }
        if openStreak >= OPEN_CONFIRM_TICKS {
          settled := true;
        }
      }
      if !(rawClosed && closedStreak >= RECLOSE_TICKS) {
        msg := Stop;
      }
    }

    /** Sample the loop: whatever the integers read, and whichever expression the core uses, the
        verdict is OK exactly when the three newest samples are healthy. */
    method Sample(coreId: nat, hi: bv32, lo: bv32, ghost h: seq<Reading>) returns (msg: Verdict)
      requires Saw(h)
      modifies this
      ensures Saw(h + [Sanitise(hi, lo)])
      ensures msg == VerdictOf(h + [Sanitise(hi, lo)])
    {
      var r := Sanitise(hi, lo);
      msg := Decide(coreId, r);
      ObservedRefinesHistory(h, r);
    }
  }

  /** The comparator's boot gate, read off the two stored states. */
  method ChannelsPrimed(a: Channel, b: Channel, ghost ha: seq<Reading>, ghost hb: seq<Reading>)
    returns (primed: bool)
    requires a.Saw(ha) && b.Saw(hb)
    ensures primed <==> Primed(ha, hb)
  {
    primed := a.primedHigh && a.primedLow && b.primedHigh && b.primedLow && a.settled && b.settled;
  }
}
