/** The pure half of the lifetime counters: the press and mismatch edge detector, the stored blob and the
    flush policy. */
module HealthLogic {
  import opened Types

  // Edges ----------------------------------------------------------------------------------------

  /** The detector's memory: what each channel last reported and the levels at the last aligned tick. */
  datatype Edge = Edge(seen0: bool, seen1: bool, primed: bool, stopBoth: bool, mismatch: bool,
                       tick0: u32, tick1: u32, verdict0: u8, verdict1: u8)

  datatype Edges = Edges(press: bool, mismatch: bool)

  const BLANK := Edge(false, false, false, false, false, 0, 0, 0, 0)
  const NONE := Edges(false, false)

  function Reported(e: Edge, channel: int, tick: u32, verdict: u8): Edge
    requires 0 <= channel <= 1
  {
    if channel == 0 then e.(seen0 := true, tick0 := tick, verdict0 := verdict)
    else e.(seen1 := true, tick1 := tick, verdict1 := verdict)
  }

  /** One channel's report. Only a comparison within one tick means anything. */
  function Stepped(e: Edge, channel: int, tick: u32, verdict: u8, stop: u8): (Edge, Edges) {
    if channel < 0 || channel > 1 then (e, NONE)
    else
      var r := Reported(e, channel, tick, verdict);
      if !r.seen0 || !r.seen1 || r.tick0 != r.tick1 then (r, NONE)
      else
        var s0, s1 := r.verdict0 == stop, r.verdict1 == stop;
        var both, differ := s0 && s1, s0 != s1;
        (r.(primed := true, stopBoth := both, mismatch := differ),
         if r.primed then Edges(both && !r.stopBoth, differ && !r.mismatch) else NONE)
  }

  class Detector {
    var e: Edge

    constructor ()
      ensures e == BLANK
    {
      e := BLANK;
    }

    method Step(channel: int, tick: u32, verdict: u8, stop: u8) returns (out: Edges)
      modifies this
      ensures (e, out) == Stepped(old(e), channel, tick, verdict, stop)
    {
      out := NONE;
      if channel < 0 || channel > 1 {
        return;
      }
      if channel == 0 {
        e := e.(tick0 := tick, verdict0 := verdict, seen0 := true);
      } else {
        e := e.(tick1 := tick, verdict1 := verdict, seen1 := true);
      }
      if !(e.seen0 && e.seen1) || e.tick0 != e.tick1 {
        return;
      }
      var s0 := e.verdict0 == stop;
      var s1 := e.verdict1 == stop;
      var stopBoth := s0 && s1;
      var mismatch := s0 != s1;
      if e.primed {
        out := Edges(stopBoth && !e.stopBoth, mismatch && !e.mismatch);
      }
      e := e.(primed := true, stopBoth := stopBoth, mismatch := mismatch);
    }

    /** One tick as the comparator reports it: channel 0, whose result is dropped, then channel 1. */
    method Observe(o: Obs, stop: u8) returns (out: Edges)
      modifies this
      ensures (e, out) == Observed(old(e), o, stop)
    {
      var _ := Step(0, o.tick, o.v0, stop);
      out := Step(1, o.tick, o.v1, stop);
    }
  }

  /** Both channels' verdicts on one tick. */
  datatype Obs = Obs(tick: u32, v0: u8, v1: u8)

  function Observed(e: Edge, o: Obs, stop: u8): (Edge, Edges) {
    Stepped(Stepped(e, 0, o.tick, o.v0, stop).0, 1, o.tick, o.v1, stop)
  }

  predicate BothStop(o: Obs, stop: u8) { o.v0 == stop && o.v1 == stop }

  predicate Differ(o: Obs, stop: u8) { (o.v0 == stop) != (o.v1 == stop) }

  /** What ought to be reported when observation b follows observation a. */
  function Rising(a: Obs, b: Obs, stop: u8): Edges {
    Edges(BothStop(b, stop) && !BothStop(a, stop), Differ(b, stop) && !Differ(a, stop))
  }

  /** The detector right after observation o. */
  predicate Holds(e: Edge, o: Obs, stop: u8) {
    && e.seen0 && e.seen1 && e.primed
    && e.tick0 == e.tick1 == o.tick && e.verdict0 == o.v0 && e.verdict1 == o.v1
    && e.stopBoth == BothStop(o, stop) && e.mismatch == Differ(o, stop)
  }

  /** Dropping channel 0's result is sound exactly when the tick is new, or when channel 0's own report
      did not already cross the level against channel 1's stale verdict. */
  lemma DroppedExactlyWhen(e: Edge, a: Obs, b: Obs, stop: u8)
    requires Holds(e, a, stop)
    ensures Holds(Observed(e, b, stop).0, b, stop)
    ensures Observed(e, b, stop).1.press == Rising(a, b, stop).press
      <==> !(a.tick == b.tick && BothStop(b, stop) && a.v1 == stop && a.v0 != stop)
    ensures Observed(e, b, stop).1.mismatch == Rising(a, b, stop).mismatch
      <==> !(a.tick == b.tick && Differ(b, stop) && (a.v0 == stop) != (b.v0 == stop))
  {
  }

  /** The first observation of a blank detector sets the baseline and reports nothing. */
  lemma FirstIsBaseline(o: Obs, stop: u8)
    ensures Observed(BLANK, o, stop).1 == NONE && Holds(Observed(BLANK, o, stop).0, o, stop)
  {
  }

  /** Successive ticks carry different numbers. */
  predicate Distinct(os: seq<Obs>) { forall i :: 0 < i < |os| ==> os[i - 1].tick != os[i].tick }

  /** A whole history: the detector afterwards, and how many of each edge it reported. */
  function Counted(os: seq<Obs>, stop: u8): (Edge, nat, nat)
    decreases |os|
  {
    if os == [] then (BLANK, 0, 0)
    else
      var (e, p, m) := Counted(os[..|os| - 1], stop);
      var (e', out) := Observed(e, os[|os| - 1], stop);
      (e', p + if out.press then 1 else 0, m + if out.mismatch then 1 else 0)
  }

  predicate PressAt(os: seq<Obs>, i: nat, stop: u8) {
    0 < i < |os| && BothStop(os[i], stop) && !BothStop(os[i - 1], stop)
  }

  predicate MismatchAt(os: seq<Obs>, i: nat, stop: u8) {
    0 < i < |os| && Differ(os[i], stop) && !Differ(os[i - 1], stop)
  }

  /** The ticks at which both channels came to STOP, the first one being only the baseline. */
  function Presses(os: seq<Obs>, stop: u8): set<nat> { set i: nat | i < |os| && PressAt(os, i, stop) }

  /** The ticks at which the channels came to disagree. */
  function Mismatches(os: seq<Obs>, stop: u8): set<nat> { set i: nat | i < |os| && MismatchAt(os, i, stop) }

  /** What happened at an index does not depend on what came after it. */
  lemma EarlierEdges(os: seq<Obs>, n: nat, i: nat, stop: u8)
    requires i < n <= |os|
    ensures PressAt(os[..n], i, stop) == PressAt(os, i, stop)
    ensures MismatchAt(os[..n], i, stop) == MismatchAt(os, i, stop)
  {
  }

  /** One more observation adds at most its own index to the edges. */
  lemma OneMorePress(os: seq<Obs>, n: nat, stop: u8)
    requires n == |os| - 1
    ensures |Presses(os, stop)| == |Presses(os[..n], stop)| + if PressAt(os, n, stop) then 1 else 0
  {
    hide PressAt;
    forall i: nat | i < n ensures PressAt(os[..n], i, stop) == PressAt(os, i, stop) {
      EarlierEdges(os, n, i, stop);
    }
    assert Presses(os, stop) == Presses(os[..n], stop) + if PressAt(os, n, stop) then {n} else {};
  }

  lemma OneMoreMismatch(os: seq<Obs>, n: nat, stop: u8)
    requires n == |os| - 1
    ensures |Mismatches(os, stop)| == |Mismatches(os[..n], stop)| + if MismatchAt(os, n, stop) then 1 else 0
  {
    hide MismatchAt;
    forall i: nat | i < n ensures MismatchAt(os[..n], i, stop) == MismatchAt(os, i, stop) {
      EarlierEdges(os, n, i, stop);
    }
    assert Mismatches(os, stop) == Mismatches(os[..n], stop) + if MismatchAt(os, n, stop) then {n} else {};
  }

  /** No edge is lost and none invented: over any history whose ticks differ, the counts are exactly the
      number of rising edges after the baseline. */
  lemma {:induction false} CountsRisingEdges(os: seq<Obs>, stop: u8)
    requires Distinct(os)
    ensures Counted(os, stop).1 == |Presses(os, stop)| && Counted(os, stop).2 == |Mismatches(os, stop)|
    ensures if os == [] then Counted(os, stop).0 == BLANK else Holds(Counted(os, stop).0, os[|os| - 1], stop)
    decreases |os|
  {
    hide Observed, Holds, Presses, Mismatches, BothStop, Differ;
    if |os| == 0 {
      NoEdges(os, stop);
    } else if |os| == 1 {
      FirstIsBaseline(os[0], stop);
      assert os[..0] == [];
      NoEdges(os, stop);
    } else {
      var n := |os| - 1;
      CountsRisingEdges(os[..n], stop);
      assert os[..n][n - 1] == os[n - 1];
      StepCounts(Counted(os[..n], stop).0, os[n - 1], os[n], stop);
      OneMorePress(os, n, stop);
      OneMoreMismatch(os, n, stop);
    }
  }

  lemma NoEdges(os: seq<Obs>, stop: u8)
    requires |os| <= 1
    ensures Presses(os, stop) == {} && Mismatches(os, stop) == {}
  {
  }

  lemma StepCounts(e: Edge, a: Obs, b: Obs, stop: u8)
    requires Holds(e, a, stop) && a.tick != b.tick
    ensures Observed(e, b, stop).1 == Rising(a, b, stop) && Holds(Observed(e, b, stop).0, b, stop)
  {
    DroppedExactlyWhen(e, a, b, stop);
  }

  // The stored blob ------------------------------------------------------------------------------

  type Sha = s: seq<u8> | |s| == 8 witness [0, 0, 0, 0, 0, 0, 0, 0]

  datatype Counters = Counters(presses: u32, mismatches: u32, uptime: u32, boots: u32, flashes: u32,
                               otas: u32, sha: Sha, swaps: u8)

  const BLOB_VERSION: u8 := 1
  const BLOB_LEN := 34
  const ZEROED := Counters(0, 0, 0, 0, 0, 0, [0, 0, 0, 0, 0, 0, 0, 0], 0)

  function PutWord(v: u32): (s: seq<u8>)
    ensures |s| == 4
  {
    [v / 0x100_0000, v / 0x1_0000 % 0x100, v / 0x100 % 0x100, v % 0x100]
  }

  function GetWord(s: seq<u8>): u32
    requires |s| == 4
  {
    var a: nat, b: nat, c: nat, d: nat := s[0], s[1], s[2], s[3];
    a * 0x100_0000 + b * 0x1_0000 + c * 0x100 + d
  }

  lemma Shifts(v: nat)
    ensures v / 0x1_0000 == v / 0x100 / 0x100 && v / 0x100_0000 == v / 0x100 / 0x100 / 0x100
  {
  }

  lemma WordRoundTrip(v: u32)
    ensures GetWord(PutWord(v)) == v
  {
    Shifts(v);
    var a := v / 0x100;
    var b := a / 0x100;
    assert v == a * 0x100 + v % 0x100;
    assert a == b * 0x100 + a % 0x100;
    assert b == b / 0x100 * 0x100 + b % 0x100;
  }

  lemma BytesRoundTrip(s: seq<u8>)
    requires |s| == 4
    ensures PutWord(GetWord(s)) == s
  {
    var v := GetWord(s);
    var a: nat, b: nat, c: nat := s[0], s[1], s[2];
    Shifts(v);
    assert v / 0x100 == a * 0x1_0000 + b * 0x100 + c;
    assert v / 0x100 / 0x100 == a * 0x100 + b;
  }

  function Encode(c: Counters): (blob: seq<u8>)
    ensures |blob| == BLOB_LEN
  {
    [BLOB_VERSION] + PutWord(c.presses) + PutWord(c.mismatches) + PutWord(c.uptime) + PutWord(c.boots)
    + PutWord(c.flashes) + PutWord(c.otas) + c.sha + [c.swaps]
  }

  function Decode(blob: seq<u8>): (c: Option<Counters>) {
    if |blob| != BLOB_LEN || blob[0] != BLOB_VERSION then None
    else Some(Counters(GetWord(blob[1..5]), GetWord(blob[5..9]), GetWord(blob[9..13]), GetWord(blob[13..17]),
                       GetWord(blob[17..21]), GetWord(blob[21..25]), blob[25..33], blob[33]))
  }

  /** The number big-endian bytes denote. */
  function BigEndian(s: seq<u8>): nat {
    if s == [] then 0 else BigEndian(s[..|s| - 1]) * 0x100 + s[|s| - 1]
  }

  lemma PutWordIsBigEndian(v: u32)
    ensures BigEndian(PutWord(v)) == v
  {
    var s := PutWord(v);
    assert s[..3] == [s[0], s[1], s[2]] && s[..3][..2] == [s[0], s[1]] && [s[0], s[1]][..1] == [s[0]] && [s[0]][..0] == [];
    assert BigEndian([s[0]]) == s[0];
    assert BigEndian([s[0], s[1]]) == BigEndian([s[0]]) * 0x100 + s[1];
    assert BigEndian(s[..3]) == BigEndian([s[0], s[1]]) * 0x100 + s[2];
    Shifts(v);
  }

  /** Where each counter lies in the blob: the version, six big-endian words, the identity, the swaps. */
  lemma BlobLayout(c: Counters)
    ensures var b := Encode(c);
      && b[0] == 1 && b[25..33] == c.sha && b[33] == c.swaps
      && BigEndian(b[1..5]) == c.presses && BigEndian(b[5..9]) == c.mismatches && BigEndian(b[9..13]) == c.uptime
      && BigEndian(b[13..17]) == c.boots && BigEndian(b[17..21]) == c.flashes && BigEndian(b[21..25]) == c.otas
  {
    hide PutWord, BigEndian;
    var b := Encode(c);
    assert b[1..5] == PutWord(c.presses);
    assert b[5..9] == PutWord(c.mismatches);
    assert b[9..13] == PutWord(c.uptime);
    assert b[13..17] == PutWord(c.boots);
    assert b[17..21] == PutWord(c.flashes);
    assert b[21..25] == PutWord(c.otas);
    assert b[25..33] == c.sha;
    PutWordIsBigEndian(c.presses);
    PutWordIsBigEndian(c.mismatches);
    PutWordIsBigEndian(c.uptime);
    PutWordIsBigEndian(c.boots);
    PutWordIsBigEndian(c.flashes);
    PutWordIsBigEndian(c.otas);
  }

  /** What is stored is read back, field for field. */
  lemma StoredIsReadBack(c: Counters)
    ensures Decode(Encode(c)) == Some(c)
  {
    hide PutWord, GetWord;
    var b := Encode(c);
    assert b[1..5] == PutWord(c.presses);
    assert b[5..9] == PutWord(c.mismatches);
    assert b[9..13] == PutWord(c.uptime);
    assert b[13..17] == PutWord(c.boots);
    assert b[17..21] == PutWord(c.flashes);
    assert b[21..25] == PutWord(c.otas);
    assert b[25..33] == c.sha;
    WordRoundTrip(c.presses);
    WordRoundTrip(c.mismatches);
    WordRoundTrip(c.uptime);
    WordRoundTrip(c.boots);
    WordRoundTrip(c.flashes);
    WordRoundTrip(c.otas);
  }

  /** Exactly the 34-byte blobs of version 1 are accepted, and none of their bytes is ignored. */
  lemma AcceptedExactlyWhen(blob: seq<u8>)
    ensures Decode(blob).Some? <==> |blob| == BLOB_LEN && blob[0] == BLOB_VERSION
    ensures Decode(blob).Some? ==> Encode(Decode(blob).value) == blob
  {
    hide PutWord, GetWord;
    if Decode(blob).Some? {
      BytesRoundTrip(blob[1..5]);
      BytesRoundTrip(blob[5..9]);
      BytesRoundTrip(blob[9..13]);
      BytesRoundTrip(blob[13..17]);
      BytesRoundTrip(blob[17..21]);
      BytesRoundTrip(blob[21..25]);
    }
  }

  // The flush policy -----------------------------------------------------------------------------

  function FlushDue(dirty: bool, since: u32, minInterval: u32, maxInterval: u32): bool {
    var longest := if maxInterval < minInterval then minInterval else maxInterval;
    since >= longest || (dirty && since >= minInterval)
  }
}
