/** The lifetime counters at work: an observer that only bumps atomics, a fold and a flush under a lock,
    and resets, in any interleaving. */
module Health {
  import opened Types
  import opened HealthLogic
  import Wire

  const STOP: u8 := Wire.Code(Wire.Stop)
  const MIN_FLUSH_S: u32 := 60
  const MAX_FLUSH_S: u32 := 600
  const WRAP: nat := 0x1_0000_0000

  /** How far the lock holder is in a fold: what it has taken from the atomics but not added yet. */
  datatype Phase = Idle | TookPresses(p: u32) | TookBoth(p: u32, m: u32)

  /** handPress and handMismatch: edges the observer has detected but not yet published. */
  datatype State = State(edge: Edge, handPress: bool, handMismatch: bool, pressDelta: u32, mismatchDelta: u32,
                         phase: Phase, counters: Counters, dirty: bool, uptimeAtBoot: u32,
                         stored: Option<seq<u8>>, lastFlushMs: u64, flushes: nat, flushFails: nat)

  /** The atomic steps of the observer and of the lock holder. */
  datatype Action =
    | Detect(o: Obs) | BumpPress | BumpMismatch
    | TakePresses | TakeMismatches | AddTaken(upMs: u64)
    | Save(nowMs: u64, ok: bool)
    | ZeroButton | DropPresses | DropMismatches | ZeroAll(sha: Sha, upMs: u64)

  function Seconds(ms: u64): u32 { ms / 1000 % WRAP }

  function Inc(n: u32): u32 { Add32(n, 1) }

  predicate Possible(s: State, a: Action) {
    match a
    case Detect(_) => !s.handPress && !s.handMismatch
    case BumpPress => s.handPress
    case BumpMismatch => !s.handPress && s.handMismatch
    case TakeMismatches => s.phase.TookPresses?
    case AddTaken(_) => s.phase.TookBoth?
    case _ => s.phase.Idle?
  }

  function Swapped(c: Counters): Counters {
    c.(presses := 0, mismatches := 0, swaps := if c.swaps < 255 then c.swaps + 1 else c.swaps)
  }

  /** A step that is not possible leaves everything as it is. */
  function Act(s: State, a: Action): State {
    if !Possible(s, a) then s
    else match a
    case Detect(o) =>
      var (e, out) := Observed(s.edge, o, STOP);
      s.(edge := e, handPress := out.press, handMismatch := out.mismatch)
    case BumpPress => s.(handPress := false, pressDelta := Inc(s.pressDelta))
    case BumpMismatch => s.(handMismatch := false, mismatchDelta := Inc(s.mismatchDelta))
    case TakePresses => s.(phase := TookPresses(s.pressDelta), pressDelta := 0)
    case TakeMismatches => s.(phase := TookBoth(s.phase.p, s.mismatchDelta), mismatchDelta := 0)
    case AddTaken(upMs) =>
      var c := s.counters.(presses := Add32(s.counters.presses, s.phase.p),
                           mismatches := Add32(s.counters.mismatches, s.phase.m),
                           uptime := Add32(s.uptimeAtBoot, Seconds(upMs)));
      s.(phase := Idle, counters := c, dirty := s.dirty || s.phase.p != 0 || s.phase.m != 0)
    case Save(nowMs, ok) =>
      if ok then s.(stored := Some(Encode(s.counters)), lastFlushMs := nowMs, flushes := s.flushes + 1, dirty := false)
      else s.(lastFlushMs := nowMs, flushFails := s.flushFails + 1)
    case ZeroButton => s.(counters := Swapped(s.counters))
    case DropPresses => s.(pressDelta := 0)
    case DropMismatches => s.(mismatchDelta := 0)
    case ZeroAll(sha, upMs) =>
      s.(counters := ZEROED.(sha := sha), uptimeAtBoot := (WRAP - Seconds(upMs)) % WRAP)
  }

  function After(s: State, acts: seq<Action>): State
    decreases |acts|
  {
    if acts == [] then s else After(Act(s, acts[0]), acts[1..])
  }

  // What a run detects ---------------------------------------------------------------------------

  /** The observations a run really makes. */
  function Seen(s: State, acts: seq<Action>): seq<Obs>
    decreases |acts|
  {
    if acts == [] then []
    else
      var later := Seen(Act(s, acts[0]), acts[1..]);
      if acts[0].Detect? && Possible(s, acts[0]) then [acts[0].o] + later else later
  }

  function Bit(b: bool): nat { if b then 1 else 0 }

  /** How many press and mismatch edges the detector reports over a run. */
  function Reports(e: Edge, os: seq<Obs>): (nat, nat)
    decreases |os|
  {
    if os == [] then (0, 0)
    else
      var (e', out) := Observed(e, os[0], STOP);
      var (p, m) := Reports(e', os[1..]);
      (p + Bit(out.press), m + Bit(out.mismatch))
  }

  lemma {:induction false} CountedSplit(h: seq<Obs>, os: seq<Obs>)
    ensures var (e, p, m) := Counted(h, STOP);
      Counted(h + os, STOP).1 == p + Reports(e, os).0 && Counted(h + os, STOP).2 == m + Reports(e, os).1
    decreases |os|
  {
    hide Observed;
    if os == [] {
      assert h + os == h;
    } else {
      var h1 := h + [os[0]];
      assert h1[..|h1| - 1] == h;
      assert h1 + os[1..] == h + os;
      CountedSplit(h1, os[1..]);
    }
  }

  /** From a blank detector: exactly the rising edges after the baseline. */
  lemma ReportsRisingEdges(os: seq<Obs>)
    requires Distinct(os)
    ensures Reports(BLANK, os).0 == |Presses(os, STOP)| && Reports(BLANK, os).1 == |Mismatches(os, STOP)|
  {
    hide Observed, Presses, Mismatches, Reports, Distinct;
    CountedSplit([], os);
    assert [] + os == os;
    CountsRisingEdges(os, STOP);
  }

  // Conservation ---------------------------------------------------------------------------------

  function InFlightP(ph: Phase): u32 { if ph.Idle? then 0 else ph.p }

  function InFlightM(ph: Phase): u32 { if ph.TookBoth? then ph.m else 0 }

  /** Every press there is, wherever it currently lies. */
  function AllPresses(s: State): u32 {
    (s.counters.presses + InFlightP(s.phase) + s.pressDelta + Bit(s.handPress)) % WRAP
  }

  function AllMismatches(s: State): u32 {
    (s.counters.mismatches + InFlightM(s.phase) + s.mismatchDelta + Bit(s.handMismatch)) % WRAP
  }

  predicate Resets(a: Action) { a.ZeroButton? || a.DropPresses? || a.DropMismatches? || a.ZeroAll? }

  predicate NoReset(acts: seq<Action>) { forall i :: 0 <= i < |acts| ==> !Resets(acts[i]) }

  lemma WrapsOnce(a: nat, b: nat)
    ensures (a % WRAP + b) % WRAP == (a + b) % WRAP
  {
  }

  lemma AddTwice(a: u32, x: nat, y: nat)
    ensures Add32(Add32(a, x), y) == Add32(a, x + y) == Add32(a, y + x)
  {
    WrapsOnce(a + x, y);
  }

  lemma AddNone(n: u32)
    ensures Add32(n, 0) == n
  {
  }

  /** The edges one step reports. */
  function Reported(s: State, a: Action): Edges {
    if a.Detect? && Possible(s, a) then Observed(s.edge, a.o, STOP).1 else NONE
  }

  lemma PressStep(s: State, a: Action)
    requires !Resets(a)
    ensures AllPresses(Act(s, a)) == Add32(AllPresses(s), Bit(Reported(s, a).press))
  {
    if a.BumpPress? || a.AddTaken? {
      PressMoves(s, a);
    } else {
      PressStays(s, a);
    }
  }

  /** A published or added press leaves one place for the next. */
  lemma PressMoves(s: State, a: Action)
    requires a.BumpPress? || a.AddTaken?
    ensures AllPresses(Act(s, a)) == Add32(AllPresses(s), 0) && Reported(s, a) == NONE
  {
    hide Encode;
    var c: nat, p: nat, d: nat, h: nat := s.counters.presses, InFlightP(s.phase), s.pressDelta, Bit(s.handPress);
    WrapsOnce(c + p + d + h, 0);
    if a.BumpPress? {
      WrapsOnce(d + 1, c + p);
    } else {
      WrapsOnce(c + p, d + h);
    }
  }

  lemma PressStays(s: State, a: Action)
    requires !Resets(a) && !a.BumpPress? && !a.AddTaken?
    ensures AllPresses(Act(s, a)) == Add32(AllPresses(s), Bit(Reported(s, a).press))
  {
    hide Observed, Encode;
    var c: nat, p: nat, d: nat, h: nat := s.counters.presses, InFlightP(s.phase), s.pressDelta, Bit(s.handPress);
    var t := Act(s, a);
    assert t.counters.presses == c && InFlightP(t.phase) + t.pressDelta == p + d;
    assert Bit(t.handPress) == h + Bit(Reported(s, a).press);
    hide Act, Reported, InFlightP;
    WrapsOnce(c + p + d + h, Bit(Reported(s, a).press));
  }

  lemma MismatchStep(s: State, a: Action)
    requires !Resets(a)
    ensures AllMismatches(Act(s, a)) == Add32(AllMismatches(s), Bit(Reported(s, a).mismatch))
  {
    if a.BumpMismatch? || a.AddTaken? {
      MismatchMoves(s, a);
    } else {
      MismatchStays(s, a);
    }
  }

  lemma MismatchMoves(s: State, a: Action)
    requires a.BumpMismatch? || a.AddTaken?
    ensures AllMismatches(Act(s, a)) == Add32(AllMismatches(s), 0) && Reported(s, a) == NONE
  {
    hide Encode;
    var c: nat, m: nat, d: nat, h: nat := s.counters.mismatches, InFlightM(s.phase), s.mismatchDelta, Bit(s.handMismatch);
    WrapsOnce(c + m + d + h, 0);
    if a.BumpMismatch? {
      WrapsOnce(d + 1, c + m);
    } else {
      WrapsOnce(c + m, d + h);
    }
  }

  lemma MismatchStays(s: State, a: Action)
    requires !Resets(a) && !a.BumpMismatch? && !a.AddTaken?
    ensures AllMismatches(Act(s, a)) == Add32(AllMismatches(s), Bit(Reported(s, a).mismatch))
  {
    hide Observed, Encode;
    var c: nat, m: nat, d: nat, h: nat := s.counters.mismatches, InFlightM(s.phase), s.mismatchDelta, Bit(s.handMismatch);
    var t := Act(s, a);
    assert t.counters.mismatches == c && InFlightM(t.phase) + t.mismatchDelta == m + d;
    assert Bit(t.handMismatch) == h + Bit(Reported(s, a).mismatch);
    hide Act, Reported, InFlightM;
    WrapsOnce(c + m + d + h, Bit(Reported(s, a).mismatch));
  }

  /** Conservation: over any interleaving without a reset, stored plus in flight plus pending grows by
      exactly the reported edges, modulo 2^32. Nothing a fold or a flush does changes it. */
  lemma {:induction false} Conserved(s: State, acts: seq<Action>)
    requires NoReset(acts)
    ensures AllPresses(After(s, acts)) == Add32(AllPresses(s), Reports(s.edge, Seen(s, acts)).0)
    ensures AllMismatches(After(s, acts)) == Add32(AllMismatches(s), Reports(s.edge, Seen(s, acts)).1)
    decreases |acts|
  {
    hide Observed, AllPresses, AllMismatches, Act, Possible, Reported, Seen, Add32, Bit;
    if acts == [] {
      NothingSeen(s);
      AddNone(AllPresses(s));
      AddNone(AllMismatches(s));
    } else {
      assert !Resets(acts[0]);
      var s' := Act(s, acts[0]);
      PressStep(s, acts[0]);
      MismatchStep(s, acts[0]);
      Conserved(s', acts[1..]);
      SeenStep(s, acts);
      var here, rest := Reported(s, acts[0]), Reports(s'.edge, Seen(s', acts[1..]));
      AddTwice(AllPresses(s), Bit(here.press), rest.0);
      AddTwice(AllMismatches(s), Bit(here.mismatch), rest.1);
    }
  }

  lemma NothingSeen(s: State)
    ensures Seen(s, []) == []
  {
  }

  lemma EdgeStep(s: State, a: Action)
    ensures Act(s, a).edge == if a.Detect? && Possible(s, a) then Observed(s.edge, a.o, STOP).0 else s.edge
  {
    hide Observed, Encode;
  }

  lemma SeenStep(s: State, acts: seq<Action>)
    requires acts != []
    ensures var s' := Act(s, acts[0]);
      var rest := Reports(s'.edge, Seen(s', acts[1..]));
      var here := Reported(s, acts[0]);
      Reports(s.edge, Seen(s, acts)) == (rest.0 + Bit(here.press), rest.1 + Bit(here.mismatch))
  {
    hide Observed, Act, Possible, Reports;
    EdgeStep(s, acts[0]);
    if acts[0].Detect? && Possible(s, acts[0]) {
      ReportsMore(s.edge, acts[0].o, Seen(Act(s, acts[0]), acts[1..]));
    }
  }

  lemma ReportsMore(e: Edge, o: Obs, later: seq<Obs>)
    ensures var (e', out) := Observed(e, o, STOP);
      Reports(e, [o] + later) == (Reports(e', later).0 + Bit(out.press), Reports(e', later).1 + Bit(out.mismatch))
  {
    hide Observed;
    assert ([o] + later)[1..] == later;
  }

  /** From boot: stored plus pending is what was loaded plus every rising edge after the baseline tick. */
  lemma CountsFromBoot(s: State, acts: seq<Action>)
    requires s.edge == BLANK && !s.handPress && !s.handMismatch && s.phase.Idle? && s.pressDelta == s.mismatchDelta == 0
    requires NoReset(acts) && Distinct(Seen(s, acts))
    ensures AllPresses(After(s, acts)) == Add32(s.counters.presses, |Presses(Seen(s, acts), STOP)|)
    ensures AllMismatches(After(s, acts)) == Add32(s.counters.mismatches, |Mismatches(Seen(s, acts), STOP)|)
  {
    hide Seen, After, Presses, Mismatches, Reports;
    Conserved(s, acts);
    ReportsRisingEdges(Seen(s, acts));
  }

  // Resets ---------------------------------------------------------------------------------------

  /** Presses published or about to be, but not yet taken by a fold. */
  function OutstandingPresses(s: State): u32 { (s.pressDelta + Bit(s.handPress)) % WRAP }

  function OutstandingMismatches(s: State): u32 { (s.mismatchDelta + Bit(s.handMismatch)) % WRAP }

  predicate LeavesPresses(acts: seq<Action>) {
    forall i :: 0 <= i < |acts| ==> !acts[i].TakePresses? && !acts[i].DropPresses?
  }

  predicate LeavesMismatches(acts: seq<Action>) {
    forall i :: 0 <= i < |acts| ==> !acts[i].TakeMismatches? && !acts[i].DropMismatches?
  }

  lemma OutstandingStep(s: State, a: Action)
    ensures !a.TakePresses? && !a.DropPresses? ==>
      OutstandingPresses(Act(s, a)) == Add32(OutstandingPresses(s), Bit(Reported(s, a).press))
    ensures !a.TakeMismatches? && !a.DropMismatches? ==>
      OutstandingMismatches(Act(s, a)) == Add32(OutstandingMismatches(s), Bit(Reported(s, a).mismatch))
  {
    hide Observed, Encode;
  }

  /** Until they are next taken, outstanding presses are exactly the ones reported. */
  lemma {:induction false} OutstandingPressesGrow(s: State, acts: seq<Action>)
    requires LeavesPresses(acts)
    ensures OutstandingPresses(After(s, acts)) == Add32(OutstandingPresses(s), Reports(s.edge, Seen(s, acts)).0)
    decreases |acts|
  {
    hide Observed, OutstandingPresses, OutstandingMismatches, Act, Possible, Reported, Seen;
    if acts == [] {
      NothingSeen(s);
    } else {
      assert !acts[0].TakePresses? && !acts[0].DropPresses?;
      OutstandingStep(s, acts[0]);
      var s' := Act(s, acts[0]);
      OutstandingPressesGrow(s', acts[1..]);
      SeenStep(s, acts);
      WrapsOnce(OutstandingPresses(s) + Bit(Reported(s, acts[0]).press), Reports(s'.edge, Seen(s', acts[1..])).0);
    }
  }

  lemma {:induction false} OutstandingMismatchesGrow(s: State, acts: seq<Action>)
    requires LeavesMismatches(acts)
    ensures OutstandingMismatches(After(s, acts)) == Add32(OutstandingMismatches(s), Reports(s.edge, Seen(s, acts)).1)
    decreases |acts|
  {
    hide Observed, OutstandingPresses, OutstandingMismatches, Act, Possible, Reported, Seen;
    if acts == [] {
      NothingSeen(s);
    } else {
      assert !acts[0].TakeMismatches? && !acts[0].DropMismatches?;
      OutstandingStep(s, acts[0]);
      var s' := Act(s, acts[0]);
      OutstandingMismatchesGrow(s', acts[1..]);
      SeenStep(s, acts);
      WrapsOnce(OutstandingMismatches(s) + Bit(Reported(s, acts[0]).mismatch), Reports(s'.edge, Seen(s', acts[1..])).1);
    }
  }

  predicate Zeroes(a: Action) { a.ZeroButton? || a.ZeroAll? }

  /** After a reset of either kind, whatever runs before, between and after its steps, the presses there
      are count exactly the edges reported since the reset emptied the pending ones (plus the one the
      observer may have had in hand just then). */
  lemma ResetRestartsPresses(s: State, empty: Action, mid: seq<Action>, zero: Action, rest: seq<Action>)
    requires s.phase.Idle? && (empty.TakePresses? || empty.DropPresses?) && Zeroes(zero)
    requires LeavesPresses(mid) && NoReset(rest)
    requires After(Act(s, empty), mid).phase.Idle?
    ensures var s0 := Act(s, empty);
      var s1 := Act(After(s0, mid), zero);
      AllPresses(After(s1, rest)) ==
        (Bit(s.handPress) + Reports(s0.edge, Seen(s0, mid)).0 + Reports(s1.edge, Seen(s1, rest)).0) % WRAP
  {
    hide After, Seen, Reports, Encode, Observed;
    var s0 := Act(s, empty);
    var s1 := Act(After(s0, mid), zero);
    OutstandingPressesGrow(s0, mid);
    assert AllPresses(s1) == OutstandingPresses(After(s0, mid));
    Conserved(s1, rest);
    WrapsOnce(Bit(s.handPress) + Reports(s0.edge, Seen(s0, mid)).0, Reports(s1.edge, Seen(s1, rest)).0);
  }

  lemma ResetRestartsMismatches(s: State, empty: Action, mid: seq<Action>, zero: Action, rest: seq<Action>)
    requires Possible(s, empty) && (empty.TakeMismatches? || empty.DropMismatches?) && Zeroes(zero)
    requires LeavesMismatches(mid) && NoReset(rest)
    requires After(Act(s, empty), mid).phase.Idle?
    ensures var s0 := Act(s, empty);
      var s1 := Act(After(s0, mid), zero);
      AllMismatches(After(s1, rest)) ==
        (Bit(s.handMismatch) + Reports(s0.edge, Seen(s0, mid)).1 + Reports(s1.edge, Seen(s1, rest)).1) % WRAP
  {
    hide After, Seen, Reports, Encode, Observed;
    var s0 := Act(s, empty);
    var s1 := Act(After(s0, mid), zero);
    OutstandingMismatchesGrow(s0, mid);
    assert AllMismatches(s1) == OutstandingMismatches(After(s0, mid));
    assert OutstandingMismatches(s0) == Bit(s.handMismatch);
    hide Act, AllMismatches, OutstandingMismatches;
    Conserved(s1, rest);
    WrapsOnce(Bit(s.handMismatch) + Reports(s0.edge, Seen(s0, mid)).1, Reports(s1.edge, Seen(s1, rest)).1);
  }

  // Storage and reboots --------------------------------------------------------------------------

  /** What a boot makes of the stored blob: an absent or unreadable one counts as a new unit. */
  function Loaded(stored: Option<seq<u8>>): Counters {
    match stored
    case None => ZEROED
    case Some(blob) => (match Decode(blob) case None => ZEROED case Some(c) => c)
  }

  function Booted(c: Counters, sha: Sha): Counters {
    c.(boots := Inc(c.boots), flashes := if sha != c.sha then Inc(c.flashes) else c.flashes, sha := sha)
  }

  /** The state a boot starts from, before its own first flush. */
  function Boot(stored: Option<seq<u8>>, readable: bool, sha: Sha, upMs: u64): State {
    var c := Loaded(if readable then stored else None);
    State(BLANK, false, false, 0, 0, Idle, Booted(c, sha), false,
          (c.uptime + (WRAP - Seconds(upMs))) % WRAP, stored, 0, 0, 0)
  }

  /** The same record, powered time aside. */
  predicate Same(a: Counters, b: Counters) { a.(uptime := b.uptime) == b }

  /** When nothing is marked dirty, storage holds the whole record, powered time aside. */
  predicate Truthful(s: State) { !s.dirty ==> Same(Loaded(s.stored), s.counters) }

  lemma TruthfulStep(s: State, a: Action)
    requires Truthful(s) && !Resets(a)
    ensures Truthful(Act(s, a))
  {
    hide Observed, Encode, Decode;
    if a.Save? {
      StoredIsReadBack(s.counters);
    }
  }

  /** The dirty flag never forgets anything: in any run without a reset, failed saves included. */
  lemma {:induction false} DirtyTellsTheTruth(s: State, acts: seq<Action>)
    requires Truthful(s) && NoReset(acts)
    ensures Truthful(After(s, acts))
    decreases |acts|
  {
    hide Act, Truthful;
    if acts != [] {
      assert !Resets(acts[0]);
      TruthfulStep(s, acts[0]);
      DirtyTellsTheTruth(Act(s, acts[0]), acts[1..]);
    }
  }

  /** Any successful save makes the flag true, whatever it was before. */
  lemma SavedIsTruthful(s: State, nowMs: u64)
    requires s.phase.Idle?
    ensures var t := Act(s, Save(nowMs, true)); Truthful(t) && Loaded(t.stored) == s.counters
  {
    hide Encode, Decode;
    StoredIsReadBack(s.counters);
  }

  /** From any successful save on, a boot's own included, the flag tells the truth until something is reset. */
  lemma TruthfulSinceTheLastSave(s: State, nowMs: u64, acts: seq<Action>)
    requires s.phase.Idle? && NoReset(acts)
    ensures Truthful(After(Act(s, Save(nowMs, true)), acts))
  {
    hide Act, Truthful;
    SavedIsTruthful(s, nowMs);
    DirtyTellsTheTruth(Act(s, Save(nowMs, true)), acts);
  }

  /** Losing power when nothing is dirty loses exactly the edges no fold had taken yet and the powered time
      since storage was written: the next boot has the rest of the record, one boot later. */
  lemma PowerCutLosesOnlyPending(s: State, sha: Sha, upMs: u64)
    requires Truthful(s) && !s.dirty && s.phase.Idle?
    ensures Boot(s.stored, true, sha, upMs).counters == Booted(s.counters.(uptime := Loaded(s.stored).uptime), sha)
    ensures AllPresses(s) == Add32(AllPresses(Boot(s.stored, true, sha, upMs)), s.pressDelta + Bit(s.handPress))
    ensures AllMismatches(s) == Add32(AllMismatches(Boot(s.stored, true, sha, upMs)), s.mismatchDelta + Bit(s.handMismatch))
  {
    hide Decode;
    var b := Boot(s.stored, true, sha, upMs);
    assert AllPresses(b) == s.counters.presses && AllMismatches(b) == s.counters.mismatches;
    hide Boot, Booted, Loaded, Truthful, Same;
  }

  predicate NoSave(acts: seq<Action>) { forall a :: a in acts ==> !(a.Save? && a.ok) }

  lemma {:induction false} StorageStays(s: State, acts: seq<Action>)
    requires NoSave(acts)
    ensures After(s, acts).stored == s.stored
    decreases |acts|
  {
    hide Observed, Encode;
    if acts != [] {
      assert acts[0] in acts;
      StorageStays(Act(s, acts[0]), acts[1..]);
    }
  }

  /** Losing power at any moment, dirty or not, goes back to exactly the record of the last successful save,
      through any folds, failed saves and resets since; without a reset, what that loses of the edges is
      exactly those the observer has reported since, and those then still pending. */
  lemma PowerCutGoesBackToTheLastSave(s: State, nowMs: u64, acts: seq<Action>, sha: Sha, upMs: u64)
    requires s.phase.Idle? && NoSave(acts)
    ensures var s1 := Act(s, Save(nowMs, true));
      var t := After(s1, acts);
      var b := Boot(t.stored, true, sha, upMs);
      && b.counters == Booted(s.counters, sha)
      && (NoReset(acts) ==>
            && AllPresses(t) ==
                 Add32(b.counters.presses, s.pressDelta + Bit(s.handPress) + Reports(s1.edge, Seen(s1, acts)).0)
            && AllMismatches(t) ==
                 Add32(b.counters.mismatches, s.mismatchDelta + Bit(s.handMismatch) + Reports(s1.edge, Seen(s1, acts)).1))
  {
    hide Encode, Decode, After, Seen, Reports;
    var s1 := Act(s, Save(nowMs, true));
    StorageStays(s1, acts);
    SavedIsTruthful(s, nowMs);
    if NoReset(acts) {
      Conserved(s1, acts);
      WrapsOnce(s.counters.presses + s.pressDelta + Bit(s.handPress), Reports(s1.edge, Seen(s1, acts)).0);
      WrapsOnce(s.counters.mismatches + s.mismatchDelta + Bit(s.handMismatch), Reports(s1.edge, Seen(s1, acts)).1);
    }
  }

  function FoldActs(upMs: u64): seq<Action> { [TakePresses, TakeMismatches, AddTaken(upMs)] }

  function FlushActs(upMs: u64, nowMs: u64, ok: bool): seq<Action> { FoldActs(upMs) + [Save(nowMs, ok)] }

  function ResetButtonActs(upMs: u64, upMs2: u64, nowMs: u64, ok: bool): seq<Action> {
    FoldActs(upMs) + [ZeroButton] + FlushActs(upMs2, nowMs, ok)
  }

  lemma {:induction false} AfterConcat(s: State, a: seq<Action>, b: seq<Action>)
    ensures After(s, a + b) == After(After(s, a), b)
    decreases |a|
  {
    hide Act;
    if a == [] {
      assert a + b == b;
    } else {
      assert (a + b)[1..] == a[1..] + b;
      AfterConcat(Act(s, a[0]), a[1..], b);
    }
  }

  lemma AfterOne(s: State, a: Action)
    ensures After(s, [a]) == Act(s, a)
  {
    hide Act;
  }

  lemma AfterThree(s: State, a: Action, b: Action, c: Action)
    ensures After(s, [a, b, c]) == Act(Act(Act(s, a), b), c)
  {
    hide Act;
    assert [a, b, c] == [a] + ([b] + [c]);
    AfterConcat(s, [a], [b] + [c]);
    AfterConcat(Act(s, a), [b], [c]);
  }

  /** A fold nobody interleaves with. */
  function Folded(s: State, upMs: u64): State {
    var c := s.counters.(presses := Add32(s.counters.presses, s.pressDelta),
                         mismatches := Add32(s.counters.mismatches, s.mismatchDelta),
                         uptime := Add32(s.uptimeAtBoot, Seconds(upMs)));
    s.(counters := c, dirty := s.dirty || s.pressDelta != 0 || s.mismatchDelta != 0, pressDelta := 0, mismatchDelta := 0)
  }

  lemma FoldIsFolded(s: State, upMs: u64)
    requires s.phase.Idle?
    ensures After(s, FoldActs(upMs)) == Folded(s, upMs)
  {
    AfterThree(s, TakePresses, TakeMismatches, AddTaken(upMs));
  }

  /** Across a reboot: one boot more, one flash more exactly if the build changed, every other count as
      stored, and powered time going on from where it was, counting only time since this boot. */
  lemma UptimeAccumulates(c: Counters, sha: Sha, upMs: u64, laterMs: u64)
    requires upMs <= laterMs < WRAP * 1000
    ensures var s := Boot(Some(Encode(c)), true, sha, upMs);
      var later := Folded(s, laterMs).counters;
      && later.boots == Inc(c.boots) && later.flashes == (if sha == c.sha then c.flashes else Inc(c.flashes))
      && later.sha == sha && later.presses == c.presses && later.mismatches == c.mismatches
      && later.otas == c.otas && later.swaps == c.swaps
      && later.uptime == (c.uptime + (laterMs / 1000 - upMs / 1000)) % WRAP
  {
    hide Encode, Decode, Seconds, Add32, Inc;
    StoredIsReadBack(c);
    SecondsBetween(c.uptime, upMs, laterMs);
    AddNone(c.presses);
    AddNone(c.mismatches);
  }

  lemma SecondsBetween(u: u32, upMs: u64, laterMs: u64)
    requires upMs <= laterMs < WRAP * 1000
    ensures Add32((u + (WRAP - Seconds(upMs))) % WRAP, Seconds(laterMs)) == (u + (laterMs / 1000 - upMs / 1000)) % WRAP
  {
    assert Seconds(upMs) == upMs / 1000 && Seconds(laterMs) == laterMs / 1000;
    var a: nat := u + (WRAP - Seconds(upMs));
    WrapsOnce(a, Seconds(laterMs));
    assert a + Seconds(laterMs) == u + (laterMs / 1000 - upMs / 1000) + WRAP;
  }

  function ResetAllActs(sha: Sha, upMs: u64, upMs2: u64, nowMs: u64, ok: bool): seq<Action> {
    [DropPresses, DropMismatches, ZeroAll(sha, upMs)] + FlushActs(upMs2, nowMs, ok)
  }

  /** A button reset that no observer step interleaves with, and whose save fails. */
  lemma ResetButtonAlone(s: State, upMs: u64, upMs2: u64, nowMs: u64)
    requires s.phase.Idle?
    ensures Truthful(After(s, ResetButtonActs(upMs, upMs2, nowMs, false))) <==>
      s.dirty || s.pressDelta != 0 || s.mismatchDelta != 0 || Same(Loaded(s.stored), Swapped(s.counters))
    ensures After(s, ResetButtonActs(upMs, upMs2, nowMs, false)).phase.Idle?
  {
    hide Decode, Encode;
    var z := Act(Folded(s, upMs), ZeroButton);
    AfterConcat(s, FoldActs(upMs) + [ZeroButton], FlushActs(upMs2, nowMs, false));
    AfterConcat(s, FoldActs(upMs), [ZeroButton]);
    FoldIsFolded(s, upMs);
    AfterOne(Folded(s, upMs), ZeroButton);
    FailedFlush(z, upMs2, nowMs);
  }

  lemma FailedFlush(s: State, upMs: u64, nowMs: u64)
    requires s.phase.Idle?
    ensures var t := After(s, FlushActs(upMs, nowMs, false));
      t == Folded(s, upMs).(lastFlushMs := nowMs, flushFails := s.flushFails + 1)
  {
    hide Decode, Encode;
    AfterConcat(s, FoldActs(upMs), [Save(nowMs, false)]);
    FoldIsFolded(s, upMs);
    AfterOne(Folded(s, upMs), Save(nowMs, false));
  }

  /** The same for a full reset: it drops what is pending. */
  lemma ResetAllAlone(s: State, sha: Sha, upMs: u64, upMs2: u64, nowMs: u64)
    requires s.phase.Idle?
    ensures Truthful(After(s, ResetAllActs(sha, upMs, upMs2, nowMs, false))) <==>
      s.dirty || Same(Loaded(s.stored), ZEROED.(sha := sha))
    ensures After(s, ResetAllActs(sha, upMs, upMs2, nowMs, false)).phase.Idle?
  {
    hide Decode, Encode;
    AfterThree(s, DropPresses, DropMismatches, ZeroAll(sha, upMs));
    var z := After(s, [DropPresses, DropMismatches, ZeroAll(sha, upMs)]);
    AfterConcat(s, [DropPresses, DropMismatches, ZeroAll(sha, upMs)], FlushActs(upMs2, nowMs, false));
    FailedFlush(z, upMs2, nowMs);
  }

  /** A save touches neither the counters nor what is pending. */
  lemma FlushLeaves(s: State, upMs: u64, nowMs: u64, ok: bool)
    requires s.phase.Idle?
    ensures var f, t := Folded(s, upMs), After(s, FlushActs(upMs, nowMs, ok));
      t.counters == f.counters && t.pressDelta == t.mismatchDelta == 0 && t.phase.Idle?
  {
    hide Decode, Encode;
    AfterConcat(s, FoldActs(upMs), [Save(nowMs, ok)]);
    FoldIsFolded(s, upMs);
    AfterOne(Folded(s, upMs), Save(nowMs, ok));
  }

  /** Either reset, undisturbed and whether or not its save works, leaves no press and no mismatch anywhere:
      not in the record, and not pending for the next fold. */
  lemma ResetsLeaveNoEdges(s: State, sha: Sha, upMs: u64, upMs2: u64, nowMs: u64, ok: bool)
    requires s.phase.Idle?
    ensures var f := After(s, ResetAllActs(sha, upMs, upMs2, nowMs, ok));
      f.counters.presses == f.counters.mismatches == 0 && f.pressDelta == f.mismatchDelta == 0
    ensures var f := After(s, ResetButtonActs(upMs, upMs2, nowMs, ok));
      f.counters.presses == f.counters.mismatches == 0 && f.pressDelta == f.mismatchDelta == 0
  {
    hide Decode, Encode;
    AllDropped(s, sha, upMs);
    AfterConcat(s, [DropPresses, DropMismatches, ZeroAll(sha, upMs)], FlushActs(upMs2, nowMs, ok));
    FlushLeaves(After(s, [DropPresses, DropMismatches, ZeroAll(sha, upMs)]), upMs2, nowMs, ok);
    var z := Act(Folded(s, upMs), ZeroButton);
    AfterConcat(s, FoldActs(upMs) + [ZeroButton], FlushActs(upMs2, nowMs, ok));
    AfterConcat(s, FoldActs(upMs), [ZeroButton]);
    FoldIsFolded(s, upMs);
    AfterOne(Folded(s, upMs), ZeroButton);
    FlushLeaves(z, upMs2, nowMs, ok);
  }

  lemma AllDropped(s: State, sha: Sha, upMs: u64)
    requires s.phase.Idle?
    ensures var z := After(s, [DropPresses, DropMismatches, ZeroAll(sha, upMs)]);
      && z.phase.Idle? && z.counters.presses == z.counters.mismatches == 0 && z.pressDelta == z.mismatchDelta == 0
  {
    AfterThree(s, DropPresses, DropMismatches, ZeroAll(sha, upMs));
  }

  /** What storage must hold for a swap to change nothing, when the flag was true before. */
  lemma SwapChangesNothingWhen(s: State)
    requires Truthful(s) && !s.dirty
    ensures Same(Loaded(s.stored), Swapped(s.counters)) <==>
      s.counters.presses == 0 && s.counters.mismatches == 0 && s.counters.swaps == 255
  {
    hide Decode;
  }

  // ... with the observer in between

  predicate Observing(a: Action) { a.Detect? || a.BumpPress? || a.BumpMismatch? }

  /** The lock holder's steps of a run. */
  function LockActs(acts: seq<Action>): seq<Action> {
    if acts == [] then []
    else if Observing(acts[0]) then LockActs(acts[1..])
    else [acts[0]] + LockActs(acts[1..])
  }

  /** This step takes a pending edge from the observer. */
  predicate TakesEdge(s: State, a: Action) {
    Possible(s, a) && ((a.TakePresses? && s.pressDelta != 0) || (a.TakeMismatches? && s.mismatchDelta != 0))
  }

  /** Some step of the run does: an edge published before one of the run's folds came to take it. */
  predicate TakesEdges(s: State, acts: seq<Action>)
    decreases |acts|
  {
    acts != [] && (TakesEdge(s, acts[0]) || TakesEdges(Act(s, acts[0]), acts[1..]))
  }

  /** What the lock holder sees of a state in which nothing is pending. */
  function Core(s: State): State {
    s.(edge := BLANK, handPress := false, handMismatch := false, pressDelta := 0, mismatchDelta := 0)
  }

  lemma CoreStep(s: State, a: Action)
    ensures Observing(a) ==> Core(Act(s, a)) == Core(s)
    ensures !Observing(a) && !TakesEdge(s, a) ==> Core(Act(s, a)) == Act(Core(s), a)
  {
    hide Observed, Encode;
  }

  /** As long as it takes nothing, the lock holder cannot tell that an observer was there. */
  lemma {:induction false} UntouchedByTheObserver(s: State, acts: seq<Action>)
    requires !TakesEdges(s, acts)
    ensures Core(After(s, acts)) == After(Core(s), LockActs(acts))
    decreases |acts|
  {
    hide Act, Core, TakesEdge;
    if acts != [] {
      CoreStep(s, acts[0]);
      UntouchedByTheObserver(Act(s, acts[0]), acts[1..]);
      if !Observing(acts[0]) {
        assert ([acts[0]] + LockActs(acts[1..]))[1..] == LockActs(acts[1..]);
      }
    }
  }

  function PhaseTag(ph: Phase): nat { if ph.Idle? then 0 else if ph.TookPresses? then 1 else 2 }

  lemma TagStep(s: State, t: State, a: Action)
    requires PhaseTag(s.phase) == PhaseTag(t.phase)
    ensures !Observing(a) ==> PhaseTag(Act(s, a).phase) == PhaseTag(Act(t, a).phase)
    ensures Observing(a) ==> Act(s, a).phase == s.phase
  {
    hide Observed, Encode;
  }

  /** How far the lock holder is does not depend on the observer at all. */
  lemma {:induction false} TagsAgree(s: State, t: State, acts: seq<Action>)
    requires PhaseTag(s.phase) == PhaseTag(t.phase)
    ensures PhaseTag(After(s, acts).phase) == PhaseTag(After(t, LockActs(acts)).phase)
    decreases |acts|
  {
    hide Act, PhaseTag;
    if acts != [] {
      TagStep(s, t, acts[0]);
      if Observing(acts[0]) {
        TagsAgree(Act(s, acts[0]), t, acts[1..]);
      } else {
        assert ([acts[0]] + LockActs(acts[1..]))[1..] == LockActs(acts[1..]);
        TagsAgree(Act(s, acts[0]), Act(t, acts[0]), acts[1..]);
      }
    }
  }

  /** Marked dirty, or holding an edge that will mark it. */
  predicate Marked(s: State) { s.dirty || InFlightP(s.phase) != 0 || InFlightM(s.phase) != 0 }

  lemma MarkedStep(s: State, a: Action)
    requires !(a.Save? && a.ok)
    ensures Marked(s) || TakesEdge(s, a) ==> Marked(Act(s, a))
  {
    hide Observed, Encode;
  }

  lemma {:induction false} TakingMarks(s: State, acts: seq<Action>)
    requires NoSave(acts)
    ensures Marked(s) || TakesEdges(s, acts) ==> Marked(After(s, acts))
    decreases |acts|
  {
    hide Act, Marked, TakesEdge;
    if acts != [] {
      MarkedStep(s, acts[0]);
      TakingMarks(Act(s, acts[0]), acts[1..]);
    }
  }

  lemma {:induction false} LockActsKeep(acts: seq<Action>)
    ensures forall a :: a in acts && !Observing(a) ==> a in LockActs(acts)
  {
    if acts != [] {
      LockActsKeep(acts[1..]);
    }
  }

  /** Any program of the lock holder without a successful save, interleaved with any observer steps: its
      flag ends up true exactly when some fold takes an edge, or it would with nothing pending. */
  lemma FailedSaveExactlyWhen(s: State, acts: seq<Action>)
    requires s.phase.Idle? && After(Core(s), LockActs(acts)).phase.Idle? && NoSave(LockActs(acts))
    ensures Truthful(After(s, acts)) <==> TakesEdges(s, acts) || Truthful(After(Core(s), LockActs(acts)))
  {
    hide Act, Encode, Decode, After, LockActs, TakesEdges;
    LockActsKeep(acts);
    TagsAgree(s, Core(s), acts);
    if TakesEdges(s, acts) {
      TakingMarks(s, acts);
    } else {
      UntouchedByTheObserver(s, acts);
    }
  }

  /** A button reset whose save fails is not marked dirty by itself: storage keeps the old record while the
      flag may say it is saved. With the observer interleaving in any way, the flag is true all the same
      exactly when something was dirty before, or an edge was published in time for one of the reset's two
      folds, or storage already held what the reset made of the record. */
  lemma FailedResetExactlyWhen(s: State, acts: seq<Action>, upMs: u64, upMs2: u64, nowMs: u64)
    requires s.phase.Idle? && LockActs(acts) == ResetButtonActs(upMs, upMs2, nowMs, false)
    ensures Truthful(After(s, acts)) <==>
      s.dirty || TakesEdges(s, acts) || Same(Loaded(s.stored), Swapped(s.counters))
    ensures Truthful(s) ==>
      (Truthful(After(s, acts)) <==>
         s.dirty || TakesEdges(s, acts)
         || (s.counters.presses == 0 && s.counters.mismatches == 0 && s.counters.swaps == 255))
  {
    hide Act, Encode, Decode, After, LockActs, TakesEdges, Same, Swapped;
    ResetButtonAlone(Core(s), upMs, upMs2, nowMs);
    FailedSaveExactlyWhen(s, acts);
    if Truthful(s) && !s.dirty {
      SwapChangesNothingWhen(s);
    }
  }

  /** A full reset whose save fails does the same, and pending edges do not rescue it, since it drops them:
      only those published after the drop and in time for its fold do. */
  lemma FailedFullResetExactlyWhen(s: State, acts: seq<Action>, sha: Sha, upMs: u64, upMs2: u64, nowMs: u64)
    requires s.phase.Idle? && LockActs(acts) == ResetAllActs(sha, upMs, upMs2, nowMs, false)
    ensures Truthful(After(s, acts)) <==> s.dirty || TakesEdges(s, acts) || Same(Loaded(s.stored), ZEROED.(sha := sha))
    ensures Truthful(s) ==>
      (Truthful(After(s, acts)) <==> s.dirty || TakesEdges(s, acts) || Same(s.counters, ZEROED.(sha := sha)))
  {
    hide Act, Encode, Decode, After, LockActs, TakesEdges;
    ResetAllAlone(Core(s), sha, upMs, upMs2, nowMs);
    FailedSaveExactlyWhen(s, acts);
  }

  /** A boot counts itself and a changed build without marking them dirty either. If its own flush fails the
      flag is true only when storage, unread, already held what a new unit's first boot makes: never when
      storage was read. */
  lemma FailedBootExactlyWhen(stored: Option<seq<u8>>, readable: bool, sha: Sha, upMs: u64,
                              acts: seq<Action>, upMs2: u64, nowMs: u64)
    requires LockActs(acts) == FlushActs(upMs2, nowMs, false)
    ensures var s := Boot(stored, readable, sha, upMs);
      && (Truthful(After(s, acts)) <==>
            TakesEdges(s, acts) || (!readable && Same(Loaded(stored), Booted(ZEROED, sha))))
  {
    hide Act, Encode, Decode, After, LockActs, TakesEdges;
    var s := Boot(stored, readable, sha, upMs);
    FailedFlush(Core(s), upMs2, nowMs);
    FailedSaveExactlyWhen(s, acts);
  }

  lemma NoResetLocked(acts: seq<Action>)
    requires NoReset(LockActs(acts))
    ensures NoReset(acts)
  {
    LockActsKeep(acts);
    forall i | 0 <= i < |acts| ensures !Resets(acts[i]) {
      assert acts[i] in acts;
    }
  }

  /** Everything a run without resets leaves alone. */
  predicate SameIdentity(s: State, t: State) {
    && t.counters == s.counters.(presses := t.counters.presses, mismatches := t.counters.mismatches,
                                 uptime := t.counters.uptime)
    && t.uptimeAtBoot == s.uptimeAtBoot
  }

  lemma {:induction false} IdentityStays(s: State, acts: seq<Action>)
    requires NoReset(acts)
    ensures SameIdentity(s, After(s, acts))
    decreases |acts|
  {
    hide Observed, Encode;
    if acts != [] {
      assert !Resets(acts[0]);
      IdentityStays(Act(s, acts[0]), acts[1..]);
    }
  }

  lemma {:induction false} ObserverOnly(s: State, acts: seq<Action>)
    requires LockActs(acts) == []
    ensures Core(After(s, acts)) == Core(s)
    decreases |acts|
  {
    hide Act, Core;
    if acts != [] {
      assert Observing(acts[0]);
      CoreStep(s, acts[0]);
      ObserverOnly(Act(s, acts[0]), acts[1..]);
    }
  }

  /** Where the n-th of the lock holder's steps is. */
  lemma {:induction false} FindLockAct(acts: seq<Action>, n: nat) returns (k: nat)
    requires n < |LockActs(acts)|
    ensures k < |acts| && acts[k] == LockActs(acts)[n]
    ensures LockActs(acts[..k]) == LockActs(acts)[..n] && LockActs(acts[k + 1..]) == LockActs(acts)[n + 1..]
  {
    if n == 0 && !Observing(acts[0]) {
      k := 0;
      assert acts[..0] == [];
    } else {
      var m := if Observing(acts[0]) then n else n - 1;
      var j := FindLockAct(acts[1..], m);
      k := j + 1;
      FrontOf(acts, j);
    }
  }

  /** The front of a run and what comes after it, one step later. */
  lemma FrontOf(acts: seq<Action>, j: nat)
    requires j + 1 < |acts|
    ensures acts[..j + 1][0] == acts[0] && acts[..j + 1][1..] == acts[1..][..j]
    ensures acts[j + 1] == acts[1..][j] && acts[j + 2..] == acts[1..][j + 1..]
  {
  }

  lemma AfterSplit(s: State, acts: seq<Action>, k: nat)
    requires k < |acts|
    ensures After(s, acts) == After(Act(After(s, acts[..k]), acts[k]), acts[k + 1..])
  {
    hide Act;
    assert acts == acts[..k] + ([acts[k]] + acts[k + 1..]);
    AfterConcat(s, acts[..k], [acts[k]] + acts[k + 1..]);
    assert ([acts[k]] + acts[k + 1..])[1..] == acts[k + 1..];
  }

  /** A successful flush with the observer interleaving in any way: storage then holds the whole record in
      memory, powered time included, and the next boot has it all again, one boot later. What it does not
      hold of all edges so far is exactly what is pending. */
  lemma RebootRestores(s: State, acts: seq<Action>, upMs: u64, nowMs: u64, sha: Sha, upMs2: u64)
    requires s.phase.Idle? && LockActs(acts) == FlushActs(upMs, nowMs, true)
    ensures var f := After(s, acts);
      && f.phase.Idle? && !f.dirty && f.stored == Some(Encode(f.counters)) && Loaded(f.stored) == f.counters
      && Boot(f.stored, true, sha, upMs2).counters == Booted(f.counters, sha)
      && f.counters.uptime == Add32(s.uptimeAtBoot, Seconds(upMs)) && SameIdentity(s, f)
      && Add32(f.counters.presses, f.pressDelta + Bit(f.handPress)) == Add32(AllPresses(s), Reports(s.edge, Seen(s, acts)).0)
      && Add32(f.counters.mismatches, f.mismatchDelta + Bit(f.handMismatch))
           == Add32(AllMismatches(s), Reports(s.edge, Seen(s, acts)).1)
  {
    hide Encode, Decode, After, Seen, Reports, Seconds, LockActs, Act;
    var f := After(s, acts);
    SavedAmidObserver(s, acts, upMs, nowMs);
    StoredIsReadBack(f.counters);
    NoResetLocked(acts);
    IdentityStays(s, acts);
    Conserved(s, acts);
    assert Add32(f.counters.presses, f.pressDelta + Bit(f.handPress)) == AllPresses(f);
    assert Add32(f.counters.mismatches, f.mismatchDelta + Bit(f.handMismatch)) == AllMismatches(f);
    hide AllPresses, AllMismatches, Add32, Bit;
  }

  lemma SavedAmidObserver(s: State, acts: seq<Action>, upMs: u64, nowMs: u64)
    requires s.phase.Idle? && LockActs(acts) == FlushActs(upMs, nowMs, true)
    ensures var f := After(s, acts);
      && f.phase.Idle? && !f.dirty && f.stored == Some(Encode(f.counters))
      && f.counters.uptime == Add32(s.uptimeAtBoot, Seconds(upMs))
  {
    hide Encode, Decode, Act, After, Seconds, LockActs, Core;
    var k := FindLockAct(acts, 3);
    var before := acts[..k];
    AfterSplit(s, acts, k);
    assert FlushActs(upMs, nowMs, true)[..3] == FoldActs(upMs);
    FoldedAmidObserver(s, before, upMs);
    var t := After(s, before);
    SavedAct(t, nowMs);
    ObserverOnly(Act(t, acts[k]), acts[k + 1..]);
    CoreKeeps(Act(t, acts[k]), After(s, acts));
  }

  lemma SavedAct(s: State, nowMs: u64)
    requires s.phase.Idle?
    ensures Act(s, Save(nowMs, true)) ==
      s.(stored := Some(Encode(s.counters)), lastFlushMs := nowMs, flushes := s.flushes + 1, dirty := false)
  {
    hide Encode;
  }

  lemma FoldedAmidObserver(s: State, acts: seq<Action>, upMs: u64)
    requires s.phase.Idle? && LockActs(acts) == FoldActs(upMs)
    ensures var t := After(s, acts); t.phase.Idle? && t.counters.uptime == Add32(s.uptimeAtBoot, Seconds(upMs))
  {
    hide Encode, Decode, After, Seconds, LockActs, Core;
    var k := FindLockAct(acts, 2);
    var before, after := acts[..k], acts[k + 1..];
    AfterSplit(s, acts, k);
    var t := After(s, before);
    HalfFolded(s, before, upMs);
    NoResetLocked(before);
    IdentityStays(s, before);
    ObserverOnly(Act(t, acts[k]), after);
    CoreKeeps(Act(t, acts[k]), After(s, acts));
  }

  lemma CoreKeeps(s: State, t: State)
    requires Core(s) == Core(t)
    ensures s.phase == t.phase && s.counters == t.counters && s.stored == t.stored && s.dirty == t.dirty
  {
  }

  lemma HalfFolded(s: State, acts: seq<Action>, upMs: u64)
    requires s.phase.Idle? && LockActs(acts) == FoldActs(upMs)[..2]
    ensures After(s, acts).phase.TookBoth?
  {
    hide LockActs, Encode;
    TagsAgree(s, Core(s), acts);
    assert FoldActs(upMs)[..2] == [TakePresses] + [TakeMismatches];
    AfterConcat(Core(s), [TakePresses], [TakeMismatches]);
    AfterOne(Core(s), TakePresses);
    AfterOne(Act(Core(s), TakePresses), TakeMismatches);
  }

  // What resets and boots leave ------------------------------------------------------------------

  /** A flush with the observer interleaving in any way, whether or not its save works. */
  lemma FlushedAmidObserver(s: State, acts: seq<Action>, upMs: u64, nowMs: u64, ok: bool)
    requires s.phase.Idle? && LockActs(acts) == FlushActs(upMs, nowMs, ok)
    ensures var f := After(s, acts);
      && f.phase.Idle? && SameIdentity(s, f) && f.counters.uptime == Add32(s.uptimeAtBoot, Seconds(upMs))
  {
    hide Encode, Decode, After, Seconds, LockActs, Core;
    var k := FindLockAct(acts, 3);
    AfterSplit(s, acts, k);
    assert FlushActs(upMs, nowMs, ok)[..3] == FoldActs(upMs);
    FoldedAmidObserver(s, acts[..k], upMs);
    ObserverOnly(Act(After(s, acts[..k]), acts[k]), acts[k + 1..]);
    CoreKeeps(Act(After(s, acts[..k]), acts[k]), After(s, acts));
    NoResetLocked(acts);
    IdentityStays(s, acts);
  }

  /** Clearing the atomics, seen by nobody else. */
  lemma DroppedIdle(s: State, acts: seq<Action>)
    requires s.phase.Idle? && LockActs(acts) == [DropPresses, DropMismatches]
    ensures After(s, acts).phase.Idle?
  {
    hide Encode, LockActs;
    TagsAgree(s, s, acts);
    assert [DropPresses, DropMismatches] == [DropPresses] + [DropMismatches];
    AfterConcat(s, [DropPresses], [DropMismatches]);
    AfterOne(s, DropPresses);
    AfterOne(Act(s, DropPresses), DropMismatches);
  }

  /** A full reset, with the observer interleaving in any way and whether or not its save works, leaves a new
      unit's record of this build: no boots, flashes, updates or swaps, and powered time counted from the
      reset on. */
  lemma ResetAllRestartsUptime(s: State, acts: seq<Action>, sha: Sha, upMs: u64, upMs2: u64, nowMs: u64, ok: bool)
    requires s.phase.Idle? && LockActs(acts) == ResetAllActs(sha, upMs, upMs2, nowMs, ok)
    requires upMs <= upMs2 < WRAP * 1000
    ensures var f := After(s, acts);
      && f.phase.Idle? && f.counters.uptime == upMs2 / 1000 - upMs / 1000
      && f.counters == Counters(f.counters.presses, f.counters.mismatches, f.counters.uptime, 0, 0, 0, sha, 0)
      && CountsUptimeFrom(f, upMs)
  {
    hide Encode, Decode, Act, After, Seconds, LockActs, Core;
    var k := FindLockAct(acts, 2);
    var lock := ResetAllActs(sha, upMs, upMs2, nowMs, ok);
    assert lock[..2] == [DropPresses, DropMismatches] && lock[3..] == FlushActs(upMs2, nowMs, ok);
    AfterSplit(s, acts, k);
    DroppedIdle(s, acts[..k]);
    var b := After(s, acts[..k]);
    var z := Act(b, ZeroAll(sha, upMs));
    Zeroed(b, sha, upMs);
    FlushedAmidObserver(z, acts[k + 1..], upMs2, nowMs, ok);
    SecondsBetween(0, upMs, upMs2);
    NoMoreThan(upMs2 / 1000 - upMs / 1000);
    CountsOn(After(s, acts), upMs);
  }

  lemma NoMoreThan(n: nat)
    requires n < WRAP
    ensures n % WRAP == n
  {
  }

  lemma Zeroed(s: State, sha: Sha, upMs: u64)
    requires s.phase.Idle?
    ensures var z := Act(s, ZeroAll(sha, upMs));
      && z.phase.Idle? && z.counters == Counters(0, 0, 0, 0, 0, 0, sha, 0)
      && z.uptimeAtBoot == (0 + (WRAP - Seconds(upMs))) % WRAP
  {
    hide Encode;
  }

  /** Every later fold counts powered time from `since` on, until something is reset. */
  ghost predicate CountsUptimeFrom(s: State, since: u64) {
    forall rest: seq<Action>, t: u64 ::
      NoReset(rest) && After(s, rest).phase.TookBoth? && since <= t < WRAP * 1000 ==>
        Act(After(s, rest), AddTaken(t)).counters.uptime == t / 1000 - since / 1000
  }

  lemma CountsOn(s: State, since: u64)
    requires s.uptimeAtBoot == (0 + (WRAP - Seconds(since))) % WRAP
    ensures CountsUptimeFrom(s, since)
  {
    hide Encode, After, Seconds, Add32;
    forall rest: seq<Action>, t: u64 | NoReset(rest) && After(s, rest).phase.TookBoth? && since <= t < WRAP * 1000
      ensures Act(After(s, rest), AddTaken(t)).counters.uptime == t / 1000 - since / 1000
    {
      IdentityStays(s, rest);
      SecondsBetween(0, since, t);
      NoMoreThan(t / 1000 - since / 1000);
    }
  }

  /** A button reset, in any interleaving and whether or not its save works, counts one swap, up to 255, and
      restarts nothing but the two edge counts: powered time goes on. */
  lemma ResetButtonKeepsTheRest(s: State, acts: seq<Action>, upMs: u64, upMs2: u64, nowMs: u64, ok: bool)
    requires s.phase.Idle? && LockActs(acts) == ResetButtonActs(upMs, upMs2, nowMs, ok)
    ensures var f := After(s, acts);
      && f.phase.Idle? && f.uptimeAtBoot == s.uptimeAtBoot && f.counters.uptime == Add32(s.uptimeAtBoot, Seconds(upMs2))
      && f.counters.swaps == Min(s.counters.swaps + 1, 255)
      && f.counters.boots == s.counters.boots && f.counters.flashes == s.counters.flashes
      && f.counters.otas == s.counters.otas && f.counters.sha == s.counters.sha
  {
    hide Encode, Decode, After, Seconds, LockActs, Core;
    var k := FindLockAct(acts, 3);
    var lock := ResetButtonActs(upMs, upMs2, nowMs, ok);
    assert lock[..3] == FoldActs(upMs) && lock[4..] == FlushActs(upMs2, nowMs, ok);
    AfterSplit(s, acts, k);
    FoldedAmidObserver(s, acts[..k], upMs);
    NoResetLocked(acts[..k]);
    IdentityStays(s, acts[..k]);
    FlushedAmidObserver(Act(After(s, acts[..k]), ZeroButton), acts[k + 1..], upMs2, nowMs, ok);
  }

  /** A unit without a readable record starts a new one: this boot, and this build unless it is the blank one. */
  lemma NewUnitBoots(stored: Option<seq<u8>>, readable: bool, sha: Sha, upMs: u64)
    requires !readable || stored.None? || Decode(stored.value).None?
    ensures Boot(stored, readable, sha, upMs).counters
      == Counters(0, 0, 0, 1, if sha == [0, 0, 0, 0, 0, 0, 0, 0] then 0 else 1, 0, sha, 0)
    ensures CountsUptimeFrom(Boot(stored, readable, sha, upMs), upMs)
  {
    hide Encode, Decode;
    CountsOn(Boot(stored, readable, sha, upMs), upMs);
  }

  /** How many saves of a run worked, how many failed, and when the last was tried. */
  datatype Saves = Saves(worked: nat, failed: nat, last: u64)

  function SavesOf(s: State, acts: seq<Action>, from: Saves): Saves
    decreases |acts|
  {
    if acts == [] then from
    else
      var a := acts[0];
      SavesOf(Act(s, a), acts[1..],
              if !(a.Save? && Possible(s, a)) then from
              else if a.ok then Saves(from.worked + 1, from.failed, a.nowMs)
              else Saves(from.worked, from.failed + 1, a.nowMs))
  }

  /** Every save is counted once, as what it was, and the flush policy knows when the last was tried. */
  lemma {:induction false} SavesAreCounted(s: State, acts: seq<Action>)
    ensures var f := After(s, acts);
      Saves(f.flushes, f.flushFails, f.lastFlushMs) == SavesOf(s, acts, Saves(s.flushes, s.flushFails, s.lastFlushMs))
    decreases |acts|
  {
    hide Observed, Encode;
    if acts != [] {
      SavesAreCounted(Act(s, acts[0]), acts[1..]);
    }
  }

  // The code itself ------------------------------------------------------------------------------

  /** The counters in memory and in flash. Times and the result of a save come from outside. */
  class Keeper {
    const detector: Detector
    var pressDelta: u32
    var mismatchDelta: u32
    var counters: Counters
    var dirty: bool
    var uptimeAtBoot: u32
    var stored: Option<seq<u8>>
    var lastFlushMs: u64
    var flushes: nat
    var flushFails: nat

    /** Between calls nobody is in the middle of anything. */
    function View(): State
      reads this, detector
    {
      State(detector.e, false, false, pressDelta, mismatchDelta, Idle, counters, dirty, uptimeAtBoot,
            stored, lastFlushMs, flushes, flushFails)
    }

    /** Boot: load, count the boot and perhaps a reflash, and flush at once. */
    constructor (inFlash: Option<seq<u8>>, readable: bool, sha: Sha, upMs: u64, upMs2: u64, nowMs: u64, ok: bool)
      ensures View() == After(Boot(inFlash, readable, sha, upMs), FlushActs(upMs2, nowMs, ok))
      ensures fresh(detector)
    {
      detector := new Detector();
      pressDelta, mismatchDelta, dirty, lastFlushMs, flushes, flushFails := 0, 0, false, 0, 0, 0;
      stored := inFlash;
      counters := ZEROED;
      new;
      if readable && inFlash.Some? {
        var c := Decode(inFlash.value);
        if c.Some? {
          counters := c.value;
        }
      }
      uptimeAtBoot := (counters.uptime + (WRAP - Seconds(upMs))) % WRAP;
      counters := counters.(boots := Inc(counters.boots));
      if sha != counters.sha {
        counters := counters.(flashes := Inc(counters.flashes), sha := sha);
      }
      assert View() == Boot(inFlash, readable, sha, upMs);
      Flush(upMs2, nowMs, ok);
    }

    method Observe(o: Obs)
      modifies this`pressDelta, this`mismatchDelta, detector
      ensures View() == After(old(View()), [Detect(o), BumpPress, BumpMismatch])
    {
      hide Observed, Encode;
      AfterThree(View(), Detect(o), BumpPress, BumpMismatch);
      var out := detector.Observe(o, STOP);
      if out.press {
        pressDelta := Inc(pressDelta);
      }
      if out.mismatch {
        mismatchDelta := Inc(mismatchDelta);
      }
    }

    method Fold(upMs: u64)
      modifies this`pressDelta, this`mismatchDelta, this`counters, this`dirty
      ensures View() == After(old(View()), FoldActs(upMs))
    {
      FoldIsFolded(View(), upMs);
      var p := pressDelta;
      pressDelta := 0;
      var m := mismatchDelta;
      mismatchDelta := 0;
      if p != 0 || m != 0 {
        counters := counters.(presses := Add32(counters.presses, p), mismatches := Add32(counters.mismatches, m));
        dirty := true;
      }
      counters := counters.(uptime := Add32(uptimeAtBoot, Seconds(upMs)));
    }

    method Flush(upMs: u64, nowMs: u64, ok: bool)
      modifies this
      ensures View() == After(old(View()), FlushActs(upMs, nowMs, ok))
    {
      ghost var s := View();
      Fold(upMs);
      AfterConcat(s, FoldActs(upMs), [Save(nowMs, ok)]);
      AfterOne(View(), Save(nowMs, ok));
      var blob := Encode(counters);
      lastFlushMs := nowMs;
      if !ok {
        flushFails := flushFails + 1;
        return;
      }
      stored := Some(blob);
      flushes := flushes + 1;
      dirty := false;
    }

    /** The periodic poll: fold, and flush when the policy says so. Counts never stay unsaved past the
        minimum interval, nor anything past the maximum, unless a save was tried just now. */
    method Poll(upMs: u64, nowMs: u64, upMs2: u64, nowMs2: u64, ok: bool) returns (flushed: bool)
      modifies this
      ensures View() == After(old(View()), FoldActs(upMs) + if flushed then FlushActs(upMs2, nowMs2, ok) else [])
      ensures flushed <==>
        var since := Seconds(Sub64(nowMs, old(lastFlushMs)));
        since >= 600 || (since >= 60 && (old(dirty) || old(pressDelta) != 0 || old(mismatchDelta) != 0))
      ensures !flushed ==> Seconds(Sub64(nowMs, lastFlushMs)) < MAX_FLUSH_S
      ensures !flushed && dirty ==> Seconds(Sub64(nowMs, lastFlushMs)) < MIN_FLUSH_S
    {
      ghost var s := View();
      FoldIsFolded(s, upMs);
      Fold(upMs);
      assert View() == Folded(s, upMs);
      flushed := FlushDue(dirty, Seconds(Sub64(nowMs, lastFlushMs)), MIN_FLUSH_S, MAX_FLUSH_S);
      if flushed {
        Flush(upMs2, nowMs2, ok);
        AfterConcat(s, FoldActs(upMs), FlushActs(upMs2, nowMs2, ok));
      } else {
        assert FoldActs(upMs) + [] == FoldActs(upMs);
      }
    }

    method ResetButton(upMs: u64, upMs2: u64, nowMs: u64, ok: bool)
      modifies this
      ensures View() == After(old(View()), ResetButtonActs(upMs, upMs2, nowMs, ok))
    {
      ghost var s := View();
      Fold(upMs);
      AfterConcat(s, FoldActs(upMs), [ZeroButton]);
      AfterOne(View(), ZeroButton);
      counters := counters.(presses := 0, mismatches := 0);
      if counters.swaps < 255 {
        counters := counters.(swaps := counters.swaps + 1);
      }
      AfterConcat(s, FoldActs(upMs) + [ZeroButton], FlushActs(upMs2, nowMs, ok));
      Flush(upMs2, nowMs, ok);
    }

    method ResetAll(sha: Sha, upMs: u64, upMs2: u64, nowMs: u64, ok: bool)
      modifies this
      ensures View() == After(old(View()), ResetAllActs(sha, upMs, upMs2, nowMs, ok))
    {
      hide Observed, Decode, Encode, Swapped, FlushActs;
      ghost var s := View();
      AfterThree(s, DropPresses, DropMismatches, ZeroAll(sha, upMs));
      AfterConcat(s, [DropPresses, DropMismatches, ZeroAll(sha, upMs)], FlushActs(upMs2, nowMs, ok));
      pressDelta := 0;
      mismatchDelta := 0;
      counters := ZEROED.(sha := sha);
      uptimeAtBoot := (WRAP - Seconds(upMs)) % WRAP;
      Flush(upMs2, nowMs, ok);
    }
  }
}
