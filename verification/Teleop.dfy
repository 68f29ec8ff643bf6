/** Joystick teleoperation: arming, motion and the one stop every burst of motion owes. */
module Teleop {
  import opened Types

  type i16 = n: int | -0x8000 <= n < 0x8000

  const AXIS_MAX := 1000

  datatype Limits = Limits(maxLinear: real, maxAngular: real)

  datatype Input = Input(enable: bool, mod: bool, grasp: bool, x: i16, y: i16, rz: i16)

  datatype Twist = Twist(linearX: real, linearY: real, linearZ: real, angularX: real, angularY: real, angularZ: real)

  const ZERO := Twist(0.0, 0.0, 0.0, 0.0, 0.0, 0.0)

  datatype State = State(active: bool, blocked: bool, armed: bool, mod: bool, grasp: bool)

  const RESET := State(false, true, false, false, false)

  function Scale(v: i16, max: real): real {
    (if v < -AXIS_MAX then -AXIS_MAX else if v > AXIS_MAX then AXIS_MAX else v) as real * max / AXIS_MAX as real
  }

  predicate Centred(i: Input) { i.x == 0 && i.y == 0 && i.rz == 0 }

  function Drive(i: Input, lim: Limits): Twist {
    if i.mod then
      ZERO.(linearZ := Scale(i.y, lim.maxLinear), angularY := Scale(i.x, lim.maxAngular), angularX := Scale(i.rz, lim.maxAngular))
    else
      ZERO.(linearX := Scale(i.y, lim.maxLinear), linearY := Scale(i.x, lim.maxLinear), angularZ := Scale(i.rz, lim.maxAngular))
  }

  /** Publish the stop that is owed, if one is. */
  function Stopped(s: State): (State, Option<Twist>) {
    if s.active then (s.(active := false), Some(ZERO)) else (s, None)
  }

  /** One tick: the new state and the twist to publish, if any. */
  function Stepped(s: State, i: Input, lim: Limits): (State, Option<Twist>) {
    if s.blocked then (s.(blocked := i.enable), None)
    else
      var changed := !i.enable || i.mod != s.mod;
      var r := if changed then s.(armed := false, mod := i.mod) else s;
      if changed && (r.active || !i.enable) then Stopped(r)
      else if !r.armed then (r.(armed := Centred(i)), None)
      else if Centred(i) then Stopped(r)
      else (r.(active := true), Some(Drive(i, lim)))
  }

  function GraspStepped(s: State, i: Input): (State, Option<bool>) {
    if s.blocked || !i.enable || i.grasp == s.grasp then (s, None) else (s.(grasp := i.grasp), Some(i.grasp))
  }

  /** The state the joystick loop keeps. */
  class Stick {
    var active: bool
    var blocked: bool
    var armed: bool
    var mod: bool
    var grasp: bool

    function View(): State
      reads this
    {
      State(active, blocked, armed, mod, grasp)
    }

    constructor ()
      ensures View() == RESET
    {
      active, blocked, armed, mod, grasp := false, true, false, false, false;
    }

    /** Boot and link lost. */
    method Reset()
      modifies this
      ensures View() == RESET
    {
      active, blocked, armed, mod, grasp := false, true, false, false, false;
    }

    method Stop() returns (out: Option<Twist>)
      modifies this
      ensures (View(), out) == Stopped(old(View()))
    {
      if !active {
        return None;
      }
      active := false;
      return Some(ZERO);
    }

    method Step(i: Input, lim: Limits) returns (out: Option<Twist>)
      modifies this
      ensures (View(), out) == Stepped(old(View()), i, lim)
    {
      if blocked {
        blocked := i.enable;
        return None;
      }
      if !i.enable || i.mod != mod {
        armed := false;
        mod := i.mod;
        out := Stop();
        if out.Some? || !i.enable {
          return;
        }
      }
      if !armed {
        armed := Centred(i);
        return None;
      }
      if Centred(i) {
        out := Stop();
        return;
      }
      active := true;
      return Some(Drive(i, lim));
    }

    method GraspStep(i: Input) returns (out: Option<bool>)
      modifies this
      ensures (View(), out) == GraspStepped(old(View()), i)
    {
      if blocked || !i.enable || i.grasp == grasp {
        return None;
      }
      grasp := i.grasp;
      return Some(i.grasp);
    }
  }

  // Runs -----------------------------------------------------------------------------------------

  datatype Event = Tick(i: Input) | LinkLost

  /** One turn of the loop: the twist step, then the grasp step. */
  function Turned(s: State, i: Input, lim: Limits): State {
    GraspStepped(Stepped(s, i, lim).0, i).0
  }

  /** The state after a run of ticks from a reset. */
  function After(ins: seq<Input>, lim: Limits): State
    decreases |ins|
  {
    if ins == [] then RESET else Turned(After(ins[..|ins| - 1], lim), ins[|ins| - 1], lim)
  }

  /** What is published at tick n. */
  function OutAt(ins: seq<Input>, n: nat, lim: Limits): Option<Twist>
    requires n < |ins|
  {
    Stepped(After(ins[..n], lim), ins[n], lim).1
  }

  /** Tick n publishes motion rather than a stop or nothing. */
  predicate MotionAt(ins: seq<Input>, n: nat, lim: Limits)
    requires n < |ins|
  {
    OutAt(ins, n, lim).Some? && Stepped(After(ins[..n], lim), ins[n], lim).0.active
  }

  /** Enable has been seen off before tick n. */
  predicate Unblocked(ins: seq<Input>, n: nat)
    requires n <= |ins|
  {
    exists u :: 0 <= u < n && !ins[u].enable
  }

  /** Tick n moves the robot, read off the inputs alone: the stick is deflected, and some earlier tick armed
      with the switches steady since. */
  predicate Moves(ins: seq<Input>, n: nat)
    requires n < |ins|
    decreases n, 1
  {
    Deflected(ins[n]) && exists c :: 0 <= c < n && ArmedThrough(ins, c, n)
  }

  /** Some axis is off its rest position. */
  predicate Deflected(i: Input) { i.x != 0 || i.y != 0 || i.rz != 0 }

  /** Tick c arms: unblocked, enabled and centred, and not itself spent on the stop that a mod change in
      the middle of motion owes. */
  predicate Arms(ins: seq<Input>, c: nat)
    requires c < |ins|
    decreases c, 2
  {
    && Unblocked(ins, c) && ins[c].enable && !Deflected(ins[c])
    && !(c > 0 && ins[c].mod != ins[c - 1].mod && Moves(ins, c - 1))
  }

  /** Enabled, with the same mod, from tick c to before tick n. */
  predicate Steady(ins: seq<Input>, c: nat, n: nat)
    requires c < n <= |ins|
  {
    forall j :: c <= j < n ==> ins[j].enable && ins[j].mod == ins[c].mod
  }

  predicate ArmedBy(ins: seq<Input>, c: nat, n: nat)
    requires c < n <= |ins|
    decreases c, 3
  {
    Arms(ins, c) && Steady(ins, c, n)
  }

  /** Armed at tick c and steady up to and including tick n. */
  predicate ArmedThrough(ins: seq<Input>, c: nat, n: nat)
    requires c <= n < |ins|
    decreases c, 4
  {
    ArmedBy(ins, c, n + 1)
  }

  predicate Armed(ins: seq<Input>, n: nat)
    requires n <= |ins|
  {
    exists c :: 0 <= c < n && ArmedBy(ins, c, n)
  }

  /** What the state knows about the history. */
  predicate Knows(s: State, ins: seq<Input>, n: nat)
    requires n <= |ins|
  {
    && (s.blocked <==> !Unblocked(ins, n))
    && (s.active <==> n > 0 && Moves(ins, n - 1))
    && (s.armed <==> Armed(ins, n))
    && (s.active ==> s.armed)
    && (s.armed ==> !s.blocked && n > 0 && ins[n - 1].enable && s.mod == ins[n - 1].mod)
  }

  lemma PrefixState(ins: seq<Input>, n: nat, lim: Limits)
    requires n < |ins|
    ensures After(ins[..n + 1], lim) == Turned(After(ins[..n], lim), ins[n], lim)
  {
    assert ins[..n + 1][..n] == ins[..n];
  }

  lemma UnblockedStep(ins: seq<Input>, n: nat)
    requires n < |ins|
    ensures Unblocked(ins, n + 1) <==> Unblocked(ins, n) || !ins[n].enable
  {
  }

  lemma ArmedStep(ins: seq<Input>, n: nat)
    requires n < |ins|
    ensures Armed(ins, n + 1) <==>
      || Arms(ins, n)
      || (n > 0 && Armed(ins, n) && ins[n].enable && ins[n].mod == ins[n - 1].mod)
  {
    hide Arms;
    if Arms(ins, n) {
      ArmsEnabled(ins, n);
      assert ArmedBy(ins, n, n + 1);
    } else if n > 0 && Armed(ins, n) && ins[n].enable && ins[n].mod == ins[n - 1].mod {
      var c :| 0 <= c < n && ArmedBy(ins, c, n);
      assert ins[n - 1].mod == ins[c].mod;
      assert ArmedBy(ins, c, n + 1);
    }
    if Armed(ins, n + 1) {
      var c :| 0 <= c < n + 1 && ArmedBy(ins, c, n + 1);
      if c < n {
        assert ArmedBy(ins, c, n);
        assert ins[n].mod == ins[c].mod == ins[n - 1].mod;
      }
    }
  }

  lemma ArmsEnabled(ins: seq<Input>, c: nat)
    requires c < |ins| && Arms(ins, c)
    ensures ins[c].enable
  {
  }

  lemma ThroughMeans(ins: seq<Input>, c: nat, n: nat)
    requires c <= n < |ins|
    ensures ArmedThrough(ins, c, n) <==> Arms(ins, c) && Steady(ins, c, n + 1)
    ensures c < n ==> (ArmedBy(ins, c, n) <==> Arms(ins, c) && Steady(ins, c, n))
  {
    hide Arms, Steady;
  }

  /** Moving is staying armed and deflecting the stick. */
  lemma MovesStep(ins: seq<Input>, n: nat)
    requires n < |ins|
    ensures Moves(ins, n) <==>
      n > 0 && Armed(ins, n) && ins[n].enable && ins[n].mod == ins[n - 1].mod && Deflected(ins[n])
  {
    hide Arms, Deflected;
    if n > 0 && Armed(ins, n) && ins[n].enable && ins[n].mod == ins[n - 1].mod {
      var c :| 0 <= c < n && ArmedBy(ins, c, n);
      assert ins[n - 1].mod == ins[c].mod;
      ThroughMeans(ins, c, n);
    }
    if c :| 0 <= c < n && ArmedThrough(ins, c, n) {
      ThroughMeans(ins, c, n);
      assert ArmedBy(ins, c, n);
      assert ins[n].mod == ins[c].mod == ins[n - 1].mod;
    }
  }

  lemma {:induction false} StateKnows(ins: seq<Input>, n: nat, lim: Limits)
    requires n <= |ins|
    ensures Knows(After(ins[..n], lim), ins, n)
  {
    hide Drive, Moves, Armed, Unblocked, After, Turned, Knows;
    if n == 0 {
      assert ins[..0] == [];
      NoTicks(lim);
      AtReset(ins);
    } else {
      StateKnows(ins, n - 1, lim);
      PrefixState(ins, n - 1, lim);
      KnowsMore(After(ins[..n - 1], lim), ins, n - 1, lim);
    }
  }

  lemma AtReset(ins: seq<Input>)
    ensures Knows(RESET, ins, 0)
  {
  }

  lemma ArmsAtRest(ins: seq<Input>, c: nat)
    requires c < |ins|
    ensures Centred(ins[c]) <==> !Deflected(ins[c])
  {
  }

  lemma KnowsMore(s: State, ins: seq<Input>, n: nat, lim: Limits)
    requires n < |ins| && Knows(s, ins, n)
    ensures Knows(Turned(s, ins[n], lim), ins, n + 1)
  {
    hide Drive, After, Unblocked, Armed, Steady, Centred, Moves;
    UnblockedStep(ins, n);
    ArmedStep(ins, n);
    ArmsAtRest(ins, n);
    MovesStep(ins, n);
  }

  /** Motion exactly when armed: in every run of ticks since a reset, tick n drives the robot iff the stick
      is deflected and, since enable was last off and mod last changed, some tick had it centred while
      enabled, enable having been seen off before that. The one exception is spelled out in Arms: a mod
      change in the middle of motion spends its tick on the owed stop and does not arm. Only the inputs
      matter: neither the limits nor anything published. */
  lemma MotionExactlyWhenArmed(ins: seq<Input>, n: nat, lim: Limits)
    requires n < |ins|
    ensures MotionAt(ins, n, lim) <==> Moves(ins, n)
  {
    hide Drive, After, Unblocked, Armed, Moves;
    StateKnows(ins, n, lim);
    MovesStep(ins, n);
  }

  /** A mod change in the middle of motion does not arm, even with the stick centred: from the next tick on
      the stick must be centred again. */
  lemma ModChangeSpendsItsTick(ins: seq<Input>, n: nat, lim: Limits)
    requires n + 2 < |ins| && MotionAt(ins, n, lim) && ins[n + 1].enable && ins[n + 1].mod != ins[n].mod
    ensures OutAt(ins, n + 1, lim) == Some(ZERO) && !MotionAt(ins, n + 1, lim) && !MotionAt(ins, n + 2, lim)
  {
    hide Drive, After, Unblocked, Armed, Moves, Centred;
    MotionExactlyWhenArmed(ins, n, lim);
    MotionExactlyWhenArmed(ins, n + 1, lim);
    MotionExactlyWhenArmed(ins, n + 2, lim);
    MovesStep(ins, n);
    MovesStep(ins, n + 1);
    MovesStep(ins, n + 2);
    ArmedStep(ins, n + 1);
    StateKnows(ins, n + 1, lim);
  }

  /** A stop is published exactly at the tick after motion that is not itself motion: motion is never
      followed by silence, each burst ends in one all-zero twist, and no stop is sent otherwise. */
  lemma OneStopPerBurst(ins: seq<Input>, n: nat, lim: Limits)
    requires n < |ins|
    ensures OutAt(ins, n, lim).Some? && !MotionAt(ins, n, lim)
      <==> n > 0 && MotionAt(ins, n - 1, lim) && !MotionAt(ins, n, lim)
    ensures OutAt(ins, n, lim).Some? && !MotionAt(ins, n, lim) ==> OutAt(ins, n, lim) == Some(ZERO)
    ensures MotionAt(ins, n, lim) ==> OutAt(ins, n, lim) == Some(Drive(ins[n], lim))
  {
    hide Drive, After, Unblocked, Armed, Moves;
    StateKnows(ins, n, lim);
    if n > 0 {
      MotionExactlyWhenArmed(ins, n - 1, lim);
    }
  }

  lemma ScaleZero(v: i16, max: real)
    ensures Scale(v, max) == 0.0 <==> v == 0 || max == 0.0
    ensures max >= 0.0 ==> -max <= Scale(v, max) <= max
  {
    var r := (if v < -AXIS_MAX then -AXIS_MAX else if v > AXIS_MAX then AXIS_MAX else v) as real;
    if max >= 0.0 {
      assert -1000.0 <= r <= 1000.0;
      ProductSign(1000.0 - r, max);
      ProductSign(r + 1000.0, max);
    }
  }

  lemma ProductSign(a: real, b: real)
    requires a >= 0.0 && b >= 0.0
    ensures a * b >= 0.0
  {
  }

  predicate Within(t: Twist, lim: Limits) {
    && -lim.maxLinear <= t.linearX <= lim.maxLinear && -lim.maxLinear <= t.linearY <= lim.maxLinear
    && -lim.maxLinear <= t.linearZ <= lim.maxLinear && -lim.maxAngular <= t.angularX <= lim.maxAngular
    && -lim.maxAngular <= t.angularY <= lim.maxAngular && -lim.maxAngular <= t.angularZ <= lim.maxAngular
  }

  /** Whatever the axes report, no published twist exceeds the limits. */
  lemma PublishedWithinLimits(ins: seq<Input>, n: nat, lim: Limits)
    requires n < |ins| && lim.maxLinear >= 0.0 && lim.maxAngular >= 0.0
    ensures OutAt(ins, n, lim).Some? ==> Within(OutAt(ins, n, lim).value, lim)
  {
    hide Scale, After;
    var i := ins[n];
    ScaleZero(i.x, lim.maxLinear);
    ScaleZero(i.x, lim.maxAngular);
    ScaleZero(i.y, lim.maxLinear);
    ScaleZero(i.rz, lim.maxAngular);
  }

  /** With limits that are not zero, motion is never an all-zero twist, so an all-zero twist is a stop. */
  lemma MotionIsNotZero(ins: seq<Input>, n: nat, lim: Limits)
    requires n < |ins| && lim.maxLinear > 0.0 && lim.maxAngular > 0.0
    ensures OutAt(ins, n, lim) == Some(ZERO) <==> n > 0 && MotionAt(ins, n - 1, lim) && !MotionAt(ins, n, lim)
  {
    hide Scale, After;
    OneStopPerBurst(ins, n, lim);
    var i := ins[n];
    ScaleZero(i.x, lim.maxLinear);
    ScaleZero(i.x, lim.maxAngular);
    ScaleZero(i.y, lim.maxLinear);
    ScaleZero(i.rz, lim.maxAngular);
    if MotionAt(ins, n, lim) {
      MotionExactlyWhenArmed(ins, n, lim);
      MovesStep(ins, n);
    }
  }

  /** A component follows its axis: in proportion up to full deflection, and the full limit from there on. */
  predicate Follows(component: real, axis: i16, max: real) {
    && (component > 0.0 <==> axis > 0) && (component < 0.0 <==> axis < 0)
    && (axis >= 1000 ==> component == max) && (axis <= -1000 ==> component == -max)
    && (-1000 <= axis <= 1000 ==> component * 1000.0 == axis as real * max)
  }

  lemma ScaleFollows(v: i16, max: real)
    requires max > 0.0
    ensures Follows(Scale(v, max), v, max)
  {
    var r := (if v < -AXIS_MAX then -AXIS_MAX else if v > AXIS_MAX then AXIS_MAX else v) as real;
    if v > 0 {
      ProductSign(r, max);
    } else {
      ProductSign(-r, max);
      assert r * max == -(-r * max);
    }
    ScaleZero(v, max);
  }

  /** Which stick axis drives what: forward, sideways and yaw, or with mod held lift, pitch and roll, and
      never anything else. */
  lemma MotionFollowsTheStick(ins: seq<Input>, n: nat, lim: Limits)
    requires n < |ins| && MotionAt(ins, n, lim) && lim.maxLinear > 0.0 && lim.maxAngular > 0.0
    ensures var t, i := OutAt(ins, n, lim).value, ins[n];
      if i.mod then
        && Follows(t.linearZ, i.y, lim.maxLinear) && Follows(t.angularY, i.x, lim.maxAngular)
        && Follows(t.angularX, i.rz, lim.maxAngular) && t.linearX == t.linearY == t.angularZ == 0.0
      else
        && Follows(t.linearX, i.y, lim.maxLinear) && Follows(t.linearY, i.x, lim.maxLinear)
        && Follows(t.angularZ, i.rz, lim.maxAngular) && t.linearZ == t.angularX == t.angularY == 0.0
  {
    hide Scale, After, Follows;
    OneStopPerBurst(ins, n, lim);
    var i := ins[n];
    ScaleFollows(i.x, lim.maxLinear);
    ScaleFollows(i.x, lim.maxAngular);
    ScaleFollows(i.y, lim.maxLinear);
    ScaleFollows(i.rz, lim.maxAngular);
  }

  /** The grasp switch at the last live tick before n, or released if there was none. */
  function LastGrasp(ins: seq<Input>, n: nat): bool
    requires n <= |ins|
  {
    if n == 0 then false
    else if Unblocked(ins, n - 1) && ins[n - 1].enable then ins[n - 1].grasp
    else LastGrasp(ins, n - 1)
  }

  function GraspAt(ins: seq<Input>, n: nat, lim: Limits): Option<bool>
    requires n < |ins|
  {
    GraspStepped(Stepped(After(ins[..n], lim), ins[n], lim).0, ins[n]).1
  }

  lemma NoTicks(lim: Limits)
    ensures After([], lim) == RESET
  {
  }

  lemma {:induction false} GraspState(ins: seq<Input>, n: nat, lim: Limits)
    requires n <= |ins|
    ensures After(ins[..n], lim).grasp == LastGrasp(ins, n)
  {
    hide Drive, Unblocked, Armed, After, Centred, Moves;
    if n == 0 {
      assert ins[..0] == [];
      NoTicks(lim);
    } else {
      GraspState(ins, n - 1, lim);
      PrefixState(ins, n - 1, lim);
      StateKnows(ins, n - 1, lim);
    }
  }

  /** The gripper is commanded exactly when, live and enabled, its switch differs from the last live one:
      it ends up where the switch is, and is never told the same thing twice. */
  lemma GraspFollowsSwitch(ins: seq<Input>, n: nat, lim: Limits)
    requires n < |ins|
    ensures GraspAt(ins, n, lim) ==
      if Unblocked(ins, n) && ins[n].enable && ins[n].grasp != LastGrasp(ins, n) then Some(ins[n].grasp) else None
  {
    hide Drive, Unblocked, Armed, After, Moves;
    GraspState(ins, n, lim);
    StateKnows(ins, n, lim);
  }

  /** The ticks since the last link loss. */
  function SinceReset(events: seq<Event>): seq<Input>
    decreases |events|
  {
    if events == [] || events[|events| - 1].LinkLost? then []
    else SinceReset(events[..|events| - 1]) + [events[|events| - 1].i]
  }

  function RunOf(events: seq<Event>, lim: Limits): State
    decreases |events|
  {
    if events == [] then RESET
    else match events[|events| - 1]
    case Tick(i) => Turned(RunOf(events[..|events| - 1], lim), i, lim)
    case LinkLost => RESET
  }

  /** Nothing before a link loss is remembered: every run is the run of the ticks since the last one. */
  lemma {:induction false} OnlySinceReset(events: seq<Event>, lim: Limits)
    ensures RunOf(events, lim) == After(SinceReset(events), lim)
    decreases |events|
  {
    hide Turned;
    if events != [] && events[|events| - 1].Tick? {
      var before := SinceReset(events[..|events| - 1]);
      OnlySinceReset(events[..|events| - 1], lim);
      assert (before + [events[|events| - 1].i])[..|before|] == before;
    }
  }

  // Calibration ----------------------------------------------------------------------------------

  /** Storing an int in an int16_t. */
  function Narrow(v: int): i16 { (v + 0x8000) % 0x1_0000 - 0x8000 }

  function TrueSpan(rest: i16, seenMin: i16, seenMax: i16): int {
    if rest - seenMin < seenMax - rest then rest - seenMin else seenMax - rest
  }

  function Calibrated(rest: i16, seenMin: i16, seenMax: i16, minSpan: i16): Option<(i16, i16)> {
    var span := Narrow(TrueSpan(rest, seenMin, seenMax));
    if span < minSpan then None else Some((Narrow(rest - span), Narrow(rest + span)))
  }

  /** What the header promises: the largest span about rest that fits, if both sides reach minSpan. */
  function Promised(rest: i16, seenMin: i16, seenMax: i16, minSpan: i16): Option<(int, int)> {
    var span := TrueSpan(rest, seenMin, seenMax);
    if span < minSpan then None else Some((rest - span, rest + span))
  }

  /** A span reaches past neither end exactly when it is at most the true one. */
  lemma TrueSpanIsLargest(rest: i16, seenMin: i16, seenMax: i16, span: int)
    ensures seenMin <= rest - span && rest + span <= seenMax <==> span <= TrueSpan(rest, seenMin, seenMax)
  {
  }

  /** The promise is kept exactly when no 16-bit store wraps on the accepting path. */
  lemma CalibratedExactlyWhen(rest: i16, seenMin: i16, seenMax: i16, minSpan: i16)
    ensures var span := TrueSpan(rest, seenMin, seenMax);
      var code := Calibrated(rest, seenMin, seenMax, minSpan);
      var ideal := Promised(rest, seenMin, seenMax, minSpan);
      ((code.None? && ideal.None?) || (code.Some? && ideal.Some? && code.value.0 == ideal.value.0 && code.value.1 == ideal.value.1))
      <==> && !(span < -0x8000 && span + 0x1_0000 >= minSpan)
           && !(minSpan <= span < 0 && (rest - span >= 0x8000 || rest + span < -0x8000))
  {
  }

  /** A rest position inside the swept range, which is what the callers pass, never wraps. */
  lemma InsideNeverWraps(rest: i16, seenMin: i16, seenMax: i16, minSpan: i16)
    requires seenMin <= rest <= seenMax
    ensures Calibrated(rest, seenMin, seenMax, minSpan).Some? <==> TrueSpan(rest, seenMin, seenMax) >= minSpan
    ensures Calibrated(rest, seenMin, seenMax, minSpan).Some? ==>
      var (lo, hi) := Calibrated(rest, seenMin, seenMax, minSpan).value;
      seenMin <= lo <= rest <= hi <= seenMax && rest - lo == hi - rest == TrueSpan(rest, seenMin, seenMax)
  {
    CalibratedExactlyWhen(rest, seenMin, seenMax, minSpan);
  }

  /** A rest position far outside the swept range is accepted with a span of 1. */
  lemma WrappedSpanWitness()
    ensures Calibrated(-0x8000, 0x7fff, 0x7fff, 1) == Some((0x7fff, -0x7fff))
    ensures Promised(-0x8000, 0x7fff, 0x7fff, 1) == None
  {
  }
}
