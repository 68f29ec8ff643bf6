/** What the lifetime counters see of a comparator run: the verdict pairs of its on-time, primed ticks. */
module Observer {
  import opened Types
  import opened Wire
  import opened Estop
  import opened Ticks
  import HealthLogic
  import Health

  function ObsOf(r: Report): HealthLogic.Obs { HealthLogic.Obs(r.gen % 0x1_0000_0000, Code(r.v0), Code(r.v1)) }

  function ObsOfAll(rs: seq<Report>): seq<HealthLogic.Obs> {
    seq(|rs|, i requires 0 <= i < |rs| => ObsOf(rs[i]))
  }

  /** Everything the observer is told in a run from boot. */
  ghost function Observations(w: World, es: seq<Event>): seq<HealthLogic.Obs>
    requires Wellformed(w)
  {
    ObsOfAll(ReportsDuring(w, es, 0))
  }

  /** A reported tick reads as a press level exactly when neither channel is armed, and as a mismatch level
      exactly when one is and the other is not. */
  lemma LevelsAreVerdicts(w: World, input: TickInput, gen: nat)
    requires Wellformed(w)
    ensures forall r :: r in ReportAt(w, input, gen) ==>
      var armed0, armed1 := LastThreeHealthy(Sampled(w, input, 0)), LastThreeHealthy(Sampled(w, input, 1));
      && (HealthLogic.BothStop(ObsOf(r), Health.STOP) <==> !armed0 && !armed1)
      && (HealthLogic.Differ(ObsOf(r), Health.STOP) <==> armed0 != armed1)
  {
    hide LastThreeHealthy, Sampled, OutcomeOf, Reported;
  }

  lemma {:induction false} ReportedTicksGrow(w: World, es: seq<Event>)
    requires Wellformed(w)
    ensures var rs := ReportsDuring(w, es, 0);
      && (forall r :: r in rs ==> r.gen <= TickCount(es))
      && (forall i :: 0 < i < |rs| ==> rs[i - 1].gen < rs[i].gen)
  {
    hide ReportAt, Run, HandedDuring, ReportsDuring, TickCount;
    RunNothing(w, 0);
    if es != [] {
      var before, e := es[..|es| - 1], es[|es| - 1];
      ReportedTicksGrow(w, before);
      assert before + [e] == es;
      RunSnoc(w, before, e, 0);
      var earlier := ReportsDuring(w, before, 0);
      if e.Tick? {
        ReportAtGen(Run(w, before), e.input, TickCount(es));
        OneLater(earlier, ReportAt(Run(w, before), e.input, TickCount(es)), TickCount(es));
      }
    }
  }

  lemma OneLater(rs: seq<Report>, more: seq<Report>, gen: nat)
    requires |more| <= 1 && (forall r :: r in more ==> r.gen == gen) && forall r :: r in rs ==> r.gen < gen
    requires forall i :: 0 < i < |rs| ==> rs[i - 1].gen < rs[i].gen
    ensures var all := rs + more;
      && (forall r :: r in all ==> r.gen <= gen)
      && (forall i :: 0 < i < |all| ==> all[i - 1].gen < all[i].gen)
  {
    assert rs != [] ==> rs[|rs| - 1] in rs;
    assert more != [] ==> more[0] in more;
  }

  lemma ObservedTicksDiffer(w: World, es: seq<Event>)
    requires Wellformed(w) && TickCount(es) < 0x1_0000_0000
    ensures HealthLogic.Distinct(Observations(w, es))
  {
    hide ReportsDuring;
    ReportedTicksGrow(w, es);
    var rs := ReportsDuring(w, es, 0);
    forall i | 0 < i < |rs| ensures Observations(w, es)[i - 1].tick != Observations(w, es)[i].tick {
      assert rs[i] in rs && rs[i - 1] in rs;
    }
  }

  /** End to end: with the counters observing a comparator run, in any interleaving with folds and flushes,
      what they hold is what was loaded plus one per tick at which both channels came to STOP, the first
      reported tick being only the baseline. */
  lemma CountsTheSwitch(w: World, es: seq<Event>, s: Health.State, acts: seq<Health.Action>)
    requires Wellformed(w) && TickCount(es) < 0x1_0000_0000
    requires s.edge == HealthLogic.BLANK && !s.handPress && !s.handMismatch && s.phase.Idle?
    requires s.pressDelta == s.mismatchDelta == 0
    requires Health.NoReset(acts) && Health.Seen(s, acts) == Observations(w, es)
    ensures Health.AllPresses(Health.After(s, acts)) ==
      Add32(s.counters.presses, |HealthLogic.Presses(Observations(w, es), Health.STOP)|)
    ensures Health.AllMismatches(Health.After(s, acts)) ==
      Add32(s.counters.mismatches, |HealthLogic.Mismatches(Observations(w, es), Health.STOP)|)
  {
    hide Observations, Health.Seen, Health.After, HealthLogic.Presses, HealthLogic.Mismatches;
    ObservedTicksDiffer(w, es);
    Health.CountsFromBoot(s, acts);
  }
}
