/** The persistence filter behind the purple ring: a mismatch counter must keep advancing, window after
    window, before the ring shows it. */
module MismatchFilter {
  import opened Types

  const WINDOW_MS := 250
  const PERSIST := 3
  const HOLD_MS := 300

  datatype State = State(lastCount: u32, windowStart: u64, advanced: bool, streak: nat, until: u64)

  datatype Frame = Frame(count: u32, now: u64)

  /** When a ring lit at this time clears; the sum wraps, as in C. */
  function Hold(now: u64): u64 { (now + HOLD_MS) % 0x1_0000_0000_0000_0000 }

  function Initial(count: u32): State { State(count, 0, false, 0, 0) }

  /** The filter's first half: has the counter advanced? */
  function Noticed(s: State, f: Frame): State {
    if f.count == s.lastCount then s
    else s.(lastCount := f.count, advanced := true, until := if s.streak >= PERSIST then Hold(f.now) else s.until)
  }

  /** The second half: close the window if it is long enough. The difference is unsigned, as in C. */
  function ClosedAt(s: State, f: Frame): State {
    if Sub64(f.now, s.windowStart) < WINDOW_MS then s
    else
      var streak := if !s.advanced then 0 else if s.streak < PERSIST then s.streak + 1 else s.streak;
      s.(streak := streak, until := if s.advanced && streak >= PERSIST then Hold(f.now) else s.until,
         advanced := false, windowStart := f.now)
  }

  function Updated(s: State, f: Frame): State { ClosedAt(Noticed(s, f), f) }

  class Filter {
    var s: State

    constructor (count: u32)
      ensures s == Initial(count)
    {
      s := Initial(count);
    }

    method Update(count: u32, now: u64) returns (show: bool)
      modifies this
      ensures s == Updated(old(s), Frame(count, now)) && show == (now < s.until)
    {
      if count != s.lastCount {
        s := s.(lastCount := count, advanced := true);
        if s.streak >= PERSIST {
          s := s.(until := Hold(now));
        }
      }
      if Sub64(now, s.windowStart) >= WINDOW_MS {
        if s.advanced {
          if s.streak < PERSIST {
            s := s.(streak := s.streak + 1);
          }
          if s.streak >= PERSIST {
            s := s.(until := Hold(now));
          }
        } else {
          s := s.(streak := 0);
        }
        s := s.(advanced := false, windowStart := now);
      }
      return now < s.until;
    }
  }

  function After(count: u32, fs: seq<Frame>): State
    decreases |fs|
  {
    if fs == [] then Initial(count) else Updated(After(count, fs[..|fs| - 1]), fs[|fs| - 1])
  }

  predicate Shows(count: u32, fs: seq<Frame>, n: nat)
    requires n < |fs|
  {
    fs[n].now < After(count, fs[..n + 1]).until
  }

  predicate Ordered(fs: seq<Frame>) { forall i, j :: 0 <= i <= j < |fs| ==> fs[i].now <= fs[j].now }

  // What a history means, said without the filter's state ------------------------------------------

  /** The counter moved at frame i. */
  predicate Advances(count: u32, fs: seq<Frame>, i: nat)
    requires i < |fs|
  {
    fs[i].count != if i == 0 then count else fs[i - 1].count
  }

  /** Frame i closes a window: 250 ms have gone by since the last frame that did (or since boot). */
  predicate Closes(fs: seq<Frame>, i: nat)
    requires i < |fs|
    decreases i, 1
  {
    fs[i].now - (if LastClose(fs, i) < 0 then 0 else fs[LastClose(fs, i)].now) >= 250
  }

  /** The last frame before n that closed a window; -1 if there is none. */
  function LastClose(fs: seq<Frame>, n: nat): (c: int)
    requires n <= |fs|
    ensures -1 <= c < n
    ensures c >= 0 ==> Closes(fs, c)
    ensures forall k :: c < k < n ==> !Closes(fs, k)
    decreases n, 0
  {
    if n == 0 then -1 else if Closes(fs, n - 1) then n - 1 else LastClose(fs, n - 1)
  }

  /** The counter moved at some frame after `from` and before n. */
  predicate AdvancedIn(count: u32, fs: seq<Frame>, from: int, n: nat)
    requires -1 <= from && n <= |fs|
  {
    exists k :: from < k < n && Advances(count, fs, k)
  }

  /** The window that frame c closed saw the counter move. */
  predicate Advanced(count: u32, fs: seq<Frame>, c: nat)
    requires c < |fs|
  {
    AdvancedIn(count, fs, LastClose(fs, c), c + 1)
  }

  /** How many windows in a row, up to the last one closed before n, saw it move. */
  function Streak(count: u32, fs: seq<Frame>, n: nat): nat
    requires n <= |fs|
  {
    var c := LastClose(fs, n);
    if c < 0 || !Advanced(count, fs, c) then 0 else 1 + Streak(count, fs, c)
  }

  /** Frame m keeps the ring purple for 300 ms: the counter moves after three advanced windows in a row, or
      the third such window closes. */
  predicate Triggers(count: u32, fs: seq<Frame>, m: nat)
    requires m < |fs|
  {
    || (Advances(count, fs, m) && Streak(count, fs, m) >= 3)
    || (Closes(fs, m) && Streak(count, fs, m + 1) >= 3)
  }

  /** What the state knows about the first n frames: the open window and the streak. */
  predicate KnowsWindows(s: State, count: u32, fs: seq<Frame>, n: nat)
    requires n <= |fs|
  {
    var c := LastClose(fs, n);
    && s.lastCount == (if n == 0 then count else fs[n - 1].count)
    && s.windowStart == (if c < 0 then 0 else fs[c].now)
    && s.advanced == AdvancedIn(count, fs, c, n)
    && s.streak == (if Streak(count, fs, n) < PERSIST then Streak(count, fs, n) else PERSIST)
  }

  /** The last frame before n that triggered; -1 if there is none. */
  function LastTrigger(count: u32, fs: seq<Frame>, n: nat): (m: int)
    requires n <= |fs|
    ensures -1 <= m < n
    ensures m >= 0 ==> Triggers(count, fs, m)
    ensures forall k :: m < k < n ==> !Triggers(count, fs, k)
  {
    if n == 0 then -1 else if Triggers(count, fs, n - 1) then n - 1 else LastTrigger(count, fs, n - 1)
  }

  /** ... and how long the last trigger keeps the ring purple. */
  predicate KnowsUntil(s: State, count: u32, fs: seq<Frame>, n: nat)
    requires n <= |fs|
  {
    var m := LastTrigger(count, fs, n);
    s.until == if m < 0 then 0 else Hold(fs[m].now)
  }

  lemma AdvancedInStep(count: u32, fs: seq<Frame>, from: int, n: nat)
    requires -1 <= from && n < |fs|
    ensures from < n ==> (AdvancedIn(count, fs, from, n + 1) <==> AdvancedIn(count, fs, from, n) || Advances(count, fs, n))
    ensures !AdvancedIn(count, fs, n, n + 1)
  {
    hide Advances;
    if from < n && AdvancedIn(count, fs, from, n + 1) {
      var k :| from < k < n + 1 && Advances(count, fs, k);
      assert k < n ==> AdvancedIn(count, fs, from, n);
    }
  }

  lemma WindowsMore(s: State, count: u32, fs: seq<Frame>, n: nat)
    requires n < |fs| && Ordered(fs) && KnowsWindows(s, count, fs, n)
    ensures KnowsWindows(Updated(s, fs[n]), count, fs, n + 1)
  {
    hide AdvancedIn, Streak;
    AdvancedInStep(count, fs, LastClose(fs, n), n);
    StreakStep(count, fs, n);
  }

  lemma StreakStep(count: u32, fs: seq<Frame>, n: nat)
    requires n < |fs|
    ensures Streak(count, fs, n + 1) ==
      if !Closes(fs, n) then Streak(count, fs, n)
      else if Advanced(count, fs, n) then 1 + Streak(count, fs, n)
      else 0
  {
    hide Closes, Advanced;
  }

  lemma UntilStep(s: State, count: u32, fs: seq<Frame>, n: nat)
    requires n < |fs| && Ordered(fs) && KnowsWindows(s, count, fs, n)
    ensures var s' := Updated(s, fs[n]);
      && (Triggers(count, fs, n) ==> s'.until == Hold(fs[n].now))
      && (!Triggers(count, fs, n) ==> s'.until == s.until)
  {
    hide AdvancedIn, Streak;
    AdvancedInStep(count, fs, LastClose(fs, n), n);
    StreakStep(count, fs, n);
  }

  lemma UntilMore(s: State, count: u32, fs: seq<Frame>, n: nat)
    requires n < |fs| && Ordered(fs) && KnowsWindows(s, count, fs, n) && KnowsUntil(s, count, fs, n)
    ensures KnowsUntil(Updated(s, fs[n]), count, fs, n + 1)
  {
    hide KnowsWindows, Triggers, Updated, Hold;
    UntilStep(s, count, fs, n);
  }

  lemma {:induction false} StateKnows(count: u32, fs: seq<Frame>, n: nat)
    requires n <= |fs| && Ordered(fs)
    ensures KnowsWindows(After(count, fs[..n]), count, fs, n) && KnowsUntil(After(count, fs[..n]), count, fs, n)
  {
    hide Updated, KnowsWindows, KnowsUntil, Ordered;
    if n == 0 {
      assert fs[..0] == [];
      NothingYet(count, fs);
    } else {
      StateKnows(count, fs, n - 1);
      assert fs[..n][..n - 1] == fs[..n - 1];
      WindowsMore(After(count, fs[..n - 1]), count, fs, n - 1);
      UntilMore(After(count, fs[..n - 1]), count, fs, n - 1);
    }
  }

  lemma NothingYet(count: u32, fs: seq<Frame>)
    ensures KnowsWindows(Initial(count), count, fs, 0) && KnowsUntil(Initial(count), count, fs, 0)
  {
  }

  /** Purple exactly as long as the last trigger holds it: for 300 ms, unless the end of those wraps. */
  lemma ShowsExactlyWhen(count: u32, fs: seq<Frame>, n: nat)
    requires n < |fs| && Ordered(fs)
    ensures var m := LastTrigger(count, fs, n + 1);
      Shows(count, fs, n) <==> m >= 0 && fs[n].now < Hold(fs[m].now)
    ensures fs[n].now + 300 < 0x1_0000_0000_0000_0000 ==>
      (Shows(count, fs, n) <==> exists m :: 0 <= m <= n && Triggers(count, fs, m) && fs[n].now < fs[m].now + 300)
  {
    hide Triggers, After;
    StateKnows(count, fs, n + 1);
    forall m | 0 <= m <= n && Triggers(count, fs, m) ensures m <= LastTrigger(count, fs, n + 1) {
    }
  }

  /** Frames a, b and c close successive windows of at least 250 ms, each of which saw the counter move. */
  predicate InARow(count: u32, fs: seq<Frame>, a: nat, b: nat, c: nat)
    requires a < b < c < |fs|
  {
    && Closes(fs, a) && Closes(fs, b) && Closes(fs, c)
    && LastClose(fs, c) == b && LastClose(fs, b) == a
    && Advanced(count, fs, a) && Advanced(count, fs, b) && Advanced(count, fs, c)
    && fs[b].now - fs[a].now >= 250 && fs[c].now - fs[b].now >= 250
  }

  /** Nothing triggers without three advanced windows in a row behind it, closed at least 250 ms apart. */
  lemma NeedsThreeWindows(count: u32, fs: seq<Frame>, m: nat)
    requires m < |fs| && Triggers(count, fs, m)
    ensures exists a, b, c :: 0 <= a < b < c <= m && InARow(count, fs, a, b, c)
  {
    hide Advanced, Advances;
    var n := if Streak(count, fs, m) >= PERSIST then m else m + 1;
    assert Streak(count, fs, n) >= PERSIST;
    var c := LastClose(fs, n);
    assert Streak(count, fs, c) >= 2;
    var b := LastClose(fs, c);
    assert Streak(count, fs, b) >= 1;
    var a := LastClose(fs, b);
    assert InARow(count, fs, a, b, c);
  }

  /** Once the counter has stopped, the ring clears: after its last advance at frame a, whose window closes
      at frame c, nothing shows from 300 ms past that close on. */
  lemma ClearsAfterTheLastAdvance(count: u32, fs: seq<Frame>, a: nat, c: nat, n: nat)
    requires a <= c <= n < |fs| && Ordered(fs)
    requires forall k :: a < k < |fs| ==> !Advances(count, fs, k)
    requires Closes(fs, c)
    requires fs[n].now >= fs[c].now + 300
    ensures !Shows(count, fs, n)
  {
    hide Advances, After, Closes;
    ShowsExactlyWhen(count, fs, n);
    var m := LastTrigger(count, fs, n + 1);
    if m > c {
      QuietDoesNotTrigger(count, fs, a, c, m);
    }
  }

  lemma QuietDoesNotTrigger(count: u32, fs: seq<Frame>, a: nat, c: nat, m: nat)
    requires a <= c < m < |fs| && Closes(fs, c)
    requires forall k :: a < k < |fs| ==> !Advances(count, fs, k)
    ensures !Triggers(count, fs, m)
  {
    hide Advances, Closes;
    StreakStep(count, fs, m);
    assert LastClose(fs, m) >= c;
  }
}
