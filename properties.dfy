/**
 What the controller's callbacks guarantee, over one call and over runs of
 calls: the view angles stay wrapped, the keys act on exactly the fields
 they name, the reset keys are absolute, the animation cursor only grows
 and stops at the last frame, and what `display` shows in each mode.
 */
module ControllerFacts {
  import opened CArith
  import opened Trajectory
  import opened Controller

  // ---------------------------------------------------------------------
  // The view angles

  /** C's `%` by 360 changes an angle by a whole number of turns. */
  lemma WrapCongruent(t: int)
    ensures (Rem(t, FullTurn) - t) % FullTurn == 0
  {
  }

  /** Every `special` call keeps a reachable state reachable. */
  lemma SpecialPreservesValid(st: State, key: int)
    requires ValidState(st)
    ensures ValidState(SpecialStep(st, key))
  {
  }

  /**
   An arrow key turns exactly one angle by 5 degrees, up to whole turns,
   and leaves the other angle and everything else as it was; any other
   special key changes nothing.
   */
  lemma SpecialTurnsOneAngle(st: State, key: int)
    requires -FullTurn < st.th < FullTurn && -FullTurn < st.ph < FullTurn
    ensures var st' := SpecialStep(st, key);
      && (key == KeyRight ==> st' == st.(th := st'.th) && (st'.th - (st.th + AngleStep)) % FullTurn == 0)
      && (key == KeyLeft ==> st' == st.(th := st'.th) && (st'.th - (st.th - AngleStep)) % FullTurn == 0)
      && (key == KeyUp ==> st' == st.(ph := st'.ph) && (st'.ph - (st.ph + AngleStep)) % FullTurn == 0)
      && (key == KeyDown ==> st' == st.(ph := st'.ph) && (st'.ph - (st.ph - AngleStep)) % FullTurn == 0)
      && (key !in {KeyRight, KeyLeft, KeyUp, KeyDown} ==> st' == st)
  {
  }

  /**
   Right then left returns the yaw only when the first turn did not wrap:
   from 355 the sequence is 355, 0, -5.
   */
  lemma RightThenLeft(st: State)
    requires -FullTurn < st.th < FullTurn && -FullTurn < st.ph < FullTurn
    ensures SpecialStep(SpecialStep(st, KeyRight), KeyLeft) == st <==> st.th < FullTurn - AngleStep
  {
  }

  /** Left then right returns the yaw only when the first turn did not wrap. */
  lemma LeftThenRight(st: State)
    requires -FullTurn < st.th < FullTurn && -FullTurn < st.ph < FullTurn
    ensures SpecialStep(SpecialStep(st, KeyLeft), KeyRight) == st <==> st.th > AngleStep - FullTurn
  {
  }

  /** The state after `n` presses of the same special key. */
  function Presses(st: State, key: int, n: nat): State
  {
    if n == 0 then st else SpecialStep(Presses(st, key, n - 1), key)
  }

  /** `n` presses of the right arrow turn the yaw by `5 * n` degrees, up to whole turns. */
  lemma {:induction false} PressesRightCongruent(st: State, n: nat)
    requires -FullTurn < st.ph < FullTurn
    ensures var st' := Presses(st, KeyRight, n);
      (st'.th - (st.th + AngleStep * n)) % FullTurn == 0 && st'.ph == st.ph
  {
    if n > 0 {
      PressesRightCongruent(st, n - 1);
      var prev := Presses(st, KeyRight, n - 1);
      var wrap := Rem(prev.th + AngleStep, FullTurn) - (prev.th + AngleStep);
      var drift := prev.th - (st.th + AngleStep * (n - 1));
      WrapCongruent(prev.th + AngleStep);
      WholeTurnsAdd(wrap, drift);
      assert Presses(st, KeyRight, n).th - (st.th + AngleStep * n) == wrap + drift;
    }
  }

  /** Two whole numbers of turns add up to a whole number of turns. */
  lemma WholeTurnsAdd(x: int, y: int)
    requires x % FullTurn == 0 && y % FullTurn == 0
    ensures (x + y) % FullTurn == 0
  {
  }

  /** Presses of the right arrow keep a yaw in [0, 360) in [0, 360). */
  lemma {:induction false} PressesRightStayNonNegative(st: State, n: nat)
    requires 0 <= st.th < FullTurn && -FullTurn < st.ph < FullTurn
    ensures 0 <= Presses(st, KeyRight, n).th < FullTurn
  {
    if n > 0 {
      PressesRightStayNonNegative(st, n - 1);
    }
  }

  /**
   Presses of the right arrow from a yaw above -360 either have already
   reached a non-negative yaw or have not wrapped yet and added 5 per press.
   */
  lemma {:induction false} PressesRightClimb(st: State, n: nat)
    requires -FullTurn < st.th && -FullTurn < st.ph < FullTurn
    ensures var t := Presses(st, KeyRight, n).th; 0 <= t || st.th + AngleStep * n <= t
  {
    if n > 0 {
      PressesRightClimb(st, n - 1);
    }
  }

  /** The number of right-arrow presses that make a full turn. */
  const FullTurnPresses: nat := 72

  /**
   72 presses of the right arrow make a full turn: the yaw comes back up to
   whole turns, and the state comes back exactly when the yaw started in
   [0, 360). From a negative yaw it ends non-negative instead. (The count is
   a parameter fixed by the precondition so that the solver does not unfold
   72 presses one by one.)
   */
  lemma FullCircle(st: State, n: nat)
    requires n == FullTurnPresses
    requires -FullTurn < st.th < FullTurn && -FullTurn < st.ph < FullTurn
    ensures (Presses(st, KeyRight, n).th - st.th) % FullTurn == 0
    ensures Presses(st, KeyRight, n) == st <==> 0 <= st.th
  {
    PressesRightCongruent(st, n);
    var st' := Presses(st, KeyRight, n);
    assert st'.th - st.th == (st'.th - (st.th + AngleStep * n)) + FullTurn;
    if 0 <= st.th {
      PressesRightStayNonNegative(st, n);
      PressesKeepRest(st, KeyRight, n);
    } else {
      PressesRightClimb(st, n);
    }
  }

  /** Special keys touch nothing but the two angles. */
  lemma {:induction false} PressesKeepRest(st: State, key: int, n: nat)
    ensures var st' := Presses(st, key, n); st' == st.(th := st'.th, ph := st'.ph)
  {
    if n > 0 {
      PressesKeepRest(st, key, n - 1);
    }
  }

  // ---------------------------------------------------------------------
  // The keyboard

  /** Every `key` call keeps a reachable state reachable. */
  lemma KeyPreservesValid(st: State, ch: char, clock: real)
    requires ValidState(st)
    ensures ValidState(KeyStep(st, ch, clock))
  {
  }

  /**
   '2' enters Animation mode at frame 0 and records the clock, whatever the
   previous state; '1' enters Explorer mode, resets the cursor and keeps the
   recorded clock. Nothing else changes.
   */
  lemma ModeKeys(st: State, clock: real)
    ensures KeyStep(st, '2', clock) == st.(aMode := 1, aIndex := 0, tOffset := clock)
    ensures KeyStep(st, '1', clock) == st.(aMode := 0, aIndex := 0)
    ensures Status(KeyStep(st, '2', clock)) == AnimationFrame(0) && PointCount(KeyStep(st, '2', clock)) == 0
    ensures Status(KeyStep(st, '1', clock)) == ExplorerMode && PointCount(KeyStep(st, '1', clock)) == MaxPoints
  {
  }

  /**
   The reset keys are absolute: two states that went through the same reset
   agree on the fields it resets, whatever their history; pressing the same
   reset again changes nothing.
   */
  lemma ResetKeys(st1: State, st2: State, c1: real, c2: real)
    ensures var a, b := KeyStep(st1, '0', c1), KeyStep(st2, '0', c2);
      a.th == b.th == 0 && a.ph == b.ph == 0 && KeyStep(a, '0', c2) == a
    ensures var a, b := KeyStep(st1, '9', c1), KeyStep(st2, '9', c2);
      a.s == b.s == DefaultS && a.b == b.b == DefaultB && a.r == b.r == DefaultR && KeyStep(a, '9', c2) == a
    ensures var a, b := KeyStep(st1, '8', c1), KeyStep(st2, '8', c2);
      a.colorFrequency == b.colorFrequency == DefaultColorFrequency && KeyStep(a, '8', c2) == a
    ensures KeyStep(st1, '0', c1) == st1.(th := 0, ph := 0)
    ensures KeyStep(st1, '9', c1) == st1.(s := DefaultS, b := DefaultB, r := DefaultR)
    ensures KeyStep(st1, '8', c1) == st1.(colorFrequency := DefaultColorFrequency)
  {
  }

  /**
   Each parameter key changes one field by its step and nothing else, and
   the two keys of a pair undo each other.
   */
  lemma ParameterKeys(st: State, c: real)
    ensures KeyStep(st, 'q', c) == st.(s := st.s + 1.0) && KeyStep(st, 'a', c) == st.(s := st.s - 1.0)
    ensures KeyStep(st, 'w', c) == st.(b := st.b + 0.3333) && KeyStep(st, 's', c) == st.(b := st.b - 0.3333)
    ensures KeyStep(st, 'e', c) == st.(r := st.r + 1.0) && KeyStep(st, 'd', c) == st.(r := st.r - 1.0)
    ensures KeyStep(st, 'z', c) == st.(colorFrequency := st.colorFrequency - 0.0001)
    ensures KeyStep(st, 'x', c) == st.(colorFrequency := st.colorFrequency + 0.0001)
    ensures KeyStep(KeyStep(st, 'q', c), 'a', c) == st && KeyStep(KeyStep(st, 'a', c), 'q', c) == st
    ensures KeyStep(KeyStep(st, 'w', c), 's', c) == st && KeyStep(KeyStep(st, 's', c), 'w', c) == st
    ensures KeyStep(KeyStep(st, 'e', c), 'd', c) == st && KeyStep(KeyStep(st, 'd', c), 'e', c) == st
    ensures KeyStep(KeyStep(st, 'z', c), 'x', c) == st && KeyStep(KeyStep(st, 'x', c), 'z', c) == st
  {
  }

  /** ESC only marks the program as ended. */
  lemma EscapeEnds(st: State, c: real)
    ensures KeyStep(st, Esc, c) == st.(running := false)
  {
  }

  // ---------------------------------------------------------------------
  // The animation clock

  /** Every `idle` call keeps a reachable state reachable. */
  lemma IdlePreservesValid(st: State, clock: real)
    requires ValidState(st)
    ensures ValidState(IdleStep(st, clock))
  {
  }

  /** Once the cursor is at the last frame, `idle` leaves the whole state alone. */
  lemma IdleSaturated(st: State, clock: real)
    requires st.aIndex == MaxPoints
    ensures IdleStep(st, clock) == st
  {
  }

  /** With the clock at or past the recorded reading the cursor is not negative. */
  lemma IdleNonNegative(st: State, clock: real)
    requires st.tOffset <= clock
    ensures 0 <= IdleStep(st, clock).aIndex
  {
  }

  /** 50000 time units after the recorded reading the cursor is at the last frame. */
  lemma IdleCatchesUp(st: State, clock: real)
    requires clock - st.tOffset >= MaxPoints as real
    ensures IdleStep(st, clock).aIndex == MaxPoints
  {
  }

  /** A later `idle` call never lowers the cursor an earlier one set. */
  lemma IdleMonotone(st: State, c1: real, c2: real)
    requires c1 <= c2
    ensures IdleStep(st, c1).aIndex <= IdleStep(IdleStep(st, c1), c2).aIndex
  {
  }

  /** `idle` does the same in both modes: the mode flag neither guards nor changes it. */
  lemma IdleIgnoresMode(st: State, clock: real, mode: int)
    ensures IdleStep(st.(aMode := mode), clock) == IdleStep(st, clock).(aMode := mode)
  {
  }

  /** The cursor advances in Explorer mode too: 100 units after start-up it is 100. */
  lemma ExplorerCursorAdvances()
    ensures Initial().aMode == 0 && IdleStep(Initial(), 100.0).aIndex == 100
  {
    TruncOfInt(100);
  }

  predicate NonDecreasing(xs: seq<real>)
  {
    forall i, j :: 0 <= i <= j < |xs| ==> xs[i] <= xs[j]
  }

  /** The cursor after each of a run of `idle` calls with the given clock readings. */
  function Cursors(st: State, clocks: seq<real>): (cs: seq<int>)
    ensures |cs| == |clocks|
    decreases |clocks|
  {
    if clocks == [] then [] else
      var st' := IdleStep(st, clocks[0]);
      [st'.aIndex] + Cursors(st', clocks[1..])
  }

  /** The state after a run of `idle` calls. */
  function AfterIdles(st: State, clocks: seq<real>): State
    decreases |clocks|
  {
    if clocks == [] then st else AfterIdles(IdleStep(st, clocks[0]), clocks[1..])
  }

  /**
   Over a run of `idle` calls with non-decreasing clock readings and no key
   press in between, the cursor never decreases and never passes the last
   frame.
   */
  lemma {:induction false} CursorsMonotone(st: State, clocks: seq<real>)
    requires NonDecreasing(clocks)
    ensures var cs := Cursors(st, clocks);
      && (forall i :: 0 <= i < |cs| ==> cs[i] <= MaxPoints)
      && (forall i, j :: 0 <= i <= j < |cs| ==> cs[i] <= cs[j])
    decreases |clocks|
  {
    if clocks != [] {
      var st' := IdleStep(st, clocks[0]);
      CursorsMonotone(st', clocks[1..]);
      var cs := Cursors(st, clocks);
      assert cs[1..] == Cursors(st', clocks[1..]);
      if |clocks| > 1 {
        IdleMonotone(st, clocks[0], clocks[1]);
        assert cs[0] <= cs[1];
      }
    }
  }

  /** After a run of `idle` calls only the cursor has changed. */
  lemma {:induction false} AfterIdlesKeepRest(st: State, clocks: seq<real>)
    ensures var st' := AfterIdles(st, clocks); st' == st.(aIndex := st'.aIndex)
    ensures clocks != [] ==> AfterIdles(st, clocks).aIndex == Cursors(st, clocks)[|clocks| - 1]
    decreases |clocks|
  {
    if clocks != [] {
      AfterIdlesKeepRest(IdleStep(st, clocks[0]), clocks[1..]);
    }
  }

  /**
   An animation started with '2' at reading `start` and followed by `idle`
   calls at non-decreasing readings from `start` on shows frames that start
   at 0, never go back and stay within the trajectory.
   */
  lemma AnimationRun(st: State, start: real, clocks: seq<real>)
    requires NonDecreasing(clocks)
    requires clocks != [] ==> start <= clocks[0]
    ensures var cs := Cursors(KeyStep(st, '2', start), clocks);
      && (forall i :: 0 <= i < |cs| ==> 0 <= cs[i] <= MaxPoints)
      && (forall i, j :: 0 <= i <= j < |cs| ==> cs[i] <= cs[j])
  {
    var st2 := KeyStep(st, '2', start);
    CursorsMonotone(st2, clocks);
    if clocks != [] {
      IdleNonNegative(st2, clocks[0]);
      var cs := Cursors(st2, clocks);
      assert 0 <= cs[0];
      forall i | 0 <= i < |cs|
        ensures 0 <= cs[i] <= MaxPoints
      {
        assert cs[0] <= cs[i];
      }
    }
  }

  // ---------------------------------------------------------------------
  // What display shows

  /**
   In Animation mode the vertices drawn are the first ones of the Explorer
   picture for the same parameters: colour and position of a trajectory
   point do not depend on the mode.
   */
  lemma AnimationIsPrefix<P, V>(g: Integrator<P, V>, st: State)
    requires ValidState(st)
    ensures var k := Params(st.s, st.b, st.r);
      Points(g, k, st.colorFrequency, PointCount(st))
        == Points(g, k, st.colorFrequency, PointCount(st.(aMode := 0)))[..PointCount(st)]
  {
    PointsPrefix(g, Params(st.s, st.b, st.r), st.colorFrequency, PointCount(st), MaxPoints);
  }

  /** A finished animation draws exactly the Explorer picture. */
  lemma CompleteIsExplorerPicture<P, V>(g: Integrator<P, V>, st: State)
    requires Status(st) == AnimationComplete
    ensures PointCount(st) == PointCount(st.(aMode := 0)) == MaxPoints
    ensures var k := Params(st.s, st.b, st.r);
      Points(g, k, st.colorFrequency, PointCount(st)) == Points(g, k, st.colorFrequency, PointCount(st.(aMode := 0)))
  {
  }

  /**
   "Animation complete" is terminal: `idle`, the special keys and every key
   except the mode keys '1' and '2' keep it on screen.
   */
  lemma CompleteIsTerminal(st: State, clock: real, key: int, ch: char)
    requires Status(st) == AnimationComplete
    ensures Status(IdleStep(st, clock)) == AnimationComplete
    ensures Status(SpecialStep(st, key)) == AnimationComplete
    ensures ch != '1' && ch != '2' ==> Status(KeyStep(st, ch, clock)) == AnimationComplete
  {
  }

  // ---------------------------------------------------------------------
  // Runs of callbacks

  /** One callback invocation. */
  datatype Event = SpecialKey(key: int) | Char(ch: char, clock: real) | Tick(clock: real)

  function Apply(st: State, e: Event): State
  {
    match e
    case SpecialKey(key) => SpecialStep(st, key)
    case Char(ch, clock) => KeyStep(st, ch, clock)
    case Tick(clock) => IdleStep(st, clock)
  }

  function Run(st: State, es: seq<Event>): State
    decreases |es|
  {
    if es == [] then st else Run(Apply(st, es[0]), es[1..])
  }

  /**
   Every state the program reaches from start-up, through any sequence of
   callbacks, has wrapped multiple-of-5 angles, a 0/1 mode flag and a cursor
   at most 50000. When the clock readings of the run never go back, the
   cursor is moreover never negative.
   */
  lemma {:induction false} ReachableValid(es: seq<Event>)
    ensures ValidState(Run(Initial(), es))
    ensures Timed(0.0, es) ==> 0 <= Run(Initial(), es).aIndex <= MaxPoints
  {
    RunPreservesValid(Initial(), es);
    if Timed(0.0, es) {
      RunInSync(Initial(), 0.0, es);
    }
  }

  lemma {:induction false} RunPreservesValid(st: State, es: seq<Event>)
    requires ValidState(st)
    ensures ValidState(Run(st, es))
    decreases |es|
  {
    if es != [] {
      match es[0] {
        case SpecialKey(key) => SpecialPreservesValid(st, key);
        case Char(ch, clock) => KeyPreservesValid(st, ch, clock);
        case Tick(clock) => IdlePreservesValid(st, clock);
      }
      RunPreservesValid(Apply(st, es[0]), es[1..]);
    }
  }

  // ---------------------------------------------------------------------
  // Runs under a clock that never goes back

  /** The clock reading an event carries; an arrow key carries none, so the last reading stands. */
  function Stamp(e: Event, now: real): real
  {
    if e.SpecialKey? then now else e.clock
  }

  /**
   The readings of a run, starting after reading `now`, never decrease, as
   the elapsed time GLUT reports never does.
   */
  predicate Timed(now: real, es: seq<Event>)
    decreases |es|
  {
    es == [] || (now <= Stamp(es[0], now) && Timed(Stamp(es[0], now), es[1..]))
  }

  /** The last reading seen by the end of a run that starts after reading `now`. */
  function LastReading(now: real, es: seq<Event>): (last: real)
    ensures Timed(now, es) ==> now <= last
    decreases |es|
  {
    if es == [] then now else LastReading(Stamp(es[0], now), es[1..])
  }

  /**
   A valid state whose recorded reading is not after `now`, whose cursor is
   not negative and has not run ahead of the time elapsed at `now` (unless it
   has reached the last frame).
   */
  predicate InSync(st: State, now: real)
  {
    && ValidState(st)
    && st.tOffset <= now
    && 0 <= st.aIndex
    && (st.aIndex == MaxPoints || st.aIndex <= Trunc(now - st.tOffset))
  }

  /** Start-up is in sync with a first reading of 0. */
  lemma InitialInSync()
    ensures InSync(Initial(), 0.0)
  {
  }

  /**
   One callback at a reading not before `now` keeps the state in sync, and
   an `idle` call never lowers the cursor.
   */
  lemma StepInSync(st: State, now: real, e: Event)
    requires InSync(st, now) && now <= Stamp(e, now)
    ensures InSync(Apply(st, e), Stamp(e, now))
    ensures e.Tick? ==> st.aIndex <= Apply(st, e).aIndex
  {
    match e {
      case SpecialKey(key) =>
        SpecialPreservesValid(st, key);
      case Char(ch, clock) =>
        KeyPreservesValid(st, ch, clock);
        TruncMonotone(now - st.tOffset, clock - st.tOffset);
      case Tick(clock) =>
        IdlePreservesValid(st, clock);
        TruncMonotone(now - st.tOffset, clock - st.tOffset);
    }
  }

  /** A run whose readings never go back keeps a state in sync with its last reading. */
  lemma {:induction false} RunInSync(st: State, now: real, es: seq<Event>)
    requires InSync(st, now) && Timed(now, es)
    ensures InSync(Run(st, es), LastReading(now, es))
    decreases |es|
  {
    if es != [] {
      StepInSync(st, now, es[0]);
      RunInSync(Apply(st, es[0]), Stamp(es[0], now), es[1..]);
    }
  }

  /** Running one more callback applies it to the state the run reached. */
  lemma {:induction false} RunSnoc(st: State, es: seq<Event>, e: Event)
    ensures Run(st, es + [e]) == Apply(Run(st, es), e)
    decreases |es|
  {
    if es == [] {
      assert [e][1..] == [];
    } else {
      assert (es + [e])[1..] == es[1..] + [e];
      RunSnoc(Apply(st, es[0]), es[1..], e);
    }
  }

  /** A timed run stays timed without its last callback, which comes no earlier than the rest. */
  lemma {:induction false} TimedSnoc(now: real, es: seq<Event>, e: Event)
    requires Timed(now, es + [e])
    ensures Timed(now, es)
    ensures LastReading(now, es) <= Stamp(e, LastReading(now, es))
    decreases |es|
  {
    if es != [] {
      assert (es + [e])[1..] == es[1..] + [e];
      TimedSnoc(Stamp(es[0], now), es[1..], e);
    }
  }

  /**
   In any run from start-up whose readings never go back, an `idle` call
   never lowers the animation cursor.
   */
  lemma TickNeverLowers(es: seq<Event>, clock: real)
    requires Timed(0.0, es + [Tick(clock)])
    ensures Run(Initial(), es).aIndex <= Run(Initial(), es + [Tick(clock)]).aIndex
  {
    TimedSnoc(0.0, es, Tick(clock));
    RunInSync(Initial(), 0.0, es);
    RunSnoc(Initial(), es, Tick(clock));
    StepInSync(Run(Initial(), es), LastReading(0.0, es), Tick(clock));
  }
}
