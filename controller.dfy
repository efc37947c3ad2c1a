/**
 The interaction and animation controller of the Lorenz attractor explorer:
 the process-wide state that the keyboard callbacks (`special`, `key`), the
 idle callback (`idle`) and the display callback share.

 `State` is the value of that state; `SpecialStep`, `KeyStep` and `IdleStep`
 say what each callback does to it, and `PointCount` and `Status` are what
 `display` reads from it. The class `Lorenz` holds the same state in mutable
 fields and its methods update them in place the way the callbacks do; each
 method is proved to follow the matching step function.

 The clock is a parameter: `clock` stands for the rescaled reading
 `glutGet(GLUT_ELAPSED_TIME)/1.06`.
 */
module Controller {
  import opened CArith
  import opened Trajectory

  /** The trajectory length and the animation's last frame. */
  const MaxPoints: int := 50000

  /** The view rotates in steps of 5 degrees and wraps at 360. */
  const AngleStep: int := 5
  const FullTurn: int := 360

  /** GLUT's special-key codes for the arrow keys. */
  const KeyLeft: int := 100
  const KeyUp: int := 101
  const KeyRight: int := 102
  const KeyDown: int := 103

  /** The escape character. */
  const Esc: char := 27 as char

  /** Step sizes of the parameter keys. */
  const SStep: real := 1.0
  const BStep: real := 0.3333
  const RStep: real := 1.0
  const ColorStep: real := 0.0001

  /** Start-up values of the attractor parameters and the colour frequency, restored by '9' and '8'. */
  const DefaultS: real := 10.0
  const DefaultB: real := 2.6666
  const DefaultR: real := 28.0
  const DefaultColorFrequency: real := 0.01

  /**
   The controller's state: view angles `th` and `ph` in degrees, the colour
   frequency, the mode flag `aMode` (0 Explorer, otherwise Animation), the
   animation cursor `aIndex`, the clock reading `tOffset` taken when
   Animation mode was entered, the attractor parameters `s`, `b`, `r`, and
   whether the program is still running (ESC ends it).
   */
  datatype State = State(
    th: int, ph: int,
    colorFrequency: real,
    aMode: int, aIndex: int, tOffset: real,
    s: real, b: real, r: real,
    running: bool)

  /** The globals at start-up. */
  function Initial(): (st: State)
    ensures st.aMode == 0 && st.aIndex == 0 && st.th == 0 && st.ph == 0
    ensures st.s == DefaultS && st.b == DefaultB && st.r == DefaultR
    ensures st.colorFrequency == DefaultColorFrequency && st.tOffset == 0.0 && st.running
  {
    State(0, 0, DefaultColorFrequency, 0, 0, 0.0, DefaultS, DefaultB, DefaultR, true)
  }

  /**
   The invariant every reachable state keeps: both angles lie strictly
   between -360 and 360 and are multiples of 5, the mode flag is 0 or 1, and
   the cursor has not passed the last frame.
   */
  predicate ValidState(st: State)
  {
    && -FullTurn < st.th < FullTurn && st.th % AngleStep == 0
    && -FullTurn < st.ph < FullTurn && st.ph % AngleStep == 0
    && (st.aMode == 0 || st.aMode == 1)
    && st.aIndex <= MaxPoints
  }

  /**
   `special`: an arrow key turns one angle by 5 degrees, then both angles
   are reduced with C's `%` by 360.
   */
  function SpecialStep(st: State, key: int): (st': State)
    ensures -FullTurn < st'.th < FullTurn && -FullTurn < st'.ph < FullTurn
    ensures st' == st.(th := st'.th, ph := st'.ph)
  {
    var turned :=
      if key == KeyRight then st.(th := st.th + AngleStep)
      else if key == KeyLeft then st.(th := st.th - AngleStep)
      else if key == KeyUp then st.(ph := st.ph + AngleStep)
      else if key == KeyDown then st.(ph := st.ph - AngleStep)
      else st;
    turned.(th := Rem(turned.th, FullTurn), ph := Rem(turned.ph, FullTurn))
  }

  /** The characters `key` acts on; every other character is ignored. */
  const BoundKeys: set<char> := {Esc, 'q', 'a', 'w', 's', 'e', 'd', 'z', 'x', '1', '2', '0', '8', '9'}

  /**
   `key`: an else-if chain over the character; each branch changes one
   field or resets a group of fields. `clock` is the rescaled clock reading
   that '2' records.
   */
  function KeyStep(st: State, ch: char, clock: real): (st': State)
    ensures ch !in BoundKeys ==> st' == st
    ensures ch != '0' ==> st'.th == st.th && st'.ph == st.ph
    ensures ch != '1' && ch != '2' ==> st'.aMode == st.aMode && st'.aIndex == st.aIndex && st'.tOffset == st.tOffset
  {
    if ch == Esc then st.(running := false)
    else if ch == 'q' then st.(s := st.s + SStep)
    else if ch == 'a' then st.(s := st.s - SStep)
    else if ch == 'w' then st.(b := st.b + BStep)
    else if ch == 's' then st.(b := st.b - BStep)
    else if ch == 'e' then st.(r := st.r + RStep)
    else if ch == 'd' then st.(r := st.r - RStep)
    else if ch == 'z' then st.(colorFrequency := st.colorFrequency - ColorStep)
    else if ch == 'x' then st.(colorFrequency := st.colorFrequency + ColorStep)
    else if ch == '1' then st.(aIndex := 0, aMode := 0)
    else if ch == '2' then st.(aMode := 1, aIndex := 0, tOffset := clock)
    else if ch == '0' then st.(th := 0, ph := 0)
    else if ch == '8' then st.(colorFrequency := DefaultColorFrequency)
    else if ch == '9' then st.(s := DefaultS, b := DefaultB, r := DefaultR)
    else st
  }

  /**
   `idle`: while the cursor is below the last frame it is set to the
   truncated time since `tOffset`; then it is capped at the last frame.
   The mode flag is not consulted.
   */
  function IdleStep(st: State, clock: real): (st': State)
    ensures st' == st.(aIndex := st'.aIndex)
    ensures st'.aIndex <= MaxPoints
    ensures st.aIndex >= MaxPoints ==> st'.aIndex == MaxPoints
    ensures st.aIndex < MaxPoints && Trunc(clock - st.tOffset) <= MaxPoints ==> st'.aIndex == Trunc(clock - st.tOffset)
    ensures st.aIndex < MaxPoints && Trunc(clock - st.tOffset) >= MaxPoints ==> st'.aIndex == MaxPoints
  {
    var tm := clock - st.tOffset;
    var a := if st.aIndex < MaxPoints then Trunc(tm) else st.aIndex;
    st.(aIndex := if a > MaxPoints then MaxPoints else a)
  }

  /**
   How many points `display` draws: all 50000 in Explorer mode, the cursor
   in Animation mode (its loop runs no iteration for a cursor below 1).
   */
  function PointCount(st: State): (n: nat)
    ensures st.aMode == 0 ==> n == MaxPoints
    ensures st.aMode != 0 ==> n == if st.aIndex > 0 then st.aIndex else 0
    ensures st.aIndex <= MaxPoints ==> n <= MaxPoints
  {
    if st.aMode == 0 then MaxPoints else if st.aIndex > 0 then st.aIndex else 0
  }

  /** The mode line of the on-screen text: Explorer, an animation frame, or "Animation complete". */
  datatype Hud = ExplorerMode | AnimationFrame(frame: int) | AnimationComplete

  function Status(st: State): (h: Hud)
    ensures h == AnimationComplete <==> st.aMode != 0 && st.aIndex == MaxPoints
    ensures h == ExplorerMode <==> st.aMode == 0
    ensures h.AnimationFrame? ==> h.frame == st.aIndex && h.frame != MaxPoints
  {
    if st.aMode == 0 then ExplorerMode
    else if st.aIndex == MaxPoints then AnimationComplete
    else AnimationFrame(st.aIndex)
  }

  /** The controller state in mutable fields, as the program's globals hold it. */
  class Lorenz {
    var th: int
    var ph: int
    var colorFrequency: real
    var aMode: int
    var aIndex: int
    var tOffset: real
    var s: real
    var b: real
    var r: real
    var running: bool

    /** The value of the fields. */
    function Snapshot(): State
      reads this
    {
      State(th, ph, colorFrequency, aMode, aIndex, tOffset, s, b, r, running)
    }

    ghost predicate Valid()
      reads this
    {
      ValidState(Snapshot())
    }

    /** The globals' initialisers. */
    constructor ()
      ensures Valid()
      ensures Snapshot() == Initial()
    {
      th, ph := 0, 0;
      colorFrequency := DefaultColorFrequency;
      aMode, aIndex, tOffset := 0, 0, 0.0;
      s, b, r := DefaultS, DefaultB, DefaultR;
      running := true;
    }

    /** The `special` callback. */
    method Special(key: int)
      requires Valid()
      modifies this
      ensures Valid()
      ensures Snapshot() == SpecialStep(old(Snapshot()), key)
    {
      if key == KeyRight {
        th := th + AngleStep;
      } else if key == KeyLeft {
        th := th - AngleStep;
      } else if key == KeyUp {
        ph := ph + AngleStep;
      } else if key == KeyDown {
        ph := ph - AngleStep;
      }
      WrapKeepsMultiple(th);
      WrapKeepsMultiple(ph);
      th := Rem(th, FullTurn);
      ph := Rem(ph, FullTurn);
    }

    /** The `key` callback; `clock` is the reading that '2' records. */
    method Key(ch: char, clock: real)
      requires Valid()
      modifies this
      ensures Valid()
      ensures Snapshot() == KeyStep(old(Snapshot()), ch, clock)
    {
      if ch == Esc {
        running := false;
      } else if ch == 'q' {
        s := s + SStep;
      } else if ch == 'a' {
        s := s - SStep;
      } else if ch == 'w' {
        b := b + BStep;
      } else if ch == 's' {
        b := b - BStep;
      } else if ch == 'e' {
        r := r + RStep;
      } else if ch == 'd' {
        r := r - RStep;
      } else if ch == 'z' {
        colorFrequency := colorFrequency - ColorStep;
      } else if ch == 'x' {
        colorFrequency := colorFrequency + ColorStep;
      } else if ch == '1' {
        aIndex := 0;
        aMode := 0;
      } else if ch == '2' {
        aMode := 1;
        aIndex := 0;
        tOffset := clock;
      } else if ch == '0' {
        th := 0;
        ph := 0;
      } else if ch == '8' {
        colorFrequency := DefaultColorFrequency;
      } else if ch == '9' {
        s := DefaultS;
        b := DefaultB;
        r := DefaultR;
      }
    }

    /** The `idle` callback at clock reading `clock`. */
    method Idle(clock: real)
      requires Valid()
      modifies this
      ensures Valid()
      ensures Snapshot() == IdleStep(old(Snapshot()), clock)
    {
      var tm := clock - tOffset;
      if aIndex < MaxPoints {
        aIndex := Trunc(tm);
      }
      if aIndex > MaxPoints {
        aIndex := MaxPoints;
      }
    }

    /**
     The model-dependent part of `display`: the vertices drawn for the
     current parameters and colour frequency, and the mode line. In
     Animation mode the vertices are the first ones of the Explorer-mode
     picture.
     */
    method Frame<P, V>(g: Integrator<P, V>) returns (pts: seq<V>, hud: Hud)
      requires Valid()
      ensures |pts| == PointCount(Snapshot())
      ensures pts == Points(g, Params(s, b, r), colorFrequency, PointCount(Snapshot()))
      ensures pts == Points(g, Params(s, b, r), colorFrequency, MaxPoints)[..|pts|]
      ensures hud == Status(Snapshot())
    {
      var k := Params(s, b, r);
      if aMode == 0 {
        pts := Emit(g, k, colorFrequency, MaxPoints);
      } else {
        pts := Emit(g, k, colorFrequency, aIndex);
      }
      PointsPrefix(g, k, colorFrequency, |pts|, MaxPoints);
      if aMode == 0 {
        hud := ExplorerMode;
      } else if aIndex == MaxPoints {
        hud := AnimationComplete;
      } else {
        hud := AnimationFrame(aIndex);
      }
    }
  }

  /** Reducing a multiple of 5 by 360 with C's `%` leaves a multiple of 5. */
  lemma WrapKeepsMultiple(t: int)
    requires t % AngleStep == 0
    ensures Rem(t, FullTurn) % AngleStep == 0
  {
  }
}
