# Lorenz attractor explorer: the interaction and animation controller

The program draws the Lorenz attractor as 50000 coloured points. The user can
rotate the view, change the attractor parameters `s`, `b` and `r` and the
colour-cycle frequency, and switch between two modes. Explorer mode shows the
whole trajectory. Animation mode draws it point by point as time passes. All
of this lives in process-wide globals that three GLUT callbacks update:
`special` (arrow keys), `key` (character keys) and `idle` (the animation
clock). `display` reads the globals to decide how many points to draw and
which mode line to show.

This project models that controller in Dafny:

- `c_arith.dfy` (module `CArith`): C's `%` and `/` on `int`, which truncate
  toward zero, and C's `(int)` cast of a `double`. Dafny's `%` is Euclidean,
  so `special`'s `th %= 360` needs the C version: a negative angle stays
  negative, and the angles lie in (-360, 360) rather than in [0, 360).
- `controller.dfy` (module `Controller`): the state as a datatype `State`.
  The functions `SpecialStep`, `KeyStep` and `IdleStep` say what each
  callback does to it; `PointCount` and `Status` say what `display` reads.
  The class `Lorenz` holds the globals in mutable fields. Its methods
  `Special`, `Key` and `Idle` update them in place as the callbacks do, and
  each is proved to follow its step function and to keep the invariant
  `ValidState`. Its method `Frame` is the mode-dependent part of `display`.
- `trajectory.dfy` (module `Trajectory`): the two drawing loops of
  `display`. The Euler step and the colour formula are left abstract: they
  are the function-typed fields of an `Integrator` value. The loop is the
  method `Emit`, proved against the specification `Points`.
- `properties.dfy` (module `ControllerFacts`): lemmas about runs of
  callbacks. They cover wrapped angles, single-field keys, absolute resets,
  a monotone and saturating cursor, and the Animation picture being a prefix
  of the Explorer picture.

The clock is an input. `clock` stands for the rescaled reading
`glutGet(GLUT_ELAPSED_TIME)/1.06`. Key '2' records it in `tOffset`, and
`Idle` truncates `clock - tOffset` the way the `(int)` cast does.

Some behaviours of the code are easy to misread. Each is stated below as a
lemma:

- `b` steps by 0.3333, so three presses of `w` add 0.9999 rather than 1
  (`ControllerFacts.ParameterKeys`).
- `z` lowers the colour frequency and `x` raises it. The key-binding comment
  at hw1.c:33 says the reverse (`ControllerFacts.ParameterKeys`).
- `idle` does not test the mode, so the cursor also advances in Explorer
  mode (`ControllerFacts.IdleIgnoresMode`,
  `ControllerFacts.ExplorerCursorAdvances`). Explorer mode still draws all
  50000 points, and '2' resets the cursor, so the screen does not show this.
- Right then left restores the yaw only while the first turn does not wrap.
  From 355 the yaw goes to 0 and then to -5, not back to 355
  (`ControllerFacts.RightThenLeft`).
- `idle` trusts the clock. Only in a run whose readings never go back (and
  so never fall before the reading '2' recorded) is the cursor never
  negative and never lowered by `idle` (`ControllerFacts.ReachableValid`,
  `ControllerFacts.TickNeverLowers`).

## Model

| member | source | states |
|---|---|---|
| `CArith.Rem` | hw1.c:244-245 | C's `%`: `(a/n)*n + a%n == a`; the remainder has the dividend's sign and magnitude below `n`; an operand already in (-n, n) is unchanged |
| `CArith.Trunc` | hw1.c:329 | the `(int)` cast truncates toward zero: for `x >= 0` the result is in `(x-1, x]` and non-negative, for `x < 0` in `[x, x+1)` and non-positive |
| `CArith.TruncMonotone` | hw1.c:326-330 | a later (larger) elapsed time never truncates to a smaller frame |
| `CArith.TruncOfInt` | hw1.c:329 | an integral elapsed time truncates to itself |
| `Controller.Initial` | hw1.c:57-70 | start-up: angles 0, Explorer mode, cursor 0, recorded reading 0, `s=10`, `b=2.6666`, `r=28`, colour frequency 0.01 |
| `Controller.SpecialStep` | hw1.c:228-249 | after `special` both angles lie strictly between -360 and 360, and only the angles can change |
| `Controller.KeyStep` | hw1.c:251-319 | a character outside the chain changes nothing; only '0' touches the angles; only '1' and '2' touch mode, cursor and recorded clock |
| `Controller.IdleStep` | hw1.c:321-338 | `idle` changes only the cursor; afterwards it is at most 50000; a cursor at 50000 stays; below 50000 it becomes the truncated elapsed time, capped at 50000 |
| `Controller.PointCount` | hw1.c:99-148 | 50000 points in Explorer mode; the cursor (none if it is below 1) in Animation mode; never more than 50000 in a valid state |
| `Controller.Status` | hw1.c:176-196 | "Animation complete" exactly when the mode is Animation and the cursor is 50000; Explorer exactly when the mode flag is 0; otherwise the current frame, which is not 50000 |
| `Controller.WrapKeepsMultiple` | hw1.c:231-245 | turning by 5 and wrapping keeps an angle a multiple of 5 |
| `Controller.Lorenz.constructor` | hw1.c:57-70 | the fields start at `Initial()` and are valid |
| `Controller.Lorenz.Special` | hw1.c:228-249 | updates the fields in place exactly as `SpecialStep` says, keeping the invariant |
| `Controller.Lorenz.Key` | hw1.c:251-319 | updates the fields in place exactly as `KeyStep` says, keeping the invariant |
| `Controller.Lorenz.Idle` | hw1.c:321-338 | updates the cursor in place exactly as `IdleStep` says, keeping the invariant |
| `Controller.Lorenz.Frame` | hw1.c:99-196 | draws `PointCount` vertices of the trajectory for the current `s`, `b`, `r` and colour frequency; they are the first vertices of the 50000-point picture; the mode line is `Status` |
| `Trajectory.Points` | hw1.c:107-122 | `n` vertices; vertex `i` is plotted from index `i` and the point after `i+1` Euler steps from the start point |
| `Trajectory.PointsPrefix` | hw1.c:99-148 | the points for a smaller bound are a prefix of the points for a larger one |
| `Trajectory.Emit` | hw1.c:136-147 | the counting loop emits exactly `Points` for its bound, and nothing for a bound below 1 |
| `ControllerFacts.WrapCongruent` | hw1.c:244-245 | wrapping changes an angle by a whole number of turns |
| `ControllerFacts.SpecialPreservesValid` | hw1.c:228-249 | from a valid state, `special` keeps both angles in (-360, 360) and multiples of 5 |
| `ControllerFacts.SpecialTurnsOneAngle` | hw1.c:231-245 | each arrow turns exactly one angle by ±5 up to whole turns and changes nothing else; any other special key leaves the state as it was |
| `ControllerFacts.RightThenLeft` | hw1.c:231-236 | right then left restores the state exactly when the yaw is below 355 |
| `ControllerFacts.LeftThenRight` | hw1.c:231-236 | left then right restores the state exactly when the yaw is above -355 |
| `ControllerFacts.PressesRightCongruent` | hw1.c:231-245 | `n` right presses turn the yaw by `5n` up to whole turns and leave the pitch alone |
| `ControllerFacts.PressesRightStayNonNegative` | hw1.c:231-245 | right presses keep a yaw in [0, 360) in [0, 360) |
| `ControllerFacts.PressesRightClimb` | hw1.c:231-245 | from a yaw above -360, after `n` right presses the yaw is non-negative or has grown by `5n` |
| `ControllerFacts.FullCircle` | hw1.c:231-245 | 72 right presses bring the yaw back up to whole turns, and restore the whole state if and only if the yaw started in [0, 360) |
| `ControllerFacts.PressesKeepRest` | hw1.c:228-249 | repeated special keys change only the two angles |
| `ControllerFacts.KeyPreservesValid` | hw1.c:251-319 | every key keeps a valid state valid |
| `ControllerFacts.ModeKeys` | hw1.c:288-299 | '2' sets Animation mode, cursor 0 and the recorded clock, and shows frame 0 with no points; '1' sets Explorer mode and cursor 0, keeps the recorded clock, and shows all points; nothing else changes |
| `ControllerFacts.ResetKeys` | hw1.c:301-314 | '0', '9' and '8' set their fields to fixed values whatever the history, change nothing else, and pressing them again changes nothing |
| `ControllerFacts.ParameterKeys` | hw1.c:261-285 | q/a, w/s, e/d, z/x each change one field by ±1, ±0.3333, ±1, ∓0.0001 and nothing else; the two keys of a pair undo each other |
| `ControllerFacts.EscapeEnds` | hw1.c:257-259 | ESC only marks the program as ended |
| `ControllerFacts.IdlePreservesValid` | hw1.c:321-338 | `idle` keeps a valid state valid |
| `ControllerFacts.IdleSaturated` | hw1.c:328-334 | once the cursor is at 50000, `idle` changes nothing |
| `ControllerFacts.IdleNonNegative` | hw1.c:326-334 | with the clock at or past the recorded reading, the cursor after `idle` is not negative |
| `ControllerFacts.IdleCatchesUp` | hw1.c:326-334 | 50000 time units after the recorded reading, `idle` puts the cursor at 50000 |
| `ControllerFacts.IdleMonotone` | hw1.c:326-334 | a second `idle` at a later reading never lowers the cursor the first one set |
| `ControllerFacts.IdleIgnoresMode` | hw1.c:321-338 | `idle` behaves the same in both modes |
| `ControllerFacts.ExplorerCursorAdvances` | hw1.c:321-334 | in Explorer mode, 100 units after start-up, `idle` sets the cursor to 100 |
| `ControllerFacts.CursorsMonotone` | hw1.c:326-334 | over `idle` calls at non-decreasing readings the cursor never decreases and never passes 50000 |
| `ControllerFacts.AfterIdlesKeepRest` | hw1.c:321-338 | a run of `idle` calls changes only the cursor, which ends at the last cursor of the run |
| `ControllerFacts.AnimationRun` | hw1.c:295-299 | after '2' at reading `start` and `idle` calls at non-decreasing readings from `start` on, every frame lies in [0, 50000] and no frame is lower than an earlier one |
| `ControllerFacts.AnimationIsPrefix` | hw1.c:99-148 | in a valid state the vertices drawn are the first `PointCount` vertices of the Explorer picture with the same parameters |
| `ControllerFacts.CompleteIsExplorerPicture` | hw1.c:107-147 | a finished animation draws 50000 points, the same vertices as the Explorer picture with the same parameters |
| `ControllerFacts.CompleteIsTerminal` | hw1.c:186-189 | "Animation complete" survives `idle`, the special keys and every key except '1' and '2' |
| `ControllerFacts.ReachableValid` | hw1.c:57-70 | every state reached from start-up through any sequence of callbacks is valid; if the clock readings never go back, the cursor is in [0, 50000] |
| `ControllerFacts.RunPreservesValid` | hw1.c:228-338 | any sequence of callbacks keeps a valid state valid |
| `ControllerFacts.LastReading` | hw1.c:295-330 | the last reading of a run whose readings never go back is not before its first |
| `ControllerFacts.InitialInSync` | hw1.c:57-70 | start-up is valid, has cursor 0 and records reading 0 |
| `ControllerFacts.StepInSync` | hw1.c:228-338 | a callback at a reading not before the last keeps the state valid, the cursor non-negative and not ahead of the elapsed time (or at 50000); an `idle` call never lowers the cursor |
| `ControllerFacts.RunInSync` | hw1.c:228-338 | a run whose readings never go back keeps that property up to its last reading |
| `ControllerFacts.RunSnoc` | hw1.c:228-338 | running one more callback applies it to the state reached so far |
| `ControllerFacts.TimedSnoc` | hw1.c:295-330 | dropping the last callback of a run whose readings never go back keeps that property, and the dropped one comes no earlier |
| `ControllerFacts.TickNeverLowers` | hw1.c:321-338 | in any run from start-up whose readings never go back, `idle` never lowers the cursor |

## Left out

- All drawing and GLUT plumbing is left out: `Print`, the OpenGL calls in `display`, `reshape`, `main`, `glutPostRedisplay` and the on-screen text other than the mode line. They are rendering over a library that is not part of this model.
- The Euler step and the `sin` colour formula (hw1.c:108-121, hw1.c:137-146) are floating-point numerics. They are abstract functions inside `Trajectory.Integrator`, so the model fixes how many points are drawn and in which order, not their coordinates or colours.
- `ControllerFacts.ReachableValid`: for runs whose clock readings go back (a reading before the last, or before the one '2' recorded) it promises only `ValidState`, where the cursor may be negative. GLUT's elapsed time never goes back, so the program does not reach that case.
- The real clock and the `/1.06` rescaling are left out. The rescaled reading is the `real` parameter `clock`, and double-precision rounding of the reading and of `clock - tOffset` is not modelled.
- `s`, `b`, `r` and the colour frequency are exact reals. The model does not capture that `color_frequency` is a single-precision `float`, or the rounding of the `+=`/`-=` steps. So the `ControllerFacts.ParameterKeys` undo property holds in the model but only approximately in the program.
- `CArith.Trunc`: C leaves the `(int)` cast of an out-of-range `double` undefined. The model truncates any real. Elapsed milliseconds fit in an `int`, so the program does not reach that case.
- `CArith.Rem`/`CArith.Quot` are stated for a positive divisor only. The program only divides by 360.
- `exit(0)` on ESC is modelled as the flag `running := false`. The end of the process, and the fact that no callback runs after it, are not modelled.
- `Controller.Lorenz.Frame` does not model the HUD lines for angles, parameters and colour frequency. Those lines print the fields as they are.
- The GLUT arrow-key codes (100 left, 101 up, 102 right, 103 down) are GLUT's standard values. `glut.h` is not part of this model.
