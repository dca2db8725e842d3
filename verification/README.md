# AsciiBird core in Dafny

A model of the per-frame logic of AsciiBird, a Flappy Bird clone for an
80 x 24 terminal written in C over ncurses. The repository holds the program
three times: `driver-comentado-pt-br.c` and `driver-todo-comentado-pt-br.c`
are identical, and `driver_comentarios-pt-br.c` has the same logic at other
line numbers. One model covers all three.

The model separates the game from the terminal:

- `numeric.dfy` (`Numeric`): C's truncating integer division and float-to-int
  conversion. Dafny's `/` is Euclidean and `.Floor` rounds down, so neither
  can be used directly.
- `config.dfy` (`Config`): the constants `NUM_ROWS`, `NUM_COLS`,
  `PIPE_RADIUS`, `OPENING_WIDTH`, `FLAPPY_COL`, `SCORE_START_COL`, `GRAV`, `V0`.
- `flight.dfy` (`Flight`): the bird (`h0`, `t`) and `get_flappy_position`. The
  row is the C expression evaluated exactly and truncated. It equals
  `trunc((40 h0 + t^2 - 20 t) / 40)`, which is proved. The file also holds the
  KEY_UP boost and the descending test.
- `pipes.dfy` (`Pipes`): a pipe (opening fraction, centre column), `get_orow`,
  `pipe_refresh` with recycling and scoring, and the digit-width counters
  `sdigs`/`bdigs`.
- `collision.dfy` (`Collision`): `crashed_into_pipe` and the boundary test of
  `draw_flappy`.
- `render.dfy` (`Render`): `draw_floor_and_ceiling`, `draw_pipe` and the glyph
  part of `draw_flappy`. Each is a pure function that returns the
  `(row, col, char)` cells that `mvprintw` would write, in write order.
- `game.dfy` (`Game`): one Session record that replaces the globals, plus a
  step function for the body of `main`'s loop and the key handling of
  `failure_screen`. The modes are Running, Failed and Terminated.

Modelling decisions:

- **Opening fractions.** These are exact rationals (`real`) in [0.25, 0.75].
  The upper end is included because `rand()` may return `INT_MAX`. The caller
  supplies them with each step in place of `rand()`.
- **Arithmetic.** `GRAV = 1/20` and `V0 = -1/2` are taken as exact values.
- **Failure screen.** Its blocking key read is the key of the step taken in
  Failed mode. A non-'q' key commits the score and then runs the `if (restart)`
  block of the next loop iteration, because nothing happens in between in the
  source.
- **Frame order.** A running frame does these steps in the source's order:
  1. read the key;
  2. draw the floor, ceiling and both pipes at their pre-advance columns;
  3. advance both pipes, which may add to the score;
  4. decide collision against the advanced pipes while drawing the bird;
  5. only on a surviving frame, give the score text's column and increment
     `frame`.

The best-score width counter `bdigs` follows the source as written. It widens
by one digit per failure at most. So a first best score of 100 or more is
padded as two digits until the next failure (`Game.BestDigitsLag`).
The declaration of `bdigs` describes it as the best score's digit count
(driver-comentado-pt-br.c:95), so the lag is a gap between that description
and the code. `Game.CommitWidensBest` states the rule in full: one digit
more per failure, never past the capped digit count.

## Model

| member | source | states |
|---|---|---|
| Numeric.TruncDiv | driver-comentado-pt-br.c:165-168 | C integer division, used for `OPENING_WIDTH / 2`: the remainder is smaller than the divisor in magnitude and has the dividend's sign |
| Numeric.TruncReal | driver-comentado-pt-br.c:244-246 | Assigning a float to an int drops the fraction toward zero: the result is within one below a non-negative value, or within one above a negative one |
| Flight.Position | driver-todo-comentado-pt-br.c:244-246 | `get_flappy_position` as the integer row `trunc((40 h0 + t^2 - 20 t)/40)`. At t = 0 and at t = 20 it is exactly `h0`. Up to t = 20 it stays between `h0 - 3` and `h0`: a boost lifts the bird at most three rows |
| Flight.PositionIsTruncatedHeight | driver-todo-comentado-pt-br.c:244-246 | `h0 + V0*t + 0.5*GRAV*t*t`, evaluated exactly and truncated toward zero, is the integer row `Flight.Position` |
| Flight.Boost | driver-todo-comentado-pt-br.c:449-452 | The KEY_UP update resets `t` to 0 and leaves the bird's row unchanged, so the trajectory never jumps |
| Flight.Fall | driver-comentado-pt-br.c:453-454 | Any key other than KEY_UP or 'q' advances `t` by one on the same parabola. The row holds or rises while t < 10 and holds or falls from t = 10 on |
| Flight.DescendingIffPastApex | driver-todo-comentado-pt-br.c:326 | The "descending" test `GRAV*t + V0 > 0` holds exactly when t > 10 |
| Flight.RisesUntilApex | driver-todo-comentado-pt-br.c:244-246 | For t1 <= t2 <= 10 the row at t2 is at most the row at t1: the bird rises or holds until the apex |
| Flight.FallsAfterApex | driver-todo-comentado-pt-br.c:244-246 | For 10 <= t1 <= t2 the row at t2 is at least the row at t1: the bird falls or holds after the apex |
| Pipes.OpeningRow | driver-comentado-pt-br.c:165-168 | `get_orow`: for an opening in [0.25, 0.75] the edge row is `opening * 23 - 3` (top) or `opening * 23 + 3` (bottom) rounded down, because `OPENING_WIDTH / 2` is 3 in C. The top edge is in 2..14 and the bottom edge in 8..20 |
| Pipes.GapGeometry | driver-comentado-pt-br.c:165-168 | For an opening fraction in [0.25, 0.75], `get_orow(p,1)` lies in rows 2..14 and `get_orow(p,0)` is always six rows lower |
| Pipes.WidenDigits | driver-comentado-pt-br.c:149-152 | The width counter grows by at most one. It grows exactly when it is 1 and the value passes 9, or it is 2 and the value passes 99 |
| Pipes.WidenTracksIncrement | driver-comentado-pt-br.c:148-152 | If the counter equals the score's digit count capped at 3, it still does after `score++` and the widening rule |
| Pipes.WidenOnlyAtCrossings | driver_comentarios-pt-br.c:70-74 | With a matching counter, `sdigs` changes exactly when the score goes from 9 to 10 or from 99 to 100 |
| Pipes.CountedDigitsAreCapped | driver-comentado-pt-br.c:148-152 | After n unit increments from score 0 with `sdigs` = 1, `sdigs` is the decimal digit count of n, capped at 3 |
| Pipes.PipeRefresh | driver-comentado-pt-br.c:143-154 | A pipe with `center + PIPE_RADIUS >= 0` only moves one column left; score and `sdigs` are unchanged. Otherwise it ends at column `NUM_COLS + PIPE_RADIUS - 1` = 82 with the new opening, and the score rises by exactly 1. `sdigs` grows by at most one |
| Pipes.RefreshStepsModPeriod | driver_comentarios-pt-br.c:67-76 | From any centre >= -4 the refreshed centre is >= -4 and equals `c - 1` modulo 87. The score changes exactly when the centre was -4 |
| Pipes.RefreshKeepsDigits | driver-comentado-pt-br.c:148-152 | A refresh keeps `sdigs` equal to the capped digit count of the score |
| Collision.CrashedIntoPipe | driver-comentado-pt-br.c:256-269 | Nothing is hit unless the pipe's axis is in columns 6..14, the nine-column window around column 10. For a valid opening, a crash happens exactly when the axis is in 6..14 and the row is outside the five rows just below the gap's top edge |
| Collision.Dies | driver-todo-comentado-pt-br.c:314-323 | A row of 0 or less, or 23 or more, always dies. With valid openings the bird survives exactly when its row is in 1..22 and, for each pipe, the axis is outside 6..14 or the row is one of the five below that gap's top edge |
| Render.Markers | driver-comentado-pt-br.c:128-132 | The loop from column `i` writes a floor cell at each marker column `i + k*spacing` below `NUM_COLS - 1`, and a ceiling cell at exactly those marker columns left of the limit. Nothing else is written |
| Render.FloorAndCeiling | driver_comentarios-pt-br.c:53-63 | Floor markers are exactly at the columns `col_start + k*spacing` below `NUM_COLS - 1`. Ceiling markers are exactly those columns that also lie left of `SCORE_START_COL - sdigs - bdigs`, the score text's column for the same counters. Nothing else is written |
| Render.DrawPipe | driver-comentado-pt-br.c:181-235 | Every cell is in a visible column in `[0, NUM_COLS-2]` within the pipe's seven columns. Every cell lies on a cap row (`max(ceiling+1, top)` or `min(floor-1, bottom)`) or is a wall cell at `center ± PIPE_RADIUS` outside the caps. No cell lies strictly between the caps. When the caps are distinct rows, the upper cap's cells carry `hcht` and the lower cap's carry `hchb` |
| Render.DrawPipeCovers | driver-comentado-pt-br.c:187-234 | Both caps cover every visible column of the pipe. The walls cover every visible wall cell from the ceiling to the gap's top edge and from its bottom edge to the floor |
| Render.SafeBandBetweenCaps | driver-comentado-pt-br.c:256-269 | For a valid opening the drawn caps are the gap's edge rows. Inside the hit window the bird is safe exactly when its row is strictly between the two drawn caps |
| Render.DrawnColumnsInHitWindow | driver_comentarios-pt-br.c:310-314 | If a pipe at or right of -4 draws any cell in the bird's column, the pipe that `pipe_refresh` moves next has the bird inside its hit window |
| Render.SurvivorClearOfPipe | driver_comentarios-pt-br.c:310-314 | A bird that does not crash into the moved pipe is not on any cell of that pipe as drawn before the move, for a valid opening |
| Render.FlappyGlyph | driver-todo-comentado-pt-br.c:326-366 | The glyph has five cells, one in each column 8..12, all in rows h-1..h+1, with '0' at (h, 10). When descending the wing tips are raised, `\` at (h-1, 8) and `/` at (h-1, 12), and no cell is below h. Ascending in the first half of the flap cycle they are lowered, `/` at (h+1, 8) and `\` at (h+1, 12), and no cell is above h |
| Render.LateFlapIsDescentPose | driver-todo-comentado-pt-br.c:337-366 | When ascending with `frame % 6 >= 3`, the pose is identical to the descending pose |
| Render.DrawFlappy | driver-todo-comentado-pt-br.c:312-369 | Fails exactly on a boundary hit (`h <= 0` or `h >= 23`) or a crash into either pipe. Otherwise it draws '0' at (h, 10), and every cell is on screen |
| Game.Restart | driver-todo-comentado-pt-br.c:424-437 | The pipes restart at columns `(int)(1.2*79)` = 94 and `(int)(1.75*79)` = 138, and the bird at `h0` = 12, `t` = 0. Frame, scores and widths are kept |
| Game.Initial | driver-comentado-pt-br.c:83-96 | The process starts Running with frame 0, score and best 0, and both widths 1 |
| Game.CommitScore | driver-todo-comentado-pt-br.c:289-298 | On a non-'q' key: best becomes `max(score, best)`, score 0, `sdigs` 1. `bdigs` grows by at most one (exactly how far is `Game.CommitWidensBest`). Nothing else changes |
| Game.FailureScreen | driver-todo-comentado-pt-br.c:284-298 | 'q' terminates with everything else untouched, including best and `bdigs`. Any other key commits the score and restarts with the pipes at 94 and 138, without resetting `frame`. The new `bdigs` is given by `Game.CommitWidensBest` |
| Game.AdvancePipes | driver_comentarios-pt-br.c:312-313 | Both pipes are refreshed in order: the score rises by one for each pipe wholly past the left edge (`center + PIPE_RADIUS < 0`), `sdigs` is what the second refresh returns from the first one's score and `sdigs`, and it grows by at most two. Nothing else changes |
| Game.RunFrame | driver_comentarios-pt-br.c:295-321 | 'q' terminates; KEY_UP sets `h0` to the current row and `t` to 0; any other key or none increments `t`. The scenery is drawn with the pre-advance pipes, and collision uses the advanced pipes. A failing frame shows nothing and keeps `frame`; a surviving frame shows, increments `frame` by 1 and gives the score column |
| Game.Next | driver-comentado-pt-br.c:421-480 | Terminated is final. A failure-screen step never stays Failed. A running frame that stays Running is shown |
| Game.NeverWrapTogether | driver_comentarios-pt-br.c:282-284 | Under the invariant, the two pipes are never recycled in the same frame |
| Game.AdvanceScoresOnce | driver_comentarios-pt-br.c:312-313 | Under the invariant, one frame's two refreshes add at most one point and widen `sdigs` by at most one |
| Game.InitialSatisfiesInv | driver_comentarios-pt-br.c:282-287 | The start state satisfies the invariant: pipes at or right of -4, 44 apart modulo 87, valid openings, `sdigs` matching the score, `bdigs` not ahead of the best |
| Game.NextPreservesInv | driver_comentarios-pt-br.c:279-322 | Every step, with openings in range, preserves the invariant |
| Game.RunPreservesInv | driver_comentarios-pt-br.c:279-322 | Any sequence of steps preserves the invariant, so `p2.center - p1.center ≡ 44 (mod 87)` from each restart on |
| Game.ReachableSatisfiesInv | driver_comentarios-pt-br.c:279-289 | Every session reachable from the start satisfies the invariant |
| Game.ScoreRisesByAtMostOne | driver_comentarios-pt-br.c:67-76 | Under the invariant, the score rises by at most one per step |
| Game.SceneryCeilingLeftOfScore | driver_comentarios-pt-br.c:58-61 | On row 0 the floor/ceiling and pipe drawing stays left of `SCORE_START_COL - sdigs - bdigs` |
| Game.ScoreTextKeepsCeilingClear | driver_comentarios-pt-br.c:309-318 | In a shown frame, no cell on row 0 lies right of the score text's first column. That column is a blank that the text writes last |
| Game.PipeBetweenCeilingAndFloor | driver-comentado-pt-br.c:187-225 | With a valid opening, a pipe drawn between rows 0 and 23 writes only to rows 1..22 |
| Game.ShownBirdClearOfScenery | driver_comentarios-pt-br.c:308-318 | In a shown frame, no floor, ceiling or pipe cell of the scenery lies on the bird's centre cell, although the scenery shows the pipes before they move and collision is tested after |
| Game.CommitWidensBest | driver-todo-comentado-pt-br.c:289-295 | Under the invariant, committing a score (and so a non-'q' failure-screen key) sets `bdigs` to one more than before, capped at the new best score's decimal digit count capped at 3 |
| Game.BestDigitsLag | driver-todo-comentado-pt-br.c:290-295 | If the best score jumps from at most 9 to 100 or more, `bdigs` becomes 2, below the capped digit count 3 |

## Left out

- Terminal I/O: `initscr`, `raw`, `keypad`, `noecho`, `curs_set`, `timeout`,
  `clear`, `refresh` and `endwin` are not modelled. `mvprintw` of a
  single-character string becomes one emitted cell.
- The score line's text: only its start column is modelled. The failure and
  splash messages are not modelled either.
- `splash_screen` and all `usleep` pacing: wall-clock timing with no game
  logic.
- `srand`/`rand`: the opening fractions are step inputs. The invariant lemmas
  require them to lie in [0.25, 0.75].
- Float rounding: `GRAV` (0.05f), `V0` and the float/double mixing in
  `get_flappy_position` and `get_orow` are exact rationals here. IEEE rounding
  near integer boundaries is not modelled.
- C `int` overflow: `frame`, `score`, `best_score` and `t` are unbounded
  naturals. Wrap-around after 2^31 frames or points is not modelled.
- Key codes: keys are abstract (Up, Quit, Other). `failure_screen` stores
  `getch()` in a `char`. A key code whose low byte equals 'q' would be read as
  'q' there; the model does not distinguish such codes.
- `exit(0)` is the Terminated mode. The two lines after the `switch` in
  `failure_screen` (driver-comentado-pt-br.c:300-301) cannot be reached.
- `chtostr`: a one-line helper that builds a one-character string.
