/** Pipes: their gap geometry and their right-to-left scroll with recycling and
    scoring (driver-comentado-pt-br.c, `vpipe`, `pipe_refresh`, `get_orow`). */
module Pipes {
  import opened Numeric
  import opened Config

  /** The gap's vertical centre as a fraction of the window height, and the
      column of the pipe's axis. */
  datatype Pipe = Pipe(opening: real, center: int)

  /** The range of `rand() / (float) INT_MAX * 0.5 + 0.25`; `rand()` may return
      INT_MAX itself, so both ends are included. */
  predicate ValidOpening(o: real)
  {
    0.25 <= o <= 0.75
  }

  /** `get_orow`: the gap's edge row, `opening * (NUM_ROWS-1) -/+ OPENING_WIDTH/2`
      with the C integer division and the float-to-int truncation. */
  function OpeningRow(p: Pipe, top: bool): (edge: int)
    ensures ValidOpening(p.opening) ==>
      edge as real <= p.opening * 23.0 + (if top then -3.0 else 3.0) < edge as real + 1.0
    ensures ValidOpening(p.opening) && top ==> 2 <= edge <= 14
    ensures ValidOpening(p.opening) && !top ==> 8 <= edge <= 20
  {
    var halfWidth := TruncDiv((if top then 1 else -1) * OpeningWidth, 2);
    assert halfWidth == (if top then 3 else -3);
    TruncReal(p.opening * (NumRows - 1) as real - halfWidth as real)
  }

  function GapTop(p: Pipe): int { OpeningRow(p, true) }

  function GapBottom(p: Pipe): int { OpeningRow(p, false) }

  /** For a drawn opening fraction the gap's top edge lies in rows 2..14 and
      the bottom edge is always six rows lower. */
  lemma GapGeometry(p: Pipe)
    requires ValidOpening(p.opening)
    ensures 2 <= GapTop(p) <= 14
    ensures GapBottom(p) == GapTop(p) + 6
  {
  }

  /** Decimal digits of a non-negative number: the reference the printed
      width counters are compared with. */
  function DecimalDigits(n: nat): (d: nat)
    ensures d >= 1
  {
    if n < 10 then 1 else 1 + DecimalDigits(n / 10)
  }

  /** The digit count the width counters can reach: they stop at three. */
  function CappedDigits(n: nat): nat
  {
    Min(DecimalDigits(n), 3)
  }

  lemma {:induction false} CappedDigitsBands(n: nat)
    ensures n < 10 ==> CappedDigits(n) == 1
    ensures 10 <= n < 100 ==> CappedDigits(n) == 2
    ensures 100 <= n ==> CappedDigits(n) == 3
  {
    if 10 <= n {
      assert DecimalDigits(n) == 1 + DecimalDigits(n / 10);
      if 100 <= n {
        assert DecimalDigits(n / 10) == 1 + DecimalDigits(n / 10 / 10);
      }
    }
  }

  /** The width-widening rule shared by `sdigs` (pipe_refresh) and `bdigs`
      (failure_screen): one more digit once the value passes 9, or 99. */
  function WidenDigits(digits: nat, value: int): (d: nat)
    ensures digits <= d <= digits + 1
    ensures d != digits <==> (digits == 1 && value > 9) || (digits == 2 && value > 99)
  {
    if digits == 1 && value > 9 then 2
    else if digits == 2 && value > 99 then 3
    else digits
  }

  /** After a unit increment the widened counter is again the capped digit
      count, whenever it was before. */
  lemma WidenTracksIncrement(score: nat, digits: nat)
    requires digits == CappedDigits(score)
    ensures WidenDigits(digits, score + 1) == CappedDigits(score + 1)
  {
    CappedDigitsBands(score);
    CappedDigitsBands(score + 1);
  }

  /** The counter widens only at the two crossings 9 -> 10 and 99 -> 100. */
  lemma WidenOnlyAtCrossings(score: nat, digits: nat)
    requires digits == CappedDigits(score)
    ensures WidenDigits(digits, score + 1) != digits <==> score == 9 || score == 99
  {
    CappedDigitsBands(score);
    CappedDigitsBands(score + 1);
  }

  /** The value of `sdigs` after `n` recycled pipes, starting from a score of
      0 shown with one digit. */
  function CountedDigits(n: nat): nat
  {
    if n == 0 then 1 else WidenDigits(CountedDigits(n - 1), n)
  }

  /** Unit increments from 0 keep `sdigs` equal to the score's decimal digit
      count, capped at three. */
  lemma {:induction false} CountedDigitsAreCapped(n: nat)
    ensures CountedDigits(n) == CappedDigits(n)
  {
    if n == 0 {
      CappedDigitsBands(0);
    } else {
      CountedDigitsAreCapped(n - 1);
      WidenTracksIncrement(n - 1, CountedDigits(n - 1));
    }
  }

  /** A pipe together with the global `score` and `sdigs` it may change. */
  datatype Refreshed = Refreshed(pipe: Pipe, score: nat, sdigs: nat)

  /** `pipe_refresh`: scroll one column left; a pipe wholly past the left edge
      is first moved to `NUM_COLS + PIPE_RADIUS`, given the newly drawn opening and
      counted as passed. */
  function PipeRefresh(p: Pipe, score: nat, sdigs: nat, drawn: real): (r: Refreshed)
    ensures p.center + PipeRadius >= 0 ==>
      r == Refreshed(Pipe(p.opening, p.center - 1), score, sdigs)
    ensures p.center + PipeRadius < 0 ==>
      r.pipe == Pipe(drawn, NumCols + PipeRadius - 1) && r.score == score + 1
    ensures sdigs <= r.sdigs <= sdigs + 1
  {
    if p.center + PipeRadius < 0 then
      var score' := score + 1;
      Refreshed(Pipe(drawn, NumCols + PipeRadius - 1), score', WidenDigits(sdigs, score'))
    else
      Refreshed(Pipe(p.opening, p.center - 1), score, sdigs)
  }

  /** The lowest column a pipe reaches before it is recycled. */
  const LowestCenter: int := -(PipeRadius + 1)

  /** The recycling period: a pipe returns to the same column every 87 frames. */
  const Period: int := NumCols + PipeRadius + PipeRadius + 1

  /** Centres at or right of -4 stay there, and each refresh is a step of -1
      modulo 87 (82 and -5 are the same column modulo 87). */
  lemma RefreshStepsModPeriod(p: Pipe, score: nat, sdigs: nat, drawn: real)
    requires p.center >= LowestCenter
    ensures PipeRefresh(p, score, sdigs, drawn).pipe.center >= LowestCenter
    ensures (PipeRefresh(p, score, sdigs, drawn).pipe.center - (p.center - 1)) % Period == 0
    ensures PipeRefresh(p, score, sdigs, drawn).score != score <==> p.center == LowestCenter
  {
  }

  /** Starting from a counter that matches the score, refreshing keeps `sdigs`
      equal to the score's digit count capped at three. */
  lemma RefreshKeepsDigits(p: Pipe, score: nat, sdigs: nat, drawn: real)
    requires sdigs == CappedDigits(score)
    ensures PipeRefresh(p, score, sdigs, drawn).sdigs == CappedDigits(PipeRefresh(p, score, sdigs, drawn).score)
  {
    WidenTracksIncrement(score, sdigs);
  }
}
