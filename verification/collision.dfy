/** Collision of the bird with the ceiling, the floor and a pipe
    (driver-comentado-pt-br.c, `crashed_into_pipe` and the first tests of
    `draw_flappy`). */
module Collision {
  import opened Config
  import opened Flight
  import opened Pipes

  /** The bird's column lies within one column of the drawn pipe: a window
      of nine columns around the pipe's axis. */
  predicate InHitWindow(p: Pipe)
  {
    p.center - PipeRadius - 1 <= FlappyCol <= p.center + PipeRadius + 1
  }

  /** The rows a bird may occupy inside the hit window: strictly inside the
      gap, one row clear of each edge. */
  predicate InSafeBand(h: int, p: Pipe)
  {
    GapTop(p) + 1 <= h <= GapBottom(p) - 1
  }

  /** `crashed_into_pipe`. Outside the axis columns 6..14 nothing is hit;
      with a drawn opening a crash is exactly a row outside the five rows
      directly below the gap's top edge. */
  function CrashedIntoPipe(b: Bird, p: Pipe): (crashed: bool)
    ensures crashed ==> 6 <= p.center <= 14
    ensures ValidOpening(p.opening) ==>
      (crashed <==> 6 <= p.center <= 14 && !(GapTop(p) + 1 <= Position(b) <= GapTop(p) + 5))
  {
    if InHitWindow(p) then !InSafeBand(Position(b), p) else false
  }

  /** Row 0 is the ceiling and row NUM_ROWS-1 the floor; touching either ends
      the game. */
  predicate HitsBoundary(h: int)
  {
    h <= 0 || h >= NumRows - 1
  }

  /** The collision decision of `draw_flappy`: the boundary test first, then
      the two pipes. With drawn openings the bird survives exactly when its
      row is 1..22 and, for each pipe, the pipe's axis is outside columns
      6..14 or the row is one of the five directly below that gap's top edge. */
  function Dies(b: Bird, p1: Pipe, p2: Pipe): (dies: bool)
    ensures Position(b) <= 0 || Position(b) >= NumRows - 1 ==> dies
    ensures ValidOpening(p1.opening) && ValidOpening(p2.opening) ==>
      (!dies <==>
        && 1 <= Position(b) <= NumRows - 2
        && (!(6 <= p1.center <= 14) || GapTop(p1) + 1 <= Position(b) <= GapTop(p1) + 5)
        && (!(6 <= p2.center <= 14) || GapTop(p2) + 1 <= Position(b) <= GapTop(p2) + 5))
  {
    if HitsBoundary(Position(b)) then true
    else CrashedIntoPipe(b, p1) || CrashedIntoPipe(b, p2)
  }
}
