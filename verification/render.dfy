/** Rendering as data: each drawing routine of driver-comentado-pt-br.c returns
    the cells it would write with `mvprintw`, in the order it writes them. */
module Render {
  import opened Numeric
  import opened Config
  import opened Flight
  import opened Pipes
  import opened Collision

  /** One character written at a grid cell (row 0 is the top). */
  datatype Cell = Cell(row: int, col: int, ch: char)

  /** Columns the routines are willing to write: the last column, NUM_COLS-1,
      is never used. */
  predicate Visible(col: int)
  {
    0 <= col < NumCols - 1
  }

  //--------------------------------- Floor and ceiling

  /** Where the score text begins on row 0 for the given width counters. */
  function ScoreColumn(sdigs: int, bdigs: int): int
  {
    ScoreStartCol - sdigs - bdigs
  }

  /** The columns `col_start + k*spacing` left of the last column. */
  predicate OnMarker(col: int, colStart: int, spacing: int)
    requires spacing > 0
  {
    colStart <= col < NumCols - 1 && (col - colStart) % spacing == 0
  }

  lemma NextMarker(col: int, i: int, spacing: int)
    requires spacing > 0
    ensures OnMarker(col, i, spacing) && col != i <==> OnMarker(col, i + spacing, spacing)
  {
    ModShift(col - i, spacing);
    assert col - (i + spacing) == (col - i) - spacing;
    if OnMarker(col, i, spacing) && col != i {
      MultipleAtLeast(col - i, spacing);
    }
  }

  /** The loop of `draw_floor_and_ceiling` from column `i` on. */
  function Markers(ceilingRow: int, floorRow: int, ch: char, spacing: int, i: int, limit: int): (r: seq<Cell>)
    requires spacing > 0
    ensures forall c :: c in r ==>
      c.ch == ch && OnMarker(c.col, i, spacing)
      && (c.row == floorRow || (c.row == ceilingRow && c.col < limit))
    ensures forall col :: OnMarker(col, i, spacing) ==> Cell(floorRow, col, ch) in r
    ensures forall col :: OnMarker(col, i, spacing) && col < limit ==> Cell(ceilingRow, col, ch) in r
    decreases NumCols - 1 - i
  {
    if i >= NumCols - 1 then []
    else
      var rest := Markers(ceilingRow, floorRow, ch, spacing, i + spacing, limit);
      assert forall col :: OnMarker(col, i, spacing) && col != i <==> OnMarker(col, i + spacing, spacing) by {
        forall col { NextMarker(col, i, spacing); }
      }
      (if i < limit then [Cell(ceilingRow, i, ch)] else []) + [Cell(floorRow, i, ch)] + rest
  }

  /** `draw_floor_and_ceiling`: a marker every `spacing` columns from
      `col_start` on both rows; on the ceiling only left of the score text. */
  function FloorAndCeiling(ceilingRow: int, floorRow: int, ch: char, spacing: int,
                           colStart: int, sdigs: int, bdigs: int): (r: seq<Cell>)
    requires spacing > 0
    ensures forall c :: c in r ==>
      c.ch == ch && OnMarker(c.col, colStart, spacing)
      && (c.row == floorRow || (c.row == ceilingRow && c.col < ScoreColumn(sdigs, bdigs)))
    ensures forall col :: OnMarker(col, colStart, spacing) ==> Cell(floorRow, col, ch) in r
    ensures forall col :: OnMarker(col, colStart, spacing) && col < ScoreColumn(sdigs, bdigs) ==>
      Cell(ceilingRow, col, ch) in r
  {
    Markers(ceilingRow, floorRow, ch, spacing, colStart, ScoreColumn(sdigs, bdigs))
  }

  //--------------------------------- Pipes

  /** The two columns carrying a pipe's vertical walls. */
  predicate IsWall(col: int, center: int)
  {
    col == center - PipeRadius || col == center + PipeRadius
  }

  /** One row of both walls, each clipped on its own. */
  function WallPair(center: int, row: int, ch: char): (r: seq<Cell>)
    ensures forall c :: c in r ==> c.row == row && c.ch == ch && Visible(c.col) && IsWall(c.col, center)
    ensures forall col :: Visible(col) && IsWall(col, center) ==> Cell(row, col, ch) in r
  {
    (if Visible(center - PipeRadius) then [Cell(row, center - PipeRadius, ch)] else [])
    + (if Visible(center + PipeRadius) then [Cell(row, center + PipeRadius, ch)] else [])
  }

  /** Walls on rows `row`, `row+1`, ... up to but excluding `top`, downward. */
  function UpperWalls(center: int, ch: char, row: int, top: int): (r: seq<Cell>)
    ensures forall c :: c in r ==> row <= c.row < top && c.ch == ch && Visible(c.col) && IsWall(c.col, center)
    ensures forall rr, col :: row <= rr < top && Visible(col) && IsWall(col, center) ==> Cell(rr, col, ch) in r
    decreases top - row
  {
    if row >= top then [] else WallPair(center, row, ch) + UpperWalls(center, ch, row + 1, top)
  }

  /** Walls on rows `row`, `row-1`, ... down to but excluding `bottom`, upward. */
  function LowerWalls(center: int, ch: char, row: int, bottom: int): (r: seq<Cell>)
    ensures forall c :: c in r ==> bottom < c.row <= row && c.ch == ch && Visible(c.col) && IsWall(c.col, center)
    ensures forall rr, col :: bottom < rr <= row && Visible(col) && IsWall(col, center) ==> Cell(rr, col, ch) in r
    decreases row - bottom
  {
    if row <= bottom then [] else WallPair(center, row, ch) + LowerWalls(center, ch, row - 1, bottom)
  }

  /** A horizontal cap from offset `k` to PIPE_RADIUS around the axis, clipped. */
  function Cap(center: int, row: int, ch: char, k: int): (r: seq<Cell>)
    ensures forall c :: c in r ==> c.row == row && c.ch == ch && Visible(c.col) && center + k <= c.col <= center + PipeRadius
    ensures forall col :: Visible(col) && center + k <= col <= center + PipeRadius ==> Cell(row, col, ch) in r
    decreases PipeRadius - k
  {
    if k > PipeRadius then []
    else (if Visible(center + k) then [Cell(row, center + k, ch)] else []) + Cap(center, row, ch, k + 1)
  }

  /** The row of the upper cap: where the upper wall loop stops. */
  function UpperTerminus(p: Pipe, ceilingRow: int): int
  {
    Max(ceilingRow + 1, GapTop(p))
  }

  /** The row of the lower cap: where the lower wall loop stops. */
  function LowerTerminus(p: Pipe, floorRow: int): int
  {
    Min(floorRow - 1, GapBottom(p))
  }

  /** `draw_pipe`: the upper walls, the upper cap, the lower walls, the lower cap. */
  function DrawPipe(p: Pipe, vch: char, hcht: char, hchb: char, ceilingRow: int, floorRow: int): (r: seq<Cell>)
    ensures forall c :: c in r ==> Visible(c.col) && p.center - PipeRadius <= c.col <= p.center + PipeRadius
    ensures forall c :: c in r ==>
      || c.row == UpperTerminus(p, ceilingRow)
      || c.row == LowerTerminus(p, floorRow)
      || (IsWall(c.col, p.center) && c.ch == vch
          && (ceilingRow < c.row < UpperTerminus(p, ceilingRow) || LowerTerminus(p, floorRow) < c.row < floorRow))
    ensures forall c :: c in r ==>
      !(UpperTerminus(p, ceilingRow) < c.row < LowerTerminus(p, floorRow))
    ensures UpperTerminus(p, ceilingRow) < LowerTerminus(p, floorRow) ==>
      forall c :: c in r && c.row == UpperTerminus(p, ceilingRow) ==> c.ch == hcht
    ensures UpperTerminus(p, ceilingRow) < LowerTerminus(p, floorRow) ==>
      forall c :: c in r && c.row == LowerTerminus(p, floorRow) ==> c.ch == hchb
  {
    var upper := UpperWalls(p.center, vch, ceilingRow + 1, GapTop(p));
    var lower := LowerWalls(p.center, vch, floorRow - 1, GapBottom(p));
    var upperCap := Cap(p.center, UpperTerminus(p, ceilingRow), hcht, -PipeRadius);
    var lowerCap := Cap(p.center, LowerTerminus(p, floorRow), hchb, -PipeRadius);
    var U, L := UpperTerminus(p, ceilingRow), LowerTerminus(p, floorRow);
    PiecesFormPipe(upper, upperCap, lower, lowerCap, p.center, vch, hcht, hchb, ceilingRow, floorRow, U, L);
    upper + upperCap + lower + lowerCap
  }

  /** The four pieces of `draw_pipe`, each confined to its own rows, put
      together: walls outside the caps, two cap rows, nothing in between. */
  lemma PiecesFormPipe(upper: seq<Cell>, upperCap: seq<Cell>, lower: seq<Cell>, lowerCap: seq<Cell>,
                       center: int, vch: char, hcht: char, hchb: char,
                       ceilingRow: int, floorRow: int, U: int, L: int)
    requires forall c :: c in upper ==>
      Visible(c.col) && IsWall(c.col, center) && c.ch == vch && ceilingRow < c.row < U
    requires forall c :: c in lower ==>
      Visible(c.col) && IsWall(c.col, center) && c.ch == vch && L < c.row < floorRow
    requires forall c :: c in upperCap ==>
      Visible(c.col) && center - PipeRadius <= c.col <= center + PipeRadius && c.row == U && c.ch == hcht
    requires forall c :: c in lowerCap ==>
      Visible(c.col) && center - PipeRadius <= c.col <= center + PipeRadius && c.row == L && c.ch == hchb
    ensures forall c :: c in upper + upperCap + lower + lowerCap ==>
      Visible(c.col) && center - PipeRadius <= c.col <= center + PipeRadius
    ensures forall c :: c in upper + upperCap + lower + lowerCap ==>
      || c.row == U || c.row == L
      || (IsWall(c.col, center) && c.ch == vch && (ceilingRow < c.row < U || L < c.row < floorRow))
    ensures forall c :: c in upper + upperCap + lower + lowerCap ==> !(U < c.row < L)
    ensures U < L ==> forall c :: c in upper + upperCap + lower + lowerCap && c.row == U ==> c.ch == hcht
    ensures U < L ==> forall c :: c in upper + upperCap + lower + lowerCap && c.row == L ==> c.ch == hchb
  {
    assert forall c :: c in upper + upperCap + lower + lowerCap ==>
      c in upper || c in upperCap || c in lower || c in lowerCap;
  }

  /** `draw_pipe` leaves out nothing: both caps span every visible column of
      the pipe, and the walls fill every visible wall cell above the gap's top
      edge and below its bottom edge, between ceiling and floor. */
  lemma DrawPipeCovers(p: Pipe, vch: char, hcht: char, hchb: char, ceilingRow: int, floorRow: int)
    ensures forall col :: Visible(col) && p.center - PipeRadius <= col <= p.center + PipeRadius ==>
      && Cell(UpperTerminus(p, ceilingRow), col, hcht) in DrawPipe(p, vch, hcht, hchb, ceilingRow, floorRow)
      && Cell(LowerTerminus(p, floorRow), col, hchb) in DrawPipe(p, vch, hcht, hchb, ceilingRow, floorRow)
    ensures forall row, col ::
      (ceilingRow < row < GapTop(p) || GapBottom(p) < row < floorRow) && Visible(col) && IsWall(col, p.center)
      ==> Cell(row, col, vch) in DrawPipe(p, vch, hcht, hchb, ceilingRow, floorRow)
  {
  }

  /** For a drawn opening on the 24-row board the caps are the gap's own edge
      rows, and the bird is safe inside the hit window exactly when its row is
      strictly between the two drawn caps. */
  lemma SafeBandBetweenCaps(b: Bird, p: Pipe)
    requires ValidOpening(p.opening) && InHitWindow(p)
    ensures UpperTerminus(p, 0) == GapTop(p) && LowerTerminus(p, NumRows - 1) == GapBottom(p)
    ensures !CrashedIntoPipe(b, p) <==> UpperTerminus(p, 0) < Position(b) < LowerTerminus(p, NumRows - 1)
  {
  }

  /** `main` draws each pipe before `pipe_refresh` moves it and tests the
      collision afterwards: whenever the drawn pipe has a cell in the bird's
      column, the moved pipe has the bird inside its hit window. */
  lemma DrawnColumnsInHitWindow(p: Pipe, score: nat, sdigs: nat, drawn: real)
    requires p.center >= LowestCenter
    ensures forall c :: c in DrawPipe(p, '|', '=', '=', 0, NumRows - 1) && c.col == FlappyCol ==>
      InHitWindow(PipeRefresh(p, score, sdigs, drawn).pipe)
  {
  }

  /** A bird that the moved pipe lets through is never on a cell of the pipe
      as drawn in the same frame: the collision test agrees with the picture. */
  lemma SurvivorClearOfPipe(b: Bird, p: Pipe, score: nat, sdigs: nat, drawn: real)
    requires p.center >= LowestCenter && ValidOpening(p.opening)
    requires !CrashedIntoPipe(b, PipeRefresh(p, score, sdigs, drawn).pipe)
    ensures forall c :: c in DrawPipe(p, '|', '=', '=', 0, NumRows - 1) ==>
      !(c.row == Position(b) && c.col == FlappyCol)
  {
    var cells := DrawPipe(p, '|', '=', '=', 0, NumRows - 1);
    forall c | c in cells && c.col == FlappyCol
      ensures c.row != Position(b)
    {
      assert 7 <= p.center <= 13;
      var moved := PipeRefresh(p, score, sdigs, drawn).pipe;
      assert moved == Pipe(p.opening, p.center - 1);
      assert InHitWindow(moved) && InHitWindow(p);
      assert GapTop(p) + 1 <= Position(b) <= GapBottom(p) - 1;
      SafeBandBetweenCaps(b, p);
    }
  }

  //--------------------------------- The bird

  /** The five cells of the bird at row `h`: descending it holds both wings
      raised; ascending it flaps, wings lowered for three frames and raised
      for the next three. */
  function FlappyGlyph(h: int, descending: bool, frame: nat): (r: seq<Cell>)
    ensures |r| == 5
    ensures Cell(h, FlappyCol, '0') in r
    ensures forall c :: c in r ==> h - 1 <= c.row <= h + 1 && FlappyCol - 2 <= c.col <= FlappyCol + 2
    ensures (set c | c in r :: c.col) == {FlappyCol - 2, FlappyCol - 1, FlappyCol, FlappyCol + 1, FlappyCol + 2}
    ensures descending ==> forall c :: c in r ==> c.row <= h
    ensures !descending && frame % 6 < 3 ==> forall c :: c in r ==> c.row >= h
    ensures descending ==>
      Cell(h - 1, FlappyCol - 2, '\\') in r && Cell(h - 1, FlappyCol + 2, '/') in r
    ensures !descending && frame % 6 < 3 ==>
      Cell(h + 1, FlappyCol - 2, '/') in r && Cell(h + 1, FlappyCol + 2, '\\') in r
  {
    if descending then
      [Cell(h, FlappyCol - 1, '\\'), Cell(h - 1, FlappyCol - 2, '\\'), Cell(h, FlappyCol, '0'),
       Cell(h, FlappyCol + 1, '/'), Cell(h - 1, FlappyCol + 2, '/')]
    else
      (if frame % 6 < 3 then [Cell(h, FlappyCol - 1, '/'), Cell(h + 1, FlappyCol - 2, '/')]
       else [Cell(h, FlappyCol - 1, '\\'), Cell(h - 1, FlappyCol - 2, '\\')])
      + [Cell(h, FlappyCol, '0')]
      + (if frame % 6 < 3 then [Cell(h, FlappyCol + 1, '\\'), Cell(h + 1, FlappyCol + 2, '\\')]
         else [Cell(h, FlappyCol + 1, '/'), Cell(h - 1, FlappyCol + 2, '/')])
  }

  /** The second half of the flap cycle is the same picture as the descent. */
  lemma LateFlapIsDescentPose(h: int, frame: nat)
    requires frame % 6 >= 3
    ensures FlappyGlyph(h, false, frame) == FlappyGlyph(h, true, frame)
  {
  }

  /** What `draw_flappy` does before returning: either it reports a crash
      (and hands over to the failure screen) or it draws the bird. */
  datatype FlappyDraw = Crashed | Drawn(cells: seq<Cell>)

  /** `draw_flappy` against the two pipes: the collision decision of `Dies`,
      whose boundary test comes before the pipe tests, then the glyph. */
  function DrawFlappy(b: Bird, p1: Pipe, p2: Pipe, frame: nat): (r: FlappyDraw)
    ensures r.Crashed? <==>
      HitsBoundary(Position(b)) || CrashedIntoPipe(b, p1) || CrashedIntoPipe(b, p2)
    ensures r.Drawn? ==>
      Cell(Position(b), FlappyCol, '0') in r.cells
      && forall c :: c in r.cells ==> 0 <= c.row <= NumRows - 1 && Visible(c.col)
  {
    if Dies(b, p1, p2) then Crashed
    else Drawn(FlappyGlyph(Position(b), Descending(b), frame))
  }
}
