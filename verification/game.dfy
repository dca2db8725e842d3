/** The session state machine: the body of `main`'s loop and the failure
    screen's key handling (driver-comentado-pt-br.c, `main` and
    `failure_screen`), over one immutable record instead of globals. */
module Game {
  import opened Numeric
  import opened Config
  import opened Flight
  import opened Pipes
  import opened Collision
  import opened Render

  /** Running frames; the failure screen waiting for its key; or the process
      has exited. */
  datatype Mode = Running | Failed | Terminated

  /** The key read for a frame: KEY_UP, 'q', or anything else (in a running
      frame this includes "no key"). */
  datatype Key = Up | Quit | Other

  /** The globals `frame`, `score`, `sdigs`, `best_score`, `bdigs`, `p1`, `p2`
      and `main`'s local bird `f`. */
  datatype Session = Session(
    frame: nat, score: nat, sdigs: nat, best: nat, bdigs: nat,
    p1: Pipe, p2: Pipe, bird: Bird, mode: Mode)

  /** What a step puts on the terminal: a completed frame (its cells in write
      order and the column where the score text starts) or nothing. */
  datatype Screen = Hidden | Shown(cells: seq<Cell>, scoreCol: int)

  datatype Step = Step(next: Session, screen: Screen)

  /** `(int)(1.2 * (NUM_COLS - 1))`: the first pipe starts off-screen right. */
  const FirstStart: int := TruncReal(1.2 * (NumCols - 1) as real)

  /** `(int)(1.75 * (NUM_COLS - 1))`: the second pipe starts further right. */
  const SecondStart: int := TruncReal(1.75 * (NumCols - 1) as real)

  /** The `if (restart)` block of `main`: new pipes with the given openings and
      the bird at mid-screen; scores and the frame counter are kept. */
  function Restart(s: Session, o1: real, o2: real): (r: Session)
    ensures r.p1 == Pipe(o1, 94) && r.p2 == Pipe(o2, 138)
    ensures r.bird == Bird(12, 0) && r.mode == Running
    ensures r.frame == s.frame && r.score == s.score && r.sdigs == s.sdigs
    ensures r.best == s.best && r.bdigs == s.bdigs
  {
    s.(p1 := Pipe(o1, FirstStart), p2 := Pipe(o2, SecondStart),
       bird := Bird(NumRows / 2, 0), mode := Running)
  }

  /** The process start: zeroed globals, score widths of one digit, then the
      restart block of the first loop iteration. */
  function Initial(o1: real, o2: real): (r: Session)
    ensures r.frame == 0 && r.score == 0 && r.best == 0 && r.sdigs == 1 && r.bdigs == 1
    ensures r.mode == Running
  {
    Restart(Session(0, 0, 1, 0, 1, Pipe(0.0, 0), Pipe(0.0, 0), Bird(0, 0), Running), o1, o2)
  }

  /** The default branch of `failure_screen`: keep the better score, let its
      width counter widen by at most one digit, and reset the current score. */
  function CommitScore(s: Session): (r: Session)
    ensures r.best == Max(s.score, s.best) && r.score == 0 && r.sdigs == 1
    ensures s.bdigs <= r.bdigs <= s.bdigs + 1
    ensures r.frame == s.frame && r.p1 == s.p1 && r.p2 == s.p2 && r.bird == s.bird && r.mode == s.mode
  {
    var best := if s.score > s.best then s.score else s.best;
    s.(best := best, bdigs := WidenDigits(s.bdigs, best), score := 0, sdigs := 1)
  }

  /** The failure screen's key: 'q' exits with the best score untouched; any
      other key commits the score and restarts the game. */
  function FailureScreen(s: Session, key: Key, o1: real, o2: real): (r: Session)
    ensures key == Quit ==> r == s.(mode := Terminated)
    ensures key != Quit ==>
      && r.best == Max(s.score, s.best) && r.score == 0 && r.sdigs == 1
      && s.bdigs <= r.bdigs <= s.bdigs + 1
      && r.mode == Running && r.frame == s.frame
      && r.p1 == Pipe(o1, 94) && r.p2 == Pipe(o2, 138) && r.bird == Bird(12, 0)
  {
    if key == Quit then s.(mode := Terminated)
    else Restart(CommitScore(s), o1, o2)
  }

  /** Floor, ceiling and both pipes as `main` draws them, before the pipes move. */
  function Scenery(s: Session): seq<Cell>
  {
    FloorAndCeiling(0, NumRows - 1, '/', 2, s.frame % 2, s.sdigs, s.bdigs)
    + DrawPipe(s.p1, '|', '=', '=', 0, NumRows - 1)
    + DrawPipe(s.p2, '|', '=', '=', 0, NumRows - 1)
  }

  /** `pipe_refresh(&p1); pipe_refresh(&p2);`: both pipes move one column
      left, each recycled pipe counting one point. */
  function AdvancePipes(s: Session, o1: real, o2: real): (r: Session)
    ensures r.p1 == PipeRefresh(s.p1, s.score, s.sdigs, o1).pipe
    ensures r.p2 == PipeRefresh(s.p2, PipeRefresh(s.p1, s.score, s.sdigs, o1).score,
                                PipeRefresh(s.p1, s.score, s.sdigs, o1).sdigs, o2).pipe
    ensures r.score == s.score + (if s.p1.center + PipeRadius < 0 then 1 else 0)
                              + (if s.p2.center + PipeRadius < 0 then 1 else 0)
    ensures r.sdigs == PipeRefresh(s.p2, PipeRefresh(s.p1, s.score, s.sdigs, o1).score,
                                   PipeRefresh(s.p1, s.score, s.sdigs, o1).sdigs, o2).sdigs
    ensures s.sdigs <= r.sdigs <= s.sdigs + 2
    ensures r.frame == s.frame && r.best == s.best && r.bdigs == s.bdigs
    ensures r.bird == s.bird && r.mode == s.mode
  {
    var r1 := PipeRefresh(s.p1, s.score, s.sdigs, o1);
    var r2 := PipeRefresh(s.p2, r1.score, r1.sdigs, o2);
    s.(p1 := r1.pipe, p2 := r2.pipe, score := r2.score, sdigs := r2.sdigs)
  }

  /** One iteration of `main`'s loop after the restart block: read the key,
      draw the scenery, advance both pipes, then draw the bird, which decides
      collision against the advanced pipes. */
  function RunFrame(s: Session, key: Key, o1: real, o2: real): (r: Step)
    requires s.mode == Running
    ensures key == Quit ==> r == Step(s.(mode := Terminated), Hidden)
    ensures key == Up ==> r.next.bird == Bird(Position(s.bird), 0)
    ensures key == Other ==> r.next.bird == Bird(s.bird.h0, s.bird.t + 1)
    ensures key != Quit ==>
      && r.next.(bird := s.bird, mode := Running, frame := s.frame) == AdvancePipes(s, o1, o2)
      && (r.next.mode == Failed <==> Dies(r.next.bird, r.next.p1, r.next.p2))
      && (r.next.mode == Running <==> r.screen.Shown?)
      && r.next.mode != Terminated
      && r.next.frame == (if r.next.mode == Running then s.frame + 1 else s.frame)
    ensures r.screen.Shown? ==>
      && r.screen.cells == Scenery(s) + FlappyGlyph(Position(r.next.bird), Descending(r.next.bird), s.frame)
      && r.screen.scoreCol == ScoreColumn(r.next.sdigs, r.next.bdigs)
  {
    if key == Quit then Step(s.(mode := Terminated), Hidden)
    else
      var bird := if key == Up then Boost(s.bird) else Fall(s.bird);
      var moved := AdvancePipes(s, o1, o2).(bird := bird);
      match DrawFlappy(bird, moved.p1, moved.p2, s.frame)
      case Crashed => Step(moved.(mode := Failed), Hidden)
      case Drawn(glyph) =>
        Step(moved.(frame := s.frame + 1), Shown(Scenery(s) + glyph, ScoreColumn(moved.sdigs, moved.bdigs)))
  }

  /** One step of the session for the key read in its current mode and the
      opening fractions `rand()` would supply for it. */
  function Next(s: Session, key: Key, o1: real, o2: real): (r: Step)
    ensures s.mode == Terminated ==> r == Step(s, Hidden)
    ensures s.mode == Failed ==> r.screen == Hidden && r.next.mode != Failed
    ensures s.mode == Running ==> r.next.mode != Running || r.screen.Shown?
  {
    match s.mode
    case Running => RunFrame(s, key, o1, o2)
    case Failed => Step(FailureScreen(s, key, o1, o2), Hidden)
    case Terminated => Step(s, Hidden)
  }

  //--------------------------------- Invariants across frames

  /** What every reachable session satisfies: both pipes at or right of column
      -4 and 44 columns apart modulo the 87-frame recycling period, valid gap
      fractions, `sdigs` equal to the score's capped digit count, and `bdigs`
      never ahead of the best score's. */
  predicate Inv(s: Session)
  {
    && s.p1.center >= LowestCenter && s.p2.center >= LowestCenter
    && (s.p2.center - s.p1.center) % Period == SecondStart - FirstStart
    && ValidOpening(s.p1.opening) && ValidOpening(s.p2.opening)
    && s.sdigs == CappedDigits(s.score)
    && 1 <= s.bdigs <= CappedDigits(s.best)
  }

  lemma InitialSatisfiesInv(o1: real, o2: real)
    requires ValidOpening(o1) && ValidOpening(o2)
    ensures Inv(Initial(o1, o2))
  {
  }

  /** The two pipes are never both recycled in the same frame. */
  lemma NeverWrapTogether(s: Session)
    requires Inv(s)
    ensures !(s.p1.center + PipeRadius < 0 && s.p2.center + PipeRadius < 0)
  {
  }

  /** The 44-column offset modulo 87 survives both pipes moving one step. */
  lemma OffsetSurvivesRefresh(c1: int, c2: int, d1: int, d2: int)
    requires (c2 - c1) % Period == 44
    requires (d1 - (c1 - 1)) % Period == 0 && (d2 - (c2 - 1)) % Period == 0
    requires d1 == c1 - 1 || d1 == c1 - 1 + Period
    requires d2 == c2 - 1 || d2 == c2 - 1 + Period
    ensures (d2 - d1) % Period == 44
  {
  }

  /** Advancing the pipes keeps the invariant. */
  lemma AdvanceKeepsInv(s: Session, o1: real, o2: real)
    requires Inv(s) && ValidOpening(o1) && ValidOpening(o2)
    ensures Inv(AdvancePipes(s, o1, o2))
  {
    var r1 := PipeRefresh(s.p1, s.score, s.sdigs, o1);
    var r2 := PipeRefresh(s.p2, r1.score, r1.sdigs, o2);
    NeverWrapTogether(s);
    RefreshStepsModPeriod(s.p1, s.score, s.sdigs, o1);
    RefreshStepsModPeriod(s.p2, r1.score, r1.sdigs, o2);
    OffsetSurvivesRefresh(s.p1.center, s.p2.center, r1.pipe.center, r2.pipe.center);
    RefreshKeepsDigits(s.p1, s.score, s.sdigs, o1);
    RefreshKeepsDigits(s.p2, r1.score, r1.sdigs, o2);
  }

  /** Since the pipes never recycle together, one advance adds at most one
      point and widens `sdigs` by at most one digit. */
  lemma AdvanceScoresOnce(s: Session, o1: real, o2: real)
    requires Inv(s)
    ensures AdvancePipes(s, o1, o2).score <= s.score + 1
    ensures AdvancePipes(s, o1, o2).sdigs <= s.sdigs + 1
  {
  }

  /** Committing a score on the failure screen keeps the invariant. */
  lemma CommitKeepsInv(s: Session)
    requires Inv(s)
    ensures Inv(CommitScore(s))
  {
    var best := Max(s.score, s.best);
    CappedDigitsBands(s.best);
    CappedDigitsBands(best);
    CappedDigitsBands(0);
  }

  /** Every step from a session satisfying the invariant, with opening
      fractions in range, reaches one that satisfies it again. */
  lemma {:induction false} NextPreservesInv(s: Session, key: Key, o1: real, o2: real)
    requires Inv(s) && ValidOpening(o1) && ValidOpening(o2)
    ensures Inv(Next(s, key, o1, o2).next)
  {
    match s.mode
    case Running =>
      var next := RunFrame(s, key, o1, o2).next;
      assert Next(s, key, o1, o2).next == next;
      if key != Quit {
        var adv := AdvancePipes(s, o1, o2);
        AdvanceKeepsInv(s, o1, o2);
        assert next.p1 == adv.p1 && next.p2 == adv.p2;
        assert next.score == adv.score && next.sdigs == adv.sdigs;
        assert next.best == adv.best && next.bdigs == adv.bdigs;
      }
    case Failed =>
      if key != Quit {
        CommitKeepsInv(s);
        var c := CommitScore(s);
        assert Next(s, key, o1, o2).next == Restart(c, o1, o2);
      }
    case Terminated =>
  }

  /** What the environment supplies to one step: the key read and the two
      opening fractions `rand()` would produce. */
  datatype Input = Input(key: Key, o1: real, o2: real)

  /** The session after a sequence of steps. */
  function Run(s: Session, inputs: seq<Input>): Session
    decreases |inputs|
  {
    if |inputs| == 0 then s
    else Run(Next(s, inputs[0].key, inputs[0].o1, inputs[0].o2).next, inputs[1..])
  }

  predicate ValidInputs(inputs: seq<Input>)
  {
    forall i :: 0 <= i < |inputs| ==> ValidOpening(inputs[i].o1) && ValidOpening(inputs[i].o2)
  }

  /** Every session reached from one satisfying the invariant satisfies it:
      in particular the pipes stay 44 columns apart modulo 87 from each
      restart on. */
  lemma {:induction false} RunPreservesInv(s: Session, inputs: seq<Input>)
    requires Inv(s) && ValidInputs(inputs)
    ensures Inv(Run(s, inputs))
    decreases |inputs|
  {
    if |inputs| > 0 {
      NextPreservesInv(s, inputs[0].key, inputs[0].o1, inputs[0].o2);
      assert ValidInputs(inputs[1..]) by {
        forall i | 0 <= i < |inputs| - 1
          ensures ValidOpening(inputs[1..][i].o1) && ValidOpening(inputs[1..][i].o2)
        {
          assert inputs[1..][i] == inputs[i + 1];
        }
      }
      RunPreservesInv(Next(s, inputs[0].key, inputs[0].o1, inputs[0].o2).next, inputs[1..]);
    }
  }

  /** Every session the game can reach satisfies the invariant. */
  lemma ReachableSatisfiesInv(o1: real, o2: real, inputs: seq<Input>)
    requires ValidOpening(o1) && ValidOpening(o2) && ValidInputs(inputs)
    ensures Inv(Run(Initial(o1, o2), inputs))
  {
    InitialSatisfiesInv(o1, o2);
    RunPreservesInv(Initial(o1, o2), inputs);
  }

  /** Because the pipes never recycle together, the score rises by at most
      one per frame. */
  lemma ScoreRisesByAtMostOne(s: Session, key: Key, o1: real, o2: real)
    requires Inv(s)
    ensures Next(s, key, o1, o2).next.score <= s.score + 1
  {
    if s.mode == Running && key != Quit {
      AdvanceScoresOnce(s, o1, o2);
    }
  }

  /** On the ceiling row the scenery stays left of the score text's column
      for the counters it was drawn with. */
  lemma SceneryCeilingLeftOfScore(s: Session)
    requires Inv(s)
    ensures forall c :: c in Scenery(s) && c.row == 0 ==> c.col < ScoreColumn(s.sdigs, s.bdigs)
  {
    PipeBetweenCeilingAndFloor(s.p1);
    PipeBetweenCeilingAndFloor(s.p2);
    var fc := FloorAndCeiling(0, NumRows - 1, '/', 2, s.frame % 2, s.sdigs, s.bdigs);
    var d1 := DrawPipe(s.p1, '|', '=', '=', 0, NumRows - 1);
    var d2 := DrawPipe(s.p2, '|', '=', '=', 0, NumRows - 1);
    assert forall c :: c in Scenery(s) ==> c in fc || c in d1 || c in d2;
  }

  /** Nothing drawn on the ceiling row of a shown frame lies right of the
      score text's first column, a blank that the text itself writes last. */
  lemma {:induction false} ScoreTextKeepsCeilingClear(s: Session, key: Key, o1: real, o2: real)
    requires Inv(s) && s.mode == Running
    ensures RunFrame(s, key, o1, o2).screen.Shown? ==>
      forall c :: c in RunFrame(s, key, o1, o2).screen.cells && c.row == 0 ==>
        c.col <= RunFrame(s, key, o1, o2).screen.scoreCol
  {
    var st := RunFrame(s, key, o1, o2);
    if st.screen.Shown? {
      var adv := AdvancePipes(s, o1, o2);
      AdvanceScoresOnce(s, o1, o2);
      assert st.next.sdigs == adv.sdigs && st.next.bdigs == s.bdigs;
      CappedDigitsBands(s.score);
      CappedDigitsBands(s.best);
      var glyph := FlappyGlyph(Position(st.next.bird), Descending(st.next.bird), s.frame);
      assert st.screen.cells == Scenery(s) + glyph;
      assert st.screen.scoreCol == ScoreColumn(adv.sdigs, s.bdigs);
      CeilingClearOfText(s, glyph, adv.sdigs);
    }
  }

  lemma CeilingClearOfText(s: Session, glyph: seq<Cell>, sdigs: int)
    requires Inv(s) && sdigs <= s.sdigs + 1 && s.sdigs <= 3 && s.bdigs <= 3
    requires forall c :: c in glyph ==> c.col <= FlappyCol + 2
    ensures forall c :: c in Scenery(s) + glyph && c.row == 0 ==> c.col <= ScoreColumn(sdigs, s.bdigs)
  {
    SceneryCeilingLeftOfScore(s);
  }

  /** A pipe with a drawn opening stays strictly between row 0 and row 23. */
  lemma PipeBetweenCeilingAndFloor(p: Pipe)
    requires ValidOpening(p.opening)
    ensures forall c :: c in DrawPipe(p, '|', '=', '=', 0, NumRows - 1) ==> 1 <= c.row <= NumRows - 2
  {
    GapGeometry(p);
  }

  /** On a non-'q' key the best score's width counter moves one digit
      toward the new best score's capped digit count, and no further. */
  lemma CommitWidensBest(s: Session, key: Key, o1: real, o2: real)
    requires Inv(s)
    ensures CommitScore(s).bdigs == Min(s.bdigs + 1, CappedDigits(Max(s.score, s.best)))
    ensures key != Quit ==>
      FailureScreen(s, key, o1, o2).bdigs == Min(s.bdigs + 1, CappedDigits(Max(s.score, s.best)))
  {
    CappedDigitsBands(s.best);
    CappedDigitsBands(Max(s.score, s.best));
  }

  /** In a shown frame no pipe drawn by the scenery, nor the floor or the
      ceiling, lies on the bird's centre cell: the collision test against the
      moved pipes agrees with the pipes on screen. */
  lemma ShownBirdClearOfScenery(s: Session, key: Key, o1: real, o2: real)
    requires Inv(s) && s.mode == Running
    ensures RunFrame(s, key, o1, o2).screen.Shown? ==>
      forall c :: c in Scenery(s) ==>
        !(c.row == Position(RunFrame(s, key, o1, o2).next.bird) && c.col == FlappyCol)
  {
    var st := RunFrame(s, key, o1, o2);
    if st.screen.Shown? {
      var b := st.next.bird;
      var r1 := PipeRefresh(s.p1, s.score, s.sdigs, o1);
      var r2 := PipeRefresh(s.p2, r1.score, r1.sdigs, o2);
      assert st.next.p1 == r1.pipe && st.next.p2 == r2.pipe;
      assert !Dies(b, r1.pipe, r2.pipe);
      SurvivorClearOfPipe(b, s.p1, s.score, s.sdigs, o1);
      SurvivorClearOfPipe(b, s.p2, r1.score, r1.sdigs, o2);
      var fc := FloorAndCeiling(0, NumRows - 1, '/', 2, s.frame % 2, s.sdigs, s.bdigs);
      var d1 := DrawPipe(s.p1, '|', '=', '=', 0, NumRows - 1);
      var d2 := DrawPipe(s.p2, '|', '=', '=', 0, NumRows - 1);
      assert forall c :: c in Scenery(s) ==> c in fc || c in d1 || c in d2;
    }
  }

  /** The best score's width counter widens one digit per failure at most, so
      a first best score of 100 or more is still counted as two digits. */
  lemma BestDigitsLag(s: Session, o1: real, o2: real)
    requires s.bdigs == 1 && s.best <= 9 && s.score >= 100
    ensures FailureScreen(s, Other, o1, o2).best == s.score
    ensures FailureScreen(s, Other, o1, o2).bdigs == 2 < CappedDigits(s.score)
  {
    CappedDigitsBands(s.score);
  }
}
