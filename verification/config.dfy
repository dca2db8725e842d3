/** The fixed constants of the game: an 80 x 24 character grid, pipes seven
    columns wide with a seven-row opening, and the bird held at column 10. */
module Config {
  const NumRows: int := 24
  const NumCols: int := 80
  const PipeRadius: int := 3
  const OpeningWidth: int := 7
  const FlappyCol: int := 10
  const ScoreStartCol: int := 62

  /** Gravitational acceleration and boost velocity, in rows per frame; the
      source stores them as `float` (0.05 and -0.5), taken here as exact. */
  const Grav: real := 0.05
  const V0: real := -0.5
}
