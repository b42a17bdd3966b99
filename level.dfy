/** Level policy of the game: the grid size of a level and the level buttons. */
module Level {

  /** Side length of the grid below the threshold level. */
  const BaseGridSize: nat := 3

  /** First level played on the larger grid. */
  const LargeGridLevel: int := 5

  /** Side length of the square grid played at `level`. */
  function GridSize(level: int): (n: nat)
    ensures n == 3 || n == 4
  {
    if level >= LargeGridLevel then BaseGridSize + 1 else BaseGridSize
  }

  /** "Level Up": the next level, never on a smaller grid. */
  function Up(level: int): (next: int)
    ensures next > level
    ensures GridSize(next) >= GridSize(level)
  {
    level + 1
  }

  /** "Level Down": the previous level, never below level 1. */
  function Down(level: int): (next: int)
    ensures next >= 1
    ensures next <= level || level < 1
  {
    if 1 >= level - 1 then 1 else level - 1
  }

  /** A larger level never plays on a smaller grid. */
  lemma GridSizeMonotone(a: int, b: int)
    requires a <= b
    ensures GridSize(a) <= GridSize(b)
  {
  }

  /** The board has an odd number of cells exactly on the levels below the threshold. */
  lemma OddBoardLevels(level: int)
    ensures (GridSize(level) * GridSize(level)) % 2 == 1 <==> level < LargeGridLevel
  {
  }

  /** Level Down undoes Level Up from any reachable level. */
  lemma DownUndoesUp(level: int)
    requires level >= 1
    ensures Down(Up(level)) == level
  {
  }

  /** Level Up undoes Level Down except at the floor. */
  lemma UpUndoesDown(level: int)
    ensures level >= 2 ==> Up(Down(level)) == level
    ensures level <= 1 ==> Down(level) == 1
  {
  }
}
