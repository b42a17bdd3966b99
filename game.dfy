/** The application shell: the current level and the one board it shows. */
module Game {
  import opened Level
  import opened Board
  import opened Engine

  class App {
    var level: int
    var board: GameBoard

    /** The level is at least 1 and the board is a board of the level's size. */
    ghost predicate Valid()
      reads this, board
    {
      level >= 1 && board.Valid() && |board.dots| == GridSize(level) * GridSize(level)
    }

    /** Start at level 1; the board's first generation follows its mounting. */
    constructor (picks: seq<nat>, swaps: seq<nat>)
      requires Choices(1, picks, swaps)
      ensures Valid() && fresh(board) && level == 1
      ensures board.dots == Generated(1, picks, swaps) && board.connections == []
      ensures board.score == 0 && !board.gameComplete && !board.isDragging
    {
      var b := new GameBoard();
      b.StartLevel(1, picks, swaps);
      level := 1;
      board := b;
    }

    /** "Level Up": the next level, on a newly generated board; the generation
        also ends a drag in progress (see `GameBoard.StartLevel`). */
    method LevelUp(picks: seq<nat>, swaps: seq<nat>)
      requires Valid() && Choices(Up(level), picks, swaps)
      modifies this, board
      ensures Valid() && board == old(board)
      ensures level == old(level) + 1
      ensures board.dots == Generated(level, picks, swaps) && board.connections == []
      ensures board.score == 0 && !board.gameComplete && !board.isDragging
    {
      level := Up(level);
      board.StartLevel(level, picks, swaps);
    }

    /** "Level Down": the previous level, never below 1, on a newly generated
        board that also ends a drag in progress; at level 1 the level does not
        change and neither does the board. */
    method LevelDown(picks: seq<nat>, swaps: seq<nat>)
      requires Valid() && (Down(level) != level ==> Choices(Down(level), picks, swaps))
      modifies this, board
      ensures Valid() && board == old(board)
      ensures level == Down(old(level)) && level >= 1
      ensures old(level) == 1 ==> level == 1 && unchanged(board)
      ensures old(level) > 1 ==> level == old(level) - 1 && board.dots == Generated(level, picks, swaps)
      ensures old(level) > 1 ==> board.connections == [] && board.score == 0 && !board.gameComplete
      ensures old(level) > 1 ==> !board.isDragging && board.dragStart == None
    {
      var next := Down(level);
      if next != level {
        level := next;
        board.StartLevel(level, picks, swaps);
      }
    }

    /** On levels 1 to 4 the board has nine dots, so it can never be completed
        (with the corrected generation; see `StaleDragCompletesSmallBoard`). */
    lemma SmallLevelsNeverComplete()
      requires Valid() && level < LargeGridLevel
      ensures !board.gameComplete
    {
    }
  }
}
