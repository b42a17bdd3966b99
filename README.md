# Connect Dots: verified model of the game engine

This project models the game engine inside the `GameBoard` and `App` React components of the
connect-dots game. Players drag between two dots of the same colour on a 3×3 grid (levels 1–4)
or a 4×4 grid (level 5 and up). Each connection is worth 10 points. A level is complete when
every dot is connected.

The model has four modules:

- `Level` (`level.dfy`): the grid-size rule and the level buttons.
- `Board` (`board.dfy`): the board generator. It builds the colour list: each usable palette colour
  twice, then random fill. It shuffles the list in place with Fisher–Yates and lays out the dots in
  row-major order. Dot ids are the real strings `row-col`, and positions are
  `(col·80+20, row·80+20)`. The random draws are explicit inputs. `picks` gives the fill indices,
  each below the number of usable colours. `swaps` gives one `j ≤ i` for each shuffle step.
- `Engine` (`engine.dfy`): the class `GameBoard`, whose fields are the component's state: `dots`,
  `connections`, `isDragging`, `dragStart`, `score` and `gameComplete`. Each event handler is a
  method. It runs as one atomic transition and then re-runs the completion check whenever `dots`
  changed. `dragStart` is the snapshot of a dot, as in the source. A ghost index records where that
  snapshot sits in `dots`, and a ghost list of index pairs records the two dots behind each
  connection. The invariant `Valid()` says:
  - ids are unique;
  - `score = 10·|connections|`;
  - the number of connected dots is `2·|connections|`;
  - every connection joins two distinct connected dots of one colour, with the positions and ids
    they had when it was made;
  - no dot is an endpoint of two connections;
  - `gameComplete` holds exactly when the board is non-empty and fully connected;
  - during a drag, the start dot is an unconnected dot of the current board.

  It follows that a board with an odd number of dots, such as every 3×3 board, is never complete
  while the invariant holds. The generation effect as written keeps a drag in progress across a
  level change and can break the invariant. A stale drag start can then let a 3×3 board complete
  (see Findings).
- `Game` (`game.dfy`): the class `App`, which holds the level and the board. Its level buttons use
  the corrected generation, which also ends a drag in progress.

Pointer coordinates are integers relative to the board. The proximity test compares squared
distances, `dx² + dy² ≤ 20²`, in place of `sqrt(dx² + dy²) ≤ 20`.

At level 1, "Level Down" sets the level to 1 again. React skips a state update to the same value, so
the generation effect does not re-run: the model leaves the level and the board unchanged. The
colour counts on a board are not all even. On 4×4 boards the six random fills can leave several
colours with an odd count. The model proves only that every usable colour appears at least twice.

## Model

| member | source | states |
|---|---|---|
| `Level.GridSize` | connect-dots-game/src/App.js:39-40 | the grid side is 3 or 4 |
| `Level.GridSizeMonotone` | connect-dots-game/src/App.js:40 | a higher level never has a smaller grid |
| `Level.OddBoardLevels` | connect-dots-game/src/App.js:40 | the board has an odd number of cells iff the level is below 5 |
| `Level.Up` | connect-dots-game/src/App.js:303-305 | Level Up raises the level and never shrinks the grid |
| `Level.Down` | connect-dots-game/src/App.js:307-309 | Level Down never goes below 1 and never raises a level of 1 or more |
| `Level.DownUndoesUp` | connect-dots-game/src/App.js:303-309 | Level Down after Level Up returns to the same level |
| `Level.UpUndoesDown` | connect-dots-game/src/App.js:303-309 | Level Up after Level Down returns to the level, except at the floor, where Down gives 1 |
| `Board.Decimal` | connect-dots-game/src/App.js:84 | the decimal text of a number is non-empty and made of digits only |
| `Board.DecimalInjective` | connect-dots-game/src/App.js:84 | distinct numbers have distinct decimal texts |
| `Board.FirstDashAfterDigits` | connect-dots-game/src/App.js:84 | in `row-col` the first dash comes right after the row's digits |
| `Board.CellId` | connect-dots-game/src/App.js:84 | a cell's id is the row's digits, one dash, then the column's digits |
| `Board.DashSplit` | connect-dots-game/src/App.js:84 | text made of digits, a dash and a rest splits uniquely at its first dash |
| `Board.CellIdInjective` | connect-dots-game/src/App.js:84 | distinct cells get distinct ids `row-col` |
| `Board.CellPosition` | connect-dots-game/src/App.js:86-89 | a dot's box lies inside its cell's square, with equal margins on both sides |
| `Board.Layout` | connect-dots-game/src/App.js:78-96 | a board has one dot per colour up to gridSize², with the k-th colour on the k-th dot, and no dot connected |
| `Board.LayoutCell` | connect-dots-game/src/App.js:79-96 | on a full board, cell (row, col) holds id `row-col`, position (col·80+20, row·80+20), the (row·n+col)-th colour and `connected = false` |
| `Board.LayoutIdsUnique` | connect-dots-game/src/App.js:79-96 | no two dots of a board share an id |
| `Board.ColorsToUse` | connect-dots-game/src/App.js:57-58 | there are min(5, ⌊gridSize²/2⌋) usable colours, so their pairs fit on the board |
| `Board.PairSeed` | connect-dots-game/src/App.js:60-64 | the pair list has length twice the number of usable colours, and all its entries are usable colours |
| `Board.PairSeedPairs` | connect-dots-game/src/App.js:60-64 | entries 2i and 2i+1 of the pair list are both the i-th usable colour |
| `Board.ColorList` | connect-dots-game/src/App.js:60-70 | the colour list has the pairs plus one entry per fill draw, all of them usable colours |
| `Board.UsableColors` | connect-dots-game/src/App.js:57-58 | levels 1–4 use the first four palette colours, higher levels all five |
| `Board.ColorListShape` | connect-dots-game/src/App.js:57-70 | the colour list has exactly gridSize² entries, all of them usable colours, and every usable colour occurs at least twice |
| `Board.PairAndFill` | connect-dots-game/src/App.js:60-70 | the pair loop and the fill loop produce the pairs in palette order followed by one drawn colour per fill draw |
| `Board.ShuffleSteps` | connect-dots-game/src/App.js:72-76 | every prefix of the shuffle keeps the list's length |
| `Board.ShufflePermutes` | connect-dots-game/src/App.js:72-76 | every prefix of the shuffle only permutes the list (multiset preserved) |
| `Board.Shuffle` | connect-dots-game/src/App.js:72-76 | the in-place Fisher–Yates loop leaves the array equal to the specified shuffle of its old contents, a permutation of them |
| `Board.PlaceDots` | connect-dots-game/src/App.js:78-96 | the nested row/column loop with its colour index builds exactly the row-major board |
| `Board.GenerateDots` | connect-dots-game/src/App.js:55-98 | the generator returns the specified board: gridSize² dots, unique ids, all unconnected |
| `Board.GeneratedBoard` | connect-dots-game/src/App.js:55-98 | a generated board has gridSize² fresh dots in row-major order, and its colours are a permutation of the colour list, so every usable colour appears at least twice and no other colour appears |
| `Engine.Link` | connect-dots-game/src/App.js:163-168 | a new connection holds the start's position, the target's position and the start's colour; `Engine.LinkIdInjective` states what its id determines |
| `Engine.LinkIdInjective` | connect-dots-game/src/App.js:163-168 | on a laid-out board distinct pairs of cells give distinct connection ids |
| `Engine.Connectable` | connect-dots-game/src/App.js:146-151 | a dot is never a valid target for a drag that started on it |
| `Engine.WithinReach` | connect-dots-game/src/App.js:153-158 | a point within reach of a dot lies on the dot's square box |
| `Engine.FindTarget` | connect-dots-game/src/App.js:145-159 | the mouse-move search returns the first dot that is connectable and within reach, or none when no dot is |
| `Engine.ReachIsExclusive` | connect-dots-game/src/App.js:153-158 | no pointer position is within reach of the dots of two different cells |
| `Engine.ReachedDotsCoincide` | connect-dots-game/src/App.js:153-158 | two dots of a laid-out board that one pointer position reaches are the same dot |
| `Engine.FirstHitIsOnlyHit` | connect-dots-game/src/App.js:145-159 | on a laid-out board the first dot hit is the only dot hit |
| `Engine.ConnectedCount` | connect-dots-game/src/App.js:219 | the number of connected dots is at most the number of dots |
| `Engine.CountAll` | connect-dots-game/src/App.js:219-220 | the connected count equals the number of dots iff every dot is connected |
| `Engine.CountNone` | connect-dots-game/src/App.js:219 | with no dot connected the count is 0 |
| `Engine.CountFlip` | connect-dots-game/src/App.js:171-177 | connecting one unconnected dot raises the count by exactly one |
| `Engine.Completed` | connect-dots-game/src/App.js:218-223 | completion holds iff the board is non-empty and every dot is connected |
| `Engine.MarkConnected` | connect-dots-game/src/App.js:171-177 | the commit's map keeps every dot's id, colour and position, and a dot is connected afterwards iff it was before or carries one of the two ids |
| `Engine.MarkPair` | connect-dots-game/src/App.js:171-177 | with unique ids the commit's map connects exactly the start and target dots, changes no other dot, and adds two to the count |
| `Engine.MarkMissingStart` | connect-dots-game/src/App.js:203-209 | when no dot carries the start id, the commit's map connects only the target |
| `Engine.StaleDragStartConnectsOneDot` | connect-dots-game/src/App.js:55-102 | a start id `3-3` left over from a 4×4 board connects only one dot of a new 3×3 board |
| `Engine.StaleCommitsCover` | connect-dots-game/src/App.js:55-102 | on nine unconnected dots, one commit from an absent start id and four legal commits connect every dot |
| `Engine.StaleDragCompletesSmallBoard` | connect-dots-game/src/App.js:55-102 | as written, a stale start `3-3` passes the commit guard against dot 0; that commit and four legal ones complete a 3×3 board with five connections |
| `Engine.ExtendEndpoints` | connect-dots-game/src/App.js:194-209 | a connection between two unconnected dots keeps every dot an endpoint of at most one connection |
| `Engine.CommitKeepsPairs` | connect-dots-game/src/App.js:161-182 | a commit between distinct unconnected same-coloured dots keeps ids unique, backs every connection by its two dots, keeps endpoints unique and adds two connected dots |
| `Engine.Unconnected` | connect-dots-game/src/App.js:226 | the reset map leaves no dot connected and keeps every id, colour and position |
| `Engine.GameBoard.constructor` | connect-dots-game/src/App.js:44-49 | the initial state: no dots, no connections, no drag, score 0, not complete |
| `Engine.GameBoard.Commit` | connect-dots-game/src/App.js:161-182 | appends `Link(start, target)`, connects exactly those two dots, adds 10, ends the drag, re-runs the completion check and keeps the invariant |
| `Engine.GameBoard.MouseDown` | connect-dots-game/src/App.js:129-135 | on a connected dot nothing changes; otherwise a drag starts from a snapshot of that dot, and nothing else changes |
| `Engine.GameBoard.MouseEnter` | connect-dots-game/src/App.js:190-215 | commits iff dragging and the entered dot has another id, is unconnected and has the start's colour; otherwise the state is unchanged |
| `Engine.GameBoard.MouseMove` | connect-dots-game/src/App.js:137-183 | commits to the first connectable dot within reach when dragging; otherwise the state is unchanged |
| `Engine.GameBoard.MouseUp` | connect-dots-game/src/App.js:185-188 | from any settled state, including one whose drag start a regeneration left behind, it ends the drag, changes nothing else and restores the full invariant; a second call changes nothing |
| `Engine.GameBoard.Reset` | connect-dots-game/src/App.js:225-230 | every dot becomes unconnected with id, colour and position kept; connections empty, score 0, not complete, drag state kept |
| `Engine.GameBoard.Regenerate` | connect-dots-game/src/App.js:55-102 | the generation effect as written, from any state whose drag flag matches its drag start: the generated board, no connections, score 0, not complete, drag state kept |
| `Engine.GameBoard.StartLevel` | connect-dots-game/src/App.js:55-102 | the generation effect that also ends the drag, from any state whose drag flag matches its drag start; it re-establishes the full invariant |
| `Engine.GameBoard.OddBoardNeverComplete` | connect-dots-game/src/App.js:218-223 | under the invariant, a board with an odd number of dots is never complete |
| `Game.App.constructor` | connect-dots-game/src/App.js:300-301 | the game starts at level 1 on a generated 3×3 board |
| `Game.App.LevelUp` | connect-dots-game/src/App.js:303-305 | the level rises by one and the board is regenerated for it, by the corrected generation that also ends a drag |
| `Game.App.LevelDown` | connect-dots-game/src/App.js:307-309 | the level drops by one with a board regenerated by the corrected generation, which ends any drag, or at level 1 nothing changes |
| `Game.App.SmallLevelsNeverComplete` | connect-dots-game/src/App.js:40 | with the corrected generation, on levels 1–4 the game can never be complete |

## Findings

| source | as written | input that shows it | evidently intended | confidence | as-written member | corrected member |
|---|---|---|---|---|---|---|
| connect-dots-game/src/App.js:55-102 | The board-generation effect resets dots, connections, score and completion on a level change. It leaves `isDragging` and `dragStart` as they were. | At level 5, press the mouse on dot `3-3` and hold it. Activate the focused "Level Down" button with the keyboard. On the new 3×3 board, move onto a dot of the same colour. One connection is added but only one dot becomes connected. With colours red, red, green, green, blue, blue, yellow, yellow, red, that commit and four legal ones complete the nine-dot board, which the corrected program never allows. | A new board starts with no drag in progress. | not executed; medium | `Engine.GameBoard.Regenerate`, `Engine.StaleDragStartConnectsOneDot`, `Engine.StaleDragCompletesSmallBoard` | `Engine.GameBoard.StartLevel` |

## Left out

- Rendering is not modelled: the JSX, the `Dots` and `Square` components, CSS, and the stats and completion markup. It only displays state.
- Drawing connections on the canvas is not modelled. It is a browser side effect.
- DOM geometry is not modelled: `getBoundingClientRect`, `clientX`/`clientY` and `preventDefault`. The mouse-move handler takes integer coordinates relative to the board.
- Handlers receive the dot as an index into `dots`, because the source only passes dots it rendered from the current state.
- `Math.random` is replaced by the `picks` and `swaps` inputs. The shuffle's uniformity is a probabilistic claim, so only the permutation property is proved.
- `Engine.WithinReach` uses integer squared distances. Pointer positions with fractions of a pixel are not modelled.
- React's batching of state updates and its effect scheduling are not modelled. Each handler is one atomic transition, followed by the completion check whenever `dots` changed.
- `Engine.GameBoard.Regenerate` ensures only `Settled()`, not the full `Valid()`. As written, it can leave a drag start that is not on the new board (see Findings).
- `Engine.GameBoard.MouseDown`, `Engine.GameBoard.MouseEnter`, `Engine.GameBoard.MouseMove` and `Engine.GameBoard.Reset` are modelled only from states where `Valid()` holds. A regeneration can keep a drag whose start is not on the new board, and these handlers are not modelled from that state. The commit from such a stale start is modelled on the dot sequence by `Engine.StaleDragStartConnectsOneDot`, `Engine.StaleCommitsCover` and `Engine.StaleDragCompletesSmallBoard`.
- `Game.App.LevelUp`: models the corrected generation, which also ends a drag in progress. As written, the drag survives the level change, and a stale drag start can complete a 3×3 board (see Findings).
- `Game.App.LevelDown`: above level 1 it models the corrected generation, which also ends a drag in progress. As written, the drag survives, with the same consequence as for Level Up.
- `Game.App.SmallLevelsNeverComplete`: holds for the corrected program only. As written, `Engine.StaleDragCompletesSmallBoard` shows a 3×3 board that becomes complete.
