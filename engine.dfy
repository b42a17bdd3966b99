/** Connection engine of one game board: drag state, target tests, committed
    connections, score, completion, reset and regeneration on a level change. */
module Engine {
  import opened Level
  import opened Board

  datatype Option<T> = None | Some(value: T)

  /** A committed connection: id "startId-endId", the two positions as they were
      at commit time, and the colour of the drag start. */
  datatype Connection = Connection(id: string, start: Position, end: Position, color: Color)

  /** Points awarded per committed connection. */
  const Reward: int := 10

  /** The connection a drag from `from` to `to` commits: its id names the start
      dot, then the target dot; it carries their positions and the start's colour. */
  function Link(from: Dot, to: Dot): (c: Connection)
    ensures c.start == from.position && c.end == to.position && c.color == from.color
  {
    Connection(from.id + "-" + to.id, from.position, to.position, from.color)
  }

  /** On a laid-out board a connection's id names its two cells: distinct cell
      pairs give distinct connection ids. */
  lemma LinkIdInjective(r1: nat, c1: nat, r2: nat, c2: nat, r3: nat, c3: nat, r4: nat, c4: nat,
                        x: Color, y: Color, u: Color, v: Color)
    ensures Link(CellDot(r1, c1, x), CellDot(r2, c2, y)).id == Link(CellDot(r3, c3, u), CellDot(r4, c4, v)).id
      ==> r1 == r3 && c1 == c3 && r2 == r4 && c2 == c4
  {
    var tail1 := Decimal(c1) + "-" + CellId(r2, c2);
    var tail3 := Decimal(c3) + "-" + CellId(r4, c4);
    assert Link(CellDot(r1, c1, x), CellDot(r2, c2, y)).id == Decimal(r1) + "-" + tail1;
    assert Link(CellDot(r3, c3, u), CellDot(r4, c4, v)).id == Decimal(r3) + "-" + tail3;
    DashSplit(Decimal(r1), tail1, Decimal(r3), tail3);
    DashSplit(Decimal(c1), CellId(r2, c2), Decimal(c3), CellId(r4, c4));
    DecimalInjective(r1, r3);
    DecimalInjective(c1, c3);
    CellIdInjective(r2, c2, r4, c4);
  }

  // ---------------------------------------------------------------------------
  // Target tests
  // ---------------------------------------------------------------------------

  /** `target` may end a drag that started on `start`: another dot, still
      unconnected, of the same colour. */
  predicate Connectable(start: Dot, target: Dot)
    ensures Connectable(start, target) ==> target != start
  {
    target.id != start.id && !target.connected && target.color == start.color
  }

  /** The point (x, y) lies within half a dot size of the dot's centre
      (squared distances, so no square root is needed); such a point lies on the
      dot's square box. */
  predicate WithinReach(dot: Dot, x: int, y: int)
    ensures WithinReach(dot, x, y) ==>
      dot.position.x <= x <= dot.position.x + DotSize && dot.position.y <= y <= dot.position.y + DotSize
  {
    var dx := x - (dot.position.x + DotSize / 2);
    var dy := y - (dot.position.y + DotSize / 2);
    if dx * dx + dy * dy <= (DotSize / 2) * (DotSize / 2) then
      SquareBound(dx, dy);
      SquareBound(dy, dx);
      true
    else
      false
  }

  /** The test that the mouse-move path applies to every dot. */
  predicate Hit(start: Dot, dot: Dot, x: int, y: int)
  {
    Connectable(start, dot) && WithinReach(dot, x, y)
  }

  /** First dot at or after `from` that the pointer at (x, y) hits. */
  function FindTarget(dots: seq<Dot>, start: Dot, x: int, y: int, from: nat): (r: Option<nat>)
    requires from <= |dots|
    ensures r.Some? ==> from <= r.value < |dots| && Hit(start, dots[r.value], x, y)
    ensures r.Some? ==> forall k :: from <= k < r.value ==> !Hit(start, dots[k], x, y)
    ensures r.None? ==> forall k :: from <= k < |dots| ==> !Hit(start, dots[k], x, y)
    decreases |dots| - from
  {
    if from == |dots| then None
    else if Hit(start, dots[from], x, y) then Some(from)
    else FindTarget(dots, start, x, y, from + 1)
  }

  /** A square within the reach bounds each coordinate difference by the reach. */
  lemma SquareBound(d: int, e: int)
    requires d * d + e * e <= (DotSize / 2) * (DotSize / 2)
    ensures -DotSize / 2 <= d <= DotSize / 2
  {
  }

  /** No pointer position is within reach of two cells' dots: dot centres are a
      square apart and the reach is half a dot. */
  lemma ReachIsExclusive(r1: nat, c1: nat, r2: nat, c2: nat, a: Color, b: Color, x: int, y: int)
    ensures WithinReach(CellDot(r1, c1, a), x, y) && WithinReach(CellDot(r2, c2, b), x, y)
      ==> r1 == r2 && c1 == c2
  {
    if WithinReach(CellDot(r1, c1, a), x, y) && WithinReach(CellDot(r2, c2, b), x, y) {
      var dx1, dy1 := x - (c1 * SquareSize + SquareSize / 2), y - (r1 * SquareSize + SquareSize / 2);
      var dx2, dy2 := x - (c2 * SquareSize + SquareSize / 2), y - (r2 * SquareSize + SquareSize / 2);
      SquareBound(dx1, dy1);
      SquareBound(dy1, dx1);
      SquareBound(dx2, dy2);
      SquareBound(dy2, dx2);
      assert SquareSize * (c2 - c1) == dx1 - dx2;
      assert SquareSize * (r2 - r1) == dy1 - dy2;
    }
  }

  /** Two dots of a laid-out board that the pointer both reaches are one dot. */
  lemma ReachedDotsCoincide(n: nat, colors: seq<Color>, x: int, y: int, j: nat, k: nat)
    requires j < |Layout(n, colors)| && k < |Layout(n, colors)|
    ensures WithinReach(Layout(n, colors)[j], x, y) && WithinReach(Layout(n, colors)[k], x, y) ==> j == k
  {
    LayoutAt(n, colors, j);
    LayoutAt(n, colors, k);
    ReachIsExclusive(RowOf(n, j), ColOf(n, j), RowOf(n, k), ColOf(n, k), colors[j], colors[k], x, y);
    if j != k {
      DistinctCells(n, j, k);
    }
  }

  /** On a laid-out board the first dot that the pointer hits is the only one,
      so taking the first hit in board order loses nothing. */
  lemma FirstHitIsOnlyHit(n: nat, colors: seq<Color>, start: Dot, x: int, y: int)
    ensures var dots := Layout(n, colors);
      var found := FindTarget(dots, start, x, y, 0);
      found.Some? ==> forall j :: 0 <= j < |dots| && Hit(start, dots[j], x, y) ==> j == found.value
  {
    var dots := Layout(n, colors);
    var found := FindTarget(dots, start, x, y, 0);
    if found.Some? {
      forall j | 0 <= j < |dots| && Hit(start, dots[j], x, y)
        ensures j == found.value
      {
        ReachedDotsCoincide(n, colors, x, y, j, found.value);
      }
    }
  }

  // ---------------------------------------------------------------------------
  // Dot bookkeeping
  // ---------------------------------------------------------------------------

  /** Number of connected dots. */
  function ConnectedCount(dots: seq<Dot>): (r: nat)
    ensures r <= |dots|
  {
    if dots == [] then 0 else (if dots[0].connected then 1 else 0) + ConnectedCount(dots[1..])
  }

  /** The count reaches the number of dots exactly when every dot is connected. */
  lemma {:induction false} CountAll(dots: seq<Dot>)
    ensures ConnectedCount(dots) == |dots| <==> forall k :: 0 <= k < |dots| ==> dots[k].connected
  {
    if dots != [] {
      CountAll(dots[1..]);
      assert forall k :: 1 <= k < |dots| ==> dots[k] == dots[1..][k - 1];
    }
  }

  /** The count is zero when no dot is connected. */
  lemma {:induction false} CountNone(dots: seq<Dot>)
    requires forall k :: 0 <= k < |dots| ==> !dots[k].connected
    ensures ConnectedCount(dots) == 0
  {
    if dots != [] {
      assert forall k :: 0 <= k < |dots| - 1 ==> dots[1..][k] == dots[k + 1];
      CountNone(dots[1..]);
    }
  }

  /** Connecting one unconnected dot raises the count by one. */
  lemma {:induction false} CountFlip(dots: seq<Dot>, i: nat)
    requires i < |dots| && !dots[i].connected
    ensures ConnectedCount(dots[i := dots[i].(connected := true)]) == ConnectedCount(dots) + 1
  {
    var flipped := dots[i := dots[i].(connected := true)];
    if i == 0 {
      assert flipped[1..] == dots[1..];
    } else {
      assert flipped[1..] == dots[1..][i - 1 := dots[i].(connected := true)];
      CountFlip(dots[1..], i - 1);
    }
  }

  /** The game is complete: the board is non-empty and every dot is connected. */
  function Completed(dots: seq<Dot>): (r: bool)
    ensures r <==> |dots| > 0 && forall k :: 0 <= k < |dots| ==> dots[k].connected
  {
    CountAll(dots);
    ConnectedCount(dots) == |dots| && |dots| > 0
  }

  /** The dots after a commit: those carrying either id become connected. */
  function MarkConnected(dots: seq<Dot>, a: string, b: string): (r: seq<Dot>)
    ensures |r| == |dots|
    ensures forall k :: 0 <= k < |dots| ==>
      && r[k].id == dots[k].id && r[k].color == dots[k].color && r[k].position == dots[k].position
      && (r[k].connected <==> dots[k].connected || dots[k].id == a || dots[k].id == b)
  {
    seq(|dots|, k requires 0 <= k < |dots| =>
      if dots[k].id == a || dots[k].id == b then dots[k].(connected := true) else dots[k])
  }

  /** On a board with unique ids, a commit connects exactly the two dots it names:
      two more connected dots, nothing else changed. */
  lemma MarkPair(dots: seq<Dot>, i: nat, j: nat)
    requires IdsUnique(dots) && i < |dots| && j < |dots| && i != j
    requires !dots[i].connected && !dots[j].connected
    ensures var r := MarkConnected(dots, dots[i].id, dots[j].id);
      && |r| == |dots|
      && r[i] == dots[i].(connected := true)
      && r[j] == dots[j].(connected := true)
      && (forall k :: 0 <= k < |dots| && k != i && k != j ==> r[k] == dots[k])
      && ConnectedCount(r) == ConnectedCount(dots) + 2
  {
    var r := MarkConnected(dots, dots[i].id, dots[j].id);
    var once := dots[i := dots[i].(connected := true)];
    CountFlip(dots, i);
    CountFlip(once, j);
    assert r == once[j := once[j].(connected := true)];
  }

  /** A commit whose start id is on no dot connects only the target. */
  lemma MarkMissingStart(dots: seq<Dot>, startId: string, j: nat)
    requires j < |dots| && !dots[j].connected && IdsUnique(dots)
    requires forall k :: 0 <= k < |dots| ==> dots[k].id != startId
    ensures ConnectedCount(MarkConnected(dots, startId, dots[j].id)) == ConnectedCount(dots) + 1
  {
    CountFlip(dots, j);
    assert MarkConnected(dots, startId, dots[j].id) == dots[j := dots[j].(connected := true)];
  }

  /** A drag start left over from a 4x4 board (cell 3-3) matches no dot of a new
      3x3 board, so a commit from it connects one dot while adding one connection. */
  lemma StaleDragStartConnectsOneDot(colors: seq<Color>, j: nat)
    requires |colors| == 9 && j < 9
    ensures var dots := Layout(3, colors);
      && (forall k :: 0 <= k < |dots| ==> dots[k].id != CellId(3, 3))
      && ConnectedCount(MarkConnected(dots, CellId(3, 3), dots[j].id)) == 1
  {
    var dots := Layout(3, colors);
    LayoutIdsUnique(3, colors);
    forall k | 0 <= k < |dots|
      ensures dots[k].id != CellId(3, 3) && !dots[k].connected
    {
      LayoutAt(3, colors, k);
      CellIdInjective(RowOf(3, k), ColOf(3, k), 3, 3);
    }
    CountNone(dots);
    MarkMissingStart(dots, CellId(3, 3), j);
  }

  /** Five commits on nine unconnected dots with unique ids: one from a start id
      that is on no dot, then four legal ones that pair up the remaining eight
      dots. Each legal commit joins two unconnected dots of one colour, and after
      the five commits every dot is connected. */
  lemma StaleCommitsCover(dots: seq<Dot>, stale: string)
    requires |dots| == 9 && IdsUnique(dots)
    requires forall k :: 0 <= k < 9 ==> !dots[k].connected && dots[k].id != stale
    requires dots[1].color == dots[8].color && dots[2].color == dots[3].color
    requires dots[4].color == dots[5].color && dots[6].color == dots[7].color
    ensures var d0 := MarkConnected(dots, stale, dots[0].id);
      var d1 := MarkConnected(d0, dots[1].id, dots[8].id);
      var d2 := MarkConnected(d1, dots[2].id, dots[3].id);
      var d3 := MarkConnected(d2, dots[4].id, dots[5].id);
      var d4 := MarkConnected(d3, dots[6].id, dots[7].id);
      && Connectable(d0[1], d0[8]) && Connectable(d1[2], d1[3])
      && Connectable(d2[4], d2[5]) && Connectable(d3[6], d3[7])
      && Completed(d4)
  {
  }

  /** As written, a stale start can complete a 3x3 board: on a new board whose
      colours are red, red, green, green, blue, blue, yellow, yellow, red, the
      stale start `3-3` (red) commits to dot 0 and connects it alone; four legal
      commits then connect the other eight, so the nine-dot board is complete
      after five connections. */
  lemma StaleDragCompletesSmallBoard()
    ensures var dots := Layout(3, [Red, Red, Green, Green, Blue, Blue, Yellow, Yellow, Red]);
      var d0 := MarkConnected(dots, CellId(3, 3), dots[0].id);
      var d1 := MarkConnected(d0, dots[1].id, dots[8].id);
      var d2 := MarkConnected(d1, dots[2].id, dots[3].id);
      var d3 := MarkConnected(d2, dots[4].id, dots[5].id);
      var d4 := MarkConnected(d3, dots[6].id, dots[7].id);
      && |dots| == 9
      && Connectable(CellDot(3, 3, Red), dots[0])
      && ConnectedCount(d0) == 1
      && Connectable(d0[1], d0[8]) && Connectable(d1[2], d1[3])
      && Connectable(d2[4], d2[5]) && Connectable(d3[6], d3[7])
      && Completed(d4)
  {
    var colors := [Red, Red, Green, Green, Blue, Blue, Yellow, Yellow, Red];
    var dots := Layout(3, colors);
    assert |dots| == 9;
    assert dots[1].color == colors[1] && dots[8].color == colors[8];
    assert dots[2].color == colors[2] && dots[3].color == colors[3];
    assert dots[4].color == colors[4] && dots[5].color == colors[5];
    assert dots[6].color == colors[6] && dots[7].color == colors[7];
    LayoutIdsUnique(3, colors);
    StaleDragStartConnectsOneDot(colors, 0);
    StaleCommitsCover(dots, CellId(3, 3));
    LayoutAt(3, colors, 0);
    CellIdInjective(0, 0, 3, 3);
  }

  /** The dots after a reset: every dot unconnected, nothing else changed. */
  function Unconnected(dots: seq<Dot>): (r: seq<Dot>)
    ensures |r| == |dots|
    ensures ConnectedCount(r) == 0
    ensures forall k :: 0 <= k < |dots| ==>
      r[k].id == dots[k].id && r[k].color == dots[k].color && r[k].position == dots[k].position
  {
    var r := seq(|dots|, k requires 0 <= k < |dots| => dots[k].(connected := false));
    CountNone(r);
    r
  }

  /** The pair of dot indices behind connection `c` fits the board. */
  predicate PairFits(dots: seq<Dot>, p: (nat, nat), c: Connection)
  {
    p.0 < |dots| && p.1 < |dots| && p.0 != p.1 &&
    dots[p.0].connected && dots[p.1].connected &&
    dots[p.0].color == dots[p.1].color &&
    c == Link(dots[p.0], dots[p.1])
  }

  /** No dot is an endpoint of two connections. */
  predicate EndpointsDistinct(pairs: seq<(nat, nat)>)
  {
    forall i, j :: 0 <= i < |pairs| && 0 <= j < |pairs| && i != j ==>
      pairs[i].0 != pairs[j].0 && pairs[i].0 != pairs[j].1 &&
      pairs[i].1 != pairs[j].0 && pairs[i].1 != pairs[j].1
  }

  /** A new connection between two unconnected dots keeps every dot an endpoint
      of at most one connection. */
  lemma ExtendEndpoints(dots: seq<Dot>, pairs: seq<(nat, nat)>, connections: seq<Connection>, s: nat, t: nat)
    requires |pairs| == |connections|
    requires forall i :: 0 <= i < |pairs| ==> PairFits(dots, pairs[i], connections[i])
    requires EndpointsDistinct(pairs)
    requires s < |dots| && t < |dots| && !dots[s].connected && !dots[t].connected
    ensures EndpointsDistinct(pairs + [(s, t)])
  {
  }

  /** A commit between two distinct unconnected dots of one colour keeps ids
      unique, every connection backed by two connected dots of its colour, each
      dot used at most once, and two connected dots per connection. */
  lemma CommitKeepsPairs(dots: seq<Dot>, pairs: seq<(nat, nat)>, connections: seq<Connection>, s: nat, t: nat)
    requires IdsUnique(dots) && |pairs| == |connections|
    requires forall i :: 0 <= i < |pairs| ==> PairFits(dots, pairs[i], connections[i])
    requires EndpointsDistinct(pairs)
    requires s < |dots| && t < |dots| && s != t
    requires !dots[s].connected && !dots[t].connected && dots[s].color == dots[t].color
    ensures var after := MarkConnected(dots, dots[s].id, dots[t].id);
      var pairs', connections' := pairs + [(s, t)], connections + [Link(dots[s], dots[t])];
      && IdsUnique(after)
      && (forall i :: 0 <= i < |pairs'| ==> PairFits(after, pairs'[i], connections'[i]))
      && EndpointsDistinct(pairs')
      && ConnectedCount(after) == ConnectedCount(dots) + 2
  {
    var after := MarkConnected(dots, dots[s].id, dots[t].id);
    var pairs', connections' := pairs + [(s, t)], connections + [Link(dots[s], dots[t])];
    MarkPair(dots, s, t);
    ExtendEndpoints(dots, pairs, connections, s, t);
    forall i | 0 <= i < |pairs'|
      ensures PairFits(after, pairs'[i], connections'[i])
    {
      if i < |pairs| {
        assert pairs'[i] == pairs[i] && connections'[i] == connections[i];
        assert PairFits(dots, pairs[i], connections[i]);
      }
    }
  }

  // ---------------------------------------------------------------------------
  // The board component's state machine
  // ---------------------------------------------------------------------------

  class GameBoard {
    var dots: seq<Dot>
    var connections: seq<Connection>
    var isDragging: bool
    var dragStart: Option<Dot>
    var score: int
    var gameComplete: bool

    /** The dot indices joined by each connection. */
    ghost var pairs: seq<(nat, nat)>
    /** Where the drag-start snapshot sits in `dots`. */
    ghost var startIndex: nat

    /** Everything the handlers keep, except for the drag start. */
    ghost predicate Settled()
      reads this
    {
      && IdsUnique(dots)
      && |pairs| == |connections|
      && (forall i :: 0 <= i < |pairs| ==> PairFits(dots, pairs[i], connections[i]))
      && EndpointsDistinct(pairs)
      && score == Reward * |connections|
      && ConnectedCount(dots) == 2 * |connections|
      && gameComplete == Completed(dots)
      && (isDragging <==> dragStart.Some?)
    }

    /** The object invariant: while dragging, the drag start is an unconnected
        dot of the current board. */
    ghost predicate Valid()
      reads this
    {
      Settled() &&
      (isDragging ==> startIndex < |dots| && dragStart.value == dots[startIndex] && !dots[startIndex].connected)
    }

    /** The guard shared by the drag handlers. */
    predicate Dragging()
      reads this
    {
      isDragging && dragStart.Some?
    }

    /** The state after committing the connection from the drag start to dot `t`. */
    twostate predicate Committed(t: nat)
      reads this
    {
      && old(Dragging()) && t < |old(dots)| && old(startIndex) < |old(dots)|
      && connections == old(connections) + [Link(old(dragStart).value, old(dots)[t])]
      && |dots| == |old(dots)|
      && dots[t] == old(dots)[t].(connected := true)
      && dots[old(startIndex)] == old(dots)[old(startIndex)].(connected := true)
      && (forall k :: 0 <= k < |dots| && k != t && k != old(startIndex) ==> dots[k] == old(dots)[k])
      && score == old(score) + Reward
      && !isDragging && dragStart == None
      && gameComplete == Completed(dots)
    }

    /** The board before its first generation. */
    constructor ()
      ensures Valid()
      ensures dots == [] && connections == [] && !isDragging && dragStart == None
      ensures score == 0 && !gameComplete
    {
      dots, connections := [], [];
      isDragging, dragStart := false, None;
      score, gameComplete := 0, false;
      pairs, startIndex := [], 0;
    }

    /** Commits the connection from the drag start to dot `t`, then re-runs the
        completion check. */
    method Commit(t: nat)
      requires Valid() && Dragging() && t < |dots| && Connectable(dragStart.value, dots[t])
      modifies this
      ensures Valid()
      ensures Committed(t)
      ensures dots == MarkConnected(old(dots), old(dragStart).value.id, old(dots)[t].id)
    {
      var start, target := dragStart.value, dots[t];
      MarkPair(dots, startIndex, t);
      CommitKeepsPairs(dots, pairs, connections, startIndex, t);
      connections := connections + [Link(start, target)];
      dots := MarkConnected(dots, start.id, target.id);
      score := score + Reward;
      isDragging := false;
      dragStart := None;
      if Completed(dots) {
        gameComplete := true;
      }
      pairs := pairs + [(startIndex, t)];
    }

    /** Mouse-down on dot `k`: starts a drag unless the dot is already connected. */
    method MouseDown(k: nat)
      requires Valid() && k < |dots|
      modifies this
      ensures Valid()
      ensures old(dots)[k].connected ==> unchanged(this)
      ensures !old(dots)[k].connected ==> isDragging && dragStart == Some(old(dots)[k])
      ensures dots == old(dots) && connections == old(connections)
      ensures score == old(score) && gameComplete == old(gameComplete)
    {
      if dots[k].connected {
        return;
      }
      isDragging := true;
      dragStart := Some(dots[k]);
      startIndex := k;
    }

    /** Mouse-enter on dot `k`: commits when a drag is on and `k` is connectable
        to its start; otherwise changes nothing. */
    method MouseEnter(k: nat)
      requires Valid() && k < |dots|
      modifies this
      ensures Valid() && |dots| == |old(dots)|
      ensures old(Dragging() && Connectable(dragStart.value, dots[k])) ==> Committed(k)
      ensures !old(Dragging() && Connectable(dragStart.value, dots[k])) ==> unchanged(this)
    {
      if !isDragging || dragStart.None? {
        return;
      }
      if Connectable(dragStart.value, dots[k]) {
        Commit(k);
      }
    }

    /** Mouse-move to board coordinates (x, y): commits to the first dot that the
        pointer hits; otherwise changes nothing. */
    method MouseMove(x: int, y: int)
      requires Valid()
      modifies this
      ensures Valid() && |dots| == |old(dots)|
      ensures old(Dragging()) && FindTarget(old(dots), old(dragStart).value, x, y, 0).Some? ==>
        Committed(FindTarget(old(dots), old(dragStart).value, x, y, 0).value)
      ensures !old(Dragging()) || FindTarget(old(dots), old(dragStart).value, x, y, 0).None? ==>
        unchanged(this)
    {
      if !isDragging || dragStart.None? {
        return;
      }
      var target := FindTarget(dots, dragStart.value, x, y, 0);
      if target.Some? {
        Commit(target.value);
      }
    }

    /** Mouse-up or mouse-leave: ends any drag, idempotently, also one whose start
        a regeneration left behind. */
    method MouseUp()
      requires Settled()
      modifies this
      ensures Valid()
      ensures !isDragging && dragStart == None
      ensures dots == old(dots) && connections == old(connections)
      ensures score == old(score) && gameComplete == old(gameComplete)
    {
      isDragging := false;
      dragStart := None;
    }

    /** "Reset Game": every dot unconnected, no connections, score 0; the drag
        state is left as it is. */
    method Reset()
      requires Valid()
      modifies this
      ensures Valid()
      ensures |dots| == |old(dots)|
      ensures forall k :: 0 <= k < |dots| ==> dots[k] == old(dots)[k].(connected := false)
      ensures connections == [] && score == 0 && !gameComplete
      ensures isDragging == old(isDragging) && dragStart == old(dragStart)
    {
      var before := dots;
      dots := Unconnected(dots);
      assert forall k :: 0 <= k < |dots| ==> dots[k] == before[k].(connected := false);
      connections := [];
      score := 0;
      gameComplete := false;
      pairs := [];
      if isDragging {
        assert dots[startIndex] == before[startIndex];
      }
    }

    /** The board regeneration of a level change, as the component has it: a new
        board, no connections, score 0, not complete, but the drag state kept. */
    method Regenerate(level: int, picks: seq<nat>, swaps: seq<nat>)
      requires (isDragging <==> dragStart.Some?) && Choices(level, picks, swaps)
      modifies this
      ensures Settled()
      ensures dots == Generated(level, picks, swaps) && |dots| == GridSize(level) * GridSize(level)
      ensures connections == [] && score == 0 && !gameComplete
      ensures isDragging == old(isDragging) && dragStart == old(dragStart)
    {
      var board := GenerateDots(level, picks, swaps);
      CountNone(board);
      dots := board;
      connections := [];
      score := 0;
      gameComplete := false;
      pairs := [];
    }

    /** Board regeneration on a level change that also ends any drag, so that the
        drag start always lies on the current board. */
    method StartLevel(level: int, picks: seq<nat>, swaps: seq<nat>)
      requires (isDragging <==> dragStart.Some?) && Choices(level, picks, swaps)
      modifies this
      ensures Valid()
      ensures dots == Generated(level, picks, swaps) && |dots| == GridSize(level) * GridSize(level)
      ensures connections == [] && score == 0 && !gameComplete
      ensures !isDragging && dragStart == None
    {
      Regenerate(level, picks, swaps);
      isDragging := false;
      dragStart := None;
    }

    /** With the invariant, a board with an odd number of dots is never complete:
        connected dots come in pairs. */
    lemma OddBoardNeverComplete()
      requires Settled() && |dots| % 2 == 1
      ensures !gameComplete
    {
    }
  }
}
