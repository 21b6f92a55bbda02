/**
 * The imperative half of othelloAI.c: the loops that copy and rewrite a
 * successor board in a heap buffer, count discs, and fill FILO lists with
 * actions and successor states. Each method is proved to compute an
 * OthelloRules function, or to copy or release exactly its input.
 */
module OthelloAI {
  import opened Wrappers
  import opened Filo
  import R = OthelloRules

  /** The board held in a successor buffer, none for NULL. */
  ghost function Snapshot(a: array?<char>): Option<R.Board>
    reads a
    requires a != null ==> a.Length == R.BoardSize
  {
    if a == null then None else Some(a[..])
  }

  /** `state_copy`: a fresh buffer holding the board, and the colour. */
  method StateCopy(state: R.State) returns (board: array<char>, colour: char)
    ensures fresh(board) && board[..] == state.board && colour == state.colour
  {
    board := new char[R.BoardSize];
    for i := 0 to R.BoardSize
      invariant board[..i] == state.board[..i]
    {
      board[i] := state.board[i];
    }
    colour := state.colour;
  }

  /** `capture`: searches direction (dx, dy) from (x, y) in `state` and, when a
      disc of the mover flanks a run of other discs, turns that run over in the
      successor buffer, allocating it from a copy of `state` if it is still
      NULL. The input state itself is a value and is never written. */
  method Capture(state: R.State, successor: array?<char>, x: int, y: int, dx: int, dy: int)
    returns (r: array?<char>)
    requires R.OnBoard(x, y) && R.IsDirection(dx, dy) && R.OnRay(x, y, dx, dy, 1)
    requires successor != null ==> successor.Length == R.BoardSize
    modifies successor
    ensures successor != null ==> r == successor
    ensures successor == null && r != null ==> fresh(r)
    ensures r != null ==> r.Length == R.BoardSize
    ensures Snapshot(r) == R.CaptureInto(state, old(Snapshot(successor)), x, y, dx, dy)
  {
    var enemy := if state.colour == R.White then R.Black else R.White;

    if state.board[R.Iconv(x + dx, y + dy)] != enemy {
      return successor;
    }

    var valid, xMax, yMax, m := FindFlank(state, x, y, dx, dy);
    assert R.CaptureDistance(state, x, y, dx, dy) == if valid then Some(m) else None;
    if !valid {
      return successor;
    }

    r := successor;
    if r == null {
      var copy, _ := StateCopy(state);
      r := copy;
    }
    FlipFlanked(r, state.colour, x, y, dx, dy, xMax, yMax, m);
  }

  /** The scan loop of `capture`: walks from the square next to (x, y) while it
      is on the board, passing over enemy discs (and any other character), and
      stops at an EMPTY square or at the nearest disc of the mover, whose
      coordinates it returns. */
  method FindFlank(state: R.State, x: int, y: int, dx: int, dy: int)
    returns (valid: bool, xMax: int, yMax: int, ghost m: int)
    requires R.OnBoard(x, y) && R.IsDirection(dx, dy)
    ensures valid <==> R.Flank(state, x, y, dx, dy, 1).Some?
    ensures valid ==> (R.Flank(state, x, y, dx, dy, 1) == Some(m) &&
      xMax == R.Along(x, dx, m) && yMax == R.Along(y, dy, m))
  {
    var enemy := if state.colour == R.White then R.Black else R.White;
    xMax, yMax := x, y;
    valid := false;
    var xPos, yPos := x + dx, y + dy;
    ghost var k := 1;
    while 0 <= xPos < R.BoardDim && 0 <= yPos < R.BoardDim
      invariant 1 <= k && xPos == R.Along(x, dx, k) && yPos == R.Along(y, dy, k)
      invariant R.Flank(state, x, y, dx, dy, 1) == R.Flank(state, x, y, dx, dy, k)
      decreases R.BoardDim - k
    {
      R.ScanStep(state, x, y, dx, dy, k);
      var c := state.board[R.Iconv(xPos, yPos)];
      if c == enemy {
      } else if c == R.Empty {
        break;
      } else if c == state.colour {
        valid := true;
        xMax, yMax := xPos, yPos;
        break;
      }
      xPos, yPos, k := xPos + dx, yPos + dy, k + 1;
    }
    if !(0 <= xPos < R.BoardDim && 0 <= yPos < R.BoardDim) {
      R.ScanOff(state, x, y, dx, dy, k);
    }
    m := k;
  }

  /** The flip loop of `capture`: writes `colour` from the square next to
      (x, y) up to, not including, the flanking disc at (xMax, yMax). */
  method FlipFlanked(board: array<char>, colour: char, x: int, y: int, dx: int, dy: int,
                     xMax: int, yMax: int, ghost m: int)
    requires board.Length == R.BoardSize
    requires R.OnBoard(x, y) && R.IsDirection(dx, dy) && 1 <= m && R.OnRay(x, y, dx, dy, m)
    requires xMax == R.Along(x, dx, m) && yMax == R.Along(y, dy, m)
    modifies board
    ensures board[..] == R.FlipRay(old(board[..]), colour, x, y, dx, dy, 1, m)
  {
    var xPos, yPos := x + dx, y + dy;
    ghost var k := 1;
    while xPos != xMax || yPos != yMax
      invariant 1 <= k <= m
      invariant xPos == R.Along(x, dx, k) && yPos == R.Along(y, dy, k)
      invariant R.FlipRay(board[..], colour, x, y, dx, dy, k, m) == R.FlipRay(old(board[..]), colour, x, y, dx, dy, 1, m)
      decreases m - k
    {
      R.RayConvex(x, y, dx, dy, k, m);
      board[R.Iconv(xPos, yPos)] := colour;
      xPos, yPos, k := xPos + dx, yPos + dy, k + 1;
    }
  }

  /** `move`: the state after the mover plays (x, y), or None when (x, y) is
      not a legal move. */
  method Move(state: R.State, x: int, y: int) returns (r: Option<R.State>)
    requires R.OnBoard(x, y)
    ensures r == R.Move(state, x, y)
  {
    if state.board[R.Iconv(x, y)] != R.Empty {
      return None;
    }
    var successor := CaptureAround(state, x, y);
    R.MoveOfProbes(state, x, y);

    if successor != null {
      ghost var captured := successor[..];
      successor[R.Iconv(x, y)] := state.colour;
      assert successor[..] == captured[R.Iconv(x, y) := state.colour];
      r := Some(R.State(R.Flip(state.colour), successor[..]));
    } else {
      r := None;
    }
  }

  /** The eight searches of `move`, each guarded so that it starts on the
      board: the successor buffer they leave behind, NULL when none captures. */
  method CaptureAround(state: R.State, x: int, y: int) returns (successor: array?<char>)
    requires R.OnBoard(x, y)
    ensures successor != null ==> fresh(successor) && successor.Length == R.BoardSize
    ensures Snapshot(successor) == R.ProbeFirst(state, x, y, |R.Directions|)
  {
    var axes, left, right, up, down := CaptureAlongAxes(state, x, y);
    successor := CaptureAlongDiagonals(state, x, y, axes, left, right, up, down);
  }

  /** The first four searches of `move` (left, right, up, down), each run
      when its flag is set, that is when its first square is on the board. */
  method CaptureAlongAxes(state: R.State, x: int, y: int)
    returns (successor: array?<char>, left: bool, right: bool, up: bool, down: bool)
    requires R.OnBoard(x, y)
    ensures successor != null ==> fresh(successor) && successor.Length == R.BoardSize
    ensures Snapshot(successor) == R.ProbeFirst(state, x, y, 4)
    ensures (left <==> x != 0) && (right <==> x != R.BoardDim - 1)
    ensures (up <==> y != 0) && (down <==> y != R.BoardDim - 1)
  {
    left, right, up, down := false, false, false, false;
    successor := null;
    ghost var before: Option<R.Board> := None;

    if x != 0 {
      left := true;
      successor := Capture(state, successor, x, y, -1, 0);
    }
    R.ProbeNext(state, x, y, 0, before, Snapshot(successor));
    before := Snapshot(successor);
    if x != R.BoardDim - 1 {
      right := true;
      successor := Capture(state, successor, x, y, 1, 0);
    }
    R.ProbeNext(state, x, y, 1, before, Snapshot(successor));
    before := Snapshot(successor);
    if y != 0 {
      up := true;
      successor := Capture(state, successor, x, y, 0, -1);
    }
    R.ProbeNext(state, x, y, 2, before, Snapshot(successor));
    before := Snapshot(successor);
    if y != R.BoardDim - 1 {
      down := true;
      successor := Capture(state, successor, x, y, 0, 1);
    }
    R.ProbeNext(state, x, y, 3, before, Snapshot(successor));
  }

  /** The last four searches of `move`, each run when the flags of both its
      axes are set. */
  method CaptureAlongDiagonals(state: R.State, x: int, y: int, successor: array?<char>,
                               left: bool, right: bool, up: bool, down: bool)
    returns (r: array?<char>)
    requires R.OnBoard(x, y)
    requires (left <==> x != 0) && (right <==> x != R.BoardDim - 1)
    requires (up <==> y != 0) && (down <==> y != R.BoardDim - 1)
    requires successor != null ==> successor.Length == R.BoardSize
    requires Snapshot(successor) == R.ProbeFirst(state, x, y, 4)
    modifies successor
    ensures successor != null ==> r == successor
    ensures successor == null && r != null ==> fresh(r)
    ensures r != null ==> r.Length == R.BoardSize
    ensures Snapshot(r) == R.ProbeFirst(state, x, y, |R.Directions|)
  {
    r := successor;
    ghost var before: Option<R.Board> := Snapshot(r);
    if left && up {
      r := Capture(state, r, x, y, -1, -1);
    }
    R.ProbeNext(state, x, y, 4, before, Snapshot(r));
    before := Snapshot(r);
    if right && up {
      r := Capture(state, r, x, y, 1, -1);
    }
    R.ProbeNext(state, x, y, 5, before, Snapshot(r));
    before := Snapshot(r);
    if left && down {
      r := Capture(state, r, x, y, -1, 1);
    }
    R.ProbeNext(state, x, y, 6, before, Snapshot(r));
    before := Snapshot(r);
    if right && down {
      r := Capture(state, r, x, y, 1, 1);
    }
    R.ProbeNext(state, x, y, 7, before, Snapshot(r));
  }

  /** `actions`: a fresh list holding one action per legal move. Each push
      prepends, so the list pops in reverse row-major order. */
  method Actions(state: R.State) returns (actionList: Stack<R.Action>)
    ensures fresh(actionList) && actionList.Valid()
    ensures actionList.Contents == R.LegalActions(state)
  {
    actionList := new Stack<R.Action>();
    Init(actionList);
    ghost var moves := R.MovesOf(state);
    R.MovesOfAnswers(state);
    for y := 0 to R.BoardDim
      invariant actionList.Valid()
      invariant actionList.Contents == R.PushedBefore(moves, 0, y)
    {
      ActionsInRow(state, moves, y, actionList);
      R.NextRow(moves, y);
    }
  }

  /** One pass of the outer loop of `actions`: visits row y and pushes an
      action for each legal move in it. */
  method ActionsInRow(state: R.State, ghost moves: R.MoveTable, y: int, actionList: Stack<R.Action>)
    requires R.Answers(moves, state) && 0 <= y < R.BoardDim
    requires actionList.Valid() && actionList.Contents == R.PushedBefore(moves, 0, y)
    modifies actionList
    ensures actionList.Valid() && actionList.Contents == R.PushedBefore(moves, R.BoardDim, y)
  {
    for x := 0 to R.BoardDim
      invariant actionList.Valid()
      invariant actionList.Contents == R.PushedBefore(moves, x, y)
    {
      ActionsAt(state, moves, x, y, actionList);
    }
  }

  /** The body of the inner loop of `actions`: pushes the action of square
      (x, y) if it is a legal move. */
  method ActionsAt(state: R.State, ghost moves: R.MoveTable, x: int, y: int, actionList: Stack<R.Action>)
    requires R.Answers(moves, state) && R.OnBoard(x, y)
    requires actionList.Valid() && actionList.Contents == R.PushedBefore(moves, x, y)
    modifies actionList
    ensures actionList.Valid() && actionList.Contents == R.PushedBefore(moves, x + 1, y)
  {
    var result := Move(state, x, y);
    R.PushMove(moves, state, x, y, result);
    if result.Some? {
      Push(actionList, R.Action(x, y, result.value, 0));
    }
  }

  /** `successors`: a fresh list holding the state after every legal move, or
      else the single state in which the mover passes. */
  method Successors(state: R.State) returns (successorList: Stack<R.State>)
    ensures fresh(successorList) && successorList.Valid()
    ensures successorList.Contents == R.Successors(state)
  {
    successorList := new Stack<R.State>();
    Init(successorList);
    ghost var moves := R.MovesOf(state);
    R.MovesOfAnswers(state);
    for y := 0 to R.BoardDim
      invariant successorList.Valid()
      invariant successorList.Contents == R.StatesOf(R.PushedBefore(moves, 0, y))
    {
      SuccessorsInRow(state, moves, y, successorList);
      R.NextRow(moves, y);
    }
    var empty := IsEmpty(successorList);
    if empty {
      var board, colour := StateCopy(state);
      Push(successorList, R.State(R.Flip(colour), board[..]));
    }
  }

  /** One pass of the outer loop of `successors`: visits row y and pushes the
      state after each legal move in it. */
  method SuccessorsInRow(state: R.State, ghost moves: R.MoveTable, y: int, successorList: Stack<R.State>)
    requires R.Answers(moves, state) && 0 <= y < R.BoardDim
    requires successorList.Valid()
    requires successorList.Contents == R.StatesOf(R.PushedBefore(moves, 0, y))
    modifies successorList
    ensures successorList.Valid()
    ensures successorList.Contents == R.StatesOf(R.PushedBefore(moves, R.BoardDim, y))
  {
    for x := 0 to R.BoardDim
      invariant successorList.Valid()
      invariant successorList.Contents == R.StatesOf(R.PushedBefore(moves, x, y))
    {
      SuccessorsAt(state, moves, x, y, successorList);
    }
  }

  /** The body of the inner loop of `successors`: pushes the state after
      playing (x, y) if that is a legal move. */
  method SuccessorsAt(state: R.State, ghost moves: R.MoveTable, x: int, y: int, successorList: Stack<R.State>)
    requires R.Answers(moves, state) && R.OnBoard(x, y)
    requires successorList.Valid()
    requires successorList.Contents == R.StatesOf(R.PushedBefore(moves, x, y))
    modifies successorList
    ensures successorList.Valid()
    ensures successorList.Contents == R.StatesOf(R.PushedBefore(moves, x + 1, y))
  {
    var successor := Move(state, x, y);
    R.PushMove(moves, state, x, y, successor);
    if successor.Some? {
      Push(successorList, successor.value);
      R.StatesOfCons(R.Action(x, y, successor.value, 0), R.PushedBefore(moves, x, y));
    }
  }

  /** `utility`: counts the discs of each colour and evaluates from the side
      of `aiColour`. */
  method Utility(state: R.State, aiColour: char) returns (r: int)
    ensures r == R.Utility(state, aiColour)
  {
    var white, black := 0, 0;
    for i := 0 to R.BoardSize
      invariant white == R.CountOf(state.board[..i], R.White)
      invariant black == R.CountOf(state.board[..i], R.Black)
    {
      assert state.board[..i + 1][..i] == state.board[..i];
      var c := state.board[i];
      if c == R.White {
        white := white + 1;
      } else if c == R.Black {
        black := black + 1;
      }
    }
    assert state.board[..R.BoardSize] == state.board;

    var terminal := TerminalTest(state);
    if terminal {
      if white > black {
        white := white + 100;
      } else if black > white {
        black := black + 100;
      }
    }
    r := if aiColour == R.White then white - black else black - white;
  }

  /** `terminal_test`: the state is terminal when the action list of the
      side to move is empty and so is that of its opponent, computed on a
      copy of the state with the colour flipped. Both lists are released. */
  method TerminalTest(state: R.State) returns (r: bool)
    ensures r == R.TerminalTest(state)
  {
    var actionList := Actions(state);
    var empty := IsEmpty(actionList);
    if !empty {
      var _ := FreeActions(actionList);
      return false;
    }
    var _ := FreeActions(actionList);

    var board, colour := StateCopy(state);
    colour := if state.colour == R.White then R.Black else R.White;
    var opponent := R.State(colour, board[..]);
    actionList := Actions(opponent);
    empty := IsEmpty(actionList);
    var _ := FreeActions(actionList);
    r := empty;
  }

  /** `free_actions`: pops every action off the list and releases it. */
  method FreeActions(actionList: Stack<R.Action>) returns (released: seq<R.Action>)
    requires actionList.Valid()
    modifies actionList
    ensures actionList.Valid() && actionList.Contents == []
    ensures released == old(actionList.Contents)
  {
    released := [];
    var empty := IsEmpty(actionList);
    while !empty
      invariant actionList.Valid()
      invariant released + actionList.Contents == old(actionList.Contents)
      invariant empty <==> actionList.Contents == []
      decreases |actionList.Contents|
    {
      var a := Pop(actionList);
      released := released + [a.value];
      empty := IsEmpty(actionList);
    }
  }
}
