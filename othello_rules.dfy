/**
 * The Othello rules of othelloAI.c, as values: a state is a board of 64
 * characters in row-major order plus the colour to move. Every function here
 * is the specification that the imperative methods of module OthelloAI are
 * proved to compute, and the lemmas say what the rules mean.
 */
module OthelloRules {
  import opened Wrappers

  const BoardDim: int := 8
  const BoardSize: int := 64
  const Empty: char := '.'
  const Black: char := 'B'
  const White: char := 'O'

  /** The `char board[BOARD_SIZE]` of a C state. Boards read from stdin may
      hold any character, so no alphabet is imposed here. */
  type Board = b: seq<char> | |b| == BoardSize witness seq(64, i => '.')

  datatype State = State(colour: char, board: Board)

  /** A legal move (x, y), the state it leads to, and the minimax estimate
      the search records on it (zero when the action is created). */
  datatype Action = Action(x: int, y: int, state: State, estimate: int)

  predicate IsColour(c: char) {
    c == Black || c == White
  }

  /** A state the game itself can produce: a colour to move and only empty
      squares and discs on the board. */
  predicate WellFormed(s: State) {
    IsColour(s.colour) && forall i :: 0 <= i < BoardSize ==> s.board[i] == Empty || IsColour(s.board[i])
  }

  predicate OnBoard(x: int, y: int) {
    0 <= x < BoardDim && 0 <= y < BoardDim
  }

  /** ICONV: the row-major index of square (x, y). */
  function Iconv(x: int, y: int): (i: int)
    requires OnBoard(x, y)
    ensures 0 <= i < BoardSize
  {
    y * 8 + x
  }

  /** ICONV is a bijection between the squares and the indices 0 .. 63:
      its column and row are recovered by remainder and quotient. */
  lemma IconvInverse(x: int, y: int)
    requires OnBoard(x, y)
    ensures Iconv(x, y) % BoardDim == x && Iconv(x, y) / BoardDim == y
  {
  }

  /** FLIP: the opposing colour; anything that is not WHITE flips to WHITE. */
  function Flip(c: char): (r: char)
    ensures IsColour(r) && r != c
    ensures IsColour(c) ==> (r == Black <==> c == White)
  {
    if c == White then Black else White
  }

  /** The state after the side to move passes: same board, other colour. */
  function Pass(s: State): (t: State)
    ensures t.board == s.board && t.colour == Flip(s.colour)
  {
    s.(colour := Flip(s.colour))
  }

  // ---------------------------------------------------------------------
  // Rays

  /** One of the eight compass directions. */
  predicate IsDirection(dx: int, dy: int) {
    -1 <= dx <= 1 && -1 <= dy <= 1 && !(dx == 0 && dy == 0)
  }

  /** p + k * d, for a step d in {-1, 0, 1}. */
  function Along(p: int, d: int, k: int): int {
    if d > 0 then p + k else if d < 0 then p - k else p
  }

  /** Whether the square k steps from (x, y) along (dx, dy) is on the board. */
  predicate OnRay(x: int, y: int, dx: int, dy: int, k: int) {
    OnBoard(Along(x, dx, k), Along(y, dy, k))
  }

  function RayIndex(x: int, y: int, dx: int, dy: int, k: int): (i: int)
    requires OnRay(x, y, dx, dy, k)
    ensures 0 <= i < BoardSize
  {
    Iconv(Along(x, dx, k), Along(y, dy, k))
  }

  /** The board is convex: a ray that is on the board at step m is on it at
      every step in between. */
  lemma RayConvex(x: int, y: int, dx: int, dy: int, j: int, m: int)
    requires OnBoard(x, y) && 0 <= j <= m && OnRay(x, y, dx, dy, m)
    ensures OnRay(x, y, dx, dy, j)
  {
  }

  /** Different steps along one ray land on different squares. */
  lemma RayInjective(x: int, y: int, dx: int, dy: int, j: int, k: int)
    requires IsDirection(dx, dy) && OnRay(x, y, dx, dy, j) && OnRay(x, y, dx, dy, k) && j != k
    ensures RayIndex(x, y, dx, dy, j) != RayIndex(x, y, dx, dy, k)
  {
    IconvInverse(Along(x, dx, j), Along(y, dy, j));
    IconvInverse(Along(x, dx, k), Along(y, dy, k));
  }

  /** The move guards of `move`: a direction is searched only when its first
      square is on the board, e.g. LEFT only when x != 0. */
  predicate Guard(x: int, y: int, dx: int, dy: int) {
    (dx < 0 ==> x != 0) && (dx > 0 ==> x != BoardDim - 1) &&
    (dy < 0 ==> y != 0) && (dy > 0 ==> y != BoardDim - 1)
  }

  lemma GuardIsFirstSquareOnBoard(x: int, y: int, dx: int, dy: int)
    requires OnBoard(x, y) && IsDirection(dx, dy)
    ensures Guard(x, y, dx, dy) <==> OnRay(x, y, dx, dy, 1)
  {
  }

  // ---------------------------------------------------------------------
  // capture

  /** The scan loop of `capture`, from step k on: the step of the nearest
      disc of the mover's colour, or None when an EMPTY square or the edge
      comes first. Enemy discs, and any other character, are passed over. */
  function Flank(s: State, x: int, y: int, dx: int, dy: int, k: int): (m: Option<int>)
    requires OnBoard(x, y) && IsDirection(dx, dy) && k >= 1
    ensures m.Some? ==> k <= m.value && OnRay(x, y, dx, dy, m.value)
    decreases BoardDim - k
  {
    if !OnRay(x, y, dx, dy, k) then None
    else
      var c := s.board[RayIndex(x, y, dx, dy, k)];
      if c == Flip(s.colour) then Flank(s, x, y, dx, dy, k + 1)
      else if c == Empty then None
      else if c == s.colour then Some(k)
      else Flank(s, x, y, dx, dy, k + 1)
  }

  /** One step of the scan loop: the square at step k decides it (an EMPTY
      square stops it empty-handed, a disc of the mover stops it there,
      anything else is passed over), and the next step is one square on. */
  lemma ScanStep(s: State, x: int, y: int, dx: int, dy: int, k: int)
    requires OnBoard(x, y) && IsDirection(dx, dy) && k >= 1 && OnRay(x, y, dx, dy, k)
    ensures k < BoardDim
    ensures Along(x, dx, k + 1) == Along(x, dx, k) + dx && Along(y, dy, k + 1) == Along(y, dy, k) + dy
    ensures var c := s.board[Iconv(Along(x, dx, k), Along(y, dy, k))];
      (c == Empty ==> Flank(s, x, y, dx, dy, k) == None) &&
      (c != Empty && c == s.colour ==> Flank(s, x, y, dx, dy, k) == Some(k)) &&
      (c != Empty && c != s.colour ==> Flank(s, x, y, dx, dy, k) == Flank(s, x, y, dx, dy, k + 1))
  {
  }

  /** The scan loop ends empty-handed once it leaves the board. */
  lemma ScanOff(s: State, x: int, y: int, dx: int, dy: int, k: int)
    requires OnBoard(x, y) && IsDirection(dx, dy) && k >= 1
    requires !OnBoard(Along(x, dx, k), Along(y, dy, k))
    ensures Flank(s, x, y, dx, dy, k) == None
  {
  }

  /** The squares from step k to step m - 1 can be passed over and step m
      holds a disc of the mover: the condition under which the scan stops at m. */
  ghost predicate Flanks(s: State, x: int, y: int, dx: int, dy: int, k: int, m: int)
    requires OnBoard(x, y)
  {
    k <= m && OnRay(x, y, dx, dy, m) &&
    s.board[RayIndex(x, y, dx, dy, m)] == s.colour && s.colour != Empty &&
    forall j :: k <= j < m ==>
      (OnRay(x, y, dx, dy, j) &&
       s.board[RayIndex(x, y, dx, dy, j)] != Empty && s.board[RayIndex(x, y, dx, dy, j)] != s.colour)
  }

  /** The scan finds m exactly when m is the nearest flanking disc. */
  lemma {:induction false} FlankIff(s: State, x: int, y: int, dx: int, dy: int, k: int, m: int)
    requires OnBoard(x, y) && IsDirection(dx, dy) && k >= 1
    ensures Flank(s, x, y, dx, dy, k) == Some(m) <==> Flanks(s, x, y, dx, dy, k, m)
    decreases BoardDim - k
  {
    if !OnRay(x, y, dx, dy, k) {
      if Flanks(s, x, y, dx, dy, k, m) {
        RayConvex(x, y, dx, dy, k, m);
      }
    } else {
      ScanStep(s, x, y, dx, dy, k);
      var c := s.board[RayIndex(x, y, dx, dy, k)];
      if c != Empty && c != s.colour {
        FlankIff(s, x, y, dx, dy, k + 1, m);
        FlanksStep(s, x, y, dx, dy, k, m);
      } else {
        assert Flanks(s, x, y, dx, dy, k, m) ==> m == k;
      }
    }
  }

  /** Passing over a square that is neither EMPTY nor the mover's. */
  lemma FlanksStep(s: State, x: int, y: int, dx: int, dy: int, k: int, m: int)
    requires OnBoard(x, y) && OnRay(x, y, dx, dy, k)
    requires s.board[RayIndex(x, y, dx, dy, k)] != Empty && s.board[RayIndex(x, y, dx, dy, k)] != s.colour
    ensures Flanks(s, x, y, dx, dy, k, m) <==> Flanks(s, x, y, dx, dy, k + 1, m)
  {
    if Flanks(s, x, y, dx, dy, k + 1, m) {
      forall j | k <= j < m
        ensures OnRay(x, y, dx, dy, j) &&
          s.board[RayIndex(x, y, dx, dy, j)] != Empty && s.board[RayIndex(x, y, dx, dy, j)] != s.colour
      {
        if j > k {
          assert k + 1 <= j < m;
        }
      }
    }
  }

  /** `capture`'s early exit and scan: the step of the flanking disc, or
      None when the adjacent square is not an enemy disc or nothing flanks. */
  function CaptureDistance(s: State, x: int, y: int, dx: int, dy: int): (m: Option<int>)
    requires OnBoard(x, y) && IsDirection(dx, dy) && OnRay(x, y, dx, dy, 1)
    ensures m.Some? ==> 2 <= m.value && OnRay(x, y, dx, dy, m.value)
  {
    if s.board[RayIndex(x, y, dx, dy, 1)] != Flip(s.colour) then None
    else Flank(s, x, y, dx, dy, 1)
  }

  /** `capture` captures in direction (dx, dy) with flanking disc at step m
      exactly when the adjacent square is an enemy disc and m is the nearest
      disc of the mover's colour, with no EMPTY square in between. */
  lemma CaptureDistanceIff(s: State, x: int, y: int, dx: int, dy: int, m: int)
    requires OnBoard(x, y) && IsDirection(dx, dy) && OnRay(x, y, dx, dy, 1)
    ensures CaptureDistance(s, x, y, dx, dy) == Some(m) <==>
      s.board[RayIndex(x, y, dx, dy, 1)] == Flip(s.colour) && Flanks(s, x, y, dx, dy, 1, m)
  {
    FlankIff(s, x, y, dx, dy, 1, m);
  }

  /** The flip loop of `capture`: writes colour c on steps k .. m - 1. */
  function FlipRay(b: Board, c: char, x: int, y: int, dx: int, dy: int, k: int, m: int): (r: Board)
    requires OnBoard(x, y) && 1 <= k <= m && OnRay(x, y, dx, dy, m)
    ensures forall i :: 0 <= i < BoardSize ==> r[i] == b[i] || r[i] == c
    decreases m - k
  {
    if k == m then b
    else
      RayConvex(x, y, dx, dy, k, m);
      FlipRay(b[RayIndex(x, y, dx, dy, k) := c], c, x, y, dx, dy, k + 1, m)
  }

  /** Whether square i is one of the steps k .. m - 1 of the ray. */
  ghost predicate OnSegment(x: int, y: int, dx: int, dy: int, k: int, m: int, i: int) {
    exists j :: k <= j < m && OnRay(x, y, dx, dy, j) && RayIndex(x, y, dx, dy, j) == i
  }

  /** FlipRay writes c exactly on the segment and leaves every other square. */
  lemma {:induction false} FlipRayEffect(b: Board, c: char, x: int, y: int, dx: int, dy: int, k: int, m: int)
    requires OnBoard(x, y) && IsDirection(dx, dy) && 1 <= k <= m && OnRay(x, y, dx, dy, m)
    ensures forall i :: 0 <= i < BoardSize ==>
      FlipRay(b, c, x, y, dx, dy, k, m)[i] == if OnSegment(x, y, dx, dy, k, m, i) then c else b[i]
    decreases m - k
  {
    if k < m {
      RayConvex(x, y, dx, dy, k, m);
      var p := RayIndex(x, y, dx, dy, k);
      FlipRayEffect(b[p := c], c, x, y, dx, dy, k + 1, m);
      forall i | 0 <= i < BoardSize
        ensures OnSegment(x, y, dx, dy, k, m, i) <==> i == p || OnSegment(x, y, dx, dy, k + 1, m, i)
      {
        if OnSegment(x, y, dx, dy, k, m, i) && i != p {
          var j :| k <= j < m && OnRay(x, y, dx, dy, j) && RayIndex(x, y, dx, dy, j) == i;
          assert j != k;
        }
        if i == p {
          assert k <= k < m && OnRay(x, y, dx, dy, k) && RayIndex(x, y, dx, dy, k) == i;
        }
        if OnSegment(x, y, dx, dy, k + 1, m, i) {
          var j :| k + 1 <= j < m && OnRay(x, y, dx, dy, j) && RayIndex(x, y, dx, dy, j) == i;
          assert k <= j < m && OnRay(x, y, dx, dy, j) && RayIndex(x, y, dx, dy, j) == i;
        }
      }
    } else {
      forall i | 0 <= i < BoardSize
        ensures !OnSegment(x, y, dx, dy, k, m, i)
      {
      }
    }
  }

  /** `capture` on the successor board so far (None: no copy made yet):
      unchanged when nothing is captured, otherwise the flanked squares of
      that board (or of a fresh copy of the input board) take the mover's colour. */
  function CaptureInto(s: State, succ: Option<Board>, x: int, y: int, dx: int, dy: int): (r: Option<Board>)
    requires OnBoard(x, y) && IsDirection(dx, dy) && OnRay(x, y, dx, dy, 1)
    ensures r.Some? <==> succ.Some? || CaptureDistance(s, x, y, dx, dy).Some?
    ensures CaptureDistance(s, x, y, dx, dy).None? ==> r == succ
    ensures r.Some? ==> forall i :: 0 <= i < BoardSize ==>
      r.value[i] == s.colour || (succ.Some? && r.value[i] == succ.value[i]) || (succ.None? && r.value[i] == s.board[i])
  {
    match CaptureDistance(s, x, y, dx, dy)
    case None => succ
    case Some(m) => Some(FlipRay(if succ.Some? then succ.value else s.board, s.colour, x, y, dx, dy, 1, m))
  }

  // ---------------------------------------------------------------------
  // move

  /** The eight directions in the order `move` searches them: left, right,
      up, down, up-left, up-right, down-left, down-right. */
  const Directions: seq<(int, int)> := [(-1, 0), (1, 0), (0, -1), (0, 1), (-1, -1), (1, -1), (-1, 1), (1, 1)]

  lemma DirectionsAreDirections()
    ensures |Directions| == 8
    ensures forall d :: 0 <= d < |Directions| ==> IsDirection(Directions[d].0, Directions[d].1)
  {
  }

  /** One guarded search of `move`. */
  function Probe(s: State, succ: Option<Board>, x: int, y: int, dx: int, dy: int): (r: Option<Board>)
    requires OnBoard(x, y) && IsDirection(dx, dy)
    ensures succ.Some? ==> r.Some?
    ensures !Guard(x, y, dx, dy) ==> r == succ
  {
    if Guard(x, y, dx, dy) then CaptureInto(s, succ, x, y, dx, dy) else succ
  }

  /** The successor board after the first n searches of `move`. */
  function ProbeFirst(s: State, x: int, y: int, n: int): (r: Option<Board>)
    requires OnBoard(x, y) && 0 <= n <= |Directions|
    ensures r.Some? ==> forall i :: 0 <= i < BoardSize ==> r.value[i] == s.board[i] || r.value[i] == s.colour
  {
    if n == 0 then None
    else Probe(s, ProbeFirst(s, x, y, n - 1), x, y, Directions[n - 1].0, Directions[n - 1].1)
  }

  /** The successor board after one more search, in terms of the one before. */
  lemma ProbeNext(s: State, x: int, y: int, n: int, before: Option<Board>, after: Option<Board>)
    requires OnBoard(x, y) && 0 <= n < |Directions| && before == ProbeFirst(s, x, y, n)
    requires IsDirection(Directions[n].0, Directions[n].1)
    requires after == Probe(s, before, x, y, Directions[n].0, Directions[n].1)
    ensures after == ProbeFirst(s, x, y, n + 1)
  {
  }

  /** `move`: None when the square is not EMPTY or no direction captures;
      otherwise the captured board with the mover's disc on (x, y), and the
      opponent to move. */
  function Move(s: State, x: int, y: int): (r: Option<State>)
    requires OnBoard(x, y)
    ensures s.board[Iconv(x, y)] != Empty ==> r.None?
    ensures r.Some? ==> r.value.colour == Flip(s.colour) && r.value.board[Iconv(x, y)] == s.colour
    ensures r.Some? ==> forall i :: 0 <= i < BoardSize ==> r.value.board[i] == s.board[i] || r.value.board[i] == s.colour
  {
    if s.board[Iconv(x, y)] != Empty then None
    else
      match ProbeFirst(s, x, y, |Directions|)
      case None => None
      case Some(b) => Some(State(Flip(s.colour), b[Iconv(x, y) := s.colour]))
  }

  /** `move` once its searches are done: no capture means no move, otherwise
      the mover's disc goes on the target square and the opponent moves next. */
  lemma MoveOfProbes(s: State, x: int, y: int)
    requires OnBoard(x, y) && s.board[Iconv(x, y)] == Empty
    ensures ProbeFirst(s, x, y, |Directions|) == None ==> Move(s, x, y) == None
    ensures ProbeFirst(s, x, y, |Directions|).Some? ==>
      (Move(s, x, y) == Some(State(Flip(s.colour), ProbeFirst(s, x, y, |Directions|).value[Iconv(x, y) := s.colour])))
  {
  }

  /** Direction (dx, dy) is searched and captures. */
  ghost predicate Captures(s: State, x: int, y: int, dx: int, dy: int)
    requires OnBoard(x, y) && IsDirection(dx, dy)
  {
    Guard(x, y, dx, dy) && (GuardIsFirstSquareOnBoard(x, y, dx, dy); CaptureDistance(s, x, y, dx, dy).Some?)
  }

  /** Square i lies strictly between (x, y) and the flanking disc of
      direction (dx, dy). */
  ghost predicate FlankedIn(s: State, x: int, y: int, dx: int, dy: int, i: int)
    requires OnBoard(x, y) && IsDirection(dx, dy)
  {
    Captures(s, x, y, dx, dy) &&
    (GuardIsFirstSquareOnBoard(x, y, dx, dy); OnSegment(x, y, dx, dy, 1, CaptureDistance(s, x, y, dx, dy).value, i))
  }

  /** Some of the first n directions captures. */
  ghost predicate CapturesAmong(s: State, x: int, y: int, n: int)
    requires OnBoard(x, y) && 0 <= n <= |Directions|
  {
    exists d :: 0 <= d < n && Captures(s, x, y, Directions[d].0, Directions[d].1)
  }

  /** Square i is flanked in one of the first n directions. */
  ghost predicate FlankedAmong(s: State, x: int, y: int, n: int, i: int)
    requires OnBoard(x, y) && 0 <= n <= |Directions|
  {
    exists d :: 0 <= d < n && FlankedIn(s, x, y, Directions[d].0, Directions[d].1, i)
  }

  /** Square i is flanked from (x, y) in some direction: exactly the squares
      that `move` turns over. */
  ghost predicate Flanked(s: State, x: int, y: int, i: int)
    requires OnBoard(x, y)
  {
    FlankedAmong(s, x, y, |Directions|, i)
  }

  /** A flanked square is never the target square itself; it held neither an
      EMPTY square nor a disc of the mover, so on a well-formed board it held
      an enemy disc. */
  lemma FlankedSquare(s: State, x: int, y: int, i: int)
    requires OnBoard(x, y) && Flanked(s, x, y, i)
    ensures 0 <= i < BoardSize && i != Iconv(x, y)
    ensures s.board[i] != Empty && s.board[i] != s.colour
    ensures WellFormed(s) ==> s.board[i] == Flip(s.colour)
  {
    var d :| 0 <= d < |Directions| && FlankedIn(s, x, y, Directions[d].0, Directions[d].1, i);
    DirectionsAreDirections();
    FlankedInSquare(s, x, y, Directions[d].0, Directions[d].1, i);
  }

  lemma FlankedInSquare(s: State, x: int, y: int, dx: int, dy: int, i: int)
    requires OnBoard(x, y) && IsDirection(dx, dy) && FlankedIn(s, x, y, dx, dy, i)
    ensures 0 <= i < BoardSize && i != Iconv(x, y)
    ensures s.board[i] != Empty && s.board[i] != s.colour
    ensures WellFormed(s) ==> s.board[i] == Flip(s.colour)
  {
    GuardIsFirstSquareOnBoard(x, y, dx, dy);
    var m := CaptureDistance(s, x, y, dx, dy).value;
    var j :| 1 <= j < m && OnRay(x, y, dx, dy, j) && RayIndex(x, y, dx, dy, j) == i;
    CaptureDistanceIff(s, x, y, dx, dy, m);
    assert s.board[RayIndex(x, y, dx, dy, j)] != Empty && s.board[RayIndex(x, y, dx, dy, j)] != s.colour;
    assert Iconv(x, y) == RayIndex(x, y, dx, dy, 0);
    RayInjective(x, y, dx, dy, 0, j);
  }

  /** What the first n searches of `move` build: a board exists exactly when
      one of them captures, and it is the input board with every square
      flanked in one of those directions turned to the mover's colour. */
  lemma {:induction false} ProbeFirstEffect(s: State, x: int, y: int, n: int)
    requires OnBoard(x, y) && 0 <= n <= |Directions|
    ensures ProbeFirst(s, x, y, n).Some? <==> CapturesAmong(s, x, y, n)
    ensures ProbeFirst(s, x, y, n).Some? ==> forall i :: 0 <= i < BoardSize ==>
      ProbeFirst(s, x, y, n).value[i] == if FlankedAmong(s, x, y, n, i) then s.colour else s.board[i]
  {
    if n > 0 {
      ProbeFirstEffect(s, x, y, n - 1);
      DirectionsAreDirections();
      var prev := ProbeFirst(s, x, y, n - 1);
      CapturesAmongStep(s, x, y, n);
      FlankedAmongStep(s, x, y, n);
      ProbeEffect(s, prev, x, y, Directions[n - 1].0, Directions[n - 1].1);
    }
  }

  lemma CapturesAmongStep(s: State, x: int, y: int, n: int)
    requires OnBoard(x, y) && 0 < n <= |Directions|
    ensures IsDirection(Directions[n - 1].0, Directions[n - 1].1)
    ensures CapturesAmong(s, x, y, n) <==>
      CapturesAmong(s, x, y, n - 1) || Captures(s, x, y, Directions[n - 1].0, Directions[n - 1].1)
  {
    DirectionsAreDirections();
    if CapturesAmong(s, x, y, n) {
      var d :| 0 <= d < n && Captures(s, x, y, Directions[d].0, Directions[d].1);
      if d < n - 1 {
        assert CapturesAmong(s, x, y, n - 1);
      }
    }
    if CapturesAmong(s, x, y, n - 1) {
      var d :| 0 <= d < n - 1 && Captures(s, x, y, Directions[d].0, Directions[d].1);
      assert 0 <= d < n;
    }
  }

  lemma FlankedAmongStep(s: State, x: int, y: int, n: int)
    requires OnBoard(x, y) && 0 < n <= |Directions|
    ensures IsDirection(Directions[n - 1].0, Directions[n - 1].1)
    ensures forall i :: FlankedAmong(s, x, y, n, i) <==>
      FlankedAmong(s, x, y, n - 1, i) || FlankedIn(s, x, y, Directions[n - 1].0, Directions[n - 1].1, i)
  {
    DirectionsAreDirections();
    forall i
      ensures FlankedAmong(s, x, y, n, i) <==>
        FlankedAmong(s, x, y, n - 1, i) || FlankedIn(s, x, y, Directions[n - 1].0, Directions[n - 1].1, i)
    {
      if FlankedAmong(s, x, y, n, i) {
        var d :| 0 <= d < n && FlankedIn(s, x, y, Directions[d].0, Directions[d].1, i);
        if d < n - 1 {
          assert FlankedAmong(s, x, y, n - 1, i);
        }
      }
      if FlankedAmong(s, x, y, n - 1, i) {
        var d :| 0 <= d < n - 1 && FlankedIn(s, x, y, Directions[d].0, Directions[d].1, i);
        assert 0 <= d < n;
      }
    }
  }

  /** One guarded search: it yields a board when there was one already or the
      direction captures, and that board turns over the direction's flanked
      squares on top of the board it started from. */
  lemma ProbeEffect(s: State, prev: Option<Board>, x: int, y: int, dx: int, dy: int)
    requires OnBoard(x, y) && IsDirection(dx, dy)
    ensures Probe(s, prev, x, y, dx, dy).Some? <==> prev.Some? || Captures(s, x, y, dx, dy)
    ensures Probe(s, prev, x, y, dx, dy).Some? ==> forall i :: 0 <= i < BoardSize ==>
      Probe(s, prev, x, y, dx, dy).value[i] ==
        if FlankedIn(s, x, y, dx, dy, i) then s.colour
        else if prev.Some? then prev.value[i] else s.board[i]
  {
    GuardIsFirstSquareOnBoard(x, y, dx, dy);
    if Captures(s, x, y, dx, dy) {
      var m := CaptureDistance(s, x, y, dx, dy).value;
      var base := if prev.Some? then prev.value else s.board;
      FlipRayEffect(base, s.colour, x, y, dx, dy, 1, m);
    }
  }

  /** The legal-move test and capture of `move`, stated outright: a move at
      (x, y) exists exactly when the square is EMPTY and some searched
      direction captures; the resulting state has the opponent to move, the
      mover's disc on (x, y), the flanked squares turned to the mover's
      colour, and every other square as it was. */
  lemma MoveEffect(s: State, x: int, y: int)
    requires OnBoard(x, y)
    ensures Move(s, x, y).Some? <==> s.board[Iconv(x, y)] == Empty && CapturesAmong(s, x, y, |Directions|)
    ensures Move(s, x, y).Some? ==>
      Move(s, x, y).value.colour == Flip(s.colour) &&
      forall i :: 0 <= i < BoardSize ==>
        Move(s, x, y).value.board[i] == if i == Iconv(x, y) || Flanked(s, x, y, i) then s.colour else s.board[i]
  {
    ProbeFirstEffect(s, x, y, |Directions|);
  }

  /** `move` returns no state when the target square is occupied. */
  lemma MoveNeedsEmptySquare(s: State, x: int, y: int)
    requires OnBoard(x, y) && s.board[Iconv(x, y)] != Empty
    ensures Move(s, x, y) == None
  {
  }

  /** The square-by-square promise of `move`: every square other than the
      target is unchanged or turned from an enemy disc (on a well-formed
      board) to the mover's colour, and something is always turned over. */
  lemma MoveChangesOnlyCaptures(s: State, x: int, y: int)
    requires OnBoard(x, y) && Move(s, x, y).Some?
    ensures var t := Move(s, x, y).value;
      t.board[Iconv(x, y)] == s.colour && s.board[Iconv(x, y)] == Empty &&
      (forall i :: 0 <= i < BoardSize && i != Iconv(x, y) ==>
        t.board[i] == s.board[i] ||
        (t.board[i] == s.colour && s.board[i] != Empty && (WellFormed(s) ==> s.board[i] == Flip(s.colour)))) &&
      exists i :: 0 <= i < BoardSize && i != Iconv(x, y) && s.board[i] != t.board[i]
  {
    MoveEffect(s, x, y);
    var t := Move(s, x, y).value;
    forall i | 0 <= i < BoardSize && i != Iconv(x, y) && Flanked(s, x, y, i)
      ensures t.board[i] == s.colour && s.board[i] != Empty && (WellFormed(s) ==> s.board[i] == Flip(s.colour))
    {
      FlankedSquare(s, x, y, i);
    }
    var p := SomeFlanked(s, x, y);
    FlankedSquare(s, x, y, p);
  }

  /** A move that captures turns over at least one square: the one next to
      the target in a capturing direction. */
  lemma SomeFlanked(s: State, x: int, y: int) returns (p: int)
    requires OnBoard(x, y) && CapturesAmong(s, x, y, |Directions|)
    ensures Flanked(s, x, y, p)
  {
    var d :| 0 <= d < |Directions| && Captures(s, x, y, Directions[d].0, Directions[d].1);
    DirectionsAreDirections();
    p := FirstFlanked(s, x, y, Directions[d].0, Directions[d].1);
    assert FlankedIn(s, x, y, Directions[d].0, Directions[d].1, p);
  }

  lemma FirstFlanked(s: State, x: int, y: int, dx: int, dy: int) returns (p: int)
    requires OnBoard(x, y) && IsDirection(dx, dy) && Captures(s, x, y, dx, dy)
    ensures FlankedIn(s, x, y, dx, dy, p)
  {
    GuardIsFirstSquareOnBoard(x, y, dx, dy);
    var m := CaptureDistance(s, x, y, dx, dy).value;
    p := RayIndex(x, y, dx, dy, 1);
    assert OnSegment(x, y, dx, dy, 1, m, p);
  }

  /** A move keeps a well-formed state well formed. */
  lemma MoveKeepsWellFormed(s: State, x: int, y: int)
    requires OnBoard(x, y) && WellFormed(s) && Move(s, x, y).Some?
    ensures WellFormed(Move(s, x, y).value)
  {
    MoveEffect(s, x, y);
  }

  // ---------------------------------------------------------------------
  // actions, successors, terminal_test

  /** What `actions` and `successors` learn from calling `move` on every
      square: the answer for square (x, y) sits at index ICONV(x, y). */
  type MoveTable = t: seq<Option<State>> | |t| == BoardSize witness seq(64, i => None)

  /** `move` of one state, asked about every square of the board. */
  function MovesOf(s: State): MoveTable {
    seq(BoardSize, i requires 0 <= i < BoardSize => Move(s, i % BoardDim, i / BoardDim))
  }

  /** `moves` answers, on every square of the board, what `move` of s returns
      there; it is consulted only where `move` itself has been asked. */
  ghost predicate Answers(moves: MoveTable, s: State) {
    forall x, y {:trigger Move(s, x, y)} :: OnBoard(x, y) ==> moves[Iconv(x, y)] == Move(s, x, y)
  }

  lemma MovesOfAnswers(s: State)
    ensures Answers(MovesOf(s), s)
  {
    forall x, y | OnBoard(x, y)
      ensures MovesOf(s)[Iconv(x, y)] == Move(s, x, y)
    {
      IconvInverse(x, y);
    }
  }

  /** The action `actions` creates at square (x, y), if that square is a legal move. */
  function ActionOn(moves: MoveTable, x: int, y: int): seq<Action>
    requires OnBoard(x, y)
  {
    match moves[Iconv(x, y)]
    case None => []
    case Some(t) => [Action(x, y, t, 0)]
  }

  /** The list `actions` holds just before its loops visit square (x, y),
      head first: every push prepends, so the square visited last comes
      first. Square (0, BoardDim) stands for the end of the loops. */
  function PushedBefore(moves: MoveTable, x: int, y: int): (r: seq<Action>)
    requires 0 <= x <= BoardDim && 0 <= y <= BoardDim && (y == BoardDim ==> x == 0)
    ensures |r| <= y * BoardDim + x
    decreases y, x
  {
    if x > 0 then ActionOn(moves, x - 1, y) + PushedBefore(moves, x - 1, y)
    else if y > 0 then PushedBefore(moves, BoardDim, y - 1)
    else []
  }

  /** The list `actions` returns, head first. */
  function LegalActions(s: State): (r: seq<Action>)
    ensures |r| <= BoardSize
  {
    PushedBefore(MovesOf(s), 0, BoardDim)
  }

  /** Visiting square (x, y), where `move` returned r, pushes the action
      carrying r when r is a state, and nothing otherwise. */
  lemma PushMove(moves: MoveTable, s: State, x: int, y: int, r: Option<State>)
    requires Answers(moves, s) && OnBoard(x, y) && r == Move(s, x, y)
    ensures r.None? ==> PushedBefore(moves, x + 1, y) == PushedBefore(moves, x, y)
    ensures r.Some? ==> PushedBefore(moves, x + 1, y) == [Action(x, y, r.value, 0)] + PushedBefore(moves, x, y)
  {
  }

  /** A row starts from the list the row above it left. */
  lemma NextRow(moves: MoveTable, y: int)
    requires 0 <= y < BoardDim
    ensures PushedBefore(moves, 0, y + 1) == PushedBefore(moves, BoardDim, y)
  {
  }

  /** Square (x, y) is visited before square (x', y'): row-major order. */
  predicate Precedes(x: int, y: int, x': int, y': int) {
    y < y' || (y == y' && x < x')
  }

  lemma {:induction false} PushedSound(moves: MoveTable, x: int, y: int)
    requires 0 <= x <= BoardDim && 0 <= y <= BoardDim && (y == BoardDim ==> x == 0)
    ensures forall a :: a in PushedBefore(moves, x, y) ==>
      OnBoard(a.x, a.y) && Precedes(a.x, a.y, x, y) && moves[Iconv(a.x, a.y)] == Some(a.state) && a.estimate == 0
    decreases y, x
  {
    if x > 0 {
      PushedSound(moves, x - 1, y);
    } else if y > 0 {
      PushedSound(moves, BoardDim, y - 1);
    }
  }

  /** Square (x, y) comes after square (x', y') in row-major order. */
  predicate After(a: Action, b: Action) {
    Precedes(b.x, b.y, a.x, a.y)
  }

  /** The list holds the squares visited later first. */
  lemma {:induction false} PushedOrdered(moves: MoveTable, x: int, y: int)
    requires 0 <= x <= BoardDim && 0 <= y <= BoardDim && (y == BoardDim ==> x == 0)
    ensures forall k, l :: 0 <= k < l < |PushedBefore(moves, x, y)| ==>
      After(PushedBefore(moves, x, y)[k], PushedBefore(moves, x, y)[l])
    decreases y, x
  {
    if x > 0 {
      var here: seq<Action>, rest: seq<Action> := ActionOn(moves, x - 1, y), PushedBefore(moves, x - 1, y);
      PushedSound(moves, x - 1, y);
      PushedOrdered(moves, x - 1, y);
      forall k, l | 0 <= k < l < |here + rest|
        ensures After((here + rest)[k], (here + rest)[l])
      {
        if k < |here| {
          assert rest[l - |here|] in rest;
        }
      }
    } else if y > 0 {
      PushedOrdered(moves, BoardDim, y - 1);
    }
  }

  /** Every square visited before (x, y) whose `move` succeeded has its
      action on the list. */
  lemma {:induction false} PushedComplete(moves: MoveTable, x: int, y: int, x': int, y': int)
    requires 0 <= x <= BoardDim && 0 <= y <= BoardDim && (y == BoardDim ==> x == 0)
    requires OnBoard(x', y') && Precedes(x', y', x, y) && moves[Iconv(x', y')].Some?
    ensures Action(x', y', moves[Iconv(x', y')].value, 0) in PushedBefore(moves, x, y)
    decreases y, x
  {
    var a := Action(x', y', moves[Iconv(x', y')].value, 0);
    if x > 0 {
      var here: seq<Action>, rest: seq<Action> := ActionOn(moves, x - 1, y), PushedBefore(moves, x - 1, y);
      assert PushedBefore(moves, x, y) == here + rest;
      if x' == x - 1 && y' == y {
        assert here == [a];
      } else {
        PushedComplete(moves, x - 1, y, x', y');
        assert a in rest;
      }
    } else {
      assert PushedBefore(moves, x, y) == PushedBefore(moves, BoardDim, y - 1);
      PushedComplete(moves, BoardDim, y - 1, x', y');
    }
  }

  /** The list `actions` returns holds exactly the legal moves: every action
      on it is the legal move at its square, carrying the state `move`
      produces and an estimate of zero; the squares come from the last in
      row-major order to the first (every push prepends), so none twice; and
      every legal move is on it. */
  lemma LegalActionsExact(s: State)
    ensures forall a :: a in LegalActions(s) ==>
      OnBoard(a.x, a.y) && Move(s, a.x, a.y) == Some(a.state) && a.estimate == 0
    ensures forall k, l :: 0 <= k < l < |LegalActions(s)| ==> After(LegalActions(s)[k], LegalActions(s)[l])
    ensures forall x, y :: OnBoard(x, y) && Move(s, x, y).Some? ==>
      Action(x, y, Move(s, x, y).value, 0) in LegalActions(s)
  {
    var moves := MovesOf(s);
    MovesOfAnswers(s);
    PushedSound(moves, 0, BoardDim);
    PushedOrdered(moves, 0, BoardDim);
    forall x, y | OnBoard(x, y) && Move(s, x, y).Some?
      ensures Action(x, y, Move(s, x, y).value, 0) in LegalActions(s)
    {
      PushedComplete(moves, 0, BoardDim, x, y);
    }
  }

  /** There are no actions exactly when no square is a legal move. */
  lemma NoActionsIff(s: State)
    ensures LegalActions(s) == [] <==> forall x, y :: OnBoard(x, y) ==> Move(s, x, y) == None
  {
    LegalActionsExact(s);
    if LegalActions(s) != [] {
      var a := LegalActions(s)[0];
      assert a in LegalActions(s);
    }
  }

  /** `result`: the state an action carries, computed when it was enumerated. */
  function Result(a: Action, s: State): (r: State)
    ensures a in LegalActions(s) ==> OnBoard(a.x, a.y) && Move(s, a.x, a.y) == Some(r)
  {
    LegalActionsExact(s);
    a.state
  }

  /** The result of every action of a state is that state's `move` at the
      action's square. */
  lemma ResultIsMove(s: State, k: int)
    requires 0 <= k < |LegalActions(s)|
    ensures var a := LegalActions(s)[k]; OnBoard(a.x, a.y) && Some(Result(a, s)) == Move(s, a.x, a.y)
  {
    LegalActionsExact(s);
    assert LegalActions(s)[k] in LegalActions(s);
  }

  /** `set_estimate`: records the estimate on a non-NULL action, leaving the
      rest of the action alone. */
  function SetEstimate(a: Option<Action>, estimate: int): (r: Option<Action>)
    ensures r.Some? <==> a.Some?
    ensures a.Some? ==> r.value.estimate == estimate && r.value.(estimate := a.value.estimate) == a.value
  {
    match a
    case None => None
    case Some(act) => Some(act.(estimate := estimate))
  }

  /** The result states of a list of actions, in the same order. */
  function StatesOf(acts: seq<Action>): (r: seq<State>)
    ensures |r| == |acts|
  {
    if acts == [] then [] else [acts[0].state] + StatesOf(acts[1..])
  }

  lemma {:induction false} StatesOfAt(acts: seq<Action>, k: int)
    requires 0 <= k < |acts|
    ensures StatesOf(acts)[k] == acts[k].state
  {
    if k > 0 {
      StatesOfAt(acts[1..], k - 1);
    }
  }

  lemma StatesOfCons(a: Action, acts: seq<Action>)
    ensures StatesOf([a] + acts) == [a.state] + StatesOf(acts)
  {
    assert ([a] + acts)[1..] == acts;
  }

  /** The list `successors` returns, head first: the state after each action
      of the list `actions` returns, in that list's order, or a single pass
      state when there is no legal move. */
  function Successors(s: State): (r: seq<State>)
    ensures 1 <= |r| <= BoardSize
  {
    if LegalActions(s) == [] then [Pass(s)] else StatesOf(LegalActions(s))
  }

  /** `successors` never returns an empty list, and yields one state per
      action of `actions` (the result of that action), or only the pass. */
  lemma SuccessorsShape(s: State)
    ensures |Successors(s)| >= 1
    ensures LegalActions(s) == [] ==> Successors(s) == [Pass(s)]
    ensures LegalActions(s) != [] ==>
      (|Successors(s)| == |LegalActions(s)| &&
       forall k :: 0 <= k < |Successors(s)| ==>
         var a := LegalActions(s)[k];
         OnBoard(a.x, a.y) && Move(s, a.x, a.y) == Some(Successors(s)[k]))
  {
    LegalActionsExact(s);
    var acts := LegalActions(s);
    if acts != [] {
      forall k | 0 <= k < |acts|
        ensures OnBoard(acts[k].x, acts[k].y) && Move(s, acts[k].x, acts[k].y) == Some(Successors(s)[k])
      {
        StatesOfAt(acts, k);
        assert acts[k] in acts;
      }
    }
  }

  /** `terminal_test`: neither the side to move nor its opponent has a move. */
  predicate TerminalTest(s: State)
    ensures TerminalTest(s) ==> Successors(s) == [Pass(s)] && Successors(Pass(s)) == [Pass(Pass(s))]
  {
    LegalActions(s) == [] && LegalActions(Pass(s)) == []
  }

  lemma TerminalTestIff(s: State)
    ensures TerminalTest(s) <==>
      (forall x, y :: OnBoard(x, y) ==> Move(s, x, y) == None) &&
      (forall x, y :: OnBoard(x, y) ==> Move(Pass(s), x, y) == None)
  {
    NoActionsIff(s);
    NoActionsIff(Pass(s));
  }

  // ---------------------------------------------------------------------
  // utility

  /** The number of squares of b holding c. */
  function CountOf(b: seq<char>, c: char): (n: nat)
    ensures n <= |b|
  {
    if b == [] then 0 else CountOf(b[..|b| - 1], c) + (if b[|b| - 1] == c then 1 else 0)
  }

  lemma {:induction false} CountsBounded(b: seq<char>)
    ensures CountOf(b, White) + CountOf(b, Black) <= |b|
  {
    if b != [] {
      CountsBounded(b[..|b| - 1]);
    }
  }

  /** `utility` from the point of view of `aiColour` (the colour to move when
      the search started): WHITE's discs minus BLACK's for WHITE, the reverse
      for anyone else, with 100 added to the side that has more discs on a
      terminal board. */
  function Utility(s: State, aiColour: char): (u: int)
    ensures -(BoardSize + 100) <= u <= BoardSize + 100
  {
    CountsBounded(s.board);
    var white, black := CountOf(s.board, White), CountOf(s.board, Black);
    var (white', black') :=
      if !TerminalTest(s) then (white, black)
      else if white > black then (white + 100, black)
      else if black > white then (white, black + 100)
      else (white, black);
    if aiColour == White then white' - black' else black' - white'
  }

  /** The disc difference and the terminal bonus, from the side of
      `aiColour`: own discs minus the opponent's, plus 100 for a terminal
      win, minus 100 for a terminal loss, nothing for a draw or an
      unfinished game; so a terminal board scores more than 100, less than
      -100, or exactly 0, and any other board at most 64 either way. */
  lemma UtilityMeaning(s: State, aiColour: char)
    ensures var own := CountOf(s.board, if aiColour == White then White else Black);
      var opp := CountOf(s.board, if aiColour == White then Black else White);
      Utility(s, aiColour) ==
        own - opp + (if TerminalTest(s) && own > opp then 100 else if TerminalTest(s) && opp > own then -100 else 0)
    ensures !TerminalTest(s) ==> -BoardSize <= Utility(s, aiColour) <= BoardSize
    ensures TerminalTest(s) ==>
      Utility(s, aiColour) > 100 || Utility(s, aiColour) < -100 || Utility(s, aiColour) == 0
  {
    CountsBounded(s.board);
  }

  /** The game is zero-sum: the two sides' utilities are opposite. */
  lemma UtilityZeroSum(s: State)
    ensures Utility(s, White) == -Utility(s, Black)
  {
  }
}
