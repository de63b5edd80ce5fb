/** Board geometry, cells and the initial position of the Othello rules engine. */
module Grid {

  /** The two sides. */
  datatype Player = Black | White

  /** Contents of one square: empty, or a stone owned by a player. */
  datatype Cell = Empty | Stone(owner: Player)

  /** A (row, column) coordinate. Coordinates are unbounded so that
      off-board coordinates can reach the engine and be rejected there. */
  datatype Pos = Pos(row: int, col: int)

  /** The eight compass directions; rows grow downwards. */
  datatype Dir = NW | N | NE | W | E | SW | S | SE

  /** Side length of the board. */
  const Size: int := 8

  /** The number of squares on the board. */
  const Squares: int := 64

  predicate Square(g: seq<seq<Cell>>) {
    |g| == Size && forall r :: 0 <= r < |g| ==> |g[r]| == Size
  }

  /** A board is an 8x8 grid, stored row by row. */
  type Board = g: seq<seq<Cell>> | Square(g) witness seq(8, r => seq(8, c => Empty))

  predicate InBounds(p: Pos) {
    0 <= p.row < Size && 0 <= p.col < Size
  }

  /** The other player. */
  function Opponent(p: Player): (q: Player)
    ensures q != p
  {
    if p == White then Black else White
  }

  /** Applying Opponent twice gives back the player. */
  lemma OpponentInvolution(p: Player)
    ensures Opponent(Opponent(p)) == p
    ensures Opponent(p) != p
  {
  }

  /** The (row, column) offset of one step in a direction. */
  function Delta(d: Dir): (int, int) {
    match d
    case NW => (-1, -1)
    case N  => (-1, 0)
    case NE => (-1, 1)
    case W  => (0, -1)
    case E  => (0, 1)
    case SW => (1, -1)
    case S  => (1, 0)
    case SE => (1, 1)
  }

  /** The direction table, in the order the engine scans it. */
  const Directions: seq<Dir> := [NW, N, NE, W, E, SW, S, SE]

  /** The table lists every direction exactly once, and the offsets are
      exactly the eight non-zero pairs over {-1, 0, 1}. */
  lemma DirectionsTable()
    ensures forall d: Dir :: d in Directions
    ensures forall i, j :: 0 <= i < j < |Directions| ==> Directions[i] != Directions[j]
    ensures forall d: Dir :: -1 <= Delta(d).0 <= 1 && -1 <= Delta(d).1 <= 1 && Delta(d) != (0, 0)
    ensures forall d1: Dir, d2: Dir :: Delta(d1) == Delta(d2) ==> d1 == d2
    ensures forall dr, dc :: -1 <= dr <= 1 && -1 <= dc <= 1 && (dr, dc) != (0, 0) ==>
              exists d: Dir :: Delta(d) == (dr, dc)
  {
    forall d: Dir ensures d in Directions {
      match d
      case NW => assert Directions[0] == d;
      case N  => assert Directions[1] == d;
      case NE => assert Directions[2] == d;
      case W  => assert Directions[3] == d;
      case E  => assert Directions[4] == d;
      case SW => assert Directions[5] == d;
      case S  => assert Directions[6] == d;
      case SE => assert Directions[7] == d;
    }
    forall dr, dc | -1 <= dr <= 1 && -1 <= dc <= 1 && (dr, dc) != (0, 0)
      ensures exists d: Dir :: Delta(d) == (dr, dc)
    {
      var d: Dir :=
        if dr == -1 then (if dc == -1 then NW else if dc == 0 then N else NE)
        else if dr == 0 then (if dc == -1 then W else E)
        else (if dc == -1 then SW else if dc == 0 then S else SE);
      assert Delta(d) == (dr, dc);
    }
  }

  /** One step from q in direction d. */
  function Step(q: Pos, d: Dir): Pos {
    Pos(q.row + Delta(d).0, q.col + Delta(d).1)
  }

  /** The square k steps from p in direction d. */
  function Along(p: Pos, d: Dir, k: int): Pos {
    Pos(p.row + k * Delta(d).0, p.col + k * Delta(d).1)
  }

  /** Along, written out per direction without multiplication. */
  lemma AlongCases(p: Pos, d: Dir, k: int)
    ensures Along(p, d, k) ==
      match d
      case NW => Pos(p.row - k, p.col - k)
      case N  => Pos(p.row - k, p.col)
      case NE => Pos(p.row - k, p.col + k)
      case W  => Pos(p.row, p.col - k)
      case E  => Pos(p.row, p.col + k)
      case SW => Pos(p.row + k, p.col - k)
      case S  => Pos(p.row + k, p.col)
      case SE => Pos(p.row + k, p.col + k)
  {
    match d
    case NW =>
    case N =>
    case NE =>
    case W =>
    case E =>
    case SW =>
    case S =>
    case SE =>
  }

  /** Walking one more step extends the ray by one square. */
  lemma AlongStep(p: Pos, d: Dir, k: int)
    ensures Along(p, d, k + 1) == Step(Along(p, d, k), d)
    ensures Along(p, d, 1) == Step(p, d)
  {
    AlongCases(p, d, k);
    AlongCases(p, d, k + 1);
    AlongCases(p, d, 1);
  }

  /** The square at a positive distance along a ray is never the origin. */
  lemma AlongLeavesOrigin(p: Pos, d: Dir, k: int)
    requires k >= 1
    ensures Along(p, d, k) != p
  {
    AlongCases(p, d, k);
  }

  /** The rays leaving one square in two different directions share no
      square, and along one ray every square has a single distance. */
  lemma RaysDisjoint(p: Pos, d1: Dir, j1: int, d2: Dir, j2: int)
    requires j1 >= 1 && j2 >= 1
    ensures Along(p, d1, j1) == Along(p, d2, j2) ==> d1 == d2 && j1 == j2
  {
    AlongCases(p, d1, j1);
    AlongCases(p, d2, j2);
  }

  /** The cell at an on-board square. */
  function At(b: Board, p: Pos): Cell
    requires InBounds(p)
  {
    b[p.row][p.col]
  }

  /** The board with one on-board square overwritten; no other square changes. */
  function SetCell(b: Board, p: Pos, x: Cell): (b': Board)
    requires InBounds(p)
    ensures At(b', p) == x
    ensures forall q :: InBounds(q) && q != p ==> At(b', q) == At(b, q)
  {
    b[p.row := b[p.row][p.col := x]]
  }

  /** The contents of each square in the starting position: White on the
      main-diagonal centre squares, Black on the anti-diagonal centre squares,
      everything else empty. */
  function InitialValue(x: Pos): Cell {
    if x == Pos(3, 3) || x == Pos(4, 4) then Stone(White)
    else if x == Pos(3, 4) || x == Pos(4, 3) then Stone(Black)
    else Empty
  }

  /** The engine's create_board: an empty grid with the four centre stones
      written in; every on-board square holds its starting value. */
  function CreateBoard(): (b: Board)
    ensures forall q :: InBounds(q) ==> At(b, q) == InitialValue(q)
  {
    var empty: Board := seq(Size, r => seq(Size, c => Empty));
    var mid := Size / 2;
    var b1 := SetCell(empty, Pos(mid - 1, mid - 1), Stone(White));
    var b2 := SetCell(b1, Pos(mid, mid), Stone(White));
    var b3 := SetCell(b2, Pos(mid - 1, mid), Stone(Black));
    SetCell(b3, Pos(mid, mid - 1), Stone(Black))
  }

  /** Row-major index of a square. */
  function Key(p: Pos): int {
    p.row * Size + p.col
  }

  /** The square with row-major index k. */
  function SquareAt(k: int): (p: Pos)
    requires 0 <= k < Squares
    ensures InBounds(p) && Key(p) == k
  {
    Pos(k / Size, k % Size)
  }

  /** Row-major indexing is a bijection between on-board squares and [0, 64). */
  lemma KeyRoundTrip(p: Pos)
    requires InBounds(p)
    ensures 0 <= Key(p) < Squares && SquareAt(Key(p)) == p
  {
  }

  /** The squares the engine's nested row and column loops visit, indices
      0 to 63, are exactly the on-board squares. */
  lemma InBoundsIsScanned(p: Pos)
    ensures InBounds(p) <==> exists k :: 0 <= k < Squares && SquareAt(k) == p
  {
    if InBounds(p) {
      KeyRoundTrip(p);
    }
  }

  /** Row-major order: an earlier row, or the same row and an earlier column. */
  predicate RowMajorBefore(p: Pos, q: Pos) {
    p.row < q.row || (p.row == q.row && p.col < q.col)
  }

  /** On the board, comparing row-major indices is comparing in row-major order. */
  lemma KeyOrder(p: Pos, q: Pos)
    requires InBounds(p) && InBounds(q)
    ensures Key(p) < Key(q) <==> RowMajorBefore(p, q)
  {
  }
}
