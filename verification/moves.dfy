/** Move application: placing a stone and flipping every captured line. */
module Moves {
  import opened Grid
  import opened Legality

  /** The first m squares of the ray from p in direction d, nearest first:
      the squares the engine collects while walking over opponent stones. */
  function Segment(p: Pos, d: Dir, m: nat): (cells: seq<Pos>)
    ensures |cells| == m
    ensures forall q :: q in cells <==> exists j :: 1 <= j <= m && q == Along(p, d, j)
  {
    var cells := seq(m, i => Along(p, d, i + 1));
    assert forall j :: 1 <= j <= m ==> cells[j - 1] == Along(p, d, j);
    cells
  }

  /** Overwrite each listed square, in order, with a stone of who. */
  function Paint(b: Board, cells: seq<Pos>, who: Player): (b': Board)
    requires forall q :: q in cells ==> InBounds(q)
    ensures forall q :: InBounds(q) ==> At(b', q) == if q in cells then Stone(who) else At(b, q)
    decreases |cells|
  {
    if |cells| == 0 then b
    else Paint(SetCell(b, cells[0], Stone(who)), cells[1..], who)
  }

  /** The squares the engine flips in direction d: the walked opponent stones,
      when the walk ended on an own stone. */
  predicate InLine(b: Board, player: Player, p: Pos, d: Dir, q: Pos) {
    Captures(b, p, d, player) && q in Segment(p, d, RayEnd(b, p, d, Opponent(player), 1) - 1)
  }

  /** One iteration of the engine's flipping loop, for direction d. */
  function FlipDir(b: Board, p: Pos, d: Dir, player: Player): (b': Board)
    ensures forall q :: InBounds(q) ==> At(b', q) == if InLine(b, player, p, d, q) then Stone(player) else At(b, q)
  {
    var n := RayEnd(b, p, d, Opponent(player), 1);
    if n > 1 && InBounds(Along(p, d, n)) && At(b, Along(p, d, n)) == Stone(player) then
      Paint(b, Segment(p, d, n - 1), player)
    else
      b
  }

  /** The engine's flipping loop over a list of directions; each direction
      walks the board as already changed by the directions before it. */
  function FlipDirs(b: Board, p: Pos, player: Player, ds: seq<Dir>): Board
    decreases |ds|
  {
    if |ds| == 0 then b
    else FlipDirs(FlipDir(b, p, ds[0], player), p, player, ds[1..])
  }

  /** Two boards agree on every on-board square of the ray from p in direction d. */
  ghost predicate SameRay(b1: Board, b2: Board, p: Pos, d: Dir) {
    forall j :: j >= 1 && InBounds(Along(p, d, j)) ==> At(b1, Along(p, d, j)) == At(b2, Along(p, d, j))
  }

  /** What the engine does in direction d depends only on the squares of that ray. */
  lemma InLineLocal(b1: Board, b2: Board, player: Player, p: Pos, d: Dir)
    requires SameRay(b1, b2, p, d)
    ensures Captures(b1, p, d, player) == Captures(b2, p, d, player)
    ensures forall q :: InLine(b1, player, p, d, q) == InLine(b2, player, p, d, q)
  {
    var opp := Opponent(player);
    var n := RayEnd(b1, p, d, opp, 1);
    RayEndExact(b2, p, d, opp, 1, n);
  }

  /** Flipping in one direction leaves the rays of every other direction alone. */
  lemma FlipDirFrame(b: Board, p: Pos, d0: Dir, d: Dir, player: Player)
    requires d != d0
    ensures SameRay(b, FlipDir(b, p, d0, player), p, d)
  {
    var b1 := FlipDir(b, p, d0, player);
    forall j | j >= 1 && InBounds(Along(p, d, j))
      ensures At(b, Along(p, d, j)) == At(b1, Along(p, d, j))
    {
      forall i | i >= 1 ensures Along(p, d, j) != Along(p, d0, i) {
        RaysDisjoint(p, d, j, d0, i);
      }
    }
  }

  /** Running the loop over distinct directions flips exactly the union of
      the lines each direction finds on the board it started from. */
  lemma {:induction false} FlipDirsEffect(b: Board, p: Pos, player: Player, ds: seq<Dir>)
    requires forall i, j :: 0 <= i < j < |ds| ==> ds[i] != ds[j]
    ensures forall q :: InBounds(q) ==>
      At(FlipDirs(b, p, player, ds), q) ==
        if exists d :: d in ds && InLine(b, player, p, d, q) then Stone(player) else At(b, q)
    decreases |ds|
  {
    if |ds| > 0 {
      var d0 := ds[0];
      var rest := ds[1..];
      var b1 := FlipDir(b, p, d0, player);
      FlipDirsEffect(b1, p, player, rest);
      forall d | d in rest
        ensures forall q :: InLine(b1, player, p, d, q) == InLine(b, player, p, d, q)
      {
        FlipDirFrame(b, p, d0, d, player);
        InLineLocal(b, b1, player, p, d);
      }
      assert forall d :: d in ds <==> d == d0 || d in rest;
      assert FlipDirs(b, p, player, ds) == FlipDirs(b1, p, player, rest);
    }
  }

  /** The square p is never on a line flipped from p. */
  lemma InLineAvoidsOrigin(b: Board, player: Player, p: Pos, d: Dir)
    ensures !InLine(b, player, p, d, p)
  {
    if InLine(b, player, p, d, p) {
      var m := RayEnd(b, p, d, Opponent(player), 1) - 1;
      var j :| 1 <= j <= m && p == Along(p, d, j);
      AlongLeavesOrigin(p, d, j);
    }
  }

  /** Reference definition of a flipped square: it lies strictly between p and
      an own stone along some direction, with only opponent stones between. */
  ghost predicate Bracketed(b: Board, player: Player, p: Pos, q: Pos) {
    exists d, k, j :: Brackets(b, p, d, player, k) && 1 <= j <= k && q == Along(p, d, j)
  }

  /** The engine's flip lines are exactly the bracketed squares. */
  lemma InLineIff(b: Board, player: Player, p: Pos, q: Pos)
    ensures (exists d :: d in Directions && InLine(b, player, p, d, q)) <==> Bracketed(b, player, p, q)
  {
    DirectionsTable();
    if d :| d in Directions && InLine(b, player, p, d, q) {
      CapturesIff(b, p, d, player);
      var k := RayEnd(b, p, d, Opponent(player), 1) - 1;
      assert Brackets(b, p, d, player, k);
    }
    if Bracketed(b, player, p, q) {
      var d, k, j :| Brackets(b, p, d, player, k) && 1 <= j <= k && q == Along(p, d, j);
      CapturesIff(b, p, d, player);
      assert InLine(b, player, p, d, q);
    }
  }

  /** Every bracketed square is on the board and holds an opponent stone. */
  lemma BracketedIsOpponent(b: Board, player: Player, p: Pos, q: Pos)
    requires Bracketed(b, player, p, q)
    ensures InBounds(q) && At(b, q) == Stone(Opponent(player))
  {
  }

  /** The engine's apply_move: an illegal move returns false and the board as
      it was; a legal one returns true and the board after placing and
      flipping. */
  function ApplyMove(b: Board, player: Player, p: Pos): (r: (bool, Board))
    ensures r.0 <==> LegalSpec(b, player, p)
    ensures !r.0 ==> r.1 == b
  {
    ValidMovesSpec(b, player, p);
    if p !in ValidMoves(b, player) then (false, b)
    else
      var placed := SetCell(b, p, Stone(player));
      (true, FlipDirs(placed, p, player, Directions))
  }

  /** Placing the stone at p does not change what any direction flips. */
  lemma PlacedLines(b: Board, player: Player, p: Pos, q: Pos)
    requires InBounds(p)
    ensures (exists d :: d in Directions && InLine(SetCell(b, p, Stone(player)), player, p, d, q))
            <==> Bracketed(b, player, p, q)
    ensures !Bracketed(b, player, p, p)
  {
    var placed := SetCell(b, p, Stone(player));
    forall d: Dir
      ensures InLine(placed, player, p, d, q) == InLine(b, player, p, d, q)
      ensures !InLine(b, player, p, d, p)
    {
      forall j | j >= 1 && InBounds(Along(p, d, j))
        ensures At(b, Along(p, d, j)) == At(placed, Along(p, d, j))
      {
        AlongLeavesOrigin(p, d, j);
      }
      InLineLocal(b, placed, player, p, d);
      InLineAvoidsOrigin(b, player, p, d);
    }
    InLineIff(b, player, p, q);
    InLineIff(b, player, p, p);
  }

  /** The board after a legal move: p holds the mover's stone, every bracketed
      square holds the mover's stone, and every other square is unchanged. */
  lemma ApplyMoveEffect(b: Board, player: Player, p: Pos)
    requires LegalSpec(b, player, p)
    ensures forall q :: InBounds(q) ==>
      At(ApplyMove(b, player, p).1, q) ==
        if q == p || Bracketed(b, player, p, q) then Stone(player) else At(b, q)
  {
    var placed := SetCell(b, p, Stone(player));
    ValidMovesSpec(b, player, p);
    var b' := ApplyMove(b, player, p).1;
    assert b' == FlipDirs(placed, p, player, Directions);
    DirectionsTable();
    FlipDirsEffect(placed, p, player, Directions);
    forall q | InBounds(q)
      ensures At(b', q) == if q == p || Bracketed(b, player, p, q) then Stone(player) else At(b, q)
    {
      PlacedLines(b, player, p, q);
    }
  }

  /** A legal move changes exactly the played square and the bracketed
      squares; each flipped square goes from the opponent to the mover, and
      at least one square is flipped. */
  lemma ApplyMoveChanges(b: Board, player: Player, p: Pos)
    requires LegalSpec(b, player, p)
    ensures forall q :: InBounds(q) ==>
      (At(ApplyMove(b, player, p).1, q) != At(b, q) <==> q == p || Bracketed(b, player, p, q))
    ensures forall q :: Bracketed(b, player, p, q) ==>
      InBounds(q) && At(b, q) == Stone(Opponent(player)) && At(ApplyMove(b, player, p).1, q) == Stone(player)
    ensures exists q :: Bracketed(b, player, p, q)
  {
    ApplyMoveEffect(b, player, p);
    var d, k :| Brackets(b, p, d, player, k);
    assert Bracketed(b, player, p, Along(p, d, 1));
  }
}
