/** Counting stones and detecting the end of the game. */
module Scoring {
  import opened Grid
  import opened Legality
  import opened Moves

  /** The number of squares with row-major index in [k, 64) that hold x. */
  function CountFrom(b: Board, x: Cell, k: int): (n: nat)
    requires 0 <= k <= Squares
    ensures n <= Squares - k
    decreases Squares - k
  {
    if k == Squares then 0
    else (if At(b, SquareAt(k)) == x then 1 else 0) + CountFrom(b, x, k + 1)
  }

  /** The number of squares of the board that hold x. */
  function Count(b: Board, x: Cell): nat {
    CountFrom(b, x, 0)
  }

  /** Every square is counted exactly once, under its own contents. */
  lemma {:induction false} CountPartition(b: Board, k: int)
    requires 0 <= k <= Squares
    ensures CountFrom(b, Stone(Black), k) + CountFrom(b, Stone(White), k) + CountFrom(b, Empty, k) == Squares - k
    decreases Squares - k
  {
    if k < Squares {
      CountPartition(b, k + 1);
      var c := SquareAt(k);
      assert CountFrom(b, Empty, k) == (if At(b, c) == Empty then 1 else 0) + CountFrom(b, Empty, k + 1);
      assert CountFrom(b, Stone(Black), k) == (if At(b, c) == Stone(Black) then 1 else 0) + CountFrom(b, Stone(Black), k + 1);
      assert CountFrom(b, Stone(White), k) == (if At(b, c) == Stone(White) then 1 else 0) + CountFrom(b, Stone(White), k + 1);
      match At(b, c)
      case Empty =>
      case Stone(Black) =>
      case Stone(White) =>
    }
  }

  /** The number of entries of one row equal to x. */
  function RowCount(row: seq<Cell>, x: Cell): nat
    decreases |row|
  {
    if |row| == 0 then 0 else (if row[0] == x then 1 else 0) + RowCount(row[1..], x)
  }

  /** The per-row counts of x summed over rows r to 7. */
  function RowsCount(b: Board, x: Cell, r: nat): nat
    requires r <= Size
    decreases Size - r
  {
    if r == Size then 0 else RowCount(b[r], x) + RowsCount(b, x, r + 1)
  }

  /** Counting row r from column c on, then the rows after it, is the
      row-major count from the square (r, c). */
  lemma {:induction false} RowTail(b: Board, x: Cell, r: int, c: int)
    requires 0 <= r < Size && 0 <= c <= Size
    ensures 0 <= Key(Pos(r, c)) <= Squares
    ensures CountFrom(b, x, Key(Pos(r, c))) == RowCount(b[r][c..], x) + RowsFrom(b, x, r + 1)
    decreases Size - c
  {
    if c < Size {
      RowTail(b, x, r, c + 1);
      KeyRoundTrip(Pos(r, c));
      assert b[r][c..][1..] == b[r][c + 1..];
      assert CountFrom(b, x, Key(Pos(r, c))) ==
        (if At(b, Pos(r, c)) == x then 1 else 0) + CountFrom(b, x, Key(Pos(r, c + 1)));
    } else {
      assert Key(Pos(r, c)) == Key(Pos(r + 1, 0));
    }
  }

  /** The row-major count from the start of row r on. */
  function RowsFrom(b: Board, x: Cell, r: int): nat
    requires 0 <= r <= Size
  {
    assert 0 <= Key(Pos(r, 0)) <= Squares;
    CountFrom(b, x, Key(Pos(r, 0)))
  }

  /** Summing per-row counts from row r on gives the row-major count from that row. */
  lemma {:induction false} RowsCountIsCount(b: Board, x: Cell, r: int)
    requires 0 <= r <= Size
    ensures RowsCount(b, x, r) == RowsFrom(b, x, r)
    decreases Size - r
  {
    if r < Size {
      RowsCountIsCount(b, x, r + 1);
      RowTail(b, x, r, 0);
      assert b[r][0..] == b[r];
    }
  }

  /** The score as the engine computes it: each colour's stones counted row
      by row and summed. It is the board-wide count of each colour, and the
      two counts and the empty squares make up the board. */
  function CountPieces(b: Board): (score: (nat, nat))
    ensures score == (Count(b, Stone(Black)), Count(b, Stone(White)))
    ensures score.0 + score.1 + Count(b, Empty) == Squares
  {
    RowsCountIsCount(b, Stone(Black), 0);
    RowsCountIsCount(b, Stone(White), 0);
    CountPartition(b, 0);
    (RowsCount(b, Stone(Black), 0), RowsCount(b, Stone(White), 0))
  }

  /** The number of squares with row-major index in [k, 64) that hold x on
      b and y on b'. */
  function TurnedFrom(b: Board, b': Board, x: Cell, y: Cell, k: int): (n: nat)
    requires 0 <= k <= Squares
    decreases Squares - k
  {
    if k == Squares then 0
    else (if At(b, SquareAt(k)) == x && At(b', SquareAt(k)) == y then 1 else 0) + TurnedFrom(b, b', x, y, k + 1)
  }

  /** The number of stones a legal move by player at p flips: the squares
      that go from the opponent's colour to the mover's. */
  function FlipCount(b: Board, player: Player, p: Pos): nat {
    TurnedFrom(b, ApplyMove(b, player, p).1, Stone(Opponent(player)), Stone(player), 0)
  }

  /** A square that turns from x to y at or after index k is counted from k on. */
  lemma {:induction false} TurnedReaches(b: Board, b': Board, x: Cell, y: Cell, q: Pos, k: int)
    requires 0 <= k <= Squares
    requires InBounds(q) && At(b, q) == x && At(b', q) == y && k <= Key(q)
    ensures TurnedFrom(b, b', x, y, k) >= 1
    decreases Squares - k
  {
    if k < Key(q) {
      TurnedReaches(b, b', x, y, q, k + 1);
      assert TurnedFrom(b, b', x, y, k) >= TurnedFrom(b, b', x, y, k + 1);
    } else {
      KeyRoundTrip(q);
    }
  }

  /** b' arises from b by placing player's stone on the empty square p and
      turning some opponent stones to player; nothing else changes. */
  ghost predicate PlacedAndTurned(b: Board, b': Board, player: Player, p: Pos) {
    && InBounds(p) && At(b, p) == Empty && At(b', p) == Stone(player)
    && forall q :: InBounds(q) && q != p ==>
         At(b', q) == At(b, q) || (At(b, q) == Stone(Opponent(player)) && At(b', q) == Stone(player))
  }

  /** The mover's stones from index k on: the old ones, the turned ones, and p. */
  lemma {:induction false} MoverCountFrom(b: Board, b': Board, player: Player, p: Pos, k: int)
    requires 0 <= k <= Squares && PlacedAndTurned(b, b', player, p)
    ensures CountFrom(b', Stone(player), k) ==
      CountFrom(b, Stone(player), k) + TurnedFrom(b, b', Stone(Opponent(player)), Stone(player), k)
        + (if k <= Key(p) then 1 else 0)
    decreases Squares - k
  {
    KeyRoundTrip(p);
    if k < Squares {
      MoverCountFrom(b, b', player, p, k + 1);
      var c, x, y := SquareAt(k), Stone(player), Stone(Opponent(player));
      assert c == p <==> k == Key(p);
      assert CountFrom(b', x, k) == (if At(b', c) == x then 1 else 0) + CountFrom(b', x, k + 1);
      assert CountFrom(b, x, k) == (if At(b, c) == x then 1 else 0) + CountFrom(b, x, k + 1);
      assert TurnedFrom(b, b', y, x, k) ==
        (if At(b, c) == y && At(b', c) == x then 1 else 0) + TurnedFrom(b, b', y, x, k + 1);
    }
  }

  /** Counting x from index k on a board b' on which each square holds x
      exactly when it held x on b and did not turn to y: the count drops by
      the number of squares turned from x to y. */
  lemma {:induction false} CountAfterTurning(b: Board, b': Board, x: Cell, y: Cell, k: int)
    requires 0 <= k <= Squares
    requires forall j :: k <= j < Squares ==>
      (At(b', SquareAt(j)) == x) == (At(b, SquareAt(j)) == x && At(b', SquareAt(j)) != y)
    ensures CountFrom(b', x, k) == CountFrom(b, x, k) - TurnedFrom(b, b', x, y, k)
    decreases Squares - k
  {
    if k < Squares {
      CountAfterTurning(b, b', x, y, k + 1);
      var c := SquareAt(k);
      assert CountFrom(b', x, k) == (if At(b', c) == x then 1 else 0) + CountFrom(b', x, k + 1);
      assert CountFrom(b, x, k) == (if At(b, c) == x then 1 else 0) + CountFrom(b, x, k + 1);
      assert TurnedFrom(b, b', x, y, k) ==
        (if At(b, c) == x && At(b', c) == y then 1 else 0) + TurnedFrom(b, b', x, y, k + 1);
    }
  }

  /** The empty squares from index k on: the old ones less p. */
  lemma {:induction false} EmptyCountFrom(b: Board, b': Board, player: Player, p: Pos, k: int)
    requires 0 <= k <= Squares && PlacedAndTurned(b, b', player, p)
    ensures CountFrom(b', Empty, k) == CountFrom(b, Empty, k) - (if k <= Key(p) then 1 else 0)
    decreases Squares - k
  {
    KeyRoundTrip(p);
    if k < Squares {
      EmptyCountFrom(b, b', player, p, k + 1);
      var c := SquareAt(k);
      assert c == p <==> k == Key(p);
      assert CountFrom(b', Empty, k) == (if At(b', c) == Empty then 1 else 0) + CountFrom(b', Empty, k + 1);
      assert CountFrom(b, Empty, k) == (if At(b, c) == Empty then 1 else 0) + CountFrom(b, Empty, k + 1);
    }
  }

  /** A legal move adds the played stone and turns every flipped stone: the
      mover gains 1 + F stones and the opponent loses F, where F >= 1 is the
      number of squares that turn from the opponent's colour to the mover's. */
  lemma MoveCounts(b: Board, player: Player, p: Pos)
    requires LegalSpec(b, player, p)
    ensures var b' := ApplyMove(b, player, p).1;
      && FlipCount(b, player, p) >= 1
      && Count(b', Stone(player)) == Count(b, Stone(player)) + 1 + FlipCount(b, player, p)
      && Count(b', Stone(Opponent(player))) == Count(b, Stone(Opponent(player))) - FlipCount(b, player, p)
      && Count(b', Empty) == Count(b, Empty) - 1
  {
    var b' := ApplyMove(b, player, p).1;
    ApplyMoveEffect(b, player, p);
    ApplyMoveChanges(b, player, p);
    var q :| Bracketed(b, player, p, q);
    TurnedReaches(b, b', Stone(Opponent(player)), Stone(player), q, 0);
    assert PlacedAndTurned(b, b', player, p);
    MoverCountFrom(b, b', player, p, 0);
    CountAfterTurning(b, b', Stone(Opponent(player)), Stone(player), 0);
    EmptyCountFrom(b, b', player, p, 0);
    KeyRoundTrip(p);
  }

  /** The game is over when neither side has a legal move. */
  function GameOver(b: Board): (over: bool)
    ensures over <==> forall player, q :: !LegalSpec(b, player, q)
  {
    var blackCan := HasValidMove(b, Black);
    var whiteCan := HasValidMove(b, White);
    assert (forall player, q :: !LegalSpec(b, player, q)) <==> !blackCan && !whiteCan by {
      forall player, q | LegalSpec(b, player, q) ensures blackCan || whiteCan {
        if player == White {
          assert !whiteCan ==> !LegalSpec(b, White, q);
        } else {
          assert !blackCan ==> !LegalSpec(b, Black, q);
        }
      }
    }
    !(blackCan || whiteCan)
  }

  /** A board without an empty square ends the game. */
  lemma FullBoardIsOver(b: Board)
    requires forall q :: InBounds(q) ==> At(b, q) != Empty
    ensures GameOver(b)
  {
  }

  /** No capture line exists when one colour has no stone on the board: a
      line needs an opponent stone next to the move and an own stone after. */
  lemma NoLineWithoutColour(b: Board, x: Player, player: Player, q: Pos, d: Dir, k: int)
    requires forall q :: InBounds(q) ==> At(b, q) != Stone(x)
    ensures !Brackets(b, q, d, player, k)
  {
    assert InBounds(Along(q, d, 1)) ==> At(b, Along(q, d, 1)) != Stone(x);
    assert InBounds(Along(q, d, k + 1)) ==> At(b, Along(q, d, k + 1)) != Stone(x);
    assert player == x || Opponent(player) == x;
  }

  /** A board on which one colour has no stone ends the game, even with
      empty squares left: that colour has nothing to capture with, and the
      other colour has nothing to capture. */
  lemma MissingColourIsOver(b: Board, x: Player)
    requires forall q :: InBounds(q) ==> At(b, q) != Stone(x)
    ensures GameOver(b)
  {
    forall player, q, d, k ensures !Brackets(b, q, d, player, k) {
      NoLineWithoutColour(b, x, player, q, d, k);
    }
  }
}
