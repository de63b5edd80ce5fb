/** Facts about the starting position: its score, Black's four opening moves,
    and the effect of the opening move at row 2, column 3. */
module Opening {
  import opened Grid
  import opened Legality
  import opened Moves
  import opened Scoring

  /** A board showing the starting position. */
  ghost predicate Initial(b: Board) {
    forall x :: InBounds(x) ==> At(b, x) == InitialValue(x)
  }

  lemma CreateBoardIsInitial()
    ensures Initial(CreateBoard())
  {
  }

  /** The four (square, direction) pairs along which Black captures in the
      starting position. */
  predicate OpeningLine(q: Pos, d: Dir) {
    || (q == Pos(2, 3) && d == S)
    || (q == Pos(3, 2) && d == E)
    || (q == Pos(4, 5) && d == W)
    || (q == Pos(5, 4) && d == N)
  }

  /** Where the stones of each colour stand in the starting position. */
  lemma InitialStones(b: Board, x: Pos)
    requires Initial(b)
    ensures InBounds(x) && At(b, x) == Stone(White) <==> x == Pos(3, 3) || x == Pos(4, 4)
    ensures InBounds(x) && At(b, x) == Stone(Black) <==> x == Pos(3, 4) || x == Pos(4, 3)
  {
  }

  /** In the starting layout, two White stones in a row along any line are
      followed by an empty square or the edge. */
  lemma NoThreeStones(q: Pos, d: Dir)
    ensures InitialValue(Along(q, d, 1)) == Stone(White) && InitialValue(Along(q, d, 2)) == Stone(White)
            ==> InitialValue(Along(q, d, 3)) == Empty
  {
    AlongCases(q, d, 1);
    AlongCases(q, d, 2);
    AlongCases(q, d, 3);
  }

  /** In the starting position no Black capture line crosses two stones. */
  lemma NoLongLine(b: Board, q: Pos, d: Dir, k: int)
    requires Initial(b) && k >= 2
    ensures !Brackets(b, q, d, Black, k)
  {
    NoThreeStones(q, d);
    var x1, x2, x3 := Along(q, d, 1), Along(q, d, 2), Along(q, d, 3);
    assert InBounds(x1) ==> At(b, x1) == InitialValue(x1);
    assert InBounds(x2) ==> At(b, x2) == InitialValue(x2);
    assert InBounds(x3) ==> At(b, x3) == InitialValue(x3);
    if k == 2 {
      assert Along(q, d, k + 1) == x3;
    }
  }

  /** In the starting layout, a White stone next to q followed by a Black
      stone occurs on exactly the four lines onto the centre. */
  lemma ShortLineValues(q: Pos, d: Dir)
    ensures (&& InBounds(Along(q, d, 1)) && InitialValue(Along(q, d, 1)) == Stone(White)
             && InBounds(Along(q, d, 2)) && InitialValue(Along(q, d, 2)) == Stone(Black))
            <==> OpeningLine(q, d)
  {
    AlongStep(q, d, 1);
    if OpeningLine(q, d) {
      OpeningLineValues(q, d);
    }
    if InitialValue(Step(q, d)) == Stone(White) && InitialValue(Step(Step(q, d), d)) == Stone(Black) {
      ValuesOpeningLine(q, d);
    }
  }

  lemma OpeningLineValues(q: Pos, d: Dir)
    requires OpeningLine(q, d)
    ensures InBounds(Step(q, d)) && InitialValue(Step(q, d)) == Stone(White)
    ensures InBounds(Step(Step(q, d), d)) && InitialValue(Step(Step(q, d), d)) == Stone(Black)
  {
    if d == S {
      assert Step(q, d) == Pos(3, 3) && Step(Step(q, d), d) == Pos(4, 3);
    } else if d == E {
      assert Step(q, d) == Pos(3, 3) && Step(Step(q, d), d) == Pos(3, 4);
    } else if d == W {
      assert Step(q, d) == Pos(4, 4) && Step(Step(q, d), d) == Pos(4, 3);
    } else {
      assert Step(q, d) == Pos(4, 4) && Step(Step(q, d), d) == Pos(3, 4);
    }
  }

  lemma ValuesOpeningLine(q: Pos, d: Dir)
    requires InitialValue(Step(q, d)) == Stone(White) && InitialValue(Step(Step(q, d), d)) == Stone(Black)
    ensures OpeningLine(q, d)
  {
    match d
    case NW =>
    case N =>
    case NE =>
    case W =>
    case E =>
    case SW =>
    case S =>
    case SE =>
  }

  /** In the starting position Black's single-stone capture lines are the
      four lines onto the centre. */
  lemma ShortLines(b: Board, q: Pos, d: Dir)
    requires Initial(b)
    ensures Brackets(b, q, d, Black, 1) <==> OpeningLine(q, d)
  {
    ShortLineValues(q, d);
  }

  /** In the starting position Black's capture lines are exactly the four
      single-stone lines onto the centre. */
  lemma InitialLines(b: Board, q: Pos, d: Dir, k: int)
    requires Initial(b)
    ensures Brackets(b, q, d, Black, k) <==> k == 1 && OpeningLine(q, d)
  {
    if k >= 2 {
      NoLongLine(b, q, d, k);
    }
    ShortLines(b, q, d);
  }

  /** Black's legal moves in the starting position are the four canonical openings. */
  lemma InitialLegal(b: Board, q: Pos)
    requires Initial(b)
    ensures LegalSpec(b, Black, q) <==> q in {Pos(2, 3), Pos(3, 2), Pos(4, 5), Pos(5, 4)}
  {
    forall d, k ensures Brackets(b, q, d, Black, k) <==> k == 1 && OpeningLine(q, d) {
      InitialLines(b, q, d, k);
    }
    if q == Pos(2, 3) {
      assert Brackets(b, q, S, Black, 1);
    } else if q == Pos(3, 2) {
      assert Brackets(b, q, E, Black, 1);
    } else if q == Pos(4, 5) {
      assert Brackets(b, q, W, Black, 1);
    } else if q == Pos(5, 4) {
      assert Brackets(b, q, N, Black, 1);
    }
  }

  /** The scan from index k finds nothing before index m when no square in
      between is legal. */
  lemma {:induction false} MovesFromSkip(b: Board, player: Player, k: int, m: int)
    requires 0 <= k <= m <= Squares
    requires forall j :: k <= j < m ==> !IsLegal(b, player, SquareAt(j))
    ensures MovesFrom(b, player, k) == MovesFrom(b, player, m)
    decreases m - k
  {
    if k < m {
      MovesFromSkip(b, player, k + 1, m);
      assert !IsLegal(b, player, SquareAt(k));
    }
  }

  /** The scan from a legal square k puts that square first. */
  lemma MovesFromHit(b: Board, player: Player, k: int)
    requires 0 <= k < Squares
    requires IsLegal(b, player, SquareAt(k))
    ensures MovesFrom(b, player, k) == [SquareAt(k)] + MovesFrom(b, player, k + 1)
  {
  }

  /** The engine's legality test in the starting position, for Black. */
  lemma InitialIsLegal(b: Board)
    requires Initial(b)
    ensures forall q :: IsLegal(b, Black, q) <==> q in {Pos(2, 3), Pos(3, 2), Pos(4, 5), Pos(5, 4)}
  {
    forall q ensures IsLegal(b, Black, q) <==> q in {Pos(2, 3), Pos(3, 2), Pos(4, 5), Pos(5, 4)} {
      LegalIff(b, Black, q);
      InitialLegal(b, q);
    }
  }

  /** In the starting position the scan from index k to index m passes no
      legal square when none of the four openings has its index in between. */
  lemma InitialSkip(b: Board, k: int, m: int)
    requires Initial(b) && 0 <= k <= m <= Squares
    requires !(k <= 19 < m) && !(k <= 26 < m) && !(k <= 37 < m) && !(k <= 44 < m)
    ensures MovesFrom(b, Black, k) == MovesFrom(b, Black, m)
  {
    InitialIsLegal(b);
    forall j | k <= j < m ensures !IsLegal(b, Black, SquareAt(j)) {
      KeyRoundTrip(SquareAt(j));
    }
    MovesFromSkip(b, Black, k, m);
  }

  /** In the starting position the scan from an opening's index puts it first. */
  lemma InitialHit(b: Board, k: int)
    requires Initial(b) && k in {19, 26, 37, 44}
    ensures MovesFrom(b, Black, k) == [SquareAt(k)] + MovesFrom(b, Black, k + 1)
  {
    InitialIsLegal(b);
    MovesFromHit(b, Black, k);
  }

  /** The starting-position scan from index 20: the opening at index 26,
      then the rest of the scan. */
  lemma InitialScanMiddle(b: Board)
    requires Initial(b)
    ensures MovesFrom(b, Black, 20) == [Pos(3, 2)] + MovesFrom(b, Black, 27)
  {
    assert SquareAt(26) == Pos(3, 2);
    InitialSkip(b, 20, 26);
    InitialHit(b, 26);
  }

  /** The first half of the starting-position scan: the openings at indices 19 and 26. */
  lemma InitialScanFront(b: Board)
    requires Initial(b)
    ensures MovesFrom(b, Black, 0) == [Pos(2, 3), Pos(3, 2)] + MovesFrom(b, Black, 27)
  {
    assert SquareAt(19) == Pos(2, 3);
    InitialSkip(b, 0, 19);
    InitialHit(b, 19);
    InitialScanMiddle(b);
  }

  /** The end of the starting-position scan: the opening at index 44, and
      nothing after it. */
  lemma InitialScanEnd(b: Board)
    requires Initial(b)
    ensures MovesFrom(b, Black, 38) == [Pos(5, 4)]
  {
    assert SquareAt(44) == Pos(5, 4);
    InitialSkip(b, 38, 44);
    InitialHit(b, 44);
    InitialSkip(b, 45, 64);
  }

  /** The second half of the starting-position scan: the openings at indices
      37 and 44. */
  lemma InitialScanBack(b: Board)
    requires Initial(b)
    ensures MovesFrom(b, Black, 27) == [Pos(4, 5), Pos(5, 4)]
  {
    assert SquareAt(37) == Pos(4, 5);
    InitialSkip(b, 27, 37);
    InitialHit(b, 37);
    InitialScanEnd(b);
  }

  /** valid_moves for Black in the starting position, in scan order. */
  lemma InitialScan(b: Board)
    requires Initial(b)
    ensures ValidMoves(b, Black) == [Pos(2, 3), Pos(3, 2), Pos(4, 5), Pos(5, 4)]
  {
    InitialScanFront(b);
    InitialScanBack(b);
  }

  /** valid_moves for Black on the board create_board returns. */
  lemma InitialValidMoves()
    ensures ValidMoves(CreateBoard(), Black) == [Pos(2, 3), Pos(3, 2), Pos(4, 5), Pos(5, 4)]
  {
    CreateBoardIsInitial();
    InitialScan(CreateBoard());
  }

  /** Counting from index k a cell value found at exactly two indices. */
  lemma {:induction false} CountTwo(b: Board, x: Cell, i1: int, i2: int, k: int)
    requires 0 <= k <= Squares && i1 != i2
    requires forall j :: k <= j < Squares ==> (At(b, SquareAt(j)) == x) == (j == i1 || j == i2)
    ensures CountFrom(b, x, k) == (if k <= i1 < Squares then 1 else 0) + (if k <= i2 < Squares then 1 else 0)
    decreases Squares - k
  {
    if k < Squares {
      CountTwo(b, x, i1, i2, k + 1);
      var c := SquareAt(k);
      assert CountFrom(b, x, k) == (if At(b, c) == x then 1 else 0) + CountFrom(b, x, k + 1);
    }
  }

  /** Counting from index k the squares turned from x to y, when exactly one square turned. */
  lemma {:induction false} TurnedOne(b: Board, b': Board, x: Cell, y: Cell, t: Pos, k: int)
    requires 0 <= k <= Squares
    requires InBounds(t)
    requires forall q :: InBounds(q) ==> (At(b, q) == x && At(b', q) == y <==> q == t)
    ensures TurnedFrom(b, b', x, y, k) == if k <= Key(t) then 1 else 0
    decreases Squares - k
  {
    KeyRoundTrip(t);
    if k < Squares {
      TurnedOne(b, b', x, y, t, k + 1);
      var c := SquareAt(k);
      assert c == t <==> k == Key(t);
      assert TurnedFrom(b, b', x, y, k) == (if c == t then 1 else 0) + TurnedFrom(b, b', x, y, k + 1);
    }
  }

  /** The row-major indices of the four centre squares. */
  lemma InitialKeys()
    ensures Key(Pos(3, 3)) == 27 && Key(Pos(3, 4)) == 28
    ensures Key(Pos(4, 3)) == 35 && Key(Pos(4, 4)) == 36
  {
  }

  /** The starting position holds two stones of each colour. */
  lemma InitialColourCounts(b: Board)
    requires Initial(b)
    ensures Count(b, Stone(Black)) == 2 && Count(b, Stone(White)) == 2
  {
    forall j | 0 <= j < Squares
      ensures (At(b, SquareAt(j)) == Stone(Black)) == (j == 28 || j == 35)
      ensures (At(b, SquareAt(j)) == Stone(White)) == (j == 27 || j == 36)
    {
      InitialStones(b, SquareAt(j));
      InitialKeys();
    }
    CountTwo(b, Stone(Black), 28, 35, 0);
    CountTwo(b, Stone(White), 27, 36, 0);
  }

  /** The starting position scores two stones each, with sixty empty squares. */
  lemma InitialCounts(b: Board)
    requires Initial(b)
    ensures CountPieces(b) == (2, 2)
    ensures Count(b, Empty) == 60
  {
    InitialColourCounts(b);
  }

  /** count_pieces on the board create_board returns. */
  lemma InitialScore()
    ensures CountPieces(CreateBoard()) == (2, 2)
    ensures Count(CreateBoard(), Empty) == 60
  {
    CreateBoardIsInitial();
    InitialCounts(CreateBoard());
  }

  /** Black's opening at row 2, column 3 brackets only the White stone at
      row 3, column 3. */
  lemma OpeningFlips(b: Board, q: Pos)
    requires Initial(b)
    ensures Bracketed(b, Black, Pos(2, 3), q) <==> q == Pos(3, 3)
  {
    var p := Pos(2, 3);
    AlongCases(p, S, 1);
    if Bracketed(b, Black, p, q) {
      var d, k, j :| Brackets(b, p, d, Black, k) && 1 <= j <= k && q == Along(p, d, j);
      InitialLines(b, p, d, k);
    }
    if q == Pos(3, 3) {
      InitialLines(b, p, S, 1);
      assert Brackets(b, p, S, Black, 1);
    }
  }

  /** Black's opening at row 2, column 3 is legal, turns the White stone at
      row 3, column 3 to Black, and turns no other square from White to Black. */
  lemma OpeningTurned(b: Board)
    requires Initial(b)
    ensures LegalSpec(b, Black, Pos(2, 3))
    ensures At(ApplyMove(b, Black, Pos(2, 3)).1, Pos(3, 3)) == Stone(Black)
    ensures forall q :: InBounds(q) ==>
      (At(b, q) == Stone(White) && At(ApplyMove(b, Black, Pos(2, 3)).1, q) == Stone(Black) <==> q == Pos(3, 3))
  {
    var p := Pos(2, 3);
    InitialLegal(b, p);
    ApplyMoveEffect(b, Black, p);
    forall q | InBounds(q)
      ensures Bracketed(b, Black, p, q) <==> q == Pos(3, 3)
    {
      OpeningFlips(b, q);
    }
  }

  /** The opening at row 2, column 3 flips exactly one stone. */
  lemma OpeningFlipCount(b: Board)
    requires Initial(b)
    ensures LegalSpec(b, Black, Pos(2, 3))
    ensures FlipCount(b, Black, Pos(2, 3)) == 1
  {
    var p := Pos(2, 3);
    OpeningTurned(b);
    KeyRoundTrip(Pos(3, 3));
    TurnedOne(b, ApplyMove(b, Black, p).1, Stone(White), Stone(Black), Pos(3, 3), 0);
  }

  /** Black's opening at row 2, column 3 turns the White stone at row 3,
      column 3 and leaves the score at four to one. */
  lemma OpeningEffect(b: Board)
    requires Initial(b)
    ensures ApplyMove(b, Black, Pos(2, 3)).0
    ensures At(ApplyMove(b, Black, Pos(2, 3)).1, Pos(3, 3)) == Stone(Black)
    ensures CountPieces(ApplyMove(b, Black, Pos(2, 3)).1) == (4, 1)
  {
    var p := Pos(2, 3);
    OpeningTurned(b);
    OpeningFlipCount(b);
    MoveCounts(b, Black, p);
    InitialCounts(b);
  }

  /** The opening move at row 2, column 3 on the board create_board returns. */
  lemma OpeningMove()
    ensures ApplyMove(CreateBoard(), Black, Pos(2, 3)).0
    ensures At(ApplyMove(CreateBoard(), Black, Pos(2, 3)).1, Pos(3, 3)) == Stone(Black)
    ensures CountPieces(ApplyMove(CreateBoard(), Black, Pos(2, 3)).1) == (4, 1)
  {
    CreateBoardIsInitial();
    OpeningEffect(CreateBoard());
  }
}
