/** Move legality: walking a ray, the capture test, and the legal-move scan. */
module Legality {
  import opened Grid

  /** How many more squares the walk from q in direction d can visit before
      leaving the board; it bounds every walk. */
  function Reach(q: Pos, d: Dir): nat {
    var m :=
      if Delta(d).0 == 1 then Size - q.row
      else if Delta(d).0 == -1 then q.row + 1
      else if Delta(d).1 == 1 then Size - q.col
      else q.col + 1;
    if m < 0 then 0 else m
  }

  lemma ReachDecreases(p: Pos, d: Dir, k: int)
    requires InBounds(Along(p, d, k))
    ensures Reach(Along(p, d, k + 1), d) < Reach(Along(p, d, k), d)
  {
    AlongStep(p, d, k);
  }

  /** The walk of the engine: starting k squares from p in direction d, keep
      stepping while the square is on the board and holds a stone of who.
      The result is the distance at which the walk stops. */
  function RayEnd(b: Board, p: Pos, d: Dir, who: Player, k: int): (n: int)
    decreases Reach(Along(p, d, k), d)
    ensures k <= n
    ensures forall j :: k <= j < n ==> InBounds(Along(p, d, j)) && At(b, Along(p, d, j)) == Stone(who)
    ensures !(InBounds(Along(p, d, n)) && At(b, Along(p, d, n)) == Stone(who))
  {
    var q := Along(p, d, k);
    if InBounds(q) && At(b, q) == Stone(who) then
      ReachDecreases(p, d, k);
      RayEnd(b, p, d, who, k + 1)
    else
      k
  }

  /** A walk that crosses exactly the squares [k, m) of who stones stops at m. */
  lemma {:induction false} RayEndExact(b: Board, p: Pos, d: Dir, who: Player, k: int, m: int)
    requires k <= m
    requires forall j :: k <= j < m ==> InBounds(Along(p, d, j)) && At(b, Along(p, d, j)) == Stone(who)
    requires !(InBounds(Along(p, d, m)) && At(b, Along(p, d, m)) == Stone(who))
    ensures RayEnd(b, p, d, who, k) == m
    decreases m - k
  {
    if k < m {
      assert InBounds(Along(p, d, k)) && At(b, Along(p, d, k)) == Stone(who);
      RayEndExact(b, p, d, who, k + 1, m);
    }
  }

  /** The engine's per-direction test: the walk over opponent stones from the
      neighbour of p moved at least once and stopped on an own stone. */
  predicate Captures(b: Board, p: Pos, d: Dir, player: Player) {
    var n := RayEnd(b, p, d, Opponent(player), 1);
    n > 1 && InBounds(Along(p, d, n)) && At(b, Along(p, d, n)) == Stone(player)
  }

  /** Reference definition of a capture line: the k >= 1 squares next to p in
      direction d hold opponent stones and the square after them holds an own
      stone. */
  ghost predicate Brackets(b: Board, p: Pos, d: Dir, player: Player, k: int) {
    && k >= 1
    && (forall j :: 1 <= j <= k ==>
          InBounds(Along(p, d, j)) && At(b, Along(p, d, j)) == Stone(Opponent(player)))
    && InBounds(Along(p, d, k + 1))
    && At(b, Along(p, d, k + 1)) == Stone(player)
  }

  /** The engine's walk finds a capture exactly when a capture line exists,
      and the line it finds is the only one in that direction. */
  lemma CapturesIff(b: Board, p: Pos, d: Dir, player: Player)
    ensures Captures(b, p, d, player) <==> exists k :: Brackets(b, p, d, player, k)
    ensures forall k :: Brackets(b, p, d, player, k) ==> k == RayEnd(b, p, d, Opponent(player), 1) - 1
  {
    var opp := Opponent(player);
    var n := RayEnd(b, p, d, opp, 1);
    if Captures(b, p, d, player) {
      assert Brackets(b, p, d, player, n - 1);
    }
    forall k | Brackets(b, p, d, player, k)
      ensures k == n - 1 && Captures(b, p, d, player)
    {
      RayEndExact(b, p, d, opp, 1, k + 1);
    }
  }

  /** The engine's loop over the direction table: does some direction of ds,
      tried in order, capture? The first capturing direction ends the loop. */
  predicate AnyCapture(b: Board, p: Pos, player: Player, ds: seq<Dir>)
    decreases |ds|
  {
    |ds| > 0 && (Captures(b, p, ds[0], player) || AnyCapture(b, p, player, ds[1..]))
  }

  lemma {:induction false} AnyCaptureIff(b: Board, p: Pos, player: Player, ds: seq<Dir>)
    ensures AnyCapture(b, p, player, ds) <==> exists d :: d in ds && Captures(b, p, d, player)
    decreases |ds|
  {
    if |ds| > 0 {
      AnyCaptureIff(b, p, player, ds[1..]);
      assert forall d :: d in ds <==> d == ds[0] || d in ds[1..];
    }
  }

  /** Legality as the engine computes it: an empty on-board square from which
      some direction captures. */
  predicate IsLegal(b: Board, player: Player, p: Pos) {
    InBounds(p) && At(b, p) == Empty && AnyCapture(b, p, player, Directions)
  }

  /** Reference definition of a legal move. */
  ghost predicate LegalSpec(b: Board, player: Player, p: Pos) {
    InBounds(p) && At(b, p) == Empty && exists d, k :: Brackets(b, p, d, player, k)
  }

  /** The engine's legality test agrees with the reference definition. */
  lemma LegalIff(b: Board, player: Player, p: Pos)
    ensures IsLegal(b, player, p) <==> LegalSpec(b, player, p)
  {
    DirectionsTable();
    AnyCaptureIff(b, p, player, Directions);
    if IsLegal(b, player, p) {
      var d :| d in Directions && Captures(b, p, d, player);
      CapturesIff(b, p, d, player);
    }
    if LegalSpec(b, player, p) {
      var d, k :| Brackets(b, p, d, player, k);
      CapturesIff(b, p, d, player);
    }
  }

  /** The legal squares with row-major index at least k, in row-major order. */
  function MovesFrom(b: Board, player: Player, k: nat): (ms: seq<Pos>)
    requires k <= Squares
    decreases Squares - k
    ensures forall q :: q in ms <==> IsLegal(b, player, q) && Key(q) >= k
    ensures forall i, j :: 0 <= i < j < |ms| ==> Key(ms[i]) < Key(ms[j])
  {
    if k == Squares then []
    else
      var q := SquareAt(k);
      var rest := MovesFrom(b, player, k + 1);
      assert forall q' :: InBounds(q') && Key(q') == k ==> q' == q by {
        forall q' | InBounds(q') && Key(q') == k ensures q' == q {
          KeyRoundTrip(q');
        }
      }
      if IsLegal(b, player, q) then [q] + rest else rest
  }

  /** The legal moves of player, scanned row by row and column by column. */
  function ValidMoves(b: Board, player: Player): (ms: seq<Pos>)
    ensures forall q :: q in ms ==> InBounds(q) && At(b, q) == Empty
    ensures forall i, j :: 0 <= i < j < |ms| ==> RowMajorBefore(ms[i], ms[j])
    ensures forall i, j :: 0 <= i < j < |ms| ==> ms[i] != ms[j]
  {
    var ms := MovesFrom(b, player, 0);
    assert forall i, j :: 0 <= i < j < |ms| ==> RowMajorBefore(ms[i], ms[j]) by {
      forall i, j | 0 <= i < j < |ms| ensures RowMajorBefore(ms[i], ms[j]) {
        assert ms[i] in ms && ms[j] in ms;
        KeyOrder(ms[i], ms[j]);
      }
    }
    ms
  }

  /** A square is among the valid moves exactly when it is legal by the
      reference definition. */
  lemma ValidMovesSpec(b: Board, player: Player, p: Pos)
    ensures p in ValidMoves(b, player) <==> LegalSpec(b, player, p)
  {
    LegalIff(b, player, p);
    if IsLegal(b, player, p) {
      KeyRoundTrip(p);
    }
  }

  /** Whether player has any legal move. */
  function HasValidMove(b: Board, player: Player): (has: bool)
    ensures has <==> exists q :: LegalSpec(b, player, q)
  {
    var ms := ValidMoves(b, player);
    assert |ms| > 0 ==> LegalSpec(b, player, ms[0]) by {
      if |ms| > 0 {
        ValidMovesSpec(b, player, ms[0]);
      }
    }
    assert (exists q :: LegalSpec(b, player, q)) ==> |ms| > 0 by {
      if q :| LegalSpec(b, player, q) {
        ValidMovesSpec(b, player, q);
      }
    }
    |ms| > 0
  }
}
