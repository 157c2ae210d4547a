/** Assigning the ball to the nearest player within reach. */
module PlayerBallAssigner {
  import opened Wrappers
  import opened BoxUtils

  /** A player may be given the ball only when closer than this many pixels. */
  const MaxPlayerBallDistance: nat := 70

  /** The reach compared through squares: `70 * 70`. */
  const SquaredReach: nat := 4900

  /** The id returned when no player is close enough to the ball. */
  const NoPlayer: int := -1

  /** `n * n`, written as a sum of odd numbers so that the reasoning about
      distances below stays within linear arithmetic. */
  function Square(n: int): (r: nat)
    decreases if n < 0 then -n else n, if n < 0 then 1 else 0
  {
    if n < 0 then Square(-n) else if n == 0 then 0 else Square(n - 1) + 2 * n - 1
  }

  /** The sum of odd numbers is the square. */
  lemma {:induction false} SquareIsProduct(n: int)
    ensures Square(n) == n * n
    decreases if n < 0 then -n else n, if n < 0 then 1 else 0
  {
    if n < 0 {
      SquareIsProduct(-n);
    } else if n > 0 {
      SquareIsProduct(n - 1);
      assert (n - 1) * (n - 1) == n * n - 2 * n + 1;
    }
  }

  /** The squared reach is the square of the reach. */
  lemma SquaredReachIsReachSquared()
    ensures SquaredReach == Square(MaxPlayerBallDistance)
  {
    SquareIsProduct(MaxPlayerBallDistance);
  }

  /** Squaring grows strictly on the non-negative reals. */
  lemma SquareGrowsOnReals(a: real, b: real)
    requires 0.0 <= a < b
    ensures a * a < b * b
  {
    var d := b - a;
    assert b * b == a * a + 2.0 * a * d + d * d;
    assert a * d >= 0.0;
    assert d * d > 0.0;
  }

  /** Squares of non-negative reals order them as the reals themselves are
      ordered. Distances are square roots of whole numbers, so comparing
      their squares applies the same threshold and picks the same minimum as
      comparing the distances. */
  lemma SquareKeepsOrder(a: real, b: real)
    requires 0.0 <= a && 0.0 <= b
    ensures a < b <==> a * a < b * b
  {
    if a < b {
      SquareGrowsOnReals(a, b);
    } else if b < a {
      SquareGrowsOnReals(b, a);
    }
  }


  /** Squared Euclidean distance. Distances are compared through their
      squares, which orders them the same way and avoids square roots. */
  function SquaredDistance(p: Point, q: Point): nat
  {
    Square(p.x - q.x) + Square(p.y - q.y)
  }

  /** A distance whose square is the whole number `squared` is within reach
      exactly when `squared` is below the squared reach: the test on squares
      is the test on distances. */
  lemma ReachBySquares(dist: real, squared: nat)
    requires 0.0 <= dist && dist * dist == squared as real
    ensures dist < MaxPlayerBallDistance as real <==> squared < SquaredReach
  {
    SquareKeepsOrder(dist, MaxPlayerBallDistance as real);
  }

  /** The squared distance from the ball to the nearer of the player's two
      bottom corners `(x1, y2)` and `(x2, y2)`, that is, to the player's feet. */
  function PlayerDistance(player: Box, ball: Point): (d: nat)
    ensures d == SquaredDistance(Point(player.x1, player.y2), ball)
         || d == SquaredDistance(Point(player.x2, player.y2), ball)
    ensures d <= SquaredDistance(Point(player.x1, player.y2), ball)
    ensures d <= SquaredDistance(Point(player.x2, player.y2), ball)
  {
    var left := SquaredDistance(Point(player.x1, player.y2), ball);
    var right := SquaredDistance(Point(player.x2, player.y2), ball);
    if left <= right then left else right
  }

  /** The top edge of a player's box plays no part in the distance. */
  lemma PlayerDistanceIgnoresTopEdge(player: Box, y: int, ball: Point)
    ensures PlayerDistance(player.(y1 := y), ball) == PlayerDistance(player, ball)
  {
  }

  /** Whether the player is strictly closer than the reach threshold. */
  predicate InReach(player: Box, ball: Point)
  {
    PlayerDistance(player, ball) < SquaredReach
  }

  /** No player among the first `n` is within reach. */
  ghost predicate NobodyInReachAmong(players: seq<(int, Box)>, n: nat, ball: Point)
    requires n <= |players|
  {
    forall j :: 0 <= j < n ==> !InReach(players[j].1, ball)
  }

  /** Among the first `n` players, player `i` is in reach, no player in reach
      is nearer, and every earlier player in reach is strictly farther. */
  ghost predicate NearestAmong(players: seq<(int, Box)>, n: nat, ball: Point, i: int)
    requires n <= |players|
  {
    && 0 <= i < n
    && InReach(players[i].1, ball)
    && (forall j :: 0 <= j < n && InReach(players[j].1, ball) ==>
          PlayerDistance(players[i].1, ball) <= PlayerDistance(players[j].1, ball))
    && (forall j :: 0 <= j < i && InReach(players[j].1, ball) ==>
          PlayerDistance(players[i].1, ball) < PlayerDistance(players[j].1, ball))
  }

  /** Player `i` is the one the ball belongs to: the first nearest player in reach. */
  ghost predicate IsNearest(players: seq<(int, Box)>, ball: Point, i: int)
  {
    NearestAmong(players, |players|, ball, i)
  }

  /** At most one player is the first nearest one, so the answer is determined. */
  lemma NearestIsUnique(players: seq<(int, Box)>, ball: Point, i: int, j: int)
    requires IsNearest(players, ball, i) && IsNearest(players, ball, j)
    ensures i == j
  {
  }

  /** Scans the players in iteration order (a dictionary modelled as a sequence
      of `(id, box)` entries) and returns the id of the first player with the
      smallest distance below the threshold, or `NoPlayer` if none is in reach.
      The ghost `winner` is that player's position in the sequence. */
  method AssignBallToPlayer(players: seq<(int, Box)>, ballBox: Box) returns (playerId: int, ghost winner: int)
    ensures NobodyInReachAmong(players, |players|, CenterOfBox(ballBox)) ==> playerId == NoPlayer
    ensures !NobodyInReachAmong(players, |players|, CenterOfBox(ballBox)) ==>
              IsNearest(players, CenterOfBox(ballBox), winner) && playerId == players[winner].0
  {
    var ball := CenterOfBox(ballBox);
    var minimum: Option<nat> := None;  // stands for float("inf")
    playerId := NoPlayer;
    winner := -1;
    for k := 0 to |players|
      invariant minimum.None? <==> NobodyInReachAmong(players, k, ball)
      invariant minimum.None? ==> playerId == NoPlayer
      invariant minimum.Some? ==>
                  && NearestAmong(players, k, ball, winner)
                  && playerId == players[winner].0
                  && minimum.value == PlayerDistance(players[winner].1, ball)
    {
      var (id, box) := players[k];
      var distance := PlayerDistance(box, ball);
      if distance < SquaredReach {
        if minimum.None? || distance < minimum.value {
          minimum := Some(distance);
          playerId := id;
          winner := k;
        }
      }
    }
  }
}
