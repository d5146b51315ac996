/** `calcCumulative`: a left-to-right scan over the game list that keeps a
    running net per player and emits one chart row per game. */
module Cumulative {
  import opened Games
  import opened Stats

  /** One chart row: the game's number and every player's running net after it. */
  datatype Row = Row(game: nat, net: PerPlayer<int>)

  /** The running totals after one more game: every player who played it
      has their result added, the others keep theirs. */
  method AddGame(running: PerPlayer<int>, g: Game) returns (next: PerPlayer<int>)
    ensures forall p :: next.Of(p) == running.Of(p) + Amount(g, p)
  {
    next := running;
    var j := 0;
    while j < |Players|
      invariant 0 <= j <= |Players|
      invariant forall k :: 0 <= k < j ==> next.Of(Players[k]) == running.Of(Players[k]) + Amount(g, Players[k])
      invariant forall k :: j <= k < |Players| ==> next.Of(Players[k]) == running.Of(Players[k])
    {
      var p := Players[j];
      match g.scores.Of(p) {
        case Some(v) => next := next.With(p, next.Of(p) + v);
        case None =>
      }
      j := j + 1;
    }
    forall p ensures next.Of(p) == running.Of(p) + Amount(g, p) {
      assert Players[IndexOf(p)] == p;
    }
  }

  /** What the chart holds for `games`: one row per game, numbered from 1,
      where row i has, for every player, the sum of their non-null results in
      games 0..i. */
  predicate ChartOf(games: seq<Game>, rows: seq<Row>) {
    && |rows| == |games|
    && (forall i :: 0 <= i < |rows| ==> rows[i].game == i + 1)
    && (forall i, p :: 0 <= i < |rows| ==> rows[i].net.Of(p) == Total(games[..i + 1], p))
  }

  /** The scan that builds the chart, one row per game. */
  method CalcCumulative(games: seq<Game>) returns (rows: seq<Row>)
    ensures ChartOf(games, rows)
  {
    var running := Uniform(0);
    rows := [];
    var i := 0;
    while i < |games|
      invariant 0 <= i <= |games|
      invariant |rows| == i
      invariant forall p :: running.Of(p) == Total(games[..i], p)
      invariant forall k :: 0 <= k < i ==> rows[k].game == k + 1
      invariant forall k, p :: 0 <= k < i ==> rows[k].net.Of(p) == Total(games[..k + 1], p)
    {
      running := AddGame(running, games[i]);
      forall p ensures running.Of(p) == Total(games[..i + 1], p) {
        TotalOfPrefix(games, i, p);
      }
      rows := rows + [Row(i + 1, running)];
      i := i + 1;
    }
  }

  /** Each row is the previous row (zero before the first) plus the game's
      results, so a player who sat out a game keeps the previous running net. */
  lemma RowToRow(games: seq<Game>, rows: seq<Row>, i: nat, p: Player)
    requires ChartOf(games, rows) && i < |rows|
    ensures rows[i].net.Of(p) == (if i == 0 then 0 else rows[i - 1].net.Of(p)) + Amount(games[i], p)
    ensures 0 < i && games[i].scores.Of(p) == None ==> rows[i].net.Of(p) == rows[i - 1].net.Of(p)
  {
    TotalOfPrefix(games, i, p);
    assert games[..0] == [];
  }

  /** The last row of the chart agrees with the net column of the statistics table. */
  lemma LastRowIsNet(games: seq<Game>, rows: seq<Row>, p: Player)
    requires ChartOf(games, rows) && |rows| > 0
    ensures rows[|rows| - 1].net.Of(p) == CalcStats(games, p).net
  {
    assert games[..|games|] == games;
    AmountBounds(games, p);
  }
}
