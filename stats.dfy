/** The per-player statistics engine `calcStats`: a pure fold over the
    ordered game list. Every count and dollar figure is exact; rates and
    averages are the unrounded quotients behind the displayed values. */
module Stats {
  import opened Games
  import opened Sequences

  /** A result at least this large in absolute value makes a "big game". */
  const BigGameThreshold: int := 4

  /** Number of most recent played games that recent form looks at. */
  const RecentWindow: nat := 15

  /** One player's entry in the statistics table. */
  datatype PlayerStats = PlayerStats(
    games: nat, won: nat, lost: nat,
    winnings: int, losses: int, net: int,
    ppg: real,
    setsPaid: nat, setsReceived: nat, setsRatio: real,
    avgWinSize: real, avgLossSize: real,
    bigGameRate: real, recentForm: real, clutchRate: real)

  function PlayedBy(p: Player): Game -> bool { (g: Game) => g.scores.Of(p).Some? }
  function WonBy(p: Player): Game -> bool { (g: Game) => Amount(g, p) > 0 }
  function LostBy(p: Player): Game -> bool { (g: Game) => Amount(g, p) < 0 }
  function BigFor(p: Player): Game -> bool { (g: Game) => Abs(Amount(g, p)) >= BigGameThreshold }

  /** The games the player sat in, in order. */
  function Played(games: seq<Game>, p: Player): seq<Game> { Filter(games, PlayedBy(p)) }
  function Wins(games: seq<Game>, p: Player): seq<Game> { Filter(Played(games, p), WonBy(p)) }
  function Losses(games: seq<Game>, p: Player): seq<Game> { Filter(Played(games, p), LostBy(p)) }
  function BigGames(games: seq<Game>, p: Player): seq<Game> { Filter(Played(games, p), BigFor(p)) }
  function BigWins(games: seq<Game>, p: Player): seq<Game> { Filter(BigGames(games, p), WonBy(p)) }
  /** The player's most recent played games, at most `RecentWindow` of them. */
  function Recent(games: seq<Game>, p: Player): seq<Game> { TakeLast(Played(games, p), RecentWindow) }
  function RecentWins(games: seq<Game>, p: Player): seq<Game> { Filter(Recent(games, p), WonBy(p)) }

  /** A quotient guarded against a zero denominator, which yields 0 rather than an error. */
  function Ratio(num: int, den: nat): (r: real)
    ensures den == 0 ==> r == 0.0
    ensures den > 0 ==> r * den as real == num as real
  {
    if den > 0 then num as real / den as real else 0.0
  }

  /** A percentage, guarded the same way. */
  function Percent(part: nat, whole: nat): (r: real)
    ensures whole == 0 ==> r == 0.0
    ensures whole > 0 ==> r * whole as real == 100.0 * part as real
    ensures part <= whole ==> 0.0 <= r <= 100.0
  {
    if whole > 0 then
      var q := part as real / whole as real;
      assert q * whole as real == part as real;
      assert part <= whole ==> q <= 1.0;
      q * 100.0
    else 0.0
  }

  /** One player's row of the statistics table. */
  function CalcStats(games: seq<Game>, p: Player): PlayerStats {
    var played := Played(games, p);
    var wins := Wins(games, p);
    var losses := Losses(games, p);
    var winnings := Total(wins, p);
    var lossAmt := Total(losses, p);
    var net := winnings + lossAmt;
    var setsPaid := Abs(lossAmt + |losses| * 2);
    var setsReceived := Abs(winnings - |wins| * 2);
    PlayerStats(
      games := |played|, won := |wins|, lost := |losses|,
      winnings := winnings, losses := lossAmt, net := net,
      ppg := Ratio(net, |played|),
      setsPaid := setsPaid, setsReceived := setsReceived,
      setsRatio := Ratio(setsReceived, setsPaid),
      avgWinSize := Ratio(winnings, |wins|),
      avgLossSize := Ratio(Abs(lossAmt), |losses|),
      bigGameRate := Percent(|BigGames(games, p)|, |played|),
      recentForm := Percent(|RecentWins(games, p)|, |Recent(games, p)|),
      clutchRate := Percent(|BigWins(games, p)|, |BigGames(games, p)|))
  }

  /** The statistics table for all five players. */
  function CalcAllStats(games: seq<Game>): PerPlayer<PlayerStats> {
    PerPlayer(CalcStats(games, Matt), CalcStats(games, Seth), CalcStats(games, Mack),
              CalcStats(games, Arnav), CalcStats(games, Henry))
  }

  // ---------------------------------------------------------------------------
  // Sums over filtered game lists

  lemma MulSucc(k: int, n: nat)
    ensures k * (n + 1) == k * n + k
  {
  }

  lemma {:induction false} TotalAtLeast(s: seq<Game>, p: Player, k: int)
    requires forall g :: g in s ==> Amount(g, p) >= k
    ensures Total(s, p) >= k * |s|
  {
    if s != [] {
      assert forall g :: g in s[1..] ==> g in s;
      TotalAtLeast(s[1..], p, k);
      MulSucc(k, |s[1..]|);
    }
  }

  lemma {:induction false} TotalAtMost(s: seq<Game>, p: Player, k: int)
    requires forall g :: g in s ==> Amount(g, p) <= k
    ensures Total(s, p) <= k * |s|
  {
    if s != [] {
      assert forall g :: g in s[1..] ==> g in s;
      TotalAtMost(s[1..], p, k);
      MulSucc(k, |s[1..]|);
    }
  }

  /** Every result is positive, negative or zero, so the wins and the losses add up to the whole. */
  lemma {:induction false} TotalSplit(s: seq<Game>, p: Player)
    ensures Total(s, p) == Total(Filter(s, WonBy(p)), p) + Total(Filter(s, LostBy(p)), p)
  {
    if s != [] {
      TotalSplit(s[1..], p);
    }
  }

  /** Dropping the games a player sat out does not change their total. */
  lemma {:induction false} TotalPlayed(s: seq<Game>, p: Player)
    ensures Total(Filter(s, PlayedBy(p)), p) == Total(s, p)
  {
    if s != [] {
      TotalPlayed(s[1..], p);
    }
  }

  // ---------------------------------------------------------------------------
  // Properties of calcStats

  /** Wins and losses are order-preserving selections of the played games, no
      game is both, and a zero result is played but neither won nor lost. */
  lemma PlayedPartition(games: seq<Game>, p: Player)
    ensures SubsequenceOf(Played(games, p), games)
    ensures SubsequenceOf(Wins(games, p), Played(games, p))
    ensures SubsequenceOf(Losses(games, p), Played(games, p))
    ensures forall g :: g in Played(games, p) ==> g.scores.Of(p).Some?
    ensures forall g :: g in Wins(games, p) ==> Amount(g, p) > 0 && g !in Losses(games, p)
    ensures forall g :: g in Losses(games, p) ==> Amount(g, p) < 0
    ensures forall g :: g in Played(games, p) && Amount(g, p) == 0 ==> g !in Wins(games, p) && g !in Losses(games, p)
    ensures CalcStats(games, p).won + CalcStats(games, p).lost <= CalcStats(games, p).games
  {
    var played := Played(games, p);
    FilterMembers(games, PlayedBy(p));
    FilterMembers(played, WonBy(p));
    FilterMembers(played, LostBy(p));
    FilterIsSubsequence(games, PlayedBy(p));
    FilterIsSubsequence(played, WonBy(p));
    FilterIsSubsequence(played, LostBy(p));
    FilterDisjointCount(played, WonBy(p), LostBy(p));
  }

  /** Big wins, big games, played games nest, and so do the recent wins in the recent window. */
  lemma CountsNest(games: seq<Game>, p: Player)
    ensures |BigWins(games, p)| <= |BigGames(games, p)| <= CalcStats(games, p).games
    ensures |RecentWins(games, p)| <= |Recent(games, p)| <= CalcStats(games, p).games
    ensures CalcStats(games, p).won <= CalcStats(games, p).games
    ensures CalcStats(games, p).lost <= CalcStats(games, p).games
  {
  }

  lemma WinningsBound(games: seq<Game>, p: Player)
    ensures CalcStats(games, p).winnings >= CalcStats(games, p).won
  {
    var s, wins := CalcStats(games, p), Wins(games, p);
    assert s.won == |wins| && s.winnings == Total(wins, p);
    FilterMembers(Played(games, p), WonBy(p));
    TotalAtLeast(wins, p, 1);
  }

  lemma LossesBound(games: seq<Game>, p: Player)
    ensures CalcStats(games, p).losses <= -(CalcStats(games, p).lost as int)
  {
    var s, losses := CalcStats(games, p), Losses(games, p);
    assert s.lost == |losses| && s.losses == Total(losses, p);
    FilterMembers(Played(games, p), LostBy(p));
    TotalAtMost(losses, p, -1);
  }

  lemma NetIsTotal(games: seq<Game>, p: Player)
    ensures CalcStats(games, p).net == CalcStats(games, p).winnings + CalcStats(games, p).losses
    ensures CalcStats(games, p).net == Total(games, p)
  {
    var s := CalcStats(games, p);
    assert s.net == Total(Wins(games, p), p) + Total(Losses(games, p), p);
    TotalSplit(Played(games, p), p);
    TotalPlayed(games, p);
  }

  /** Gross winnings are at least one dollar per win, gross losses at least one
      dollar per loss, and net is exactly the player's total over all games. */
  lemma AmountBounds(games: seq<Game>, p: Player)
    ensures CalcStats(games, p).winnings >= CalcStats(games, p).won >= 0
    ensures CalcStats(games, p).losses <= -(CalcStats(games, p).lost as int) <= 0
    ensures CalcStats(games, p).net == CalcStats(games, p).winnings + CalcStats(games, p).losses
    ensures CalcStats(games, p).net == Total(games, p)
  {
    WinningsBound(games, p);
    LossesBound(games, p);
    NetIsTotal(games, p);
  }

  /** The legacy "sets" figures: when every loss is at least the $2 base
      stake, setsPaid is what was paid beyond the base, lossAmt + 2 per loss
      with the sign flipped; symmetrically for wins and setsReceived. */
  lemma SetsBeyondBaseStake(games: seq<Game>, p: Player)
    ensures (forall g :: g in Losses(games, p) ==> Amount(g, p) <= -2) ==>
      CalcStats(games, p).setsPaid == -(CalcStats(games, p).losses + 2 * CalcStats(games, p).lost)
    ensures (forall g :: g in Wins(games, p) ==> Amount(g, p) >= 2) ==>
      CalcStats(games, p).setsReceived == CalcStats(games, p).winnings - 2 * CalcStats(games, p).won
  {
    if forall g :: g in Losses(games, p) ==> Amount(g, p) <= -2 {
      TotalAtMost(Losses(games, p), p, -2);
    }
    if forall g :: g in Wins(games, p) ==> Amount(g, p) >= 2 {
      TotalAtLeast(Wins(games, p), p, 2);
    }
  }

  /** How each rate and average of the table is obtained from the counts and sums. */
  lemma QuotientFields(games: seq<Game>, p: Player)
    ensures var s := CalcStats(games, p);
      && s.ppg == Ratio(s.net, s.games)
      && s.setsRatio == Ratio(s.setsReceived, s.setsPaid)
      && s.avgWinSize == Ratio(s.winnings, s.won)
      && s.avgLossSize == Ratio(Abs(s.losses), s.lost)
      && s.bigGameRate == Percent(|BigGames(games, p)|, s.games)
      && s.recentForm == Percent(|RecentWins(games, p)|, |Recent(games, p)|)
      && s.clutchRate == Percent(|BigWins(games, p)|, |BigGames(games, p)|)
  {
  }

  /** Every rate and average is 0, not an error, when its denominator is 0. */
  lemma ZeroDenominators(games: seq<Game>, p: Player)
    ensures var s := CalcStats(games, p);
      && (s.games == 0 ==> s.ppg == 0.0 && s.bigGameRate == 0.0 && s.recentForm == 0.0)
      && (s.setsPaid == 0 ==> s.setsRatio == 0.0)
      && (s.won == 0 ==> s.avgWinSize == 0.0)
      && (s.lost == 0 ==> s.avgLossSize == 0.0)
      && (|BigGames(games, p)| == 0 ==> s.clutchRate == 0.0)
  {
    QuotientFields(games, p);
    RecentWindowIsSuffix(games, p);
  }

  /** A player with no games has all-zero statistics. */
  lemma NoGamesAllZero(games: seq<Game>, p: Player)
    requires CalcStats(games, p).games == 0
    ensures CalcStats(games, p) == PlayerStats(0, 0, 0, 0, 0, 0, 0.0, 0, 0, 0.0, 0.0, 0.0, 0.0, 0.0, 0.0)
  {
    CountsNest(games, p);
    assert Wins(games, p) == [] && Losses(games, p) == [];
  }

  /** Big-game rate, recent form and clutch rate are percentages in [0, 100]. */
  lemma RatesInRange(games: seq<Game>, p: Player)
    ensures 0.0 <= CalcStats(games, p).bigGameRate <= 100.0
    ensures 0.0 <= CalcStats(games, p).recentForm <= 100.0
    ensures 0.0 <= CalcStats(games, p).clutchRate <= 100.0
  {
    CountsNest(games, p);
  }

  /** The recent-form window is the last min(15, played) games played, and
      when a player has played at most 15 games it is their whole history. */
  lemma RecentWindowIsSuffix(games: seq<Game>, p: Player)
    ensures var played := Played(games, p);
      && |Recent(games, p)| == Min(RecentWindow, |played|)
      && Recent(games, p) == played[|played| - |Recent(games, p)|..]
    ensures CalcStats(games, p).games <= RecentWindow ==>
      CalcStats(games, p).recentForm == Percent(CalcStats(games, p).won, CalcStats(games, p).games)
  {
    var played := Played(games, p);
    var recent := Recent(games, p);
    assert played == played[..|played| - |recent|] + recent;
    assert recent == played[|played| - |recent|..];
  }

  /** In a closed economy (every game zero-sum) the five nets cancel out. */
  lemma NetsBalance(games: seq<Game>)
    requires forall g :: g in games ==> ZeroSum(g.scores)
    ensures var t := CalcAllStats(games);
      t.matt.net + t.seth.net + t.mack.net + t.arnav.net + t.henry.net == 0
  {
    AmountBounds(games, Matt);
    AmountBounds(games, Seth);
    AmountBounds(games, Mack);
    AmountBounds(games, Arnav);
    AmountBounds(games, Henry);
    BalancedGamesTotalZero(games);
  }

  // ---------------------------------------------------------------------------
  // Worked examples

  /** No games at all: every count, sum and rate is 0. */
  lemma EmptyHistory(p: Player)
    ensures CalcStats([], p) == PlayerStats(0, 0, 0, 0, 0, 0, 0.0, 0, 0, 0.0, 0.0, 0.0, 0.0, 0.0, 0.0)
  {
    NoGamesAllZero([], p);
  }

  /** Matt wins $5 from Seth and then loses $5 to him. */
  lemma WinThenLoseFive()
    ensures var g1 := Game(1, PerPlayer(Some(5), Some(-5), None, None, None));
      var g2 := Game(2, PerPlayer(Some(-5), Some(5), None, None, None));
      var s := CalcStats([g1, g2], Matt);
      && s.games == 2 && s.won == 1 && s.lost == 1
      && s.winnings == 5 && s.losses == -5 && s.net == 0 && s.ppg == 0.0
      && s.setsPaid == 3 && s.setsReceived == 3 && s.setsRatio == 1.0
      && s.bigGameRate == 100.0 && s.clutchRate == 50.0 && s.recentForm == 50.0
  {
    var g1 := Game(1, PerPlayer(Some(5), Some(-5), None, None, None));
    var g2 := Game(2, PerPlayer(Some(-5), Some(5), None, None, None));
    var games := [g1, g2];
    assert games[1..] == [g2] && games[1..][1..] == [];
    assert Amount(g1, Matt) == 5 && Amount(g2, Matt) == -5;
    assert Filter([g2], PlayedBy(Matt)) == [g2];
    assert Played(games, Matt) == games;
    assert Filter([g2], WonBy(Matt)) == [];
    assert Wins(games, Matt) == [g1];
    assert Filter([g2], LostBy(Matt)) == [g2];
    assert Losses(games, Matt) == [g2];
    assert Filter([g2], BigFor(Matt)) == [g2];
    assert BigGames(games, Matt) == games;
    assert BigWins(games, Matt) == [g1];
    assert Recent(games, Matt) == games;
    QuotientFields(games, Matt);
  }
}
