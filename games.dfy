/** The shared data model of the Pitch tracker: the five fixed players, the
    per-player record shape the client and server both use, a stored game,
    and the per-player running total that net profit and the cumulative
    chart are built from. */
module Games {

  datatype Option<+T> = None | Some(value: T)

  /** The fixed player list; its order is the order of every per-player walk. */
  datatype Player = Matt | Seth | Mack | Arnav | Henry

  const Players: seq<Player> := [Matt, Seth, Mack, Arnav, Henry]

  /** Where a player sits in `Players`: every player is listed. */
  function IndexOf(p: Player): (k: nat)
    ensures k < |Players| && Players[k] == p
  {
    match p
    case Matt => 0
    case Seth => 1
    case Mack => 2
    case Arnav => 3
    case Henry => 4
  }

  /** One value per player. */
  datatype PerPlayer<T> = PerPlayer(matt: T, seth: T, mack: T, arnav: T, henry: T) {

    /** The value held for `p`. */
    function Of(p: Player): T {
      match p
      case Matt => matt
      case Seth => seth
      case Mack => mack
      case Arnav => arnav
      case Henry => henry
    }

    /** The record with `p`'s value replaced by `v`. */
    function With(p: Player, v: T): (r: PerPlayer<T>)
      ensures r.Of(p) == v
      ensures forall q :: q != p ==> r.Of(q) == Of(q)
    {
      match p
      case Matt => this.(matt := v)
      case Seth => this.(seth := v)
      case Mack => this.(mack := v)
      case Arnav => this.(arnav := v)
      case Henry => this.(henry := v)
    }
  }

  function Uniform<T>(v: T): PerPlayer<T> { PerPlayer(v, v, v, v, v) }

  /** A player's result in one game: a signed dollar amount, or null when they sat out. */
  type Scores = PerPlayer<Option<int>>

  /** A stored game: its id and the five results. */
  datatype Game = Game(id: int, scores: Scores)

  /** One form field or request-body field: the empty string, or a number already parsed from it. */
  datatype FormField = Blank | Entered(value: int)

  /** Absolute value. */
  function Abs(x: int): nat { if x < 0 then -x else x }

  /** The player's result in `g`, with null contributing nothing to a sum. */
  function Amount(g: Game, p: Player): int {
    match g.scores.Of(p)
    case None => 0
    case Some(v) => v
  }

  /** The sum of the player's non-null results over `gs`. */
  function Total(gs: seq<Game>, p: Player): int {
    if gs == [] then 0 else Amount(gs[0], p) + Total(gs[1..], p)
  }

  /** The sum of every non-null result in one game. */
  function RowSum(s: Scores): int {
    SumOr0(s.matt) + SumOr0(s.seth) + SumOr0(s.mack) + SumOr0(s.arnav) + SumOr0(s.henry)
  }

  function SumOr0(v: Option<int>): int {
    match v
    case None => 0
    case Some(x) => x
  }

  /** The closed-economy rule: what the winners of a game take, the losers pay. */
  predicate ZeroSum(s: Scores) {
    RowSum(s) == 0
  }

  /** The five players' totals added together. */
  function TotalOverPlayers(gs: seq<Game>): int {
    Total(gs, Matt) + Total(gs, Seth) + Total(gs, Mack) + Total(gs, Arnav) + Total(gs, Henry)
  }

  /** A sum over a concatenation is the sum of the parts. */
  lemma {:induction false} TotalAppend(a: seq<Game>, b: seq<Game>, p: Player)
    ensures Total(a + b, p) == Total(a, p) + Total(b, p)
  {
    if a == [] {
      assert a + b == b;
    } else {
      assert (a + b)[1..] == a[1..] + b;
      TotalAppend(a[1..], b, p);
    }
  }

  /** Extending a prefix by one game adds that game's result (nothing when it is null). */
  lemma TotalOfPrefix(gs: seq<Game>, i: nat, p: Player)
    requires i < |gs|
    ensures Total(gs[..i + 1], p) == Total(gs[..i], p) + Amount(gs[i], p)
  {
    assert gs[..i + 1] == gs[..i] + [gs[i]];
    TotalAppend(gs[..i], [gs[i]], p);
  }

  /** When every game is zero-sum, the five players' totals over the same games cancel out. */
  lemma {:induction false} BalancedGamesTotalZero(gs: seq<Game>)
    requires forall g :: g in gs ==> ZeroSum(g.scores)
    ensures TotalOverPlayers(gs) == 0
  {
    if gs != [] {
      assert forall g :: g in gs[1..] ==> g in gs;
      BalancedGamesTotalZero(gs[1..]);
      assert ZeroSum(gs[0].scores);
    }
  }
}
