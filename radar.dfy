/** The radar chart's metric selection and scaling: `toggleMetric` keeps
    between three and seven of the eight metrics switched on, and each
    metric's `scale` maps its real value onto the chart's 0-100 axis with
    50 as break-even. */
module Radar {
  import opened Games
  import opened Sequences
  import opened Stats

  /** The eight metrics the radar chart can show. */
  datatype MetricKey =
    | WinRate | Ppg | SetsRatio | AvgWinSize | LossControl | BigGameRate | RecentForm | ClutchRate

  /** The metrics switched on when the dashboard opens. */
  const DefaultActive: seq<MetricKey> := [WinRate, Ppg, SetsRatio, RecentForm, ClutchRate]

  /** The radar never shows fewer or more metrics than these. */
  const MinActive: nat := 3
  const MaxActive: nat := 7

  // ---------------------------------------------------------------------------
  // Scaling

  /** Pins a value onto the chart's 0-100 axis. */
  function Clamp(v: real): (r: real)
    ensures 0.0 <= r <= 100.0
    ensures 0.0 <= v <= 100.0 ==> r == v
    ensures v < 0.0 ==> r == 0.0
    ensures v > 100.0 ==> r == 100.0
  {
    if v < 0.0 then 0.0 else if v > 100.0 then 100.0 else v
  }

  /** Where a metric's value lands on the axis: each metric maps its own
      range linearly onto 0-100 and clamps what falls outside. */
  function Scale(key: MetricKey, v: real): (r: real)
    ensures 0.0 <= r <= 100.0
  {
    match key
    case Ppg => Clamp((v + 2.0) / 4.0 * 100.0)
    case SetsRatio => Clamp(v / 2.0 * 100.0)
    case AvgWinSize => Clamp(v / 4.0 * 100.0)
    case LossControl => Clamp((6.0 - v) / 4.0 * 100.0)
    case WinRate => Clamp(v)
    case BigGameRate => Clamp(v)
    case RecentForm => Clamp(v)
    case ClutchRate => Clamp(v)
  }

  /** The real value that scales to the midpoint 50 of the axis. */
  function Neutral(key: MetricKey): real {
    match key
    case Ppg => 0.0
    case SetsRatio => 1.0
    case AvgWinSize => 2.0
    case LossControl => 4.0
    case _ => 50.0
  }

  /** Lower losses score higher; every other metric scores higher as its value grows. */
  predicate Descending(key: MetricKey) { key == LossControl }

  /** 50 on the axis means exactly the break-even value. */
  lemma MidpointIsNeutral(key: MetricKey, v: real)
    ensures Scale(key, v) == 50.0 <==> v == Neutral(key)
  {
  }

  /** The documented ends of each axis: PPG spans -$2 to +$2, the sets ratio
      0x to 2x, the average win $0 to $4, and loss control runs from a $2
      average loss (100) down to a $6 one (0); beyond the ends the value is
      pinned. The percentages span 0 to 100. */
  lemma ScaleAnchors(key: MetricKey, v: real)
    ensures key == Ppg ==> (v <= -2.0 ==> Scale(key, v) == 0.0) && (v >= 2.0 ==> Scale(key, v) == 100.0)
    ensures key == SetsRatio ==> (v <= 0.0 ==> Scale(key, v) == 0.0) && (v >= 2.0 ==> Scale(key, v) == 100.0)
    ensures key == AvgWinSize ==> (v <= 0.0 ==> Scale(key, v) == 0.0) && (v >= 4.0 ==> Scale(key, v) == 100.0)
    ensures key == LossControl ==> (v <= 2.0 ==> Scale(key, v) == 100.0) && (v >= 6.0 ==> Scale(key, v) == 0.0)
    ensures IsPercentage(key) ==> (v <= 0.0 ==> Scale(key, v) == 0.0) && (v >= 100.0 ==> Scale(key, v) == 100.0)
  {
  }

  /** Scaling keeps (or, for loss control, reverses) the order of values. */
  lemma ScaleMonotone(key: MetricKey, u: real, v: real)
    requires u <= v
    ensures Descending(key) ==> Scale(key, u) >= Scale(key, v)
    ensures !Descending(key) ==> Scale(key, u) <= Scale(key, v)
  {
  }

  /** The statistic the radar plots for a player on each axis. */
  function MetricValue(key: MetricKey, s: PlayerStats): real {
    match key
    case WinRate => Percent(s.won, s.games)
    case Ppg => s.ppg
    case SetsRatio => s.setsRatio
    case AvgWinSize => s.avgWinSize
    case LossControl => s.avgLossSize
    case BigGameRate => s.bigGameRate
    case RecentForm => s.recentForm
    case ClutchRate => s.clutchRate
  }

  predicate IsPercentage(key: MetricKey) {
    key == WinRate || key == BigGameRate || key == RecentForm || key == ClutchRate
  }

  /** The four percentage metrics never need clamping: the radar plots their
      unrounded value as it is. */
  lemma PercentagesUnclamped(games: seq<Game>, p: Player, key: MetricKey)
    requires IsPercentage(key)
    ensures Scale(key, MetricValue(key, CalcStats(games, p))) == MetricValue(key, CalcStats(games, p))
  {
    RatesInRange(games, p);
    PlayedPartition(games, p);
  }

  // ---------------------------------------------------------------------------
  // Toggling

  function Other(key: MetricKey): MetricKey -> bool { (k: MetricKey) => k != key }

  /** The state update `toggleMetric(key)` applies to the active list. */
  function Toggled(active: seq<MetricKey>, key: MetricKey): (r: seq<MetricKey>)
    ensures forall k :: k != key ==> (k in r <==> k in active)
  {
    FilterMembers(active, Other(key));
    if key in active then
      if |active| > MinActive then Filter(active, Other(key)) else active
    else
      if |active| < MaxActive then active + [key] else active
  }

  /** A selection the radar can show: no key twice, between three and seven keys. */
  predicate ValidSelection(active: seq<MetricKey>) {
    Distinct(active) && MinActive <= |active| <= MaxActive
  }

  /** Toggling leaves every other key as it was, and the toggled key ends up
      active exactly when it could not be removed or could be added. */
  lemma ToggleEffect(active: seq<MetricKey>, key: MetricKey)
    ensures forall k :: k != key ==> (k in Toggled(active, key) <==> k in active)
    ensures key in Toggled(active, key) <==>
      (key in active && |active| <= MinActive) || (key !in active && |active| < MaxActive)
  {
    FilterMembers(active, Other(key));
  }

  /** At the bounds the toggle is refused and the list is left unchanged. */
  lemma ToggleRefusedAtBounds(active: seq<MetricKey>, key: MetricKey)
    requires (key in active && |active| <= MinActive) || (key !in active && |active| >= MaxActive)
    ensures Toggled(active, key) == active
  {
  }

  /** Toggling keeps a valid selection valid, so the active count stays in [3, 7]. */
  lemma ToggleKeepsSelectionValid(active: seq<MetricKey>, key: MetricKey)
    requires ValidSelection(active)
    ensures ValidSelection(Toggled(active, key))
  {
    if key in active {
      if |active| > MinActive {
        FilterPreservesDistinct(active, Other(key));
        FilterRemovesOne(active, key, Other(key));
      }
    } else if |active| < MaxActive {
      var r := active + [key];
      forall i, j | 0 <= i < j < |r| ensures r[i] != r[j] {
        if j == |active| {
          assert r[i] == active[i] && r[i] in active;
        } else {
          assert r[i] == active[i] && r[j] == active[j];
        }
      }
    }
  }

  /** Switching a key on and then off again restores the selection. */
  lemma ToggleOnThenOff(active: seq<MetricKey>, key: MetricKey)
    requires MinActive <= |active| < MaxActive && key !in active
    ensures Toggled(Toggled(active, key), key) == active
  {
    FilterAppend(active, [key], Other(key));
    FilterKeepsAll(active, Other(key));
  }

  /** The dashboard's current selection of radar metrics. */
  class ActiveMetrics {
    var keys: seq<MetricKey>

    ghost predicate Valid()
      reads this
    {
      ValidSelection(keys)
    }

    /** The selection starts as the default metrics. */
    constructor ()
      ensures Valid() && keys == DefaultActive
    {
      keys := DefaultActive;
    }

    /** A click on a metric's switch. */
    method Toggle(key: MetricKey)
      requires Valid()
      modifies this
      ensures Valid()
      ensures keys == Toggled(old(keys), key)
    {
      ToggleKeepsSelectionValid(keys, key);
      keys := Toggled(keys, key);
    }
  }
}
