# Pitch tracker: statistics engine and game store

A Dafny model of the logic behind a small dashboard that records the results
of a recurring card game ("Pitch") among five fixed players (Matt, Seth, Mack,
Arnav, Henry) and derives per-player statistics from them.

What is modelled:

- **The statistics engine `calcStats`** (`stats.dfy`, module `Stats`): a pure
  fold over the ordered game list. For each player it selects the games played
  (result not null), the wins (result > 0), the losses (result < 0), the big
  games (|result| >= 4), the last 15 played games and the big wins, and derives
  counts, gross winnings and losses, net, the legacy "sets" figures
  `|lossAmt + 2*lost|` and `|winnings - 2*won|`, and seven rates and averages
  each guarded against a zero denominator.
- **The cumulative net scan `calcCumulative`** (`cumulative.dfy`, module
  `Cumulative`): a loop that carries one running total per player and emits
  one chart row per game.
- **The add-game form's `validate`** (`entry_form.dfy`, module `EntryForm`):
  at least two scores must be filled and they must sum to zero within 0.01.
- **The radar chart's `toggleMetric` and `scale` functions** (`radar.dfy`,
  module `Radar`): the active metric list is kept between 3 and 7 of the 8
  metrics; each metric is clamped onto a 0-100 axis with 50 as break-even.
  The React state cell holding the active list is the class
  `Radar.ActiveMetrics`.
- **The server's list operations** (`game_store.dfy`, module `GameStore`): the
  POST handler assigns id = max id + 1 (1 for an empty list), maps every empty
  field to null, and appends; the DELETE handler finds the first game with the
  id and splices it out, or answers "not found". The stored list is the
  `seq` field of the class `GameStore.Store`.

Shared definitions are in `games.dfy` (module `Games`: players, the
per-player record `PerPlayer<T>`, a game, a player's total over a list of
games) and `sequences.dfy` (module `Sequences`: `filter`, `slice(-n)`,
subsequence, duplicate-freedom).

Modelling choices:

- Scores are modelled as integers (every result in the seed data is a whole
  dollar amount); the source stores whatever `Number` makes of a field,
  decimals included. Rates and averages are the
  exact, unrounded `real` quotients; the `toFixed` rounding of the display is
  not modelled.
- A form field or request-body field is `Blank` (the empty string) or
  `Entered(n)` (a string already converted by `Number`).
- Ids are assigned as the largest present id plus one, not from a counter, so
  they can be handed out again: appending, deleting that game and appending
  again gives the same id twice (`GameStore.IdReusedAfterUndo`), and after the
  game with the largest id is deleted the next id is no larger than the deleted
  one when ids are unique (`GameStore.DeletingMaxLowersNextId`). Deleting a
  game whose id is below the largest leaves the next id unchanged
  (`GameStore.DeletingBelowMaxKeepsNextId`); `GameStore.IdsFromEmpty` is a
  worked example of both.
- `toggleMetric` removes a key with `filter`, which would drop every copy of
  it; the bound of at least three active metrics therefore relies on the list
  never holding a key twice, which toggling preserves
  (`Radar.ToggleKeepsSelectionValid`).

## Model

| member | source | states |
|---|---|---|
| `Sequences.Filter` | client/src/App.jsx:27-29 | `filter` never lengthens a list; membership (`FilterMembers`), order (`FilterIsSubsequence`) and duplicate-freedom (`FilterPreservesDistinct`) are stated by the lemmas beside it |
| `Games.Total` | client/src/App.jsx:30-31 | the `reduce` of a player's results with null counting 0; additive over concatenation (`TotalAppend`) and grows by one game's result per prefix step (`TotalOfPrefix`) |
| `Stats.CalcStats` | client/src/App.jsx:25-58 | one player's row of the table; its meaning is stated by the `Stats` lemmas below (`PlayedPartition`, `AmountBounds`, `QuotientFields`, `ZeroDenominators`, `RatesInRange`, `RecentWindowIsSuffix`) |
| `Stats.CalcAllStats` | client/src/App.jsx:26 | the table holds `CalcStats` for each of the five players; `NetsBalance` states that their nets cancel in zero-sum play |
| `Sequences.TakeLast` | client/src/App.jsx:47 | `slice(-15)`: the result has min(15, n) elements and the input is some prefix followed by the result |
| `Stats.PlayedPartition` | client/src/App.jsx:27-29 | played, wins and losses are order-preserving subsequences; every played game has a non-null result, every win is > 0 and not a loss, every loss < 0; a zero result is played but neither; won + lost <= games |
| `Stats.CountsNest` | client/src/App.jsx:44-51 | big wins <= big games <= games played; recent wins <= recent window <= games played; won and lost are each at most games played |
| `Stats.AmountBounds` | client/src/App.jsx:30-32 | winnings >= won >= 0; losses <= -lost <= 0; net == winnings + losses exactly, and net is the player's total over all games |
| `Stats.WinningsBound` | client/src/App.jsx:28-30 | gross winnings are at least the number of wins (each win is at least $1) |
| `Stats.LossesBound` | client/src/App.jsx:29-31 | the loss total is at most minus the number of losses |
| `Stats.NetIsTotal` | client/src/App.jsx:30-32 | net equals winnings plus losses and equals the player's sum of all non-null results |
| `Games.BalancedGamesTotalZero` | client/src/App.jsx:26-32 | when every game's results sum to 0, so does the grand total over all players and games |
| `Stats.SetsBeyondBaseStake` | client/src/App.jsx:34-36 | when every loss is at least $2, setsPaid == -(lossAmt + 2*lost) (what was paid beyond the $2 base); when every win is at least $2, setsReceived == winnings - 2*won |
| `Stats.Ratio` | client/src/App.jsx:33-42 | a guarded quotient is 0 for a zero denominator and otherwise times the denominator gives back the numerator |
| `Stats.Percent` | client/src/App.jsx:45-51 | a guarded percentage is 0 for a zero whole, otherwise times the whole gives 100 * part, and lies in [0, 100] when part <= whole |
| `Stats.QuotientFields` | client/src/App.jsx:33-51 | ppg, setsRatio, avgWinSize, avgLossSize are the guarded quotients net/games, setsReceived/setsPaid, winnings/won, abs(losses)/lost; bigGameRate, recentForm, clutchRate are the guarded percentages of big games, recent wins and big wins |
| `Stats.ZeroDenominators` | client/src/App.jsx:33-51 | every rate and average is 0, with no error, when its own denominator (games, setsPaid, won, lost, big games) is 0 |
| `Stats.NoGamesAllZero` | client/src/App.jsx:25-58 | a player with no games played has every count, sum and rate 0 |
| `Stats.RatesInRange` | client/src/App.jsx:44-51 | bigGameRate, recentForm and clutchRate lie in [0, 100] |
| `Stats.RecentWindowIsSuffix` | client/src/App.jsx:47-48 | the recent window is the suffix of the played games of length min(15, played); with at most 15 games played recent form equals the overall win rate |
| `Stats.NetsBalance` | client/src/App.jsx:25-32 | when every game is zero-sum, the five players' nets add up to 0 |
| `Stats.EmptyHistory` | client/src/App.jsx:25-58 | an empty game list gives all-zero statistics |
| `Stats.WinThenLoseFive` | client/src/App.jsx:25-58 | worked example: +5 then -5 gives played 2, won 1, lost 1, net 0, ppg 0, setsPaid 3, setsReceived 3, setsRatio 1, bigGameRate 100, clutchRate 50, recentForm 50 |
| `Cumulative.AddGame` | client/src/App.jsx:64 | after one game every player's running total grows by their result, and is unchanged for a player who sat out |
| `Cumulative.CalcCumulative` | client/src/App.jsx:61-67 | the rows form the chart of the games: one row per game; row i is numbered i + 1 and holds each player's sum of non-null results over games 0..i |
| `Cumulative.RowToRow` | client/src/App.jsx:64-65 | in any such chart each row is the previous row (0 before the first) plus the game's results; a player who sat the game out keeps the previous running net |
| `Cumulative.LastRowIsNet` | client/src/App.jsx:61-66 | in any such chart the last row's value for a player equals the net column of the statistics table |
| `EntryForm.Filled` | client/src/App.jsx:103 | the players whose field is not empty, in player order; `FilledMembers` and `FilledMatchesFields` state its contents and length |
| `EntryForm.FilledMembers` | client/src/App.jsx:103 | a player is in the filtered list exactly when their field is not empty |
| `EntryForm.SumOf` | client/src/App.jsx:105 | the `reduce` over the filled players; `FilledMatchesFields` equates it with the sum of every entered score |
| `EntryForm.Validate` | client/src/App.jsx:102-108 | the form check; `ValidateAcceptsExactly` states when it accepts and which error it gives otherwise |
| `EntryForm.FilledMatchesFields` | client/src/App.jsx:103-105 | the filtered player list has one entry per non-empty field and its reduce is the sum of all entered scores |
| `EntryForm.ValidateAcceptsExactly` | client/src/App.jsx:102-108 | validate returns no error iff at least two scores are filled and they sum to 0; too-few-scores iff fewer than two are filled; a sum error carries the (non-zero) sum |
| `Radar.Clamp` | client/src/App.jsx:338 | the result lies in [0, 100], equals the input inside that range and the nearer bound outside it |
| `Radar.Scale` | client/src/App.jsx:338-394 | every metric's scaled value lies in [0, 100] |
| `Radar.ScaleAnchors` | client/src/App.jsx:344-394 | the documented axis ends: PPG 0 at or below -$2 and 100 at or above +$2; sets ratio 0 at or below 0x and 100 at or above 2x; average win 0 at or below $0 and 100 at $4 or more; loss control 100 at a $2 average loss or less and 0 at $6 or more; percentages pinned at 0 and 100 |
| `Radar.MetricValue` | client/src/App.jsx:337-393 | the statistic each axis plots; `PercentagesUnclamped` states that the four percentage axes plot it unclamped |
| `Radar.MidpointIsNeutral` | client/src/App.jsx:330-394 | the axis midpoint 50 is reached exactly at each metric's break-even value ($0/game, ratio 1, $2 win, $4 loss, 50%) |
| `Radar.ScaleMonotone` | client/src/App.jsx:338-394 | scaling preserves the order of values, reversed for loss control |
| `Radar.PercentagesUnclamped` | client/src/App.jsx:337-394 | for win rate, big-game rate, recent form and clutch rate the clamp never changes the plotted statistic |
| `Radar.Toggled` | client/src/App.jsx:401-405 | the new active list after a toggle: every key other than the toggled one is active afterwards exactly when it was before |
| `Radar.ToggleEffect` | client/src/App.jsx:401-405 | toggling leaves every other key's membership unchanged; the toggled key is active afterwards iff it was active with at most 3 keys or inactive with fewer than 7 |
| `Radar.ToggleRefusedAtBounds` | client/src/App.jsx:401-405 | removing at 3 keys or adding at 7 returns the list unchanged |
| `Radar.ToggleKeepsSelectionValid` | client/src/App.jsx:401-405 | a duplicate-free list of 3 to 7 keys stays duplicate-free with 3 to 7 keys |
| `Radar.ToggleOnThenOff` | client/src/App.jsx:401-405 | switching an inactive key on and off again restores the list |
| `Radar.ActiveMetrics.constructor` | client/src/App.jsx:399-400 | the selection starts as the five default metrics, a valid selection |
| `Radar.ActiveMetrics.Toggle` | client/src/App.jsx:401-405 | the new list is the toggled old list, and the selection stays valid |
| `GameStore.Stored` | server/index.js:96-100 | a field is stored as null exactly when it is the empty string, otherwise as its number |
| `GameStore.StoredScores` | server/index.js:96-100 | each player's stored result is the stored form of their field |
| `GameStore.MaxId` | server/index.js:95 | the result is an id present in the list and no id exceeds it |
| `GameStore.NextId` | server/index.js:95 | the new id exceeds every id present; it is 1 for an empty list and otherwise one more than an id present |
| `GameStore.NewGame` | server/index.js:94-101 | the new record's id is above every id present, and each player's result is the stored form of their field |
| `GameStore.RemoveAt` | server/index.js:113 | the splice removes exactly the game at the position: the old list is the new one plus that game, as multisets |
| `GameStore.FindIndex` | server/index.js:111 | -1 iff no game has the id; otherwise a position holding the id with no earlier one |
| `GameStore.Store.Append` | server/index.js:91-105 | the returned game has the next id and the stored scores; it is appended and nothing else changes; unique ids stay unique |
| `GameStore.Store.Delete` | server/index.js:108-116 | an absent id answers not-found and leaves the list unchanged; otherwise the first game with the id is returned and spliced out; unique ids stay unique |
| `GameStore.AppendKeepsIdsUnique` | server/index.js:95-102 | appending under the next id keeps ids unique |
| `GameStore.RemoveAtKeepsOthers` | server/index.js:113 | splicing shortens the list by one and keeps the other games in their order |
| `GameStore.DeleteKeepsIdsUnique` | server/index.js:111-113 | deleting keeps ids unique, and the deleted id is not found again |
| `GameStore.DeletingMaxLowersNextId` | server/index.js:95-113 | with unique ids, after deleting the game with the largest id the next id is at most the deleted id: ids are not monotonic |
| `GameStore.DeletingBelowMaxKeepsNextId` | server/index.js:95-113 | deleting a game whose id is below the largest leaves the next id unchanged |
| `GameStore.IdReusedAfterUndo` | server/index.js:95-113 | appending a game, deleting it and appending again assigns the same id twice |
| `GameStore.IdsFromEmpty` | server/index.js:95-113 | from an empty list two appends get ids 1 and 2; after deleting id 1 the next id is 3 |
| `GameStore.AcceptedEntryIsZeroSum` | server/index.js:96-100 | a game the form accepts is stored as a zero-sum record with at least two players present |

## Left out

- Rendering: React components, hooks, styles, the recharts charts, tooltips, labels and each metric's `fmt` (client/src/App.jsx:69-652 apart from the functions above).
- Networking: `fetch` calls, Express routing, CORS, `app.listen`, and the GET handler, which only returns the stored list.
- Persistence: `readDB`/`writeDB`, the seed file, and the race between concurrent read-modify-write requests. The store is an in-memory list.
- Rounding: `toFixed` and floating-point division. Rates are exact reals and the running totals exact integers.
- `Stats.QuotientFields`: states the unrounded quotients; the displayed values are rounded to 1-3 decimals.
- `Radar.PercentagesUnclamped`: proved for the unrounded percentages only.
- `Number` coercion: a non-numeric or missing request field becomes `NaN` (stored as null by JSON); a field sent as JSON `null` passes the empty-string test and is stored as `Number(null)`, i.e. 0, a played zero result; decimal scores and the non-integer use of the 0.01 tolerance are not modelled. Fields are modelled only as empty or numeric.
- The exact text of `validate`'s two messages; the model returns which of the two it is and the offending sum.
- The client's own copy of the list after add or delete (client/src/App.jsx:317-320). It is a UI cache of the server list.
