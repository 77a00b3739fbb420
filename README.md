# Ping Pong Elo: the rating ledger

The model covers the rating ledger of the Ping Pong Elo dashboard (`main.py`). The ledger has three parts:

- a registry of players, each with a rating and counters for wins, losses and games;
- the Elo update that settles one match between a winner and a loser at a K-factor;
- a match log, kept most recent first.

The dashboard records a match from two typed names and shows a leaderboard sorted by rating, then wins, then fewest losses. It can also reset all data.

The model has four modules:

- `EloMath` (`elo_math.dfy`) holds the expected score and the rating changes. The power `10 ** x` is a parameter `pow10`. It is constrained by the facts of an exponential with base 10 (`IsPow10`), and `Pow10Exists` shows that those facts can be met.
- `Registry` (`registry.dfy`) holds the registry as a value:
  - `Registered` makes sure a name is present;
  - `Settled` writes one match's ratings and counters, in the order the source writes them;
  - zero-sum and balance lemmas.
- `Leaderboard` (`leaderboard.dfy`) holds the rows, the win rate, the three-key rank order and a stable insertion sort. The insertion order of the source's dictionary is the sequence `order`. Python's `list.sort` is stable even with `reverse=True`, so rows of equal rank stay in registration order.
- `Names` and `Ledger` (`ledger.dfy`):
  - `Names` holds the `str.strip()` name handling of the "Add Match Result" form.
  - `Ledger` holds the class `Ledger`. Its fields are the `players` map, the registration `order` and the `matches` log. Its methods update these in place, and its invariant `Valid` holds across every method.

## Model

| member | source | states |
|---|---|---|
| EloMath.Pow10Exists | main.py:35 | some function satisfies all the facts assumed of `10 ** x` (1 at 0, positive, inverse at opposite exponents, strictly increasing), so the assumptions are consistent |
| EloMath.ExpectedScore | main.py:34-35 | the expected score `1 / (1 + 10^((rb - ra) / 400))` lies strictly between 0 and 1, and is exactly 1/2 for equal ratings |
| EloMath.ExpectedScoresComplement | main.py:45-46 | the two sides' expected scores add up to 1, so the loser's expectation `1 - ea` is its own expected score |
| EloMath.ExpectedScoreMonotone | main.py:34-35 | a strictly higher own rating gives a strictly higher expected score against the same opponent |
| EloMath.EloDeltas | main.py:45-49 | the loser's change is the exact negative of the winner's; with K > 0 and 0 < ea < 1 the winner's gain lies strictly between 0 and K; at ea = 1/2 the gain is K/2 |
| EloMath.WinnerGain | main.py:42-48 | the winner's gain for two ratings is strictly between 0 and K when K > 0, and exactly K/2 for equal ratings |
| EloMath.WinnerGainAntitone | main.py:45-48 | with K > 0, a higher winner rating against the same loser earns a strictly smaller gain |
| Registry.Registered | main.py:24-31 | after get-or-create the name is registered and the key set grows by exactly that name; existing records are unchanged; an absent name gets rating 1200.0 and zero wins, losses and games |
| Registry.RegisteredBalanced | main.py:24-31 | get-or-create keeps `games == wins + losses` for every player |
| Registry.Settled | main.py:42-57 | the key set is unchanged and players other than the two are unchanged. For two different names: the winner gains the Elo gain and the loser loses it, so the pair's rating sum is unchanged; the winner's wins and games rise by 1 and the loser's losses and games rise by 1. With K > 0 the winner strictly rises by less than K and the loser strictly falls by less than K. Equal ratings transfer K/2. One name in both roles ends K/2 lower with +1 win, +1 loss and +2 games |
| Registry.SettledBalanced | main.py:54-57 | settling a match keeps `games == wins + losses` for every player |
| Registry.FirstMatchOfNewcomers | main.py:24-57 | two new players at K = 32: the winner ends with (1216.0, 1 win, 0 losses, 1 game) and the loser with (1184.0, 0, 1, 1) |
| Registry.SettledConservesTotal | main.py:48-52 | a match between two different players leaves the sum of all ratings in the registry unchanged |
| Leaderboard.WinRate | main.py:65-67 | the win rate is 0 when there are no games; otherwise `rate * games == wins * 100`; it lies in [0, 100] when `wins <= games` |
| Leaderboard.RowOf | main.py:68-77 | a row carries its player's name, and its win rate lies in [0, 100] for a balanced record |
| Leaderboard.RankOrder | main.py:78 | the key (rating, wins, -losses) compared descending is a total preorder, and equal keys are exactly mutual "ranks at least" |
| Leaderboard.InsertByRank | main.py:78 | inserting a row into a ranked list gives a ranked list with that row added (multiset) |
| Leaderboard.SortByRank | main.py:78 | the sort returns a ranked list that is a permutation of its input |
| Leaderboard.SortByRankStable | main.py:78 | the sort is stable: for every key, the rows with that key appear in the same order as in the input |
| Leaderboard.RowsOf | main.py:63-77 | the append loop yields one row per listed name, in the listed order, each the row of that player |
| Leaderboard.EnumeratesCovers | main.py:64 | a repetition-free list of registered names as long as the registry names every registered player |
| Leaderboard.RowsOfListsRegistry | main.py:63-77 | the unsorted rows list the registry exactly: every row belongs to a registered player, every player has a row, and no player has two |
| Leaderboard.PermutationListsRegistry | main.py:78 | sorting in place keeps "exactly one row per registered player", since that depends only on the multiset of rows |
| Leaderboard.Board | main.py:62-79 | the leaderboard is ranked non-increasingly by (rating, wins, -losses), has exactly one row per registered player, has as many rows as players, and keeps rows of equal key in registration order |
| Leaderboard.BoardWinRates | main.py:65-67 | with balanced records every win rate on the board lies in [0, 100] |
| Names.SkipSpaces | main.py:176 | the forward scan of `strip()` stops at the first character that is not whitespace, or at the end, and passes only whitespace |
| Names.SkipSpacesBack | main.py:176 | the backward scan of `strip()` stops after the last character that is not whitespace, never going below where the forward scan stopped, and passes only whitespace |
| Names.Trim | main.py:176 | `strip()` yields a slice of the input with only whitespace before and after it; the slice neither starts nor ends with whitespace, and it is empty exactly when the input is all whitespace |
| Names.TrimIdempotent | main.py:176-181 | stripping a stripped name changes nothing |
| Ledger.RegisteredOrder | main.py:25-26 | registering a name keeps the old order as a prefix and adds at most one name, and an order that lists every registered player exactly once still does so for the new registry |
| Ledger.EnumeratesRegistered | main.py:25-26 | appending a newly registered name keeps the order a repetition-free list of exactly the registered names |
| Ledger.ConsistentBalanced | main.py:54-57 | under the ledger invariant every registered player has `games == wins + losses` |
| Ledger.RegisterConsistent | main.py:24-31 | registering a new name keeps the ledger invariant |
| Ledger.SettleConsistent | main.py:38-57 | settling a match between registered names keeps the ledger invariant, including that every logged name is registered |
| Ledger.LogConsistent | main.py:187-196 | prepending a record whose names are registered keeps the ledger invariant |
| Ledger.Ledger.constructor | main.py:8-14 | a new ledger has no players, an empty order and an empty match log, and satisfies the invariant |
| Ledger.Ledger.GetOrCreatePlayer | main.py:24-31 | the registry becomes `Registered(old, name)`, the order becomes `RegisteredOrder(...)`, the log is untouched, and the invariant holds |
| Ledger.Ledger.Settle | main.py:42-59 | the in-place writes leave the registry equal to `Settled(old, ...)` and keep the invariant `Valid`; order and log are unchanged; it returns the winner's rating plus the gain, the loser's rating minus the gain, and the gain |
| Ledger.Ledger.UpdateElo | main.py:38-59 | both names are registered first and the match is then settled on that registry. The return value is (winner rating + gain, loser rating - gain, gain); for two different names these are the newly stored ratings. The order gains only newly created names, the log is untouched, and the invariant holds |
| Ledger.Ledger.RecordMatch | main.py:176-196 | a match is recorded exactly when the button is pressed and `Names.CanSubmit` holds: both stripped names are non-empty and they differ. The winner is the stripped name chosen by the radio button. The registry is then settled on those names, the registration order gains the winner and then the loser if they are new, and exactly one record (time, winner, loser, gain, K) is put in front of the older records. Otherwise nothing changes |
| Ledger.Ledger.LogMatch | main.py:187-196 | `insert(0, record)`: the log becomes the record followed by the old log; registry and order are unchanged |
| Ledger.Ledger.Reset | main.py:139-141 | the registry, the order and the log are empty afterwards whatever they held, so a second reset gives the same state |
| Ledger.Ledger.LeaderboardRows | main.py:62-79 | the loop builds one row per player in registration order and the stable sort ranks them. The result is `Board(players, order)`: ranked, one row per registered player, ties in registration order, and every win rate in [0, 100]. It changes nothing, so repeated calls return the same rows |

## Left out

- Streamlit presentation: page setup, title, sidebar, columns, text inputs and their default values, the radio button, `st.dataframe`, and the success and info messages. The button press and the radio choice are the `submit` and `aWins` parameters of `RecordMatch`.
- `load_credentials`: it reads secrets and environment variables.
- `render_login`, the log-out button and the `authed`/`auth_user` session fields: they are sign-in session handling around the ledger.
- `initialize_state` is the `Ledger` constructor. The `default_k` setting and the slider's 8–64 range are left out: K is any integer, and the properties that need it assume K > 0.
- The float power `10 ** x` is the parameter `pow10`, which is only known to satisfy `IsPow10`. All other arithmetic is exact over `real`, so floating-point rounding error is not modelled.
- EloMath.ExpectedScore: the model's `pow10` is total and positive, and its arithmetic is exact, so two float behaviours of the expected score at main.py:35 are not captured. First, when the loser leads the winner by more than about 123,000 points, the exponent passes about 308 and Python raises `OverflowError`. Both names are then already registered, but no rating, counter or log entry changes. Second, when the winner leads by more than about 6,400 points, `1.0 + 10 ** x` rounds to `1.0`. Then `ea` is exactly `1.0` and the winner gains `0`. So the source does not keep the strict bounds `0 < ea < 1` and `0 < gain` that the model proves.
- `round(..., 1)` on the row rating, the row win rate and the logged delta is not modelled. Rows and records carry the unrounded values. The source sorts on the rounded rating, so two ratings that round to the same tenth rank as a tie there but are ordered by the exact rating here.
- The `int(x) if x else 0` conversions in `leaderboard_rows` of the counters are the identity on the integer counters the ledger stores, so they are not modelled separately.
- The timestamp `datetime.now().strftime(...)`: it is the opaque `time` parameter of `RecordMatch`.
- Iteration order of the player dictionary: this is the `order` field, which lists names in first-registration order. The source gets this from Python dictionaries preserving insertion order.
