# SlackFPL leaderboard formatting, modelled in Dafny

SlackFPL is a small bot that reads the standings of one Fantasy Premier
League classic league and posts two leaderboards to a Slack channel: the
leaders of the current gameweek (ranked by `event_total`) and the season
standings (ranked by `total`). This project models the part of `app.js`
that turns the list of standings rows into those two messages:

- the rank badges (`emojiForGW`, `emojiForSeason`): crown, silver and
  bronze for the first three places, a last-place badge for the position
  just before the cut-off (a bin on the gameweek board, a frowning face on
  the season board), a smile for everyone else;
- the leaderboards (`formatGW`, `formatSeason`): copy the rows, sort the
  copy in place by descending key (stable), keep the first `TOP_N = 5` rows
  and append one line per row to a fixed header.

Modules, one per concern of `app.js`:

- `Standings` (standings.dfy): the row record, the two boards, `TOP_N`
  and the key a board ranks and prints.
- `Badges` (badges.dfy): the badge datatype, both badge functions, the
  emoji text of each badge.
- `Decimal` (decimal.dfy): how `${n}` prints an integer, with a parser as
  its inverse.
- `Ranking` (ranking.dfy): the stable descending order as a function
  (`SortedByKey`), its properties, and an in-place insertion sort on an
  array that produces it (`SortByKey`).
- `Leaderboard` (leaderboard.dfy): the message as a function (`Message`),
  the imperative `Format` and `Render` that build it with a loop, and the properties of
  the message.
- `Optional` (optional.dfy): `None`/`Some`, for the nullish `topN`.

The message is specified as the concatenation of a list of parts (the
header, then the lines), and the loop in `Render` keeps the invariant that
the message built so far is the concatenation of the first `i + 1` parts.

## Model

| member | source | states |
|---|---|---|
| Badges.EmojiForGW | app.js:17-24 | Positions 0, 1 and 2 get crown, silver and bronze, and only they do. The last-place bin is returned exactly when the position is at least 3 and equals `(topN ?? total) - 1`; every other position gets the neutral badge. |
| Badges.EmojiForSeason | app.js:26-33 | The same decision as the gameweek badge, with the season's frowning face as the last-place badge. |
| Badges.SeasonDiffersOnlyInLastBadge | app.js:17-33 | The season badge equals the gameweek badge on every input, except that the gameweek bin becomes the season frowning face (and only then). |
| Decimal.NatToDecimal | app.js:41 | The printed digits of a points value are never empty, are all decimal digits and have no leading zero (they start with '0' only for zero, which prints as "0"). |
| Decimal.IntToDecimal | app.js:41 | The printed points start with a minus sign exactly when they are negative, and the rest is all decimal digits. |
| Decimal.DecimalRoundTrip | app.js:41 | Reading back the printed points (optional minus sign, digits) gives the row's points for every integer. |
| Ranking.SortedByKeyCorrect | app.js:36 | The ranking is a permutation of the rows and is non-increasing in the key. For every key value, the rows with that key appear in their input order (the sort is stable). |
| Ranking.StableSortUnique | app.js:36 | Any permutation of the rows that is non-increasing in the key and keeps the input order among equal keys is exactly the ranking. So every stable descending sort, the built-in one included, gives this result. |
| Ranking.SortByKey | app.js:36 | Sorting the array in place leaves it holding the ranking of its old contents. |
| Leaderboard.RankedCopy | app.js:36 | `[...results].sort(...)` yields a freshly allocated array holding the ranking of `results`. `results` is not in any modifies clause, so it is left unchanged. |
| Leaderboard.Format | app.js:35-55 | The string the header-plus-`forEach` loop builds is the board's message for the rows `results` holds; `results` itself is not modified. |
| Leaderboard.Render | app.js:38-42 | Starting from the header and appending one line per shown row in rank order, the `forEach` loop ends with exactly the header followed by every line, line `i` carrying position `i`'s badge under the cut-off `TOP_N`. |
| Leaderboard.FormatGW | app.js:35-44 | `formatGW` returns the gameweek message, ranked and scored by `event_total`. |
| Leaderboard.FormatSeason | app.js:46-55 | `formatSeason` returns the season message, ranked and scored by `total`. |
| Leaderboard.MessageShape | app.js:38-42 | A message is its header followed by exactly min(TOP_N, number of rows) lines. Line `i` is the badge, two spaces, the player name, the entry name in asterisks and the row's points followed by " pts" and a blank line, where the row is the `i`-th ranked row. |
| Leaderboard.HeaderOnlyIffEmpty | app.js:38-43 | The message is the bare header if and only if there are no rows. |
| Leaderboard.BadgeOfLine | app.js:37-41 | Because the cut-off is always `TOP_N`, not the row count, the badge of shown line `i` is the crown, silver or bronze exactly for lines 0, 1 and 2, the neutral badge exactly for line 3 and the board's last-place badge exactly for line 4. Each line starts with its badge's text. |
| Leaderboard.LastPlaceShownIff | app.js:37-40 | Some shown line gets the last-place badge if and only if there are at least `TOP_N` rows. |
| Leaderboard.ShownRowsAreTop | app.js:36-39 | There are min(TOP_N, number of rows) shown rows; they come from `results`, are in non-increasing key order, and no row left out has a higher key than any row shown. |

## Left out

- `fetchStandings` (app.js:10-15): an HTTP request to the Fantasy Premier League API and JSON parsing; network I/O, so the rows are a parameter of the model.
- `postMessages` (app.js:57-82) and the Slack `WebClient` (app.js:2-4): sending the gameweek message, a spacer and the season message through a library whose code is not part of this model.
- The `dotenv` configuration, the environment constants and the top-level call `postMessages().catch(console.error)` (app.js:1, app.js:4-7, app.js:84): process plumbing.
- ecosystem.config.cjs: process-manager configuration with no logic.
- Points are mathematical integers. JavaScript numbers are doubles, so the comparator `b.key - a.key` and `${n}` are modelled only for integral values; exponent notation (from 1e21 up) and fractional values are not modelled.
- Ranking.SortByKey: the built-in `Array.prototype.sort` is not visible; it is modelled by an insertion sort. `StableSortUnique` shows that any stable descending sort returns the same order.
- `TOP_N ?? sorted.length` (app.js:37, app.js:48): `TOP_N` is the constant 5 and is never null, so the cut-off is modelled as `TOP_N`. The `??` of the badge functions themselves (app.js:21, app.js:30) is modelled in full.
- Badges.EmojiForGW: positions are natural numbers (they are `forEach` indices), so negative positions are not modelled.
