/**
 * The rank badge printed in front of each leaderboard line: a medal for the
 * first three places, a "last place" badge for the position just before the
 * cut-off, and a neutral face for everyone else.
 */
module Badges {
  import opened Optional
  import opened Standings

  /** Crown, silver and bronze medals; the last-place badge (a bin on the
      gameweek board, a frowning face on the season board); a neutral smile. */
  datatype Badge = Crown | Silver | Bronze | Last(board: Board) | Neutral

  /** `topN ?? total`: the explicit cut-off when one is given, else the row count. */
  function Cutoff(total: nat, topN: Option<int>): int
  {
    match topN
    case Some(n) => n
    case None => total
  }

  /** The badge for position `i` of the gameweek board (`emojiForGW`). The
      medals are decided before the cut-off, so they win even when the
      cut-off falls on one of the first three positions. */
  function EmojiForGW(i: nat, total: nat, topN: Option<int>): (b: Badge)
    ensures i == 0 <==> b == Crown
    ensures i == 1 <==> b == Silver
    ensures i == 2 <==> b == Bronze
    ensures b == Last(Gameweek) <==> 3 <= i && i == Cutoff(total, topN) - 1
    ensures b == Neutral <==> 3 <= i && i != Cutoff(total, topN) - 1
  {
    if i == 0 then Crown
    else if i == 1 then Silver
    else if i == 2 then Bronze
    else
      var cutoff := Cutoff(total, topN);
      if i == cutoff - 1 then Last(Gameweek)
      else Neutral
  }

  /** The badge for position `i` of the season board (`emojiForSeason`). */
  function EmojiForSeason(i: nat, total: nat, topN: Option<int>): (b: Badge)
    ensures i == 0 <==> b == Crown
    ensures i == 1 <==> b == Silver
    ensures i == 2 <==> b == Bronze
    ensures b == Last(Season) <==> 3 <= i && i == Cutoff(total, topN) - 1
    ensures b == Neutral <==> 3 <= i && i != Cutoff(total, topN) - 1
  {
    if i == 0 then Crown
    else if i == 1 then Silver
    else if i == 2 then Bronze
    else
      var cutoff := Cutoff(total, topN);
      if i == cutoff - 1 then Last(Season)
      else Neutral
  }

  /** The two badge functions agree everywhere except on the last-place
      badge, which carries the board it was chosen for. */
  lemma SeasonDiffersOnlyInLastBadge(i: nat, total: nat, topN: Option<int>)
    ensures EmojiForGW(i, total, topN) == Last(Gameweek) <==> EmojiForSeason(i, total, topN) == Last(Season)
    ensures !EmojiForGW(i, total, topN).Last? ==> EmojiForSeason(i, total, topN) == EmojiForGW(i, total, topN)
  {
  }

  /** The badge a board's line gets. */
  function BadgeFor(board: Board, i: nat, total: nat, topN: Option<int>): (b: Badge)
  {
    match board
    case Gameweek => EmojiForGW(i, total, topN)
    case Season => EmojiForSeason(i, total, topN)
  }

  /** The emoji text of a badge. The bin and the frowning face carry the
      variation selector U+FE0F, as in the source. */
  function BadgeText(b: Badge): string
  {
    match b
    case Crown => "\U{1F451}"
    case Silver => "\U{1F948}"
    case Bronze => "\U{1F949}"
    case Last(Gameweek) => "\U{1F5D1}\U{FE0F}"
    case Last(Season) => "\U{2639}\U{FE0F}"
    case Neutral => "\U{1F642}"
  }
}
