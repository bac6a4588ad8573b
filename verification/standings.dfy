/**
 * The data the leaderboard formatter works on: one row of the league's
 * classic standings, and which of the two boards (this gameweek's scores
 * or the season's running totals) a message is about.
 */
module Standings {

  /** How many rows each message shows (`TOP_N` in app.js). It is never null,
      so `TOP_N ?? sorted.length` always yields it. */
  const TOP_N: nat := 5

  /** One entry of `standings.results`: the manager, the team name, the
      points scored this gameweek and the season total. */
  datatype Row = Row(playerName: string, entryName: string, eventTotal: int, total: int)

  /** The gameweek board ranks and shows `event_total`; the season board `total`. */
  datatype Board = Gameweek | Season

  /** The points a board sorts by and prints for a row. */
  function Points(board: Board, row: Row): int
  {
    match board
    case Gameweek => row.eventTotal
    case Season => row.total
  }

  function Min(a: nat, b: nat): (m: nat)
    ensures m <= a && m <= b && (m == a || m == b)
  {
    if a <= b then a else b
  }
}
