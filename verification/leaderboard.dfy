/**
 * The two leaderboard messages (`formatGW` and `formatSeason`): a header,
 * then one line per row of the top `TOP_N` rows of the ranking, each line
 * a badge, the manager, the team name in bold and the points.
 */
module Leaderboard {
  import opened Optional
  import opened Standings
  import opened Badges
  import opened Decimal
  import opened Ranking

  /** The first line of each message, followed by two blank lines. */
  function Header(board: Board): string
  {
    match board
    case Gameweek => "\U{26A1} Current Gameweek Leaders:\n\n\n"
    case Season => "\U{1F3C6} League Standings:\n\n\n"
  }

  /** Line `i` of a board whose ranking has `total` rows and whose
      cut-off is `cutoff`. */
  function EntryLine(board: Board, i: nat, row: Row, total: nat, cutoff: int): string
  {
    BadgeText(BadgeFor(board, i, total, Some(cutoff))) + "  " + row.playerName
      + ", *" + row.entryName + "*, " + IntToDecimal(Points(board, row)) + " pts\n\n"
  }

  /** The lines one after the other. */
  function Concat(lines: seq<string>): string
    decreases |lines|
  {
    if lines == [] then "" else Concat(lines[..|lines| - 1]) + lines[|lines| - 1]
  }

  /** `sorted.slice(0, cutoff)` with `cutoff == TOP_N`: the rows a message shows. */
  function Shown(board: Board, results: seq<Row>): seq<Row>
  {
    var sorted := SortedByKey(board, results);
    sorted[..Min(TOP_N, |sorted|)]
  }

  /** One line per shown row, numbered from 0 in ranking order. */
  function EntryLines(board: Board, shown: seq<Row>, total: nat): seq<string>
  {
    seq(|shown|, i requires 0 <= i < |shown| => EntryLine(board, i, shown[i], total, TOP_N))
  }

  /** The message `formatGW` (gameweek) or `formatSeason` (season) returns. */
  function Message(board: Board, results: seq<Row>): string
  {
    Concat([Header(board)] + EntryLines(board, Shown(board, results), |results|))
  }

  lemma EntryLinesAt(board: Board, shown: seq<Row>, total: nat, i: nat)
    requires i < |shown|
    ensures EntryLines(board, shown, total)[i] == EntryLine(board, i, shown[i], total, TOP_N)
  {
  }

  lemma ConcatPrefix(lines: seq<string>, i: nat)
    requires i < |lines|
    ensures Concat(lines[..i + 1]) == Concat(lines[..i]) + lines[i]
  {
    assert lines[..i + 1][..i] == lines[..i];
  }

  lemma MessageOfRows(board: Board, results: seq<Row>, rows: seq<Row>)
    requires rows == Shown(board, results)
    ensures Message(board, results) == Concat([Header(board)] + EntryLines(board, rows, |results|))
  {
  }

  /** `[...results].sort(...)`: a fresh copy of `results`, ranked in place. */
  method RankedCopy(board: Board, results: array<Row>) returns (sorted: array<Row>)
    ensures fresh(sorted)
    ensures sorted[..] == SortedByKey(board, results[..])
  {
    sorted := new Row[results.Length](i requires 0 <= i < results.Length reads results => results[i]);
    assert sorted[..] == results[..];
    SortByKey(board, sorted);
  }

  /** The `forEach` loop: appends one line per row of `top` to the header. */
  method Render(board: Board, top: seq<Row>, total: nat) returns (message: string)
    ensures message == Concat([Header(board)] + EntryLines(board, top, total))
  {
    ghost var parts := [Header(board)] + EntryLines(board, top, total);
    message := Header(board);
    assert parts[..1] == [message];
    for i := 0 to |top|
      invariant message == Concat(parts[..i + 1])
    {
      EntryLinesAt(board, top, total, i);
      message := message + EntryLine(board, i, top[i], total, TOP_N);
      ConcatPrefix(parts, i + 1);
    }
    assert parts[..|top| + 1] == parts;
  }

  /** Copies `results`, ranks the copy, slices off its first `TOP_N` rows
      and renders them. `results` itself is left as it was: the method may
      modify nothing that existed before it was called. */
  method Format(board: Board, results: array<Row>) returns (message: string)
    ensures message == Message(board, results[..])
  {
    var sorted := RankedCopy(board, results);
    var top := sorted[..Min(TOP_N, sorted.Length)];
    message := Render(board, top, sorted.Length);
    assert sorted.Length == results.Length by {
      SortedByKeyPermutation(board, results[..]);
    }
    MessageOfRows(board, results[..], top);
  }

  /** `formatGW`: the gameweek leaderboard, ranked and scored by `event_total`. */
  method FormatGW(results: array<Row>) returns (message: string)
    ensures message == Message(Gameweek, results[..])
  {
    message := Format(Gameweek, results);
  }

  /** `formatSeason`: the season standings, ranked and scored by `total`. */
  method FormatSeason(results: array<Row>) returns (message: string)
    ensures message == Message(Season, results[..])
  {
    message := Format(Season, results);
  }

  lemma {:induction false} ConcatCons(h: string, lines: seq<string>)
    ensures Concat([h] + lines) == h + Concat(lines)
    decreases |lines|
  {
    if lines != [] {
      var init := lines[..|lines| - 1];
      ConcatCons(h, init);
      assert ([h] + lines)[..|lines|] == [h] + init;
    } else {
      assert [h] + lines == [h];
      assert [h][..0] == [];
    }
  }

  /** A message is its board's header followed by exactly
      `min(TOP_N, |results|)` lines, line `i` showing the row of rank `i`
      with that row's points. */
  lemma MessageShape(board: Board, results: seq<Row>)
    ensures var shown := Shown(board, results);
      && |shown| == Min(TOP_N, |results|)
      && Message(board, results) == Header(board) + Concat(EntryLines(board, shown, |results|))
      && |EntryLines(board, shown, |results|)| == |shown|
      && forall i :: 0 <= i < |shown| ==>
           EntryLines(board, shown, |results|)[i]
             == BadgeText(BadgeFor(board, i, |results|, Some(TOP_N))) + "  " + shown[i].playerName
                + ", *" + shown[i].entryName + "*, " + IntToDecimal(Points(board, shown[i])) + " pts\n\n"
  {
    SortedByKeyPermutation(board, results);
    ConcatCons(Header(board), EntryLines(board, Shown(board, results), |results|));
  }

  /** The message is the bare header exactly when there are no rows. */
  lemma HeaderOnlyIffEmpty(board: Board, results: seq<Row>)
    ensures Message(board, results) == Header(board) <==> results == []
  {
    var lines := EntryLines(board, Shown(board, results), |results|);
    MessageShape(board, results);
    if results != [] {
      var last := lines[|lines| - 1];
      assert |last| > 0 by {
        EntryLinesAt(board, Shown(board, results), |results|, |lines| - 1);
      }
      assert |Concat(lines)| >= |last|;
    }
  }

  /** Each line starts with the text of its badge. */
  lemma LineStartsWithBadge(board: Board, i: nat, row: Row, total: nat, cutoff: int)
    ensures var t := BadgeText(BadgeFor(board, i, total, Some(cutoff)));
      EntryLine(board, i, row, total, cutoff)[..|t|] == t
  {
    var t := BadgeText(BadgeFor(board, i, total, Some(cutoff)));
    var line := EntryLine(board, i, row, total, cutoff);
    forall j | 0 <= j < |t| ensures line[j] == t[j] {
    }
  }

  /** Medals go to the first three lines; the last-place badge goes to the
      fifth line and to no other: the cut-off is always `TOP_N`, never the
      row count. Each line starts with the text of its badge. */
  lemma BadgeOfLine(board: Board, results: seq<Row>, i: nat)
    requires i < |Shown(board, results)|
    ensures var b := BadgeFor(board, i, |results|, Some(TOP_N));
      && (b == Crown <==> i == 0)
      && (b == Silver <==> i == 1)
      && (b == Bronze <==> i == 2)
      && (b == Neutral <==> i == 3)
      && (b == Last(board) <==> i == TOP_N - 1)
      && EntryLines(board, Shown(board, results), |results|)[i][..|BadgeText(b)|] == BadgeText(b)
  {
    var shown := Shown(board, results);
    EntryLinesAt(board, shown, |results|, i);
    LineStartsWithBadge(board, i, shown[i], |results|, TOP_N);
  }

  /** Some line carries the last-place badge exactly when there are at
      least `TOP_N` rows. */
  lemma LastPlaceShownIff(board: Board, results: seq<Row>)
    ensures (exists i :: 0 <= i < |Shown(board, results)| && BadgeFor(board, i, |results|, Some(TOP_N)) == Last(board))
        <==> |results| >= TOP_N
  {
    SortedByKeyPermutation(board, results);
    if |results| >= TOP_N {
      BadgeOfLine(board, results, TOP_N - 1);
    } else {
      forall i | 0 <= i < |Shown(board, results)|
        ensures BadgeFor(board, i, |results|, Some(TOP_N)) != Last(board)
      {
        BadgeOfLine(board, results, i);
      }
    }
  }

  /** The shown rows are rows of `results`, in non-increasing order, and
      none of the rows left out has a higher key than any row shown. */
  lemma ShownRowsAreTop(board: Board, results: seq<Row>)
    ensures var shown := Shown(board, results);
      && |shown| == Min(TOP_N, |results|)
      && multiset(shown) <= multiset(results)
      && NonIncreasing(board, shown)
      && forall r :: r in multiset(results) - multiset(shown) ==>
           forall i :: 0 <= i < |shown| ==> Points(board, shown[i]) >= Points(board, r)
  {
    var sorted := SortedByKey(board, results);
    SortedByKeyPermutation(board, results);
    SortedByKeyOrdered(board, results);
    PrefixDominates(board, sorted, Min(TOP_N, |sorted|));
  }

  /** The first `k` rows of a non-increasing ranking are a sub-multiset of
      it, still non-increasing, and at least as high as every other row. */
  lemma PrefixDominates(board: Board, sorted: seq<Row>, k: nat)
    requires NonIncreasing(board, sorted) && k <= |sorted|
    ensures multiset(sorted[..k]) <= multiset(sorted)
    ensures NonIncreasing(board, sorted[..k])
    ensures forall r :: r in multiset(sorted) - multiset(sorted[..k]) ==>
              forall i :: 0 <= i < k ==> Points(board, sorted[i]) >= Points(board, r)
  {
    var shown, rest := sorted[..k], sorted[k..];
    assert sorted == shown + rest;
    assert multiset(sorted) == multiset(shown) + multiset(rest);
    forall r | r in multiset(sorted) - multiset(shown)
      ensures forall i :: 0 <= i < k ==> Points(board, sorted[i]) >= Points(board, r)
    {
      assert r in multiset(rest);
      var j :| 0 <= j < |rest| && rest[j] == r;
      assert sorted[k + j] == r;
    }
  }
}
