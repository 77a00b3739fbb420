/**
 * The leaderboard derived from the registry (main.py, `leaderboard_rows`): one row per
 * player, ranked by rating, then wins, then fewest losses, highest first.  Python's
 * `list.sort` is stable even with `reverse=True`, so rows of equal rank keep the order
 * in which the registry lists the players; `SortByRank` is a stable insertion sort.
 */
module Leaderboard {
  import opened Registry

  /** One line of the leaderboard; the rating and the win rate are kept unrounded. */
  datatype Row = Row(name: string, rating: real, games: nat, wins: nat, losses: nat, winRate: real)

  /** Percentage of games won, and 0 for a player with no games. */
  function WinRate(wins: nat, games: nat): (r: real)
    ensures games == 0 ==> r == 0.0
    ensures games > 0 ==> r * games as real == wins as real * 100.0
    ensures wins <= games ==> 0.0 <= r <= 100.0
  {
    if games > 0 then wins as real / games as real * 100.0 else 0.0
  }

  /** The row shown for player `name` with record `p`. */
  function RowOf(name: string, p: Player): (r: Row)
    ensures r.name == name
    ensures Balanced(p) ==> 0.0 <= r.winRate <= 100.0
  {
    Row(name, p.rating, p.games, p.wins, p.losses, WinRate(p.wins, p.games))
  }

  /**
   * `x` ranks at least as high as `y` under the key (rating, wins, -losses) compared
   * lexicographically: higher rating first, then more wins, then fewer losses.
   */
  predicate RanksAtLeast(x: Row, y: Row) {
    || x.rating > y.rating
    || (x.rating == y.rating && x.wins > y.wins)
    || (x.rating == y.rating && x.wins == y.wins && x.losses <= y.losses)
  }

  /** `x` and `y` have equal keys. */
  predicate SameRank(x: Row, y: Row) {
    x.rating == y.rating && x.wins == y.wins && x.losses == y.losses
  }

  /** The rank order is a total preorder: any two rows compare, and it is transitive. */
  lemma RankOrder(x: Row, y: Row, z: Row)
    ensures RanksAtLeast(x, y) || RanksAtLeast(y, x)
    ensures RanksAtLeast(x, y) && RanksAtLeast(y, z) ==> RanksAtLeast(x, z)
    ensures SameRank(x, y) <==> RanksAtLeast(x, y) && RanksAtLeast(y, x)
  {
  }

  /** Every row ranks at least as high as every row after it. */
  predicate SortedByRank(rows: seq<Row>) {
    forall i, j :: 0 <= i < j < |rows| ==> RanksAtLeast(rows[i], rows[j])
  }

  /** A row that ranks at least as high as every row of a ranked list can lead it. */
  lemma ConsSorted(h: Row, rest: seq<Row>)
    requires SortedByRank(rest)
    requires forall y :: y in multiset(rest) ==> RanksAtLeast(h, y)
    ensures SortedByRank([h] + rest)
  {
    forall j | 0 <= j < |rest| ensures RanksAtLeast(h, rest[j]) {
      assert rest[j] in multiset(rest);
    }
  }

  /** The head of a ranked list ranks at least as high as everything in its tail. */
  lemma HeadRanksFirst(sorted: seq<Row>)
    requires SortedByRank(sorted) && sorted != []
    ensures forall y :: y in multiset(sorted[1..]) ==> RanksAtLeast(sorted[0], y)
  {
    forall y | y in multiset(sorted[1..]) ensures RanksAtLeast(sorted[0], y) {
      var j :| 0 <= j < |sorted[1..]| && sorted[1..][j] == y;
      assert sorted[j + 1] == y;
    }
  }

  /** A row that does not rank below the head of a ranked list ranks above all of it. */
  lemma AboveHead(x: Row, sorted: seq<Row>)
    requires SortedByRank(sorted) && sorted != []
    requires !RanksAtLeast(sorted[0], x)
    ensures forall y :: y in multiset(sorted) ==> RanksAtLeast(x, y)
  {
    forall y | y in multiset(sorted) ensures RanksAtLeast(x, y) {
      var j :| 0 <= j < |sorted| && sorted[j] == y;
      RankOrder(x, sorted[0], sorted[j]);
    }
  }

  /**
   * Inserts `x` into a ranked list after every row that ranks at least as high as `x`,
   * so that `x` follows the rows of its own rank already present.
   */
  function InsertByRank(sorted: seq<Row>, x: Row): (r: seq<Row>)
    requires SortedByRank(sorted)
    ensures SortedByRank(r)
    ensures multiset(r) == multiset(sorted) + multiset{x}
  {
    if sorted == [] then [x]
    else if RanksAtLeast(sorted[0], x) then
      var rest := InsertByRank(sorted[1..], x);
      HeadRanksFirst(sorted);
      ConsSorted(sorted[0], rest);
      assert sorted == [sorted[0]] + sorted[1..];
      [sorted[0]] + rest
    else
      AboveHead(x, sorted);
      ConsSorted(x, sorted);
      [x] + sorted
  }

  /** Stable sort of `rows` from the highest rank to the lowest. */
  function SortByRank(rows: seq<Row>): (r: seq<Row>)
    ensures SortedByRank(r)
    ensures multiset(r) == multiset(rows)
  {
    if rows == [] then []
    else
      assert rows == rows[..|rows| - 1] + [rows[|rows| - 1]];
      InsertByRank(SortByRank(rows[..|rows| - 1]), rows[|rows| - 1])
  }

  /** The rows of `s` that have the same rank as `z`, in their order in `s`. */
  function RankClass(s: seq<Row>, z: Row): seq<Row> {
    if s == [] then []
    else (if SameRank(s[0], z) then [s[0]] else []) + RankClass(s[1..], z)
  }

  lemma {:induction false} RankClassAppend(s: seq<Row>, x: Row, z: Row)
    ensures RankClass(s + [x], z) == RankClass(s, z) + (if SameRank(x, z) then [x] else [])
  {
    if s != [] {
      assert (s + [x])[1..] == s[1..] + [x];
      RankClassAppend(s[1..], x, z);
    }
  }

  lemma {:induction false} RankClassBelow(s: seq<Row>, x: Row, z: Row)
    requires SameRank(x, z)
    requires forall j :: 0 <= j < |s| ==> !RanksAtLeast(s[j], x)
    ensures RankClass(s, z) == []
  {
    if s != [] {
      assert !RanksAtLeast(s[0], x);
      RankClassBelow(s[1..], x, z);
    }
  }

  /** Inserting `x` adds it at the end of its own rank class and leaves the other classes alone. */
  lemma {:induction false} InsertByRankStable(sorted: seq<Row>, x: Row, z: Row)
    requires SortedByRank(sorted)
    ensures RankClass(InsertByRank(sorted, x), z) == RankClass(sorted, z) + (if SameRank(x, z) then [x] else [])
  {
    if sorted == [] {
    } else if RanksAtLeast(sorted[0], x) {
      InsertByRankStable(sorted[1..], x, z);
      assert ([sorted[0]] + InsertByRank(sorted[1..], x))[1..] == InsertByRank(sorted[1..], x);
    } else {
      if SameRank(x, z) {
        forall j | 0 <= j < |sorted| ensures !RanksAtLeast(sorted[j], x) {
          RankOrder(sorted[j], sorted[0], x);
          if j > 0 { assert RanksAtLeast(sorted[0], sorted[j]); }
        }
        RankClassBelow(sorted, x, z);
      }
      assert ([x] + sorted)[1..] == sorted;
    }
  }

  /**
   * The sort is stable: for every rank, the rows of that rank appear in the result in
   * the same order as in the input.
   */
  lemma {:induction false} SortByRankStable(rows: seq<Row>, z: Row)
    ensures RankClass(SortByRank(rows), z) == RankClass(rows, z)
  {
    if rows != [] {
      var init, last := rows[..|rows| - 1], rows[|rows| - 1];
      var sortedInit := SortByRank(init);
      var tail := if SameRank(last, z) then [last] else [];
      assert rows == init + [last];
      calc {
        RankClass(SortByRank(rows), z);
        RankClass(InsertByRank(sortedInit, last), z);
        { InsertByRankStable(sortedInit, last, z); }
        RankClass(sortedInit, z) + tail;
        { SortByRankStable(init, z); }
        RankClass(init, z) + tail;
        { RankClassAppend(init, last, z); }
        RankClass(rows, z);
      }
    }
  }

  /** The rows of the players listed in `order`, in that order. */
  function RowsOf(players: Players, order: seq<string>): (rows: seq<Row>)
    requires forall i :: 0 <= i < |order| ==> order[i] in players
    ensures |rows| == |order|
    ensures forall i :: 0 <= i < |order| ==> rows[i] == RowOf(order[i], players[order[i]])
  {
    if order == [] then []
    else RowsOf(players, order[..|order| - 1]) + [RowOf(order[|order| - 1], players[order[|order| - 1]])]
  }

  /**
   * `rows` lists the registry exactly: every row is the row of a registered player,
   * every registered player has a row, and no player has two.
   */
  predicate ListsRegistry(rows: seq<Row>, players: Players) {
    && (forall i :: 0 <= i < |rows| ==> rows[i].name in players && rows[i] == RowOf(rows[i].name, players[rows[i].name]))
    && (forall n :: n in players ==> exists i :: 0 <= i < |rows| && rows[i].name == n)
    && (forall i, j :: 0 <= i < j < |rows| ==> rows[i].name != rows[j].name)
  }

  /** No entry of `s` occurs twice; defined entry by entry from the end. */
  predicate NoRepeats(s: seq<string>) {
    s == [] || (s[|s| - 1] !in s[..|s| - 1] && NoRepeats(s[..|s| - 1]))
  }

  /** `NoRepeats` says that the entries at two different positions differ. */
  lemma {:induction false} NoRepeatsDistinct(s: seq<string>)
    requires NoRepeats(s)
    ensures forall i, j :: 0 <= i < j < |s| ==> s[i] != s[j]
  {
    if s != [] {
      var init := s[..|s| - 1];
      NoRepeatsDistinct(init);
      forall i, j | 0 <= i < j < |s| ensures s[i] != s[j] {
        if j == |s| - 1 {
          assert s[i] == init[i];
        } else {
          assert s[i] == init[i] && s[j] == init[j];
        }
      }
    }
  }

  /**
   * `order` enumerates the registered names, each exactly once: as many entries as
   * players, every entry registered, no entry twice (`EnumeratesCovers` shows that
   * then every registered name occurs).
   */
  predicate Enumerates(order: seq<string>, players: Players) {
    && |order| == |players|
    && (forall i :: 0 <= i < |order| ==> order[i] in players)
    && NoRepeats(order)
  }

  /** The set of entries of a list without repetitions has as many elements as the list. */
  lemma {:induction false} DistinctElements(order: seq<string>)
    requires NoRepeats(order)
    ensures |set i | 0 <= i < |order| :: order[i]| == |order|
  {
    if order != [] {
      var init := order[..|order| - 1];
      var last := order[|order| - 1];
      DistinctElements(init);
      var s := set i | 0 <= i < |order| :: order[i];
      var s' := set i | 0 <= i < |init| :: init[i];
      assert s == s' + {last} by {
        forall x | x in s ensures x in s' + {last} {
          var i :| 0 <= i < |order| && order[i] == x;
          if i < |order| - 1 { assert init[i] == x; }
        }
        forall x | x in s' ensures x in s {
          var i :| 0 <= i < |init| && init[i] == x;
          assert order[i] == x;
        }
      }
      assert last !in s' by {
        forall i | 0 <= i < |init| ensures init[i] != last {
          assert init[i] in init;
        }
      }
    }
  }

  /** A subset has at most as many elements as the set containing it. */
  lemma {:induction false} SubsetCardinality(a: set<string>, b: set<string>)
    requires a <= b
    ensures |a| <= |b|
    decreases a
  {
    if a != {} {
      var x :| x in a;
      SubsetCardinality(a - {x}, b - {x});
    }
  }

  /** Pigeonhole: a list of distinct registered names as long as the registry names every player. */
  lemma EnumeratesCovers(order: seq<string>, players: Players)
    requires Enumerates(order, players)
    ensures forall n :: n in players ==> n in order
  {
    var s := set i | 0 <= i < |order| :: order[i];
    DistinctElements(order);
    forall n | n in players ensures n in order {
      if n !in s {
        SubsetCardinality(s, players.Keys - {n});
        assert false;
      }
      var i :| 0 <= i < |order| && order[i] == n;
    }
  }

  lemma RowsOfListsRegistry(players: Players, order: seq<string>)
    requires Enumerates(order, players)
    ensures ListsRegistry(RowsOf(players, order), players)
  {
    var rows := RowsOf(players, order);
    EnumeratesCovers(order, players);
    NoRepeatsDistinct(order);
    forall n | n in players ensures exists i :: 0 <= i < |rows| && rows[i].name == n {
      var i :| 0 <= i < |order| && order[i] == n;
      assert rows[i].name == n;
    }
  }

  lemma {:induction false} TwoCopies(s: seq<Row>, i: nat, j: nat)
    requires i < j < |s| && s[i] == s[j]
    ensures multiset(s)[s[i]] >= 2
  {
    assert s == s[..i] + [s[i]] + s[i + 1..j] + [s[j]] + s[j + 1..];
  }

  lemma {:induction false} DistinctOneCopy(s: seq<Row>, x: Row)
    requires forall i, j :: 0 <= i < j < |s| ==> s[i] != s[j]
    ensures multiset(s)[x] <= 1
  {
    if s != [] {
      assert s == [s[0]] + s[1..];
      DistinctOneCopy(s[1..], x);
      if s[0] == x {
        assert x !in s[1..] by {
          forall j | 0 <= j < |s[1..]| ensures s[1..][j] != x {
            assert s[1..][j] == s[j + 1];
          }
        }
      }
    }
  }

  /** Listing the registry exactly is a property of the multiset of rows: any permutation keeps it. */
  lemma PermutationListsRegistry(a: seq<Row>, b: seq<Row>, players: Players)
    requires ListsRegistry(a, players)
    requires multiset(a) == multiset(b)
    ensures ListsRegistry(b, players)
  {
    forall i | 0 <= i < |b| ensures b[i].name in players && b[i] == RowOf(b[i].name, players[b[i].name]) {
      assert b[i] in multiset(a);
    }
    forall n | n in players ensures exists i :: 0 <= i < |b| && b[i].name == n {
      var i :| 0 <= i < |a| && a[i].name == n;
      assert a[i] in multiset(b);
      var j :| 0 <= j < |b| && b[j] == a[i];
      assert b[j].name == n;
    }
    forall i, j | 0 <= i < j < |b| ensures b[i].name != b[j].name {
      if b[i].name == b[j].name {
        TwoCopies(b, i, j);
        DistinctOneCopy(a, b[i]);
        assert false;
      }
    }
  }

  /**
   * The leaderboard of a registry whose players are listed once each by `order` (the
   * dictionary's insertion order): a stable sort of one row per player.
   */
  function Board(players: Players, order: seq<string>): (rows: seq<Row>)
    requires Enumerates(order, players)
    ensures SortedByRank(rows)
    ensures ListsRegistry(rows, players)
    ensures |rows| == |order|
    ensures forall z :: RankClass(rows, z) == RankClass(RowsOf(players, order), z)
  {
    var unsorted := RowsOf(players, order);
    var rows := SortByRank(unsorted);
    RowsOfListsRegistry(players, order);
    PermutationListsRegistry(unsorted, rows, players);
    assert |rows| == |multiset(rows)| == |multiset(unsorted)|;
    forall z ensures RankClass(rows, z) == RankClass(unsorted, z) {
      SortByRankStable(unsorted, z);
    }
    rows
  }

  /** With balanced records, every win rate on the board is a percentage between 0 and 100. */
  lemma BoardWinRates(players: Players, order: seq<string>)
    requires Enumerates(order, players) && AllBalanced(players)
    ensures forall i :: 0 <= i < |Board(players, order)| ==> 0.0 <= Board(players, order)[i].winRate <= 100.0
  {
    var rows := Board(players, order);
    forall i | 0 <= i < |rows| ensures 0.0 <= rows[i].winRate <= 100.0 {
      assert players[rows[i].name] in players.Values;
    }
  }
}
