/**
 * Name handling of the "Add Match Result" form (main.py, lines 176-183): names are
 * compared after Python's `str.strip()`, which removes leading and trailing characters
 * for which `str.isspace()` holds.
 */
module Names {

  /** The characters Python's `str.isspace()` accepts. */
  predicate IsSpace(c: char) {
    || ('\t' <= c <= '\r')
    || ('\U{1C}' <= c <= ' ')
    || c == '\U{85}' || c == '\U{A0}' || c == '\U{1680}'
    || ('\U{2000}' <= c <= '\U{200A}')
    || c == '\U{2028}' || c == '\U{2029}' || c == '\U{202F}' || c == '\U{205F}' || c == '\U{3000}'
  }

  /** The index of the first character at or after `i` that is not whitespace, or `|s|`. */
  function SkipSpaces(s: string, i: nat): (j: nat)
    requires i <= |s|
    ensures i <= j <= |s|
    ensures forall m :: i <= m < j ==> IsSpace(s[m])
    ensures j < |s| ==> !IsSpace(s[j])
    decreases |s| - i
  {
    if i < |s| && IsSpace(s[i]) then SkipSpaces(s, i + 1) else i
  }

  /**
   * Scanning back from `j` but not below `lo`: the end of `s[lo..j]` once its trailing
   * whitespace is removed.
   */
  function SkipSpacesBack(s: string, lo: nat, j: nat): (k: nat)
    requires lo <= j <= |s|
    ensures lo <= k <= j
    ensures forall m :: k <= m < j ==> IsSpace(s[m])
    ensures lo < k ==> !IsSpace(s[k - 1])
  {
    if lo < j && IsSpace(s[j - 1]) then SkipSpacesBack(s, lo, j - 1) else j
  }

  /** `r` is the slice `s[i..i + |r|]`, and `s` has only whitespace before and after it. */
  predicate StrippedAt(s: string, r: string, i: int) {
    && 0 <= i <= |s| - |r|
    && r == s[i..i + |r|]
    && (forall m :: 0 <= m < i ==> IsSpace(s[m]))
    && (forall m :: i + |r| <= m < |s| ==> IsSpace(s[m]))
  }

  /**
   * `s.strip()`: the slice of `s` left after removing its leading and trailing
   * whitespace; it is empty exactly when `s` is all whitespace.
   */
  function Trim(s: string): (r: string)
    ensures r != [] ==> !IsSpace(r[0]) && !IsSpace(r[|r| - 1])
    ensures r == [] <==> forall m :: 0 <= m < |s| ==> IsSpace(s[m])
    ensures exists i :: StrippedAt(s, r, i)
  {
    var i := SkipSpaces(s, 0);
    var j := SkipSpacesBack(s, i, |s|);
    assert StrippedAt(s, s[i..j], i);
    s[i..j]
  }

  /** Stripping twice strips nothing more. */
  lemma TrimIdempotent(s: string)
    ensures Trim(Trim(s)) == Trim(s)
  {
    var t := Trim(s);
    assert SkipSpaces(t, 0) == 0;
    assert t[0..|t|] == t;
  }

  /**
   * The form's `can_submit`: both names are non-empty after stripping and they differ
   * after stripping.
   */
  predicate CanSubmit(playerA: string, playerB: string) {
    Trim(playerA) != [] && Trim(playerB) != [] && Trim(playerA) != Trim(playerB)
  }
}

/**
 * The rating ledger: the player registry, the order in which players were first
 * registered (the iteration order of the source's dictionary), and the match log,
 * most recent match first.
 */
module Ledger {
  import opened EloMath
  import opened Registry
  import opened Leaderboard
  import opened Names

  /** One line of the match log; `delta` is the winner's gain, kept unrounded. */
  datatype MatchRecord = MatchRecord(time: string, winner: string, loser: string, delta: real, k: int)

  /**
   * The registration order after making sure `name` is registered: a new name goes
   * last.  The old order stays a prefix, at most one name is added, and an order that
   * lists the registry once each lists the new registry once each.
   */
  function RegisteredOrder(order: seq<string>, players: Players, name: string): (r: seq<string>)
    ensures |order| <= |r| <= |order| + 1 && r[..|order|] == order
    ensures Enumerates(order, players) ==> Enumerates(r, Registered(players, name))
  {
    if name in players then order
    else EnumeratesRegistered(order, players, name); order + [name]
  }

  /** Appending a newly registered name to the registration order keeps it an enumeration. */
  lemma EnumeratesRegistered(order: seq<string>, players: Players, name: string)
    requires name !in players
    ensures Enumerates(order, players) ==> Enumerates(order + [name], Registered(players, name))
  {
    if !Enumerates(order, players) {
      return;
    }
    var order', players' := order + [name], Registered(players, name);
    assert players' == players[name := Newcomer];
    forall i | 0 <= i < |order'| ensures order'[i] in players' {
      if i < |order| { assert order'[i] == order[i]; }
    }
    assert order'[..|order|] == order;
  }

  /** Every name in the match log is a registered player. */
  predicate LogRegistered(matches: seq<MatchRecord>, players: Players) {
    forall i :: 0 <= i < |matches| ==> matches[i].winner in players && matches[i].loser in players
  }

  /** The record of every player listed in `order` is balanced. */
  predicate ListedBalanced(order: seq<string>, players: Players)
    requires forall i :: 0 <= i < |order| ==> order[i] in players
  {
    forall i :: 0 <= i < |order| ==> Balanced(players[order[i]])
  }

  /** A newcomer is balanced, and registering it changes no listed record. */
  lemma RegisterListedBalanced(order: seq<string>, players: Players, name: string)
    requires forall i :: 0 <= i < |order| ==> order[i] in players
    requires ListedBalanced(order, players) && name !in players
    ensures ListedBalanced(order + [name], players[name := Newcomer])
  {
    var order', players' := order + [name], players[name := Newcomer];
    forall i | 0 <= i < |order'| ensures Balanced(players'[order'[i]]) {
      if i < |order| {
        assert order'[i] == order[i] && order[i] != name;
      }
    }
  }

  /**
   * The ledger's invariant over its three containers: `order` lists every registered
   * player once, every record has `games == wins + losses`, and every name in the match
   * log is registered.
   */
  predicate Consistent(order: seq<string>, players: Players, matches: seq<MatchRecord>) {
    && Enumerates(order, players)
    && ListedBalanced(order, players)
    && LogRegistered(matches, players)
  }

  /** The invariant makes every registered player's record balanced. */
  lemma ConsistentBalanced(order: seq<string>, players: Players, matches: seq<MatchRecord>)
    requires Consistent(order, players, matches)
    ensures AllBalanced(players)
  {
    EnumeratesCovers(order, players);
    forall p | p in players.Values ensures Balanced(p) {
      var n :| n in players && players[n] == p;
      var i :| 0 <= i < |order| && order[i] == n;
    }
  }

  /** Registering a new name at the end of the order keeps the invariant. */
  lemma RegisterConsistent(order: seq<string>, players: Players, matches: seq<MatchRecord>, name: string)
    requires Consistent(order, players, matches) && name !in players
    ensures Consistent(order + [name], players[name := Newcomer], matches)
  {
    EnumeratesRegistered(order, players, name);
    RegisterListedBalanced(order, players, name);
  }

  /** Settling a match between two registered names keeps the invariant. */
  lemma SettleConsistent(pow10: real -> real, order: seq<string>, players: Players, matches: seq<MatchRecord>,
                         winner: string, loser: string, k: int)
    requires IsPow10(pow10) && winner in players && loser in players
    requires Consistent(order, players, matches)
    ensures Consistent(order, Settled(pow10, players, winner, loser, k), matches)
  {
  }

  /** Logging a match between two registered names keeps the invariant. */
  lemma LogConsistent(order: seq<string>, players: Players, matches: seq<MatchRecord>, m: MatchRecord)
    requires Consistent(order, players, matches)
    requires m.winner in players && m.loser in players
    ensures Consistent(order, players, [m] + matches)
  {
  }

  class Ledger {
    /** The function `x |-> 10 ** x` the rating formula uses. */
    const pow10: real -> real
    var players: Players
    var order: seq<string>
    var matches: seq<MatchRecord>

    /** The ledger's invariant, for the `pow10` it was built with. */
    ghost predicate Valid()
      reads this
    {
      && IsPow10(pow10)
      && Consistent(order, players, matches)
    }

    /** A ledger with no players and no matches. */
    constructor (pow10: real -> real)
      requires IsPow10(pow10)
      ensures Valid() && this.pow10 == pow10
      ensures players == map[] && order == [] && matches == []
    {
      this.pow10 := pow10;
      players := map[];
      order := [];
      matches := [];
    }

    /**
     * Registers `name` with rating 1200 and no games if it is absent; a registered name
     * leaves the ledger as it is.  A new name goes to the end of the registration order.
     */
    method GetOrCreatePlayer(name: string)
      requires Valid()
      modifies this
      ensures Valid()
      ensures players == Registered(old(players), name)
      ensures order == RegisteredOrder(old(order), old(players), name)
      ensures matches == old(matches)
    {
      if name !in players {
        RegisterConsistent(order, players, matches, name);
        players := players[name := Newcomer];
        order := order + [name];
      }
    }

    /**
     * The rating update proper, for two registered names: reads both ratings, computes
     * the winner's expected score and the two rating changes, then writes the ratings
     * and the counters field by field.  Returns the winner's rating plus the gain, the
     * loser's rating minus the gain, and the gain.
     */
    method Settle(winner: string, loser: string, k: int) returns (newWinner: real, newLoser: real, delta: real)
      requires Valid()
      requires winner in players && loser in players
      modifies this
      ensures Valid()
      ensures players == Settled(pow10, old(players), winner, loser, k)
      ensures delta == Gain(pow10, old(players), winner, loser, k)
      ensures newWinner == old(players)[winner].rating + delta
      ensures newLoser == old(players)[loser].rating - delta
      ensures order == old(order) && matches == old(matches)
    {
      var ra := players[winner].rating;
      var rb := players[loser].rating;

      var ea := ExpectedScore(pow10, ra, rb);
      var d := EloDeltas(k, ea);

      var p := players;
      p := p[winner := p[winner].(rating := ra + d.winner)];
      p := p[loser := p[loser].(rating := rb + d.loser)];

      p := p[winner := p[winner].(wins := p[winner].wins + 1)];
      p := p[winner := p[winner].(games := p[winner].games + 1)];
      p := p[loser := p[loser].(losses := p[loser].losses + 1)];
      p := p[loser := p[loser].(games := p[loser].games + 1)];

      SettleConsistent(pow10, order, players, matches, winner, loser, k);
      players := p;
      return ra + d.winner, rb + d.loser, d.winner;
    }

    /**
     * `update_elo`: registers both names if needed, then settles the match as `Settled`
     * describes.  For two different names the returned ratings are the new stored ones.
     */
    method UpdateElo(winner: string, loser: string, k: int) returns (newWinner: real, newLoser: real, delta: real)
      requires Valid()
      modifies this
      ensures Valid()
      ensures var reg := Registered(Registered(old(players), winner), loser);
        && players == Settled(pow10, reg, winner, loser, k)
        && delta == Gain(pow10, reg, winner, loser, k)
        && newWinner == reg[winner].rating + delta
        && newLoser == reg[loser].rating - delta
      ensures winner != loser ==> newWinner == players[winner].rating && newLoser == players[loser].rating
      ensures order == RegisteredOrder(RegisteredOrder(old(order), old(players), winner), Registered(old(players), winner), loser)
      ensures matches == old(matches)
    {
      GetOrCreatePlayer(winner);
      GetOrCreatePlayer(loser);
      newWinner, newLoser, delta := Settle(winner, loser, k);
    }

    /**
     * The "Record Match" action of the form: when the button is pressed (`submit`) and
     * `CanSubmit` holds, the stripped names play a match (player A wins when `aWins`), and
     * one record carrying the time, the winner, the loser, the winner's gain and `k` is
     * put at the front of the log, before all older records.  Otherwise nothing changes.
     */
    method RecordMatch(playerA: string, playerB: string, aWins: bool, submit: bool, k: int, time: string) returns (recorded: bool)
      requires Valid()
      modifies this
      ensures Valid()
      ensures recorded == (submit && CanSubmit(playerA, playerB))
      ensures !recorded ==> players == old(players) && order == old(order) && matches == old(matches)
      ensures recorded ==>
        var w := if aWins then Trim(playerA) else Trim(playerB);
        var l := if aWins then Trim(playerB) else Trim(playerA);
        var reg := Registered(Registered(old(players), w), l);
        && w != l && w != [] && l != []
        && players == Settled(pow10, reg, w, l, k)
        && order == RegisteredOrder(RegisteredOrder(old(order), old(players), w), Registered(old(players), w), l)
        && matches == [MatchRecord(time, w, l, Gain(pow10, reg, w, l, k), k)] + old(matches)
    {
      recorded := submit && CanSubmit(playerA, playerB);
      if recorded {
        var a := Trim(playerA);
        var b := Trim(playerB);
        var winName := if aWins then a else b;
        var loseName := if aWins then b else a;

        var _, _, delta := UpdateElo(winName, loseName, k);

        LogMatch(MatchRecord(time, winName, loseName, delta, k));
      }
    }

    /** Puts `entry` at the front of the match log; both of its names are registered. */
    method LogMatch(entry: MatchRecord)
      requires Valid()
      requires entry.winner in players && entry.loser in players
      modifies this
      ensures Valid()
      ensures matches == [entry] + old(matches)
      ensures players == old(players) && order == old(order)
    {
      LogConsistent(order, players, matches, entry);
      matches := [entry] + matches;
    }

    /** "Reset all data": no players and no matches; the result does not depend on the state before. */
    method Reset()
      requires Valid()
      modifies this
      ensures Valid()
      ensures players == map[] && order == [] && matches == []
    {
      players := map[];
      order := [];
      matches := [];
    }

    /**
     * The leaderboard: one row per registered player, from the highest rank to the
     * lowest, rows of equal rank in registration order.  It reads the ledger and changes
     * nothing, so calling it again without a new match gives the same rows.
     */
    method LeaderboardRows() returns (rows: seq<Row>)
      requires Valid()
      ensures rows == Board(players, order)
      ensures SortedByRank(rows)
      ensures ListsRegistry(rows, players)
      ensures forall z :: RankClass(rows, z) == RankClass(RowsOf(players, order), z)
      ensures forall i :: 0 <= i < |rows| ==> 0.0 <= rows[i].winRate <= 100.0
    {
      var unsorted: seq<Row> := [];
      for i := 0 to |order|
        invariant unsorted == RowsOf(players, order[..i])
      {
        var name := order[i];
        var info := players[name];
        var games := info.games;
        var wins := info.wins;
        unsorted := unsorted + [Row(name, info.rating, games, wins, info.losses, WinRate(wins, games))];
        assert order[..i + 1][..i] == order[..i];
      }
      assert order[..|order|] == order;
      rows := SortByRank(unsorted);
      ConsistentBalanced(order, players, matches);
      BoardWinRates(players, order);
    }
  }
}
