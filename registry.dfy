/**
 * The player registry of the ledger as a value: a map from player name to the
 * player's record, with the two operations main.py applies to it, creating a
 * player on first use and settling one match.
 */
module Registry {
  import opened EloMath

  /** A player's record; `games == wins + losses` is the invariant every operation keeps. */
  datatype Player = Player(rating: real, wins: nat, losses: nat, games: nat)

  type Players = map<string, Player>

  /** The rating a player starts from. */
  const InitialRating: real := 1200.0

  /** The record of a player who has played no match yet. */
  const Newcomer: Player := Player(InitialRating, 0, 0, 0)

  /** The counters of a record agree: every game is either a win or a loss. */
  predicate Balanced(p: Player) {
    p.games == p.wins + p.losses
  }

  predicate AllBalanced(players: Players) {
    forall p :: p in players.Values ==> Balanced(p)
  }

  /**
   * The registry after making sure `name` is registered: an absent name gets a fresh
   * record at the initial rating with zero counters; a present name leaves the registry
   * as it was.  No other entry changes and no entry is dropped.
   */
  function Registered(players: Players, name: string): (r: Players)
    ensures name in r && r.Keys == players.Keys + {name}
    ensures forall n :: n in players ==> r[n] == players[n]
    ensures name !in players ==> r[name] == Newcomer
  {
    if name in players then players else players[name := Newcomer]
  }

  /** Registering a name keeps every record balanced. */
  lemma RegisteredBalanced(players: Players, name: string)
    requires AllBalanced(players)
    ensures AllBalanced(Registered(players, name))
  {
  }

  /** The rating points `winner` takes from `loser` in one match, at K-factor `k`. */
  function Gain(pow10: real -> real, players: Players, winner: string, loser: string, k: int): real
    requires IsPow10(pow10)
    requires winner in players && loser in players
  {
    WinnerGain(pow10, players[winner].rating, players[loser].rating, k)
  }

  /**
   * The registry after `winner` beats `loser` at K-factor `k`, both already registered.
   * The ratings are written first (winner, then loser), then the counters, in the order
   * the source writes them; when both names are the same entry the later write wins.
   *
   * For two different players: the winner gains `Gain(...)` and one win and one game, the
   * loser gives up exactly that many points and gains one loss and one game, so the sum of
   * the two ratings is unchanged; with a positive K the winner's rating strictly rises by
   * less than K and the loser's strictly falls by less than K; between equal ratings the
   * transfer is K/2.  For one name in both roles, the record ends K/2 lower (the loser's
   * write is the last) with one win, one loss and two games.  Nobody else changes, and
   * balanced records stay balanced.
   */
  function Settled(pow10: real -> real, players: Players, winner: string, loser: string, k: int): (r: Players)
    requires IsPow10(pow10)
    requires winner in players && loser in players
    ensures r.Keys == players.Keys
    ensures forall n :: n in players && n != winner && n != loser ==> r[n] == players[n]
    ensures winner != loser ==>
      var g := Gain(pow10, players, winner, loser, k);
      && r[winner].rating == players[winner].rating + g
      && r[loser].rating == players[loser].rating - g
      && r[winner].rating + r[loser].rating == players[winner].rating + players[loser].rating
      && r[winner].wins == players[winner].wins + 1
      && r[winner].losses == players[winner].losses
      && r[winner].games == players[winner].games + 1
      && r[loser].wins == players[loser].wins
      && r[loser].losses == players[loser].losses + 1
      && r[loser].games == players[loser].games + 1
    ensures winner != loser && k > 0 ==>
      && players[winner].rating < r[winner].rating < players[winner].rating + k as real
      && players[loser].rating - k as real < r[loser].rating < players[loser].rating
    ensures winner != loser && players[winner].rating == players[loser].rating ==>
      r[winner].rating == players[winner].rating + k as real / 2.0
    ensures winner == loser ==>
      r[winner] == Player(players[winner].rating - k as real / 2.0,
                          players[winner].wins + 1, players[winner].losses + 1, players[winner].games + 2)
  {
    var ra := players[winner].rating;
    var rb := players[loser].rating;
    var d := EloDeltas(k, ExpectedScore(pow10, ra, rb));
    var p1 := players[winner := players[winner].(rating := ra + d.winner)];
    var p2 := p1[loser := p1[loser].(rating := rb + d.loser)];
    var p3 := p2[winner := p2[winner].(wins := p2[winner].wins + 1)];
    var p4 := p3[winner := p3[winner].(games := p3[winner].games + 1)];
    var p5 := p4[loser := p4[loser].(losses := p4[loser].losses + 1)];
    p5[loser := p5[loser].(games := p5[loser].games + 1)]
  }

  /**
   * Settling a match keeps `games == wins + losses` for every player: each write of a
   * result adds one game together with one win or one loss.
   */
  lemma SettledBalanced(pow10: real -> real, players: Players, winner: string, loser: string, k: int)
    requires IsPow10(pow10)
    requires winner in players && loser in players
    requires AllBalanced(players)
    ensures AllBalanced(Settled(pow10, players, winner, loser, k))
  {
    var r := Settled(pow10, players, winner, loser, k);
    forall p | p in r.Values ensures Balanced(p) {
      var n :| n in r && r[n] == p;
      assert players[n] in players.Values;
    }
  }

  /**
   * Two players meeting for the first time both start at 1200, so with K = 32 the
   * winner ends at 1216 and the loser at 1184, each with one game.
   */
  lemma FirstMatchOfNewcomers(pow10: real -> real, players: Players, winner: string, loser: string)
    requires IsPow10(pow10)
    requires winner !in players && loser !in players && winner != loser
    ensures var r := Settled(pow10, Registered(Registered(players, winner), loser), winner, loser, 32);
      && r[winner] == Player(1216.0, 1, 0, 1)
      && r[loser] == Player(1184.0, 0, 1, 1)
  {
    var reg := Registered(Registered(players, winner), loser);
    assert reg[winner] == Newcomer && reg[loser] == Newcomer;
  }

  /** Sum of the ratings of the players listed in `names`. */
  function TotalRating(players: Players, names: seq<string>): real
    requires forall i :: 0 <= i < |names| ==> names[i] in players
  {
    if names == [] then 0.0
    else TotalRating(players, names[..|names| - 1]) + players[names[|names| - 1]].rating
  }

  /** A sum over a list is unaffected by entries the list does not mention. */
  lemma {:induction false} TotalRatingIgnores(players: Players, players': Players, names: seq<string>)
    requires forall i :: 0 <= i < |names| ==> names[i] in players && names[i] in players'
    requires forall i :: 0 <= i < |names| ==> players[names[i]].rating == players'[names[i]].rating
    ensures TotalRating(players, names) == TotalRating(players', names)
  {
    if names != [] {
      TotalRatingIgnores(players, players', names[..|names| - 1]);
    }
  }

  /**
   * A sum over a list of distinct names changes by exactly `delta` when one listed
   * player's rating moves by `delta` and no other listed player's rating moves.
   */
  lemma {:induction false} TotalRatingShift(players: Players, players': Players, names: seq<string>, who: string, delta: real)
    requires forall i :: 0 <= i < |names| ==> names[i] in players && names[i] in players'
    requires forall i, j :: 0 <= i < j < |names| ==> names[i] != names[j]
    requires who in names && who in players && who in players'
    requires players'[who].rating == players[who].rating + delta
    requires forall i :: 0 <= i < |names| && names[i] != who ==> players'[names[i]].rating == players[names[i]].rating
    ensures TotalRating(players', names) == TotalRating(players, names) + delta
  {
    var init := names[..|names| - 1];
    var last := names[|names| - 1];
    if last == who {
      assert who !in init by {
        forall i | 0 <= i < |init| ensures init[i] != who {
          assert names[i] != names[|names| - 1];
        }
      }
      TotalRatingIgnores(players, players', init);
    } else {
      assert who in init by {
        var i :| 0 <= i < |names| && names[i] == who;
        assert i < |names| - 1 && init[i] == who;
      }
      TotalRatingShift(players, players', init, who, delta);
    }
  }

  /**
   * Elo is zero-sum over the whole registry: settling a match between two different
   * registered players leaves the sum of all ratings unchanged, when `names` lists every
   * registered player once.
   */
  lemma SettledConservesTotal(pow10: real -> real, players: Players, names: seq<string>, winner: string, loser: string, k: int)
    requires IsPow10(pow10)
    requires forall i :: 0 <= i < |names| ==> names[i] in players
    requires forall i, j :: 0 <= i < j < |names| ==> names[i] != names[j]
    requires winner in names && loser in names && winner != loser
    ensures forall i :: 0 <= i < |names| ==> names[i] in Settled(pow10, players, winner, loser, k)
    ensures TotalRating(Settled(pow10, players, winner, loser, k), names) == TotalRating(players, names)
  {
    var r := Settled(pow10, players, winner, loser, k);
    var g := Gain(pow10, players, winner, loser, k);
    var mid := players[winner := players[winner].(rating := r[winner].rating)];
    TotalRatingShift(players, mid, names, winner, g);
    TotalRatingShift(mid, r, names, loser, -g);
  }
}
