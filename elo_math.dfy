/**
 * The Elo rating formula of the ping-pong ledger (main.py, "Elo Utilities").
 *
 * The only floating-point operation the formula needs that cannot be written
 * over `real` is the power `10 ** x`.  It is taken as a parameter `pow10`
 * that satisfies the algebraic facts of an exponential with base 10
 * (`IsPow10`); everything else is computed exactly as the source writes it.
 */
module EloMath {

  /** The facts of `x |-> 10 ** x` that the rating update relies on. */
  ghost predicate IsPow10(pow10: real -> real) {
    && pow10(0.0) == 1.0
    && (forall x :: pow10(x) > 0.0)
    && (forall x, y :: x + y == 0.0 ==> pow10(x) * pow10(y) == 1.0)
    && (forall x, y :: x < y ==> pow10(x) < pow10(y))
  }

  /** A piecewise-rational stand-in for 10 ** x, used only to show that IsPow10 can be met. */
  function Pow10Witness(x: real): real {
    if x >= 0.0 then 1.0 + x else 1.0 / (1.0 - x)
  }

  lemma WitnessInverse(x: real)
    ensures Pow10Witness(x) * Pow10Witness(-x) == 1.0
  {
  }

  lemma WitnessMonotone(x: real, y: real)
    requires x < y
    ensures Pow10Witness(x) < Pow10Witness(y)
  {
  }

  /** The assumptions on `pow10` are consistent: some function meets them all. */
  lemma Pow10Exists()
    ensures exists pow10 :: IsPow10(pow10)
  {
    var p := Pow10Witness;
    forall x ensures p(x) > 0.0 {
      if x < 0.0 { DivMonotone(1.0, 1.0 - x); }
    }
    forall x, y | x + y == 0.0 ensures p(x) * p(y) == 1.0 {
      WitnessInverse(x);
      assert y == -x;
    }
    forall x, y | x < y ensures p(x) < p(y) {
      WitnessMonotone(x, y);
    }
    assert IsPow10(p);
  }

  lemma DivMonotone(a: real, b: real)
    requires 0.0 < a < b
    ensures 0.0 < 1.0 / b < 1.0 / a
  {
  }

  /**
   * The winner's expected score against the loser: 1 / (1 + 10^((rb - ra) / 400)).
   * It is a probability strictly between 0 and 1, and exactly one half for equal ratings.
   */
  function ExpectedScore(pow10: real -> real, ra: real, rb: real): (e: real)
    requires IsPow10(pow10)
    ensures 0.0 < e < 1.0
    ensures ra == rb ==> e == 0.5
  {
    var p := pow10((rb - ra) / 400.0);
    assert p > 0.0;
    DivMonotone(1.0, 1.0 + p);
    1.0 / (1.0 + p)
  }

  /** The expected scores of the two sides of a match add up to one. */
  lemma ExpectedScoresComplement(pow10: real -> real, ra: real, rb: real)
    requires IsPow10(pow10)
    ensures ExpectedScore(pow10, ra, rb) + ExpectedScore(pow10, rb, ra) == 1.0
  {
    var d := (rb - ra) / 400.0;
    assert (ra - rb) / 400.0 == -d;
    var p, q := pow10(d), pow10(-d);
    assert d + -d == 0.0;
    assert p * q == 1.0;
    var e1, e2 := 1.0 / (1.0 + p), 1.0 / (1.0 + q);
    assert e1 * (1.0 + p) == 1.0;
    assert e2 * (1.0 + q) == 1.0;
    // 1 / (1 + 1/p) == p / (p + 1)
    assert e2 == p / (1.0 + p) by {
      assert (p / (1.0 + p)) * (1.0 + q) == (p + p * q) / (1.0 + p);
    }
    assert e1 + e2 == (1.0 + p) / (1.0 + p);
  }

  /** A higher own rating means a strictly higher expected score against the same opponent. */
  lemma ExpectedScoreMonotone(pow10: real -> real, ra: real, ra': real, rb: real)
    requires IsPow10(pow10)
    requires ra < ra'
    ensures ExpectedScore(pow10, ra, rb) < ExpectedScore(pow10, ra', rb)
  {
    assert (rb - ra') / 400.0 < (rb - ra) / 400.0;
    var p, p' := pow10((rb - ra) / 400.0), pow10((rb - ra') / 400.0);
    assert p' < p;
    DivMonotone(1.0 + p', 1.0 + p);
  }

  /** Rating changes for one match: what the winner gains and what the loser's rating moves by. */
  datatype Deltas = Deltas(winner: real, loser: real)

  /**
   * The two rating changes for a K-factor `k` and the winner's expected score `ea`:
   * the winner scores 1, the loser scores 0 and expects 1 - ea.  The changes are
   * equal and opposite; with a positive K and a proper probability the winner gains
   * strictly between 0 and K, and exactly K/2 when the expectation is one half.
   */
  function EloDeltas(k: int, ea: real): (d: Deltas)
    ensures d.loser == -d.winner
    ensures k > 0 && 0.0 < ea < 1.0 ==> 0.0 < d.winner < k as real
    ensures ea == 0.5 ==> d.winner == k as real / 2.0
  {
    var eb := 1.0 - ea;
    Deltas(k as real * (1.0 - ea), k as real * (0.0 - eb))
  }

  /** The winner's gain when the two current ratings are `ra` (winner) and `rb` (loser). */
  function WinnerGain(pow10: real -> real, ra: real, rb: real, k: int): (g: real)
    requires IsPow10(pow10)
    ensures k > 0 ==> 0.0 < g < k as real
    ensures ra == rb ==> g == k as real / 2.0
  {
    EloDeltas(k, ExpectedScore(pow10, ra, rb)).winner
  }

  /**
   * The gain shrinks as the winner's rating rises against the same opponent: beating
   * a weaker player earns less than beating a stronger one.
   */
  lemma WinnerGainAntitone(pow10: real -> real, ra: real, ra': real, rb: real, k: int)
    requires IsPow10(pow10)
    requires ra < ra' && k > 0
    ensures WinnerGain(pow10, ra', rb, k) < WinnerGain(pow10, ra, rb, k)
  {
    ExpectedScoreMonotone(pow10, ra, ra', rb);
    var e, e' := ExpectedScore(pow10, ra, rb), ExpectedScore(pow10, ra', rb);
    assert k as real * (1.0 - e') < k as real * (1.0 - e);
  }
}
