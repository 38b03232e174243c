/** The two measures the selectors optimise: the handicap spread of a pair
    and `pairing_score`, how well a counter pair answers a sent pair. */
module Scoring {
  import opened Roster

  /** Python's `abs` on handicaps. */
  function Abs(x: real): (r: real)
    ensures r >= 0.0 && (r == x || r == -x)
  {
    if x < 0.0 then -x else x
  }

  /** `abs(a[1] - b[1])`: how far apart the two handicaps of a pair are,
      whichever comes first. */
  function Spread(a: Player, b: Player): (r: real)
    ensures r >= 0.0
    ensures r == a.handicap - b.handicap || r == b.handicap - a.handicap
  {
    Abs(a.handicap - b.handicap)
  }

  /** `sum(p[1] for p in ps)`. */
  function Total(ps: seq<Player>): real
  {
    if ps == [] then 0.0 else ps[0].handicap + Total(ps[1..])
  }

  /** The default weights of `pairing_score`. */
  const Alpha: real := 1.0
  const Beta: real := 0.75

  /** `pairing_score(sent, counter)`: the distance between the average
      handicap of the sent list (its total halved, whatever its length) and
      that of the counter pair, less `Beta` times the counter pair's spread.
      Lower is better: for a given spread the score is lowest, exactly
      minus `Beta` times the spread, when the counter pair's total equals
      the sent total. */
  function PairingScore(sent: seq<Player>, counter: Pair): (r: real)
    ensures r >= -Beta * Spread(counter.first, counter.second)
    ensures r == -Beta * Spread(counter.first, counter.second) <==> Total(sent) == counter.first.handicap + counter.second.handicap
  {
    var avgSent := Total(sent) / 2.0;
    var avgCounter := (counter.first.handicap + counter.second.handicap) / 2.0;
    Alpha * Abs(avgSent - avgCounter) - Beta * Spread(counter.first, counter.second)
  }

  /** For a sent pair `[x, y]`, the score is the distance between the two
      pairs' averages less three quarters of the counter pair's spread. */
  lemma PairingScoreOfPair(x: Player, y: Player, counter: Pair)
    ensures var avgSent := (x.handicap + y.handicap) / 2.0;
            var avgCounter := (counter.first.handicap + counter.second.handicap) / 2.0;
            PairingScore([x, y], counter) == Abs(avgSent - avgCounter) - 0.75 * Abs(counter.first.handicap - counter.second.handicap)
  {
    assert [x, y][1..] == [y];
    assert [y][1..] == [];
    assert Total([y]) == y.handicap;
    assert Total([x, y]) == x.handicap + y.handicap;
  }

  /** Swapping the two players of the counter pair, or of a two-player sent
      list, leaves the score unchanged. */
  lemma PairingScoreSymmetric(x: Player, y: Player, counter: Pair)
    ensures PairingScore([x, y], counter) == PairingScore([y, x], counter)
    ensures PairingScore([x, y], counter) == PairingScore([x, y], Pair(counter.second, counter.first))
  {
    PairingScoreOfPair(x, y, counter);
    PairingScoreOfPair(y, x, counter);
    PairingScoreOfPair(x, y, Pair(counter.second, counter.first));
  }

  /** The score in integer form: `2 * |s - c| - 3 * b` for pair totals `s`, `c`
      and counter spread `b`. The selectors do not use it; it is kept, with
      the lemma below, as a stand-alone fact about `pairing_score`: halving
      the totals does not change which counter pair wins, and with
      handicaps in whole tenths the ranking could be done on integers. */
  function ScaledScore(sent: seq<Player>, counter: Pair): real
  {
    2.0 * Abs(Total(sent) - (counter.first.handicap + counter.second.handicap)) - 3.0 * Spread(counter.first, counter.second)
  }

  /** Ranking counter pairs by `ScaledScore` is ranking them by
      `PairingScore`: strict and non-strict comparisons agree. */
  lemma ScaledScoreOrdersLikePairingScore(sent: seq<Player>, c1: Pair, c2: Pair)
    ensures ScaledScore(sent, c1) == 4.0 * PairingScore(sent, c1)
    ensures PairingScore(sent, c1) < PairingScore(sent, c2) <==> ScaledScore(sent, c1) < ScaledScore(sent, c2)
  {
    var s := Total(sent);
    var t := c1.first.handicap + c1.second.handicap;
    assert Abs(s / 2.0 - t / 2.0) * 2.0 == Abs(s - t);
    var t2 := c2.first.handicap + c2.second.handicap;
    assert Abs(s / 2.0 - t2 / 2.0) * 2.0 == Abs(s - t2);
  }
}
