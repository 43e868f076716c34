/** `get_best_perf_avg`: fold the records into a dictionary from encounter
    name to the best percentile seen, then return the mean of its values. */
module BestAverage {
  import opened Records

  /** The exception Python raises for `total / 0`. */
  datatype ArithmeticError = ZeroDivisionError

  /** One pass of the aggregation loop: a boss not yet in the dictionary
      counts as best 0, and the entry is written only when the new
      percentile is strictly greater than the best so far. */
  function Step(best: map<string, real>, p: Parse): (r: map<string, real>)
    ensures r - {p.encounterName} == best - {p.encounterName}
    ensures p.encounterName in best ==> p.encounterName in r && best[p.encounterName] <= r[p.encounterName]
    ensures p.percentile > 0.0 ==> p.encounterName in r && p.percentile <= r[p.encounterName]
  {
    var bestParse := if p.encounterName in best then best[p.encounterName] else 0.0;
    if bestParse < p.percentile then best[p.encounterName := p.percentile] else best
  }

  /** The dictionary `player_parses` after the aggregation loop has read `parses`. */
  function BestMap(parses: seq<Parse>): (r: map<string, real>)
    ensures forall b :: b in r ==> r[b] > 0.0
  {
    if parses == [] then map[] else Step(BestMap(parses[..|parses| - 1]), parses[|parses| - 1])
  }

  /** The key set of the dictionary is exactly the set of bosses with some
      positive percentile, and each value is the largest percentile recorded
      for its boss; a boss whose percentiles are all at most 0 is absent. */
  lemma {:induction false} BestMapIsMaximumPerEncounter(parses: seq<Parse>, boss: string)
    ensures boss in BestMap(parses) <==>
      exists i :: 0 <= i < |parses| && parses[i].encounterName == boss && parses[i].percentile > 0.0
    ensures boss in BestMap(parses) ==>
      && (exists i :: 0 <= i < |parses| && parses[i].encounterName == boss && parses[i].percentile == BestMap(parses)[boss])
      && (forall i :: 0 <= i < |parses| && parses[i].encounterName == boss ==> parses[i].percentile <= BestMap(parses)[boss])
    ensures boss !in BestMap(parses) ==>
      forall i :: 0 <= i < |parses| && parses[i].encounterName == boss ==> parses[i].percentile <= 0.0
  {
    if parses != [] {
      var n := |parses| - 1;
      var front := parses[..n];
      BestMapIsMaximumPerEncounter(front, boss);
      assert forall i :: 0 <= i < n ==> parses[i] == front[i];
      var m := BestMap(parses);
      if boss in m && parses[n].encounterName == boss && m[boss] == parses[n].percentile {
        assert parses[n].percentile > 0.0;
      } else if boss in m {
        var i :| 0 <= i < |front| && front[i].encounterName == boss && front[i].percentile == BestMap(front)[boss];
        assert parses[i].percentile == m[boss];
      }
    }
  }

  /** `sum(d.values())` for a dictionary of reals: the value of some key plus
      the sum of the rest. Which key is taken first does not matter, as
      `SumValuesRemove` shows. */
  ghost function SumValues(m: map<string, real>): (r: real)
    ensures (forall k :: k in m ==> m[k] > 0.0) ==> r >= 0.0 && (m != map[] ==> r > 0.0)
    decreases |m|
  {
    if m == map[] then 0.0
    else
      var k :| k in m;
      m[k] + SumValues(m - {k})
  }

  lemma CardRemove(m: map<string, real>, k: string)
    requires k in m
    ensures |m - {k}| == |m| - 1
  {
    assert (m - {k}).Keys == m.Keys - {k};
  }

  /** The sum can be split at any key. */
  lemma {:induction false} SumValuesRemove(m: map<string, real>, k: string)
    requires k in m
    ensures SumValues(m) == m[k] + SumValues(m - {k})
    decreases |m|
  {
    var j :| j in m && SumValues(m) == m[j] + SumValues(m - {j});
    if j != k {
      CardRemove(m, j);
      CardRemove(m, k);
      SumValuesRemove(m - {j}, k);
      SumValuesRemove(m - {k}, j);
      assert m - {j} - {k} == m - {k} - {j};
    }
  }

  /** The mean of the per-encounter bests, or the division by zero the
      source runs into when the dictionary is empty. */
  ghost function BestPerfAvg(parses: seq<Parse>): (r: Result<real, ArithmeticError>)
    ensures r.Failure? <==> BestMap(parses) == map[]
    ensures r.Success? ==> r.value > 0.0
  {
    var best := BestMap(parses);
    if |best| == 0 then Failure(ZeroDivisionError)
    else
      DivPositive(SumValues(best), |best| as real);
      Success(SumValues(best) / (|best| as real))
  }

  lemma DivPositive(x: real, n: real)
    requires x > 0.0 && n > 0.0
    ensures x / n > 0.0
  {
  }

  /** `v` added to itself `n` times, so that the bounds below stay linear. */
  function Times(n: nat, v: real): real
  {
    if n == 0 then 0.0 else Times(n - 1, v) + v
  }

  lemma {:induction false} TimesIsProduct(n: nat, v: real)
    ensures Times(n, v) == (n as real) * v
  {
    if n > 0 {
      TimesIsProduct(n - 1, v);
      Distribute((n - 1) as real, v);
    }
  }

  lemma Distribute(n: real, v: real)
    ensures (n + 1.0) * v == n * v + v
  {
  }

  /** If every value exceeds `v`, the sum exceeds `v` taken `|m|` times. */
  lemma {:induction false} SumValuesAbove(m: map<string, real>, v: real)
    requires m != map[]
    requires forall k :: k in m ==> m[k] > v
    ensures SumValues(m) > Times(|m|, v)
    decreases |m|
  {
    var k :| k in m && SumValues(m) == m[k] + SumValues(m - {k});
    CardRemove(m, k);
    var rest := m - {k};
    if rest != map[] {
      SumValuesAbove(rest, v);
    }
  }

  /** If every value is below `v`, the sum is below `v` taken `|m|` times. */
  lemma {:induction false} SumValuesBelow(m: map<string, real>, v: real)
    requires m != map[]
    requires forall k :: k in m ==> m[k] < v
    ensures SumValues(m) < Times(|m|, v)
    decreases |m|
  {
    var k :| k in m && SumValues(m) == m[k] + SumValues(m - {k});
    CardRemove(m, k);
    var rest := m - {k};
    if rest != map[] {
      SumValuesBelow(rest, v);
    }
  }

  /** The sum of one value is that value. */
  lemma SumValuesSingleton(boss: string, x: real)
    ensures SumValues(map[boss := x]) == x
  {
    var m := map[boss := x];
    SumValuesRemove(m, boss);
    assert m - {boss} == map[];
  }

  /** The computation fails with division by zero exactly when no record has
      a positive percentile, which includes the empty input. */
  lemma BestPerfAvgFailsIff(parses: seq<Parse>)
    ensures BestPerfAvg(parses).Failure? <==> forall i :: 0 <= i < |parses| ==> parses[i].percentile <= 0.0
  {
    var m := BestMap(parses);
    if |m| == 0 {
      forall i | 0 <= i < |parses| ensures parses[i].percentile <= 0.0 {
        BestMapIsMaximumPerEncounter(parses, parses[i].encounterName);
      }
    } else {
      assert m.Keys != {};
      var boss :| boss in m;
      BestMapIsMaximumPerEncounter(parses, boss);
    }
  }

  /** A successful result lies between the smallest and the largest
      per-encounter best, and so is positive. */
  lemma BestPerfAvgIsBetweenBests(parses: seq<Parse>)
    requires BestPerfAvg(parses).Success?
    ensures var avg, best := BestPerfAvg(parses).value, BestMap(parses);
      && (exists lo :: lo in best && best[lo] <= avg)
      && (exists hi :: hi in best && avg <= best[hi])
      && avg > 0.0
  {
    var avg, best := BestPerfAvg(parses).value, BestMap(parses);
    MeanIsBetween(best, avg);
    var lo :| lo in best && best[lo] <= avg;
    var hi :| hi in best && avg <= best[hi];
    assert lo in BestMap(parses) && BestMap(parses)[lo] <= avg;
    assert hi in BestMap(parses) && avg <= BestMap(parses)[hi];
  }

  /** The mean of a non-empty map's values is at least one value and at most one value. */
  lemma MeanIsBetween(m: map<string, real>, avg: real)
    requires m != map[]
    requires avg == SumValues(m) / (|m| as real)
    ensures exists lo :: lo in m && m[lo] <= avg
    ensures exists hi :: hi in m && avg <= m[hi]
  {
    var total := SumValues(m);
    MulDiv(total, |m| as real, avg);
    TimesIsProduct(|m|, avg);
    assert Times(|m|, avg) == total;
    if forall k :: k in m ==> m[k] > avg {
      SumValuesAbove(m, avg);
      assert false;
    }
    if forall k :: k in m ==> m[k] < avg {
      SumValuesBelow(m, avg);
      assert false;
    }
  }

  lemma MulDiv(x: real, n: real, q: real)
    requires n > 0.0 && q == x / n
    ensures n * q == x
  {
  }

  /** When every record names the same boss and one of them is positive, the
      result is that boss's best percentile: one of the inputs, and no input
      is larger. */
  lemma BestPerfAvgOfOneEncounter(parses: seq<Parse>, boss: string)
    requires forall i :: 0 <= i < |parses| ==> parses[i].encounterName == boss
    requires exists i :: 0 <= i < |parses| && parses[i].percentile > 0.0
    ensures BestPerfAvg(parses).Success?
    ensures exists i :: 0 <= i < |parses| && parses[i].percentile == BestPerfAvg(parses).value
    ensures forall i :: 0 <= i < |parses| ==> parses[i].percentile <= BestPerfAvg(parses).value
  {
    var m := BestMap(parses);
    BestMapIsMaximumPerEncounter(parses, boss);
    var best := m[boss];
    assert m == map[boss := best] by {
      forall b | b in m ensures b == boss {
        BestMapIsMaximumPerEncounter(parses, b);
      }
      assert m.Keys == {boss};
    }
    assert |m| == 1;
    SumValuesSingleton(boss, best);
    assert BestPerfAvg(parses) == Success(best);
  }

  /** Two parses on "A" (50 and 80) and one on "B" (60) average to (80 + 60) / 2. */
  lemma BestPerfAvgExample()
    ensures BestPerfAvg([Parse("A", "mage", "fire", 50.0), Parse("A", "mage", "fire", 80.0),
                         Parse("B", "mage", "fire", 60.0)]) == Success(70.0)
  {
    var parses := [Parse("A", "mage", "fire", 50.0), Parse("A", "mage", "fire", 80.0),
                   Parse("B", "mage", "fire", 60.0)];
    var m := map["A" := 80.0, "B" := 60.0];
    ExampleBestMap(parses);
    ExampleSum(m);
    assert |m| == 2 by {
      assert m.Keys == {"A", "B"};
    }
  }

  lemma ExampleBestMap(parses: seq<Parse>)
    requires parses == [Parse("A", "mage", "fire", 50.0), Parse("A", "mage", "fire", 80.0),
                        Parse("B", "mage", "fire", 60.0)]
    ensures BestMap(parses) == map["A" := 80.0, "B" := 60.0]
  {
    assert parses[..1][..0] == [];
    assert BestMap(parses[..1]) == map["A" := 50.0];
    assert parses[..2][..1] == parses[..1];
    assert BestMap(parses[..2]) == map["A" := 80.0];
  }

  lemma ExampleSum(m: map<string, real>)
    requires m == map["A" := 80.0, "B" := 60.0]
    ensures SumValues(m) == 140.0
  {
    SumValuesRemove(m, "A");
    assert m - {"A"} == map["B" := 60.0];
    SumValuesSingleton("B", 60.0);
  }

  /** An encounter whose best percentile is 0 never enters the dictionary and
      is not counted: a 0 on "A" and a 60 on "B" average to 60, not 30. */
  lemma ZeroPercentileEncounterIsNotCounted()
    ensures BestPerfAvg([Parse("A", "mage", "fire", 0.0), Parse("B", "mage", "fire", 60.0)]) == Success(60.0)
  {
    var parses := [Parse("A", "mage", "fire", 0.0), Parse("B", "mage", "fire", 60.0)];
    assert BestMap(parses) == map["B" := 60.0] by {
      assert parses[..1][..0] == [];
    }
    SumValuesSingleton("B", 60.0);
  }

  /** `get_best_perf_avg(parses)`: the dictionary loop, then the summing loop
      over its keys, then the division. */
  method GetBestPerfAvg(parses: seq<Parse>) returns (r: Result<real, ArithmeticError>)
    ensures r == BestPerfAvg(parses)
  {
    var playerParses: map<string, real> := map[];
    var i := 0;
    while i < |parses|
      invariant 0 <= i <= |parses|
      invariant playerParses == BestMap(parses[..i])
    {
      var boss := parses[i].encounterName;
      var percentile := parses[i].percentile;
      var bestParse: real;
      if boss in playerParses {
        bestParse := playerParses[boss];
      } else {
        bestParse := 0.0;
      }
      if bestParse < percentile {
        playerParses := playerParses[boss := percentile];
      }
      assert parses[..i + 1][..i] == parses[..i];
      i := i + 1;
    }
    assert parses[..i] == parses;

    var totalBosses := |playerParses|;
    var total := 0.0;
    var unseen := playerParses.Keys;
    assert (map b | b in unseen :: playerParses[b]) == playerParses;
    while unseen != {}
      invariant unseen <= playerParses.Keys
      invariant total + SumValues(map b | b in unseen :: playerParses[b]) == SumValues(playerParses)
      decreases |unseen|
    {
      var bossName :| bossName in unseen;
      var rest := map b | b in unseen :: playerParses[b];
      SumValuesRemove(rest, bossName);
      assert rest - {bossName} == map b | b in unseen - {bossName} :: playerParses[b];
      total := total + playerParses[bossName];
      unseen := unseen - {bossName};
    }

    if totalBosses == 0 {
      r := Failure(ZeroDivisionError);
    } else {
      r := Success(total / (totalBosses as real));
    }
  }
}
