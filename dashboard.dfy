/** The figures the dashboard derives from the experiment listing: the
    total, the number of experiments per hazard level, the four bars of the
    distribution chart, the count of active hazards and the five most
    recent experiments. */
module Dashboard {
  import opened Schema

  /** The number of experiments in `list` whose level is `level`. */
  function Count(list: seq<Experiment>, level: string): (c: nat)
    ensures c <= |list|
  {
    if list == [] then 0
    else Count(list[..|list| - 1], level) + (if list[|list| - 1].hazardLevel == level then 1 else 0)
  }

  lemma {:induction false} CountPositive(list: seq<Experiment>, level: string)
    ensures Count(list, level) > 0 <==> exists i :: 0 <= i < |list| && list[i].hazardLevel == level
  {
    if list != [] {
      var init := list[..|list| - 1];
      CountPositive(init, level);
      if exists i :: 0 <= i < |init| && init[i].hazardLevel == level {
        var i :| 0 <= i < |init| && init[i].hazardLevel == level;
        assert list[i] == init[i];
      }
      if exists i :: 0 <= i < |list| && list[i].hazardLevel == level {
        var i :| 0 <= i < |list| && list[i].hazardLevel == level;
        if i < |init| {
          assert init[i] == list[i];
        }
      }
    }
  }

  /** `acc` is the per-level tally of `list`: its keys are the levels that
      occur, each mapped to its number of experiments. */
  ghost predicate Tallies(acc: map<string, nat>, list: seq<Experiment>) {
    forall level :: (level in acc <==> Count(list, level) > 0) && (level in acc ==> acc[level] == Count(list, level))
  }

  /** A tally is determined by the list. */
  lemma TalliesUnique(a: map<string, nat>, b: map<string, nat>, list: seq<Experiment>)
    requires Tallies(a, list) && Tallies(b, list)
    ensures a == b
  {
    assert a.Keys == b.Keys by {
      forall level ensures level in a <==> level in b {
        assert (level in a <==> Count(list, level) > 0) && (level in b <==> Count(list, level) > 0);
      }
    }
    forall level | level in a ensures a[level] == b[level] {
      assert a[level] == Count(list, level) && b[level] == Count(list, level);
    }
  }

  /** The sum of the counts of a tally, over all its keys. */
  ghost function SumValues(m: map<string, nat>): nat
    decreases |m.Keys|
  {
    if m == map[] then 0
    else
      var k :| k in m;
      assert |(m - {k}).Keys| < |m.Keys| by {
        assert (m - {k}).Keys < m.Keys;
      }
      m[k] + SumValues(m - {k})
  }

  /** The sum can be split at any key. */
  lemma SumRemove(m: map<string, nat>, k: string)
    requires k in m
    ensures SumValues(m) == m[k] + SumValues(m - {k})
    decreases |m.Keys|
  {
    var j :| j in m && SumValues(m) == m[j] + SumValues(m - {j});
    if j != k {
      assert (m - {j}).Keys < m.Keys && (m - {k}).Keys < m.Keys;
      SumRemove(m - {j}, k);
      SumRemove(m - {k}, j);
      assert m - {j} - {k} == m - {k} - {j};
    }
  }

  /** The counts of a tally add up to the number of experiments. */
  lemma {:induction false} TallySum(acc: map<string, nat>, list: seq<Experiment>)
    requires Tallies(acc, list)
    ensures SumValues(acc) == |list|
  {
    if list == [] {
      assert acc.Keys == {} by {
        forall level ensures level !in acc {
          assert Count(list, level) == 0;
        }
      }
      assert acc == map[];
    } else {
      var init := list[..|list| - 1];
      var last := list[|list| - 1].hazardLevel;
      assert Count(list, last) > 0;
      var prev := if acc[last] == 1 then acc - {last} else acc[last := acc[last] - 1];
      forall level ensures (level in prev <==> Count(init, level) > 0)
                           && (level in prev ==> prev[level] == Count(init, level))
      {
        assert Count(list, level) == Count(init, level) + (if level == last then 1 else 0);
      }
      TallySum(prev, init);
      SumRemove(acc, last);
      if acc[last] != 1 {
        SumRemove(prev, last);
        assert prev - {last} == acc - {last};
      }
    }
  }

  /** `experimentsList.reduce(...)`: counts the experiments per hazard
      level, in one pass. */
  method HazardCounts(list: seq<Experiment>) returns (acc: map<string, nat>)
    ensures Tallies(acc, list)
    ensures forall level :: level in acc <==> exists i :: 0 <= i < |list| && list[i].hazardLevel == level
    ensures SumValues(acc) == |list|
  {
    acc := map[];
    var i := 0;
    while i < |list|
      invariant 0 <= i <= |list|
      invariant Tallies(acc, list[..i])
    {
      var level := list[i].hazardLevel;
      var next := acc[level := (if level in acc then acc[level] else 0) + 1];
      assert list[..i + 1][..i] == list[..i];
      forall l ensures (l in next <==> Count(list[..i + 1], l) > 0)
                       && (l in next ==> next[l] == Count(list[..i + 1], l))
      {
        assert Count(list[..i + 1], l) == Count(list[..i], l) + (if level == l then 1 else 0);
      }
      acc := next;
      i := i + 1;
    }
    assert list[..|list|] == list;
    forall level ensures level in acc <==> exists i :: 0 <= i < |list| && list[i].hazardLevel == level {
      CountPositive(list, level);
    }
    TallySum(acc, list);
  }

  /** `hazardCounts[level] || 0`. */
  function CountOf(counts: map<string, nat>, level: string): (n: nat)
    ensures level in counts ==> n == counts[level]
    ensures level !in counts ==> n == 0
  {
    if level in counts then counts[level] else 0
  }

  /** The level a tally stands for is counted whether or not it occurs. */
  lemma CountOfTally(counts: map<string, nat>, list: seq<Experiment>, level: string)
    requires Tallies(counts, list)
    ensures CountOf(counts, level) == Count(list, level)
  {
  }

  datatype Bar = Bar(name: string, count: nat)

  /** The levels the chart shows, and their labels. */
  const Levels: seq<string> := ["safe", "caution", "danger", "critical"]
  const Labels: seq<string> := ["Safe", "Caution", "Danger", "Critical"]

  /** `chartData`: one bar per level, in the order safe, caution, danger,
      critical. */
  function ChartData(counts: map<string, nat>): (bars: seq<Bar>)
    ensures |bars| == 4
    ensures forall i :: 0 <= i < 4 ==> bars[i] == Bar(Labels[i], CountOf(counts, Levels[i]))
  {
    seq(4, i requires 0 <= i < 4 => Bar(Labels[i], CountOf(counts, Levels[i])))
  }

  /** The chart of a tally shows, per level, the number of experiments with
      exactly that level (a level written differently, such as "Danger", is
      on no bar). */
  lemma ChartMatchesList(counts: map<string, nat>, list: seq<Experiment>)
    requires Tallies(counts, list)
    ensures forall i :: 0 <= i < 4 ==> ChartData(counts)[i].count == Count(list, Levels[i])
  {
    forall i | 0 <= i < 4 ensures ChartData(counts)[i].count == Count(list, Levels[i]) {
      CountOfTally(counts, list, Levels[i]);
    }
  }

  /** The experiments whose level is none of the four. */
  function Unlisted(list: seq<Experiment>): (c: nat)
    ensures c <= |list|
  {
    if list == [] then 0
    else Unlisted(list[..|list| - 1]) + (if list[|list| - 1].hazardLevel in Levels then 0 else 1)
  }

  /** `experimentsList.length`. */
  function TotalExperiments(list: seq<Experiment>): nat {
    |list|
  }

  /** The four bars and the experiments with any other level together make
      up the total; so the bars add up to the total exactly when every
      level is one of the four. */
  lemma {:induction false} ChartTotal(list: seq<Experiment>)
    ensures Count(list, "safe") + Count(list, "caution") + Count(list, "danger") + Count(list, "critical")
            + Unlisted(list) == TotalExperiments(list)
    ensures Unlisted(list) == 0 <==> forall i :: 0 <= i < |list| ==> list[i].hazardLevel in Levels
  {
    if list != [] {
      var init := list[..|list| - 1];
      ChartTotal(init);
      assert forall i :: 0 <= i < |init| ==> init[i] == list[i];
    }
  }

  /** The "Active Hazards" figure: `(danger || 0) + (critical || 0)`. */
  function ActiveHazards(counts: map<string, nat>): nat {
    CountOf(counts, "danger") + CountOf(counts, "critical")
  }

  /** Active hazards are the danger and critical experiments, never more
      than the total. */
  lemma ActiveHazardsOfList(counts: map<string, nat>, list: seq<Experiment>)
    requires Tallies(counts, list)
    ensures ActiveHazards(counts) == Count(list, "danger") + Count(list, "critical")
    ensures ActiveHazards(counts) <= TotalExperiments(list)
  {
    CountOfTally(counts, list, "danger");
    CountOfTally(counts, list, "critical");
    ChartTotal(list);
  }

  /** `experimentsList.slice(0, 5)`. */
  function RecentExperiments(list: seq<Experiment>): (r: seq<Experiment>)
    ensures |r| == if |list| < 5 then |list| else 5
    ensures r == list[..|r|]
  {
    if |list| < 5 then list else list[..5]
  }

  /** On a newest-first listing, no experiment left out of the recent ones
      is newer than one shown. */
  lemma RecentAreNewest(list: seq<Experiment>)
    requires forall i, j :: 0 <= i < j < |list| ==> list[i].createdAt >= list[j].createdAt
    ensures var r := RecentExperiments(list);
      forall i, j :: 0 <= i < |r| <= j < |list| ==> r[i].createdAt >= list[j].createdAt
  {
  }
}
