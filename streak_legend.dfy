/**
 * `StreakLegend`: one square per sample count, coloured by `getColor`.
 */
module StreakLegend {
  import opened ChartTypes
  import opened StreakColors

  /** The sample counts shown between "Less" and "More". */
  const LEGEND_VALUES: seq<int> := [0, 3, 10, 20, 30]

  /** The legend squares' colours, in sample order. */
  function LegendColors(primaryColor: string, darkMode: bool): (cs: seq<Color>)
    ensures |cs| == |LEGEND_VALUES|
    ensures forall i :: 0 <= i < |cs| ==> cs[i] == StreakColor(primaryColor, darkMode, LEGEND_VALUES[i])
  {
    seq(|LEGEND_VALUES|, i requires 0 <= i < |LEGEND_VALUES| => StreakColor(primaryColor, darkMode, LEGEND_VALUES[i]))
  }

  /** The samples increase strictly. */
  lemma LegendSamplesIncrease()
    ensures forall i, j :: 0 <= i < j < |LEGEND_VALUES| ==> LEGEND_VALUES[i] < LEGEND_VALUES[j]
  {
  }

  /** Sample i falls in step i: the five samples hit the five steps once each, in order. */
  lemma LegendHitsEachStep()
    ensures forall i :: 0 <= i < |LEGEND_VALUES| ==> StreakBucket(LEGEND_VALUES[i]) == i
  {
  }

  /** In either mode the legend is exactly the colour scale. */
  lemma LegendIsTheScale(primaryColor: string, darkMode: bool)
    ensures LegendColors(primaryColor, darkMode) == StreakScale(primaryColor, darkMode)
  {
    var cs := LegendColors(primaryColor, darkMode);
    LegendHitsEachStep();
    forall i | 0 <= i < 5 ensures cs[i] == StreakScale(primaryColor, darkMode)[i] {
      assert StreakBucket(LEGEND_VALUES[i]) == i;
    }
  }
}
