/** The training status bar chart: each module's three status counts, copied
    through, with a completion rate that is guarded against an empty total. */
module TrainingCompletionChart {
  import opened Rounding

  /** A module's status counts, as the chart receives them. */
  datatype TrainingData = TrainingData(trainingModule: string, inProgress: int, notStarted: int, completed: int)

  /** A bar group of `chartData`. */
  datatype ChartPoint = ChartPoint(name: string, notStarted: int, inProgress: int, completed: int, completionRate: int)

  function Total(item: TrainingData): int
  {
    item.notStarted + item.inProgress + item.completed
  }

  /** `Math.round(completed / total * 100)` when the total is positive, else 0. */
  function CompletionRate(item: TrainingData): (rate: int)
    ensures Total(item) <= 0 ==> rate == 0
    ensures item.notStarted >= 0 && item.inProgress >= 0 && item.completed >= 0 ==> 0 <= rate <= 100
    ensures item.notStarted == 0 && item.inProgress == 0 && item.completed > 0 ==> rate == 100
    ensures Total(item) > 0 && item.completed == 0 ==> rate == 0
  {
    if Total(item) > 0 then Percent(item.completed, Total(item)) else 0
  }

  function PointOf(item: TrainingData): ChartPoint
  {
    ChartPoint(item.trainingModule, item.notStarted, item.inProgress, item.completed, CompletionRate(item))
  }

  /** `chartData`: one bar group per module, in the same order, named after the
      module, with the three counts unchanged. */
  function ChartData(data: seq<TrainingData>): (points: seq<ChartPoint>)
    ensures |points| == |data|
    ensures forall i :: 0 <= i < |data| ==>
      && points[i].name == data[i].trainingModule
      && points[i].notStarted == data[i].notStarted
      && points[i].inProgress == data[i].inProgress
      && points[i].completed == data[i].completed
      && points[i].completionRate == CompletionRate(data[i])
  {
    seq(|data|, i requires 0 <= i < |data| => PointOf(data[i]))
  }

  /** A module's rate grows with its completions: moving one unit from not
      started to completed never lowers it. */
  lemma RateMonotone(item: TrainingData)
    requires item.notStarted > 0 && item.inProgress >= 0 && item.completed >= 0
    ensures CompletionRate(item) <= CompletionRate(item.(notStarted := item.notStarted - 1, completed := item.completed + 1))
  {
    var t := Total(item) as real;
    var before := item.completed as real / t * 100.0;
    var after := (item.completed + 1) as real / t * 100.0;
    assert before <= after;
  }
}
