/** The student's learning plans in `LearningPlanList.js`: the status badge style, the progress
    bar colour, the summary cards and the topic preview of each plan. */
module LearningPlans {
  import opened Common
  import opened Lists
  import opened Percent

  datatype Topic = Topic(topicName: string, isCompleted: bool)

  /** A plan; an absent `recommendedTopics` array is an empty one. */
  datatype Plan = Plan(status: string, overallProgress: Option<int>, recommendedTopics: seq<Topic>, totalTopicsCount: Option<nat>)

  datatype Style = Gray | Blue | Green | Yellow

  /** `getStatusBadge`'s colour: a status outside `Pending`, `In Progress` and `Completed` gets
      the `Pending` style. */
  function StatusStyle(status: string): (c: Style)
    ensures c == Blue <==> status == "In Progress"
    ensures c == Green <==> status == "Completed"
    ensures c == Gray <==> status != "In Progress" && status != "Completed"
  {
    if status == "In Progress" then Blue else if status == "Completed" then Green else Gray
  }

  /** `getProgressColor`: green only at exactly 100, blue from 50 (above 100 too), yellow above 0,
      grey otherwise. */
  function ProgressColor(progress: int): (c: Style)
    ensures c == Green <==> progress == 100
    ensures c == Blue <==> progress >= 50 && progress != 100
    ensures c == Yellow <==> 0 < progress < 50
    ensures c == Gray <==> progress <= 0
  {
    if progress == 100 then Green else if progress >= 50 then Blue else if progress > 0 then Yellow else Gray
  }

  /** `plan.overallProgress || 0`. */
  function ProgressOf(): Plan -> int
  {
    (p: Plan) => p.overallProgress.GetOr(0)
  }

  /** `plan.totalTopicsCount || plan.recommendedTopics?.length || 0`: a zero count falls through
      to the list's length. */
  function TopicsCount(p: Plan): (n: nat)
    ensures p.totalTopicsCount.Some? && p.totalTopicsCount.value > 0 ==> n == p.totalTopicsCount.value
    ensures p.totalTopicsCount.None? || p.totalTopicsCount.value == 0 ==> n == |p.recommendedTopics|
  {
    match p.totalTopicsCount
    case Some(c) => if c != 0 then c else |p.recommendedTopics|
    case None => |p.recommendedTopics|
  }

  // ---------------------------------------------------------------- summary cards

  datatype Summary = Summary(totalPlans: nat, inProgress: nat, completed: nat, averageProgress: int)

  function HasStatus(status: string): Plan -> bool
  {
    (p: Plan) => p.status == status
  }

  /** The average progress card: 0 without plans, otherwise `Math.round` of the mean progress. */
  function AverageProgress(plans: seq<Plan>): (r: int)
    ensures |plans| == 0 ==> r == 0
    ensures |plans| > 0 ==> 2 * |plans| * r <= 2 * SumOf(plans, ProgressOf()) + |plans| < 2 * |plans| * (r + 1)
  {
    if |plans| > 0 then RoundedMean(SumOf(plans, ProgressOf()), |plans|) else 0
  }

  function SummaryOf(plans: seq<Plan>): (s: Summary)
    ensures s.totalPlans == |plans| && s.averageProgress == AverageProgress(plans)
    ensures s.inProgress == |Filter(plans, HasStatus("In Progress"))|
    ensures s.completed == |Filter(plans, HasStatus("Completed"))|
  {
    Summary(|plans|, |Filter(plans, HasStatus("In Progress"))|, |Filter(plans, HasStatus("Completed"))|, AverageProgress(plans))
  }

  predicate ProgressInRange(p: Plan)
  {
    0 <= ProgressOf()(p) <= 100
  }

  lemma {:induction false} ProgressSumInRange(plans: seq<Plan>)
    requires forall p :: p in plans ==> ProgressInRange(p)
    ensures 0 <= SumOf(plans, ProgressOf()) <= 100 * |plans|
  {
    if plans != [] {
      var n := |plans| - 1;
      assert forall p :: p in plans[..n] ==> p in plans;
      ProgressSumInRange(plans[..n]);
      assert plans[n] in plans;
    }
  }

  /** In-progress and completed plans never outnumber all plans. */
  lemma StatusCountsWithinTotal(plans: seq<Plan>)
    ensures SummaryOf(plans).inProgress + SummaryOf(plans).completed <= SummaryOf(plans).totalPlans
  {
    var notInProgress := (p: Plan) => p.status != "In Progress";
    FilterPartition(plans, HasStatus("In Progress"), notInProgress);
    FilterMonotone(plans, HasStatus("Completed"), notInProgress);
  }

  /** With every progress in 0..100 the average progress is in 0..100 too. */
  lemma AverageProgressInRange(plans: seq<Plan>)
    requires forall p :: p in plans ==> ProgressInRange(p)
    ensures 0 <= AverageProgress(plans) <= 100
  {
    if |plans| > 0 {
      ProgressSumInRange(plans);
      var r := AverageProgress(plans);
      if r > 100 {
        MulMonotone(2 * |plans|, 101, r);
      }
    }
  }

  // ---------------------------------------------------------------- topic preview

  datatype Preview = Preview(shown: seq<Topic>, more: Option<nat>)

  /** The topic chips: nothing for a plan without topics, else the first three and a `+N more`
      chip when there are more than three; shown chips and `N` account for every topic. */
  function TopicPreview(topics: seq<Topic>): (r: Option<Preview>)
    ensures r.None? <==> |topics| == 0
    ensures r.Some? ==> r.value.shown == topics[..Min(3, |topics|)]
    ensures r.Some? ==> (r.value.more.Some? <==> |topics| > 3)
    ensures r.Some? ==> |r.value.shown| + r.value.more.GetOr(0) == |topics|
  {
    if |topics| == 0 then None
    else Some(Preview(topics[..Min(3, |topics|)], if |topics| > 3 then Some(|topics| - 3) else None))
  }
}
