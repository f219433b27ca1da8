/** The dashboard's journey card
    (src/pages/student-dashboard/components/ProgressOverview.jsx): four
    milestones with their progress, the rounded overall figure, the per-card
    status and the recommended next step. */
module ProgressOverview {
  import opened Wrappers
  import opened Arith
  import ProgressIndicator

  /** A milestone card; `completed` is derived from `progress`. */
  datatype Milestone = Milestone(caption: string, icon: string, progress: int, completed: bool)

  function MakeMilestone(caption: string, icon: string, progress: int): Milestone
  {
    Milestone(caption, icon, progress, progress == 100)
  }

  /** `progressSteps`: Assessment, Explore, Research and Plan, each done
      exactly at 100. */
  function Milestones(assessment: int, exploration: int, research: int, timeline: int): (r: seq<Milestone>)
    ensures |r| == 4
    ensures r[0].progress == assessment && r[1].progress == exploration
            && r[2].progress == research && r[3].progress == timeline
    ensures forall i :: 0 <= i < 4 ==> (r[i].completed <==> r[i].progress == 100)
  {
    [MakeMilestone("Assessment", "Brain", assessment),
     MakeMilestone("Explore", "Compass", exploration),
     MakeMilestone("Research", "GraduationCap", research),
     MakeMilestone("Plan", "Calendar", timeline)]
  }

  /** `overallProgress`: the mean of the four figures rounded to the nearest
      integer, halves up. */
  function Overall(assessment: int, exploration: int, research: int, timeline: int): (r: int)
    ensures var sum := assessment + exploration + research + timeline;
            8 * r - 4 <= 2 * sum < 8 * r + 4
  {
    RoundDiv(assessment + exploration + research + timeline, 4)
  }

  /** With every figure a percentage the overall is one too; it grows with
      each figure and is 100 when everything is done. */
  lemma OverallBounds(a: int, e: int, c: int, t: int, a': int)
    requires 0 <= a <= a' <= 100 && 0 <= e <= 100 && 0 <= c <= 100 && 0 <= t <= 100
    ensures 0 <= Overall(a, e, c, t) <= Overall(a', e, c, t) <= 100
    ensures Overall(100, 100, 100, 100) == 100
  {
    RoundDivUnique(0, 4, 0);
    RoundDivUnique(400, 4, 100);
    RoundDivMonotone(0, a + e + c + t, 4);
    RoundDivMonotone(a + e + c + t, a' + e + c + t, 4);
    RoundDivMonotone(a' + e + c + t, 400, 4);
  }

  /** The dashboard's figures 85, 60, 30 and 15 average 47.5, shown as 48. */
  lemma DashboardOverall()
    ensures Overall(85, 60, 30, 15) == 48
  {
    RoundDivUnique(190, 4, 48);
  }

  /** Rounding can show "100%" overall while the last milestone is not done:
      any timeline figure from 98 up gives a full overall. */
  lemma FullOverallWithUnfinishedStep(timeline: int)
    requires 98 <= timeline < 100
    ensures Overall(100, 100, 100, timeline) == 100
    ensures !Milestones(100, 100, 100, timeline)[3].completed
  {
    RoundDivUnique(300 + timeline, 4, 100);
  }

  /** `isActive`: the card whose 1-based number is the current step. */
  predicate IsActive(index: int, currentStep: int)
  {
    index + 1 == currentStep
  }

  /** At most one card is active, and one is exactly when the current step
      is between 1 and 4. */
  lemma OneActiveCard(currentStep: int, i: int, j: int)
    requires 0 <= i < 4 && 0 <= j < 4 && IsActive(i, currentStep) && IsActive(j, currentStep)
    ensures i == j
    ensures 1 <= currentStep <= 4
  {
  }

  lemma ActiveCardExists(currentStep: int)
    ensures (exists i :: 0 <= i < 4 && IsActive(i, currentStep)) <==> 1 <= currentStep <= 4
  {
    if 1 <= currentStep <= 4 {
      assert IsActive(currentStep - 1, currentStep);
    }
  }

  /** The card's border and heading colour: the active styling wins over the
      completed one. */
  datatype Tone = ActiveTone | DoneTone | PlainTone

  function CardTone(active: bool, completed: bool): (t: Tone)
    ensures t == ActiveTone <==> active
    ensures t == DoneTone <==> !active && completed
  {
    if active then ActiveTone else if completed then DoneTone else PlainTone
  }

  /** The card's badge text: here the completed state wins over the active one. */
  function CardBadge(active: bool, completed: bool): (s: string)
    ensures s == "Done" <==> completed
    ensures s == "Active" <==> !completed && active
    ensures s == "Pending" <==> !completed && !active
  {
    if completed then "Done" else if active then "Active" else "Pending"
  }

  /** The two precedences agree except on a card that is both active and
      completed, which gets the active border but the "Done" badge. */
  lemma ToneAndBadge(active: bool, completed: bool)
    ensures !(active && completed) ==>
              (CardTone(active, completed) == ActiveTone <==> CardBadge(active, completed) == "Active")
              && (CardTone(active, completed) == DoneTone <==> CardBadge(active, completed) == "Done")
    ensures active && completed ==> CardTone(active, completed) == ActiveTone && CardBadge(active, completed) == "Done"
  {
  }

  /** The card icon: a check once done, else the milestone's own icon. */
  function CardIcon(m: Milestone): (icon: string)
    ensures m.completed ==> icon == "Check"
    ensures !m.completed ==> icon == m.icon
  {
    if m.completed then "Check" else m.icon
  }

  /** "Recommended Next Step": one sentence per step 1 to 4, none otherwise. */
  function Recommendation(currentStep: int): (r: Option<string>)
    ensures r.Some? <==> 1 <= currentStep <= 4
  {
    if currentStep == 1 then Some("Complete your aptitude assessment to discover your strengths")
    else if currentStep == 2 then Some("Explore career paths that match your assessment results")
    else if currentStep == 3 then Some("Research colleges and programs for your chosen career")
    else if currentStep == 4 then Some("Create your application timeline and track deadlines")
    else None
  }

  /** Each step has its own sentence. */
  lemma RecommendationsDistinct(a: int, b: int)
    requires 1 <= a <= 4 && 1 <= b <= 4 && a != b
    ensures Recommendation(a) != Recommendation(b)
  {
  }

  /** The steps handed to the indicator above the cards. */
  function IndicatorSteps(ms: seq<Milestone>): (r: seq<ProgressIndicator.Step>)
    ensures |r| == |ms|
    ensures forall i :: 0 <= i < |ms| ==> r[i].caption == ms[i].caption && r[i].icon == ms[i].icon
  {
    seq(|ms|, i requires 0 <= i < |ms| => ProgressIndicator.Step(ms[i].caption, ms[i].icon, ""))
  }

  /** With the dashboard's own figures (current step 2, Assessment at 85) the
      indicator paints Assessment as completed, with a check, because it
      comes before the current step, while its card below says "Pending"
      because its progress is not 100. */
  lemma IndicatorAndCardsDisagree()
    ensures var ms := Milestones(85, 60, 30, 15);
            var steps := ProgressIndicator.ProgressSteps(IndicatorSteps(ms), 4);
            ProgressIndicator.StepStatus(1, 2) == ProgressIndicator.Completed
            && ProgressIndicator.StepIcon(steps[0], ProgressIndicator.Completed) == "Check"
            && CardBadge(IsActive(0, 2), ms[0].completed) == "Pending"
            && CardIcon(ms[0]) == "Brain"
  {
  }
}
