/** The step indicator shared by the dashboard and other pages
    (src/components/ui/ProgressIndicator.jsx): which steps it draws, the
    completed / current / upcoming status of each, the icons, the compact
    "current/total" caption and the detailed current-step panel. */
module ProgressIndicator {
  import opened Wrappers
  import opened Seqs
  import opened Strings
  import opened Arith

  /** A step; the empty string stands for a missing (falsy) icon. */
  datatype Step = Step(caption: string, icon: string, description: string)

  /** The four steps drawn when the caller passes none. */
  const DEFAULT_STEPS: seq<Step> := [
    Step("Assessment", "Brain", "Complete aptitude test"),
    Step("Explore", "Compass", "Discover careers"),
    Step("Research", "Search", "Find colleges"),
    Step("Plan", "Calendar", "Create timeline")
  ]

  /** The end position `slice(0, end)` stops at on a list of length `len`:
      a negative end counts back from the end, and both sides are clamped. */
  function SliceEnd(len: nat, end: int): (k: nat)
    ensures k <= len
  {
    if end < 0 then (if len + end < 0 then 0 else len + end)
    else if end > len then len else end
  }

  /** `progressSteps`: the caller's steps when there are any, otherwise the
      defaults cut with `slice(0, totalSteps)`. */
  function ProgressSteps(steps: seq<Step>, totalSteps: int): (r: seq<Step>)
    ensures |steps| > 0 ==> r == steps
    ensures |steps| == 0 ==> r <= DEFAULT_STEPS
    ensures |steps| == 0 && 0 <= totalSteps <= |DEFAULT_STEPS| ==> |r| == totalSteps
    ensures |steps| == 0 && totalSteps >= |DEFAULT_STEPS| ==> r == DEFAULT_STEPS
    ensures |steps| == 0 && -|DEFAULT_STEPS| <= totalSteps < 0 ==> |r| == |DEFAULT_STEPS| + totalSteps
  {
    if |steps| > 0 then steps else DEFAULT_STEPS[..SliceEnd(|DEFAULT_STEPS|, totalSteps)]
  }

  datatype Status = Completed | Current | Upcoming

  /** `getStepStatus`, applied to the 1-based step number. */
  function StepStatus(stepNumber: int, currentStep: int): (s: Status)
    ensures s == Completed <==> stepNumber < currentStep
    ensures s == Current <==> stepNumber == currentStep
    ensures s == Upcoming <==> stepNumber > currentStep
  {
    if stepNumber < currentStep then Completed
    else if stepNumber == currentStep then Current
    else Upcoming
  }

  /** The statuses of `n` drawn steps, numbered 1 to `n`. */
  function Statuses(n: nat, currentStep: int): (r: seq<Status>)
    ensures |r| == n
    ensures forall i :: 0 <= i < n ==> r[i] == StepStatus(i + 1, currentStep)
  {
    seq(n, i requires 0 <= i < n => StepStatus(i + 1, currentStep))
  }

  function HasStatus(s: Status): Status -> bool
  {
    (x: Status) => x == s
  }

  /** `x` clamped into `0..n`. */
  function Clamp(x: int, n: nat): (r: nat)
    ensures r <= n
  {
    if x < 0 then 0 else if x > n then n else x
  }

  /** `totalSteps - currentStep`, the "steps remaining" figure. */
  function Remaining(totalSteps: int, currentStep: int): int
  {
    totalSteps - currentStep
  }

  /** Over `n` drawn steps, the steps before the current one are completed,
      at most one is current (exactly one when the current step is drawn),
      and the rest are upcoming. */
  lemma {:induction false} StatusCounts(n: nat, currentStep: int)
    ensures Count(Statuses(n, currentStep), HasStatus(Completed)) == Clamp(currentStep - 1, n)
    ensures Count(Statuses(n, currentStep), HasStatus(Current)) == if 1 <= currentStep <= n then 1 else 0
    ensures Count(Statuses(n, currentStep), HasStatus(Upcoming)) == n - Clamp(currentStep, n)
    decreases n
  {
    if n > 0 {
      StatusCounts(n - 1, currentStep);
      var s := Statuses(n, currentStep);
      assert s == Statuses(n - 1, currentStep) + [StepStatus(n, currentStep)];
      FilterConcat(Statuses(n - 1, currentStep), [StepStatus(n, currentStep)], HasStatus(Completed));
      FilterConcat(Statuses(n - 1, currentStep), [StepStatus(n, currentStep)], HasStatus(Current));
      FilterConcat(Statuses(n - 1, currentStep), [StepStatus(n, currentStep)], HasStatus(Upcoming));
    }
  }

  /** When the current step is one of the `totalSteps` drawn, "steps
      remaining" is exactly the number of upcoming steps. */
  lemma RemainingIsUpcoming(totalSteps: nat, currentStep: int)
    requires 1 <= currentStep <= totalSteps
    ensures Remaining(totalSteps, currentStep) == Count(Statuses(totalSteps, currentStep), HasStatus(Upcoming))
  {
    StatusCounts(totalSteps, currentStep);
  }

  /** `getStepIcon`: a check for completed steps, otherwise the step's own
      icon or 'Circle' when it has none. */
  function StepIcon(step: Step, status: Status): (icon: string)
    ensures status == Completed ==> icon == "Check"
    ensures status != Completed && step.icon != "" ==> icon == step.icon
    ensures status != Completed && step.icon == "" ==> icon == "Circle"
    ensures icon != ""
  {
    if status == Completed then "Check" else if step.icon != "" then step.icon else "Circle"
  }

  /** The detailed panel's step: `progressSteps[currentStep - 1]`, absent
      when that index is outside the list. */
  function CurrentStepInfo(steps: seq<Step>, currentStep: int): (r: Option<Step>)
    ensures r.Some? <==> Current in Statuses(|steps|, currentStep)
    ensures forall i :: 0 <= i < |steps| && Statuses(|steps|, currentStep)[i] == Current ==> r == Some(steps[i])
  {
    if 1 <= currentStep <= |steps| then
      assert Statuses(|steps|, currentStep)[currentStep - 1] == Current;
      Some(steps[currentStep - 1])
    else None
  }

  /** The panel's icon: the current step's icon, or 'Circle'. */
  function CurrentStepIcon(steps: seq<Step>, currentStep: int): (icon: string)
    ensures icon != ""
    ensures CurrentStepInfo(steps, currentStep).Some? && CurrentStepInfo(steps, currentStep).value.icon != ""
            ==> icon == CurrentStepInfo(steps, currentStep).value.icon
  {
    match CurrentStepInfo(steps, currentStep)
    case Some(s) => if s.icon != "" then s.icon else "Circle"
    case None => "Circle"
  }

  /** The compact variant's caption `${a}/${b}` (also the achievements
      header). */
  function FractionLabel(a: int, b: int): (s: string)
    ensures Split(s, '/') == [IntToString(a), IntToString(b)]
  {
    NoSeparatorInNumber(if a < 0 then -a else a, '/');
    NoSeparatorInNumber(if b < 0 then -b else b, '/');
    assert '/' !in IntToString(a) && '/' !in IntToString(b);
    SplitAppend(IntToString(a), IntToString(b), '/');
    SplitNoSep(IntToString(b), '/');
    IntToString(a) + ['/'] + IntToString(b)
  }

  /** For counts, the caption reads back as the two numbers. */
  lemma FractionLabelReadsBack(a: nat, b: nat)
    ensures var parts := Split(FractionLabel(a, b), '/');
            |parts| == 2 && ParseNat(parts[0]) == Some(a) && ParseNat(parts[1]) == Some(b)
  {
    ParseNatToString(a);
    ParseNatToString(b);
  }

  /** `Math.round(progressPercentage)` with
      `progressPercentage = (currentStep - 1) / (totalSteps - 1) * 100`;
      a one-step indicator divides by zero and shows no number. */
  function PercentComplete(currentStep: int, totalSteps: int): (r: Option<int>)
    ensures r.None? <==> totalSteps == 1
    ensures totalSteps > 1 ==> var d := totalSteps - 1;
              2 * d * r.value - d <= 200 * (currentStep - 1) < 2 * d * r.value + d
  {
    if totalSteps > 1 then Some(RoundDiv(100 * (currentStep - 1), totalSteps - 1))
    else if totalSteps < 1 then Some(RoundDiv(100 * (1 - currentStep), 1 - totalSteps))
    else None
  }

  /** Along the steps of a multi-step indicator the figure climbs from 0 on
      the first step to 100 on the last, never going down. */
  lemma PercentCompleteRange(currentStep: int, next: int, totalSteps: int)
    requires totalSteps > 1 && 1 <= currentStep <= next <= totalSteps
    ensures PercentComplete(1, totalSteps) == Some(0)
    ensures PercentComplete(totalSteps, totalSteps) == Some(100)
    ensures 0 <= PercentComplete(currentStep, totalSteps).value <= PercentComplete(next, totalSteps).value <= 100
  {
    var d := totalSteps - 1;
    RoundDivUnique(0, d, 0);
    RoundDivUnique(100 * d, d, 100);
    RoundDivMonotone(0, 100 * (currentStep - 1), d);
    RoundDivMonotone(100 * (currentStep - 1), 100 * (next - 1), d);
    RoundDivMonotone(100 * (next - 1), 100 * d, d);
  }
}
