/** The aptitude assessment: the question cursor and answer map
    (src/pages/aptitude-assessment/index.jsx), the previous / next / submit
    buttons (src/pages/aptitude-assessment/components/NavigationControls.jsx)
    and the sidebar's tip rotation and encouragement tiers
    (src/pages/aptitude-assessment/components/SidebarTips.jsx). */
module Assessment {
  import opened Wrappers

  /** The bank holds twelve questions, with ids 1..12. */
  const TOTAL_QUESTIONS: int := 12

  /** The cursor (a 1-based question number) and the chosen option id per
      question number. */
  datatype State = State(current: int, answers: map<int, string>)

  const Start: State := State(1, map[])

  /** The cursor is on a question and only questions have answers. */
  ghost predicate Valid(s: State, total: int)
  {
    1 <= s.current <= total && forall q :: q in s.answers ==> 1 <= q <= total
  }

  /** `handleNext`: advance unless on the last question. */
  function Next(s: State, total: int): (r: State)
    ensures r.answers == s.answers
    ensures r.current == if s.current < total then s.current + 1 else s.current
  {
    if s.current < total then s.(current := s.current + 1) else s
  }

  /** `handlePrevious`: go back unless on the first question. */
  function Previous(s: State): (r: State)
    ensures r.answers == s.answers
    ensures r.current == if s.current > 1 then s.current - 1 else s.current
  {
    if s.current > 1 then s.(current := s.current - 1) else s
  }

  /** `handleAnswerSelect`: record or overwrite the current question's answer. */
  function AnswerSelect(s: State, option: string): (r: State)
    ensures r.current == s.current
    ensures r.current in r.answers && r.answers[r.current] == option
    ensures forall q :: q != s.current ==> (q in r.answers <==> q in s.answers)
    ensures forall q :: q != s.current && q in s.answers ==> r.answers[q] == s.answers[q]
  {
    s.(answers := s.answers[s.current := option])
  }

  /** `completedQuestions`: the question numbers that have an answer. */
  function CompletedQuestions(s: State): (r: set<int>)
    ensures forall q :: q in r <==> q in s.answers
  {
    s.answers.Keys
  }

  /** `selectedAnswer`: the current answer, or null when there is none
      (an empty option id reads as none, as `|| null` makes it). */
  function SelectedAnswer(s: State): (r: Option<string>)
    ensures r.Some? <==> s.current in s.answers && s.answers[s.current] != ""
    ensures r.Some? ==> r.value == s.answers[s.current]
  {
    if s.current in s.answers && s.answers[s.current] != "" then Some(s.answers[s.current]) else None
  }

  datatype Action = NextAction | PreviousAction | Answer(option: string)

  function Step(s: State, a: Action, total: int): State
  {
    match a
    case NextAction => Next(s, total)
    case PreviousAction => Previous(s)
    case Answer(o) => AnswerSelect(s, o)
  }

  function Run(s: State, actions: seq<Action>, total: int): State
    decreases |actions|
  {
    if |actions| == 0 then s else Run(Step(s, actions[0], total), actions[1..], total)
  }

  /** Whatever the user clicks, the cursor stays within 1..total and
      answers are only ever recorded for real questions. */
  lemma {:induction false} RunKeepsValid(s: State, actions: seq<Action>, total: int)
    requires Valid(s, total)
    ensures Valid(Run(s, actions, total), total)
    decreases |actions|
  {
    if |actions| > 0 {
      var t := Step(s, actions[0], total);
      assert Valid(t, total);
      RunKeepsValid(t, actions[1..], total);
    }
  }

  /** The assessment starts in a valid state. */
  lemma StartValid()
    ensures Valid(Start, TOTAL_QUESTIONS)
    ensures CompletedQuestions(Start) == {} && SelectedAnswer(Start) == None
  {
  }

  /** Next then Previous returns to the same question away from the last one. */
  lemma NextPrevious(s: State, total: int)
    requires 1 <= s.current < total
    ensures Previous(Next(s, total)) == s
  {
  }

  datatype Question = Question(id: int, text: string)

  /** `questions.find(q => q.id === currentQuestion)`. */
  function CurrentQuestion(questions: seq<Question>, current: int): (r: Option<Question>)
    ensures r.None? <==> forall i :: 0 <= i < |questions| ==> questions[i].id != current
    ensures r.Some? ==> r.value.id == current && r.value in questions
    decreases |questions|
  {
    if |questions| == 0 then None
    else if questions[0].id == current then Some(questions[0])
    else CurrentQuestion(questions[1..], current)
  }

  /** With ids numbered 1.. in order, question `k` is the `k`-th entry. */
  lemma CurrentQuestionByPosition(questions: seq<Question>, k: int)
    requires forall i :: 0 <= i < |questions| ==> questions[i].id == i + 1
    requires 1 <= k <= |questions|
    ensures CurrentQuestion(questions, k) == Some(questions[k - 1])
  {
    CurrentQuestionShift(questions, k, 0);
  }

  /** Searching ids `d + 1, d + 2, …` for `k` finds the `(k - d)`-th entry. */
  lemma {:induction false} CurrentQuestionShift(questions: seq<Question>, k: int, d: int)
    requires forall i :: 0 <= i < |questions| ==> questions[i].id == i + 1 + d
    requires d + 1 <= k <= d + |questions|
    ensures CurrentQuestion(questions, k) == Some(questions[k - d - 1])
    decreases |questions|
  {
    if questions[0].id != k {
      CurrentQuestionShift(questions[1..], k, d + 1);
    }
  }

  /** What the navigation bar shows. */
  datatype Forward = NextButton(nextEnabled: bool) | SubmitButton(submitEnabled: bool, caption: string)
  datatype NavBar = NavBar(previousEnabled: bool, previousVisible: bool, counter: (int, int), forward: Forward)

  function Controls(current: int, total: int, selected: Option<string>, submitting: bool): (b: NavBar)
    ensures b.previousEnabled <==> current != 1
    ensures b.previousVisible <==> current != 1
    ensures b.forward.SubmitButton? <==> current == total
    ensures b.forward.NextButton? ==> (b.forward.nextEnabled <==> selected.Some?)
    ensures b.forward.SubmitButton? ==> (b.forward.submitEnabled <==> selected.Some?)
    ensures b.counter == (current, total)
  {
    var isFirst := current == 1;
    var isLast := current == total;
    var canProceed := selected.Some?;
    NavBar(!isFirst, !isFirst, (current, total),
           if isLast then SubmitButton(canProceed, if submitting then "Submitting..." else "Submit Assessment")
           else NextButton(canProceed))
  }

  /** In a valid state an enabled Next button really advances, and an
      enabled Previous button really goes back. */
  lemma EnabledButtonsMove(s: State, total: int, submitting: bool)
    requires Valid(s, total)
    ensures var b := Controls(s.current, total, SelectedAnswer(s), submitting);
            (b.forward.NextButton? && b.forward.nextEnabled ==> Next(s, total).current == s.current + 1)
            && (b.previousEnabled ==> Previous(s).current == s.current - 1)
  {
  }

  /** The five sidebar tips rotate: each tick moves to the next, wrapping. */
  const TIP_COUNT: int := 5

  function TipStep(i: int): (r: int)
    requires 0 <= i < TIP_COUNT
    ensures 0 <= r < TIP_COUNT
    ensures r == if i + 1 < TIP_COUNT then i + 1 else 0
  {
    (i + 1) % TIP_COUNT
  }

  /** Five ticks bring the rotation back to the same tip. */
  lemma TipCycle(i: int)
    requires 0 <= i < TIP_COUNT
    ensures TipStep(TipStep(TipStep(TipStep(TipStep(i))))) == i
  {
  }

  /** `getProgressEncouragement` as a message index, comparing
      `current / total * 100` against 20, 40, 60 and 80 exactly. */
  function Encouragement(current: int, total: int): (k: int)
    requires total >= 0
    ensures 0 <= k <= 4
    ensures total > 0 ==> (k == 0 <==> 100 * current < 20 * total)
    ensures total > 0 ==> (k == 4 <==> 100 * current >= 80 * total)
    ensures total > 0 ==> forall j :: 0 < j <= 4 ==> (k >= j <==> 100 * current >= 20 * j * total)
  {
    if total == 0 then (if current < 0 then 0 else 4)
    else if 100 * current < 20 * total then 0
    else if 100 * current < 40 * total then 1
    else if 100 * current < 60 * total then 2
    else if 100 * current < 80 * total then 3
    else 4
  }

  /** Moving forward never produces a less advanced message, and the last
      question always gets the final one. */
  lemma EncouragementMonotone(a: int, b: int, total: int)
    requires total > 0 && a <= b
    ensures Encouragement(a, total) <= Encouragement(b, total)
    ensures Encouragement(total, total) == 4
  {
  }
}
