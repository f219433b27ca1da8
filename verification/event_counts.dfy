/** `getEventCounts` (src/pages/timeline-tracker/index.jsx): one pass over the
    events that bumps the event's category counter and then, for a completed
    event, `completed`, or otherwise `overdue` / `urgent` by days-until. */
module EventCounts {
  import opened Seqs
  import opened Events
  import opened Deadlines

  /** The counts object: six per-category counters and three aggregates. */
  datatype Counts = Counts(
    admission: nat, scholarship: nat, exam: nat, document: nat, interview: nat, result: nat,
    completed: nat, overdue: nat, urgent: nat)

  const ZeroCounts: Counts := Counts(0, 0, 0, 0, 0, 0, 0, 0, 0)

  /** `counts[category]`. */
  function ByCategory(c: Counts, cat: Category): nat
  {
    match cat
    case Admission => c.admission
    case Scholarship => c.scholarship
    case Exam => c.exam
    case Document => c.document
    case Interview => c.interview
    case Result => c.result
  }

  /** The six category counters added up. */
  function CategoryTotal(c: Counts): nat
  {
    c.admission + c.scholarship + c.exam + c.document + c.interview + c.result
  }

  /** `counts[category]++`. */
  function BumpCategory(c: Counts, cat: Category): (r: Counts)
    ensures ByCategory(r, cat) == ByCategory(c, cat) + 1
    ensures forall other :: other != cat ==> ByCategory(r, other) == ByCategory(c, other)
    ensures (r.completed, r.overdue, r.urgent) == (c.completed, c.overdue, c.urgent)
  {
    match cat
    case Admission => c.(admission := c.admission + 1)
    case Scholarship => c.(scholarship := c.scholarship + 1)
    case Exam => c.(exam := c.exam + 1)
    case Document => c.(document := c.document + 1)
    case Interview => c.(interview := c.interview + 1)
    case Result => c.(result := c.result + 1)
  }

  /** The loop body for one event, with "today" at local midnight of day `today`. */
  function Tally(c: Counts, e: Event, today: int): Counts
  {
    var c1 := BumpCategory(c, e.category);
    if e.completed then c1.(completed := c1.completed + 1)
    else
      match Classify(DaysUntil(e.deadline, today * DAY_MS))
      case Overdue => c1.(overdue := c1.overdue + 1)
      case Urgent => c1.(urgent := c1.urgent + 1)
      case Normal => c1
  }

  /** `getEventCounts()`, folding `Tally` over the events in order. */
  function GetEventCounts(events: seq<Event>, today: int): Counts
    decreases |events|
  {
    if |events| == 0 then ZeroCounts
    else Tally(GetEventCounts(events[..|events| - 1], today), events[|events| - 1], today)
  }

  function IsCompleted(): Event -> bool
  {
    (e: Event) => e.completed
  }

  /** Not completed and due before today. */
  function IsOverdueOn(today: int): Event -> bool
  {
    (e: Event) => !e.completed && e.deadline < today
  }

  /** Not completed and due today or within the next seven days. */
  function IsUrgentOn(today: int): Event -> bool
  {
    (e: Event) => !e.completed && today <= e.deadline <= today + 7
  }

  /** Each counter is the number of events with its property: a category
      counter counts that category, `completed` the completed events, and
      `overdue` / `urgent` the incomplete events due before today / in the
      next seven days. */
  lemma {:induction false} GetEventCountsMeaning(events: seq<Event>, today: int)
    ensures forall cat :: ByCategory(GetEventCounts(events, today), cat) == Count(events, InCategory(cat))
    ensures GetEventCounts(events, today).completed == Count(events, IsCompleted())
    ensures GetEventCounts(events, today).overdue == Count(events, IsOverdueOn(today))
    ensures GetEventCounts(events, today).urgent == Count(events, IsUrgentOn(today))
    decreases |events|
  {
    if |events| > 0 {
      var pre := events[..|events| - 1];
      var e := events[|events| - 1];
      assert events == pre + [e];
      GetEventCountsMeaning(pre, today);
      TallyMeaning(GetEventCounts(pre, today), e, today);
      forall cat
        ensures ByCategory(GetEventCounts(events, today), cat) == Count(events, InCategory(cat))
      {
        CountSnoc(pre, e, InCategory(cat));
      }
      CountSnoc(pre, e, IsCompleted());
      CountSnoc(pre, e, IsOverdueOn(today));
      CountSnoc(pre, e, IsUrgentOn(today));
    }
  }

  /** One event raises its own category counter, and exactly the aggregate
      whose property it has. */
  lemma TallyMeaning(c: Counts, e: Event, today: int)
    ensures forall cat :: ByCategory(Tally(c, e, today), cat)
                          == ByCategory(c, cat) + (if InCategory(cat)(e) then 1 else 0)
    ensures Tally(c, e, today).completed == c.completed + (if IsCompleted()(e) then 1 else 0)
    ensures Tally(c, e, today).overdue == c.overdue + (if IsOverdueOn(today)(e) then 1 else 0)
    ensures Tally(c, e, today).urgent == c.urgent + (if IsUrgentOn(today)(e) then 1 else 0)
  {
    DaysUntilWithinDay(e.deadline, today, today * DAY_MS);
  }

  /** Every event bumps exactly one category, so the six category counters
      add up to the number of events. */
  lemma {:induction false} CategoryCountsSumToLength(events: seq<Event>, today: int)
    ensures CategoryTotal(GetEventCounts(events, today)) == |events|
    decreases |events|
  {
    if |events| > 0 {
      CategoryCountsSumToLength(events[..|events| - 1], today);
    }
  }

  /** An event bumps at most one of `completed`, `overdue` and `urgent`, so
      together they never exceed the number of events. */
  lemma {:induction false} AggregatesBounded(events: seq<Event>, today: int)
    ensures var c := GetEventCounts(events, today); c.completed + c.overdue + c.urgent <= |events|
    decreases |events|
  {
    if |events| > 0 {
      AggregatesBounded(events[..|events| - 1], today);
    }
  }

  /** Adding an event raises its own category counter by one and leaves the
      other category counters alone. */
  lemma AddEventBumpsOwnCategory(events: seq<Event>, e: Event, today: int)
    ensures ByCategory(GetEventCounts(AddEvent(events, e), today), e.category)
            == ByCategory(GetEventCounts(events, today), e.category) + 1
    ensures forall cat :: cat != e.category ==>
              ByCategory(GetEventCounts(AddEvent(events, e), today), cat)
              == ByCategory(GetEventCounts(events, today), cat)
  {
    assert AddEvent(events, e)[..|events|] == events;
  }
}
