/** The timeline list (src/pages/timeline-tracker/components/TimelineView.jsx):
    the category filter, the stable sort by deadline, the per-event styling
    tiers and the two toggles. */
module TimelineView {
  import opened Wrappers
  import opened Seqs
  import opened Events
  import opened Deadlines

  /** The filter callback: an empty selection lets everything through. */
  function MatchesFilter(selected: seq<Category>): Event -> bool
  {
    (e: Event) => |selected| == 0 || e.category in selected
  }

  /** `filteredEvents`, shared with the calendar view. */
  function FilterEvents(events: seq<Event>, selected: seq<Category>): (r: seq<Event>)
    ensures |selected| == 0 ==> r == events
    ensures forall i :: 0 <= i < |r| ==> r[i] in events && (|selected| == 0 || r[i].category in selected)
    ensures forall i :: 0 <= i < |events| && (|selected| == 0 || events[i].category in selected) ==> events[i] in r
  {
    var r := Filter(events, MatchesFilter(selected));
    if |selected| == 0 then FilterAll(events, MatchesFilter(selected)); r else r
  }

  /** The filtered list keeps the input order. */
  lemma FilterEventsKeepsOrder(events: seq<Event>, selected: seq<Category>)
    ensures IsSubseq(FilterEvents(events, selected), events)
  {
    FilterIsSubseq(events, MatchesFilter(selected));
  }

  /** Selecting a single category keeps exactly that category's events. */
  lemma SingleCategoryFilter(events: seq<Event>, c: Category)
    ensures FilterEvents(events, [c]) == Filter(events, InCategory(c))
  {
    FilterExt(events, MatchesFilter([c]), InCategory(c));
  }

  ghost predicate SortedByDeadline(s: seq<Event>)
  {
    forall i, j :: 0 <= i < j < |s| ==> s[i].deadline <= s[j].deadline
  }

  /** Places `e` before the first element due no earlier than it. */
  function InsertByDeadline(e: Event, s: seq<Event>): (r: seq<Event>)
    ensures |r| == |s| + 1
    ensures r[0] == e || (|s| > 0 && r[0] == s[0])
    ensures multiset(r) == multiset(s) + multiset{e}
    ensures SortedByDeadline(s) ==> SortedByDeadline(r)
    decreases |s|
  {
    if |s| == 0 || e.deadline <= s[0].deadline then
      assert SortedByDeadline(s) ==> SortedByDeadline([e] + s) by {
        if SortedByDeadline(s) && |s| > 0 {
          ConsSorted(e, s);
        }
      }
      [e] + s
    else
      var t := InsertByDeadline(e, s[1..]);
      assert s == [s[0]] + s[1..];
      assert multiset([s[0]] + t) == multiset{s[0]} + multiset(t);
      assert SortedByDeadline(s) ==> SortedByDeadline([s[0]] + t) by {
        if SortedByDeadline(s) {
          assert SortedByDeadline(s[1..]);
          ConsSorted(s[0], t);
        }
      }
      [s[0]] + t
  }

  /** Putting an element no later than the head in front of a sorted list
      keeps it sorted. */
  lemma ConsSorted(x: Event, t: seq<Event>)
    requires SortedByDeadline(t) && |t| > 0 && x.deadline <= t[0].deadline
    ensures SortedByDeadline([x] + t)
  {
    var r := [x] + t;
    forall i, j | 0 <= i < j < |r|
      ensures r[i].deadline <= r[j].deadline
    {
      if i == 0 {
        assert r[j] == t[j - 1];
        assert t[0].deadline <= t[j - 1].deadline;
      } else {
        assert r[i] == t[i - 1] && r[j] == t[j - 1];
      }
    }
  }

  /** `sort((a, b) => a.deadline - b.deadline)`: JavaScript's sort is
      stable, modelled as insertion sort. */
  function SortByDeadline(s: seq<Event>): (r: seq<Event>)
    ensures multiset(r) == multiset(s)
    ensures SortedByDeadline(r)
    decreases |s|
  {
    if |s| == 0 then []
    else
      assert s == [s[0]] + s[1..];
      InsertByDeadline(s[0], SortByDeadline(s[1..]))
  }

  function HasDeadline(k: int): Event -> bool
  {
    (e: Event) => e.deadline == k
  }

  lemma {:induction false} InsertKeepsTies(e: Event, s: seq<Event>, k: int)
    ensures Filter(InsertByDeadline(e, s), HasDeadline(k))
            == (if e.deadline == k then [e] else []) + Filter(s, HasDeadline(k))
    decreases |s|
  {
    var p := HasDeadline(k);
    if |s| == 0 || e.deadline <= s[0].deadline {
      assert InsertByDeadline(e, s) == [e] + s;
      FilterCons(e, s, p);
    } else {
      var t := InsertByDeadline(e, s[1..]);
      assert InsertByDeadline(e, s) == [s[0]] + t;
      assert s == [s[0]] + s[1..];
      InsertKeepsTies(e, s[1..], k);
      FilterConsSwap(s[0], t, s[1..], if e.deadline == k then [e] else [], p);
    }
  }

  /** Stability: events due on the same day keep their relative order. */
  lemma {:induction false} SortIsStable(s: seq<Event>, k: int)
    ensures Filter(SortByDeadline(s), HasDeadline(k)) == Filter(s, HasDeadline(k))
    decreases |s|
  {
    if |s| > 0 {
      SortIsStable(s[1..], k);
      InsertKeepsTies(s[0], SortByDeadline(s[1..]), k);
    }
  }

  /** `sortedEvents`: the filtered events, ordered by deadline. */
  function DisplayedEvents(events: seq<Event>, selected: seq<Category>): (r: seq<Event>)
    ensures multiset(r) == multiset(FilterEvents(events, selected))
    ensures SortedByDeadline(r)
  {
    SortByDeadline(FilterEvents(events, selected))
  }

  /** The message shown when nothing is displayed, if any. */
  function EmptyStateMessage(events: seq<Event>, selected: seq<Category>): (m: Option<string>)
    ensures m.Some? <==> |FilterEvents(events, selected)| == 0
  {
    if |DisplayedEvents(events, selected)| > 0 then None
    else if |selected| > 0 then Some("No events match your selected filters.")
    else Some("No upcoming events in your timeline.")
  }

  /** The timeline node's style: completion first, then overdue, then urgent. */
  datatype NodeStyle = NodeCompleted | NodeOverdue | NodeUrgent | NodeCategory(c: Category)

  function NodeStyleOf(e: Event, d: int): (n: NodeStyle)
    ensures n == NodeCompleted <==> e.completed
    ensures n == NodeOverdue <==> !e.completed && Classify(d) == Overdue
    ensures n == NodeUrgent <==> !e.completed && Classify(d) == Urgent
  {
    if e.completed then NodeCompleted
    else if d < 0 then NodeOverdue
    else if d <= 7 then NodeUrgent
    else NodeCategory(e.category)
  }

  /** The card's border: overdue first, then urgent, then completion. */
  datatype CardStyle = CardOverdue | CardUrgent | CardCompleted | CardPlain

  function CardStyleOf(e: Event, d: int): (c: CardStyle)
    ensures c == CardOverdue <==> Classify(d) == Overdue
    ensures c == CardUrgent <==> Classify(d) == Urgent
    ensures c == CardCompleted <==> e.completed && Classify(d) == Normal
  {
    if d < 0 then CardOverdue
    else if d <= 7 then CardUrgent
    else if e.completed then CardCompleted
    else CardPlain
  }

  /** The two precedences agree on incomplete events but not on completed
      ones: a completed, overdue event gets a completed node inside an
      overdue card. */
  lemma NodeAndCardPrecedence(e: Event, d: int)
    ensures !e.completed ==> (NodeStyleOf(e, d) == NodeOverdue <==> CardStyleOf(e, d) == CardOverdue)
    ensures !e.completed ==> (NodeStyleOf(e, d) == NodeUrgent <==> CardStyleOf(e, d) == CardUrgent)
    ensures e.completed && d < 0 ==> NodeStyleOf(e, d) == NodeCompleted && CardStyleOf(e, d) == CardOverdue
  {
  }

  /** `handleToggleComplete`: the patch `{completed: !found.completed}`,
      where a missing event reads as not completed. */
  function ToggleCompletePatch(events: seq<Event>, id: int): Patch
  {
    var found := FindById(events, id);
    CompletedPatch(!(found.Some? && found.value.completed))
  }

  /** Every event carrying the id gets the negation of the first such
      event's flag, whether or not ids repeat; the others are untouched. */
  function ToggleComplete(events: seq<Event>, id: int): (r: seq<Event>)
    ensures |r| == |events|
    ensures forall i :: 0 <= i < |events| && events[i].id != id ==> r[i] == events[i]
    ensures forall i :: 0 <= i < |events| && events[i].id == id ==>
              r[i] == events[i].(completed := !FindById(events, id).value.completed)
  {
    UpdateEvent(events, id, ToggleCompletePatch(events, id))
  }

  /** With unique ids, toggling flips the `completed` flag of that one event
      and nothing else. */
  lemma ToggleCompleteFlips(events: seq<Event>, id: int, i: int)
    requires UniqueIds(events)
    requires 0 <= i < |events|
    ensures events[i].id == id ==> ToggleComplete(events, id)[i] == events[i].(completed := !events[i].completed)
    ensures events[i].id != id ==> ToggleComplete(events, id)[i] == events[i]
  {
  }

  /** With unique ids, toggling the same event twice restores the list. */
  lemma ToggleCompleteTwice(events: seq<Event>, id: int)
    requires UniqueIds(events)
    ensures ToggleComplete(ToggleComplete(events, id), id) == events
  {
    var once := ToggleComplete(events, id);
    var twice := ToggleComplete(once, id);
    assert UniqueIds(once) by {
      forall i, j | 0 <= i < |once| && 0 <= j < |once| && once[i].id == once[j].id
        ensures i == j
      {
        assert once[i].id == events[i].id && once[j].id == events[j].id;
      }
    }
    forall i | 0 <= i < |events|
      ensures twice[i] == events[i]
    {
      ToggleCompleteFlips(events, id, i);
      ToggleCompleteFlips(once, id, i);
    }
  }

  /** `toggleEventExpansion`: clicking the expanded event collapses it,
      clicking another expands it instead, so at most one is expanded. */
  function ToggleExpansion(expanded: Option<int>, id: int): (r: Option<int>)
    ensures r == Some(id) <==> expanded != Some(id)
    ensures r.Some? ==> r.value == id
  {
    if expanded == Some(id) then None else Some(id)
  }
}
