/** The category filter bar (src/pages/timeline-tracker/components/FilterControls.jsx):
    toggling a category in the selection, clear / select all, the labels
    and badges, and the quick-stat totals. */
module FilterControls {
  import opened Wrappers
  import opened Seqs
  import opened Strings
  import opened Events
  import opened EventCounts
  import opened TimelineView

  function Other(c: Category): Category -> bool
  {
    (x: Category) => x != c
  }

  /** `handleFilterToggle`: drop every occurrence of a selected category,
      otherwise append it. */
  function ToggleFilter(selected: seq<Category>, c: Category): (r: seq<Category>)
    ensures c in r <==> c !in selected
    ensures forall x :: x != c ==> (x in r <==> x in selected)
    ensures c !in selected ==> r == selected + [c]
  {
    if c in selected then
      var r := Filter(selected, Other(c));
      forall x | x != c && x in selected
        ensures x in r
      {
        var i :| 0 <= i < |selected| && selected[i] == x;
      }
      r
    else selected + [c]
  }

  /** Toggling twice restores which categories are selected, and restores
      the list itself when the category started out unselected. */
  lemma ToggleTwice(selected: seq<Category>, c: Category)
    ensures forall x :: x in ToggleFilter(ToggleFilter(selected, c), c) <==> x in selected
    ensures c !in selected ==> ToggleFilter(ToggleFilter(selected, c), c) == selected
  {
    if c !in selected {
      FilterConcat(selected, [c], Other(c));
      FilterAll(selected, Other(c));
    }
  }

  /** `clearAllFilters`: the empty selection, which shows every event. */
  function ClearAll(): (r: seq<Category>)
    ensures forall events :: FilterEvents(events, r) == events
  {
    []
  }

  /** `selectAllFilters`: the six category ids in option order. */
  function SelectAll(): (r: seq<Category>)
    ensures |r| == 6 && forall c: Category :: c in r
  {
    AllCategoriesListed();
    AllCategories
  }

  /** Selecting every category shows the same events as selecting none. */
  lemma SelectAllShowsEverything(events: seq<Event>)
    ensures FilterEvents(events, SelectAll()) == FilterEvents(events, ClearAll())
  {
    FilterAll(events, MatchesFilter(SelectAll()));
  }

  /** The "(… categories)" header: "All" for the empty selection, else the
      number of selected entries. */
  function HeaderLabel(selected: seq<Category>): (s: string)
    ensures s == "All" <==> |selected| == 0
    ensures |selected| > 0 ==> ParseNat(s) == Some(|selected|)
  {
    if |selected| == 0 then "All"
    else
      ParseNatToString(|selected|);
      assert IsDigit(NatToString(|selected|)[0]);
      NatToString(|selected|)
  }

  /** The count on a category button, and whether its badge is drawn. */
  function OptionCount(counts: Counts, c: Category): nat
  {
    ByCategory(counts, c)
  }

  /** A category's badge appears exactly when some listed event has that category. */
  lemma BadgeShownIffEvents(events: seq<Event>, today: int, c: Category)
    ensures OptionCount(GetEventCounts(events, today), c) > 0
            <==> exists i :: 0 <= i < |events| && events[i].category == c
  {
    GetEventCountsMeaning(events, today);
    var r := Filter(events, InCategory(c));
    if exists i :: 0 <= i < |events| && events[i].category == c {
      var i :| 0 <= i < |events| && events[i].category == c;
      assert InCategory(c)(events[i]);
      assert events[i] in r;
    }
    if |r| > 0 {
      assert InCategory(c)(r[0]);
    }
  }

  /** The "Showing n of 6 categories" line, present only for a non-empty selection. */
  function Summary(selected: seq<Category>): (s: Option<string>)
    ensures s.Some? <==> |selected| > 0
  {
    if |selected| == 0 then None
    else Some("Showing " + NatToString(|selected|) + " of " + NatToString(|AllCategories|) + " categories")
  }

  /** "Total Events" as written: the sum of every value of the counts
      object, aggregates included. */
  function TotalAsWritten(c: Counts): nat
  {
    CategoryTotal(c) + c.completed + c.overdue + c.urgent
  }

  /** The sum counts completed, overdue and urgent events twice. */
  lemma TotalAsWrittenOvercounts(events: seq<Event>, today: int)
    ensures var c := GetEventCounts(events, today);
            TotalAsWritten(c) == |events| + c.completed + c.overdue + c.urgent
    ensures TotalAsWritten(GetEventCounts([Event(1, "", "", Exam, today, High, "", [], "", true, 100, [])], today)) == 2
  {
    CategoryCountsSumToLength(events, today);
  }

  /** "Total Events" counting each event once: the six category counters. */
  function TotalEvents(c: Counts): nat
  {
    CategoryTotal(c)
  }

  lemma TotalEventsIsLength(events: seq<Event>, today: int)
    ensures TotalEvents(GetEventCounts(events, today)) == |events|
  {
    CategoryCountsSumToLength(events, today);
  }
}
