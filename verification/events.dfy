/** The timeline tracker's event list (src/pages/timeline-tracker/index.jsx):
    the event record, the `{...event, ...updates}` merge and the two list
    updates the page performs. */
module Events {
  import opened Wrappers

  /** The six event categories. */
  datatype Category = Admission | Scholarship | Exam | Document | Interview | Result

  /** The categories in the order every component lists them. */
  const AllCategories: seq<Category> := [Admission, Scholarship, Exam, Document, Interview, Result]

  /** Every category appears in `AllCategories`. */
  lemma AllCategoriesListed()
    ensures forall c: Category :: c in AllCategories
  {
    forall c: Category
      ensures c in AllCategories
    {
      match c
      case Admission => assert AllCategories[0] == c;
      case Scholarship => assert AllCategories[1] == c;
      case Exam => assert AllCategories[2] == c;
      case Document => assert AllCategories[3] == c;
      case Interview => assert AllCategories[4] == c;
      case Result => assert AllCategories[5] == c;
    }
  }

  datatype Priority = Low | Medium | High

  datatype ChecklistItem = ChecklistItem(task: string, completed: bool)

  /** A tracked deadline. `deadline` is a day number; `progress` and
      `completed` are independent of each other. */
  datatype Event = Event(
    id: int,
    title: string,
    institution: string,
    category: Category,
    deadline: int,
    priority: Priority,
    description: string,
    requirements: seq<string>,
    applicationUrl: string,
    completed: bool,
    progress: int,
    checklist: seq<ChecklistItem>)

  /** A partial event: the own properties of an `updates` object. */
  datatype Patch = Patch(
    id: Option<int>,
    title: Option<string>,
    institution: Option<string>,
    category: Option<Category>,
    deadline: Option<int>,
    priority: Option<Priority>,
    description: Option<string>,
    requirements: Option<seq<string>>,
    applicationUrl: Option<string>,
    completed: Option<bool>,
    progress: Option<int>,
    checklist: Option<seq<ChecklistItem>>)

  /** The empty object `{}`. */
  const NoChange: Patch := Patch(None, None, None, None, None, None, None, None, None, None, None, None)

  /** `{ completed: b }`, the only update the timeline view sends. */
  function CompletedPatch(b: bool): Patch
  {
    NoChange.(completed := Some(b))
  }

  /** The property `o` sets, else the one `q` sets (the later spread wins). */
  function Later<T>(q: Option<T>, o: Option<T>): Option<T>
  {
    if o.Some? then o else q
  }

  /** `{...p, ...q}`: the properties of both, `q` winning on a clash. */
  function Combine(p: Patch, q: Patch): Patch
  {
    Patch(Later(p.id, q.id), Later(p.title, q.title), Later(p.institution, q.institution),
          Later(p.category, q.category), Later(p.deadline, q.deadline), Later(p.priority, q.priority),
          Later(p.description, q.description), Later(p.requirements, q.requirements),
          Later(p.applicationUrl, q.applicationUrl), Later(p.completed, q.completed),
          Later(p.progress, q.progress), Later(p.checklist, q.checklist))
  }

  /** `{...e, ...p}`. */
  function Merge(e: Event, p: Patch): Event
  {
    Event(p.id.GetOr(e.id), p.title.GetOr(e.title), p.institution.GetOr(e.institution),
          p.category.GetOr(e.category), p.deadline.GetOr(e.deadline), p.priority.GetOr(e.priority),
          p.description.GetOr(e.description), p.requirements.GetOr(e.requirements),
          p.applicationUrl.GetOr(e.applicationUrl), p.completed.GetOr(e.completed),
          p.progress.GetOr(e.progress), p.checklist.GetOr(e.checklist))
  }

  /** Spreading `{}` changes nothing, spreading twice is spreading the
      combined object once, and re-applying the same update is a no-op. */
  lemma MergeLaws(e: Event, p: Patch, q: Patch)
    ensures Merge(e, NoChange) == e
    ensures Merge(Merge(e, p), q) == Merge(e, Combine(p, q))
    ensures Merge(Merge(e, p), p) == Merge(e, p)
  {
  }

  /** `handleEventUpdate`: every event whose id matches is replaced by its
      merge with `p`; the others, the length and the order are kept. */
  function UpdateEvent(events: seq<Event>, id: int, p: Patch): (r: seq<Event>)
    ensures |r| == |events|
    ensures forall i :: 0 <= i < |events| && events[i].id == id ==> r[i] == Merge(events[i], p)
    ensures forall i :: 0 <= i < |events| && events[i].id != id ==> r[i] == events[i]
    decreases |events|
  {
    if |events| == 0 then []
    else [if events[0].id == id then Merge(events[0], p) else events[0]] + UpdateEvent(events[1..], id, p)
  }

  /** Updating an id nobody has returns the list unchanged. */
  lemma UpdateAbsentId(events: seq<Event>, id: int, p: Patch)
    requires forall i :: 0 <= i < |events| ==> events[i].id != id
    ensures UpdateEvent(events, id, p) == events
  {
  }

  /** `handleAddEvent`: the new event goes last; the others keep their places. */
  function AddEvent(events: seq<Event>, e: Event): (r: seq<Event>)
    ensures |r| == |events| + 1
    ensures r[..|events|] == events && r[|events|] == e
  {
    events + [e]
  }

  /** `events.find(e => e.id === id)`: the first event with that id. */
  function FindById(events: seq<Event>, id: int): (r: Option<Event>)
    ensures r.None? <==> forall i :: 0 <= i < |events| ==> events[i].id != id
    ensures r.Some? ==> exists i :: 0 <= i < |events| && events[i] == r.value && r.value.id == id
                                    && forall j :: 0 <= j < i ==> events[j].id != id
    decreases |events|
  {
    if |events| == 0 then None
    else if events[0].id == id then Some(events[0])
    else
      var r := FindById(events[1..], id);
      if r.Some? then
        var i :| 0 <= i < |events[1..]| && events[1..][i] == r.value && r.value.id == id
                 && forall j :: 0 <= j < i ==> events[1..][j].id != id;
        assert events[i + 1] == r.value;
        r
      else r
  }

  /** The event belongs to category `c`. */
  function InCategory(c: Category): Event -> bool
  {
    (e: Event) => e.category == c
  }

  /** Ids are unique in the list. */
  ghost predicate UniqueIds(events: seq<Event>)
  {
    forall i, j :: 0 <= i < |events| && 0 <= j < |events| && events[i].id == events[j].id ==> i == j
  }
}
