/** The career filter sidebar
    (src/pages/career-exploration/components/CareerFilters.jsx): four
    single-choice fields, two checkbox lists, quick-tag flags, the
    active-filter count and "clear all". */
module CareerFilters {
  import opened Wrappers
  import opened Seqs

  /** The filter object. An empty string or list means "any"; quick tags
      are extra boolean properties set by the tag buttons. */
  datatype Filters = Filters(
    salaryRange: string,
    educationLevel: string,
    workEnvironment: seq<string>,
    skills: seq<string>,
    location: string,
    experience: string,
    tags: map<string, bool>)

  /** The six counted fields of `activeFilters` as the page passes them in;
      `None` for a property that is not there. */
  datatype Incoming = Incoming(
    salaryRange: Option<string>,
    educationLevel: Option<string>,
    workEnvironment: Option<seq<string>>,
    skills: Option<seq<string>>,
    location: Option<string>,
    experience: Option<string>,
    tags: map<string, bool>)

  const Cleared: Filters := Filters("", "", [], [], "", "", map[])

  /** The initial state: the defaults, overridden by whatever the page passed. */
  function InitialFilters(a: Incoming): (f: Filters)
    ensures f.salaryRange == a.salaryRange.GetOr("") && f.educationLevel == a.educationLevel.GetOr("")
    ensures f.workEnvironment == a.workEnvironment.GetOr([]) && f.skills == a.skills.GetOr([])
    ensures f.location == a.location.GetOr("") && f.experience == a.experience.GetOr("")
    ensures f.tags == a.tags
  {
    Filters(a.salaryRange.GetOr(""), a.educationLevel.GetOr(""), a.workEnvironment.GetOr([]),
            a.skills.GetOr([]), a.location.GetOr(""), a.experience.GetOr(""), a.tags)
  }

  /** With nothing passed in the filters start cleared. */
  lemma InitialFromNothing()
    ensures InitialFilters(Incoming(None, None, None, None, None, None, map[])) == Cleared
  {
  }

  datatype TextKey = SalaryRange | EducationLevel | Location | Experience
  datatype ListKey = WorkEnvironment | Skills

  function GetText(f: Filters, k: TextKey): string
  {
    match k
    case SalaryRange => f.salaryRange
    case EducationLevel => f.educationLevel
    case Location => f.location
    case Experience => f.experience
  }

  function GetList(f: Filters, k: ListKey): seq<string>
  {
    match k
    case WorkEnvironment => f.workEnvironment
    case Skills => f.skills
  }

  /** `handleFilterChange` on a select: only that key changes. */
  function SetText(f: Filters, k: TextKey, v: string): (r: Filters)
    ensures GetText(r, k) == v
    ensures forall j :: j != k ==> GetText(r, j) == GetText(f, j)
    ensures forall l :: GetList(r, l) == GetList(f, l)
    ensures r.tags == f.tags
  {
    match k
    case SalaryRange => f.(salaryRange := v)
    case EducationLevel => f.(educationLevel := v)
    case Location => f.(location := v)
    case Experience => f.(experience := v)
  }

  /** `handleFilterChange` on a checkbox list. */
  function SetList(f: Filters, k: ListKey, items: seq<string>): (r: Filters)
    ensures GetList(r, k) == items
    ensures forall l :: l != k ==> GetList(r, l) == GetList(f, l)
    ensures forall j :: GetText(r, j) == GetText(f, j)
    ensures r.tags == f.tags
  {
    match k
    case WorkEnvironment => f.(workEnvironment := items)
    case Skills => f.(skills := items)
  }

  function NotItem(id: string): string -> bool
  {
    (x: string) => x != id
  }

  /** `handleCheckboxChange`: checking appends the id, even if it is already
      there; unchecking removes every copy of it. */
  function CheckboxChange(f: Filters, k: ListKey, id: string, checked: bool): (r: Filters)
    ensures checked ==> GetList(r, k) == GetList(f, k) + [id]
    ensures !checked ==> id !in GetList(r, k)
    ensures !checked ==> forall x :: x != id ==> (x in GetList(r, k) <==> x in GetList(f, k))
    ensures forall l :: l != k ==> GetList(r, l) == GetList(f, l)
    ensures forall j :: GetText(r, j) == GetText(f, j)
    ensures r.tags == f.tags
  {
    var items := GetList(f, k);
    if checked then SetList(f, k, items + [id])
    else
      var kept := Filter(items, NotItem(id));
      assert forall x :: x != id ==> (x in kept <==> x in items) by {
        forall x | x != id && x in items
          ensures x in kept
        {
          var i :| 0 <= i < |items| && items[i] == x;
          assert NotItem(id)(items[i]);
        }
      }
      SetList(f, k, kept)
  }

  /** A quick-tag button: flip its flag (a missing flag reads as off). */
  function FlipTag(f: Filters, tag: string): (r: Filters)
    ensures tag in r.tags && r.tags[tag] == !(tag in f.tags && f.tags[tag])
    ensures forall t :: t != tag ==> (t in r.tags <==> t in f.tags)
    ensures forall t :: t != tag && t in f.tags ==> r.tags[t] == f.tags[t]
    ensures forall j :: GetText(r, j) == GetText(f, j)
    ensures forall l :: GetList(r, l) == GetList(f, l)
  {
    f.(tags := f.tags[tag := !(tag in f.tags && f.tags[tag])])
  }

  /** `getActiveFilterCount`: how many of the six fields are set. */
  function ActiveCount(f: Filters): (n: nat)
    ensures n <= 6
    ensures n == 0 <==> (forall j :: GetText(f, j) == "") && (forall l :: GetList(f, l) == [])
  {
    assert GetText(f, SalaryRange) == f.salaryRange && GetText(f, EducationLevel) == f.educationLevel;
    assert GetText(f, Location) == f.location && GetText(f, Experience) == f.experience;
    assert GetList(f, WorkEnvironment) == f.workEnvironment && GetList(f, Skills) == f.skills;
    (if f.salaryRange != "" then 1 else 0)
    + (if f.educationLevel != "" then 1 else 0)
    + (if |f.workEnvironment| > 0 then 1 else 0)
    + (if |f.skills| > 0 then 1 else 0)
    + (if f.location != "" then 1 else 0)
    + (if f.experience != "" then 1 else 0)
  }

  /** Quick tags never count as active filters. */
  lemma TagsNotCounted(f: Filters, tag: string)
    ensures ActiveCount(FlipTag(f, tag)) == ActiveCount(f)
  {
  }

  /** Setting one select moves the count by at most one, up exactly when the
      field goes from empty to set. */
  lemma SetTextCount(f: Filters, k: TextKey, v: string)
    ensures ActiveCount(SetText(f, k, v)) == ActiveCount(f)
              + (if v != "" then 1 else 0) - (if GetText(f, k) != "" then 1 else 0)
  {
  }

  /** Checking a box always makes its list count as active. */
  lemma CheckingActivates(f: Filters, k: ListKey, id: string)
    ensures ActiveCount(CheckboxChange(f, k, id, true)) == ActiveCount(f) + (if GetList(f, k) == [] then 1 else 0)
  {
  }

  /** `clearAllFilters`: six empty fields and no quick tags. */
  function ClearAll(f: Filters): (r: Filters)
    ensures ActiveCount(r) == 0 && r.tags == map[]
    ensures forall j :: GetText(r, j) == ""
    ensures forall l :: GetList(r, l) == []
  {
    Cleared
  }
}
