/** The programs tab of the college page
    (src/pages/college-details/components/ProgramsTab.jsx): the category and
    level filters, the availability badge and the empty state. */
module Programs {
  import opened Seqs

  /** A program; category, level and availability are the option ids the
      component compares against. */
  datatype Program = Program(id: int, name: string, category: string, level: string, availability: string)

  /** The value the selects start with and use for "no restriction". */
  const ALL: string := "all"

  function Matches(category: string, level: string): Program -> bool
  {
    (p: Program) => (category == ALL || p.category == category) && (level == ALL || p.level == level)
  }

  /** `filteredPrograms`: both the category and the level must match, 'all'
      matching anything. */
  function FilterPrograms(programs: seq<Program>, category: string, level: string): (r: seq<Program>)
    ensures forall x :: x in r ==> x in programs
                                   && (category == ALL || x.category == category)
                                   && (level == ALL || x.level == level)
    ensures forall i :: 0 <= i < |programs|
                        && (category == ALL || programs[i].category == category)
                        && (level == ALL || programs[i].level == level)
                        ==> programs[i] in r
  {
    Filter(programs, Matches(category, level))
  }

  /** With both selects on 'all' every program is listed, and any result is
      the input with some programs left out, in order. */
  lemma FilterProgramsShape(programs: seq<Program>, category: string, level: string)
    ensures FilterPrograms(programs, ALL, ALL) == programs
    ensures IsSubseq(FilterPrograms(programs, category, level), programs)
  {
    FilterAll(programs, Matches(ALL, ALL));
    FilterIsSubseq(programs, Matches(category, level));
  }

  /** Narrowing either select from 'all' to a specific value only removes
      programs from the list. */
  lemma NarrowingNeverAdds(programs: seq<Program>, category: string, level: string)
    ensures IsSubseq(FilterPrograms(programs, category, level), FilterPrograms(programs, ALL, level))
    ensures IsSubseq(FilterPrograms(programs, category, level), FilterPrograms(programs, category, ALL))
  {
    FilterMonotone(programs, Matches(category, level), Matches(ALL, level));
    FilterMonotone(programs, Matches(category, level), Matches(category, ALL));
  }

  /** "No Programs Found" is shown exactly when nothing matches. */
  lemma EmptyStateIff(programs: seq<Program>, category: string, level: string)
    ensures |FilterPrograms(programs, category, level)| == 0 <==>
            forall i :: 0 <= i < |programs| ==> !Matches(category, level)(programs[i])
  {
    var r := FilterPrograms(programs, category, level);
    if |r| > 0 {
      assert r[0] in r;
    }
  }

  /** The availability badge. */
  datatype Badge = AvailableBadge | LimitedBadge | FullBadge

  function BadgeOf(availability: string): (b: Badge)
    ensures b == AvailableBadge <==> availability == "available"
    ensures b == LimitedBadge <==> availability == "limited"
    ensures b == FullBadge <==> availability != "available" && availability != "limited"
  {
    if availability == "available" then AvailableBadge
    else if availability == "limited" then LimitedBadge
    else FullBadge
  }

  function BadgeText(b: Badge): (s: string)
  {
    match b
    case AvailableBadge => "Available"
    case LimitedBadge => "Limited Seats"
    case FullBadge => "Full"
  }

  /** The three captions are distinct, so the caption tells the badge apart;
      any availability the data does not name reads "Full". */
  lemma BadgeTextInjective(a: Badge, b: Badge, unknown: string)
    requires unknown != "available" && unknown != "limited"
    ensures BadgeText(a) == BadgeText(b) ==> a == b
    ensures BadgeText(BadgeOf(unknown)) == "Full"
  {
  }
}
