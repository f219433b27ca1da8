/** The dashboard's deadline card
    (src/pages/student-dashboard/components/UpcomingDeadlines.jsx): the
    urgent / upcoming split, the urgent alert, the five-item list and the
    priority, type and status mappings. */
module UpcomingDeadlines {
  import opened Wrappers
  import opened Seqs
  import opened Strings

  /** A dashboard deadline; `daysLeft` is stored with the data, not computed. */
  datatype Deadline = Deadline(id: int, title: string, daysLeft: int, priority: string, kind: string, status: string)

  /** Deadlines within fifteen days count as urgent. */
  const URGENT_DAYS: int := 15

  function IsUrgent(): Deadline -> bool
  {
    (d: Deadline) => d.daysLeft <= URGENT_DAYS
  }

  function IsUpcoming(): Deadline -> bool
  {
    (d: Deadline) => d.daysLeft > URGENT_DAYS
  }

  /** `urgentDeadlines` and `upcomingDeadlines`. */
  function Partition(deadlines: seq<Deadline>): (r: (seq<Deadline>, seq<Deadline>))
    ensures forall x :: x in r.0 ==> x in deadlines && x.daysLeft <= URGENT_DAYS
    ensures forall x :: x in r.1 ==> x in deadlines && x.daysLeft > URGENT_DAYS
    ensures forall i :: 0 <= i < |deadlines| ==> deadlines[i] in r.0 || deadlines[i] in r.1
    ensures |r.0| + |r.1| == |deadlines|
    ensures IsSubseq(r.0, deadlines) && IsSubseq(r.1, deadlines)
  {
    FilterPartition(deadlines, IsUrgent(), IsUpcoming());
    FilterIsSubseq(deadlines, IsUrgent());
    FilterIsSubseq(deadlines, IsUpcoming());
    (Filter(deadlines, IsUrgent()), Filter(deadlines, IsUpcoming()))
  }

  /** No deadline lands in both lists. */
  lemma PartitionDisjoint(deadlines: seq<Deadline>)
    ensures forall x :: !(x in Partition(deadlines).0 && x in Partition(deadlines).1)
  {
  }

  /** The red alert: present exactly when something is urgent, listing the
      first two urgent deadlines and the number of all of them. */
  datatype Alert = Alert(count: nat, shown: seq<Deadline>)

  function UrgentAlert(deadlines: seq<Deadline>): (a: Option<Alert>)
    ensures a.Some? <==> exists i :: 0 <= i < |deadlines| && deadlines[i].daysLeft <= URGENT_DAYS
    ensures a.Some? ==> a.value.count == |Partition(deadlines).0| && a.value.shown == Take(Partition(deadlines).0, 2)
    ensures a.Some? ==> 1 <= |a.value.shown| <= 2
  {
    var urgent := Partition(deadlines).0;
    if |urgent| > 0 then
      assert urgent[0] in deadlines;
      Some(Alert(|urgent|, Take(urgent, 2)))
    else
      None
  }

  /** "deadline" takes an 's' when more than one is urgent. */
  function PluralSuffix(n: int): (s: string)
    ensures s == "s" <==> n > 1
    ensures s == "" <==> n <= 1
  {
    if n > 1 then "s" else ""
  }

  /** "n deadline(s) approaching". */
  function AlertCaption(n: nat): (s: string)
    ensures Split(s, ' ') == [NatToString(n), "deadline" + PluralSuffix(n), "approaching"]
  {
    var noun := "deadline" + PluralSuffix(n);
    NoSeparatorInNumber(n, ' ');
    assert ' ' !in noun;
    ThreeWords(NatToString(n), noun, "approaching");
    NatToString(n) + [' '] + (noun + [' '] + "approaching")
  }

  /** Three space-free words joined by single spaces split back into them. */
  lemma ThreeWords(a: string, b: string, c: string)
    requires ' ' !in a && ' ' !in b && ' ' !in c
    ensures Split(a + [' '] + (b + [' '] + c), ' ') == [a, b, c]
  {
    SplitAppend(a, b + [' '] + c, ' ');
    SplitAppend(b, c, ' ');
    SplitNoSep(c, ' ');
  }

  /** The main list: the first five deadlines in data order, urgent or not. */
  function MainList(deadlines: seq<Deadline>): (r: seq<Deadline>)
    ensures r <= deadlines && |r| == if |deadlines| < 5 then |deadlines| else 5
  {
    Take(deadlines, 5)
  }

  /** `getPriorityColor`: high, medium, or the low styling for anything else. */
  datatype PriorityTone = HighTone | MediumTone | LowTone

  function PriorityToneOf(priority: string): (t: PriorityTone)
    ensures t == HighTone <==> priority == "high"
    ensures t == MediumTone <==> priority == "medium"
    ensures t == LowTone <==> priority != "high" && priority != "medium"
  {
    if priority == "high" then HighTone else if priority == "medium" then MediumTone else LowTone
  }

  /** `getTypeIcon`: four known types, the Calendar icon for the rest. */
  function TypeIcon(kind: string): (icon: string)
    ensures kind == "exam" ==> icon == "FileText"
    ensures kind == "admission" ==> icon == "GraduationCap"
    ensures kind == "scholarship" ==> icon == "Award"
    ensures kind == "document" ==> icon == "File"
    ensures icon == "Calendar" <==> kind !in {"exam", "admission", "scholarship", "document"}
  {
    if kind == "exam" then "FileText"
    else if kind == "admission" then "GraduationCap"
    else if kind == "scholarship" then "Award"
    else if kind == "document" then "File"
    else "Calendar"
  }

  /** `getStatusColor`. */
  datatype StatusTone = DoneTone | InProgressTone | OtherTone

  function StatusToneOf(status: string): (t: StatusTone)
    ensures t == DoneTone <==> status == "completed"
    ensures t == InProgressTone <==> status == "in-progress"
    ensures t == OtherTone <==> status != "completed" && status != "in-progress"
  {
    if status == "completed" then DoneTone else if status == "in-progress" then InProgressTone else OtherTone
  }
}
