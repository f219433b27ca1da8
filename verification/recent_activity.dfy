/** The dashboard's activity feed
    (src/pages/student-dashboard/components/RecentActivity.jsx): the type
    label, the connector line between entries, the metadata chips and the
    card colour. The "how long ago" caption is in `RelativeTime`. */
module RecentActivity {
  import opened Seqs
  import opened Strings
  import Achievements

  /** The six activity types the feed names. */
  const KNOWN_TYPES: set<string> :=
    {"college_saved", "assessment_progress", "career_explored", "ai_conversation", "deadline_added", "college_compared"}

  /** `getActivityTypeLabel`: a label per known type, 'Activity' otherwise. */
  function TypeLabel(kind: string): (s: string)
    ensures kind == "college_saved" ==> s == "College"
    ensures kind == "assessment_progress" ==> s == "Assessment"
    ensures kind == "career_explored" ==> s == "Career"
    ensures kind == "ai_conversation" ==> s == "AI Chat"
    ensures kind == "deadline_added" ==> s == "Timeline"
    ensures kind == "college_compared" ==> s == "Research"
    ensures s == "Activity" <==> kind !in KNOWN_TYPES
  {
    if kind == "college_saved" then "College"
    else if kind == "assessment_progress" then "Assessment"
    else if kind == "career_explored" then "Career"
    else if kind == "ai_conversation" then "AI Chat"
    else if kind == "deadline_added" then "Timeline"
    else if kind == "college_compared" then "Research"
    else "Activity"
  }

  /** Distinct known types get distinct labels. */
  lemma TypeLabelInjective(a: string, b: string)
    requires a in KNOWN_TYPES && b in KNOWN_TYPES && TypeLabel(a) == TypeLabel(b)
    ensures a == b
  {
  }

  /** `getColorClasses`: the badge palette, unknown colours falling back to
      primary; an activity is never drawn muted. */
  function ActivityTone(color: string): (t: Achievements.Tone)
    ensures t != Achievements.MutedTone
    ensures t == Achievements.PrimaryTone <==> color !in {"secondary", "accent", "success", "warning"}
  {
    Achievements.ToneOf(color, true)
  }

  /** The line under entry `index` of `count`: every entry but the last. */
  function Connectors(count: nat): (r: seq<bool>)
    ensures |r| == count
    ensures forall i :: 0 <= i < count ==> (r[i] <==> i != count - 1)
  {
    seq(count, i requires 0 <= i < count => i != count - 1)
  }

  function IsDrawn(b: bool): bool
  {
    b
  }

  /** A non-empty feed draws one connector fewer than it has entries. */
  lemma ConnectorCount(count: nat)
    requires count > 0
    ensures Count(Connectors(count), IsDrawn) == count - 1
  {
    var r := Connectors(count);
    assert r == r[..count - 1] + [r[count - 1]];
    FilterConcat(r[..count - 1], [r[count - 1]], IsDrawn);
    FilterAll(r[..count - 1], IsDrawn);
  }

  /** A metadata value: text, or a list of strings. */
  datatype MetaValue = TextValue(text: string) | ListValue(items: seq<string>)

  /** `${value}`: a list prints its items joined with commas. */
  function Render(v: MetaValue): string
  {
    match v
    case TextValue(t) => t
    case ListValue(items) => Join(items, ",")
  }

  /** One metadata chip: a 'colleges' list reads "A vs B"; anything else
      reads "key: value". */
  function Chip(key: string, v: MetaValue): (s: string)
    ensures key == "colleges" && v.ListValue? ==> s == Join(v.items, " vs ")
    ensures !(key == "colleges" && v.ListValue?) ==> key + ": " <= s && s[|key| + 2..] == Render(v)
  {
    if key == "colleges" && v.ListValue? then Join(v.items, " vs ")
    else key + ": " + Render(v)
  }

  /** The chip of a list under any other key lists its items again when
      split at the commas, provided no item holds a comma. */
  lemma ListChipReadsBack(key: string, items: seq<string>)
    requires key != "colleges" && |items| >= 1
    requires forall i :: 0 <= i < |items| ==> ',' !in items[i]
    ensures Split(Chip(key, ListValue(items))[|key| + 2..], ',') == items
  {
    JoinSplit(items, ',');
  }

  /** Comparing two colleges reads "A vs B". */
  lemma CollegesChip(a: string, b: string)
    ensures Chip("colleges", ListValue([a, b])) == a + " vs " + b
    ensures Chip("criteria", ListValue([a, b])) == "criteria: " + a + "," + b
  {
    assert [a, b][1..] == [b];
    assert Join([a, b], " vs ") == a + " vs " + Join([b], " vs ");
    assert Join([a, b], ",") == a + "," + Join([b], ",");
  }
}
