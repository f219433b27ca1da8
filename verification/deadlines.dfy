/** Days-to-deadline and its urgency tiers (src/pages/timeline-tracker/index.jsx
    and components/TimelineView.jsx). Dates are day numbers; the clock is a
    millisecond count passed in by the caller. */
module Deadlines {
  import opened Wrappers
  import opened Strings

  /** `1000 * 60 * 60 * 24`. */
  const DAY_MS: int := 86400000

  /** `Math.ceil(a / b)` for a positive divisor. */
  function CeilDiv(a: int, b: int): (q: int)
    requires b > 0
    ensures (q - 1) * b < a <= q * b
  {
    var f := (-a) / b;
    assert f * b <= -a < f * b + b;
    assert (-f - 1) * b == -(f * b) - b;
    -f
  }

  /** `Math.ceil((deadline - now) / DAY)` where the deadline date parses to
      midnight of its day. */
  function DaysUntil(deadline: int, nowMs: int): (d: int)
    ensures (d - 1) * DAY_MS < deadline * DAY_MS - nowMs <= d * DAY_MS
  {
    CeilDiv(deadline * DAY_MS - nowMs, DAY_MS)
  }

  /** At any moment of day `today` (midnight included), the rounded-up
      distance is the plain difference of day numbers. */
  lemma DaysUntilWithinDay(deadline: int, today: int, nowMs: int)
    requires today * DAY_MS <= nowMs < (today + 1) * DAY_MS
    ensures DaysUntil(deadline, nowMs) == deadline - today
  {
    var d := DaysUntil(deadline, nowMs);
    assert (d - 1) * DAY_MS < (deadline - today) * DAY_MS;
    assert (deadline - today) * DAY_MS < (d + 1) * DAY_MS;
  }

  datatype Urgency = Overdue | Urgent | Normal

  /** `isOverdue` (days < 0), then `isUrgent` (0..7 inclusive), else neither. */
  function Classify(d: int): (u: Urgency)
    ensures u == Overdue <==> d < 0
    ensures u == Urgent <==> 0 <= d <= 7
    ensures u == Normal <==> d > 7
  {
    if d < 0 then Overdue else if d <= 7 then Urgent else Normal
  }

  /** The colour tier of the remaining-days text. */
  datatype Tone = ToneOverdue | ToneUrgent | ToneSoon | ToneNeutral

  function DeadlineTone(d: int): (t: Tone)
    ensures t == ToneOverdue <==> Classify(d) == Overdue
    ensures t == ToneUrgent <==> Classify(d) == Urgent
    ensures t == ToneSoon <==> 7 < d <= 30
    ensures t == ToneNeutral <==> d > 30
  {
    if d < 0 then ToneOverdue else if d <= 7 then ToneUrgent else if d <= 30 then ToneSoon else ToneNeutral
  }

  const OVERDUE_SUFFIX: string := " days overdue"
  const LEFT_SUFFIX: string := " days left"
  const DUE_TODAY: string := "Due today"

  /** The remaining-days text under each event. */
  function RemainingLabel(d: int): string
  {
    if d < 0 then NatToString(-d) + OVERDUE_SUFFIX
    else if d == 0 then DUE_TODAY
    else NatToString(d) + LEFT_SUFFIX
  }

  /** Reads a remaining-days text back into a signed day count. */
  function ParseRemainingLabel(s: string): Option<int>
  {
    if s == DUE_TODAY then Some(0)
    else if |s| > |OVERDUE_SUFFIX| && s[|s| - |OVERDUE_SUFFIX|..] == OVERDUE_SUFFIX then
      match ParseNat(s[..|s| - |OVERDUE_SUFFIX|])
      case Some(n) => Some(0 - n as int)
      case None => None
    else if |s| > |LEFT_SUFFIX| && s[|s| - |LEFT_SUFFIX|..] == LEFT_SUFFIX then
      match ParseNat(s[..|s| - |LEFT_SUFFIX|])
      case Some(n) => Some(n)
      case None => None
    else None
  }

  /** The label determines the day count: no two counts share a text. */
  lemma RemainingLabelRoundTrip(d: int)
    ensures ParseRemainingLabel(RemainingLabel(d)) == Some(d)
  {
    if d < 0 {
      OverdueLabelParses(-d);
    } else if d > 0 {
      LeftLabelParses(d);
    }
  }

  /** "n days overdue" reads back as `-n`. */
  lemma OverdueLabelParses(n: nat)
    requires n > 0
    ensures ParseRemainingLabel(NatToString(n) + OVERDUE_SUFFIX) == Some(0 - n)
  {
    var digits := NatToString(n);
    var s := digits + OVERDUE_SUFFIX;
    ParseNatToString(n);
    assert s[|s| - |OVERDUE_SUFFIX|..] == OVERDUE_SUFFIX;
    assert s[..|s| - |OVERDUE_SUFFIX|] == digits;
    assert s != DUE_TODAY by { assert s[0] == digits[0] && IsDigit(digits[0]); }
  }

  /** "n days left" reads back as `n`; it never ends like an overdue label. */
  lemma LeftLabelParses(n: nat)
    requires n > 0
    ensures ParseRemainingLabel(NatToString(n) + LEFT_SUFFIX) == Some(n)
  {
    var digits := NatToString(n);
    var s := digits + LEFT_SUFFIX;
    ParseNatToString(n);
    assert s[|s| - |LEFT_SUFFIX|..] == LEFT_SUFFIX;
    assert s[..|s| - |LEFT_SUFFIX|] == digits;
    assert s != DUE_TODAY by { assert s[0] == digits[0] && IsDigit(digits[0]); }
    if |s| > |OVERDUE_SUFFIX| {
      assert s[|s| - |OVERDUE_SUFFIX|..] != OVERDUE_SUFFIX by {
        assert s[|s| - 1] == 't';
      }
    }
  }
}
