/** "How long ago" captions. Recent Activity
    (src/pages/student-dashboard/components/RecentActivity.jsx) derives the
    day count from the floored hour count, while Chat History
    (src/pages/ai-chat-assistant/components/ChatHistory.jsx) floors the
    millisecond difference by a day directly; both are modelled and shown to
    agree. Times are millisecond differences `now - timestamp`; a timestamp
    in the future gives a negative difference. */
module RelativeTime {
  import opened Wrappers
  import opened Strings
  import opened Arith

  const HOUR_MS: int := 1000 * 60 * 60
  const DAY_MS: int := 24 * HOUR_MS

  /** The four kinds of caption; `OnDate` is a locale-formatted date. */
  datatype Ago = JustNow | HoursAgo(hours: int) | DaysAgo(days: int) | OnDate

  /** The caption's meaning: which band the difference falls in, and the
      whole hours or days it rounds down to. */
  predicate Describes(a: Ago, diffMs: int)
  {
    match a
    case JustNow => diffMs < HOUR_MS
    case HoursAgo(h) => 1 <= h < 24 && h * HOUR_MS <= diffMs < (h + 1) * HOUR_MS
    case DaysAgo(d) => 1 <= d < 7 && d * DAY_MS <= diffMs < (d + 1) * DAY_MS
    case OnDate => diffMs >= 7 * DAY_MS
  }

  /** `getRelativeTime` of Recent Activity. */
  function ActivityAgo(diffMs: int): (a: Ago)
    ensures Describes(a, diffMs)
  {
    var hours := diffMs / HOUR_MS;
    if hours < 1 then JustNow
    else if hours < 24 then HoursAgo(hours)
    else
      var days := hours / 24;
      if days < 7 then DaysAgo(days) else OnDate
  }

  /** `formatTimestamp` of Chat History. */
  function HistoryAgo(diffMs: int): (a: Ago)
    ensures Describes(a, diffMs)
  {
    var hours := diffMs / HOUR_MS;
    var days := diffMs / DAY_MS;
    if hours < 1 then JustNow
    else if hours < 24 then HoursAgo(hours)
    else if days < 7 then DaysAgo(days)
    else OnDate
  }

  /** A caption that describes a difference is the one Chat History prints. */
  lemma DescribesIsHistory(a: Ago, diffMs: int)
    requires Describes(a, diffMs)
    ensures a == HistoryAgo(diffMs)
  {
    assert HOUR_MS == 3600000 && DAY_MS == 86400000;
    match a
    case JustNow =>
      assert diffMs / HOUR_MS < 1;
    case HoursAgo(h) =>
      DivUnique(diffMs, HOUR_MS, h, diffMs - h * HOUR_MS);
    case DaysAgo(d) =>
      DivUnique(diffMs, DAY_MS, d, diffMs - d * DAY_MS);
      MulAtLeast(DAY_MS, d);
      assert diffMs / HOUR_MS >= 24;
    case OnDate =>
      assert diffMs / HOUR_MS >= 24 && diffMs / DAY_MS >= 7;
  }

  /** Only one caption describes a difference. */
  lemma DescribesUnique(a: Ago, b: Ago, diffMs: int)
    requires Describes(a, diffMs) && Describes(b, diffMs)
    ensures a == b
  {
    DescribesIsHistory(a, diffMs);
    DescribesIsHistory(b, diffMs);
  }

  /** The two components always print the same caption. */
  lemma ActivityAndHistoryAgree(diffMs: int)
    ensures ActivityAgo(diffMs) == HistoryAgo(diffMs)
  {
    DescribesUnique(ActivityAgo(diffMs), HistoryAgo(diffMs), diffMs);
  }

  /** The caption text; the locale date is not modelled. */
  function Caption(a: Ago): (s: Option<string>)
    ensures s.None? <==> a == OnDate
    ensures a.HoursAgo? && a.hours >= 0 ==> s == Some(NatToString(a.hours) + "h ago")
    ensures a.DaysAgo? && a.days >= 0 ==> s == Some(NatToString(a.days) + "d ago")
  {
    match a
    case JustNow => Some("Just now")
    case HoursAgo(h) => Some(IntToString(h) + "h ago")
    case DaysAgo(d) => Some(IntToString(d) + "d ago")
    case OnDate => None
  }
}
