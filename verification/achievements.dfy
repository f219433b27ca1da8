/** The dashboard's badge panel
    (src/pages/student-dashboard/components/AchievementBadges.jsx): which
    badges are unlocked, the earned count and its rounded percentage, the
    eight-card grid, the colour of each card and the "Earned" line. */
module Achievements {
  import opened Wrappers
  import opened Seqs
  import opened Arith
  import opened Strings
  import ProgressIndicator

  /** A badge; an empty `unlockedDate` stands for a missing one. */
  datatype Badge = Badge(id: string, title: string, color: string, unlocked: bool, unlockedDate: string)

  /** The eight badges the panel defines. */
  const ALL_BADGES: seq<Badge> := [
    Badge("assessment-complete", "Assessment Master", "primary", true, "2024-09-10"),
    Badge("first-exploration", "Career Explorer", "secondary", true, "2024-09-11"),
    Badge("college-saver", "College Collector", "accent", true, "2024-09-12"),
    Badge("timeline-creator", "Timeline Planner", "success", false, ""),
    Badge("ai-chatter", "AI Conversationalist", "warning", false, ""),
    Badge("research-pro", "Research Pro", "primary", false, ""),
    Badge("deadline-tracker", "Deadline Tracker", "secondary", false, ""),
    Badge("pathway-master", "Pathway Master", "accent", false, "")
  ]

  /** The badge total both the panel and the dashboard use by default. */
  const TOTAL_BADGES: int := 12

  /** `badges`: each badge is unlocked exactly when its id is listed,
      whatever its own `unlocked` field said; nothing else changes. */
  function WithUnlocked(all: seq<Badge>, unlockedIds: seq<string>): (r: seq<Badge>)
    ensures |r| == |all|
    ensures forall i :: 0 <= i < |all| ==> (r[i].unlocked <==> all[i].id in unlockedIds)
    ensures forall i :: 0 <= i < |all| ==> r[i] == all[i].(unlocked := r[i].unlocked)
  {
    seq(|all|, i requires 0 <= i < |all| => all[i].(unlocked := all[i].id in unlockedIds))
  }

  /** Only the listed set matters: the order and repetition of ids do not. */
  lemma WithUnlockedBySet(all: seq<Badge>, ids: seq<string>, ids': seq<string>)
    requires forall x :: x in ids <==> x in ids'
    ensures WithUnlocked(all, ids) == WithUnlocked(all, ids')
  {
  }

  function IsUnlocked(): Badge -> bool
  {
    (b: Badge) => b.unlocked
  }

  /** `unlockedCount`. */
  function UnlockedCount(badges: seq<Badge>): (n: nat)
    ensures n <= |badges|
  {
    Count(badges, IsUnlocked())
  }

  /** Every defined badge counts once at most; the count reaches the number
      of defined badges exactly when every id is listed, and is zero exactly
      when none is. */
  lemma {:induction false} UnlockedCountBounds(all: seq<Badge>, ids: seq<string>)
    ensures UnlockedCount(WithUnlocked(all, ids)) <= |all|
    ensures UnlockedCount(WithUnlocked(all, ids)) == |all| <==> forall i :: 0 <= i < |all| ==> all[i].id in ids
    ensures UnlockedCount(WithUnlocked(all, ids)) == 0 <==> forall i :: 0 <= i < |all| ==> all[i].id !in ids
  {
    var bs := WithUnlocked(all, ids);
    CountFull(bs, IsUnlocked());
    var r := Filter(bs, IsUnlocked());
    if |r| > 0 {
      assert r[0] in bs;
    }
    if i :| 0 <= i < |all| && all[i].id in ids {
      assert IsUnlocked()(bs[i]);
      assert bs[i] in r;
    }
  }

  /** `Math.round(unlockedCount / totalBadges * 100)`: a total of 0 divides
      by zero and shows no number. */
  function Percentage(count: nat, total: int): (r: Option<int>)
    ensures r.None? <==> total == 0
    ensures total > 0 ==> 2 * total * r.value - total <= 200 * count < 2 * total * r.value + total
  {
    if total > 0 then Some(RoundDiv(100 * count, total))
    else if total < 0 then Some(RoundDiv(-100 * count, -total))
    else None
  }

  /** Out of twelve, at most eight earned badges show at most 67%, fewer
      than eight at most 58%, and three show 25%. */
  lemma PercentOfTwelve(n: nat)
    requires n <= 8
    ensures 0 <= Percentage(n, TOTAL_BADGES).value <= 67
    ensures n == 8 ==> Percentage(n, TOTAL_BADGES) == Some(67)
    ensures n < 8 ==> Percentage(n, TOTAL_BADGES).value <= 58
    ensures n == 3 ==> Percentage(n, TOTAL_BADGES) == Some(25)
  {
    RoundDivMonotone(0, 100 * n, 12);
    RoundDivUnique(0, 12, 0);
    if n == 8 {
      RoundDivUnique(800, 12, 67);
    } else {
      RoundDivMonotone(100 * n, 700, 12);
      RoundDivUnique(700, 12, 58);
      if n == 3 {
        RoundDivUnique(300, 12, 25);
      }
    }
  }

  /** With the panel's eight badges and a total of twelve the bar can never
      be full: it tops out at 67%, reached exactly when all eight ids are
      listed. The dashboard's three default ids show 25%. */
  lemma EightOfTwelve(ids: seq<string>)
    ensures var n := UnlockedCount(WithUnlocked(ALL_BADGES, ids));
            0 <= Percentage(n, TOTAL_BADGES).value <= 67
            && (Percentage(n, TOTAL_BADGES) == Some(67) <==> forall i :: 0 <= i < |ALL_BADGES| ==> ALL_BADGES[i].id in ids)
  {
    var n := UnlockedCount(WithUnlocked(ALL_BADGES, ids));
    UnlockedCountBounds(ALL_BADGES, ids);
    PercentOfTwelve(n);
  }

  /** The header's `${unlockedCount}/${totalBadges}`. */
  function Header(badges: seq<Badge>, total: int): (s: string)
    ensures Split(s, '/') == [IntToString(UnlockedCount(badges)), IntToString(total)]
  {
    ProgressIndicator.FractionLabel(UnlockedCount(badges), total)
  }

  /** The grid shows the first eight badges. */
  function Grid(badges: seq<Badge>): (r: seq<Badge>)
    ensures r <= badges && |r| == if |badges| < 8 then |badges| else 8
  {
    Take(badges, 8)
  }

  /** All eight defined badges fit in the grid. */
  lemma GridShowsAll(ids: seq<string>)
    ensures Grid(WithUnlocked(ALL_BADGES, ids)) == WithUnlocked(ALL_BADGES, ids)
  {
  }

  /** `getColorClasses`: locked badges are muted, unknown colours fall back
      to primary. */
  datatype Tone = MutedTone | PrimaryTone | SecondaryTone | AccentTone | SuccessTone | WarningTone

  function ToneOf(color: string, unlocked: bool): (t: Tone)
    ensures !unlocked <==> t == MutedTone
    ensures unlocked && color == "secondary" ==> t == SecondaryTone
    ensures unlocked && color == "accent" ==> t == AccentTone
    ensures unlocked && color == "success" ==> t == SuccessTone
    ensures unlocked && color == "warning" ==> t == WarningTone
    ensures t == PrimaryTone <==> unlocked && color !in {"secondary", "accent", "success", "warning"}
  {
    if !unlocked then MutedTone
    else if color == "secondary" then SecondaryTone
    else if color == "accent" then AccentTone
    else if color == "success" then SuccessTone
    else if color == "warning" then WarningTone
    else PrimaryTone
  }

  /** The "Earned …" line: only for an unlocked badge that has a date. */
  function EarnedDate(b: Badge): (r: Option<string>)
    ensures r.Some? <==> b.unlocked && b.unlockedDate != ""
    ensures r.Some? ==> r.value == b.unlockedDate
  {
    if b.unlocked && b.unlockedDate != "" then Some(b.unlockedDate) else None
  }

  /** Unlocking a badge that was defined without a date shows it unlocked
      but with no "Earned" line. */
  lemma UnlockedWithoutDate()
    ensures var b := WithUnlocked(ALL_BADGES, ["timeline-creator"])[3];
            b.unlocked && EarnedDate(b).None?
  {
  }
}
