# Edupath: a Dafny model of the student-facing pages

Edupath is a React web app that guides school leavers from an aptitude
test to a career choice, a shortlist of colleges and a deadline plan. The
centre of the app is the **timeline tracker**. It keeps a list of
admission, scholarship, exam, document, interview and result deadlines.
It shows them as a sorted timeline or as a month calendar, filters them by
category, counts overdue and urgent ones, adds new events through a
validated form and holds the notification preferences.

This project models that page and the logic of the surrounding pages that
feed it:

- the aptitude assessment's question cursor, answers, navigation bar and
  sidebar;
- career exploration: bookmarks, the filter sidebar, the recommendation
  carousel and the career tree;
- the college page's reviews, programs and facilities tabs;
- the student dashboard: the shared step indicator, the journey card,
  the badge panel, the activity feed and the deadline card;
- the chat assistant's message box and conversation list;
- the sign-up form.

Every handler is a pure function over an immutable state record. A React
`setState(prev => …)` becomes a function from the old state to the new
one. Dates are day numbers and clocks are parameters. Each operation comes
with a partner: an inverse, an invariant it preserves, a reference count
or a read-back, and a lemma relating the two.

One file per module, all at the top level:

| file | module | what it holds |
|---|---|---|
| wrappers.dfy | Wrappers | `Option` |
| seqs.dfy | Seqs | filter, count, take, subsequence facts |
| strings.dfy | Strings | trim, lower-casing, number printing and parsing, split and join |
| arith.dfy | Arith | floor division facts, `Math.round` of a quotient |
| calendar.dfy | Calendar | month lengths, weekdays, Gregorian day numbers |
| events.dfy | Events | the event record, the `{...e, ...updates}` merge, update and add |
| deadlines.dfy | Deadlines | days left, overdue/urgent tiers, the "days left" label |
| event_counts.dfy | EventCounts | `getEventCounts` |
| timeline_view.dfy | TimelineView | category filter, stable sort, styles, completion toggle |
| calendar_view.dfy | CalendarView | month grid, per-day buckets, month navigation |
| add_event.dfy | AddEvent | the add-event form and its validation |
| filter_controls.dfy | FilterControls | category chips, header, summary, total |
| notifications.dfy | Notifications | notification settings and the settings dialog |
| assessment.dfy | Assessment | aptitude test state and navigation |
| career.dfy | Career | bookmarks and the career page state |
| career_filters.dfy | CareerFilters | the career filter sidebar |
| recommendations.dfy | Recommendations | the recommendation carousel |
| career_tree.dfy | CareerTree | the expandable career tree |
| reviews.dfy, programs.dfy, facilities.dfy | Reviews, Programs, Facilities | college page tabs |
| progress_indicator.dfy | ProgressIndicator | the shared step indicator |
| progress_overview.dfy | ProgressOverview | the dashboard journey card |
| achievements.dfy | Achievements | the badge panel |
| relative_time.dfy | RelativeTime | "3h ago" captions |
| recent_activity.dfy | RecentActivity | the activity feed |
| upcoming_deadlines.dfy | UpcomingDeadlines | the dashboard deadline card |
| chat_input.dfy | ChatInput | the chat message box |
| chat_history.dfy | ChatHistory | the conversation list and search |
| register.dfy | Register | the sign-up form |

## Model

| member | source | states |
|---|---|---|
| Arith.RoundDiv | src/pages/student-dashboard/components/AchievementBadges.jsx:148 | `Math.round(a / b)` for a positive divisor: the integer nearest the quotient, halves rounding up |
| Arith.RoundDivMonotone | src/pages/student-dashboard/components/ProgressOverview.jsx:43-45 | a larger numerator never rounds to a smaller figure |
| Strings.TrimSpec | src/pages/timeline-tracker/components/AddEventModal.jsx:54 | `trim` removes exactly the leading and trailing whitespace: the result is a middle slice whose cut-off ends are whitespace and whose own ends are not; it is empty iff the text is all whitespace |
| Strings.TrimIdempotent | src/pages/ai-chat-assistant/components/ChatInput.jsx:19-21 | trimming an already trimmed text changes nothing |
| Strings.SplitJoin | src/pages/timeline-tracker/components/AddEventModal.jsx:98 | joining the pieces of `split(sep)` with `sep` gives back the text |
| Strings.JoinSplit | src/pages/timeline-tracker/components/AddEventModal.jsx:98 | pieces without the separator, joined by it, split back into the same pieces |
| Strings.ToLower | src/pages/ai-chat-assistant/components/ChatHistory.jsx:55-56 | `toLowerCase` restricted to ASCII: same length, each capital A to Z replaced by its small letter and every other character kept |
| Strings.ToLowerIdempotent | src/pages/ai-chat-assistant/components/ChatHistory.jsx:55-56 | lower-casing twice is lower-casing once |
| Strings.ParsePad2 | src/pages/ai-chat-assistant/components/ChatInput.jsx:61 | `padStart(2, '0')` keeps the number's value: the padded digits parse back to it |
| Strings.ParseNatToString | src/pages/ai-chat-assistant/components/ChatInput.jsx:61 | the decimal text of a count parses back to the count |
| Events.AllCategoriesListed | src/pages/timeline-tracker/index.jsx:195-202 | the six categories the counters list cover every category an event can have |
| Events.MergeLaws | src/pages/timeline-tracker/index.jsx:184-188 | spreading an empty update changes nothing; two spreads equal one spread of the combined update; spreading the same update twice equals spreading it once |
| Events.UpdateEvent | src/pages/timeline-tracker/index.jsx:184-188 | the list keeps its length; every event with the id gets the update merged in; every other event is unchanged |
| Events.UpdateAbsentId | src/pages/timeline-tracker/index.jsx:184-188 | updating an id no event has returns the same list |
| Events.AddEvent | src/pages/timeline-tracker/index.jsx:190-192 | the new event is appended; the earlier events keep their places |
| Events.FindById | src/pages/timeline-tracker/components/TimelineView.jsx:67-69 | nothing is found exactly when no event has the id; a found event is in the list and has the id |
| Deadlines.CeilDiv | src/pages/timeline-tracker/components/TimelineView.jsx:55 | the result is the least whole number at least the quotient, i.e. `Math.ceil(a / b)` |
| Deadlines.DaysUntil | src/pages/timeline-tracker/components/TimelineView.jsx:51-57 | the day count is the least whole number of days covering the time to the deadline |
| Deadlines.DaysUntilWithinDay | src/pages/timeline-tracker/index.jsx:206-217 | at any moment of a day, midnight included, the count is the calendar difference between deadline and today |
| Deadlines.Classify | src/pages/timeline-tracker/components/TimelineView.jsx:96-97 | overdue iff fewer than 0 days are left; urgent iff 0 to 7 days are left; normal iff more than 7 are left |
| Deadlines.DeadlineTone | src/pages/timeline-tracker/components/TimelineView.jsx:174-176 | the day text is red iff overdue, amber iff urgent, accent iff 8 to 30 days are left, muted iff more than 30 are left |
| Deadlines.RemainingLabelRoundTrip | src/pages/timeline-tracker/components/TimelineView.jsx:177-182 | the "N days overdue" / "Due today" / "N days left" text parses back to the day count, so no two counts share a text |
| EventCounts.BumpCategory | src/pages/timeline-tracker/index.jsx:211 | incrementing a category counter raises that counter by one and leaves every other counter as it was |
| EventCounts.GetEventCountsMeaning | src/pages/timeline-tracker/index.jsx:194-228 | each category counter equals the number of events in that category; `completed` counts completed events; `overdue` counts incomplete events before today; `urgent` counts incomplete events due within 7 days |
| EventCounts.CategoryCountsSumToLength | src/pages/timeline-tracker/index.jsx:210-211 | the six category counters add up to the number of events |
| EventCounts.AggregatesBounded | src/pages/timeline-tracker/index.jsx:213-224 | completed, overdue and urgent are counted at most once per event, so their sum is at most the number of events |
| EventCounts.AddEventBumpsOwnCategory | src/pages/timeline-tracker/index.jsx:190-192 | adding an event raises its own category counter by one and leaves the other categories unchanged |
| TimelineView.FilterEvents | src/pages/timeline-tracker/components/TimelineView.jsx:8-11 | no selection keeps every event; otherwise exactly the events whose category is selected are kept |
| TimelineView.FilterEventsKeepsOrder | src/pages/timeline-tracker/components/TimelineView.jsx:8-11 | the filtered list is a subsequence of the input |
| TimelineView.SingleCategoryFilter | src/pages/timeline-tracker/components/TimelineView.jsx:8-11 | selecting one category keeps exactly that category's events |
| TimelineView.InsertByDeadline | src/pages/timeline-tracker/components/TimelineView.jsx:13 | insertion adds exactly one element and keeps a sorted list sorted |
| TimelineView.SortByDeadline | src/pages/timeline-tracker/components/TimelineView.jsx:13 | the result is a permutation of the input, ordered by deadline |
| TimelineView.SortIsStable | src/pages/timeline-tracker/components/TimelineView.jsx:13 | events due on the same day keep their relative order, as in JavaScript's stable sort |
| TimelineView.DisplayedEvents | src/pages/timeline-tracker/components/TimelineView.jsx:8-13 | the list shown is a deadline-ordered permutation of the filtered events |
| TimelineView.EmptyStateMessage | src/pages/timeline-tracker/components/TimelineView.jsx:77-86 | a "No Events Found" message appears iff the filter leaves nothing |
| TimelineView.NodeStyleOf | src/pages/timeline-tracker/components/TimelineView.jsx:102-110 | the node shows completed iff the event is complete; otherwise it shows overdue or urgent iff the deadline is in that tier |
| TimelineView.CardStyleOf | src/pages/timeline-tracker/components/TimelineView.jsx:121-124 | the card border shows overdue iff overdue and urgent iff urgent, whatever the completion; it shows completed only for a completed event in the normal tier |
| TimelineView.NodeAndCardPrecedence | src/pages/timeline-tracker/components/TimelineView.jsx:102-124 | node and card agree on incomplete events; a completed overdue event gets a completed node but an overdue card |
| TimelineView.ToggleComplete | src/pages/timeline-tracker/components/TimelineView.jsx:67-69 | the list keeps its length; every event with the clicked id gets the negation of the first such event's flag, even when ids repeat, and every other event is unchanged |
| TimelineView.ToggleCompleteFlips | src/pages/timeline-tracker/components/TimelineView.jsx:67-69 | with unique ids, the clicked event's `completed` flips and every other event is unchanged |
| TimelineView.ToggleCompleteTwice | src/pages/timeline-tracker/components/TimelineView.jsx:67-69 | with unique ids, toggling the same event twice restores the list |
| TimelineView.ToggleExpansion | src/pages/timeline-tracker/components/TimelineView.jsx:71-73 | after a click the event is expanded iff it was not; no other event stays expanded |
| Calendar.DaysInMonth | src/pages/timeline-tracker/components/CalendarView.jsx:14-16 | a month has 28 to 31 days; February has 29 iff the year is a leap year; the other months have 30 or 31 by the usual table |
| Calendar.Weekday | src/pages/timeline-tracker/components/CalendarView.jsx:19 | a weekday is a column 0 (Sunday) to 6 |
| Calendar.FirstDayOfMonth | src/pages/timeline-tracker/components/CalendarView.jsx:18-20 | the first day of a month falls in a column 0 to 6 |
| Calendar.NextMonth | src/pages/timeline-tracker/components/CalendarView.jsx:15 | the following month is a valid month index |
| Calendar.MonthsSum | src/pages/timeline-tracker/components/CalendarView.jsx:14-16 | the twelve month lengths add up to 366 in a leap year and 365 otherwise |
| Calendar.YearLength | src/pages/timeline-tracker/components/CalendarView.jsx:14-16 | the day numbering gives each year 366 days iff it is a leap year, in agreement with the month lengths |
| Calendar.NextMonthStart | src/pages/timeline-tracker/components/CalendarView.jsx:14-20 | the first of the next month comes exactly one month length after the first of this month |
| Calendar.FirstDayOfNextMonth | src/pages/timeline-tracker/components/CalendarView.jsx:14-20 | next month's first weekday is this month's first weekday shifted by this month's length, mod 7 |
| Calendar.KnownDates | src/pages/timeline-tracker/components/CalendarView.jsx:18-20 | 1 January 2024 is a Monday, 1 January 2025 a Wednesday; February 2024 has 29 days and February 2023 has 28 |
| CalendarView.BuildMonthGrid | src/pages/timeline-tracker/components/CalendarView.jsx:71-83 | the grid is one blank per weekday before the 1st, then every day of the month in order, and each day sits in its weekday column |
| CalendarView.WeekdayColumn | src/pages/timeline-tracker/components/CalendarView.jsx:76-83 | the day placed in cell `k` falls on weekday `k mod 7` |
| CalendarView.EventsForDate | src/pages/timeline-tracker/components/CalendarView.jsx:22-27 | a day's bucket holds exactly the filtered events due that day |
| CalendarView.BucketsDisjoint | src/pages/timeline-tracker/components/CalendarView.jsx:22-27 | no event sits in the buckets of two different days |
| CalendarView.EventsForDateKeepsOrder | src/pages/timeline-tracker/components/CalendarView.jsx:22-27 | a bucket is a subsequence of the filtered list |
| CalendarView.DayMarkers | src/pages/timeline-tracker/components/CalendarView.jsx:165-175 | a cell draws bars for the first min(2, n) of its n events, in order, and a "+n−2" marker iff there are more than two; the bars plus the marker count every event |
| CalendarView.DayCellMarkers | src/pages/timeline-tracker/components/CalendarView.jsx:165-175 | a cell's bars are events shown by the filter and due that day, in the filtered order, and bars plus marker count that day's whole bucket |
| CalendarView.CellHighlight | src/pages/timeline-tracker/components/CalendarView.jsx:150-153 | today's cell is highlighted as today; otherwise the selected day as selected; otherwise a day with events as busy |
| CalendarView.ShiftMonth | src/pages/timeline-tracker/components/CalendarView.jsx:29-36 | the target month is exactly `dir` months away, carrying into the year |
| CalendarView.NavigateMonthAsWritten | src/pages/timeline-tracker/components/CalendarView.jsx:29-36 | `setMonth` on the displayed date: the result is a valid date, the selection is cleared, and the date shown is the day counted that many days from the 1st of the target month, so a day the month lacks spills into the next |
| CalendarView.NavigateSkipsShortMonth | src/pages/timeline-tracker/components/CalendarView.jsx:29-36 | pressing next from 31 January 2025 shows 3 March 2025 |
| CalendarView.NavigateMonth | src/pages/timeline-tracker/components/CalendarView.jsx:29-36 | the view moves exactly `dir` months; the day is kept when the target month has it and clamped to the month's end otherwise; the selection is cleared |
| CalendarView.NavigateVersionsAgree | src/pages/timeline-tracker/components/CalendarView.jsx:29-36 | both navigations agree whenever the day exists in the target month |
| CalendarView.NavigateRoundTrip | src/pages/timeline-tracker/components/CalendarView.jsx:29-36 | forward then back returns to the same month, and to the same date when the day is at most 28 |
| CalendarView.NavigateAcrossYears | src/pages/timeline-tracker/components/CalendarView.jsx:29-36 | December 2024 moves forward to January 2025 and January 2024 moves back to December 2023 |
| CalendarView.GoToToday | src/pages/timeline-tracker/components/CalendarView.jsx:38-41 | "Today" shows today's month and selects today |
| CalendarView.SelectedEvents | src/pages/timeline-tracker/components/CalendarView.jsx:87 | the side panel is empty without a selection and is the selected day's bucket otherwise |
| CalendarView.GoToTodayShowsToday | src/pages/timeline-tracker/components/CalendarView.jsx:38-41 | after "Today" the panel lists exactly the filtered events due today |
| CalendarView.NavigateClearsPanel | src/pages/timeline-tracker/components/CalendarView.jsx:35 | after navigating, the side panel is empty |
| AddEvent.Set | src/pages/timeline-tracker/components/AddEventModal.jsx:37-40 | the edited field takes the value; every other field keeps its own |
| AddEvent.Validate | src/pages/timeline-tracker/components/AddEventModal.jsx:51-80 | each error is present iff its condition holds: blank title, blank institution, no category, no deadline or a deadline before today; each error carries its exact message |
| AddEvent.ValidateIffAcceptable | src/pages/timeline-tracker/components/AddEventModal.jsx:79 | validation passes iff the form is acceptable |
| AddEvent.DefaultFormErrors | src/pages/timeline-tracker/components/AddEventModal.jsx:8-17 | the untouched form fails on all four required fields, the deadline as missing |
| AddEvent.AllMissing | src/pages/timeline-tracker/components/AddEventModal.jsx:51-80 | a form with blank title and institution and no category or deadline fails on exactly those four fields, the deadline as missing rather than past |
| AddEvent.TrimAll | src/pages/timeline-tracker/components/AddEventModal.jsx:98 | every line is trimmed, in place |
| AddEvent.SplitRequirements | src/pages/timeline-tracker/components/AddEventModal.jsx:97-99 | a blank textarea gives no requirements; otherwise the requirements are trimmed lines of the text, in order, one for each non-blank line, each non-empty, trimmed and a single line |
| AddEvent.CountTrimmed | src/pages/timeline-tracker/components/AddEventModal.jsx:98 | trimming then dropping empty lines keeps exactly as many lines as are non-blank |
| AddEvent.SplitRequirementsKeeps | src/pages/timeline-tracker/components/AddEventModal.jsx:98 | every non-blank line appears, trimmed, among the requirements |
| AddEvent.RequirementsRoundTrip | src/pages/timeline-tracker/components/AddEventModal.jsx:97-99 | trimmed, non-empty lines joined by newlines split back into the same list |
| AddEvent.NewEvent | src/pages/timeline-tracker/components/AddEventModal.jsx:89-104 | the new event carries the trimmed texts, the chosen category, deadline and priority, the parsed requirements, and starts incomplete at 0% with no checklist |
| AddEvent.InputChange | src/pages/timeline-tracker/components/AddEventModal.jsx:36-49 | the field is set and the others keep their values; its error is blanked if it had one; the other errors are unchanged |
| AddEvent.Close | src/pages/timeline-tracker/components/AddEventModal.jsx:110-123 | closing resets the form to its defaults (medium priority) with no errors |
| AddEvent.Submit | src/pages/timeline-tracker/components/AddEventModal.jsx:82-108 | an event is produced iff the form is acceptable; a rejected form keeps its values and shows its errors; an accepted one closes the dialog and yields exactly the event built from the form, with a deadline no earlier than today |
| FilterControls.ToggleFilter | src/pages/timeline-tracker/components/FilterControls.jsx:58-63 | the clicked category is selected afterwards iff it was not before; other categories keep their state; a new category is appended |
| FilterControls.ToggleTwice | src/pages/timeline-tracker/components/FilterControls.jsx:58-63 | toggling twice restores which categories are selected, and the list itself when the category started unselected |
| FilterControls.ClearAll | src/pages/timeline-tracker/components/FilterControls.jsx:65-67 | the cleared selection shows every event |
| FilterControls.SelectAll | src/pages/timeline-tracker/components/FilterControls.jsx:69-71 | "Select all" lists six categories and every category is among them |
| FilterControls.SelectAllShowsEverything | src/pages/timeline-tracker/components/FilterControls.jsx:65-71 | selecting every category shows the same events as selecting none |
| FilterControls.HeaderLabel | src/pages/timeline-tracker/components/FilterControls.jsx:92 | the header reads "All" iff nothing is selected, and otherwise the number selected |
| FilterControls.BadgeShownIffEvents | src/pages/timeline-tracker/components/FilterControls.jsx:19 | a category chip shows a count badge iff some event has that category |
| FilterControls.Summary | src/pages/timeline-tracker/components/FilterControls.jsx:184-189 | the "Showing n of 6" line appears iff something is selected |
| FilterControls.TotalAsWrittenOvercounts | src/pages/timeline-tracker/components/FilterControls.jsx:213 | the printed total is the number of events plus completed, overdue and urgent again; one completed event shows as 2 |
| FilterControls.TotalEventsIsLength | src/pages/timeline-tracker/components/FilterControls.jsx:213 | the corrected total is the number of events |
| Notifications.InitialSettingsShape | src/pages/timeline-tracker/index.jsx:16-43 | the starting settings enable every category but documents, only push delivery, an offered reminder per category, and quiet hours off |
| Notifications.ResetMatchesInitial | src/pages/timeline-tracker/components/NotificationSettings.jsx:118-148 | "Reset to Default" restores exactly the page's starting settings |
| Notifications.ToggleType | src/pages/timeline-tracker/components/NotificationSettings.jsx:83-91 | one category's checkbox flips; every other setting stays |
| Notifications.ToggleMethod | src/pages/timeline-tracker/components/NotificationSettings.jsx:93-101 | one delivery method flips; every other setting stays |
| Notifications.ToggleTwice | src/pages/timeline-tracker/components/NotificationSettings.jsx:83-101 | flipping twice leaves every checkbox as it was |
| Notifications.SetReminder | src/pages/timeline-tracker/components/NotificationSettings.jsx:103-111 | one category's reminder takes the chosen value; everything else stays |
| Notifications.SetReminderKeepsOffered | src/pages/timeline-tracker/components/NotificationSettings.jsx:54-60 | choosing an offered reminder keeps every stored reminder among the five offers |
| Notifications.ToggleQuietHours | src/pages/timeline-tracker/components/NotificationSettings.jsx:269-278 | "Do Not Disturb" flips and keeps its time window; everything else stays |
| Notifications.SetQuietStart | src/pages/timeline-tracker/components/NotificationSettings.jsx:285-296 | only the quiet-hours start changes |
| Notifications.SetQuietEnd | src/pages/timeline-tracker/components/NotificationSettings.jsx:300-311 | only the quiet-hours end changes |
| Notifications.StartPage | src/pages/timeline-tracker/components/NotificationSettings.jsx:7 | the dialog starts closed, with its local copy equal to the page's settings |
| Notifications.EditLocal | src/pages/timeline-tracker/components/NotificationSettings.jsx:83-111 | an edit in the dialog does not touch the page's settings |
| Notifications.EditsStayLocal | src/pages/timeline-tracker/components/NotificationSettings.jsx:83-111 | any run of edits leaves the page's settings unchanged |
| Notifications.Save | src/pages/timeline-tracker/components/NotificationSettings.jsx:113-116 | "Save" hands the whole local copy to the page and closes |
| Notifications.Cancel | src/pages/timeline-tracker/components/NotificationSettings.jsx:330-335 | "Cancel" closes without changing the page's settings, and the local copy keeps its edits |
| Notifications.Open | src/pages/timeline-tracker/index.jsx:290-295 | reopening the dialog shows the kept local copy |
| Notifications.CancelledEditsSurvive | src/pages/timeline-tracker/components/NotificationSettings.jsx:7 | an edit cancelled, then the dialog reopened and saved, reaches the page's settings |
| Assessment.Next | src/pages/aptitude-assessment/index.jsx:449-453 | "Next" advances by one unless on the last question; answers are untouched |
| Assessment.Previous | src/pages/aptitude-assessment/index.jsx:455-459 | "Previous" goes back by one unless on the first question; answers are untouched |
| Assessment.AnswerSelect | src/pages/aptitude-assessment/index.jsx:442-447 | the current question's answer becomes the chosen option; no other answer changes |
| Assessment.CompletedQuestions | src/pages/aptitude-assessment/index.jsx:422 | the completed questions are exactly those with a recorded answer |
| Assessment.SelectedAnswer | src/pages/aptitude-assessment/index.jsx:490 | there is a selected answer iff the current question has a non-empty answer, and it is that answer |
| Assessment.RunKeepsValid | src/pages/aptitude-assessment/index.jsx:442-459 | whatever is clicked, the cursor stays within 1..total and every answer belongs to a question in range |
| Assessment.StartValid | src/pages/aptitude-assessment/index.jsx:14-15 | the test starts on question 1 with no answers and nothing selected |
| Assessment.NextPrevious | src/pages/aptitude-assessment/index.jsx:449-459 | away from the last question, Next then Previous returns to the same state |
| Assessment.CurrentQuestion | src/pages/aptitude-assessment/index.jsx:489 | no question is found iff no question has the id; a found question has it |
| Assessment.CurrentQuestionByPosition | src/pages/aptitude-assessment/index.jsx:489 | with ids numbered from 1 in order, question `k` is the `k`-th entry |
| Assessment.Controls | src/pages/aptitude-assessment/components/NavigationControls.jsx:14-64 | Previous is shown and enabled iff not on question 1; Submit replaces Next iff on the last question; Next or Submit is enabled iff an answer is selected; the counter shows current / total |
| Assessment.EnabledButtonsMove | src/pages/aptitude-assessment/components/NavigationControls.jsx:21-64 | in a valid state an enabled Next really advances and an enabled Previous really goes back |
| Assessment.TipStep | src/pages/aptitude-assessment/components/SidebarTips.jsx:49-55 | the tip index advances by one and wraps to 0 after the fifth tip |
| Assessment.TipCycle | src/pages/aptitude-assessment/components/SidebarTips.jsx:49-55 | five ticks bring the rotation back to the same tip |
| Assessment.Encouragement | src/pages/aptitude-assessment/components/SidebarTips.jsx:57-64 | message `k` is reached iff the progress is at least 20·k percent, compared exactly in integers |
| Assessment.EncouragementMonotone | src/pages/aptitude-assessment/components/SidebarTips.jsx:57-64 | moving forward never gives a less advanced message, and the last question gives the last message |
| Career.RemoveBookmark | src/pages/career-exploration/index.jsx:91-93 | afterwards no bookmark has the career's name; every entry with another name is kept and the remaining entries keep their order; removing an absent name changes nothing |
| Career.RemoveKeepsOthers | src/pages/career-exploration/index.jsx:91-93 | bookmarks under other names are kept |
| Career.ToggleBookmark | src/pages/career-exploration/index.jsx:82-89 | the career is bookmarked afterwards iff it was not before; other names keep their state; a new one is appended |
| Career.ToggleKeepsUnique | src/pages/career-exploration/index.jsx:82-89 | bookmark names stay unique |
| Career.ToggleTwice | src/pages/career-exploration/index.jsx:82-89 | toggling twice restores which names are bookmarked, and the list itself when the career started unbookmarked |
| Career.InitialPage | src/pages/career-exploration/index.jsx:20-25 | the page opens on the recommendations iff it was reached from the assessment, with nothing selected |
| Career.SelectCareer | src/pages/career-exploration/index.jsx:72-75 | choosing a career selects it and opens the panel |
| Career.CloseDetail | src/pages/career-exploration/index.jsx:104-107 | closing clears the selection and the panel |
| Career.ViewAll | src/pages/career-exploration/index.jsx:99-102 | "View all" shows the tree focused on science |
| Career.PanelStaysConsistent | src/pages/career-exploration/index.jsx:68-107 | through any sequence of page actions the panel is open iff a career is selected |
| CareerFilters.InitialFilters | src/pages/career-exploration/components/CareerFilters.jsx:9-17 | each field starts with the passed value or empty, and passed quick tags are kept |
| CareerFilters.InitialFromNothing | src/pages/career-exploration/components/CareerFilters.jsx:9-17 | with nothing passed, the filters start cleared |
| CareerFilters.SetText | src/pages/career-exploration/components/CareerFilters.jsx:73-77 | one select takes the value; every other field is unchanged |
| CareerFilters.SetList | src/pages/career-exploration/components/CareerFilters.jsx:73-77 | one checkbox list takes the items; every other field is unchanged |
| CareerFilters.CheckboxChange | src/pages/career-exploration/components/CareerFilters.jsx:79-86 | checking appends the id; unchecking removes every copy and keeps the rest; other fields are unchanged |
| CareerFilters.FlipTag | src/pages/career-exploration/components/CareerFilters.jsx:246 | a quick tag flips, a missing tag reading as off; nothing else changes |
| CareerFilters.ActiveCount | src/pages/career-exploration/components/CareerFilters.jsx:101-110 | at most six filters are active, and none iff every field is empty |
| CareerFilters.TagsNotCounted | src/pages/career-exploration/components/CareerFilters.jsx:101-110 | quick tags never change the active count |
| CareerFilters.SetTextCount | src/pages/career-exploration/components/CareerFilters.jsx:101-110 | setting one select moves the count by at most one, up exactly when an empty field becomes set |
| CareerFilters.CheckingActivates | src/pages/career-exploration/components/CareerFilters.jsx:79-110 | checking a box in an empty list raises the count by one; otherwise it keeps the count |
| CareerFilters.ClearAll | src/pages/career-exploration/components/CareerFilters.jsx:88-99 | clearing empties all six fields and the quick tags, so nothing is active |
| Recommendations.NextIndex | src/pages/career-exploration/components/PersonalizedRecommendations.jsx:115-117 | the next index stays within the list, wrapping from the last card to the first |
| Recommendations.PrevIndex | src/pages/career-exploration/components/PersonalizedRecommendations.jsx:119-121 | the previous index stays within the list, wrapping from the first card to the last |
| Recommendations.PrevNextInverse | src/pages/career-exploration/components/PersonalizedRecommendations.jsx:115-121 | previous undoes next and next undoes previous |
| Recommendations.NextTimesIsShift | src/pages/career-exploration/components/PersonalizedRecommendations.jsx:115-117 | `k` presses of next land on `(i + k) mod n` |
| Recommendations.NextCycle | src/pages/career-exploration/components/PersonalizedRecommendations.jsx:115-117 | `n` presses of next return to the starting card |
| Recommendations.ClickStep | src/pages/career-exploration/components/PersonalizedRecommendations.jsx:160-177 | any click keeps the index within the list; the arrows do nothing when they are disabled |
| Recommendations.ClicksStayInRange | src/pages/career-exploration/components/PersonalizedRecommendations.jsx:160-177 | after any sequence of clicks the index names a recommendation |
| Recommendations.SingleCardNeverMoves | src/pages/career-exploration/components/PersonalizedRecommendations.jsx:166 | with one recommendation the index never leaves 0 |
| Recommendations.MatchTierOf | src/pages/career-exploration/components/PersonalizedRecommendations.jsx:123-128 | a match is strong iff at least 90, good iff 80 to 89, fair iff 70 to 79, weak below 70 |
| Recommendations.MatchTierMonotone | src/pages/career-exploration/components/PersonalizedRecommendations.jsx:123-128 | a higher percentage never gets a lower tier |
| Recommendations.DemandToneOf | src/pages/career-exploration/components/PersonalizedRecommendations.jsx:130-137 | each of the three known demand levels gets its own colour, and every other level is muted |
| Recommendations.PositionLabel | src/pages/career-exploration/components/PersonalizedRecommendations.jsx:157 | the label splits at spaces into the 1-based position, "of" and the count |
| Recommendations.PositionLabelReadsBack | src/pages/career-exploration/components/PersonalizedRecommendations.jsx:157 | reading the label back gives the 1-based position and the count |
| CareerTree.ToggleNode | src/pages/career-exploration/components/CareerTreeVisualization.jsx:164-172 | the node is expanded afterwards iff it was not before; other nodes keep their state |
| CareerTree.ToggleNodeTwice | src/pages/career-exploration/components/CareerTreeVisualization.jsx:164-172 | toggling the same node twice restores the set |
| CareerTree.ToggleNodeCommutes | src/pages/career-exploration/components/CareerTreeVisualization.jsx:164-172 | toggles of different nodes commute |
| CareerTree.DesktopHeaderClick | src/pages/career-exploration/components/CareerTreeVisualization.jsx:210 | a desktop stream click selects the stream without expanding it, and its branches show |
| CareerTree.MobileHeaderClick | src/pages/career-exploration/components/CareerTreeVisualization.jsx:308-311 | a mobile stream click selects the stream and flips whether its branches show |
| CareerTree.BranchClick | src/pages/career-exploration/components/CareerTreeVisualization.jsx:239 | a branch click flips whether its careers show and keeps the selected stream |
| CareerTree.MobileImpliesDesktop | src/pages/career-exploration/components/CareerTreeVisualization.jsx:332 | branches shown on mobile are also shown on desktop |
| CareerTree.MobileCollapseStillShownOnDesktop | src/pages/career-exploration/components/CareerTreeVisualization.jsx:308-311 | collapsing an open stream on mobile hides its branches there, but desktop still shows them because the stream stays selected |
| CareerTree.ColorOf | src/pages/career-exploration/components/CareerTreeVisualization.jsx:174-182 | each known colour maps to itself and anything else to primary |
| CareerTree.Fallbacks | src/pages/career-exploration/components/CareerTreeVisualization.jsx:174-191 | unknown colours style like primary, and unknown demand levels are muted |
| Reviews.FilterReviews | src/pages/college-details/components/ReviewsTab.jsx:28-31 | "all" keeps every review; a star filter keeps exactly the reviews with that rating, in order |
| Reviews.SortIgnored | src/pages/college-details/components/ReviewsTab.jsx:8-31 | changing the sort option never changes the list shown |
| Reviews.EmptyStateIff | src/pages/college-details/components/ReviewsTab.jsx:313 | the empty state shows iff no review passes the star filter |
| Reviews.Distribution | src/pages/college-details/components/ReviewsTab.jsx:52-58 | each of the five bars counts the reviews with that rating |
| Reviews.DistributionSumsToTotal | src/pages/college-details/components/ReviewsTab.jsx:52-61 | with whole-star ratings the five bars add up to the number of reviews |
| Reviews.BarPercent | src/pages/college-details/components/ReviewsTab.jsx:102 | a bar is 0 with no reviews; otherwise it is the bar's count as a share of 100, and between 0 and 100 for a count within the total |
| Reviews.Stars | src/pages/college-details/components/ReviewsTab.jsx:41-50 | five stars, the `i`-th filled iff `i` is below the rating |
| Reviews.FilledStars | src/pages/college-details/components/ReviewsTab.jsx:41-50 | the number of filled stars is the rating clamped to 0..5 |
| Programs.FilterPrograms | src/pages/college-details/components/ProgramsTab.jsx:28-32 | a program is listed iff both its category and its level match, 'all' matching anything |
| Programs.FilterProgramsShape | src/pages/college-details/components/ProgramsTab.jsx:28-32 | with both selects on 'all' every program is listed; any result keeps the input order |
| Programs.NarrowingNeverAdds | src/pages/college-details/components/ProgramsTab.jsx:28-32 | narrowing either select from 'all' only removes programs |
| Programs.EmptyStateIff | src/pages/college-details/components/ProgramsTab.jsx:166 | "No Programs Found" shows iff no program matches |
| Programs.BadgeOf | src/pages/college-details/components/ProgramsTab.jsx:83-89 | the badge is Available iff "available", Limited iff "limited", and Full for anything else |
| Programs.BadgeTextInjective | src/pages/college-details/components/ProgramsTab.jsx:87-88 | the three captions are distinct, and an unknown availability reads "Full" |
| Facilities.FilterFacilities | src/pages/college-details/components/FacilitiesTab.jsx:21-23 | 'all' keeps every facility; a category keeps exactly the facilities in it, in order |
| Facilities.GalleryFacility | src/pages/college-details/components/FacilitiesTab.jsx:35 | the result is the first listed facility with images, if any |
| Facilities.FirstGalleryShift | src/pages/college-details/components/FacilitiesTab.jsx:35 | a leading facility without images is skipped by the search |
| Facilities.NextImage | src/pages/college-details/components/FacilitiesTab.jsx:33-40 | with the modal closed or no gallery facility nothing moves; otherwise the index advances, wrapping at that facility's image count |
| Facilities.PrevImage | src/pages/college-details/components/FacilitiesTab.jsx:42-51 | the index steps back, wrapping from 0 to the last image |
| Facilities.PrevNextImage | src/pages/college-details/components/FacilitiesTab.jsx:33-51 | inside the gallery, previous undoes next and next undoes previous |
| Facilities.CloseImageModal | src/pages/college-details/components/FacilitiesTab.jsx:29-31 | closing leaves no image selected, and the arrows then do nothing |
| Facilities.OpenImageModal | src/pages/college-details/components/FacilitiesTab.jsx:25-27 | every gallery button opens on image 0 |
| Facilities.GalleryShowsFirstFacility | src/pages/college-details/components/FacilitiesTab.jsx:227 | with an imageless library listed before a lab with two pictures, the lab's button opens a modal that shows no picture |
| Facilities.OpenGallery | src/pages/college-details/components/FacilitiesTab.jsx:87-89 | the corrected gallery opens on image 0 of the facility whose button was clicked |
| Facilities.MoveGallery | src/pages/college-details/components/FacilitiesTab.jsx:33-51 | one arrow press keeps the corrected gallery valid and on the same facility |
| Facilities.GalleryStaysOnFacility | src/pages/college-details/components/FacilitiesTab.jsx:33-51 | any sequence of arrow presses keeps showing one of the clicked facility's own images |
| Facilities.FeatureSummary | src/pages/college-details/components/FacilitiesTab.jsx:125-137 | the first three features are listed, with "+n more" iff there are more than three; together they account for every feature |
| ProgressIndicator.ProgressSteps | src/components/ui/ProgressIndicator.jsx:12-19 | the caller's steps when there are any, otherwise a prefix of the four default steps |
| ProgressIndicator.StepStatus | src/components/ui/ProgressIndicator.jsx:22-26 | a step is completed iff before the current step, current iff equal to it, and upcoming iff after it |
| ProgressIndicator.Statuses | src/components/ui/ProgressIndicator.jsx:60-63 | one status per drawn step, each that step's status |
| ProgressIndicator.StatusCounts | src/components/ui/ProgressIndicator.jsx:22-26 | over `n` steps, `currentStep - 1` (clamped) are completed, one is current iff the step is drawn, and the rest are upcoming |
| ProgressIndicator.RemainingIsUpcoming | src/components/ui/ProgressIndicator.jsx:128 | when the current step is drawn, "steps remaining" equals the number of upcoming steps |
| ProgressIndicator.StepIcon | src/components/ui/ProgressIndicator.jsx:28-31 | completed steps show a check; others show their own icon, or a circle without one |
| ProgressIndicator.CurrentStepInfo | src/components/ui/ProgressIndicator.jsx:110-120 | the panel shows step details iff the current step is among the steps drawn |
| ProgressIndicator.CurrentStepIcon | src/components/ui/ProgressIndicator.jsx:110 | the panel icon is the current step's icon, or a circle |
| ProgressIndicator.FractionLabel | src/components/ui/ProgressIndicator.jsx:43 | the caption splits at '/' into the two numbers |
| ProgressIndicator.FractionLabelReadsBack | src/components/ui/ProgressIndicator.jsx:43 | for counts the caption parses back to the two numbers |
| ProgressIndicator.PercentComplete | src/components/ui/ProgressIndicator.jsx:20 | there is no figure for a one-step indicator, whose percentage divides by zero; otherwise it is the rounded share of the steps passed |
| ProgressIndicator.PercentCompleteRange | src/components/ui/ProgressIndicator.jsx:20 | from step 1 to the last step the figure climbs monotonically from 0 to 100 |
| ProgressOverview.Milestones | src/pages/student-dashboard/components/ProgressOverview.jsx:12-41 | four milestones with their figures, each completed iff its figure is exactly 100 |
| ProgressOverview.Overall | src/pages/student-dashboard/components/ProgressOverview.jsx:43-45 | the overall figure is the mean of the four rounded to the nearest integer, halves up |
| ProgressOverview.OverallBounds | src/pages/student-dashboard/components/ProgressOverview.jsx:43-45 | with every figure a percentage the overall is one too, and it grows with each figure |
| ProgressOverview.DashboardOverall | src/pages/student-dashboard/index.jsx:16-22 | the dashboard's 85, 60, 30 and 15 show as 48% |
| ProgressOverview.FullOverallWithUnfinishedStep | src/pages/student-dashboard/components/ProgressOverview.jsx:39-45 | with three steps at 100 and the last at 98 or 99, the card shows 100% while the last milestone is not done |
| ProgressOverview.OneActiveCard | src/pages/student-dashboard/components/ProgressOverview.jsx:71-72 | at most one card is active, and one is iff the current step is 1 to 4 |
| ProgressOverview.CardTone | src/pages/student-dashboard/components/ProgressOverview.jsx:78-83 | the card styling is active iff the card is active, done iff completed and not active, and plain otherwise |
| ProgressOverview.CardBadge | src/pages/student-dashboard/components/ProgressOverview.jsx:106 | the badge reads Done iff completed, Active iff active and not completed, and Pending otherwise |
| ProgressOverview.ToneAndBadge | src/pages/student-dashboard/components/ProgressOverview.jsx:78-106 | border and badge agree except on a card both active and completed |
| ProgressOverview.CardIcon | src/pages/student-dashboard/components/ProgressOverview.jsx:96 | a card shows a check iff completed, else its own icon |
| ProgressOverview.Recommendation | src/pages/student-dashboard/components/ProgressOverview.jsx:153-156 | there is a recommended next step iff the current step is 1 to 4 |
| ProgressOverview.RecommendationsDistinct | src/pages/student-dashboard/components/ProgressOverview.jsx:153-156 | each step has its own sentence |
| ProgressOverview.IndicatorSteps | src/pages/student-dashboard/components/ProgressOverview.jsx:61-67 | the indicator gets the four milestones as its steps |
| ProgressOverview.IndicatorAndCardsDisagree | src/pages/student-dashboard/index.jsx:61-67 | with current step 2 and Assessment at 85, the indicator puts a check on step 1 while its card reads "Pending" |
| Achievements.WithUnlocked | src/pages/student-dashboard/components/AchievementBadges.jsx:78-81 | each badge is unlocked iff its id is listed; everything else about it is kept |
| Achievements.WithUnlockedBySet | src/pages/student-dashboard/components/AchievementBadges.jsx:78-81 | only the set of listed ids matters, not their order or repetition |
| Achievements.UnlockedCount | src/pages/student-dashboard/components/AchievementBadges.jsx:83 | the number of unlocked badges never exceeds the number of badges |
| Achievements.UnlockedCountBounds | src/pages/student-dashboard/components/AchievementBadges.jsx:78-83 | the count is at most the number of badges; it equals that number iff every id is listed, and 0 iff none is |
| Achievements.Percentage | src/pages/student-dashboard/components/AchievementBadges.jsx:148 | there is no figure for a total of 0; otherwise it is the rounded share |
| Achievements.PercentOfTwelve | src/pages/student-dashboard/components/AchievementBadges.jsx:148 | out of twelve, eight badges show 67%, fewer show at most 58%, and three show 25% |
| Achievements.EightOfTwelve | src/pages/student-dashboard/index.jsx:72-75 | with eight badges out of twelve the figure lies between 0 and 67 and reaches 67 iff all are unlocked |
| Achievements.Header | src/pages/student-dashboard/components/AchievementBadges.jsx:139 | the header splits at '/' into the unlocked count and the total |
| Achievements.Grid | src/pages/student-dashboard/components/AchievementBadges.jsx:160 | the grid shows the first eight badges, or all of them when there are fewer |
| Achievements.GridShowsAll | src/pages/student-dashboard/components/AchievementBadges.jsx:160 | all eight defined badges fit in the grid |
| Achievements.ToneOf | src/pages/student-dashboard/components/AchievementBadges.jsx:85-128 | a locked badge is muted; an unlocked one gets its colour, unknown colours falling back to primary |
| Achievements.EarnedDate | src/pages/student-dashboard/components/AchievementBadges.jsx:195-199 | the "Earned" line appears iff the badge is unlocked and has a date |
| Achievements.UnlockedWithoutDate | src/pages/student-dashboard/components/AchievementBadges.jsx:8-81 | unlocking a badge defined without a date shows it unlocked with no "Earned" line |
| RelativeTime.ActivityAgo | src/pages/student-dashboard/components/RecentActivity.jsx:125-140 | the caption describes the elapsed time: "Just now" under an hour, whole hours under a day, whole days under a week, a date beyond |
| RelativeTime.HistoryAgo | src/pages/ai-chat-assistant/components/ChatHistory.jsx:59-69 | the same bands, computed from the elapsed days directly |
| RelativeTime.DescribesIsHistory | src/pages/ai-chat-assistant/components/ChatHistory.jsx:59-69 | any caption that correctly describes an elapsed time is the one the chat list prints |
| RelativeTime.DescribesUnique | src/pages/ai-chat-assistant/components/ChatHistory.jsx:62-67 | only one caption describes a given elapsed time |
| RelativeTime.ActivityAndHistoryAgree | src/pages/student-dashboard/components/RecentActivity.jsx:128-134 | the feed and the chat list always print the same caption |
| RelativeTime.Caption | src/pages/ai-chat-assistant/components/ChatHistory.jsx:65-68 | there is a text iff the caption is not a locale date; hours and days print as "Nh ago" and "Nd ago" |
| RecentActivity.TypeLabel | src/pages/student-dashboard/components/RecentActivity.jsx:142-152 | each of the six known types has its label, and the fallback "Activity" is used iff the type is unknown |
| RecentActivity.TypeLabelInjective | src/pages/student-dashboard/components/RecentActivity.jsx:142-152 | distinct known types get distinct labels |
| RecentActivity.ActivityTone | src/pages/student-dashboard/components/RecentActivity.jsx:94-123 | an activity is never muted, and it is primary iff its colour is not one of the other four |
| RecentActivity.Connectors | src/pages/student-dashboard/components/RecentActivity.jsx:170-177 | one connector flag per entry, set iff the entry is not the last |
| RecentActivity.ConnectorCount | src/pages/student-dashboard/components/RecentActivity.jsx:170-177 | a feed of `n` entries draws `n - 1` connectors |
| RecentActivity.Chip | src/pages/student-dashboard/components/RecentActivity.jsx:206-212 | a "colleges" list reads "A vs B"; any other chip reads "key: " then the value |
| RecentActivity.ListChipReadsBack | src/pages/student-dashboard/components/RecentActivity.jsx:210 | a list under another key splits at the commas back into its items, when no item holds a comma |
| RecentActivity.CollegesChip | src/pages/student-dashboard/components/RecentActivity.jsx:206-212 | comparing two colleges reads "A vs B"; the same list under another key reads "key: A,B" |
| UpcomingDeadlines.Partition | src/pages/student-dashboard/components/UpcomingDeadlines.jsx:125-126 | urgent holds exactly the deadlines with at most 15 days left and upcoming the rest, each in data order; together they account for every deadline |
| UpcomingDeadlines.PartitionDisjoint | src/pages/student-dashboard/components/UpcomingDeadlines.jsx:125-126 | no deadline lands in both lists |
| UpcomingDeadlines.UrgentAlert | src/pages/student-dashboard/components/UpcomingDeadlines.jsx:143-158 | the alert shows iff some deadline has at most 15 days left, with its count and the first one or two urgent deadlines |
| UpcomingDeadlines.PluralSuffix | src/pages/student-dashboard/components/UpcomingDeadlines.jsx:152 | "deadline" takes an 's' iff more than one is urgent |
| UpcomingDeadlines.AlertCaption | src/pages/student-dashboard/components/UpcomingDeadlines.jsx:152 | the caption splits at spaces into the count, "deadline(s)" and "approaching" |
| UpcomingDeadlines.MainList | src/pages/student-dashboard/components/UpcomingDeadlines.jsx:178 | the main list shows the first five deadlines in data order, urgent or not |
| UpcomingDeadlines.PriorityToneOf | src/pages/student-dashboard/components/UpcomingDeadlines.jsx:65-89 | high and medium have their own styling and anything else gets the low styling |
| UpcomingDeadlines.TypeIcon | src/pages/student-dashboard/components/UpcomingDeadlines.jsx:91-104 | four known types have their own icons and anything else gets the calendar |
| UpcomingDeadlines.StatusToneOf | src/pages/student-dashboard/components/UpcomingDeadlines.jsx:106-115 | each known status has its own colour, and anything else is muted |
| ChatInput.Send | src/pages/ai-chat-assistant/components/ChatInput.jsx:18-24 | a message is sent iff the draft is not blank and the box is enabled; it is the trimmed draft and the box is cleared; otherwise nothing changes |
| ChatInput.Stop | src/pages/ai-chat-assistant/components/ChatInput.jsx:48-56 | stopping ends the recording and resets the timer, keeping the draft |
| ChatInput.Step | src/pages/ai-chat-assistant/components/ChatInput.jsx:26-46 | only the button and a plain Enter send; starting a recording resets the timer; stopping or finishing ends it; the end puts the sample question in the box; a tick counts only while recording |
| ChatInput.RunSends | src/pages/ai-chat-assistant/components/ChatInput.jsx:18-31 | a disabled box never sends, and every message an enabled box sends is non-empty and trimmed |
| ChatInput.ShiftEnterNeverSends | src/pages/ai-chat-assistant/components/ChatInput.jsx:26-31 | Shift+Enter sends nothing and changes nothing |
| ChatInput.TicksCountSeconds | src/pages/ai-chat-assistant/components/ChatInput.jsx:37-39 | while recording, `n` ticks add `n` seconds and send nothing |
| ChatInput.SendButtonSends | src/pages/ai-chat-assistant/components/ChatInput.jsx:123 | an enabled send button sends the trimmed draft; the handler alone would also send while recording |
| ChatInput.FormatRecordingTime | src/pages/ai-chat-assistant/components/ChatInput.jsx:58-62 | the display splits at ':' into the minutes and the seconds padded to two digits |
| ChatInput.FormatRecordingTimeReadsBack | src/pages/ai-chat-assistant/components/ChatInput.jsx:58-62 | the display reads back as the elapsed seconds: minutes times sixty plus two-digit seconds |
| ChatInput.Counter | src/pages/ai-chat-assistant/components/ChatInput.jsx:139 | the counter splits at '/' into the draft length, counted in characters, and 500 |
| ChatInput.LimitNotEnforced | src/pages/ai-chat-assistant/components/ChatInput.jsx:109 | a draft longer than 500 characters is kept whole |
| ChatHistory.ActiveConversations | src/pages/ai-chat-assistant/components/ChatHistory.jsx:52 | the caller's conversations when there are any, otherwise the four samples; never empty |
| ChatHistory.Search | src/pages/ai-chat-assistant/components/ChatHistory.jsx:54-57 | a conversation is listed iff its title or last message, lower-cased on ASCII, contains the query lower-cased the same way; the order is kept |
| ChatHistory.EmptyQueryKeepsAll | src/pages/ai-chat-assistant/components/ChatHistory.jsx:54-57 | an empty search lists every conversation |
| ChatHistory.SearchIgnoresCase | src/pages/ai-chat-assistant/components/ChatHistory.jsx:54-57 | lower-casing the query does not change the result |
| ChatHistory.ContainsPrefix | src/pages/ai-chat-assistant/components/ChatHistory.jsx:55-56 | a text containing a query also contains every prefix of it |
| ChatHistory.TypingNarrows | src/pages/ai-chat-assistant/components/ChatHistory.jsx:54-57 | under ASCII case folding, typing more characters only narrows the list |
| ChatHistory.EmptyStateIff | src/pages/ai-chat-assistant/components/ChatHistory.jsx:133-136 | "No conversations found" shows iff nothing matches |
| ChatHistory.CategoryIcon | src/pages/ai-chat-assistant/components/ChatHistory.jsx:71-79 | four known categories have their icons, and the fallback icon is used iff the category is unknown |
| ChatHistory.CategoryColor | src/pages/ai-chat-assistant/components/ChatHistory.jsx:81-89 | each known category has its own colour, and muted is used iff the category is unknown |
| ChatHistory.IconAndColorAgree | src/pages/ai-chat-assistant/components/ChatHistory.jsx:71-89 | a category has its own icon iff it has its own colour |
| Register.SetField | src/pages/auth/Register.jsx:19-21 | the edited field takes the value; every other field keeps its own |
| Register.FormExt | src/pages/auth/Register.jsx:5-7 | two forms agreeing on every field are equal |
| Register.SetFieldLaws | src/pages/auth/Register.jsx:19-21 | writing a field's own value changes nothing; the last write wins; writes to different fields commute |
| Register.Submit | src/pages/auth/Register.jsx:23-42 | a form is rejected iff the passwords differ or name, email or password is empty; a mismatch is reported first; an accepted form stores every field but the confirmation |
| Register.SubmitStoresTypedUser | src/pages/auth/Register.jsx:33-42 | every user with a name, email and password can register, and exactly the typed record is stored |
| Register.ErrorOrder | src/pages/auth/Register.jsx:25-32 | the untouched form is rejected for missing fields; a mismatch wins over missing fields |
| Register.BlankNameAccepted | src/pages/auth/Register.jsx:29 | a name of spaces passes, since it is not trimmed |
| Register.HandleSubmit | src/pages/auth/Register.jsx:23-45 | a rejected form shows its error and stays; an accepted one clears the error and goes to the login page |

## Left out

- Rendering: JSX markup, CSS classes, icons as pictures, animations, hover state and the theme switch. Colours and icons are modelled only as the tone or name a branch selects.
- `localStorage`: the saved question and answers of the assessment and the stored user of the sign-up page. The stored record is modelled as the value written.
- Timers: `setInterval` and `setTimeout` become events (`Tick`, `VoiceDone`, a tip tick). The simulated loading delays are left out.
- `Date.now()`, `new Date()` and time zones. The clock is a parameter in milliseconds. Dates are whole day numbers. The difference between parsing an ISO date as UTC and today's local midnight is not modelled.
- The two-digit-year rule of `new Date(y, m, d)` for years 0 to 99 is not modelled. Years are taken literally.
- Locale date formatting (`toLocaleDateString`): the caption is modelled as `RelativeTime.OnDate` with no text.
- Floating point. Percentages are exact rationals, or integer rounding of an exact quotient. Double rounding at a .5 boundary may differ in the source.
- Mock data lists (events, careers, colleges, reviews, activities, deadlines) are inputs, not constants. The exceptions are the sample conversations, the default steps and the badge list, which the code uses as fallbacks.
- Reviews.Distribution: a rating outside 1 to 5 makes the source add a `NaN` entry. The model counts only the five bars.
- The sort select of the reviews tab is stored but never applied, so the model ignores it (stated as `Reviews.SortIgnored`). The "write a review" toggle has no logic.
- The status text `replace('-', ' ')` of the deadline card and the facility status badge are display formatting.
- The result screen of the assessment (`AssessmentComplete`) and the question cards are presentation only.
- Restoring a saved question index from storage is not modelled.
- Register.Submit: the browser's `required` attributes on the inputs are not modelled, so the checks are those of the submit handler alone.
- The widths of the progress bars are display only. Their percentages are the ones modelled.
- Recommendations.NextIndex: stated for a non-empty list. The carousel's list is a constant with four entries, so the `% 0` case cannot arise.
- Strings.ToLower: only A to Z are lowered. JavaScript's `toLowerCase` also lowers non-ASCII letters, such as "É" to "é", and lowers a capital sigma by its position in the word. The Unicode case tables are not part of this model.
- ChatHistory.Search: the search folds case on ASCII only, following `Strings.ToLower`. A query "É" finds "École" in the source but not in the model. `ChatHistory.TypingNarrows` holds for this ASCII folding only. With JavaScript's final-sigma rule, the query "ΑΣ" lower-cases to "ας", which hides a title "ΑΣΒ" that the query "ΑΣΒ" shows.
- ChatInput.Counter: a draft is a sequence of Unicode characters, so its length counts code points. JavaScript's `length` counts UTF-16 code units, so an emoji counts 2 in the source and 1 in the model.
- Notifications.Open: reopening is modelled as keeping the local copy. The component stays mounted and its `useState(settings)` initial value is read only once.

## Findings

| source | as written | input that shows it | evidently intended | confidence | as-written member | corrected member |
|---|---|---|---|---|---|---|
| src/pages/timeline-tracker/components/CalendarView.jsx:29-36 | `setMonth(getMonth() + dir)` keeps the day of the month, so a day missing from the target month overflows into the month after | showing 31 January 2025 and pressing next shows 3 March 2025 | move exactly one month, clamping the day to the target month's length | high (not executed) | CalendarView.NavigateMonthAsWritten, CalendarView.NavigateSkipsShortMonth | CalendarView.NavigateMonth, CalendarView.NavigateRoundTrip |
| src/pages/timeline-tracker/components/FilterControls.jsx:213 | "Total Events" sums every value of the counts object, including the completed, overdue and urgent aggregates | one completed event shows a total of 2 | the number of events, i.e. the sum of the six category counters | high (not executed) | FilterControls.TotalAsWritten, FilterControls.TotalAsWrittenOvercounts | FilterControls.TotalEvents, FilterControls.TotalEventsIsLength |
| src/pages/college-details/components/FacilitiesTab.jsx:227 | the modal shows `filteredFacilities[0].images[index]`, the first listed facility, whatever button was clicked | an imageless library listed before a lab with two pictures: the lab's button opens an empty modal while the arrows wrap at the lab's count | show the images of the facility whose gallery button was clicked | high (not executed) | Facilities.ModalImageAsWritten, Facilities.GalleryShowsFirstFacility | Facilities.OpenGallery, Facilities.MoveGallery, Facilities.GalleryStaysOnFacility |
