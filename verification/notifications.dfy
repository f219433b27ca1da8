/** Notification preferences: the record the timeline page starts with
    (src/pages/timeline-tracker/index.jsx) and the settings dialog that edits
    a local copy of it
    (src/pages/timeline-tracker/components/NotificationSettings.jsx). */
module Notifications {
  import opened Events

  datatype Method = Push | Email | Sms

  datatype QuietHours = QuietHours(enabled: bool, start: string, end: string)

  /** The settings object. Reminder times are the option values of the
      reminder selector, kept as strings as the page keeps them. */
  datatype Settings = Settings(
    types: map<Category, bool>,
    methods: map<Method, bool>,
    reminderTimes: map<Category, string>,
    quietHours: QuietHours)

  /** The values the reminder selector offers, in order. */
  const ReminderOptions: seq<string> := ["1", "3", "7", "14", "30"]

  /** The state the timeline page starts with. */
  const InitialSettings: Settings := Settings(
    map[Admission := true, Scholarship := true, Exam := true, Document := false, Interview := true, Result := true],
    map[Push := true, Email := false, Sms := false],
    map[Admission := "7", Scholarship := "14", Exam := "3", Document := "1", Interview := "1", Result := "1"],
    QuietHours(false, "22:00", "08:00"))

  /** The record "Reset to Default" installs, written out separately in the dialog. */
  const DefaultSettings: Settings := Settings(
    map[Admission := true, Scholarship := true, Exam := true, Document := false, Interview := true, Result := true],
    map[Push := true, Email := false, Sms := false],
    map[Admission := "7", Scholarship := "14", Exam := "3", Document := "1", Interview := "1", Result := "1"],
    QuietHours(false, "22:00", "08:00"))

  /** `types[id]` read as a checkbox: a missing entry is unchecked. */
  function TypeOn(s: Settings, c: Category): bool
  {
    c in s.types && s.types[c]
  }

  function MethodOn(s: Settings, m: Method): bool
  {
    m in s.methods && s.methods[m]
  }

  /** The starting record enables every category except documents, only
      push delivery, and no quiet hours. */
  lemma InitialSettingsShape()
    ensures forall c :: TypeOn(InitialSettings, c) <==> c != Document
    ensures forall m :: MethodOn(InitialSettings, m) <==> m == Push
    ensures InitialSettings.reminderTimes.Keys == InitialSettings.types.Keys
    ensures forall c :: c in InitialSettings.reminderTimes ==> InitialSettings.reminderTimes[c] in ReminderOptions
    ensures !InitialSettings.quietHours.enabled
  {
    forall c: Category
      ensures c in InitialSettings.types && c in InitialSettings.reminderTimes
    {
      match c
      case Admission =>
      case Scholarship =>
      case Exam =>
      case Document =>
      case Interview =>
      case Result =>
    }
    assert InitialSettings.reminderTimes.Keys == InitialSettings.types.Keys;
    forall c | c in InitialSettings.reminderTimes
      ensures InitialSettings.reminderTimes[c] in ReminderOptions
    {
      assert ReminderOptions[0] == "1" && ReminderOptions[1] == "3" && ReminderOptions[2] == "7"
             && ReminderOptions[3] == "14";
    }
  }

  /** `handleReset` restores exactly the page's starting record. */
  lemma ResetMatchesInitial()
    ensures DefaultSettings == InitialSettings
  {
  }

  /** `handleTypeToggle`: flip one category, nothing else. */
  function ToggleType(s: Settings, c: Category): (r: Settings)
    ensures TypeOn(r, c) == !TypeOn(s, c)
    ensures forall d :: d != c ==> TypeOn(r, d) == TypeOn(s, d)
    ensures r.types.Keys == s.types.Keys + {c}
    ensures r.methods == s.methods && r.reminderTimes == s.reminderTimes && r.quietHours == s.quietHours
  {
    s.(types := s.types[c := !TypeOn(s, c)])
  }

  /** `handleMethodToggle`: flip one delivery method, nothing else. */
  function ToggleMethod(s: Settings, m: Method): (r: Settings)
    ensures MethodOn(r, m) == !MethodOn(s, m)
    ensures forall n :: n != m ==> MethodOn(r, n) == MethodOn(s, n)
    ensures r.types == s.types && r.reminderTimes == s.reminderTimes && r.quietHours == s.quietHours
  {
    s.(methods := s.methods[m := !MethodOn(s, m)])
  }

  /** Flipping twice leaves every checkbox as it was. */
  lemma ToggleTwice(s: Settings, c: Category, m: Method)
    ensures forall d :: TypeOn(ToggleType(ToggleType(s, c), c), d) == TypeOn(s, d)
    ensures forall n :: MethodOn(ToggleMethod(ToggleMethod(s, m), m), n) == MethodOn(s, n)
  {
  }

  /** `handleReminderTimeChange`: set one category's reminder. */
  function SetReminder(s: Settings, c: Category, time: string): (r: Settings)
    ensures c in r.reminderTimes && r.reminderTimes[c] == time
    ensures forall d :: d != c ==> (d in r.reminderTimes <==> d in s.reminderTimes)
    ensures forall d :: d != c && d in s.reminderTimes ==> r.reminderTimes[d] == s.reminderTimes[d]
    ensures r.types == s.types && r.methods == s.methods && r.quietHours == s.quietHours
  {
    s.(reminderTimes := s.reminderTimes[c := time])
  }

  /** The reminder selector is drawn only for enabled categories. */
  predicate ReminderShown(s: Settings, c: Category)
  {
    TypeOn(s, c)
  }

  /** Choosing an offered reminder keeps every stored reminder among the offers. */
  lemma SetReminderKeepsOffered(s: Settings, c: Category, i: int)
    requires forall d :: d in s.reminderTimes ==> s.reminderTimes[d] in ReminderOptions
    requires 0 <= i < |ReminderOptions|
    ensures forall d :: d in SetReminder(s, c, ReminderOptions[i]).reminderTimes
                        ==> SetReminder(s, c, ReminderOptions[i]).reminderTimes[d] in ReminderOptions
  {
  }

  /** The "Do Not Disturb" checkbox: flip `enabled`, keep the window. */
  function ToggleQuietHours(s: Settings): (r: Settings)
    ensures r.quietHours.enabled == !s.quietHours.enabled
    ensures r.quietHours.start == s.quietHours.start && r.quietHours.end == s.quietHours.end
    ensures r.types == s.types && r.methods == s.methods && r.reminderTimes == s.reminderTimes
  {
    s.(quietHours := s.quietHours.(enabled := !s.quietHours.enabled))
  }

  function SetQuietStart(s: Settings, t: string): (r: Settings)
    ensures r.quietHours == QuietHours(s.quietHours.enabled, t, s.quietHours.end)
    ensures r.types == s.types && r.methods == s.methods && r.reminderTimes == s.reminderTimes
  {
    s.(quietHours := s.quietHours.(start := t))
  }

  function SetQuietEnd(s: Settings, t: string): (r: Settings)
    ensures r.quietHours == QuietHours(s.quietHours.enabled, s.quietHours.start, t)
    ensures r.types == s.types && r.methods == s.methods && r.reminderTimes == s.reminderTimes
  {
    s.(quietHours := s.quietHours.(end := t))
  }

  /** One edit the dialog offers. */
  datatype Edit =
    | FlipType(c: Category)
    | FlipMethod(m: Method)
    | ChooseReminder(rc: Category, time: string)
    | FlipQuietHours
    | QuietStart(start: string)
    | QuietEnd(end: string)
    | ResetToDefault

  function ApplyEdit(s: Settings, e: Edit): Settings
  {
    match e
    case FlipType(c) => ToggleType(s, c)
    case FlipMethod(m) => ToggleMethod(s, m)
    case ChooseReminder(c, t) => SetReminder(s, c, t)
    case FlipQuietHours => ToggleQuietHours(s)
    case QuietStart(t) => SetQuietStart(s, t)
    case QuietEnd(t) => SetQuietEnd(s, t)
    case ResetToDefault => DefaultSettings
  }

  /** The page's settings and the dialog's local copy. The copy is taken
      when the dialog component is created and is not refreshed when the
      dialog is opened again. */
  datatype Page = Page(settings: Settings, local: Settings, open: bool)

  function StartPage(): (p: Page)
    ensures p.settings == p.local == InitialSettings && !p.open
  {
    Page(InitialSettings, InitialSettings, false)
  }

  /** Edits in the open dialog touch only the local copy. */
  function EditLocal(p: Page, e: Edit): (r: Page)
    ensures r.settings == p.settings && r.open == p.open
  {
    p.(local := ApplyEdit(p.local, e))
  }

  /** A run of edits never reaches the page's settings. */
  lemma {:induction false} EditsStayLocal(p: Page, edits: seq<Edit>)
    ensures EditAll(p, edits).settings == p.settings
    decreases |edits|
  {
    if |edits| > 0 {
      EditsStayLocal(EditLocal(p, edits[0]), edits[1..]);
    }
  }

  function EditAll(p: Page, edits: seq<Edit>): Page
    decreases |edits|
  {
    if |edits| == 0 then p else EditAll(EditLocal(p, edits[0]), edits[1..])
  }

  /** `handleSave`: hand the whole local copy to the page and close. */
  function Save(p: Page): (r: Page)
    ensures r.settings == p.local && r.local == p.local && !r.open
  {
    Page(p.local, p.local, false)
  }

  /** "Cancel": close the dialog; the local copy keeps its edits. */
  function Cancel(p: Page): (r: Page)
    ensures r.settings == p.settings && r.local == p.local && !r.open
  {
    p.(open := false)
  }

  function Open(p: Page): (r: Page)
    ensures r.settings == p.settings && r.local == p.local && r.open
  {
    p.(open := true)
  }

  /** Edits made before "Cancel" are still in the dialog when it is opened
      again, and a later "Save" commits them. */
  lemma CancelledEditsSurvive(p: Page, e: Edit)
    ensures Save(Open(Cancel(EditLocal(p, e)))).settings == ApplyEdit(p.local, e)
  {
  }
}
