/** The add-event dialog (src/pages/timeline-tracker/components/AddEventModal.jsx):
    the form record, per-field editing with error clearing, validation,
    construction of the new event and resetting on close. */
module AddEvent {
  import opened Wrappers
  import opened Seqs
  import opened Strings
  import opened Events

  /** The form. An unselected category or an empty date input is `None`. */
  datatype Form = Form(
    title: string,
    institution: string,
    category: Option<Category>,
    deadline: Option<int>,
    priority: Priority,
    description: string,
    requirements: string,
    applicationUrl: string)

  /** The initial and reset value of the form: everything empty, priority medium. */
  const DefaultForm: Form := Form("", "", None, None, Medium, "", "", "")

  datatype Field = TitleField | InstitutionField | CategoryField | DeadlineField
                 | PriorityField | DescriptionField | RequirementsField | UrlField

  /** The value an input hands to `handleInputChange`. */
  datatype FieldValue = Text(s: string) | CategoryValue(c: Option<Category>)
                      | DateValue(d: Option<int>) | PriorityValue(p: Priority)

  function Get(f: Form, field: Field): FieldValue
  {
    match field
    case TitleField => Text(f.title)
    case InstitutionField => Text(f.institution)
    case CategoryField => CategoryValue(f.category)
    case DeadlineField => DateValue(f.deadline)
    case PriorityField => PriorityValue(f.priority)
    case DescriptionField => Text(f.description)
    case RequirementsField => Text(f.requirements)
    case UrlField => Text(f.applicationUrl)
  }

  /** The value has the kind of input the field is. */
  predicate Fits(field: Field, v: FieldValue)
  {
    match field
    case CategoryField => v.CategoryValue?
    case DeadlineField => v.DateValue?
    case PriorityField => v.PriorityValue?
    case _ => v.Text?
  }

  /** `{ ...prev, [field]: value }`: only `field` changes. */
  function Set(f: Form, field: Field, v: FieldValue): (r: Form)
    requires Fits(field, v)
    ensures Get(r, field) == v
    ensures forall g :: g != field ==> Get(r, g) == Get(f, g)
  {
    match field
    case TitleField => f.(title := v.s)
    case InstitutionField => f.(institution := v.s)
    case CategoryField => f.(category := v.c)
    case DeadlineField => f.(deadline := v.d)
    case PriorityField => f.(priority := v.p)
    case DescriptionField => f.(description := v.s)
    case RequirementsField => f.(requirements := v.s)
    case UrlField => f.(applicationUrl := v.s)
  }

  /** The error messages, one per field that can fail. */
  const TITLE_REQUIRED: string := "Event title is required"
  const INSTITUTION_REQUIRED: string := "Institution name is required"
  const CATEGORY_REQUIRED: string := "Please select a category"
  const DEADLINE_REQUIRED: string := "Deadline date is required"
  const DEADLINE_PAST: string := "Deadline cannot be in the past"

  /** `validateForm`: every failing field at once. `today` is today's day
      number; a deadline on today is accepted. */
  function Validate(f: Form, today: int): (errs: map<Field, string>)
    ensures TitleField in errs <==> IsBlank(f.title)
    ensures InstitutionField in errs <==> IsBlank(f.institution)
    ensures CategoryField in errs <==> f.category.None?
    ensures DeadlineField in errs <==> f.deadline.None? || f.deadline.value < today
    ensures errs.Keys <= {TitleField, InstitutionField, CategoryField, DeadlineField}
    ensures TitleField in errs ==> errs[TitleField] == TITLE_REQUIRED
    ensures InstitutionField in errs ==> errs[InstitutionField] == INSTITUTION_REQUIRED
    ensures CategoryField in errs ==> errs[CategoryField] == CATEGORY_REQUIRED
    ensures DeadlineField in errs ==> errs[DeadlineField] == if f.deadline.None? then DEADLINE_REQUIRED else DEADLINE_PAST
  {
    var e1: map<Field, string> := if IsBlank(f.title) then map[TitleField := TITLE_REQUIRED] else map[];
    var e2 := if IsBlank(f.institution) then e1[InstitutionField := INSTITUTION_REQUIRED] else e1;
    var e3 := if f.category.None? then e2[CategoryField := CATEGORY_REQUIRED] else e2;
    if f.deadline.None? then e3[DeadlineField := DEADLINE_REQUIRED]
    else if f.deadline.value < today then e3[DeadlineField := DEADLINE_PAST]
    else e3
  }

  /** A form the dialog accepts. */
  predicate Acceptable(f: Form, today: int)
  {
    !IsBlank(f.title) && !IsBlank(f.institution) && f.category.Some?
    && f.deadline.Some? && f.deadline.value >= today
  }

  /** `validateForm()` returns true exactly for acceptable forms. */
  lemma ValidateIffAcceptable(f: Form, today: int)
    ensures Validate(f, today) == map[] <==> Acceptable(f, today)
  {
    var errs := Validate(f, today);
    if !Acceptable(f, today) {
      if IsBlank(f.title) { assert TitleField in errs; }
      else if IsBlank(f.institution) { assert InstitutionField in errs; }
      else if f.category.None? { assert CategoryField in errs; }
      else { assert DeadlineField in errs; }
    }
  }

  /** The untouched form fails on all four required fields. */
  lemma DefaultFormErrors(today: int)
    ensures Validate(DefaultForm, today).Keys == {TitleField, InstitutionField, CategoryField, DeadlineField}
    ensures Validate(DefaultForm, today)[DeadlineField] == DEADLINE_REQUIRED
  {
    var f := DefaultForm;
    assert f.title == "" && f.institution == "" && f.category.None? && f.deadline.None?;
    assert IsBlank("");
    AllMissing(f, today);
  }

  /** A form missing all four required values fails on exactly those four,
      the deadline as missing rather than past. */
  lemma AllMissing(f: Form, today: int)
    requires IsBlank(f.title) && IsBlank(f.institution) && f.category.None? && f.deadline.None?
    ensures Validate(f, today).Keys == {TitleField, InstitutionField, CategoryField, DeadlineField}
    ensures Validate(f, today)[DeadlineField] == DEADLINE_REQUIRED
  {
    var errs := Validate(f, today);
    assert TitleField in errs && InstitutionField in errs;
    assert CategoryField in errs && DeadlineField in errs;
  }

  /** Every line of `lines`, trimmed. */
  function TrimAll(lines: seq<string>): (r: seq<string>)
    ensures |r| == |lines|
    ensures forall i :: 0 <= i < |r| ==> r[i] == Trim(lines[i])
  {
    seq(|lines|, i requires 0 <= i < |lines| => Trim(lines[i]))
  }

  function NonEmpty(): string -> bool
  {
    (s: string) => s != ""
  }

  function NotBlankLine(): string -> bool
  {
    (s: string) => !IsBlank(s)
  }

  /** Trimming every line and then keeping the non-empty ones keeps as many
      lines as there are non-blank ones. */
  lemma {:induction false} CountTrimmed(lines: seq<string>)
    ensures Count(TrimAll(lines), NonEmpty()) == Count(lines, NotBlankLine())
    decreases |lines|
  {
    if |lines| > 0 {
      var t := TrimAll(lines);
      assert t[1..] == TrimAll(lines[1..]);
      assert NonEmpty()(t[0]) == NotBlankLine()(lines[0]);
      CountTrimmed(lines[1..]);
    }
  }

  /** The requirements textarea as a list: the lines of a non-blank text in
      their order, each trimmed, with the blank ones dropped; nothing at all
      for blank input. */
  function SplitRequirements(text: string): (r: seq<string>)
    ensures IsBlank(text) ==> r == []
    ensures forall i :: 0 <= i < |r| ==> r[i] != "" && Trim(r[i]) == r[i] && '\n' !in r[i]
    ensures !IsBlank(text) ==> IsSubseq(r, TrimAll(Split(text, '\n')))
    ensures !IsBlank(text) ==> |r| == Count(Split(text, '\n'), NotBlankLine())
  {
    if IsBlank(text) then []
    else
      var r := Filter(TrimAll(Split(text, '\n')), NonEmpty());
      FilterIsSubseq(TrimAll(Split(text, '\n')), NonEmpty());
      CountTrimmed(Split(text, '\n'));
      forall i | 0 <= i < |r|
        ensures r[i] != "" && Trim(r[i]) == r[i] && '\n' !in r[i]
      {
        var lines := Split(text, '\n');
        var k :| 0 <= k < |lines| && TrimAll(lines)[k] == r[i];
        TrimIdempotent(lines[k]);
        TrimSpec(lines[k]);
      }
      r
  }

  /** A non-blank line of a non-blank input is kept, trimmed. */
  lemma SplitRequirementsKeeps(text: string, i: int)
    requires !IsBlank(text)
    requires 0 <= i < |Split(text, '\n')| && !IsBlank(Split(text, '\n')[i])
    ensures Trim(Split(text, '\n')[i]) in SplitRequirements(text)
  {
    var t := TrimAll(Split(text, '\n'));
    assert NonEmpty()(t[i]);
  }

  /** Lines that are already trimmed and non-empty survive a round trip
      through the textarea unchanged. */
  lemma RequirementsRoundTrip(lines: seq<string>)
    requires forall i :: 0 <= i < |lines| ==> lines[i] != "" && Trim(lines[i]) == lines[i] && '\n' !in lines[i]
    ensures SplitRequirements(Join(lines, "\n")) == lines
  {
    if |lines| > 0 {
      var text := Join(lines, "\n");
      JoinedNotBlank(lines);
      JoinSplit(lines, '\n');
      assert Split(text, '\n') == lines;
      assert TrimAll(lines) == lines;
      FilterAll(lines, NonEmpty());
    }
  }

  /** Lines whose first one starts with a visible character join into a
      text that is not blank. */
  lemma JoinedNotBlank(lines: seq<string>)
    requires |lines| > 0 && lines[0] != "" && Trim(lines[0]) == lines[0]
    ensures !IsBlank(Join(lines, "\n"))
  {
    var text := Join(lines, "\n");
    TrimSpec(lines[0]);
    assert !IsWhitespace(lines[0][0]);
    assert text[0] == lines[0][0];
    TrimSpec(text);
  }

  /** The event `handleSubmit` builds from an acceptable form; `id` stands
      for the caller-supplied identifier. */
  function NewEvent(f: Form, id: int): (e: Event)
    requires f.category.Some? && f.deadline.Some?
    ensures e.id == id && e.category == f.category.value && e.deadline == f.deadline.value
    ensures e.title == Trim(f.title) && e.institution == Trim(f.institution)
    ensures e.description == Trim(f.description) && e.applicationUrl == Trim(f.applicationUrl)
    ensures e.priority == f.priority && e.requirements == SplitRequirements(f.requirements)
    ensures !e.completed && e.progress == 0 && e.checklist == []
  {
    Event(id, Trim(f.title), Trim(f.institution), f.category.value, f.deadline.value,
          f.priority, Trim(f.description), SplitRequirements(f.requirements),
          Trim(f.applicationUrl), false, 0, [])
  }

  /** The dialog: the form and the field errors on display. */
  datatype Modal = Modal(form: Form, errors: map<Field, string>)

  const ClosedModal: Modal := Modal(DefaultForm, map[])

  /** A field shows an error when its entry is a non-empty message. */
  predicate ShowsError(errors: map<Field, string>, field: Field)
  {
    field in errors && errors[field] != ""
  }

  /** `handleInputChange`: set the field, and blank out its error if it had one. */
  function InputChange(m: Modal, field: Field, v: FieldValue): (r: Modal)
    requires Fits(field, v)
    ensures Get(r.form, field) == v
    ensures forall g :: g != field ==> Get(r.form, g) == Get(m.form, g)
    ensures !ShowsError(r.errors, field)
    ensures r.errors.Keys == m.errors.Keys
    ensures forall g :: g != field && g in m.errors ==> r.errors[g] == m.errors[g]
  {
    Modal(Set(m.form, field, v),
          if ShowsError(m.errors, field) then m.errors[field := ""] else m.errors)
  }

  /** `handleClose`: back to the default form with no errors. */
  function Close(m: Modal): (r: Modal)
    ensures r.form == DefaultForm && r.errors == map[]
    ensures r.form.priority == Medium
  {
    ClosedModal
  }

  /** `handleSubmit`: an unacceptable form keeps its values and shows its
      errors; an acceptable one yields the new event and closes the dialog. */
  function Submit(m: Modal, today: int, id: int): (r: (Modal, Option<Event>))
    ensures r.1.Some? <==> Acceptable(m.form, today)
    ensures r.1.None? ==> r.0 == Modal(m.form, Validate(m.form, today)) && r.0.errors != map[]
    ensures r.1.Some? ==> r.0 == ClosedModal && r.1.value.deadline >= today
                          && r.1.value.category == m.form.category.value
                          && r.1.value.title == Trim(m.form.title) && r.1.value.title != ""
                          && !r.1.value.completed && r.1.value.progress == 0
    ensures r.1.Some? ==> r.1.value == NewEvent(m.form, id)
  {
    var errs := Validate(m.form, today);
    ValidateIffAcceptable(m.form, today);
    if errs == map[] then
      (ClosedModal, Some(NewEvent(m.form, id)))
    else
      (Modal(m.form, errs), None)
  }
}
