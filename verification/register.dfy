/** The sign-up page (src/pages/auth/Register.jsx): the nine-field form,
    the per-field change handler and the submit checks, which either show
    an error or store the user and go to the login page. Browser-side
    `required` checks and the theme are not part of this model. */
module Register {
  import opened Wrappers

  /** The form's input ids. */
  datatype Field = Name | Age | Grade | Institute | Address | Marks | Email | Password | Confirm

  datatype Form = Form(
    name: string, age: string, grade: string, institute: string, address: string,
    marks: string, email: string, password: string, confirm: string)

  const EMPTY_FORM: Form := Form("", "", "", "", "", "", "", "", "")

  /** The value of one field. */
  function Get(f: Form, k: Field): string
  {
    match k
    case Name => f.name
    case Age => f.age
    case Grade => f.grade
    case Institute => f.institute
    case Address => f.address
    case Marks => f.marks
    case Email => f.email
    case Password => f.password
    case Confirm => f.confirm
  }

  /** `handleChange`: the edited field takes the new value, the others keep theirs. */
  function SetField(f: Form, k: Field, v: string): (r: Form)
    ensures Get(r, k) == v
    ensures forall k' :: k' != k ==> Get(r, k') == Get(f, k')
  {
    match k
    case Name => f.(name := v)
    case Age => f.(age := v)
    case Grade => f.(grade := v)
    case Institute => f.(institute := v)
    case Address => f.(address := v)
    case Marks => f.(marks := v)
    case Email => f.(email := v)
    case Password => f.(password := v)
    case Confirm => f.(confirm := v)
  }

  /** Two forms with the same value in every field are the same form. */
  lemma FormExt(f: Form, g: Form)
    requires forall k :: Get(f, k) == Get(g, k)
    ensures f == g
  {
    assert Get(f, Name) == Get(g, Name) && Get(f, Age) == Get(g, Age) && Get(f, Grade) == Get(g, Grade);
    assert Get(f, Institute) == Get(g, Institute) && Get(f, Address) == Get(g, Address) && Get(f, Marks) == Get(g, Marks);
    assert Get(f, Email) == Get(g, Email) && Get(f, Password) == Get(g, Password) && Get(f, Confirm) == Get(g, Confirm);
  }

  /** Writing back a field's own value changes nothing; the last write to a
      field wins; writes to different fields commute. */
  lemma SetFieldLaws(f: Form, k: Field, k': Field, v: string, w: string)
    ensures SetField(f, k, Get(f, k)) == f
    ensures SetField(SetField(f, k, v), k, w) == SetField(f, k, w)
    ensures k != k' ==> SetField(SetField(f, k, v), k', w) == SetField(SetField(f, k', w), k, v)
  {
    FormExt(SetField(f, k, Get(f, k)), f);
    FormExt(SetField(SetField(f, k, v), k, w), SetField(f, k, w));
    if k != k' {
      FormExt(SetField(SetField(f, k, v), k', w), SetField(SetField(f, k', w), k, v));
    }
  }

  /** The record written under the 'user' key: every field but the confirmation. */
  datatype StoredUser = StoredUser(
    name: string, age: string, grade: string, institute: string, address: string,
    marks: string, email: string, password: string)

  const MISMATCH_ERROR: string := "Passwords do not match"
  const MISSING_ERROR: string := "Please fill all required fields"

  datatype SubmitResult = Rejected(error: string) | Registered(user: StoredUser)

  /** `handleSubmit`'s decision. The password comparison comes first; then
      the name, email and password must be non-empty (whitespace counts as
      filled in). */
  function Submit(f: Form): (r: SubmitResult)
    ensures r.Rejected? <==> f.password != f.confirm || f.name == "" || f.email == "" || f.password == ""
    ensures f.password != f.confirm ==> r == Rejected(MISMATCH_ERROR)
    ensures f.password == f.confirm && r.Rejected? ==> r == Rejected(MISSING_ERROR)
    ensures r.Registered? ==>
              r.user.name == f.name && r.user.age == f.age && r.user.grade == f.grade
              && r.user.institute == f.institute && r.user.address == f.address && r.user.marks == f.marks
              && r.user.email == f.email && r.user.password == f.password && r.user.password == f.confirm
  {
    if f.password != f.confirm then Rejected(MISMATCH_ERROR)
    else if f.name == "" || f.email == "" || f.password == "" then Rejected(MISSING_ERROR)
    else Registered(StoredUser(f.name, f.age, f.grade, f.institute, f.address, f.marks, f.email, f.password))
  }

  /** The form a user fills in to register as `u`, typing the password twice. */
  function FormFor(u: StoredUser): Form
  {
    Form(u.name, u.age, u.grade, u.institute, u.address, u.marks, u.email, u.password, u.password)
  }

  /** Every user with a name, email and password can be registered, and the
      stored record is exactly what was typed. */
  lemma SubmitStoresTypedUser(u: StoredUser)
    requires u.name != "" && u.email != "" && u.password != ""
    ensures Submit(FormFor(u)) == Registered(u)
  {
  }

  /** An untouched form is rejected for missing fields, not for a mismatch,
      because its two empty passwords agree; a mismatch is reported even
      when required fields are also missing. */
  lemma ErrorOrder(f: Form)
    requires f.password != f.confirm
    ensures Submit(EMPTY_FORM) == Rejected(MISSING_ERROR)
    ensures Submit(f.(name := "", email := "")) == Rejected(MISMATCH_ERROR)
  {
  }

  /** A name of spaces passes the check, since it is not trimmed. */
  lemma BlankNameAccepted(email: string, password: string)
    requires email != "" && password != ""
    ensures Submit(Form(" ", "", "", "", "", "", email, password, password)).Registered?
  {
  }

  /** The page: the form, the error line, and the route navigated to, if any. */
  datatype Page = Page(form: Form, error: string, route: Option<string>)

  const LOGIN_ROUTE: string := "/auth/login"

  /** A rejected submit shows its error and stays; an accepted one clears
      the error and goes to the login page. */
  function HandleSubmit(p: Page): (r: Page)
    ensures r.form == p.form
    ensures Submit(p.form).Registered? ==> r.error == "" && r.route == Some(LOGIN_ROUTE)
    ensures Submit(p.form).Rejected? ==> r.error == Submit(p.form).error && r.route == p.route
  {
    match Submit(p.form)
    case Rejected(e) => p.(error := e)
    case Registered(_) => p.(error := "", route := Some(LOGIN_ROUTE))
  }
}
