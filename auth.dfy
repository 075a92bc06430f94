/**
 * The simulated sign-in of src/components/AuthComponent.js: a form with a login
 * tab and a register tab whose submit handlers validate the fields, set an error
 * message, and hand a session identity to the store's `login`.
 */
module AuthComponent {
  import opened Wrappers
  import App

  /** The form's four inputs. */
  datatype FormData = FormData(name: string, email: string, password: string, confirmPassword: string)

  /** The `name` attribute of each input. */
  datatype FormField = Name | Email | Password | ConfirmPassword

  const FillAllFields: string := "Por favor, completa todos los campos"
  const PasswordsDiffer: string := "Las contraseñas no coinciden"

  /** The tab shown first: 0 is login, 1 is register. */
  const LoginTab: int := 0

  function FormGet(f: FormData, field: FormField): string {
    match field
    case Name => f.name
    case Email => f.email
    case Password => f.password
    case ConfirmPassword => f.confirmPassword
  }

  /** `{ ...formData, [name]: value }`: the named input takes the value, the others keep theirs. */
  function WithFormField(f: FormData, field: FormField, v: string): (r: FormData)
    ensures FormGet(r, field) == v
    ensures forall g :: g != field ==> FormGet(r, g) == FormGet(f, g)
  {
    match field
    case Name => f.(name := v)
    case Email => f.(email := v)
    case Password => f.(password := v)
    case ConfirmPassword => f.(confirmPassword := v)
  }

  /** `email.split("@")[0]`: the text before the first "@", or all of it when
      there is none. */
  function LocalPart(email: string): (r: string)
    ensures |r| <= |email| && r == email[..|r|]
    ensures '@' !in r
    ensures |r| < |email| ==> email[|r|] == '@'
  {
    if email == [] || email[0] == '@' then [] else [email[0]] + LocalPart(email[1..])
  }

  /** The local part is the whole address exactly when there is no "@". */
  lemma LocalPartIsWholeIff(email: string)
    ensures LocalPart(email) == email <==> '@' !in email
  {
  }

  /** What a login submit does with the form: the identity passed to `login`, or
      the error message shown. Both email and password must be non-empty; the
      name is the local part of the email. */
  function LoginOutcome(f: FormData): (r: Result<App.User, string>)
    ensures r.Success? <==> f.email != "" && f.password != ""
    ensures r.Success? ==> r.value.email == f.email && r.value.name == LocalPart(f.email)
    ensures r.Failure? ==> r.error == FillAllFields
  {
    if f.email != "" && f.password != "" then
      Success(App.User(LocalPart(f.email), f.email))
    else
      Failure(FillAllFields)
  }

  /** What a register submit does with the form: a missing field is reported
      first, then a password mismatch; otherwise the form's name and email are
      passed to `login`. */
  function RegisterOutcome(f: FormData): (r: Result<App.User, string>)
    ensures (f.name == "" || f.email == "" || f.password == "" || f.confirmPassword == "") ==>
      r == Failure(FillAllFields)
    ensures (f.name != "" && f.email != "" && f.password != "" && f.confirmPassword != "" &&
             f.password != f.confirmPassword) ==> r == Failure(PasswordsDiffer)
    ensures r.Success? <==>
      f.name != "" && f.email != "" && f.password != "" && f.password == f.confirmPassword
    ensures r.Success? ==> r.value == App.User(f.name, f.email)
  {
    if f.name == "" || f.email == "" || f.password == "" || f.confirmPassword == "" then
      Failure(FillAllFields)
    else if f.password != f.confirmPassword then
      Failure(PasswordsDiffer)
    else
      Success(App.User(f.name, f.email))
  }

  /** Whichever tab accepted it, an identity handed to `login` carries the
      form's non-empty email, and its name is a prefix of that email (login) or
      the form's name (register). */
  lemma AcceptedIdentity(f: FormData)
    ensures LoginOutcome(f).Success? ==>
      LoginOutcome(f).value.email == f.email != "" && |LoginOutcome(f).value.name| <= |f.email|
    ensures RegisterOutcome(f).Success? ==>
      RegisterOutcome(f).value.email == f.email != "" && RegisterOutcome(f).value.name == f.name != ""
    ensures RegisterOutcome(f).Success? ==> LoginOutcome(f).Success?
  {
  }

  /** The AuthComponent's own state. */
  class AuthForm {
    var activeTab: int
    var formData: FormData
    var error: string

    constructor ()
      ensures activeTab == LoginTab
      ensures formData == FormData("", "", "", "")
      ensures error == ""
    {
      activeTab := LoginTab;
      formData := FormData("", "", "", "");
      error := "";
    }

    /** `handleChange`: one input takes the typed value. */
    method HandleChange(field: FormField, value: string)
      modifies this
      ensures formData == WithFormField(old(formData), field, value)
      ensures activeTab == old(activeTab) && error == old(error)
    {
      formData := WithFormField(formData, field, value);
    }

    /** `handleTabChange`: switch tab and clear the error. */
    method HandleTabChange(newValue: int)
      modifies this
      ensures activeTab == newValue && error == ""
      ensures formData == old(formData)
    {
      activeTab := newValue;
      error := "";
    }

    /** `handleLogin`: clears the error, then either returns the identity to pass
        to `login` or sets the fill-all-fields message. */
    method HandleLogin() returns (login: Option<App.User>)
      modifies this
      ensures login == LoginOutcome(old(formData)).ToOption()
      ensures error == if login.Some? then "" else FillAllFields
      ensures formData == old(formData) && activeTab == old(activeTab)
    {
      error := "";
      if formData.email != "" && formData.password != "" {
        login := Some(App.User(LocalPart(formData.email), formData.email));
      } else {
        error := FillAllFields;
        login := None;
      }
    }

    /** `handleRegister`: clears the error, then either returns the identity to
        pass to `login` or sets the first validation message that applies. */
    method HandleRegister() returns (login: Option<App.User>)
      modifies this
      ensures login == RegisterOutcome(old(formData)).ToOption()
      ensures error == match RegisterOutcome(old(formData)) case Success(_) => "" case Failure(e) => e
      ensures formData == old(formData) && activeTab == old(activeTab)
    {
      error := "";
      if formData.name == "" || formData.email == "" || formData.password == "" || formData.confirmPassword == "" {
        error := FillAllFields;
        return None;
      }
      if formData.password != formData.confirmPassword {
        error := PasswordsDiffer;
        return None;
      }
      login := Some(App.User(formData.name, formData.email));
    }
  }

  /** The `login` prop wired to the store (src/App.js passes its own `login`):
      a successful login submit signs the user in, a failed one leaves the store
      as it was. */
  method SubmitLogin(form: AuthForm, store: App.Store)
    requires store.Mirrored()
    modifies form, store
    ensures store.Mirrored()
    ensures LoginOutcome(old(form.formData)).Success? ==>
      var u := LoginOutcome(old(form.formData)).value;
      store.Snapshot() == old(store.Snapshot()).(user := Some(u), storage := old(store.storage)[App.UserKey := App.UserRecord(u)])
    ensures LoginOutcome(old(form.formData)).Failure? ==> store.Snapshot() == old(store.Snapshot())
    ensures form.error == if LoginOutcome(old(form.formData)).Success? then "" else FillAllFields
    ensures form.formData == old(form.formData) && form.activeTab == old(form.activeTab)
  {
    var login := form.HandleLogin();
    if login.Some? {
      store.Login(login.value);
    }
  }
}
