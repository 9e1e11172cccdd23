/** The local accounts of components/Auth.tsx: signing up, signing in and recovering a
    password against the stored user map. The checks are functions returning an outcome;
    the form is a class whose handlers update the error, the view, the store and the
    current user, and record the user handed to the application's `onLogin`. */
module Auth {

  import opened Options
  import opened Types

  datatype View = LoginView | SignupView | ForgotView

  /** The four inputs of the form. */
  datatype FormData = FormData(id: string, password: string, securityKey: string, username: string)

  datatype Outcome<T> = Ok(value: T) | Fail(error: string)

  const IdTaken := "User ID already exists"
  const FieldsRequired := "All fields are required"
  const InvalidCredentials := "Invalid credentials"
  const InvalidRecovery := "Invalid ID or Security Key"

  /** The account a signup creates: no progress, the free plan, the default theme, and the
      id as display name when none is given. */
  function NewUser(f: FormData): (u: User)
    ensures u.id == f.id && u.password == f.password && u.securityKey == f.securityKey
    ensures u.username == (if f.username != "" then f.username else f.id)
    ensures u.subscriptionStatus == Free && !u.onboardingComplete && u.activeCareers == []
    ensures u.xp == 0 && u.streak == 0 && u.theme == Some(DefaultTheme)
    ensures u.lastDailyChallenge.None? && u.currentCareerId.None?
  {
    User(f.id, if f.username != "" then f.username else f.id, f.password, f.securityKey,
         Free, false, Some(DefaultTheme), 0, 0, None, [], None)
  }

  /** `handleSignup`'s checks: a taken id is refused first, then a missing id, password or
      security key; the display name is optional. */
  function SignupCheck(users: map<string, User>, f: FormData): (r: Outcome<User>)
    ensures f.id in users ==> r == Fail(IdTaken)
    ensures f.id !in users && (f.id == "" || f.password == "" || f.securityKey == "") ==> r == Fail(FieldsRequired)
    ensures r.Ok? <==> f.id !in users && f.id != "" && f.password != "" && f.securityKey != ""
    ensures r.Ok? ==> r.value == NewUser(f)
  {
    if f.id in users then Fail(IdTaken)
    else if f.id == "" || f.password == "" || f.securityKey == "" then Fail(FieldsRequired)
    else Ok(NewUser(f))
  }

  /** `handleLogin`'s check: the id must be stored and the password equal. */
  function LoginCheck(users: map<string, User>, f: FormData): (r: Outcome<User>)
    ensures r.Ok? <==> f.id in users && users[f.id].password == f.password
    ensures r.Ok? ==> r.value == users[f.id]
    ensures r.Fail? ==> r.error == InvalidCredentials
  {
    if f.id in users && users[f.id].password == f.password then Ok(users[f.id]) else Fail(InvalidCredentials)
  }

  /** `handleReset`'s check: the id must be stored and the security key equal; the outcome is
      the stored password. */
  function RecoverCheck(users: map<string, User>, f: FormData): (r: Outcome<string>)
    ensures r.Ok? <==> f.id in users && users[f.id].securityKey == f.securityKey
    ensures r.Ok? ==> r.value == users[f.id].password
    ensures r.Fail? ==> r.error == InvalidRecovery
  {
    if f.id in users && users[f.id].securityKey == f.securityKey then Ok(users[f.id].password)
    else Fail(InvalidRecovery)
  }

  /** A signup never overwrites an account, and the account it stores then signs in with the
      same id and password and recovers that password with the same security key, whatever
      else is typed. */
  lemma SignupThenLogin(users: map<string, User>, f: FormData, g: FormData)
    requires SignupCheck(users, f).Ok?
    requires g.id == f.id
    ensures f.id !in users
    ensures g.password == f.password ==> LoginCheck(users[f.id := NewUser(f)], g) == Ok(NewUser(f))
    ensures g.password != f.password ==> LoginCheck(users[f.id := NewUser(f)], g).Fail?
    ensures g.securityKey == f.securityKey ==> RecoverCheck(users[f.id := NewUser(f)], g) == Ok(f.password)
    ensures g.securityKey != f.securityKey ==> RecoverCheck(users[f.id := NewUser(f)], g).Fail?
  {
  }

  /** Once an id is taken, a second signup with it fails whatever its other fields, so the
      first account's password stays the one that signs in. */
  lemma SecondSignupRefused(users: map<string, User>, f: FormData, g: FormData)
    requires SignupCheck(users, f).Ok?
    requires g.id == f.id
    ensures SignupCheck(users[f.id := NewUser(f)], g) == Fail(IdTaken)
    ensures LoginCheck(users[f.id := NewUser(f)], g).Ok? <==> g.password == f.password
  {
  }

  class Form {
    var view: View
    var form: FormData
    var error: string
    var users: map<string, User>
    var currentUserId: Option<string>
    /** The user last handed to `onLogin`. */
    var signedIn: Option<User>
    /** The password last shown by the recovery alert. */
    var revealed: Option<string>

    constructor(users: map<string, User>, currentUserId: Option<string>)
      ensures this.users == users && this.currentUserId == currentUserId
      ensures view == LoginView && form == FormData("", "", "", "") && error == ""
      ensures signedIn.None? && revealed.None?
    {
      this.users := users;
      this.currentUserId := currentUserId;
      view := LoginView;
      form := FormData("", "", "", "");
      error := "";
      signedIn := None;
      revealed := None;
    }

    /** Typing into the inputs. */
    method Edit(f: FormData)
      modifies this`form
      ensures form == f
    {
      form := f;
    }

    /** `handleSignup`: on success the new account is stored, becomes the current user and is
        handed on; the error is left as it was. On failure only the error changes. */
    method HandleSignup()
      modifies this`error, this`users, this`currentUserId, this`signedIn
      ensures SignupCheck(old(users), form).Fail? ==>
                error == SignupCheck(old(users), form).error
                && users == old(users) && currentUserId == old(currentUserId) && signedIn == old(signedIn)
      ensures SignupCheck(old(users), form).Ok? ==>
                users == old(users)[form.id := NewUser(form)] && currentUserId == Some(form.id)
                && signedIn == Some(NewUser(form)) && error == old(error)
    {
      var r := SignupCheck(users, form);
      if r.Fail? {
        error := r.error;
        return;
      }
      users := users[r.value.id := r.value];
      currentUserId := Some(r.value.id);
      signedIn := Some(r.value);
    }

    /** `handleLogin`: on success the stored account becomes the current user and is handed
        on (a previous error stays); otherwise the error says the credentials are invalid. */
    method HandleLogin()
      modifies this`error, this`currentUserId, this`signedIn
      ensures LoginCheck(users, form).Fail? ==>
                error == InvalidCredentials && currentUserId == old(currentUserId) && signedIn == old(signedIn)
      ensures LoginCheck(users, form).Ok? ==>
                currentUserId == Some(users[form.id].id) && signedIn == Some(users[form.id]) && error == old(error)
    {
      var r := LoginCheck(users, form);
      if r.Ok? {
        currentUserId := Some(r.value.id);
        signedIn := Some(r.value);
      } else {
        error := r.error;
      }
    }

    /** `handleReset`: on success the stored password is shown and the view returns to the
        sign-in form (a previous error stays); otherwise the error says the pair is invalid. */
    method HandleReset()
      modifies this`error, this`view, this`revealed
      ensures RecoverCheck(users, form).Fail? ==>
                error == InvalidRecovery && view == old(view) && revealed == old(revealed)
      ensures RecoverCheck(users, form).Ok? ==>
                revealed == Some(users[form.id].password) && view == LoginView && error == old(error)
    {
      var r := RecoverCheck(users, form);
      if r.Ok? {
        revealed := Some(r.value);
        view := LoginView;
      } else {
        error := r.error;
      }
    }

    /** The links under the form: from the sign-in form to signup or recovery, and from those
        back to sign-in. Every switch clears the error. */
    method SwitchView(v: View)
      requires (view == LoginView) != (v == LoginView)
      modifies this`error, this`view
      ensures view == v && error == ""
    {
      error := "";
      view := v;
    }

    /** The submit button runs the handler of the current view. */
    method Submit()
      modifies this`error, this`view, this`users, this`currentUserId, this`signedIn, this`revealed
      ensures old(view) == LoginView ==> users == old(users) && revealed == old(revealed) && view == old(view)
      ensures old(view) == SignupView ==> view == old(view) && revealed == old(revealed)
      ensures old(view) == ForgotView ==>
                users == old(users) && currentUserId == old(currentUserId) && signedIn == old(signedIn)
    {
      match view
      case LoginView => HandleLogin();
      case SignupView => HandleSignup();
      case ForgotView => HandleReset();
    }
  }
}
