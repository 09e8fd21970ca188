/** The `Login` and `Register` forms of client/src/components/Auth.js: the
    registration checks and their order, the request each form sends, and
    the error text it shows for each kind of reply. Storage of the token and
    navigation are left to the browser. */
module AuthForms {
  import opened Base
  import opened Text
  import opened UserSchema
  import opened AuthRoutes

  datatype RegisterForm = RegisterForm(name: string, email: string, password: string, confirmPassword: string)

  datatype LoginForm = LoginForm(email: string, password: string)

  const PasswordsDoNotMatch: string := "Passwords do not match"
  const PasswordTooShort: string := "Password must be at least 6 characters"
  const RegistrationFailed: string := "Registration failed"
  const LoginFailed: string := "Login failed"
  const NetworkErrorPrefix: string := "Network error: "

  /** How a `fetch` ends: an ok response, a non-ok response with the JSON
      body's `message` if any, or a thrown error with its message. */
  datatype Reply = Accepted | Rejected(message: Option<string>) | NetworkFailure(reason: string)

  /** The registration checks in order: the confirmation first, then the
      length in UTF-16 code units, as `.length` counts. */
  function RegisterCheck(f: RegisterForm): (err: Option<string>)
    ensures err.None? <==> f.password == f.confirmPassword && Utf16Length(f.password) >= MinPasswordLength
    ensures f.password != f.confirmPassword ==> err == Some(PasswordsDoNotMatch)
    ensures f.password == f.confirmPassword && Utf16Length(f.password) < MinPasswordLength ==> err == Some(PasswordTooShort)
  {
    if f.password != f.confirmPassword then Some(PasswordsDoNotMatch)
    else if Utf16Length(f.password) < 6 then Some(PasswordTooShort)
    else None
  }

  /** The register request: name, email and password, never the
      confirmation. A form that passed the checks sends a password that is
      the confirmed one and long enough for the server's `minlength`. */
  function RegisterRequest(f: RegisterForm): (r: UserInput)
    ensures RegisterCheck(f).None? ==>
      r.password == f.confirmPassword && Utf16Length(r.password) >= MinPasswordLength
    ensures r.email == f.email && r.name == f.name
  {
    UserInput(f.name, f.email, f.password)
  }

  /** The text shown after a reply. With a non-empty fallback an error is
      shown exactly when the reply was not ok; a rejection shows the
      server's message, or the fallback when it gave none; a network
      failure shows its reason after the "Network error: " prefix. */
  function ErrorText(reply: Reply, fallback: string): (t: string)
    ensures fallback != "" ==> (t == "" <==> reply.Accepted?)
    ensures reply.Rejected? ==> t == fallback || (reply.message.Some? && t == reply.message.value)
    ensures reply.Rejected? && reply.message.Some? && reply.message.value != "" ==> t == reply.message.value
    ensures reply.NetworkFailure? ==>
      StartsWith(t, NetworkErrorPrefix) && t[|NetworkErrorPrefix|..] == reply.reason
  {
    match reply
    case Accepted => ""
    case Rejected(message) => MessageOr(message, fallback)
    case NetworkFailure(reason) => "Network error: " + reason
  }

  /** What the server answers becomes what the form shows: a denial's
      non-empty message whatever the fallback, and nothing after a grant. */
  function ReplyOf(resp: AuthResponse): (r: Reply)
    ensures r.Accepted? <==> resp.Granted?
    ensures resp.Denied? && resp.message != "" ==> forall fb :: ErrorText(r, fb) == resp.message
    ensures resp.Granted? ==> forall fb :: ErrorText(r, fb) == ""
  {
    match resp
    case Granted(_, _, _) => Accepted
    case Denied(_, message) => Rejected(Some(message))
  }

  /** A form that passes the client checks, with a non-blank name, a
      non-empty email not yet registered and a working store, is registered. */
  lemma ClientAcceptedRegistrationSucceeds(users: seq<User>, f: RegisterForm, h: Hasher, id: UserId, now: Timestamp)
    requires EmailsDistinct(users)
    requires RegisterCheck(f).None? && !IsBlank(f.name) && f.email != ""
    requires forall j :: 0 <= j < |users| ==> users[j].email != ToLower(f.email)
    ensures RegisterRoute(users, RegisterRequest(f), h, false, id, now).0.Granted?
  {
    RegistrationAddsOneUser(users, RegisterRequest(f), h, false, id, now);
  }

  /** Submitting the login form with an empty field shows the server's 400 message. */
  lemma EmptyLoginFieldShowsServerMessage(users: seq<User>, f: LoginForm, h: Hasher, fault: bool)
    requires f.email == "" || f.password == ""
    ensures ErrorText(ReplyOf(LoginRoute(users, LoginBody(Some(f.email), Some(f.password)), h, fault)), LoginFailed)
      == "Please provide email and password"
  {
    LoginMissingFieldsFirst(users, users, LoginBody(Some(f.email), Some(f.password)), h, fault);
  }

  class RegisterState {
    var formData: RegisterForm
    var error: string
    var loading: bool

    constructor ()
      ensures formData == RegisterForm("", "", "", "") && error == "" && !loading
    {
      formData := RegisterForm("", "", "", "");
      error := "";
      loading := false;
    }

    /** `handleSubmit`: a failed check shows its message and sends nothing,
        leaving `loading` as it was; otherwise the request is sent (`sent`)
        and the reply's error text is shown. */
    method HandleSubmit(reply: Reply) returns (sent: Option<UserInput>)
      modifies this
      ensures sent.None? <==> RegisterCheck(formData).Some?
      ensures sent.None? ==> error == RegisterCheck(formData).value && loading == old(loading)
      ensures sent.Some? ==> sent.value == RegisterRequest(formData)
      ensures sent.Some? ==> error == ErrorText(reply, RegistrationFailed) && !loading
      ensures formData == old(formData)
    {
      error := "";
      if formData.password != formData.confirmPassword {
        error := PasswordsDoNotMatch;
        return None;
      }
      if Utf16Length(formData.password) < 6 {
        error := PasswordTooShort;
        return None;
      }
      loading := true;
      sent := Some(UserInput(formData.name, formData.email, formData.password));
      match reply {
        case Accepted =>
        case Rejected(message) =>
          error := MessageOr(message, RegistrationFailed);
        case NetworkFailure(reason) =>
          error := NetworkErrorPrefix + reason;
      }
      loading := false;
    }
  }

  class LoginState {
    var formData: LoginForm
    var error: string
    var loading: bool

    constructor ()
      ensures formData == LoginForm("", "") && error == "" && !loading
    {
      formData := LoginForm("", "");
      error := "";
      loading := false;
    }

    /** `handleSubmit`: no client checks; both fields are sent as they are
        and the reply's error text is shown. */
    method HandleSubmit(reply: Reply) returns (sent: LoginBody)
      modifies this
      ensures sent == LoginBody(Some(formData.email), Some(formData.password))
      ensures error == ErrorText(reply, LoginFailed)
      ensures !loading
      ensures formData == old(formData)
    {
      loading := true;
      error := "";
      sent := LoginBody(Some(formData.email), Some(formData.password));
      match reply {
        case Accepted =>
        case Rejected(message) =>
          error := MessageOr(message, LoginFailed);
        case NetworkFailure(reason) =>
          error := NetworkErrorPrefix + reason;
      }
      loading := false;
    }
  }
}
