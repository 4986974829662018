/**
 * The authentication store of authStore.ts: the registration and login
 * rules (zod schemas restated as issue lists) and the session state that
 * `register`, `login` and `logout` update.
 */
module AuthStore {
  import opened Wrappers
  import opened JsText

  datatype RegisterFormData = RegisterFormData(
    firstName: string, lastName: string, userName: string, password: string, confirmPassword: string)

  /** `Omit<RegisterFormData, "confirmPassword">`: what is posted to the register endpoint. */
  datatype RegisterApiData = RegisterApiData(firstName: string, lastName: string, userName: string, password: string)

  datatype LoginFormData = LoginFormData(userName: string, password: string)

  /** One validation failure: the field it is reported on and its message key. */
  datatype Issue = Issue(path: string, message: string)

  /** `z.string().min(n, { message })` on one field. */
  function MinLength(path: string, value: string, n: nat, message: string): seq<Issue>
  {
    if |value| < n then [Issue(path, message)] else []
  }

  /**
   * The registration schema, parameterised by the message of its password
   * refinement: the field checks in declaration order, then the equality check
   * on `confirmPassword` (which runs whenever every field is a string).
   */
  function RegisterIssues(d: RegisterFormData, mismatchMessage: string): (issues: seq<Issue>)
    ensures issues == [] <==>
              && |d.firstName| >= 1 && |d.lastName| >= 1 && |d.userName| >= 1
              && |d.password| >= 8 && |d.confirmPassword| >= 8
              && d.password == d.confirmPassword
    ensures d.password != d.confirmPassword ==> issues != [] && issues[|issues| - 1] == Issue("confirmPassword", mismatchMessage)
  {
    MinLength("firstName", d.firstName, 1, "errors.nameRequired")
    + MinLength("lastName", d.lastName, 1, "errors.lastName")
    + MinLength("userName", d.userName, 1, "errors.userName")
    + MinLength("password", d.password, 8, "errors.passwordTooShort")
    + MinLength("confirmPassword", d.confirmPassword, 8, "errors.passwordTooShort")
    + (if d.password != d.confirmPassword then [Issue("confirmPassword", mismatchMessage)] else [])
  }

  /** An issue is reported iff it is the issue of a rule that fails. */
  lemma RegisterIssuesMember(d: RegisterFormData, mismatchMessage: string, x: Issue)
    ensures x in RegisterIssues(d, mismatchMessage) <==>
              || (x == Issue("firstName", "errors.nameRequired") && |d.firstName| < 1)
              || (x == Issue("lastName", "errors.lastName") && |d.lastName| < 1)
              || (x == Issue("userName", "errors.userName") && |d.userName| < 1)
              || (x == Issue("password", "errors.passwordTooShort") && |d.password| < 8)
              || (x == Issue("confirmPassword", "errors.passwordTooShort") && |d.confirmPassword| < 8)
              || (x == Issue("confirmPassword", mismatchMessage) && d.password != d.confirmPassword)
  {
  }

  const StoreMismatchMessage := "errors.passwordsDontMatch"

  /** `registerSchema` as declared in the store. */
  function StoreRegisterIssues(d: RegisterFormData): (issues: seq<Issue>)
    ensures Issue("confirmPassword", "errors.passwordsDontMatch") in issues <==> d.password != d.confirmPassword
  {
    RegisterIssues(d, StoreMismatchMessage)
  }

  /** `loginSchema`: both fields must be non-empty. */
  function LoginIssues(d: LoginFormData): (issues: seq<Issue>)
    ensures issues == [] <==> d.userName != "" && d.password != ""
    ensures Issue("userName", "errors.userName") in issues <==> d.userName == ""
    ensures Issue("password", "errors.passwordRequired") in issues <==> d.password == ""
  {
    MinLength("userName", d.userName, 1, "errors.userName")
    + MinLength("password", d.password, 1, "errors.passwordRequired")
  }

  /**
   * What a request to the API came back with: a body, an HTTP error whose
   * JSON may carry a `message`, or an exception thrown on the way.
   */
  datatype Reply<T> = Ok(body: T) | HttpError(serverMessage: Option<string>) | Thrown(message: string)

  /** The message of the error caught for a failed request: `errorData.message || fallback`, or the exception's own. */
  function FailureMessage<T>(reply: Reply<T>, fallback: string): (message: string)
    requires !reply.Ok?
    ensures reply.HttpError? ==> message == OrElse(reply.serverMessage, fallback)
    ensures reply.HttpError? ==> message == fallback || (reply.serverMessage == Some(message) && message != "")
    ensures reply.Thrown? ==> message == reply.message
  {
    match reply
    case HttpError(serverMessage) => OrElse(serverMessage, fallback)
    case Thrown(message) => message
  }

  /** The zustand store. Browser storage is read once, by the constructor. */
  class Session {
    var isLoading: bool
    var error: Option<string>
    var isLoggedIn: bool
    var userName: Option<string>
    var accessToken: Option<string>

    /** The initial state: logged in exactly when a user name was stored. */
    constructor (storedToken: Option<string>, storedUserName: Option<string>)
      ensures isLoggedIn <==> storedUserName.Some?
      ensures userName == storedUserName && accessToken == storedToken
      ensures !isLoading && error == None
    {
      isLoading, error := false, None;
      isLoggedIn := storedUserName.Some?;
      userName, accessToken := storedUserName, storedToken;
    }

    /** The first `set` of `register` and `login`: busy, with no error. */
    method BeginRequest()
      modifies this`isLoading, this`error
      ensures isLoading && error == None
    {
      isLoading, error := true, None;
    }

    /**
     * `register`: success only clears the busy flag; failure also records the
     * error. The session itself (logged in, user name, token) is not touched.
     */
    method Register(data: RegisterApiData, reply: Reply<()>) returns (ok: bool)
      modifies this`isLoading, this`error
      ensures ok <==> reply.Ok?
      ensures !isLoading
      ensures ok ==> error == None
      ensures !ok ==> error == Some(FailureMessage(reply, "errors.registrationFailed"))
    {
      BeginRequest();
      if reply.Ok? {
        isLoading := false;
        ok := true;
      } else {
        isLoading, error := false, Some(FailureMessage(reply, "errors.registrationFailed"));
        ok := false;
      }
    }

    /**
     * `login`: success logs the submitted user in with the returned token;
     * failure records the error and leaves the session as it was.
     */
    method Login(data: LoginFormData, reply: Reply<Option<string>>) returns (ok: bool)
      modifies this`isLoading, this`error, this`isLoggedIn, this`userName, this`accessToken
      ensures ok <==> reply.Ok?
      ensures !isLoading
      ensures ok ==> error == None && isLoggedIn && userName == Some(data.userName) && accessToken == reply.body
      ensures !ok ==> error == Some(FailureMessage(reply, "errors.loginFailed"))
      ensures !ok ==> isLoggedIn == old(isLoggedIn) && userName == old(userName) && accessToken == old(accessToken)
    {
      BeginRequest();
      if reply.Ok? {
        isLoading, userName, isLoggedIn, accessToken := false, Some(data.userName), true, reply.body;
        ok := true;
      } else {
        isLoading, error := false, Some(FailureMessage(reply, "errors.loginFailed"));
        ok := false;
      }
    }

    /** `logout`: forget the user; the token kept in the store is left as it is. */
    method Logout()
      modifies this`userName, this`isLoggedIn
      ensures userName == None && !isLoggedIn
      ensures accessToken == old(accessToken)
    {
      userName, isLoggedIn := None, false;
    }
  }
}
