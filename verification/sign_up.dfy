/**
 * The sign-up page of SignUpPage.tsx: the registration schema the form
 * actually validates with, the data it submits, and the error its mutation
 * raises when registration fails.
 */
module SignUp {
  import opened Wrappers
  import opened AuthStore

  /** The page's own refinement message, spelled differently from the store's. */
  const FormMismatchMessage := "errors.passwordDontMatch"

  /** The page's `registerSchema`: the store's field rules with its own mismatch message. */
  function FormRegisterIssues(d: RegisterFormData): (issues: seq<Issue>)
    ensures Issue("confirmPassword", "errors.passwordDontMatch") in issues <==> d.password != d.confirmPassword
    ensures Issue("firstName", "errors.nameRequired") in issues <==> d.firstName == ""
    ensures Issue("lastName", "errors.lastName") in issues <==> d.lastName == ""
    ensures Issue("userName", "errors.userName") in issues <==> d.userName == ""
    ensures Issue("password", "errors.passwordTooShort") in issues <==> |d.password| < 8
    ensures Issue("confirmPassword", "errors.passwordTooShort") in issues <==> |d.confirmPassword| < 8
  {
    RegisterIssuesMember(d, FormMismatchMessage, Issue("confirmPassword", "errors.passwordDontMatch"));
    RegisterIssuesMember(d, FormMismatchMessage, Issue("firstName", "errors.nameRequired"));
    RegisterIssuesMember(d, FormMismatchMessage, Issue("lastName", "errors.lastName"));
    RegisterIssuesMember(d, FormMismatchMessage, Issue("userName", "errors.userName"));
    RegisterIssuesMember(d, FormMismatchMessage, Issue("password", "errors.passwordTooShort"));
    RegisterIssuesMember(d, FormMismatchMessage, Issue("confirmPassword", "errors.passwordTooShort"));
    RegisterIssues(d, FormMismatchMessage)
  }

  /** The page and the store accept the same data; they differ only in the mismatch message. */
  lemma SchemasAgree(d: RegisterFormData)
    ensures FormRegisterIssues(d) == [] <==> StoreRegisterIssues(d) == []
    ensures d.password != d.confirmPassword ==>
              && Issue("confirmPassword", "errors.passwordDontMatch") in FormRegisterIssues(d)
              && Issue("confirmPassword", "errors.passwordDontMatch") !in StoreRegisterIssues(d)
  {
    // the page's mismatch message differs in length from every message the store can report
    RegisterIssuesMember(d, StoreMismatchMessage, Issue("confirmPassword", "errors.passwordDontMatch"));
    assert |"errors.passwordDontMatch"| == 24 && |StoreMismatchMessage| == 25 && |"errors.passwordTooShort"| == 23;
  }

  /** `const { confirmPassword, ...apiData } = data`. */
  function ApiData(d: RegisterFormData): RegisterApiData
  {
    RegisterApiData(d.firstName, d.lastName, d.userName, d.password)
  }

  /** The submitted data forgets `confirmPassword` and nothing else. */
  lemma ApiDataForgetsOnlyConfirmation(d1: RegisterFormData, d2: RegisterFormData)
    ensures ApiData(d1) == ApiData(d2) <==> d1.(confirmPassword := "") == d2.(confirmPassword := "")
    ensures ApiData(d1).password == d1.password && ApiData(d1).userName == d1.userName
  {
  }

  /** The mutation's error: the store's error, or "errors.registrationFailed" when it has none (`??`). */
  function RegistrationError(storeError: Option<string>): (message: string)
    ensures storeError.Some? ==> message == storeError.value
    ensures storeError.None? ==> message == "errors.registrationFailed"
  {
    if storeError.Some? then storeError.value else "errors.registrationFailed"
  }

  /**
   * `onSubmit` followed by `mutationFn`, for data the schema accepted: the
   * store registers the data without `confirmPassword`; on failure the error
   * raised is the one the store recorded, so the page's own fallback is never used.
   */
  method Submit(session: Session, data: RegisterFormData, reply: Reply<()>) returns (outcome: Result<bool, string>)
    requires FormRegisterIssues(data) == []
    modifies session`isLoading, session`error
    ensures reply.Ok? ==> outcome == Success(true) && session.error == None
    ensures !reply.Ok? ==> outcome == Failure(FailureMessage(reply, "errors.registrationFailed"))
    ensures !reply.Ok? ==> session.error == Some(FailureMessage(reply, "errors.registrationFailed"))
    ensures !session.isLoading
  {
    var ok := session.Register(ApiData(data), reply);
    if !ok {
      return Failure(RegistrationError(session.error));
    }
    outcome := Success(true);
  }
}
