/** `LoginPage`: the site's root page, with the username and password form and the error banner. */
module Login {
  import opened Wrappers
  import opened WebDriver
  import opened Base

  const Username: Locator := Locator(Id, "user-name")
  const Password: Locator := Locator(Id, "password")
  const LoginButton: Locator := Locator(Id, "login-button")
  const ErrorBanner: Locator := Locator(CssSelector, "[data-test='error']")

  /**
   * `login_as(username, password)`: type the username, type the password,
   * click the login button; each step runs only if the one before it
   * returned, and an exception ends the attempt.
   */
  function LoginAsRun(dom: Dom, timeout: int, username: string, password: string): Run<Outcome<Failure>> {
    var user := TypeRun(dom, timeout, Username, username, true);
    if user.result.Fail? then user
    else
      var pass := TypeRun(dom, timeout, Password, password, true);
      if pass.result.Fail? then Run(pass.result, user.steps + pass.steps)
      else
        var submit := ClickRun(dom, timeout, LoginButton);
        Run(submit.result, user.steps + pass.steps + submit.steps)
  }

  /** `error_message()`: the banner's visible text. */
  function ErrorMessageRun(dom: Dom, timeout: int): Run<Result<string, Failure>> {
    TextOfRun(dom, timeout, ErrorBanner)
  }

  /**
   * With both fields visible and the button clickable, `login_as` clears and
   * fills the username field, then clears and fills the password field, then
   * clicks the button, and makes no other call.
   */
  lemma LoginAsOrder(dom: Dom, timeout: int, username: string, password: string, u: Element, p: Element, b: Element)
    requires Await(dom, Visibility, Username) == Success(u)
    requires Await(dom, Visibility, Password) == Success(p)
    requires Await(dom, Clickable, LoginButton) == Success(b)
    ensures LoginAsRun(dom, timeout, username, password) == Run(Pass, [
      Wait(Visibility, Username, timeout), Clear(u), SendKeys(u, username),
      Wait(Visibility, Password, timeout), Clear(p), SendKeys(p, password),
      Wait(Clickable, LoginButton, timeout), Click(b)])
  {
  }

  /**
   * `login_as` clicks at most once, and only the element the login button's
   * clickable wait returned; it clicks exactly when the whole attempt returns.
   */
  lemma LoginAsClicksOnlyTheButton(dom: Dom, timeout: int, username: string, password: string)
    ensures var run := LoginAsRun(dom, timeout, username, password);
      ClicksIn(run.steps) == if run.result.Pass? then [Await(dom, Clickable, LoginButton).value] else []
  {
    var user := TypeRun(dom, timeout, Username, username, true);
    var pass := TypeRun(dom, timeout, Password, password, true);
    var submit := ClickRun(dom, timeout, LoginButton);
    TypeClicksNothing(dom, timeout, Username, username, true);
    TypeClicksNothing(dom, timeout, Password, password, true);
    ClickOnlyAfterWait(dom, timeout, LoginButton);
    ClicksInConcat(user.steps, pass.steps);
    ClicksInConcat(user.steps + pass.steps, submit.steps);
  }

  /** Typing into a field, with or without clearing it first, clicks nothing. */
  lemma TypeClicksNothing(dom: Dom, timeout: int, locator: Locator, text: string, clear: bool)
    ensures ClicksIn(TypeRun(dom, timeout, locator, text, clear).steps) == []
  {
    TypeClearsThenSends(dom, timeout, locator, text, clear);
  }

  /** When the username field never becomes visible, `login_as` raises that timeout after one wait and types nothing. */
  lemma LoginAsStopsAtMissingUsername(dom: Dom, timeout: int, username: string, password: string)
    requires (Visibility, Username) !in dom.waits
    ensures LoginAsRun(dom, timeout, username, password) ==
      Run(Fail(Timeout(Visibility, Username)), [Wait(Visibility, Username, timeout)])
  {
  }

  /**
   * `error_message()` is the error banner's visible text, read after one
   * visibility wait on `[data-test='error']`; without a visible banner it
   * raises what that wait raised.
   */
  lemma ErrorMessageReadsBanner(dom: Dom, timeout: int)
    ensures var run, w := ErrorMessageRun(dom, timeout), Await(dom, Visibility, ErrorBanner);
      && (w.Success? ==> run == Run(Success(w.value.text), [Wait(Visibility, ErrorBanner, timeout), ReadText(w.value)]))
      && (w.Failure? ==> run == Run(Failure(w.error), [Wait(Visibility, ErrorBanner, timeout)]))
  {
  }

  class LoginPage {
    const base: BasePage

    ghost predicate Valid() {
      base.Valid()
    }

    /** `LoginPage(driver, base_url, default_timeout=10)`. */
    constructor (driver: Driver, baseUrl: string, defaultTimeout: int := 10)
      ensures Valid() && fresh(base) && fresh(base.wait)
      ensures base.driver == driver && base.baseUrl == NormalizeBaseUrl(baseUrl) && base.wait.timeout == defaultTimeout
    {
      base := new BasePage(driver, baseUrl, defaultTimeout);
    }

    /** `open_login()`: `open("")`, one navigation to the base URL followed by a slash. */
    method OpenLogin()
      requires Valid()
      modifies base.driver
      ensures base.driver.trace == old(base.driver.trace) + [Navigate(base.baseUrl + "/")]
    {
      base.Open("");
      OpenRoot(base.baseUrl);
    }

    /** `login_as(username, password)`. */
    method LoginAs(username: string, password: string) returns (r: Outcome<Failure>)
      requires Valid()
      modifies base.driver
      ensures r == LoginAsRun(base.driver.dom, base.wait.timeout, username, password).result
      ensures base.driver.trace == old(base.driver.trace) + LoginAsRun(base.driver.dom, base.wait.timeout, username, password).steps
    {
      r := base.Type(Username, username);
      if r.Fail? {
        return;
      }
      r := base.Type(Password, password);
      if r.Fail? {
        return;
      }
      r := base.Click(LoginButton);
    }

    /** `error_message()`. */
    method ErrorMessage() returns (r: Result<string, Failure>)
      requires Valid()
      modifies base.driver
      ensures r == ErrorMessageRun(base.driver.dom, base.wait.timeout).result
      ensures base.driver.trace == old(base.driver.trace) + ErrorMessageRun(base.driver.dom, base.wait.timeout).steps
    {
      r := base.TextOf(ErrorBanner);
    }
  }
}
