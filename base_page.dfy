/**
 * `BasePage`: a page object bound to a driver, a normalised base URL and an
 * explicit wait, with helpers to navigate, look elements up, click, type and
 * read text. Each helper is specified by a function `...Run` giving its result
 * and the calls it makes on the driver, as a function of the oracle.
 */
module Base {
  import opened Wrappers
  import opened Text
  import opened WebDriver

  /** What an operation returns or raises, and the calls it made on the driver, in order. */
  datatype Run<T> = Run(result: T, steps: seq<Action>)

  const Slash: set<char> := {'/'}

  /** `base_url.rstrip("/")`: the base URL with every trailing slash removed. */
  function NormalizeBaseUrl(baseUrl: string): (r: string)
    ensures r == [] || r[|r| - 1] != '/'
    ensures |r| <= |baseUrl| && r == baseUrl[..|r|]
    ensures AllIn(baseUrl[|r|..], Slash)
  {
    var r := RStrip(baseUrl, Slash);
    assert r == baseUrl[..|r|] && AllIn(baseUrl[|r|..], Slash) by {
      var post := RStripSplit(baseUrl, Slash);
      assert baseUrl == r + post;
    }
    r
  }

  /** `f"{base_url}/{path.lstrip('/')}"`: the URL `open(path)` navigates to. */
  function OpenUrl(baseUrl: string, path: string): string {
    baseUrl + "/" + LStrip(path, Slash)
  }

  /** A base URL already normalised is left alone, whatever it had stripped before. */
  lemma NormalizeBaseUrlIdempotent(baseUrl: string)
    ensures NormalizeBaseUrl(NormalizeBaseUrl(baseUrl)) == NormalizeBaseUrl(baseUrl)
  {
    var r := NormalizeBaseUrl(baseUrl);
    assert r + [] == r;
    RStripPadded(r, [], Slash);
  }

  /** Adding trailing slashes to the base URL does not change the page's base URL. */
  lemma NormalizeIgnoresTrailingSlashes(baseUrl: string, slashes: string)
    requires AllIn(slashes, Slash)
    ensures NormalizeBaseUrl(baseUrl + slashes) == NormalizeBaseUrl(baseUrl)
  {
    RStripIgnoresSuffix(baseUrl, slashes, Slash);
  }

  /** Leading slashes on the path do not change the target: `open("x")`, `open("/x")`, `open("//x")` agree. */
  lemma OpenIgnoresLeadingSlashes(baseUrl: string, slashes: string, path: string)
    requires AllIn(slashes, Slash)
    ensures OpenUrl(baseUrl, slashes + path) == OpenUrl(baseUrl, path)
  {
    LStripIgnoresPrefix(slashes, path, Slash);
  }

  /**
   * The target of `open` joins the normalised base URL and the path with
   * exactly one slash: none ends the base, none starts the rest, and the rest
   * is the path less its leading slashes.
   */
  lemma OpenJoinsWithOneSlash(rawBase: string, path: string)
    ensures var b, u := NormalizeBaseUrl(rawBase), OpenUrl(NormalizeBaseUrl(rawBase), path);
      && u[..|b|] == b && u[|b|] == '/'
      && (|b| > 0 ==> u[|b| - 1] != '/')
      && (|u| > |b| + 1 ==> u[|b| + 1] != '/')
      && path == path[..|path| - (|u| - |b| - 1)] + u[|b| + 1..]
      && AllIn(path[..|path| - (|u| - |b| - 1)], Slash)
  {
    var q := LStrip(path, Slash);
    var pre := LStripSplit(path, Slash);
    assert pre == path[..|path| - |q|];
  }

  /** `open("")` goes to the base URL followed by one slash. */
  lemma OpenRoot(baseUrl: string)
    ensures OpenUrl(baseUrl, "") == baseUrl + "/"
  {
    assert LStrip("", Slash) == "";
  }

  /** The unit test's first URL: base "https://example.com" and path "login". */
  lemma OpenLoginExample()
    ensures OpenUrl(NormalizeBaseUrl("https://example.com"), "login") == "https://example.com/login"
  {
    assert NormalizeBaseUrl("https://example.com") == "https://example.com";
    assert LStrip("login", Slash) == "login";
  }

  /**
   * A base URL given with one trailing slash and a path given with one
   * leading slash still meet at a single slash, as "https://example.com/" and
   * "/inventory" give "https://example.com/inventory".
   */
  lemma OpenSlashedOnBothSides(host: string, path: string)
    requires host != [] && host[|host| - 1] != '/'
    requires path == [] || path[0] != '/'
    ensures OpenUrl(NormalizeBaseUrl(host + "/"), "/" + path) == host + "/" + path
  {
    NormalizeIgnoresTrailingSlashes(host, "/");
    assert host + [] == host;
    RStripPadded(host, [], Slash);
    LStripIgnoresPrefix("/", path, Slash);
    assert [] + path == path;
    LStripPadded([], path, Slash);
  }

  // ---------------------------------------------------------------- lookups

  /** `find` (Presence) and `find_visible` (Visibility): one wait; its element or its exception. */
  function FindRun(dom: Dom, timeout: int, condition: Condition, locator: Locator): Run<Result<Element, Failure>> {
    Run(Await(dom, condition, locator), [Wait(condition, locator, timeout)])
  }

  /** `click`: wait until clickable, then click the element the wait returned. */
  function ClickRun(dom: Dom, timeout: int, locator: Locator): Run<Outcome<Failure>> {
    var w := Wait(Clickable, locator, timeout);
    match Await(dom, Clickable, locator)
    case Success(e) => Run(Pass, [w, Click(e)])
    case Failure(f) => Run(Fail(f), [w])
  }

  /** `type`: find the visible element, clear it when asked, then send the text. */
  function TypeRun(dom: Dom, timeout: int, locator: Locator, text: string, clear: bool): Run<Outcome<Failure>> {
    var found := FindRun(dom, timeout, Visibility, locator);
    match found.result
    case Success(e) => Run(Pass, found.steps + (if clear then [Clear(e)] else []) + [SendKeys(e, text)])
    case Failure(f) => Run(Fail(f), found.steps)
  }

  /** `text_of`: find the visible element and read its text. */
  function TextOfRun(dom: Dom, timeout: int, locator: Locator): Run<Result<string, Failure>> {
    var found := FindRun(dom, timeout, Visibility, locator);
    match found.result
    case Success(e) => Run(Success(e.text), found.steps + [ReadText(e)])
    case Failure(f) => Run(Failure(f), found.steps)
  }

  /** `exists`: `find`, with any exception turned into false. */
  function ExistsRun(dom: Dom, timeout: int, locator: Locator): Run<bool> {
    var found := FindRun(dom, timeout, Presence, locator);
    Run(found.result.Success?, found.steps)
  }

  /**
   * `exists` is true exactly when `find` returns an element, and makes the
   * same single wait; every failure of `find`, a timeout or any other
   * exception, becomes false.
   */
  lemma ExistsIffFindSucceeds(dom: Dom, timeout: int, locator: Locator)
    ensures ExistsRun(dom, timeout, locator).result <==> FindRun(dom, timeout, Presence, locator).result.Success?
    ensures ExistsRun(dom, timeout, locator).steps == FindRun(dom, timeout, Presence, locator).steps
    ensures Await(dom, Presence, locator).Failure? ==> !ExistsRun(dom, timeout, locator).result
  {
  }

  /**
   * For an element that never appears, `exists` answers false while every
   * other lookup raises a timeout, and nothing is clicked or typed.
   */
  lemma MissingElement(dom: Dom, timeout: int, locator: Locator, text: string, clear: bool)
    requires forall c: Condition :: (c, locator) !in dom.waits
    ensures !ExistsRun(dom, timeout, locator).result
    ensures FindRun(dom, timeout, Presence, locator).result == Failure(Timeout(Presence, locator))
    ensures FindRun(dom, timeout, Visibility, locator).result == Failure(Timeout(Visibility, locator))
    ensures ClickRun(dom, timeout, locator) == Run(Fail(Timeout(Clickable, locator)), [Wait(Clickable, locator, timeout)])
    ensures TypeRun(dom, timeout, locator, text, clear) == Run(Fail(Timeout(Visibility, locator)), [Wait(Visibility, locator, timeout)])
    ensures TextOfRun(dom, timeout, locator) == Run(Failure(Timeout(Visibility, locator)), [Wait(Visibility, locator, timeout)])
  {
    assert (Presence, locator) !in dom.waits;
    assert (Visibility, locator) !in dom.waits;
    assert (Clickable, locator) !in dom.waits;
  }

  /**
   * `click` succeeds exactly when the clickable wait does, and then clicks
   * that wait's element once and nothing else; when the wait fails nothing is
   * clicked and its exception is raised.
   */
  lemma ClickOnlyAfterWait(dom: Dom, timeout: int, locator: Locator)
    ensures var run, w := ClickRun(dom, timeout, locator), Await(dom, Clickable, locator);
      && (run.result.Pass? <==> w.Success?)
      && (w.Failure? ==> run.result == Fail(w.error))
      && ClicksIn(run.steps) == (if w.Success? then [w.value] else [])
      && run.steps[0] == Wait(Clickable, locator, timeout)
  {
    match Await(dom, Clickable, locator)
    case Success(e) =>
      assert ClickRun(dom, timeout, locator).steps == [Wait(Clickable, locator, timeout)] + [Click(e)];
      ClicksInConcat([Wait(Clickable, locator, timeout)], [Click(e)]);
    case Failure(_) =>
  }

  /**
   * `type` on a visible element: with `clear` it clears the element and then
   * sends the text once; without it, it only sends the text once. It never
   * clicks, and when no visible element is found it raises and touches nothing.
   */
  lemma TypeClearsThenSends(dom: Dom, timeout: int, locator: Locator, text: string, clear: bool)
    ensures var run, w := TypeRun(dom, timeout, locator, text, clear), Await(dom, Visibility, locator);
      && (run.result.Pass? <==> w.Success?)
      && (w.Success? && clear ==> run.steps == [Wait(Visibility, locator, timeout), Clear(w.value), SendKeys(w.value, text)])
      && (w.Success? && !clear ==> run.steps == [Wait(Visibility, locator, timeout), SendKeys(w.value, text)])
      && (w.Failure? ==> run == Run(Fail(w.error), [Wait(Visibility, locator, timeout)]))
  {
  }

  /** `text_of` returns the visible element's text unchanged, or raises what the wait raised. */
  lemma TextOfReturnsText(dom: Dom, timeout: int, locator: Locator)
    ensures var run, w := TextOfRun(dom, timeout, locator), Await(dom, Visibility, locator);
      && (w.Success? ==> run.result == Success(w.value.text) && ClicksIn(run.steps) == [])
      && (w.Failure? ==> run.result == Failure(w.error))
  {
    match Await(dom, Visibility, locator)
    case Success(e) =>
      assert TextOfRun(dom, timeout, locator).steps == [Wait(Visibility, locator, timeout)] + [ReadText(e)];
      ClicksInConcat([Wait(Visibility, locator, timeout)], [ReadText(e)]);
    case Failure(_) =>
  }

  // ---------------------------------------------------------------- the page object

  class BasePage {
    const driver: Driver
    const baseUrl: string
    const wait: WebDriverWait

    /** The wait polls this page's own driver. */
    ghost predicate Valid() {
      wait.driver == driver
    }

    /** `BasePage(driver, base_url, default_timeout=10)`. */
    constructor (driver: Driver, baseUrl: string, defaultTimeout: int := 10)
      ensures Valid()
      ensures this.driver == driver && this.baseUrl == NormalizeBaseUrl(baseUrl)
      ensures wait.timeout == defaultTimeout && fresh(wait)
    {
      this.driver := driver;
      this.baseUrl := NormalizeBaseUrl(baseUrl);
      wait := new WebDriverWait(driver, defaultTimeout);
    }

    /** `open(path="")`: exactly one navigation, to the base URL joined with the path. */
    method Open(path: string := "")
      requires Valid()
      modifies driver
      ensures driver.trace == old(driver.trace) + [Navigate(OpenUrl(baseUrl, path))]
    {
      var url := baseUrl + "/" + LStrip(path, Slash);
      driver.Get(url);
    }

    /** `find(by, value)`. */
    method Find(locator: Locator) returns (r: Result<Element, Failure>)
      requires Valid()
      modifies driver
      ensures r == FindRun(driver.dom, wait.timeout, Presence, locator).result
      ensures driver.trace == old(driver.trace) + FindRun(driver.dom, wait.timeout, Presence, locator).steps
    {
      r := wait.Until(Presence, locator);
    }

    /** `find_visible(by, value)`. */
    method FindVisible(locator: Locator) returns (r: Result<Element, Failure>)
      requires Valid()
      modifies driver
      ensures r == FindRun(driver.dom, wait.timeout, Visibility, locator).result
      ensures driver.trace == old(driver.trace) + FindRun(driver.dom, wait.timeout, Visibility, locator).steps
    {
      r := wait.Until(Visibility, locator);
    }

    /** `click(by, value)`. */
    method Click(locator: Locator) returns (r: Outcome<Failure>)
      requires Valid()
      modifies driver
      ensures r == ClickRun(driver.dom, wait.timeout, locator).result
      ensures driver.trace == old(driver.trace) + ClickRun(driver.dom, wait.timeout, locator).steps
    {
      var el := wait.Until(Clickable, locator);
      match el
      case Failure(f) =>
        return Fail(f);
      case Success(e) =>
        driver.ClickElement(e);
        return Pass;
    }

    /** `type(by, value, text, clear=True)`. */
    method Type(locator: Locator, text: string, clear: bool := true) returns (r: Outcome<Failure>)
      requires Valid()
      modifies driver
      ensures r == TypeRun(driver.dom, wait.timeout, locator, text, clear).result
      ensures driver.trace == old(driver.trace) + TypeRun(driver.dom, wait.timeout, locator, text, clear).steps
    {
      var el := FindVisible(locator);
      match el
      case Failure(f) =>
        return Fail(f);
      case Success(e) =>
        if clear {
          driver.ClearElement(e);
        }
        driver.SendKeysTo(e, text);
        return Pass;
    }

    /** `text_of(by, value)`. */
    method TextOf(locator: Locator) returns (r: Result<string, Failure>)
      requires Valid()
      modifies driver
      ensures r == TextOfRun(driver.dom, wait.timeout, locator).result
      ensures driver.trace == old(driver.trace) + TextOfRun(driver.dom, wait.timeout, locator).steps
    {
      var el := FindVisible(locator);
      match el
      case Failure(f) =>
        return Failure(f);
      case Success(e) =>
        var text := driver.TextOf(e);
        return Success(text);
    }

    /** `exists(by, value)`: never raises. */
    method Exists(locator: Locator) returns (b: bool)
      requires Valid()
      modifies driver
      ensures b == ExistsRun(driver.dom, wait.timeout, locator).result
      ensures driver.trace == old(driver.trace) + ExistsRun(driver.dom, wait.timeout, locator).steps
    {
      var el := Find(locator);
      b := el.Success?;
    }
  }
}
