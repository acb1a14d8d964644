/**
 * The browser session a page object drives, made abstract: a driver object
 * that records every call made on it in an action trace, and answers lookups
 * from a fixed oracle describing the page it shows. How the page reacts to the
 * actions (navigation, form submission) is not modelled.
 */
module WebDriver {
  import opened Wrappers

  /** Selenium's locator strategies, the constants of `By`. */
  datatype By = Id | XPath | LinkText | PartialLinkText | Name | TagName | ClassName | CssSelector

  /** A `(by, value)` locator: a strategy and its selector. */
  datatype Locator = Locator(strategy: By, value: string)

  /** A handle to a DOM element, with the rendered text Selenium's `.text` reports for it. */
  datatype Element = Element(handle: nat, text: string)

  /** The three expected conditions the page objects wait for. */
  datatype Condition =
    | Presence    // presence_of_element_located: in the DOM, perhaps invisible
    | Visibility  // visibility_of_element_located: present and displayed
    | Clickable   // element_to_be_clickable: visible and enabled

  /** How one explicit wait ends: an element, a timeout, or another WebDriver exception. */
  datatype WaitResult = Found(element: Element) | TimedOut | Raised(message: string)

  /**
   * The oracle: how each wait on each locator ends within the configured
   * timeout (a pair without an entry times out), and which elements
   * `find_elements` returns for each locator (none without an entry).
   */
  datatype Dom = Dom(waits: map<(Condition, Locator), WaitResult>, matches: map<Locator, seq<Element>>)

  /** The exceptions the core can raise. */
  datatype Failure =
    | Timeout(condition: Condition, locator: Locator)  // selenium TimeoutException from WebDriverWait.until
    | DriverError(message: string)                     // any other exception raised while waiting
    | AssertionFailed(message: string)                 // a failed `assert` statement
    | NotAnInteger(text: string)                       // ValueError from int()

  /** One call on the browser session, as it appears in the trace. */
  datatype Action =
    | Navigate(url: string)                                     // driver.get(url)
    | Wait(condition: Condition, locator: Locator, timeout: int) // WebDriverWait(driver, timeout).until(...)
    | FindAll(locator: Locator)                                 // driver.find_elements(by, value)
    | Click(element: Element)                                   // element.click()
    | Clear(element: Element)                                   // element.clear()
    | SendKeys(element: Element, keys: string)                  // element.send_keys(keys)
    | ReadText(element: Element)                                // element.text

  /** What `until` returns or raises for a condition on a locator. */
  function Await(dom: Dom, condition: Condition, locator: Locator): (r: Result<Element, Failure>)
    ensures r.Success? <==> (condition, locator) in dom.waits && dom.waits[(condition, locator)].Found?
    ensures r.Success? ==> r.value == dom.waits[(condition, locator)].element
    ensures r.Failure? ==> r.error == Timeout(condition, locator) || r.error.DriverError?
  {
    if (condition, locator) !in dom.waits then Failure(Timeout(condition, locator))
    else match dom.waits[(condition, locator)]
      case Found(e) => Success(e)
      case TimedOut => Failure(Timeout(condition, locator))
      case Raised(m) => Failure(DriverError(m))
  }

  /** What `find_elements` returns for a locator. */
  function Matches(dom: Dom, locator: Locator): (r: seq<Element>)
    ensures locator !in dom.matches ==> r == []
  {
    if locator in dom.matches then dom.matches[locator] else []
  }

  /** The elements `steps` clicks, in order. */
  function ClicksIn(steps: seq<Action>): (r: seq<Element>)
    ensures r == [] <==> forall i :: 0 <= i < |steps| ==> !steps[i].Click?
  {
    if steps == [] then []
    else (if steps[0].Click? then [steps[0].element] else []) + ClicksIn(steps[1..])
  }

  lemma {:induction false} ClicksInConcat(a: seq<Action>, b: seq<Action>)
    ensures ClicksIn(a + b) == ClicksIn(a) + ClicksIn(b)
  {
    if a == [] {
      assert a + b == b;
    } else {
      assert (a + b)[0] == a[0];
      assert (a + b)[1..] == a[1..] + b;
      ClicksInConcat(a[1..], b);
    }
  }

  /** A Selenium WebDriver session, seen through the calls made on it. */
  class Driver {
    /** The page the browser shows, which the model keeps fixed. */
    const dom: Dom
    /** Every call made on the session so far, oldest first. */
    var trace: seq<Action>

    constructor (dom: Dom)
      ensures this.dom == dom && trace == []
    {
      this.dom := dom;
      trace := [];
    }

    /** `driver.get(url)`. */
    method Get(url: string)
      modifies this
      ensures trace == old(trace) + [Navigate(url)]
    {
      trace := trace + [Navigate(url)];
    }

    /** `driver.find_elements(by, value)`: no waiting, possibly empty. */
    method FindElements(locator: Locator) returns (elements: seq<Element>)
      modifies this
      ensures elements == Matches(dom, locator)
      ensures trace == old(trace) + [FindAll(locator)]
    {
      elements := Matches(dom, locator);
      trace := trace + [FindAll(locator)];
    }

    /** `element.click()`. */
    method ClickElement(e: Element)
      modifies this
      ensures trace == old(trace) + [Click(e)]
    {
      trace := trace + [Click(e)];
    }

    /** `element.clear()`. */
    method ClearElement(e: Element)
      modifies this
      ensures trace == old(trace) + [Clear(e)]
    {
      trace := trace + [Clear(e)];
    }

    /** `element.send_keys(keys)`. */
    method SendKeysTo(e: Element, keys: string)
      modifies this
      ensures trace == old(trace) + [SendKeys(e, keys)]
    {
      trace := trace + [SendKeys(e, keys)];
    }

    /** `element.text`. */
    method TextOf(e: Element) returns (text: string)
      modifies this
      ensures text == e.text
      ensures trace == old(trace) + [ReadText(e)]
    {
      text := e.text;
      trace := trace + [ReadText(e)];
    }
  }

  /** `WebDriverWait(driver, timeout)`: polls the driver until a condition holds or the timeout passes. */
  class WebDriverWait {
    const driver: Driver
    const timeout: int

    constructor (driver: Driver, timeout: int)
      ensures this.driver == driver && this.timeout == timeout
    {
      this.driver := driver;
      this.timeout := timeout;
    }

    /** `until(condition(locator))`: the oracle's answer for that condition, recorded as one wait. */
    method Until(condition: Condition, locator: Locator) returns (r: Result<Element, Failure>)
      modifies driver
      ensures r == Await(driver.dom, condition, locator)
      ensures driver.trace == old(driver.trace) + [Wait(condition, locator, timeout)]
    {
      r := Await(driver.dom, condition, locator);
      driver.trace := driver.trace + [Wait(condition, locator, timeout)];
    }
  }
}
