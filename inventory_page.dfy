/** `InventoryPage`: the product listing, with its title, add-to-cart buttons and cart badge. */
module Inventory {
  import opened Wrappers
  import opened Text
  import opened WebDriver
  import opened Base

  const Title: Locator := Locator(CssSelector, ".title")
  const AddToCartButtons: Locator := Locator(CssSelector, "button.btn_inventory")
  const CartBadge: Locator := Locator(CssSelector, ".shopping_cart_badge")

  const NoItemsMessage: string := "No inventory items found"

  /** `is_loaded()`: `exists` on the title. */
  function IsLoadedRun(dom: Dom, timeout: int): Run<bool> {
    ExistsRun(dom, timeout, Title)
  }

  /** `add_first_item_to_cart()`: fetch the buttons without waiting, assert there is one, click the first. */
  function AddFirstItemRun(dom: Dom): Run<Outcome<Failure>> {
    var buttons := Matches(dom, AddToCartButtons);
    if |buttons| == 0 then Run(Fail(AssertionFailed(NoItemsMessage)), [FindAll(AddToCartButtons)])
    else Run(Pass, [FindAll(AddToCartButtons), Click(buttons[0])])
  }

  /** `int(text)`: the integer, or the ValueError it raises. */
  function IntOf(text: string): (r: Result<int, Failure>)
    ensures r.Failure? ==> r.error == NotAnInteger(text)
  {
    match ParseInt(text)
    case None => Failure(NotAnInteger(text))
    case Some(n) => Success(n)
  }

  /** `cart_count()`: 0 without a badge, else `int` of the badge's visible text. */
  function CartCountRun(dom: Dom, timeout: int): Run<Result<int, Failure>> {
    var probe := ExistsRun(dom, timeout, CartBadge);
    if !probe.result then Run(Success(0), probe.steps)
    else
      var text := TextOfRun(dom, timeout, CartBadge);
      var steps := probe.steps + text.steps;
      match text.result
      case Failure(f) => Run(Failure(f), steps)
      case Success(s) => Run(IntOf(s), steps)
  }

  /** `is_loaded()` answers what `exists` answers for the title, by the same single wait. */
  lemma IsLoadedIsTitleExists(dom: Dom, timeout: int)
    ensures IsLoadedRun(dom, timeout).result <==> Await(dom, Presence, Title).Success?
    ensures IsLoadedRun(dom, timeout).steps == [Wait(Presence, Title, timeout)]
  {
    ExistsIffFindSucceeds(dom, timeout, Title);
  }

  /**
   * Adding to the cart fails by assertion exactly when no button matches, and
   * then clicks nothing; otherwise it clicks the first button once and no
   * other. It never waits.
   */
  lemma AddFirstItemClicksFirst(dom: Dom)
    ensures var run, buttons := AddFirstItemRun(dom), Matches(dom, AddToCartButtons);
      && (run.result.Fail? <==> buttons == [])
      && (run.result.Fail? ==> run.result.error == AssertionFailed(NoItemsMessage))
      && ClicksIn(run.steps) == (if buttons == [] then [] else [buttons[0]])
      && forall i :: 0 <= i < |run.steps| ==> !run.steps[i].Wait?
  {
    var buttons := Matches(dom, AddToCartButtons);
    if buttons != [] {
      assert AddFirstItemRun(dom).steps == [FindAll(AddToCartButtons)] + [Click(buttons[0])];
      ClicksInConcat([FindAll(AddToCartButtons)], [Click(buttons[0])]);
    }
  }

  /** Without a badge the count is 0, after one presence wait and without reading any text. */
  lemma CartCountWithoutBadge(dom: Dom, timeout: int)
    requires Await(dom, Presence, CartBadge).Failure?
    ensures CartCountRun(dom, timeout) == Run(Success(0), [Wait(Presence, CartBadge, timeout)])
  {
  }

  /** A visible badge showing the decimal spelling of `n` gives the count `n`; "2" gives 2. */
  lemma CartCountReadsBadge(dom: Dom, timeout: int, badge: Element, n: int)
    requires Await(dom, Presence, CartBadge).Success?
    requires Await(dom, Visibility, CartBadge) == Success(badge)
    requires badge.text == IntToDecimal(n)
    ensures CartCountRun(dom, timeout) == Run(Success(n), [
      Wait(Presence, CartBadge, timeout), Wait(Visibility, CartBadge, timeout), ReadText(badge)])
  {
    IntOfDecimal(n);
    assert IntOf(badge.text) == Success(n);
    CartCountOfVisibleBadge(dom, timeout, badge);
  }

  lemma CartCountOfVisibleBadge(dom: Dom, timeout: int, badge: Element)
    requires Await(dom, Presence, CartBadge).Success?
    requires Await(dom, Visibility, CartBadge) == Success(badge)
    ensures CartCountRun(dom, timeout) == Run(IntOf(badge.text), [
      Wait(Presence, CartBadge, timeout), Wait(Visibility, CartBadge, timeout), ReadText(badge)])
  {
  }

  /**
   * A badge present in the DOM but never visible does not give 0: the count
   * raises the visibility wait's exception, after both waits and with no text read.
   */
  lemma CartCountOfHiddenBadge(dom: Dom, timeout: int)
    requires Await(dom, Presence, CartBadge).Success?
    requires Await(dom, Visibility, CartBadge).Failure?
    ensures CartCountRun(dom, timeout) ==
      Run(Failure(Await(dom, Visibility, CartBadge).error), [Wait(Presence, CartBadge, timeout), Wait(Visibility, CartBadge, timeout)])
  {
  }

  lemma IntOfDecimal(n: int)
    ensures IntOf(IntToDecimal(n)) == Success(n)
  {
    ParseIntOfDecimal(n);
  }

  /** A visible badge whose text is not an integer makes the count raise ValueError with that text. */
  lemma CartCountRejectsNonNumeric(dom: Dom, timeout: int, badge: Element)
    requires Await(dom, Presence, CartBadge).Success?
    requires Await(dom, Visibility, CartBadge) == Success(badge)
    requires ParseInt(badge.text).None?
    ensures CartCountRun(dom, timeout).result == Failure(NotAnInteger(badge.text))
  {
    assert IntOf(badge.text).Failure?;
  }

  class InventoryPage {
    const base: BasePage

    ghost predicate Valid() {
      base.Valid()
    }

    /** `InventoryPage(driver, base_url, default_timeout=10)`. */
    constructor (driver: Driver, baseUrl: string, defaultTimeout: int := 10)
      ensures Valid() && fresh(base) && fresh(base.wait)
      ensures base.driver == driver && base.baseUrl == NormalizeBaseUrl(baseUrl) && base.wait.timeout == defaultTimeout
    {
      base := new BasePage(driver, baseUrl, defaultTimeout);
    }

    /** `is_loaded()`. */
    method IsLoaded() returns (b: bool)
      requires Valid()
      modifies base.driver
      ensures b == IsLoadedRun(base.driver.dom, base.wait.timeout).result
      ensures base.driver.trace == old(base.driver.trace) + IsLoadedRun(base.driver.dom, base.wait.timeout).steps
    {
      b := base.Exists(Title);
    }

    /** `add_first_item_to_cart()`. */
    method AddFirstItemToCart() returns (r: Outcome<Failure>)
      requires Valid()
      modifies base.driver
      ensures r == AddFirstItemRun(base.driver.dom).result
      ensures base.driver.trace == old(base.driver.trace) + AddFirstItemRun(base.driver.dom).steps
    {
      var buttons := base.driver.FindElements(AddToCartButtons);
      if |buttons| == 0 {
        return Fail(AssertionFailed(NoItemsMessage));
      }
      base.driver.ClickElement(buttons[0]);
      return Pass;
    }

    /** `cart_count()`. */
    method CartCount() returns (r: Result<int, Failure>)
      requires Valid()
      modifies base.driver
      ensures r == CartCountRun(base.driver.dom, base.wait.timeout).result
      ensures base.driver.trace == old(base.driver.trace) + CartCountRun(base.driver.dom, base.wait.timeout).steps
    {
      var present := base.Exists(CartBadge);
      if !present {
        return Success(0);
      }
      var text := base.TextOf(CartBadge);
      match text
      case Failure(f) =>
        return Failure(f);
      case Success(s) =>
        return IntOf(s);
    }
  }
}
