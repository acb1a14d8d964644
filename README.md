# A verified model of the pytest_and_selenium page objects and settings

The repository is a pytest and Selenium test harness for a demo shop web site.
This project models the small part of it whose behaviour can be stated
exactly:

- `_to_bool` and the four fields of the frozen `Settings` record (`src/config.py`);
- the `BasePage` page object (`src/pages/base_page.py`): base-URL
  normalisation, the URL `open` navigates to, and the explicit-wait helpers
  `find`, `find_visible`, `click`, `type`, `text_of` and `exists`;
- the two concrete page objects, `LoginPage` and `InventoryPage`, with their
  locators.

The browser is abstract. `WebDriver.Driver` holds a fixed oracle (`Dom`) and an
action trace. The oracle says how each explicit wait on each locator ends
(an element, a timeout or another WebDriver exception) and which elements
`find_elements` returns. The trace records every call made on the session:
navigations, waits with the timeout, `find_elements`, clicks, clears,
`send_keys` and text reads. `WebDriver.WebDriverWait.Until` answers from the
oracle and records one wait.

Each page operation is a method of a class (`Base.BasePage`,
`Login.LoginPage`, `Inventory.InventoryPage`). Each method is proved equal to a
pure function `...Run`. That function gives the value the operation returns
or the exception it raises, and the exact calls it appends to the trace. The
properties the code promises are then proved as lemmas about those functions.
Python exceptions are values: `Outcome.Fail` or `Result.Failure` carrying a
`WebDriver.Failure`. An exception ends the operation at the point where
Python would leave it.

`LoginPage(BasePage)` and `InventoryPage(BasePage)` are subclasses in the
source. Here each holds the `BasePage` it extends in a field `base`, and its
methods call `base`'s helpers.

The Python string built-ins the code uses are modelled in `Text`:
- `strip`, `lstrip` and `rstrip` over a set of characters, with Python's
  whitespace set for the argument-less `strip()`;
- `lower` for ASCII letters;
- `int(str)` in base 10: the surrounding spaces `int` skips (`Text.IntSpace`:
  the whitespace of `strip()` except the ASCII separators U+001C to U+001F,
  which make `int` raise), one sign, digits with single
  underscores between them, and `None` where Python raises `ValueError` for
  the syntax of its argument (the digit-count limit of recent Python versions
  is not modelled);
- `str(int)`.

Two behaviours of the settings code matter for the model:
- Settings resolution is not total. `int(os.getenv("DEFAULT_TIMEOUT", "10"))`
  raises `ValueError` on a non-integer value. `Config.Resolve` returns
  `Failure(InvalidTimeout(text))` in exactly that case.
- Nothing bounds the timeout. Zero and negative values parse and are kept.

## Model

| member | source | states |
|---|---|---|
| Text.LStrip | src/pages/base_page.py:42 | `lstrip(chars)` is no longer than its input and does not start with one of `chars` |
| Text.RStrip | src/pages/base_page.py:33 | `rstrip(chars)` is no longer than its input and does not end with one of `chars` |
| Text.Strip | src/config.py:21 | `strip(chars)` is no longer than its input and neither end is one of `chars` |
| Text.LStripPadded | src/pages/base_page.py:42 | lstrip removes exactly a prefix of `chars` placed before a string not starting with one of them |
| Text.RStripPadded | src/pages/base_page.py:33 | rstrip removes exactly a suffix of `chars` placed after a string not ending with one of them |
| Text.StripPadded | src/config.py:21 | strip returns the middle piece of `a + m + b` when `a` and `b` are made of `chars` and `m`'s ends are not |
| Text.LStripSplit | src/pages/base_page.py:42 | the input is the removed prefix, made only of `chars`, followed by the lstrip result |
| Text.RStripSplit | src/pages/base_page.py:33 | the input is the rstrip result followed by the removed suffix, made only of `chars` |
| Text.StripSplit | src/config.py:21 | strip removes a prefix and a suffix made only of `chars`, and keeps the middle |
| Text.StripIgnoresPadding | src/config.py:21 | padding with more of `chars` on either side does not change what strip returns |
| Text.LStripIgnoresPrefix | src/pages/base_page.py:42 | extra leading `chars` do not change what lstrip returns |
| Text.RStripIgnoresSuffix | src/pages/base_page.py:33 | extra trailing `chars` do not change what rstrip returns |
| Text.StripIdempotent | src/config.py:21 | stripping twice gives the same as stripping once |
| Text.LowerChar | src/config.py:35 | lowering a character gives no capital; a capital moves by 32 code points; anything else is kept |
| Text.Lower | src/config.py:35 | `lower()` is lower-case and equal to its input up to case |
| Text.LowerUnique | src/config.py:35 | the lowered string is the only lower-case string equal to the input up to case |
| Text.LowerMatches | src/config.py:21 | for a lower-case word `w`, `t.lower() == w` iff `t` equals `w` up to case |
| Text.CaseBlindWhitespace | src/config.py:21 | two characters equal up to case are both whitespace or both not |
| Text.CaseBlindLStrip | src/config.py:21 | strings equal up to case stay equal up to case after lstrip of whitespace |
| Text.CaseBlindRStrip | src/config.py:21 | strings equal up to case stay equal up to case after rstrip of whitespace |
| Text.IntToDecimal | src/pages/inventory_page.py:35 | `str(n)`: a `-` before the decimal spelling of the absolute value for a negative `n`; its round trip with `int` is `Text.ParseIntOfDecimal` |
| Text.NatToDecimal | src/pages/inventory_page.py:35 | `str(n)` for a natural is non-empty, all digits, and has no leading zero unless it is "0" |
| Text.RemoveUnderscores | src/config.py:37 | dropping underscores never lengthens; from digits and underscores it leaves only digits |
| Text.ParseUnsigned | src/config.py:37 | the unsigned part is accepted exactly when it is digit groups with single underscores |
| Text.ParseSigned | src/config.py:37 | an accepted string is non-empty, and a negative value comes only from a leading `-` |
| Text.DigitsValueOfDecimal | src/pages/inventory_page.py:35 | the digits of `str(n)` denote `n` |
| Text.NotWhitespace | src/config.py:21 | letters, digits and the two signs are not whitespace, neither to `strip()` nor to `int` |
| Text.StripPlain | src/config.py:37 | a string that starts with a digit or a sign and ends with a digit has no space for `int` to skip |
| Text.StripDecimal | src/pages/inventory_page.py:35 | `str(n)` has no space for `int` to skip at either end |
| Text.ParseUnsignedOfDecimal | src/pages/inventory_page.py:35 | the unsigned parse of the decimal spelling of a natural gives it back |
| Text.ParseSignedOfDecimal | src/pages/inventory_page.py:35 | the signed parse of `str(n)` gives back `n`, negative numbers included |
| Text.ParseInt | src/config.py:37 | `int(s)` is the signed parse of `s` without the surrounding spaces `int` skips; its properties are the `Text.ParseInt...` and `Text.ParseSigned...` lemmas |
| Text.ParseIntOfDecimal | src/pages/inventory_page.py:35 | round trip: `int(str(n)) == n` for every integer (Python's digit limit aside, see Left out) |
| Text.ParseIntIgnoresPadding | src/config.py:37 | spaces `int` skips around the argument do not change what `int` returns |
| Text.ParseIntRejectsStrayChar | src/pages/inventory_page.py:35 | once the skipped spaces are removed, a character other than a digit, an underscore or a leading sign makes `int` raise |
| Text.ParseIntOfBlank | src/config.py:37 | an empty string, or one made only of whitespace as `strip()` understands it, makes `int` raise |
| Text.SeparatorNotIntSpace | src/config.py:37 | the separators U+001C to U+001F are whitespace to `strip()` but are not skipped by `int` |
| Text.StripKeepsEnds | src/config.py:37 | a first or last character outside the stripped set survives the strip and stays first or last |
| Text.ParseIntRejectsLeadingSeparator | src/config.py:37 | a separator U+001C to U+001F before the argument makes `int` raise |
| Text.ParseIntRejectsTrailingSeparator | src/config.py:37 | a separator U+001C to U+001F after the argument makes `int` raise |
| Text.RemoveUnderscoresConcat | src/config.py:37 | removing underscores from a concatenation is removing them from each piece, so the other characters stay, in order |
| Text.RemoveUnderscoresOfChar | src/config.py:37 | an underscore is dropped and any other character kept |
| Text.RemoveUnderscoresDropsOne | src/config.py:37 | one underscore between two pieces is dropped |
| Text.DigitsValueLeadingZero | src/config.py:37 | a leading zero does not change the number a digit string denotes |
| Text.DigitsValueLeadingZeros | src/config.py:37 | any number of leading zeros does not change the number a digit string denotes |
| Text.ParseUnsignedLeadingZeros | src/pages/inventory_page.py:35 | zeros in front of the decimal spelling of `m` are accepted and still give `m` |
| Text.JoinDigitGroups | src/config.py:37 | two digit groups joined directly or by one underscore are digit groups |
| Text.ParseUnsignedIgnoresUnderscore | src/config.py:37 | an underscore between two digit groups is accepted and does not change the value |
| Text.ParseSignedPlus | src/config.py:37 | after a `+`, `int` gives the value of the unsigned part, and raises exactly when that part is not digit groups |
| Text.ParseSignedMinus | src/config.py:37 | after a `-`, `int` gives the negated value of the unsigned part, and raises exactly when that part is not digit groups |
| Text.ParseSignedMinusNegatesPlus | src/config.py:37 | `-` and `+` before the same digits are accepted alike and give opposite values |
| Text.ParseIntLeadingZerosExample | src/config.py:37 | `int("007") == 7` |
| Text.ParseIntSignedUnderscoreExample | src/config.py:37 | `int("+1_0") == 10` |
| Text.ParseIntDoubleUnderscoreExample | src/config.py:37 | `int("1__0")` raises |
| Config.TruthySetIsWords | src/config.py:21 | membership in the literal set is being one of the five truthy words |
| Config.LowerInTruthySet | src/config.py:21 | the lowered value is in the set iff it equals a truthy word up to case |
| Config.ToBool | src/config.py:6-21 | an absent value gives the default; a present one is true iff, once stripped, it is a truthy word in any case |
| Config.ToBoolIgnoresDefault | src/config.py:19-21 | for a present value the default does not matter |
| Config.ToBoolIgnoresPadding | src/config.py:21 | whitespace around the value does not change the result |
| Config.ToBoolIgnoresCase | src/config.py:9-21 | two values equal up to case give the same result |
| Config.CaseBlindStrip | src/config.py:21 | values equal up to case stay equal up to case after `strip()` |
| Config.ToBoolOfTruthyWord | src/config.py:9-21 | every truthy word, in any mix of cases, is true |
| Config.ToBoolUpperYes | src/config.py:21 | "YES" is true |
| Config.ToBoolNo | src/config.py:21 | "no" is false even with default true |
| Config.ToBoolEmpty | src/config.py:21 | the empty string is false even with default true |
| Config.StripNoSpace | src/config.py:21 | a non-empty string of letters and digits is unchanged by `strip()` |
| Config.Getenv | src/config.py:36 | the environment lookup `os.getenv(key)`: present iff the key is set, with its value |
| Config.GetenvOr | src/config.py:34-37 | the environment lookup `os.getenv(key, fallback)`: the set value, even if empty, else the fallback |
| Config.GetenvOrIsGetenv | src/config.py:34-37 | `os.getenv(key, fallback)` is `os.getenv(key)` with the fallback in place of `None` |
| Config.Resolve | src/config.py:34-37 | resolution fails iff the timeout text is not an integer; the base URL is the variable or the default; the browser is the lower-cased variable or "chrome"; headless iff HEADLESS is set and truthy; the timeout is the parsed value |
| Config.ResolveReadsOnlyItsVariables | src/config.py:34-37 | two environments agreeing on the four variables give the same settings |
| Config.ResolveDefaults | src/config.py:34-37 | with none of the variables set: "https://www.saucedemo.com", "chrome", not headless, 10 |
| Config.DefaultBrowserIsLower | src/config.py:35 | lowering "chrome" leaves it unchanged |
| Config.DefaultTimeoutParses | src/config.py:37 | `int("10") == 10` |
| Config.ResolveExample | src/config.py:34-37 | the environment with "https://test.local", "FIREFOX", "true" and "15" gives those settings with "firefox" |
| Config.FifteenParses | src/config.py:37 | `int("15") == 15` |
| Config.FirefoxLowered | src/config.py:35 | `"FIREFOX".lower() == "firefox"` |
| WebDriver.Await | src/pages/base_page.py:55 | a wait returns an element iff the oracle has one for that condition and locator; otherwise it raises a timeout or a driver error |
| WebDriver.Matches | src/pages/inventory_page.py:23 | the oracle lookup behind `find_elements`: nothing for a locator the oracle does not list |
| WebDriver.ClicksIn | src/pages/inventory_page.py:25 | the elements a trace clicks, in order: none exactly when no call of the trace is a click |
| WebDriver.ClicksInConcat | src/pages/login_page.py:25-27 | the clicks of two traces in sequence are the first's clicks followed by the second's |
| WebDriver.Driver.constructor | src/pages/base_page.py:22-34 | a new session shows the given page and has an empty trace |
| WebDriver.Driver.Get | src/pages/base_page.py:43 | `get(url)` appends one navigation to `url` and nothing else |
| WebDriver.Driver.FindElements | src/pages/inventory_page.py:23 | `find_elements` returns the oracle's matches and appends one lookup, with no wait |
| WebDriver.Driver.ClickElement | src/pages/base_page.py:77 | `click()` appends one click on that element |
| WebDriver.Driver.ClearElement | src/pages/base_page.py:90 | `clear()` appends one clear of that element |
| WebDriver.Driver.SendKeysTo | src/pages/base_page.py:91 | `send_keys(text)` appends one send of that text to that element |
| WebDriver.Driver.TextOf | src/pages/base_page.py:103 | `.text` returns the element's text and appends one read |
| WebDriver.WebDriverWait.constructor | src/pages/base_page.py:34 | the wait polls the given driver with the given timeout |
| WebDriver.WebDriverWait.Until | src/pages/base_page.py:55 | `until` returns the oracle's answer and appends one wait with the condition, locator and timeout |
| Base.NormalizeBaseUrl | src/pages/base_page.py:33 | the stored base URL does not end with "/", is a prefix of the given one, and what was removed is all "/" |
| Base.NormalizeBaseUrlIdempotent | src/pages/base_page.py:33 | normalising a normalised base URL leaves it unchanged |
| Base.NormalizeIgnoresTrailingSlashes | src/pages/base_page.py:33 | more trailing slashes on the given base URL give the same stored base URL |
| Base.OpenUrl | src/pages/base_page.py:42 | the URL `open(path)` navigates to: the base, one "/", the path less its leading slashes; its properties are the `Base.Open...` lemmas |
| Base.OpenIgnoresLeadingSlashes | src/pages/base_page.py:42 | `open("x")`, `open("/x")` and `open("//x")` target the same URL |
| Base.OpenJoinsWithOneSlash | src/pages/base_page.py:33-42 | the target is the stored base, one "/", then the path less its leading slashes, with no "/" on either side of the join |
| Base.OpenRoot | src/pages/base_page.py:42 | `open("")` targets the base URL followed by "/" |
| Base.OpenLoginExample | src/pages/base_page.py:33-42 | base "https://example.com" and path "login" give "https://example.com/login" |
| Base.OpenSlashedOnBothSides | src/pages/base_page.py:33-42 | a base with one trailing "/" and a path with one leading "/" still meet at a single "/" |
| Base.FindRun | src/pages/base_page.py:45-67 | `find` and `find_visible`: one wait for presence or visibility, returning its element or raising its exception |
| Base.ClickRun | src/pages/base_page.py:69-77 | `click`: one clickable wait, then a click on its element; a failed wait raises and clicks nothing |
| Base.TypeRun | src/pages/base_page.py:79-91 | `type`: a visibility wait, then a clear when asked, then one send of the text; a failed wait raises and stops |
| Base.TextOfRun | src/pages/base_page.py:93-103 | `text_of`: a visibility wait, then one read of the element's text; a failed wait raises and stops |
| Base.ExistsRun | src/pages/base_page.py:105-119 | `exists`: the presence wait of `find`, its success as a boolean, every exception caught |
| Base.ExistsIffFindSucceeds | src/pages/base_page.py:105-119 | `exists` is true iff `find` returns an element, makes the same single wait, and turns every failure into false |
| Base.MissingElement | src/pages/base_page.py:45-119 | for an element that never appears, `exists` is false and `find`, `find_visible`, `click`, `type` and `text_of` raise a timeout after one wait, doing nothing else |
| Base.ClickOnlyAfterWait | src/pages/base_page.py:69-77 | `click` succeeds iff the clickable wait does, clicks only that wait's element, once, after the wait; a failed wait clicks nothing and its exception is raised |
| Base.TypeClearsThenSends | src/pages/base_page.py:79-91 | `type` waits for visibility, clears when asked, then sends the text once; without a visible element it raises and does nothing else |
| Base.TextOfReturnsText | src/pages/base_page.py:93-103 | `text_of` returns the visible element's text unchanged and clicks nothing, or raises the wait's exception |
| Base.BasePage.constructor | src/pages/base_page.py:22-34 | the page keeps the driver, the normalised base URL and a new wait on that driver with the given timeout, 10 by default |
| Base.BasePage.Open | src/pages/base_page.py:36-43 | `open(path)` appends exactly one navigation, to the joined URL |
| Base.BasePage.Find | src/pages/base_page.py:45-55 | `find` returns or raises what the presence wait does, and appends that wait |
| Base.BasePage.FindVisible | src/pages/base_page.py:57-67 | `find_visible` returns or raises what the visibility wait does, and appends that wait |
| Base.BasePage.Click | src/pages/base_page.py:69-77 | `click` behaves as `ClickRun`: its outcome and the calls it appends |
| Base.BasePage.Type | src/pages/base_page.py:79-91 | `type` behaves as `TypeRun`, with `clear` true by default |
| Base.BasePage.TextOf | src/pages/base_page.py:93-103 | `text_of` behaves as `TextOfRun` |
| Base.BasePage.Exists | src/pages/base_page.py:105-119 | `exists` never raises and behaves as `ExistsRun` |
| Login.LoginAsRun | src/pages/login_page.py:18-27 | `login_as`: type the username, type the password, click the button, each only if the call before it returned |
| Login.ErrorMessageRun | src/pages/login_page.py:29-35 | `error_message`: `text_of` on `[data-test='error']` |
| Login.LoginAsOrder | src/pages/login_page.py:18-27 | with both fields visible and the button clickable, `login_as` clears and fills the username, clears and fills the password, clicks the button, and makes no other call |
| Login.LoginAsClicksOnlyTheButton | src/pages/login_page.py:27 | `login_as` clicks exactly the login button's element, once, when it returns, and nothing when it raises |
| Login.TypeClicksNothing | src/pages/login_page.py:25-26 | typing into a field clicks nothing, with or without clearing it first |
| Login.LoginAsStopsAtMissingUsername | src/pages/login_page.py:25 | without a visible username field, `login_as` raises that timeout after one wait and types nothing |
| Login.ErrorMessageReadsBanner | src/pages/login_page.py:29-35 | `error_message` waits for `[data-test='error']` and returns its text, or raises that wait's exception |
| Login.LoginPage.constructor | src/pages/login_page.py:6 | a login page is a new base page over the driver, base URL and timeout |
| Login.LoginPage.OpenLogin | src/pages/login_page.py:14-16 | `open_login` appends exactly one navigation, to the base URL followed by "/" |
| Login.LoginPage.LoginAs | src/pages/login_page.py:18-27 | `login_as` behaves as `LoginAsRun`: type, type, click, stopping at the first exception |
| Login.LoginPage.ErrorMessage | src/pages/login_page.py:29-35 | `error_message` behaves as `text_of` on the error banner |
| Inventory.IntOf | src/pages/inventory_page.py:35 | `int(text)` raises ValueError carrying that text |
| Inventory.IsLoadedRun | src/pages/inventory_page.py:13-15 | `is_loaded`: `exists` on `.title` |
| Inventory.AddFirstItemRun | src/pages/inventory_page.py:17-25 | `add_first_item_to_cart`: one `find_elements` with no wait, an assertion failure when it is empty, else one click on element 0 |
| Inventory.CartCountRun | src/pages/inventory_page.py:27-35 | `cart_count`: 0 when `exists` on the badge is false, else `int` of `text_of` on it, raising what either raises |
| Inventory.IsLoadedIsTitleExists | src/pages/inventory_page.py:13-15 | `is_loaded` is true iff the `.title` presence wait finds an element, after that single wait |
| Inventory.AddFirstItemClicksFirst | src/pages/inventory_page.py:17-25 | it fails by assertion iff no button matches, and then clicks nothing; otherwise it clicks button 0 once and no other; it never waits |
| Inventory.CartCountWithoutBadge | src/pages/inventory_page.py:33-34 | without a badge the count is 0, after one presence wait and with no text read |
| Inventory.CartCountReadsBadge | src/pages/inventory_page.py:35 | a visible badge showing `str(n)` gives `n`, so "2" gives 2 |
| Inventory.CartCountOfVisibleBadge | src/pages/inventory_page.py:27-35 | with a badge present and visible, the count is `int` of its text, after the two waits and one read |
| Inventory.CartCountOfHiddenBadge | src/pages/inventory_page.py:33-35 | a badge present but never visible makes the count raise the visibility wait's exception, not return 0, with no text read |
| Inventory.IntOfDecimal | src/pages/inventory_page.py:35 | `int(str(n))` succeeds with `n` |
| Inventory.CartCountRejectsNonNumeric | src/pages/inventory_page.py:35 | badge text that is not an integer makes the count raise ValueError with that text |
| Inventory.InventoryPage.constructor | src/pages/inventory_page.py:6 | an inventory page is a new base page over the driver, base URL and timeout |
| Inventory.InventoryPage.IsLoaded | src/pages/inventory_page.py:13-15 | `is_loaded` behaves as `exists` on the title |
| Inventory.InventoryPage.AddFirstItemToCart | src/pages/inventory_page.py:17-25 | `add_first_item_to_cart` behaves as `AddFirstItemRun` |
| Inventory.InventoryPage.CartCount | src/pages/inventory_page.py:27-35 | `cart_count` behaves as `CartCountRun` |

## Left out

- Browser start-up, options, teardown and the pytest fixtures in `conftest.py` are test-runner plumbing. They are not part of this model.
- The reachability probe before a run is network I/O. Screenshots on failure are filesystem I/O. Neither is modelled.
- The e2e tests run against a live site. They are not modelled.
- The credential-map settings (`_parse_users_from_env`, `e2e_users`, `e2e_default_user`) are used by the tests, but `src/config.py` does not define them. There is nothing to model them from.
- Settings are read from the process environment at class-definition time, and `settings` is a module-level singleton. The model resolves settings as a function of an environment map instead.
- The `Settings` record cannot be built from explicit arguments in the model. Only its resolution from the environment is modelled.
- Wait timing is not modelled. A wait's outcome within its timeout comes from the oracle, and the timeout is only recorded in the trace.
- Selenium's presence, visibility and clickability checks are foreign code. Their answers come from the oracle, and nothing relates the three.
- The page never reacts to actions: the oracle is fixed. Navigation, form submission and adding to the cart do not change later answers.
- `get`, `click`, `clear`, `send_keys` and `.text` always succeed in the model. Exceptions they could raise, such as a stale element, are not modelled. Only waits can fail.
- Text.Lower: lowers ASCII letters only. Python's full Unicode case mapping is not modelled.
- Text.ParseInt: Python's limit on the number of digits in integer and string conversion (4300 by default since Python 3.11 and the 2022 security releases, configurable at run time) is not modelled: `int` of a longer decimal string and `str` of a larger number raise `ValueError` there and succeed here. Text.ParseIntOfDecimal and Text.IntToDecimal hold only below that limit.
- Text.ParseSigned: accepts ASCII digits only, while Python's `int` also accepts other Unicode decimal digits.
