/**
 * Runtime settings: the boolean parsing helper `_to_bool` and the four fields
 * of the frozen `Settings` record, resolved from an environment snapshot.
 */
module Config {
  import opened Wrappers
  import opened Text

  /** The lower-case spellings `_to_bool` accepts as true. */
  const TruthyWords: seq<string> := ["1", "true", "yes", "y", "on"]

  /**
   * Reference meaning of a true flag: once surrounding whitespace is removed,
   * the value is one of the truthy words in any mix of upper and lower case.
   */
  ghost predicate IsTruthy(v: string) {
    exists k :: 0 <= k < |TruthyWords| && EqualsIgnoreCase(Strip(v, Whitespace), TruthyWords[k])
  }

  /** The set `_to_bool` tests membership in. */
  const TruthySet: set<string> := {"1", "true", "yes", "y", "on"}

  lemma TruthySetIsWords(x: string)
    ensures x in TruthySet <==> exists k :: 0 <= k < |TruthyWords| && x == TruthyWords[k]
  {
    if x == "1" { assert x == TruthyWords[0]; }
    if x == "true" { assert x == TruthyWords[1]; }
    if x == "yes" { assert x == TruthyWords[2]; }
    if x == "y" { assert x == TruthyWords[3]; }
    if x == "on" { assert x == TruthyWords[4]; }
  }

  lemma LowerInTruthySet(t: string)
    ensures Lower(t) in TruthySet <==>
            exists k :: 0 <= k < |TruthyWords| && EqualsIgnoreCase(t, TruthyWords[k])
  {
    TruthySetIsWords(Lower(t));
    forall k | 0 <= k < |TruthyWords|
      ensures Lower(t) == TruthyWords[k] <==> EqualsIgnoreCase(t, TruthyWords[k])
    {
      LowerMatches(t, TruthyWords[k]);
    }
  }

  /**
   * `_to_bool(value, default)`: an absent value gives the default; a present
   * one is true exactly when it is a truthy word, whatever the default.
   */
  function ToBool(value: Option<string>, default: bool): (r: bool)
    ensures value.None? ==> r == default
    ensures value.Some? ==> (r <==> IsTruthy(value.value))
  {
    match value
    case None => default
    case Some(v) =>
      LowerInTruthySet(Strip(v, Whitespace));
      Lower(Strip(v, Whitespace)) in TruthySet
  }

  /** For a present value the default is never consulted. */
  lemma ToBoolIgnoresDefault(v: string, d1: bool, d2: bool)
    ensures ToBool(Some(v), d1) == ToBool(Some(v), d2)
  {
  }

  /** Surrounding whitespace does not change the parsed flag. */
  lemma ToBoolIgnoresPadding(a: string, v: string, b: string, d: bool)
    requires AllIn(a, Whitespace) && AllIn(b, Whitespace)
    ensures ToBool(Some(a + v + b), d) == ToBool(Some(v), d)
  {
    StripIgnoresPadding(a, v, b, Whitespace);
  }

  /** Two values that differ only in the case of their letters parse alike. */
  lemma ToBoolIgnoresCase(v: string, w: string, d: bool)
    requires EqualsIgnoreCase(v, w)
    ensures ToBool(Some(v), d) == ToBool(Some(w), d)
  {
    var sv, sw := Strip(v, Whitespace), Strip(w, Whitespace);
    CaseBlindStrip(v, w);
    forall k | 0 <= k < |TruthyWords|
      ensures EqualsIgnoreCase(sv, TruthyWords[k]) <==> EqualsIgnoreCase(sw, TruthyWords[k])
    {
    }
  }

  /** Changing the case of ASCII letters changes no whitespace, so it commutes with strip. */
  lemma CaseBlindStrip(v: string, w: string)
    requires EqualsIgnoreCase(v, w)
    ensures EqualsIgnoreCase(Strip(v, Whitespace), Strip(w, Whitespace))
  {
    CaseBlindLStrip(v, w);
    CaseBlindRStrip(LStrip(v, Whitespace), LStrip(w, Whitespace));
  }

  /** Every spelling of a truthy word, in any case and without padding, parses as true. */
  lemma ToBoolOfTruthyWord(v: string, k: nat, d: bool)
    requires k < |TruthyWords| && EqualsIgnoreCase(v, TruthyWords[k])
    ensures ToBool(Some(v), d)
  {
    var w := TruthyWords[k];
    assert forall i :: 0 <= i < |w| ==> 'a' <= w[i] <= 'z' || IsDigit(w[i]);
    forall i | 0 <= i < |v| ensures 'a' <= LowerChar(v[i]) <= 'z' || IsDigit(v[i]) {
      assert LowerChar(v[i]) == LowerChar(w[i]);
    }
    StripNoSpace(v);
  }

  /** The unit tests' case-insensitive case: "YES" is true. */
  lemma ToBoolUpperYes()
    ensures ToBool(Some("YES"), false)
  {
    ToBoolOfTruthyWord("YES", 2, false);
  }

  /** The unit tests' false case: "no" is false even with default true. */
  lemma ToBoolNo()
    ensures !ToBool(Some("no"), true)
  {
    StripNoSpace("no");
    forall k | 0 <= k < |TruthyWords| ensures !EqualsIgnoreCase("no", TruthyWords[k]) {
      if k == 4 {
        assert LowerChar("no"[0]) != LowerChar(TruthyWords[4][0]);
      } else {
        assert |TruthyWords[k]| != 2;
      }
    }
    assert !IsTruthy("no");
  }

  /** The empty string is present, so it is false whatever the default. */
  lemma ToBoolEmpty()
    ensures !ToBool(Some(""), true)
  {
    assert Strip("", Whitespace) == "";
  }

  /** A string of letters and digits has nothing to strip. */
  lemma StripNoSpace(s: string)
    requires s != [] && forall i :: 0 <= i < |s| ==> 'a' <= LowerChar(s[i]) <= 'z' || IsDigit(s[i])
    ensures Strip(s, Whitespace) == s
  {
    NotWhitespace(s[0]);
    NotWhitespace(s[|s| - 1]);
    assert [] + s + [] == s;
    StripPadded([], s, [], Whitespace);
  }

  // ---------------------------------------------------------------- Settings

  /** An environment snapshot: the variables that are set, with their values. */
  type Environment = map<string, string>

  /** `os.getenv(key)`. */
  function Getenv(env: Environment, key: string): (r: Option<string>)
    ensures r.Some? <==> key in env
    ensures r.Some? ==> r.value == env[key]
  {
    if key in env then Some(env[key]) else None
  }

  /** `os.getenv(key, fallback)`: a variable set to the empty string is still set. */
  function GetenvOr(env: Environment, key: string, fallback: string): (r: string)
    ensures key in env ==> r == env[key]
    ensures key !in env ==> r == fallback
  {
    if key in env then env[key] else fallback
  }

  /** The two `os.getenv` forms agree: with a fallback is without one, the fallback replacing `None`. */
  lemma GetenvOrIsGetenv(env: Environment, key: string, fallback: string)
    ensures GetenvOr(env, key, fallback) == if Getenv(env, key).Some? then Getenv(env, key).value else fallback
  {
  }

  const DefaultBaseUrl: string := "https://www.saucedemo.com"
  const DefaultBrowser: string := "chrome"
  const DefaultTimeoutText: string := "10"

  /** The frozen settings record. */
  datatype Settings = Settings(baseUrl: string, browser: string, headless: bool, defaultTimeout: int)

  /** Resolution fails only where `int(os.getenv("DEFAULT_TIMEOUT", "10"))` raises ValueError. */
  datatype ConfigError = InvalidTimeout(text: string)

  /**
   * The settings an environment yields: each field is its variable's value or
   * the default; the browser name is lower-cased, the headless flag parsed by
   * `_to_bool` with default false, the timeout parsed as a base-10 integer.
   */
  function Resolve(env: Environment): (r: Result<Settings, ConfigError>)
    ensures var t := GetenvOr(env, "DEFAULT_TIMEOUT", DefaultTimeoutText);
      r.Failure? <==> ParseInt(t).None?
    ensures r.Failure? ==> r.error == InvalidTimeout(GetenvOr(env, "DEFAULT_TIMEOUT", DefaultTimeoutText))
    ensures r.Success? ==>
      && r.value.baseUrl == GetenvOr(env, "BASE_URL", DefaultBaseUrl)
      && IsLowerCase(r.value.browser)
      && EqualsIgnoreCase(r.value.browser, GetenvOr(env, "BROWSER", DefaultBrowser))
      && (r.value.headless <==> "HEADLESS" in env && IsTruthy(env["HEADLESS"]))
      && ParseInt(GetenvOr(env, "DEFAULT_TIMEOUT", DefaultTimeoutText)) == Some(r.value.defaultTimeout)
  {
    var baseUrl := GetenvOr(env, "BASE_URL", DefaultBaseUrl);
    var browser := Lower(GetenvOr(env, "BROWSER", DefaultBrowser));
    var headless := ToBool(Getenv(env, "HEADLESS"), false);
    var timeoutText := GetenvOr(env, "DEFAULT_TIMEOUT", DefaultTimeoutText);
    match ParseInt(timeoutText)
    case None => Failure(InvalidTimeout(timeoutText))
    case Some(t) => Success(Settings(baseUrl, browser, headless, t))
  }

  /** Settings depend on the four variables they read and on nothing else. */
  lemma ResolveReadsOnlyItsVariables(e1: Environment, e2: Environment)
    requires forall k :: k in ["BASE_URL", "BROWSER", "HEADLESS", "DEFAULT_TIMEOUT"] ==>
      Getenv(e1, k) == Getenv(e2, k)
    ensures Resolve(e1) == Resolve(e2)
  {
    assert Getenv(e1, "BASE_URL") == Getenv(e2, "BASE_URL");
    assert Getenv(e1, "BROWSER") == Getenv(e2, "BROWSER");
    assert Getenv(e1, "HEADLESS") == Getenv(e2, "HEADLESS");
    assert Getenv(e1, "DEFAULT_TIMEOUT") == Getenv(e2, "DEFAULT_TIMEOUT");
  }

  /** With none of the variables set, every field takes its default. */
  lemma ResolveDefaults(env: Environment)
    requires "BASE_URL" !in env && "BROWSER" !in env && "HEADLESS" !in env && "DEFAULT_TIMEOUT" !in env
    ensures Resolve(env) == Success(Settings(DefaultBaseUrl, "chrome", false, 10))
  {
    assert GetenvOr(env, "DEFAULT_TIMEOUT", DefaultTimeoutText) == DefaultTimeoutText;
    DefaultTimeoutParses();
    assert GetenvOr(env, "BROWSER", DefaultBrowser) == DefaultBrowser;
    DefaultBrowserIsLower();
    assert Getenv(env, "HEADLESS") == None;
  }

  lemma DefaultBrowserIsLower()
    ensures Lower(DefaultBrowser) == DefaultBrowser
  {
    assert IsLowerCase(DefaultBrowser);
    LowerUnique(DefaultBrowser, DefaultBrowser);
  }

  lemma DefaultTimeoutParses()
    ensures ParseInt(DefaultTimeoutText) == Some(10)
  {
    assert NatToDecimal(1) == "1";
    assert IntToDecimal(10) == DefaultTimeoutText;
    ParseIntOfDecimal(10);
  }

  /** The environment of the unit test: every field is read from its variable, the browser lower-cased. */
  lemma ResolveExample()
    ensures Resolve(map["BASE_URL" := "https://test.local", "BROWSER" := "FIREFOX",
                        "HEADLESS" := "true", "DEFAULT_TIMEOUT" := "15"])
         == Success(Settings("https://test.local", "firefox", true, 15))
  {
    var env := map["BASE_URL" := "https://test.local", "BROWSER" := "FIREFOX",
                   "HEADLESS" := "true", "DEFAULT_TIMEOUT" := "15"];
    assert GetenvOr(env, "BASE_URL", DefaultBaseUrl) == "https://test.local";
    assert GetenvOr(env, "DEFAULT_TIMEOUT", DefaultTimeoutText) == "15";
    assert GetenvOr(env, "BROWSER", DefaultBrowser) == "FIREFOX";
    assert Getenv(env, "HEADLESS") == Some("true");
    FifteenParses();
    FirefoxLowered();
    ToBoolOfTruthyWord("true", 1, false);
  }

  lemma FifteenParses()
    ensures ParseInt("15") == Some(15)
  {
    assert NatToDecimal(1) == "1";
    assert IntToDecimal(15) == "15";
    ParseIntOfDecimal(15);
  }

  lemma FirefoxLowered()
    ensures Lower("FIREFOX") == "firefox"
  {
    assert IsLowerCase("firefox") && EqualsIgnoreCase("firefox", "FIREFOX");
    LowerUnique("FIREFOX", "firefox");
  }
}
