/**
 * The Python string built-ins the core relies on: `str.strip`, `str.lstrip`,
 * `str.rstrip` (with and without a set of characters), `str.lower`, `int(str)`
 * and `str(int)`. Case mapping is modelled for ASCII letters only, and `int`
 * for ASCII decimal digits only.
 */
module Text {
  import opened Wrappers

  /** The characters for which Python's `str.isspace()` holds; what `strip()` with no argument removes. */
  const Whitespace: set<char> := {
    ' ', '\t', '\n', '\r', '\U{B}', '\U{C}', '\U{1C}', '\U{1D}', '\U{1E}', '\U{1F}', '\U{85}', '\U{A0}',
    '\U{1680}', '\U{2000}', '\U{2001}', '\U{2002}', '\U{2003}', '\U{2004}', '\U{2005}', '\U{2006}',
    '\U{2007}', '\U{2008}', '\U{2009}', '\U{200A}', '\U{2028}', '\U{2029}', '\U{202F}', '\U{205F}', '\U{3000}'
  }

  /**
   * The characters `int()` skips around its argument: the ASCII space, tab,
   * line feed, vertical tab, form feed and carriage return, and the non-ASCII
   * characters of `Whitespace`. The ASCII separators U+001C to U+001F, which
   * `strip()` removes, are not skipped: they make `int()` raise.
   */
  const IntSpace: set<char> := {
    ' ', '\t', '\n', '\r', '\U{B}', '\U{C}', '\U{85}', '\U{A0}',
    '\U{1680}', '\U{2000}', '\U{2001}', '\U{2002}', '\U{2003}', '\U{2004}', '\U{2005}', '\U{2006}',
    '\U{2007}', '\U{2008}', '\U{2009}', '\U{200A}', '\U{2028}', '\U{2029}', '\U{202F}', '\U{205F}', '\U{3000}'
  }

  /** Every character of `s` is one of `chars`. */
  predicate AllIn(s: string, chars: set<char>) {
    forall i :: 0 <= i < |s| ==> s[i] in chars
  }

  /** `s.lstrip(chars)`: the longest suffix of `s` that does not start with one of `chars`. */
  function LStrip(s: string, chars: set<char>): (r: string)
    ensures |r| <= |s|
    ensures r == [] || r[0] !in chars
  {
    if |s| > 0 && s[0] in chars then
      LStrip(s[1..], chars)
    else
      s
  }

  /** `s.rstrip(chars)`: the longest prefix of `s` that does not end with one of `chars`. */
  function RStrip(s: string, chars: set<char>): (r: string)
    ensures |r| <= |s|
    ensures r == [] || r[|r| - 1] !in chars
  {
    if |s| > 0 && s[|s| - 1] in chars then
      RStrip(s[..|s| - 1], chars)
    else
      s
  }

  /** `s.strip(chars)`: both ends of `s` freed of `chars`. */
  function Strip(s: string, chars: set<char>): (r: string)
    ensures |r| <= |s|
    ensures r == [] || (r[0] !in chars && r[|r| - 1] !in chars)
  {
    var l := LStrip(s, chars);
    var r := RStrip(l, chars);
    assert r != [] ==> r[0] == l[0] by {
      var post := RStripSplit(l, chars);
      assert l == r + post;
    }
    r
  }

  lemma {:induction false} LStripPadded(a: string, t: string, chars: set<char>)
    requires AllIn(a, chars)
    requires t == [] || t[0] !in chars
    ensures LStrip(a + t, chars) == t
  {
    if a == [] {
      assert a + t == t;
    } else {
      assert (a + t)[0] == a[0];
      assert (a + t)[1..] == a[1..] + t;
      LStripPadded(a[1..], t, chars);
    }
  }

  lemma {:induction false} RStripPadded(t: string, b: string, chars: set<char>)
    requires AllIn(b, chars)
    requires t == [] || t[|t| - 1] !in chars
    ensures RStrip(t + b, chars) == t
  {
    if b == [] {
      assert t + b == t;
    } else {
      assert (t + b)[|t + b| - 1] == b[|b| - 1];
      assert (t + b)[..|t + b| - 1] == t + b[..|b| - 1];
      RStripPadded(t, b[..|b| - 1], chars);
    }
  }

  /**
   * Strip is determined by its two properties: whatever is put around a piece
   * whose ends are not in `chars`, using only `chars`, is removed again.
   */
  lemma StripPadded(a: string, m: string, b: string, chars: set<char>)
    requires AllIn(a, chars) && AllIn(b, chars)
    requires m == [] || (m[0] !in chars && m[|m| - 1] !in chars)
    ensures Strip(a + m + b, chars) == m
  {
    if m == [] {
      assert a + m + b == (a + b) + [];
      LStripPadded(a + b, [], chars);
    } else {
      assert a + m + b == a + (m + b);
      LStripPadded(a, m + b, chars);
      RStripPadded(m, b, chars);
    }
  }

  lemma AllInConcat(a: string, b: string, chars: set<char>)
    requires AllIn(a, chars) && AllIn(b, chars)
    ensures AllIn(a + b, chars)
  {
  }

  lemma Regroup(a: string, pre: string, r: string, post: string, b: string)
    ensures a + (pre + (r + post)) + b == (a + pre) + r + (post + b)
  {
  }

  /** What lstrip removes is a prefix made of `chars`. */
  lemma {:induction false} LStripSplit(s: string, chars: set<char>) returns (pre: string)
    ensures s == pre + LStrip(s, chars) && AllIn(pre, chars)
  {
    if |s| > 0 && s[0] in chars {
      var p := LStripSplit(s[1..], chars);
      pre := [s[0]] + p;
      assert s == [s[0]] + s[1..];
    } else {
      pre := [];
    }
  }

  /** What rstrip removes is a suffix made of `chars`. */
  lemma {:induction false} RStripSplit(s: string, chars: set<char>) returns (post: string)
    ensures s == RStrip(s, chars) + post && AllIn(post, chars)
  {
    if |s| > 0 && s[|s| - 1] in chars {
      var p := RStripSplit(s[..|s| - 1], chars);
      post := p + [s[|s| - 1]];
      assert s == s[..|s| - 1] + [s[|s| - 1]];
    } else {
      post := [];
    }
  }

  /** What strip removes from `s` is a prefix and a suffix made of `chars`. */
  lemma StripSplit(s: string, chars: set<char>) returns (pre: string, post: string)
    ensures s == pre + (Strip(s, chars) + post)
    ensures AllIn(pre, chars) && AllIn(post, chars)
  {
    pre := LStripSplit(s, chars);
    post := RStripSplit(LStrip(s, chars), chars);
  }

  /** Padding a string with more of `chars` on either side does not change what strip returns. */
  lemma StripIgnoresPadding(a: string, s: string, b: string, chars: set<char>)
    requires AllIn(a, chars) && AllIn(b, chars)
    ensures Strip(a + s + b, chars) == Strip(s, chars)
  {
    var r := Strip(s, chars);
    var pre, post := StripSplit(s, chars);
    AllInConcat(a, pre, chars);
    AllInConcat(post, b, chars);
    Regroup(a, pre, r, post, b);
    StripPadded(a + pre, r, post + b, chars);
  }

  /** Extra characters of `chars` in front do not change what lstrip returns. */
  lemma {:induction false} LStripIgnoresPrefix(a: string, s: string, chars: set<char>)
    requires AllIn(a, chars)
    ensures LStrip(a + s, chars) == LStrip(s, chars)
  {
    if a == [] {
      assert a + s == s;
    } else {
      assert (a + s)[0] == a[0];
      assert (a + s)[1..] == a[1..] + s;
      LStripIgnoresPrefix(a[1..], s, chars);
    }
  }

  /** Extra characters of `chars` at the end do not change what rstrip returns. */
  lemma {:induction false} RStripIgnoresSuffix(s: string, b: string, chars: set<char>)
    requires AllIn(b, chars)
    ensures RStrip(s + b, chars) == RStrip(s, chars)
  {
    if b == [] {
      assert s + b == s;
    } else {
      assert (s + b)[|s + b| - 1] == b[|b| - 1];
      assert (s + b)[..|s + b| - 1] == s + b[..|b| - 1];
      RStripIgnoresSuffix(s, b[..|b| - 1], chars);
    }
  }

  /** Stripping twice is stripping once. */
  lemma StripIdempotent(s: string, chars: set<char>)
    ensures Strip(Strip(s, chars), chars) == Strip(s, chars)
  {
    var r := Strip(s, chars);
    assert [] + r + [] == r;
    StripPadded([], r, [], chars);
  }

  // ---------------------------------------------------------------- case

  predicate IsUpper(c: char) { 'A' <= c <= 'Z' }

  /** Python's `str.lower` on one character, for the ASCII letters. */
  function LowerChar(c: char): (r: char)
    ensures !IsUpper(r)
    ensures IsUpper(c) ==> r as int == c as int + 32
    ensures !IsUpper(c) ==> r == c
  {
    if IsUpper(c) then (c as int + 32) as char else c
  }

  /** No ASCII capital letter occurs in `s`. */
  predicate IsLowerCase(s: string) {
    forall i :: 0 <= i < |s| ==> !IsUpper(s[i])
  }

  /** `a` and `b` differ at most in the case of their ASCII letters. */
  predicate EqualsIgnoreCase(a: string, b: string) {
    |a| == |b| && forall i :: 0 <= i < |a| ==> LowerChar(a[i]) == LowerChar(b[i])
  }

  /** `s.lower()`: the lower-case string that equals `s` up to case. */
  function Lower(s: string): (r: string)
    ensures IsLowerCase(r)
    ensures EqualsIgnoreCase(r, s)
  {
    seq(|s|, i requires 0 <= i < |s| => LowerChar(s[i]))
  }

  /** Lower is the only lower-case string equal to `s` up to case. */
  lemma LowerUnique(s: string, t: string)
    requires IsLowerCase(t) && EqualsIgnoreCase(t, s)
    ensures t == Lower(s)
  {
    forall i | 0 <= i < |t| ensures t[i] == Lower(s)[i] {
      assert LowerChar(t[i]) == t[i];
    }
  }

  /** For a lower-case `w`, lowering `t` yields `w` exactly when `t` is `w` up to case. */
  lemma LowerMatches(t: string, w: string)
    requires IsLowerCase(w)
    ensures Lower(t) == w <==> EqualsIgnoreCase(t, w)
  {
    if EqualsIgnoreCase(t, w) {
      assert EqualsIgnoreCase(w, t);
      LowerUnique(t, w);
    }
  }

  /** Two characters equal up to case are both whitespace or both not. */
  lemma CaseBlindWhitespace(c: char, d: char)
    requires LowerChar(c) == LowerChar(d)
    ensures c in Whitespace <==> d in Whitespace
  {
    if IsUpper(c) || IsUpper(d) {
      assert 'a' <= LowerChar(c) <= 'z';
      assert c !in Whitespace && d !in Whitespace;
    }
  }

  lemma {:induction false} CaseBlindLStrip(v: string, w: string)
    requires EqualsIgnoreCase(v, w)
    ensures EqualsIgnoreCase(LStrip(v, Whitespace), LStrip(w, Whitespace))
  {
    if |v| > 0 {
      CaseBlindWhitespace(v[0], w[0]);
      if v[0] in Whitespace {
        CaseBlindLStrip(v[1..], w[1..]);
      }
    }
  }

  lemma {:induction false} CaseBlindRStrip(v: string, w: string)
    requires EqualsIgnoreCase(v, w)
    ensures EqualsIgnoreCase(RStrip(v, Whitespace), RStrip(w, Whitespace))
  {
    if |v| > 0 {
      CaseBlindWhitespace(v[|v| - 1], w[|w| - 1]);
      if v[|v| - 1] in Whitespace {
        CaseBlindRStrip(v[..|v| - 1], w[..|w| - 1]);
      }
    }
  }

  // ---------------------------------------------------------------- integers

  predicate IsDigit(c: char) { '0' <= c <= '9' }

  predicate AllDigits(s: string) {
    forall i :: 0 <= i < |s| ==> IsDigit(s[i])
  }

  function DigitValue(c: char): (d: nat)
    requires IsDigit(c)
    ensures d < 10
  {
    c as int - '0' as int
  }

  function DigitChar(d: nat): (c: char)
    requires d < 10
    ensures IsDigit(c) && DigitValue(c) == d
  {
    ('0' as int + d) as char
  }

  /** The number a string of decimal digits denotes, most significant digit first. */
  function DigitsValue(s: string): nat
    requires AllDigits(s)
  {
    if s == [] then 0 else DigitsValue(s[..|s| - 1]) * 10 + DigitValue(s[|s| - 1])
  }

  /** `str(n)` for a natural number: its shortest decimal spelling. */
  function NatToDecimal(n: nat): (r: string)
    ensures |r| > 0 && AllDigits(r)
    ensures |r| > 1 ==> r[0] != '0'
  {
    if n < 10 then [DigitChar(n)] else NatToDecimal(n / 10) + [DigitChar(n % 10)]
  }

  /** `str(n)` for an integer. */
  function IntToDecimal(n: int): string {
    if n < 0 then "-" + NatToDecimal(-n) else NatToDecimal(n)
  }

  /** What `int()` accepts after the sign: digits, with single underscores between digits. */
  predicate IsDigitGroups(s: string) {
    && |s| > 0
    && IsDigit(s[0])
    && IsDigit(s[|s| - 1])
    && (forall i :: 0 <= i < |s| ==> IsDigit(s[i]) || s[i] == '_')
    && (forall i :: 0 <= i < |s| - 1 ==> s[i] == '_' ==> s[i + 1] != '_')
  }

  /** `s` with every underscore removed. */
  function RemoveUnderscores(s: string): (r: string)
    ensures |r| <= |s|
    ensures (forall i :: 0 <= i < |s| ==> IsDigit(s[i]) || s[i] == '_') ==> AllDigits(r)
    ensures (forall i :: 0 <= i < |s| ==> s[i] != '_') ==> r == s
  {
    if s == [] then [] else (if s[0] == '_' then [] else [s[0]]) + RemoveUnderscores(s[1..])
  }

  /** `int(s)` on the part after an optional sign, or None where Python raises ValueError. */
  function ParseUnsigned(s: string): (r: Option<nat>)
    ensures r.Some? <==> IsDigitGroups(s)
  {
    if IsDigitGroups(s) then Some(DigitsValue(RemoveUnderscores(s))) else None
  }

  /** `int` on an already stripped string: one optional sign, then digit groups. */
  function ParseSigned(t: string): (r: Option<int>)
    ensures r.Some? ==> t != [] && (r.value < 0 ==> t[0] == '-')
  {
    if |t| > 0 && (t[0] == '+' || t[0] == '-') then
      match ParseUnsigned(t[1..])
      case None => None
      case Some(m) => Some(if t[0] == '-' then -(m as int) else m as int)
    else
      ParseUnsigned(t)
  }

  /**
   * `int(s)` in base 10: surrounding `IntSpace` characters are ignored, one leading `+` or
   * `-` is allowed, then digit groups; None where Python raises ValueError.
   */
  function ParseInt(s: string): Option<int> {
    ParseSigned(Strip(s, IntSpace))
  }

  lemma {:induction false} DigitsValueOfDecimal(n: nat)
    ensures DigitsValue(NatToDecimal(n)) == n
  {
    if n >= 10 {
      var d := NatToDecimal(n);
      assert d[..|d| - 1] == NatToDecimal(n / 10);
      DigitsValueOfDecimal(n / 10);
    }
  }

  /** Letters, digits and the signs are neither whitespace nor skipped by `int`. */
  lemma NotWhitespace(c: char)
    requires IsDigit(c) || c == '-' || c == '+' || 'a' <= LowerChar(c) <= 'z'
    ensures c !in Whitespace && c !in IntSpace
  {
    assert '+' <= c <= 'z';
  }

  /** The decimal spelling of a number starts and ends without whitespace, so strip leaves it alone. */
  lemma StripDecimal(n: int)
    ensures Strip(IntToDecimal(n), IntSpace) == IntToDecimal(n)
  {
    var s := IntToDecimal(n);
    var d := NatToDecimal(if n < 0 then -n else n);
    assert s[0] == '-' || s[0] == d[0];
    assert s[|s| - 1] == d[|d| - 1];
    StripPlain(s);
  }

  /** Reading back the decimal spelling of a natural number gives the number. */
  lemma ParseUnsignedOfDecimal(m: nat)
    ensures ParseUnsigned(NatToDecimal(m)) == Some(m)
  {
    var d := NatToDecimal(m);
    DigitsValueOfDecimal(m);
    assert RemoveUnderscores(d) == d;
    assert IsDigitGroups(d);
  }

  lemma ParseSignedOfDecimal(n: int)
    ensures ParseSigned(IntToDecimal(n)) == Some(n)
  {
    var s := IntToDecimal(n);
    if n < 0 {
      ParseUnsignedOfDecimal(-n);
      assert s[1..] == NatToDecimal(-n);
    } else {
      ParseUnsignedOfDecimal(n);
    }
  }

  /** `int(str(n)) == n` for every integer. */
  lemma ParseIntOfDecimal(n: int)
    ensures ParseInt(IntToDecimal(n)) == Some(n)
  {
    StripDecimal(n);
    ParseSignedOfDecimal(n);
  }

  /** `int` ignores the spaces it skips around its argument. */
  lemma ParseIntIgnoresPadding(a: string, s: string, b: string)
    requires AllIn(a, IntSpace) && AllIn(b, IntSpace)
    ensures ParseInt(a + s + b) == ParseInt(s)
  {
    StripIgnoresPadding(a, s, b, IntSpace);
  }

  /**
   * Once the skipped spaces are removed, a character other than a digit or an
   * underscore, and other than a sign in the first place, makes `int` raise.
   */
  lemma ParseIntRejectsStrayChar(s: string, i: nat)
    requires var t := Strip(s, IntSpace);
      i < |t| && !IsDigit(t[i]) && t[i] != '_' && (i > 0 || (t[i] != '+' && t[i] != '-'))
    ensures ParseInt(s) == None
  {
    var t := Strip(s, IntSpace);
    if t[0] == '+' || t[0] == '-' {
      assert t[1..][i - 1] == t[i];
    }
  }

  /** An empty or all-whitespace string (whitespace as `strip()` understands it) is not an integer. */
  lemma ParseIntOfBlank(s: string)
    requires AllIn(s, Whitespace)
    ensures ParseInt(s) == None
  {
    var t := Strip(s, IntSpace);
    if t != [] {
      var pre, post := StripSplit(s, IntSpace);
      assert t[0] == s[|pre|];
      if IsDigit(t[0]) || t[0] == '+' || t[0] == '-' {
        NotWhitespace(t[0]);
        assert false;
      }
    }
  }

  /**
   * The ASCII separators U+001C to U+001F are whitespace to `strip()` but not
   * to `int()`.
   */
  lemma SeparatorNotIntSpace(c: char)
    requires '\U{1C}' <= c <= '\U{1F}'
    ensures c in Whitespace && c !in IntSpace
  {
    assert c == '\U{1C}' || c == '\U{1D}' || c == '\U{1E}' || c == '\U{1F}';
  }

  /** A string whose first and last characters are not in `chars` keeps them when stripped. */
  lemma StripKeepsEnds(w: string, chars: set<char>)
    requires w != []
    ensures w[0] !in chars ==> Strip(w, chars) != [] && Strip(w, chars)[0] == w[0]
    ensures w[|w| - 1] !in chars ==>
      Strip(w, chars) != [] && Strip(w, chars)[|Strip(w, chars)| - 1] == w[|w| - 1]
  {
    var t := Strip(w, chars);
    var pre, post := StripSplit(w, chars);
    if w[0] !in chars {
      assert pre == [];
      assert w == t + post;
    }
    if w[|w| - 1] !in chars {
      assert post == [];
      assert w == pre + t;
    }
  }

  /** A separator U+001C to U+001F before the digits makes `int` raise. */
  lemma ParseIntRejectsLeadingSeparator(c: char, s: string)
    requires '\U{1C}' <= c <= '\U{1F}'
    ensures ParseInt([c] + s) == None
  {
    SeparatorNotIntSpace(c);
    var w := [c] + s;
    assert w[0] == c;
    StripKeepsEnds(w, IntSpace);
    ParseIntRejectsStrayChar(w, 0);
  }

  /** A separator U+001C to U+001F after the digits makes `int` raise. */
  lemma ParseIntRejectsTrailingSeparator(s: string, c: char)
    requires '\U{1C}' <= c <= '\U{1F}'
    ensures ParseInt(s + [c]) == None
  {
    SeparatorNotIntSpace(c);
    var w := s + [c];
    assert w[|w| - 1] == c;
    StripKeepsEnds(w, IntSpace);
    ParseIntRejectsStrayChar(w, |Strip(w, IntSpace)| - 1);
  }

  // ---------------------------------------------------------------- int() on other spellings

  /** Removing underscores works piece by piece: the result keeps the other characters, in order. */
  lemma {:induction false} RemoveUnderscoresConcat(a: string, b: string)
    ensures RemoveUnderscores(a + b) == RemoveUnderscores(a) + RemoveUnderscores(b)
  {
    if a == [] {
      assert a + b == b;
    } else {
      var h := if a[0] == '_' then [] else [a[0]];
      assert (a + b)[0] == a[0];
      assert (a + b)[1..] == a[1..] + b;
      RemoveUnderscoresConcat(a[1..], b);
      calc {
        RemoveUnderscores(a + b);
        h + RemoveUnderscores(a[1..] + b);
        h + (RemoveUnderscores(a[1..]) + RemoveUnderscores(b));
        (h + RemoveUnderscores(a[1..])) + RemoveUnderscores(b);
        RemoveUnderscores(a) + RemoveUnderscores(b);
      }
    }
  }

  /** On one character: an underscore is dropped, anything else kept. */
  lemma RemoveUnderscoresOfChar(c: char)
    ensures RemoveUnderscores([c]) == if c == '_' then [] else [c]
  {
    assert [c][1..] == [];
  }

  /** A leading zero does not change the number a digit string denotes. */
  lemma {:induction false} DigitsValueLeadingZero(s: string)
    requires AllDigits(s)
    ensures AllDigits("0" + s) && DigitsValue("0" + s) == DigitsValue(s)
  {
    var z := "0" + s;
    if s == [] {
      assert z[..0] == [];
    } else {
      assert z[..|z| - 1] == "0" + s[..|s| - 1];
      assert z[|z| - 1] == s[|s| - 1];
      DigitsValueLeadingZero(s[..|s| - 1]);
    }
  }

  /** Any number of leading zeros does not change the number a digit string denotes. */
  lemma {:induction false} DigitsValueLeadingZeros(zeros: string, s: string)
    requires forall i :: 0 <= i < |zeros| ==> zeros[i] == '0'
    requires AllDigits(s)
    ensures AllDigits(zeros + s) && DigitsValue(zeros + s) == DigitsValue(s)
  {
    if zeros == [] {
      assert zeros + s == s;
    } else {
      DigitsValueLeadingZeros(zeros[1..], s);
      assert zeros + s == "0" + (zeros[1..] + s);
      DigitsValueLeadingZero(zeros[1..] + s);
    }
  }

  /** `int("007") == 7`: leading zeros before a decimal spelling are accepted and ignored. */
  lemma ParseUnsignedLeadingZeros(zeros: string, m: nat)
    requires forall i :: 0 <= i < |zeros| ==> zeros[i] == '0'
    ensures ParseUnsigned(zeros + NatToDecimal(m)) == Some(m)
  {
    var d := NatToDecimal(m);
    var s := zeros + d;
    DigitsValueLeadingZeros(zeros, d);
    DigitsValueOfDecimal(m);
    assert s[|s| - 1] == d[|d| - 1];
    assert RemoveUnderscores(s) == s;
    assert IsDigitGroups(s);
  }

  /** Digit groups joined by one underscore are digit groups. */
  lemma JoinDigitGroups(a: string, b: string)
    requires IsDigitGroups(a) && IsDigitGroups(b)
    ensures IsDigitGroups(a + "_" + b) && IsDigitGroups(a + b)
  {
    var s, t := a + "_" + b, a + b;
    forall i | 0 <= i < |s| ensures IsDigit(s[i]) || s[i] == '_' {
      if i < |a| { assert s[i] == a[i]; } else if i > |a| { assert s[i] == b[i - |a| - 1]; }
    }
    forall i | 0 <= i < |s| - 1 ensures s[i] == '_' ==> s[i + 1] != '_' {
      if i < |a| - 1 {
        assert s[i] == a[i] && s[i + 1] == a[i + 1];
      } else if i == |a| - 1 {
        assert s[i] == a[|a| - 1];
      } else if i == |a| {
        assert s[i + 1] == b[0];
      } else {
        assert s[i] == b[i - |a| - 1] && s[i + 1] == b[i - |a|];
      }
    }
    assert s[|s| - 1] == b[|b| - 1];
    forall i | 0 <= i < |t| ensures IsDigit(t[i]) || t[i] == '_' {
      if i < |a| { assert t[i] == a[i]; } else { assert t[i] == b[i - |a|]; }
    }
    forall i | 0 <= i < |t| - 1 ensures t[i] == '_' ==> t[i + 1] != '_' {
      if i < |a| - 1 {
        assert t[i] == a[i] && t[i + 1] == a[i + 1];
      } else if i == |a| - 1 {
        assert t[i] == a[|a| - 1];
      } else {
        assert t[i] == b[i - |a|] && t[i + 1] == b[i - |a| + 1];
      }
    }
    assert t[|t| - 1] == b[|b| - 1];
  }

  /** `int("1_000") == int("1000")`: an underscore between digit groups is accepted and ignored. */
  lemma ParseUnsignedIgnoresUnderscore(a: string, b: string)
    requires IsDigitGroups(a) && IsDigitGroups(b)
    ensures ParseUnsigned(a + "_" + b).Some?
    ensures ParseUnsigned(a + "_" + b) == ParseUnsigned(a + b)
  {
    JoinDigitGroups(a, b);
    RemoveUnderscoresDropsOne(a, b);
  }

  lemma RemoveUnderscoresDropsOne(a: string, b: string)
    ensures RemoveUnderscores(a + "_" + b) == RemoveUnderscores(a + b)
  {
    RemoveUnderscoresConcat(a + "_", b);
    RemoveUnderscoresConcat(a, "_");
    RemoveUnderscoresOfChar('_');
    assert RemoveUnderscores(a + "_") == RemoveUnderscores(a);
    RemoveUnderscoresConcat(a, b);
  }

  /** After a `+`, `int` gives the value of the unsigned part, and raises exactly when that part does. */
  lemma ParseSignedPlus(t: string)
    ensures ParseSigned("+" + t).Some? <==> ParseUnsigned(t).Some?
    ensures ParseUnsigned(t).Some? ==> ParseSigned("+" + t) == Some(ParseUnsigned(t).value as int)
  {
    assert ("+" + t)[1..] == t;
  }

  /** After a `-`, `int` gives the negated value of the unsigned part, and raises exactly when that part does. */
  lemma ParseSignedMinus(t: string)
    ensures ParseSigned("-" + t).Some? <==> ParseUnsigned(t).Some?
    ensures ParseUnsigned(t).Some? ==> ParseSigned("-" + t) == Some(-(ParseUnsigned(t).value as int))
  {
    assert ("-" + t)[1..] == t;
  }

  /** A `-` and a `+` in front of the same digits give opposite values. */
  lemma ParseSignedMinusNegatesPlus(t: string)
    ensures ParseSigned("-" + t).Some? <==> ParseSigned("+" + t).Some?
    ensures ParseSigned("+" + t).Some? ==> ParseSigned("-" + t).value == -ParseSigned("+" + t).value
  {
    ParseSignedPlus(t);
    ParseSignedMinus(t);
  }

  /** A string that starts with a digit or a sign and ends with a digit has no space for `int` to skip. */
  lemma StripPlain(s: string)
    requires s != [] && (IsDigit(s[0]) || s[0] == '+' || s[0] == '-') && IsDigit(s[|s| - 1])
    ensures Strip(s, IntSpace) == s
  {
    NotWhitespace(s[0]);
    NotWhitespace(s[|s| - 1]);
    assert [] + s + [] == s;
    StripPadded([], s, [], IntSpace);
  }

  /** `int("007") == 7`. */
  lemma ParseIntLeadingZerosExample()
    ensures ParseInt("007") == Some(7)
  {
    StripPlain("007");
    assert "007" == "00" + NatToDecimal(7);
    ParseUnsignedLeadingZeros("00", 7);
  }

  /** `int("+1_0") == 10`. */
  lemma ParseIntSignedUnderscoreExample()
    ensures ParseInt("+1_0") == Some(10)
  {
    StripPlain("+1_0");
    assert "+1_0" == "+" + "1_0";
    ParseSignedPlus("1_0");
    TenWithUnderscore();
  }

  lemma TenWithUnderscore()
    ensures ParseUnsigned("1_0") == Some(10)
  {
    assert IsDigitGroups("1") && IsDigitGroups("0");
    assert "1_0" == "1" + "_" + "0";
    ParseUnsignedIgnoresUnderscore("1", "0");
    assert "1" + "0" == NatToDecimal(10) by {
      assert NatToDecimal(1) == "1";
    }
    ParseUnsignedOfDecimal(10);
  }

  /** `int("1__0")` raises: two underscores in a row. */
  lemma ParseIntDoubleUnderscoreExample()
    ensures ParseInt("1__0") == None
  {
    StripPlain("1__0");
    assert "1__0"[1] == '_' && "1__0"[2] == '_';
  }
}
