/**
 * Python's `int(text)` for a base-10 string and `str(n)` for an int, as used
 * to read the retry-delay setting.  `int` accepts surrounding whitespace, an
 * optional sign, and decimal digits in which single underscores may separate
 * two digits; anything else raises ValueError.  Leading zeros are accepted.
 */
module PyInt {
  import opened Wrappers

  datatype ValueError = InvalidLiteral(text: string)

  /**
   * The characters `int()` skips around an ASCII literal: space, tab, line
   * feed, vertical tab, form feed and carriage return.
   */
  predicate IsSpace(c: char) {
    c == ' ' || c == '\t' || c == '\n' || c == '\r' || c == '\U{0B}' || c == '\U{0C}'
  }

  predicate IsDigit(c: char) {
    '0' <= c <= '9'
  }

  function DigitValue(c: char): (d: nat)
    requires IsDigit(c)
    ensures d < 10
  {
    c as int - '0' as int
  }

  function DigitChar(d: nat): (c: char)
    requires d < 10
    ensures IsDigit(c) && DigitValue(c) == d
  {
    ('0' as int + d) as char
  }

  /** `text` without its leading whitespace. */
  function TrimStart(text: string): (r: string)
    ensures |r| <= |text| && r == text[|text| - |r|..]
    ensures r != [] ==> !IsSpace(r[0])
    ensures forall k :: 0 <= k < |text| - |r| ==> IsSpace(text[k])
  {
    if text != [] && IsSpace(text[0]) then
      var r := TrimStart(text[1..]);
      assert text[1..][|text| - 1 - |r|..] == text[|text| - |r|..];
      r
    else text
  }

  /** `text` without its trailing whitespace. */
  function TrimEnd(text: string): (r: string)
    ensures |r| <= |text| && r == text[..|r|]
    ensures r != [] ==> !IsSpace(r[|r| - 1])
    ensures forall k :: |r| <= k < |text| ==> IsSpace(text[k])
  {
    if text != [] && IsSpace(text[|text| - 1]) then
      var r := TrimEnd(text[..|text| - 1]);
      assert text[..|text| - 1][..|r|] == text[..|r|];
      r
    else text
  }

  /**
   * Digits separated by single underscores: the body of a base-10 literal,
   * which starts and ends with a digit and never has two underscores in a row.
   */
  predicate WellFormedDigits(s: string) {
    && s != []
    && IsDigit(s[0])
    && IsDigit(s[|s| - 1])
    && (forall k :: 0 <= k < |s| ==> IsDigit(s[k]) || s[k] == '_')
    && (forall k :: 0 <= k < |s| - 1 ==> IsDigit(s[k]) || IsDigit(s[k + 1]))
  }

  /** The number a digit string denotes; underscores carry no value. */
  function DigitsValue(s: string): (v: nat)
    requires forall k :: 0 <= k < |s| ==> IsDigit(s[k]) || s[k] == '_'
  {
    if s == [] then 0
    else if s[|s| - 1] == '_' then DigitsValue(s[..|s| - 1])
    else DigitsValue(s[..|s| - 1]) * 10 + DigitValue(s[|s| - 1])
  }

  /** A stripped literal: an optional sign followed by well-formed digits. */
  function ParseSigned(t: string): (r: Option<int>)
    ensures r.Some? ==> t != [] && IsDigit(t[|t| - 1])
  {
    var body := if t != [] && (t[0] == '-' || t[0] == '+') then t[1..] else t;
    if WellFormedDigits(body) then
      var v: int := DigitsValue(body);
      Some(if t[0] == '-' then -v else v)
    else
      None
  }

  /** Python's `int(text)`.  The error carries the rejected text, as Python's message quotes it. */
  function Parse(text: string): (r: Result<int, ValueError>)
    ensures r.Err? ==> r.error == InvalidLiteral(text)
    ensures r.Ok? ==> exists k :: 0 <= k < |text| && IsDigit(text[k])
  {
    var t := TrimEnd(TrimStart(text));
    match ParseSigned(t)
    case Some(v) =>
      assert text[|text| - |TrimStart(text)| + |t| - 1] == t[|t| - 1];
      Ok(v)
    case None => Err(InvalidLiteral(text))
  }

  /** The digits of a natural number, most significant first, without leading zeros. */
  function NatDigits(n: nat): (s: string)
    ensures s != [] && (forall k :: 0 <= k < |s| ==> IsDigit(s[k]))
    ensures |s| > 1 ==> s[0] != '0'
  {
    if n < 10 then [DigitChar(n)] else NatDigits(n / 10) + [DigitChar(n % 10)]
  }

  /** Python's `str(n)` for an int. */
  function Show(n: int): (s: string)
    ensures s != [] && (s[0] == '-') == (n < 0)
  {
    if n < 0 then "-" + NatDigits(-n) else NatDigits(n)
  }

  lemma {:induction false} NatDigitsValue(n: nat)
    ensures DigitsValue(NatDigits(n)) == n
  {
    var s := NatDigits(n);
    if n >= 10 {
      NatDigitsValue(n / 10);
      assert s[..|s| - 1] == NatDigits(n / 10);
    }
  }

  lemma NatDigitsWellFormed(n: nat)
    ensures WellFormedDigits(NatDigits(n))
  {
  }

  lemma ShowHasNoSpace(n: int)
    ensures TrimEnd(TrimStart(Show(n))) == Show(n)
  {
    ShowEdges(n);
    TrimsTo([], Show(n), []);
  }

  /** `str(n)` starts with a sign or a digit and ends with a digit. */
  lemma ShowEdges(n: int)
    ensures var s := Show(n); s != [] && !IsSpace(s[0]) && IsDigit(s[|s| - 1])
  {
    var s := Show(n);
    var ds := NatDigits(if n < 0 then -n else n);
    assert IsDigit(ds[0]) && IsDigit(ds[|ds| - 1]);
    if n < 0 {
      assert s == "-" + ds;
      assert s[0] == '-' && s[|s| - 1] == ds[|ds| - 1];
    }
  }

  lemma ParseSignedShow(n: int)
    ensures ParseSigned(Show(n)) == Some(n)
  {
    var s := Show(n);
    var d := if n < 0 then -n else n;
    NatDigitsWellFormed(d);
    NatDigitsValue(d);
    if n < 0 {
      assert s[1..] == NatDigits(d);
    } else {
      assert s[0] != '-' && s[0] != '+';
    }
  }

  /** `int(str(n)) == n` for every int. */
  lemma ParseShow(n: int)
    ensures Parse(Show(n)) == Ok(n)
  {
    ShowHasNoSpace(n);
    ParseSignedShow(n);
  }

  /** Whitespace around the literal does not change the value. */
  lemma {:induction false} ParseIgnoresSpace(pre: string, text: string, post: string)
    requires forall k :: 0 <= k < |pre| ==> IsSpace(pre[k])
    requires forall k :: 0 <= k < |post| ==> IsSpace(post[k])
    requires text != [] && !IsSpace(text[0]) && !IsSpace(text[|text| - 1])
    ensures Parse(pre + text + post).Ok? == Parse(text).Ok?
    ensures Parse(text).Ok? ==> Parse(pre + text + post) == Parse(text)
  {
    TrimsTo(pre, text, post);
  }

  /** Trimming a literal padded with whitespace leaves the literal, as does trimming the literal itself. */
  lemma TrimsTo(pre: string, text: string, post: string)
    requires forall k :: 0 <= k < |pre| ==> IsSpace(pre[k])
    requires forall k :: 0 <= k < |post| ==> IsSpace(post[k])
    requires text != [] && !IsSpace(text[0]) && !IsSpace(text[|text| - 1])
    ensures TrimEnd(TrimStart(pre + text + post)) == text
    ensures TrimEnd(TrimStart(text)) == text
  {
    TrimStartSkips(pre, text + post);
    assert pre + text + post == pre + (text + post);
    TrimEndSkips(text, post);
    assert TrimStart(text) == text;
    assert TrimEnd(text) == text;
  }

  lemma {:induction false} TrimStartSkips(pre: string, rest: string)
    requires forall k :: 0 <= k < |pre| ==> IsSpace(pre[k])
    requires rest != [] && !IsSpace(rest[0])
    ensures TrimStart(pre + rest) == rest
  {
    if pre != [] {
      assert (pre + rest)[1..] == pre[1..] + rest;
      TrimStartSkips(pre[1..], rest);
    }
  }

  lemma {:induction false} TrimEndSkips(rest: string, post: string)
    requires forall k :: 0 <= k < |post| ==> IsSpace(post[k])
    requires rest != [] && !IsSpace(rest[|rest| - 1])
    ensures TrimEnd(rest + post) == rest
  {
    if post != [] {
      var p := post[..|post| - 1];
      assert (rest + post)[..|rest + post| - 1] == rest + p;
      TrimEndSkips(rest, p);
    }
  }

  /** A character that cannot be part of a literal makes `int` raise. */
  lemma ParseRejectsForeignChar(text: string, k: nat)
    requires k < |text|
    requires !IsDigit(text[k]) && text[k] != '_' && text[k] != '+' && text[k] != '-' && !IsSpace(text[k])
    ensures Parse(text).Err?
  {
    var t := TrimEnd(TrimStart(text));
    var start := |text| - |TrimStart(text)|;
    assert t == text[start..start + |t|];
    if start <= k < start + |t| {
      assert t[k - start] == text[k];
    }
  }

  /** The literal `int()` reads is the stretch from the first to the last non-whitespace character. */
  lemma TrimmedSpan(text: string, i: nat, j: nat)
    requires i <= j < |text| && !IsSpace(text[i]) && !IsSpace(text[j])
    ensures var t := TrimEnd(TrimStart(text));
            var start := |text| - |TrimStart(text)|;
            && start <= i && j < start + |t| && start + |t| <= |text|
            && forall m :: 0 <= m < |t| ==> t[m] == text[start + m]
  {
    var s := TrimStart(text);
    TrimStartStopsAt(text, i);
    TrimEndStopsAt(s, j - (|text| - |s|));
    TrimmedChars(text);
  }

  /** One character of the literal `int()` reads, between two non-whitespace characters. */
  lemma TrimmedAt(text: string, i: nat, k: nat, j: nat)
    requires i <= k <= j < |text| && !IsSpace(text[i]) && !IsSpace(text[j])
    ensures var t := TrimEnd(TrimStart(text));
            var start := |text| - |TrimStart(text)|;
            && start <= i && j < start + |t|
            && t[k - start] == text[k]
  {
    TrimmedSpan(text, i, j);
  }

  /** The trimmed text is a stretch of the original. */
  lemma TrimmedChars(text: string)
    ensures var t := TrimEnd(TrimStart(text));
            var start := |text| - |TrimStart(text)|;
            && start + |t| <= |text|
            && forall m :: 0 <= m < |t| ==> t[m] == text[start + m]
  {
  }

  /** Leading whitespace ends at or before any non-whitespace character. */
  lemma {:induction false} TrimStartStopsAt(text: string, i: nat)
    requires i < |text| && !IsSpace(text[i])
    ensures |text| - |TrimStart(text)| <= i
    ensures TrimStart(text)[i - (|text| - |TrimStart(text)|)] == text[i]
  {
    if IsSpace(text[0]) {
      TrimStartStopsAt(text[1..], i - 1);
    }
  }

  /** Trailing whitespace starts after any non-whitespace character. */
  lemma {:induction false} TrimEndStopsAt(s: string, j: nat)
    requires j < |s| && !IsSpace(s[j])
    ensures j < |TrimEnd(s)|
  {
    if IsSpace(s[|s| - 1]) {
      TrimEndStopsAt(s[..|s| - 1], j);
    }
  }

  /** An empty or all-whitespace setting makes `int` raise. */
  lemma ParseRejectsBlank(text: string)
    requires forall k :: 0 <= k < |text| ==> IsSpace(text[k])
    ensures Parse(text).Err?
  {
    assert TrimStart(text) == [];
  }

  /** `int` raises when the last non-whitespace character is not a digit: a lone sign, a trailing '_'. */
  lemma ParseRejectsNonDigitLast(text: string, k: nat)
    requires k < |text| && !IsSpace(text[k]) && !IsDigit(text[k])
    requires forall j :: k < j < |text| ==> IsSpace(text[j])
    ensures Parse(text).Err?
  {
    TrimmedSpan(text, k, k);
    var t := TrimEnd(TrimStart(text));
    var start := |text| - |TrimStart(text)|;
    assert t[|t| - 1] == text[start + |t| - 1];
    assert start + |t| - 1 == k;
  }

  /** `int` raises on two underscores in a row. */
  lemma ParseRejectsDoubleUnderscore(text: string, k: nat)
    requires k + 1 < |text| && text[k] == '_' && text[k + 1] == '_'
    ensures Parse(text).Err?
  {
    TrimmedAt(text, k, k, k + 1);
    TrimmedAt(text, k, k + 1, k + 1);
    SignedRejectsDoubleUnderscore(TrimEnd(TrimStart(text)), k - (|text| - |TrimStart(text)|));
  }

  lemma SignedRejectsDoubleUnderscore(t: string, m: nat)
    requires m + 1 < |t| && t[m] == '_' && t[m + 1] == '_'
    ensures ParseSigned(t).None?
  {
    if t[0] == '-' || t[0] == '+' {
      var body := t[1..];
      assert body[m - 1] == '_' && body[m] == '_';
    }
  }

  /** `int` raises on whitespace inside the literal. */
  lemma ParseRejectsInnerSpace(text: string, i: nat, k: nat, j: nat)
    requires i < k < j < |text|
    requires !IsSpace(text[i]) && IsSpace(text[k]) && !IsSpace(text[j])
    ensures Parse(text).Err?
  {
    TrimmedAt(text, i, k, j);
    SignedRejectsSpace(TrimEnd(TrimStart(text)), k - (|text| - |TrimStart(text)|));
  }

  lemma SignedRejectsSpace(t: string, m: nat)
    requires 0 < m < |t| && IsSpace(t[m])
    ensures ParseSigned(t).None?
  {
    if t[0] == '-' || t[0] == '+' {
      assert t[1..][m - 1] == t[m];
    }
  }
}
