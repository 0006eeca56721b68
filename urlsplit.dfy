/**
 * A model of the part of Python's `urllib.parse.urlsplit` (which `urlparse`
 * calls) that decides the scheme and the network location of a URL, following
 * the generic syntax of RFC 3986 (section 3.1, scheme; section 3.2, authority):
 *
 *  - leading C0 control characters and spaces are stripped, and every tab,
 *    carriage return and line feed is removed;
 *  - the text before the first ':' is the scheme when it is non-empty, starts
 *    with an ASCII letter and holds only letters, digits, '+', '-' and '.';
 *    it is lower-cased;
 *  - when what follows starts with "//", the network location runs up to the
 *    first '/', '?' or '#';
 *  - a network location with a '[' but no ']', or a ']' but no '[', raises
 *    ValueError ("Invalid IPv6 URL");
 *  - the rest splits at the first '#' (fragment) and then at the first '?'
 *    (query); what remains is the path.
 */
module UrlSplit {
  import opened Wrappers

  datatype SplitResult = SplitResult(scheme: string, netloc: string, path: string, query: string, fragment: string)

  datatype UrlError = InvalidIPv6Url(netloc: string)

  predicate IsAsciiLetter(c: char) {
    'a' <= c <= 'z' || 'A' <= c <= 'Z'
  }

  predicate IsSchemeChar(c: char) {
    IsAsciiLetter(c) || '0' <= c <= '9' || c == '+' || c == '-' || c == '.'
  }

  /** The characters the splitter removes wherever they occur. */
  predicate IsUnsafe(c: char) {
    c == '\t' || c == '\r' || c == '\n'
  }

  /** The characters that end a network location. */
  predicate IsNetlocEnd(c: char) {
    c == '/' || c == '?' || c == '#'
  }

  /** A scheme as the splitter returns it: lower-case scheme characters, led by a letter. */
  predicate IsNormalScheme(s: string) {
    && (s != [] ==> IsAsciiLetter(s[0]))
    && forall k :: 0 <= k < |s| ==> IsSchemeChar(s[k]) && !('A' <= s[k] <= 'Z')
  }

  /** A network location as the splitter returns it. */
  predicate IsNetloc(s: string) {
    forall k :: 0 <= k < |s| ==> !IsNetlocEnd(s[k]) && !IsUnsafe(s[k])
  }

  function LowerChar(c: char): (r: char)
    ensures IsAsciiLetter(c) ==> IsAsciiLetter(r) && !('A' <= r <= 'Z')
    ensures !('A' <= c <= 'Z') ==> r == c
  {
    if 'A' <= c <= 'Z' then (c as int + 32) as char else c
  }

  function Lower(s: string): (r: string)
    ensures |r| == |s| && forall k :: 0 <= k < |s| ==> r[k] == LowerChar(s[k])
  {
    seq(|s|, k requires 0 <= k < |s| => LowerChar(s[k]))
  }

  /** Python's `s.find(c)`, with |s| in place of -1 when c does not occur. */
  function IndexOf(s: string, c: char): (i: nat)
    ensures i <= |s|
    ensures i < |s| ==> s[i] == c
    ensures forall k :: 0 <= k < i ==> s[k] != c
  {
    if s == [] || s[0] == c then 0 else 1 + IndexOf(s[1..], c)
  }

  /** The index of the first character that ends a network location, or |s|. */
  function NetlocLength(s: string): (i: nat)
    ensures i <= |s|
    ensures i < |s| ==> IsNetlocEnd(s[i])
    ensures forall k :: 0 <= k < i ==> !IsNetlocEnd(s[k])
  {
    if s == [] || IsNetlocEnd(s[0]) then 0 else 1 + NetlocLength(s[1..])
  }

  /** `url.lstrip()` of C0 control characters and space. */
  function StripLeadingControls(s: string): (r: string)
    ensures |r| <= |s| && r == s[|s| - |r|..]
    ensures r != [] ==> r[0] > ' '
  {
    if s != [] && s[0] <= ' ' then StripLeadingControls(s[1..]) else s
  }

  /** `s` with every tab, carriage return and line feed removed. */
  function RemoveUnsafe(s: string): (r: string)
    ensures forall k :: 0 <= k < |r| ==> !IsUnsafe(r[k])
    ensures (forall k :: 0 <= k < |s| ==> !IsUnsafe(s[k])) ==> r == s
  {
    if s == [] then []
    else if IsUnsafe(s[0]) then RemoveUnsafe(s[1..])
    else [s[0]] + RemoveUnsafe(s[1..])
  }

  function Sanitize(url: string): (r: string)
    ensures forall k :: 0 <= k < |r| ==> !IsUnsafe(r[k])
  {
    RemoveUnsafe(StripLeadingControls(url))
  }

  /** The scheme, lower-cased, and what follows its ':'; ("", u) when there is none. */
  function SplitScheme(u: string): (r: (string, string))
    ensures IsNormalScheme(r.0)
    ensures r.0 == [] ==> r.1 == u
    ensures r.0 != [] ==> |r.0| < |u| && u[|r.0|] == ':' && r.1 == u[|r.0| + 1..]
  {
    var i := IndexOf(u, ':');
    if 0 < i < |u| && IsAsciiLetter(u[0]) && forall k :: 0 <= k < i ==> IsSchemeChar(u[k]) then
      (Lower(u[..i]), u[i + 1..])
    else
      ("", u)
  }

  /** The network location after a leading "//" and what follows it; ("", s) without one. */
  function SplitNetloc(s: string): (r: (string, string))
    ensures (forall k :: 0 <= k < |s| ==> !IsUnsafe(s[k])) ==> IsNetloc(r.0)
  {
    if |s| >= 2 && s[..2] == "//" then
      var n := NetlocLength(s[2..]);
      (s[2..][..n], s[2..][n..])
    else
      ("", s)
  }

  predicate Unbalanced(netloc: string) {
    ('[' in netloc && ']' !in netloc) || (']' in netloc && '[' !in netloc)
  }

  /** Splits `rest` at the first `sep`: the text before it and the text after it ("" when absent). */
  function SplitAt(rest: string, sep: char): (r: (string, string))
    ensures sep !in r.0
    ensures sep !in rest ==> r == (rest, "")
    ensures sep in rest ==> rest == r.0 + [sep] + r.1
  {
    var i := IndexOf(rest, sep);
    if i < |rest| then
      assert rest == rest[..i] + [sep] + rest[i + 1..];
      (rest[..i], rest[i + 1..])
    else (rest, "")
  }

  function Split(url: string): (r: Result<SplitResult, UrlError>)
    ensures r.Ok? ==> IsNormalScheme(r.value.scheme) && IsNetloc(r.value.netloc)
    ensures r.Ok? ==> !Unbalanced(r.value.netloc)
    ensures r.Ok? ==> '?' !in r.value.path && '#' !in r.value.path && '#' !in r.value.query
  {
    var (scheme, afterScheme) := SplitScheme(Sanitize(url));
    var (netloc, afterNetloc) := SplitNetloc(afterScheme);
    if Unbalanced(netloc) then
      Err(InvalidIPv6Url(netloc))
    else
      var (beforeFragment, fragment) := SplitAt(afterNetloc, '#');
      var (path, query) := SplitAt(beforeFragment, '?');
      Ok(SplitResult(scheme, netloc, path, query, fragment))
  }

  lemma SanitizeKeeps(url: string)
    requires url != [] && url[0] > ' '
    requires forall k :: 0 <= k < |url| ==> !IsUnsafe(url[k])
    ensures Sanitize(url) == url
  {
    assert StripLeadingControls(url) == url;
  }

  lemma SplitSchemeFinds(scheme: string, rest: string)
    requires scheme != [] && IsNormalScheme(scheme)
    ensures SplitScheme(scheme + ":" + rest) == (scheme, rest)
  {
    var u := scheme + ":" + rest;
    assert u[|scheme|] == ':';
    forall k | 0 <= k < |scheme| ensures u[k] == scheme[k] && u[k] != ':' {
      assert IsSchemeChar(scheme[k]);
    }
    assert IndexOf(u, ':') == |scheme|;
    assert u[..|scheme|] == scheme;
    assert Lower(scheme) == scheme;
    assert u[|scheme| + 1..] == rest;
  }

  lemma NetlocLengthFinds(netloc: string, tail: string)
    requires IsNetloc(netloc)
    requires tail == [] || IsNetlocEnd(tail[0])
    ensures NetlocLength(netloc + tail) == |netloc|
  {
    var s := netloc + tail;
    forall k | 0 <= k < |netloc| ensures !IsNetlocEnd(s[k]) {
      assert s[k] == netloc[k];
    }
    if tail != [] {
      assert s[|netloc|] == tail[0];
    }
  }

  /** After "//", the network location runs up to the path's leading '/'. */
  lemma SplitNetlocFinds(netloc: string, path: string)
    requires IsNetloc(netloc)
    requires path == [] || path[0] == '/'
    ensures SplitNetloc("//" + netloc + path) == (netloc, path)
  {
    var s := "//" + netloc + path;
    assert s[..2] == "//";
    var after := s[2..];
    assert after == netloc + path;
    NetlocLengthFinds(netloc, path);
    assert after[..|netloc|] == netloc;
    assert after[|netloc|..] == path;
  }

  lemma NoUnsafeInComposed(scheme: string, netloc: string, path: string)
    requires IsNormalScheme(scheme) && IsNetloc(netloc)
    requires forall k :: 0 <= k < |path| ==> !IsUnsafe(path[k])
    ensures var url := scheme + "://" + netloc + path; forall k :: 0 <= k < |url| ==> !IsUnsafe(url[k])
  {
    var url := scheme + "://" + netloc + path;
    forall k | 0 <= k < |url| ensures !IsUnsafe(url[k]) {
      if k < |scheme| {
        assert url[k] == scheme[k];
      } else if |scheme| + 3 <= k < |scheme| + 3 + |netloc| {
        assert url[k] == netloc[k - |scheme| - 3];
      } else if |scheme| + 3 + |netloc| <= k {
        assert url[k] == path[k - |scheme| - 3 - |netloc|];
      }
    }
  }

  /**
   * A URL composed from a normal scheme, a network location and a path that
   * starts with '/' and has no query or fragment splits back into exactly
   * those parts.
   */
  lemma SplitComposed(scheme: string, netloc: string, path: string)
    requires scheme != [] && IsNormalScheme(scheme)
    requires IsNetloc(netloc) && !Unbalanced(netloc)
    requires path == [] || path[0] == '/'
    requires forall k :: 0 <= k < |path| ==> path[k] != '?' && path[k] != '#' && !IsUnsafe(path[k])
    ensures Split(scheme + "://" + netloc + path) == Ok(SplitResult(scheme, netloc, path, "", ""))
  {
    var rest := "//" + netloc + path;
    var url := scheme + ":" + rest;
    assert url == scheme + "://" + netloc + path;
    NoUnsafeInComposed(scheme, netloc, path);
    assert IsAsciiLetter(url[0]);
    SanitizeKeeps(url);
    SplitSchemeFinds(scheme, rest);
    SplitNetlocFinds(netloc, path);
    assert '#' !in path && '?' !in path;
    assert SplitAt(path, '#') == (path, "");
    assert SplitAt(path, '?') == (path, "");
  }
}
