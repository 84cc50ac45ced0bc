/**
 * The browser rules the field factories run into: which class tokens `classList.add`
 * accepts, the scheme without which `new URL(s)` has nothing to parse, and how an input
 * element sanitises a value assigned to it.
 */
module HtmlRules {
  import opened JsText

  // ---------------------------------------------------------------- class tokens

  /** ASCII white space: tab, line feed, form feed, carriage return and space. */
  predicate IsAsciiSpace(c: char) {
    c == '\t' || c == '\n' || c == '\U{000C}' || c == '\r' || c == ' '
  }

  predicate HasAsciiSpace(s: string) {
    exists k :: 0 <= k < |s| && IsAsciiSpace(s[k])
  }

  /**
   * A token `classList.add` accepts: an empty one raises SyntaxError and one holding ASCII
   * white space raises InvalidCharacterError.
   */
  predicate ValidToken(token: string) {
    token != "" && !HasAsciiSpace(token)
  }

  /** The `${Type}-wrapper` class is accepted exactly when the Type holds no ASCII white space. */
  lemma WrapperTokenValid(fieldType: string)
    ensures ValidToken(fieldType + "-wrapper") <==> !HasAsciiSpace(fieldType)
  {
    var token := fieldType + "-wrapper";
    if HasAsciiSpace(fieldType) {
      var k :| 0 <= k < |fieldType| && IsAsciiSpace(fieldType[k]);
      assert token[k] == fieldType[k];
    } else {
      forall k | 0 <= k < |token| ensures !IsAsciiSpace(token[k]) {
        if k < |fieldType| {
          assert token[k] == fieldType[k];
        } else {
          assert token[k] == "-wrapper"[k - |fieldType|];
        }
      }
    }
  }

  /** Lower-casing neither adds nor removes ASCII white space. */
  lemma LowerKeepsAsciiSpace(s: string)
    ensures HasAsciiSpace(Lower(s)) <==> HasAsciiSpace(s)
  {
    var l := Lower(s);
    assert forall k :: 0 <= k < |s| ==> (IsAsciiSpace(l[k]) <==> IsAsciiSpace(s[k]));
    if HasAsciiSpace(s) {
      var k :| 0 <= k < |s| && IsAsciiSpace(s[k]);
      assert IsAsciiSpace(l[k]);
    }
    if HasAsciiSpace(l) {
      var k :| 0 <= k < |l| && IsAsciiSpace(l[k]);
      assert IsAsciiSpace(s[k]);
    }
  }

  // ---------------------------------------------------------------- URL schemes

  /** A C0 control or a space: what the URL parser strips from the front of its input. */
  predicate IsC0OrSpace(c: char) {
    c <= ' '
  }

  /** Tab and line breaks, which the URL parser removes wherever they stand. */
  predicate IsTabOrNewline(c: char) {
    c == '\t' || c == '\n' || c == '\r'
  }

  predicate IsAsciiAlpha(c: char) {
    'a' <= c <= 'z' || 'A' <= c <= 'Z'
  }

  predicate IsSchemeChar(c: char) {
    IsAsciiAlpha(c) || IsDigit(c) || c == '+' || c == '-' || c == '.'
  }

  function StripC0Front(s: string): (r: string)
    ensures |r| <= |s|
    ensures r != [] ==> !IsC0OrSpace(r[0])
  {
    if s != [] && IsC0OrSpace(s[0]) then StripC0Front(s[1..]) else s
  }

  /** Scheme characters, tabs and line breaks, then the ':' that ends the scheme. */
  predicate SchemeTail(s: string) {
    s != [] && (s[0] == ':' || ((IsSchemeChar(s[0]) || IsTabOrNewline(s[0])) && SchemeTail(s[1..])))
  }

  /**
   * The input opens with a scheme: past the leading C0 controls and spaces, an ASCII letter,
   * then letters, digits, '+', '-' or '.' up to a ':'. Without one the parser reaches its
   * "no scheme" state, which fails when no base URL is given, so `new URL(s)` throws.
   */
  predicate HasUrlScheme(s: string) {
    var t := StripC0Front(s);
    t != [] && IsAsciiAlpha(t[0]) && SchemeTail(t[1..])
  }

  /** An empty string and a path have no scheme, so `new URL` throws on them. */
  lemma NoUrlSchemeExamples()
    ensures !HasUrlScheme("") && !HasUrlScheme("/thanks")
  {
    assert StripC0Front("/thanks") == "/thanks";
  }

  /** Scheme characters followed by a ':' complete a scheme, whatever comes after. */
  lemma {:induction false} SchemeTailOf(a: string, rest: string)
    requires forall k :: 0 <= k < |a| ==> IsSchemeChar(a[k])
    requires rest != [] && rest[0] == ':'
    ensures SchemeTail(a + rest)
  {
    if a == [] {
      assert a + rest == rest;
    } else {
      SchemeTailOf(a[1..], rest);
      assert (a + rest)[1..] == a[1..] + rest;
    }
  }

  /** Every "https:" address has a scheme, whatever follows it. */
  lemma HttpsHasScheme(rest: string)
    ensures HasUrlScheme("https:" + rest)
  {
    var t := "https:" + rest;
    assert t[0] == 'h';
    assert StripC0Front(t) == t;
    assert t[1..] == "ttps" + t[5..] && t[5] == ':';
    SchemeTailOf("ttps", t[5..]);
  }

  // ---------------------------------------------------------------- input value sanitisation

  predicate IsNewline(c: char) {
    c == '\n' || c == '\r'
  }

  predicate NoNewline(s: string) {
    forall k :: 0 <= k < |s| ==> !IsNewline(s[k])
  }

  /** Line feeds and carriage returns removed, every other character kept in order. */
  function StripNewlines(s: string): (r: string)
    ensures |r| <= |s| && NoNewline(r)
    ensures |s| == 1 ==> (IsNewline(s[0]) ==> r == []) && (!IsNewline(s[0]) ==> r == s)
  {
    if s == [] then []
    else StripNewlines(s[..|s| - 1]) + (if IsNewline(s[|s| - 1]) then [] else [s[|s| - 1]])
  }

  /** Stripping works character by character: it distributes over concatenation. */
  lemma {:induction false} StripNewlinesAppend(a: string, b: string)
    ensures StripNewlines(a + b) == StripNewlines(a) + StripNewlines(b)
    decreases |b|
  {
    if b != [] {
      var b' := b[..|b| - 1];
      assert (a + b)[..|a + b| - 1] == a + b';
      StripNewlinesAppend(a, b');
    } else {
      assert a + b == a;
    }
  }

  lemma {:induction false} StripNewlinesKeeps(s: string)
    requires NoNewline(s)
    ensures StripNewlines(s) == s
  {
    if s != [] {
      StripNewlinesKeeps(s[..|s| - 1]);
    }
  }

  /** `s[i..j]` is what is left of `s` after cutting ASCII white space from its two ends. */
  predicate BlankCut(s: string, i: int, j: int) {
    && 0 <= i <= j <= |s|
    && (forall k :: 0 <= k < i ==> IsAsciiSpace(s[k]))
    && (forall k :: j <= k < |s| ==> IsAsciiSpace(s[k]))
  }

  /** `r` is `s` with only ASCII white space cut, and only from its two ends. */
  predicate BlankTrimmed(s: string, r: string) {
    var i := LeadingBlanks(s);
    BlankCut(s, i, i + |r|) && r == s[i..i + |r|]
  }

  /** The length of the run of ASCII white space `s` starts with. */
  function LeadingBlanks(s: string): (n: nat)
    ensures n <= |s|
    ensures forall k :: 0 <= k < n ==> IsAsciiSpace(s[k])
    ensures n < |s| ==> !IsAsciiSpace(s[n])
  {
    if s != [] && IsAsciiSpace(s[0]) then 1 + LeadingBlanks(s[1..]) else 0
  }

  /** The length of the run of ASCII white space `s` ends with. */
  function TrailingBlanks(s: string): (n: nat)
    ensures n <= |s|
    ensures forall k :: |s| - n <= k < |s| ==> IsAsciiSpace(s[k])
    ensures n < |s| ==> !IsAsciiSpace(s[|s| - n - 1])
  {
    if s != [] && IsAsciiSpace(s[|s| - 1]) then 1 + TrailingBlanks(s[..|s| - 1]) else 0
  }

  /**
   * ASCII white space removed from both ends: a slice of `s` that leaves out only white space,
   * and whose own ends are not white space.
   */
  function TrimAscii(s: string): (r: string)
    ensures BlankTrimmed(s, r)
    ensures r != [] ==> !IsAsciiSpace(r[0]) && !IsAsciiSpace(r[|r| - 1])
  {
    var t := s[LeadingBlanks(s)..];
    t[..|t| - TrailingBlanks(t)]
  }

  lemma TrimAsciiKeeps(s: string)
    requires s == [] || (!IsAsciiSpace(s[0]) && !IsAsciiSpace(s[|s| - 1]))
    ensures TrimAscii(s) == s
  {
    assert LeadingBlanks(s) == 0;
    assert TrailingBlanks(s) == 0;
  }

  /** The length of the run of decimal digits `s` starts with. */
  function DigitRun(s: string): (n: nat)
    ensures n <= |s|
    ensures forall k :: 0 <= k < n ==> IsDigit(s[k])
    ensures n < |s| ==> !IsDigit(s[n])
  {
    if s != [] && IsDigit(s[0]) then 1 + DigitRun(s[1..]) else 0
  }

  /** One or more digits, after an optional sign. */
  predicate SignedDigits(s: string) {
    var t := if s != [] && (s[0] == '+' || s[0] == '-') then s[1..] else s;
    t != [] && DigitRun(t) == |t|
  }

  /** Nothing, or an exponent: 'e' or 'E' and signed digits. */
  predicate ExponentOrEnd(s: string) {
    s == [] || ((s[0] == 'e' || s[0] == 'E') && SignedDigits(s[1..]))
  }

  /** Digits, a '.' and at least one digit, or both, then an optional exponent. */
  predicate UnsignedFloat(s: string) {
    var n := DigitRun(s);
    var r := s[n..];
    if r != [] && r[0] == '.' then
      var m := DigitRun(r[1..]);
      m > 0 && ExponentOrEnd(r[1 + m..])
    else n > 0 && ExponentOrEnd(r)
  }

  /** A valid floating-point number in the sense of HTML: an optional '-' and an unsigned number. */
  predicate ValidFloat(s: string) {
    if s != [] && s[0] == '-' then UnsignedFloat(s[1..]) else UnsignedFloat(s)
  }

  predicate IsHexDigit(c: char) {
    IsDigit(c) || 'a' <= c <= 'f' || 'A' <= c <= 'F'
  }

  /** A valid simple colour: '#' and six hexadecimal digits. */
  predicate SimpleColor(s: string) {
    |s| == 7 && s[0] == '#' && forall k :: 1 <= k < 7 ==> IsHexDigit(s[k])
  }

  /** The input types whose value only loses its line breaks. */
  predicate LineKind(kind: string) {
    kind == "text" || kind == "search" || kind == "tel" || kind == "password"
  }

  /** The input types whose value also loses its surrounding white space. */
  predicate AddressKind(kind: string) {
    kind == "url" || kind == "email"
  }

  lemma NoNewlineSlice(s: string, i: nat, j: nat)
    requires NoNewline(s) && i <= j <= |s|
    ensures NoNewline(s[i..j])
  {
    assert forall k :: 0 <= k < j - i ==> s[i..j][k] == s[i + k];
  }

  lemma LowerKeepsSimpleColor(v: string)
    requires SimpleColor(v)
    ensures SimpleColor(Lower(v))
  {
    assert forall k :: 1 <= k < 7 ==> IsHexDigit(Lower(v)[k]);
  }

  /**
   * The value an input holds after `input.value = v`, by its type. Text-like types drop line
   * breaks; "url" and "email" also lose leading and trailing ASCII white space; a "number"
   * that does not parse becomes ""; a "color" is lower-cased, or "#000000" when it is not
   * '#' with six hexadecimal digits. The other types keep the value as given.
   */
  function Sanitized(kind: string, v: string): (r: string)
    ensures LineKind(kind) || AddressKind(kind) ==> NoNewline(r)
    ensures AddressKind(kind) ==> r == [] || (!IsAsciiSpace(r[0]) && !IsAsciiSpace(r[|r| - 1]))
    ensures AddressKind(kind) ==> BlankTrimmed(StripNewlines(v), r)
    ensures kind == "number" ==> (ValidFloat(v) ==> r == v) && (!ValidFloat(v) ==> r == "")
    ensures LineKind(kind) ==> r == StripNewlines(v)
    ensures kind == "color" ==> SimpleColor(r)
    ensures kind == "color" ==> (SimpleColor(v) ==> r == Lower(v)) && (!SimpleColor(v) ==> r == "#000000")
  {
    if LineKind(kind) then StripNewlines(v)
    else if AddressKind(kind) then
      var s := StripNewlines(v);
      var r := TrimAscii(s);
      NoNewlineSlice(s, LeadingBlanks(s), LeadingBlanks(s) + |r|);
      r
    else if kind == "number" then (if ValidFloat(v) then v else "")
    else if kind == "color" then
      (if SimpleColor(v) then LowerKeepsSimpleColor(v); Lower(v) else "#000000")
    else v
  }

  /** Assigning the value an input reports leaves it unchanged: sanitising is idempotent. */
  lemma SanitizedIdempotent(kind: string, v: string)
    ensures Sanitized(kind, Sanitized(kind, v)) == Sanitized(kind, v)
  {
    var r := Sanitized(kind, v);
    if LineKind(kind) {
      StripNewlinesKeeps(r);
    } else if AddressKind(kind) {
      StripNewlinesKeeps(r);
      TrimAsciiKeeps(r);
    } else if kind == "color" {
      LowerIdempotent(v);
      assert Lower("#000000") == "#000000";
    }
  }

  /** An email value loses its line break and its surrounding blanks. */
  lemma EmailSanitizedExample()
    ensures Sanitized("email", " a@b.co\n") == "a@b.co"
  {
    var s := " a@b.co";
    assert " a@b.co\n"[..|s|] == s;
    StripNewlinesKeeps(s);
    assert StripNewlines(" a@b.co\n") == s;
    TrimAsciiKeeps(s[1..]);
  }

  /** A CR LF pair inside a telephone number is dropped and the two sides are joined. */
  lemma TelLineBreakDropped(a: string, b: string)
    requires NoNewline(a) && NoNewline(b)
    ensures Sanitized("tel", a + "\r\n" + b) == a + b
  {
    NewlineDropped(a, '\r', "\n" + b);
    NewlineDropped([], '\n', b);
    assert a + ['\r'] + ("\n" + b) == a + "\r\n" + b;
    assert [] + ['\n'] + b == "\n" + b;
    StripNewlinesKeeps(a);
    StripNewlinesKeeps(b);
  }

  /** A line break between two strings is dropped, and each side is stripped on its own. */
  lemma NewlineDropped(a: string, c: char, b: string)
    requires IsNewline(c)
    ensures StripNewlines(a + [c] + b) == StripNewlines(a) + StripNewlines(b)
  {
    StripNewlinesAppend(a, [c]);
    StripNewlinesAppend(a + [c], b);
  }

  /** A number with digits, a fraction and an exponent is kept. */
  lemma NumberSanitizedKeeps()
    ensures Sanitized("number", "1.5e3") == "1.5e3"
  {
    assert DigitRun("1.5e3") == 1 by { assert "1.5e3"[1..] == ".5e3"; }
    assert DigitRun("5e3") == 1 by { assert "5e3"[1..] == "e3"; }
    assert "1.5e3"[1..][1..] == "5e3";
  }

  /** A negative bare fraction is kept. */
  lemma NegativeFractionKept()
    ensures Sanitized("number", "-.5") == "-.5"
  {
    assert DigitRun("5") == 1 by { assert "5"[1..] == ""; }
  }

  /** Trailing letters and a '.' without digits after it make the value empty. */
  lemma NumberSanitizedDrops()
    ensures Sanitized("number", "12abc") == "" && Sanitized("number", "1.") == ""
  {
    assert DigitRun("12abc") == 2 by { assert "12abc"[1..] == "2abc"; assert "2abc"[1..] == "abc"; }
    assert DigitRun("1.") == 1 by { assert "1."[1..] == "."; }
  }

  /** A colour is lower-cased when well-formed and black otherwise. */
  lemma ColorSanitizedExamples()
    ensures Sanitized("color", "#ABCDEF") == "#abcdef" && Sanitized("color", "red") == "#000000"
  {
  }
}
