/**
 * The JavaScript string built-ins the blocks rely on: `toLowerCase` (ASCII letters),
 * `trim` and the regular-expression class `\s`, `split(',')` and its inverse,
 * `includes`, and the decimal rendering of a non-negative integer in a template string.
 */
module JsText {

  /** ECMAScript WhiteSpace and LineTerminator: what `trim` strips and what `\s` matches. */
  predicate IsSpace(c: char) {
    || c == ' ' || c == '\t' || c == '\n' || c == '\r'
    || c == '\U{000B}' || c == '\U{000C}' || c == '\U{00A0}' || c == '\U{FEFF}'
    || c == '\U{1680}' || ('\U{2000}' <= c <= '\U{200A}')
    || c == '\U{2028}' || c == '\U{2029}' || c == '\U{202F}' || c == '\U{205F}' || c == '\U{3000}'
  }

  predicate NoSpace(s: string) {
    forall k :: 0 <= k < |s| ==> !IsSpace(s[k])
  }

  // ---------------------------------------------------------------- toLowerCase

  function LowerChar(c: char): char {
    if 'A' <= c <= 'Z' then (c as int + 32) as char else c
  }

  /** `s.toLowerCase()`, restricted to the ASCII letters. */
  function Lower(s: string): (r: string)
    ensures |r| == |s|
    ensures forall i :: 0 <= i < |s| ==> r[i] == LowerChar(s[i])
  {
    seq(|s|, i requires 0 <= i < |s| => LowerChar(s[i]))
  }

  /** Lower-casing twice is lower-casing once, so a lower-cased key looks itself up. */
  lemma LowerIdempotent(s: string)
    ensures Lower(Lower(s)) == Lower(s)
  {
    var l := Lower(s);
    assert forall i :: 0 <= i < |l| ==> LowerChar(l[i]) == l[i];
  }

  // ---------------------------------------------------------------- trim

  /** `s.trim()`: white space removed from both ends. */
  function Trim(s: string): (r: string)
    ensures |r| <= |s|
    ensures r != [] ==> !IsSpace(r[0]) && !IsSpace(r[|r| - 1])
  {
    if s != [] && IsSpace(s[0]) then Trim(s[1..])
    else if s != [] && IsSpace(s[|s| - 1]) then Trim(s[..|s| - 1])
    else s
  }

  /** How many characters `trim` removes from the front. */
  function TrimmedFront(s: string): (n: nat)
    ensures n + |Trim(s)| <= |s|
  {
    if s != [] && IsSpace(s[0]) then 1 + TrimmedFront(s[1..])
    else if s != [] && IsSpace(s[|s| - 1]) then TrimmedFront(s[..|s| - 1])
    else 0
  }

  /**
   * `trim` removes only white space, and only at the ends: the result is the slice of `s`
   * after the removed front, and what lies before and after that slice is white space.
   */
  lemma {:induction false} TrimIsSlice(s: string)
    ensures var i := TrimmedFront(s);
            var j := i + |Trim(s)|;
            Trim(s) == s[i..j] && NoneButSpace(s[..i]) && NoneButSpace(s[j..])
    decreases |s|, 1
  {
    if s != [] && IsSpace(s[0]) {
      TrimFrontIsSlice(s);
    } else if s != [] && IsSpace(s[|s| - 1]) {
      TrimBackIsSlice(s);
    } else {
      assert TrimmedFront(s) == 0 && Trim(s) == s;
    }
  }

  lemma {:induction false} TrimFrontIsSlice(s: string)
    requires s != [] && IsSpace(s[0])
    ensures var i := TrimmedFront(s);
            var j := i + |Trim(s)|;
            Trim(s) == s[i..j] && NoneButSpace(s[..i]) && NoneButSpace(s[j..])
    decreases |s|, 0
  {
    var t := s[1..];
    TrimIsSlice(t);
    var i, j := TrimmedFront(t), TrimmedFront(t) + |Trim(t)|;
    SpaceBefore(s, i, j);
    assert TrimmedFront(s) == 1 + i && Trim(s) == Trim(t);
  }

  lemma {:induction false} TrimBackIsSlice(s: string)
    requires s != [] && !IsSpace(s[0]) && IsSpace(s[|s| - 1])
    ensures var i := TrimmedFront(s);
            var j := i + |Trim(s)|;
            Trim(s) == s[i..j] && NoneButSpace(s[..i]) && NoneButSpace(s[j..])
    decreases |s|, 0
  {
    var t := s[..|s| - 1];
    TrimIsSlice(t);
    var i, j := TrimmedFront(t), TrimmedFront(t) + |Trim(t)|;
    SpaceAfter(s, i, j);
    assert TrimmedFront(s) == i && Trim(s) == Trim(t);
  }

  /** A white-space character in front keeps a slice of the rest framed by white space. */
  lemma SpaceBefore(s: string, i: nat, j: nat)
    requires s != [] && IsSpace(s[0]) && i <= j <= |s| - 1
    requires NoneButSpace(s[1..][..i]) && NoneButSpace(s[1..][j..])
    ensures s[1 + i..1 + j] == s[1..][i..j] && NoneButSpace(s[..1 + i]) && NoneButSpace(s[1 + j..])
  {
    assert forall k :: 0 <= k < j - i ==> s[1 + i..1 + j][k] == s[1..][i..j][k];
    assert s[1 + j..] == s[1..][j..];
    forall k | 0 <= k < 1 + i ensures IsSpace(s[k]) {
      if k > 0 {
        assert s[k] == s[1..][..i][k - 1];
      }
    }
  }

  /** A white-space character at the end keeps a slice of the rest framed by white space. */
  lemma SpaceAfter(s: string, i: nat, j: nat)
    requires s != [] && IsSpace(s[|s| - 1]) && i <= j <= |s| - 1
    requires NoneButSpace(s[..|s| - 1][..i]) && NoneButSpace(s[..|s| - 1][j..])
    ensures s[i..j] == s[..|s| - 1][i..j] && NoneButSpace(s[..i]) && NoneButSpace(s[j..])
  {
    assert forall k :: 0 <= k < j - i ==> s[i..j][k] == s[..|s| - 1][i..j][k];
    assert s[..i] == s[..|s| - 1][..i];
    forall k | j <= k < |s| ensures IsSpace(s[k]) {
      if k < |s| - 1 {
        assert s[k] == s[..|s| - 1][j..][k - j];
      }
    }
  }

  /** A value is empty after trimming exactly when it is made of white space only. */
  lemma {:induction false} TrimEmptyIffBlank(s: string)
    ensures Trim(s) == "" <==> NoneButSpace(s)
  {
    if s != [] && IsSpace(s[0]) {
      TrimEmptyIffBlank(s[1..]);
      assert NoneButSpace(s) <==> NoneButSpace(s[1..]) by {
        if NoneButSpace(s[1..]) {
          forall k | 0 <= k < |s| ensures IsSpace(s[k]) {
            if k > 0 { assert s[k] == s[1..][k - 1]; }
          }
        }
      }
    } else if s != [] && IsSpace(s[|s| - 1]) {
      var t := s[..|s| - 1];
      TrimEmptyIffBlank(t);
      // s[0] is not white space, and neither is t[0], the same character
      assert t[0] == s[0];
    }
  }

  predicate NoneButSpace(s: string) {
    forall k :: 0 <= k < |s| ==> IsSpace(s[k])
  }

  /** Trimming a trimmed string changes nothing (the select options are trimmed twice). */
  lemma TrimIdempotent(s: string)
    ensures Trim(Trim(s)) == Trim(s)
  {
  }

  // ---------------------------------------------------------------- split / join

  /** `s.split(sep)` for a one-character separator: always at least one piece. */
  function Split(s: string, sep: char): (parts: seq<string>)
    ensures |parts| >= 1
    ensures forall i :: 0 <= i < |parts| ==> sep !in parts[i]
  {
    if s == [] then [""]
    else
      var rest := Split(s[1..], sep);
      if s[0] == sep then [""] + rest
      else [[s[0]] + rest[0]] + rest[1..]
  }

  /** `parts.join(sep)`. */
  function Join(parts: seq<string>, sep: char): string
    requires |parts| >= 1
  {
    if |parts| == 1 then parts[0] else parts[0] + [sep] + Join(parts[1..], sep)
  }

  /** Joining the pieces of a split gives back the original string. */
  lemma {:induction false} JoinSplit(s: string, sep: char)
    ensures Join(Split(s, sep), sep) == s
  {
    if s != [] {
      var rest := Split(s[1..], sep);
      JoinSplit(s[1..], sep);
      if s[0] == sep {
        assert Split(s, sep)[1..] == rest;
      } else {
        var parts := Split(s, sep);
        if |rest| == 1 {
          assert parts == [[s[0]] + rest[0]];
        } else {
          assert parts[1..] == rest[1..];
          assert Join(rest, sep) == rest[0] + [sep] + Join(rest[1..], sep);
        }
      }
    }
  }

  /** Splitting a join of separator-free pieces gives back the pieces. */
  lemma {:induction false} SplitJoin(parts: seq<string>, sep: char)
    requires |parts| >= 1
    requires forall i :: 0 <= i < |parts| ==> sep !in parts[i]
    ensures Split(Join(parts, sep), sep) == parts
  {
    if |parts| == 1 {
      SplitNoSeparator(parts[0], sep);
    } else {
      SplitJoin(parts[1..], sep);
      SplitPrefix(parts[0], Join(parts[1..], sep), sep);
      assert Join(parts, sep) == parts[0] + ([sep] + Join(parts[1..], sep));
    }
  }

  lemma {:induction false} SplitNoSeparator(s: string, sep: char)
    requires sep !in s
    ensures Split(s, sep) == [s]
  {
    if s != [] {
      SplitNoSeparator(s[1..], sep);
      assert [s[0]] + s[1..] == s;
    }
  }

  /** A separator-free prefix becomes the first piece and the rest is split as before. */
  lemma {:induction false} SplitPrefix(p: string, t: string, sep: char)
    requires sep !in p
    ensures Split(p + [sep] + t, sep) == [p] + Split(t, sep)
  {
    if p == [] {
      assert p + [sep] + t == [sep] + t;
      assert ([sep] + t)[1..] == t;
    } else {
      SplitPrefix(p[1..], t, sep);
      assert (p + [sep] + t)[1..] == p[1..] + [sep] + t;
      assert [p[0]] + p[1..] == p;
    }
  }

  /** Joining one more piece onto a join. */
  lemma {:induction false} JoinSnoc(parts: seq<string>, x: string, sep: char)
    requires |parts| >= 1
    ensures Join(parts + [x], sep) == Join(parts, sep) + [sep] + x
  {
    if |parts| == 1 {
      assert (parts + [x])[1..] == [x];
    } else {
      assert (parts + [x])[1..] == parts[1..] + [x];
      JoinSnoc(parts[1..], x, sep);
    }
  }

  // ---------------------------------------------------------------- includes

  /** `s.includes(sub)`. */
  predicate Contains(s: string, sub: string) {
    sub <= s || (s != [] && Contains(s[1..], sub))
  }

  /** `includes` finds its argument wherever it stands. */
  lemma {:induction false} ContainsInfix(a: string, sub: string, b: string)
    ensures Contains(a + sub + b, sub)
  {
    if a == [] {
      assert a + sub + b == sub + b;
    } else {
      ContainsInfix(a[1..], sub, b);
      assert (a + sub + b)[1..] == a[1..] + sub + b;
    }
  }

  // ---------------------------------------------------------------- numbers in templates

  function DigitChar(d: nat): char
    requires d < 10
  {
    ('0' as int + d) as char
  }

  predicate IsDigit(c: char) {
    '0' <= c <= '9'
  }

  /** `${n}` for a non-negative integer: its decimal digits, without leading zeros. */
  function NatToString(n: nat): (r: string)
    ensures |r| >= 1
    ensures forall i :: 0 <= i < |r| ==> IsDigit(r[i])
    ensures |r| > 1 ==> r[0] != '0'
  {
    if n < 10 then [DigitChar(n)] else NatToString(n / 10) + [DigitChar(n % 10)]
  }

  /** The value of a string of decimal digits. */
  function DecimalValue(s: string): nat
    requires forall i :: 0 <= i < |s| ==> IsDigit(s[i])
  {
    if s == [] then 0
    else
      assert IsDigit(s[|s| - 1]);
      DecimalValue(s[..|s| - 1]) * 10 + (s[|s| - 1] as int - '0' as int)
  }

  /** Reading the digits back gives the number: the rendering loses nothing. */
  lemma {:induction false} DecimalValueOfNatToString(n: nat)
    ensures DecimalValue(NatToString(n)) == n
  {
    if n >= 10 {
      DecimalValueOfNatToString(n / 10);
      var r := NatToString(n);
      assert r[..|r| - 1] == NatToString(n / 10);
    }
  }

  /** Different numbers render differently. */
  lemma NatToStringInjective(m: nat, n: nat)
    requires m != n
    ensures NatToString(m) != NatToString(n)
  {
    DecimalValueOfNatToString(m);
    DecimalValueOfNatToString(n);
  }
}
