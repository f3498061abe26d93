/** String operations of the standard library that the modelled code relies on. */
module Text {
  import opened Wrappers

  /** The Unicode White_Space characters, which `trim` and `split_whitespace` recognise. */
  predicate IsWhitespace(c: char) {
    || '\U{0009}' <= c <= '\U{000D}'
    || c == ' ' || c == '\U{0085}' || c == '\U{00A0}' || c == '\U{1680}'
    || '\U{2000}' <= c <= '\U{200A}'
    || c == '\U{2028}' || c == '\U{2029}' || c == '\U{202F}' || c == '\U{205F}' || c == '\U{3000}'
  }

  /** The blank characters of ASCII, those of Latin-1, and the other ones. */
  lemma WhitespaceIff(c: char)
    ensures IsWhitespace(c) <==>
              || c in ['\t', '\n', '\U{000B}', '\U{000C}', '\r', ' ', '\U{0085}', '\U{00A0}', '\U{1680}']
              || c in ['\U{2000}', '\U{2001}', '\U{2002}', '\U{2003}', '\U{2004}', '\U{2005}', '\U{2006}', '\U{2007}']
              || c in ['\U{2008}', '\U{2009}', '\U{200A}', '\U{2028}', '\U{2029}', '\U{202F}', '\U{205F}', '\U{3000}']
  {
  }

  /** The value is empty once trimmed. */
  predicate IsBlank(s: string) {
    forall i :: 0 <= i < |s| ==> IsWhitespace(s[i])
  }

  function TrimStart(s: string): (r: string)
    ensures r == [] || !IsWhitespace(r[0])
    ensures |r| <= |s| && r == s[|s| - |r|..]
  {
    if s != [] && IsWhitespace(s[0]) then TrimStart(s[1..]) else s
  }

  function TrimEnd(s: string): (r: string)
    ensures r == [] || !IsWhitespace(r[|r| - 1])
    ensures r <= s
  {
    if s != [] && IsWhitespace(s[|s| - 1]) then TrimEnd(s[..|s| - 1]) else s
  }

  function Trim(s: string): (r: string)
    ensures r == [] || (!IsWhitespace(r[0]) && !IsWhitespace(r[|r| - 1]))
  {
    var t := TrimStart(s);
    var r := TrimEnd(t);
    assert r != [] ==> r[0] == t[0];
    r
  }

  lemma TrimAddsNothing(s: string, c: char)
    requires c !in s
    ensures c !in Trim(s)
  {
    hide TrimStart, TrimEnd, IsWhitespace;
    var t := TrimStart(s);
    assert c !in t;
    assert Trim(s) == TrimEnd(t) <= t;
  }

  /** Trimming leaves alone a string that neither starts nor ends with white space. */
  lemma TrimIsIdentity(s: string)
    requires s == [] || (!IsWhitespace(s[0]) && !IsWhitespace(s[|s| - 1]))
    ensures Trim(s) == s
  {
  }

  lemma {:induction false} TrimStartOf(pad: string, s: string)
    requires IsBlank(pad) && (s == [] || !IsWhitespace(s[0]))
    ensures TrimStart(pad + s) == s
  {
    hide IsWhitespace;
    if pad == [] {
      assert pad + s == s;
    } else {
      assert (pad + s)[0] == pad[0] && (pad + s)[1..] == pad[1..] + s;
      TrimStartOf(pad[1..], s);
    }
  }

  lemma {:induction false} TrimEndOf(s: string, pad: string)
    requires IsBlank(pad) && (s == [] || !IsWhitespace(s[|s| - 1]))
    ensures TrimEnd(s + pad) == s
  {
    hide IsWhitespace;
    if pad == [] {
      assert s + pad == s;
    } else {
      var n := |pad| - 1;
      assert (s + pad)[|s| + n] == pad[n] && (s + pad)[..|s| + n] == s + pad[..n];
      TrimEndOf(s, pad[..n]);
    }
  }

  /** Trimming takes away exactly the white space at both ends. */
  lemma TrimOfPadded(before: string, s: string, after: string)
    requires IsBlank(before) && IsBlank(after)
    requires s == [] || (!IsWhitespace(s[0]) && !IsWhitespace(s[|s| - 1]))
    ensures Trim(before + s + after) == s
  {
    if s == [] {
      assert before + s + after == before + after + s;
      assert IsBlank(before + after);
      TrimStartOf(before + after, s);
    } else {
      assert before + s + after == before + (s + after);
      assert (s + after)[0] == s[0];
      TrimStartOf(before, s + after);
      TrimEndOf(s, after);
    }
  }

  lemma {:induction false} TrimStartDropsBlank(s: string, i: nat)
    requires i < |s| - |TrimStart(s)|
    ensures IsWhitespace(s[i])
  {
    hide IsWhitespace;
    if i > 0 {
      TrimStartDropsBlank(s[1..], i - 1);
    }
  }

  lemma TrimStartDropsBlanks(s: string)
    ensures IsBlank(s[..|s| - |TrimStart(s)|])
  {
    hide TrimStart, IsWhitespace;
    forall i: nat | i < |s| - |TrimStart(s)| ensures IsWhitespace(s[i]) {
      TrimStartDropsBlank(s, i);
    }
  }

  lemma {:induction false} TrimEndDropsBlank(s: string, i: nat)
    requires |TrimEnd(s)| <= i < |s|
    ensures IsWhitespace(s[i])
  {
    hide IsWhitespace;
    if i < |s| - 1 {
      TrimEndDropsBlank(s[..|s| - 1], i);
    }
  }

  lemma TrimEndDropsBlanks(s: string)
    ensures IsBlank(s[|TrimEnd(s)|..])
  {
    hide TrimEnd, IsWhitespace;
    forall i: nat | |TrimEnd(s)| <= i < |s| ensures IsWhitespace(s[i]) {
      TrimEndDropsBlank(s, i);
    }
  }

  lemma TrimParts(s: string) returns (before: string, after: string)
    ensures IsBlank(before) && IsBlank(after) && s == before + Trim(s) + after
  {
    hide IsWhitespace, TrimStart, TrimEnd, IsBlank;
    var t := TrimStart(s);
    TrimStartDropsBlanks(s);
    TrimEndDropsBlanks(t);
    before, after := s[..|s| - |t|], t[|TrimEnd(t)|..];
  }

  /** `split` on one character: always at least one part. */
  function Split(s: string, sep: char): (parts: seq<string>)
    ensures |parts| >= 1
    ensures forall i :: 0 <= i < |parts| ==> sep !in parts[i]
  {
    if s == [] then [""]
    else
      var rest := Split(s[1..], sep);
      if s[0] == sep then [""] + rest else [[s[0]] + rest[0]] + rest[1..]
  }

  function Join(parts: seq<string>, sep: char): string {
    if |parts| == 0 then ""
    else if |parts| == 1 then parts[0]
    else parts[0] + [sep] + Join(parts[1..], sep)
  }

  lemma {:induction false} JoinSplit(s: string, sep: char)
    ensures Join(Split(s, sep), sep) == s
  {
    if s != [] {
      var rest := Split(s[1..], sep);
      JoinSplit(s[1..], sep);
      if s[0] == sep {
        assert ([""] + rest)[1..] == rest;
      } else {
        var parts := [[s[0]] + rest[0]] + rest[1..];
        assert parts[1..] == rest[1..];
      }
    }
  }

  lemma {:induction false} SplitOfPart(part: string, sep: char)
    requires sep !in part
    ensures Split(part, sep) == [part]
  {
    if part != [] {
      SplitOfPart(part[1..], sep);
      assert [part[0]] + part[1..] == part;
    }
  }

  lemma {:induction false} SplitOfPartThen(part: string, rest: string, sep: char)
    requires sep !in part
    ensures Split(part + [sep] + rest, sep) == [part] + Split(rest, sep)
  {
    var whole := part + [sep] + rest;
    if part == [] {
      assert whole[1..] == rest;
    } else {
      SplitOfPartThen(part[1..], rest, sep);
      assert whole[1..] == part[1..] + [sep] + rest;
      assert [part[0]] + part[1..] == part;
    }
  }

  lemma {:induction false} JoinConcat(a: seq<string>, b: seq<string>, sep: char)
    requires a != [] && b != []
    ensures Join(a + b, sep) == Join(a, sep) + [sep] + Join(b, sep)
  {
    if |a| == 1 {
      assert (a + b)[1..] == b;
    } else {
      JoinConcat(a[1..], b, sep);
      assert (a + b)[1..] == a[1..] + b;
    }
  }

  /** Splitting what was joined gives the parts back. */
  lemma {:induction false} SplitJoin(parts: seq<string>, sep: char)
    requires |parts| >= 1
    requires forall i :: 0 <= i < |parts| ==> sep !in parts[i]
    ensures Split(Join(parts, sep), sep) == parts
  {
    if |parts| == 1 {
      SplitOfPart(parts[0], sep);
    } else {
      SplitJoin(parts[1..], sep);
      SplitOfPartThen(parts[0], Join(parts[1..], sep), sep);
    }
  }

  lemma SplitConcat(a: string, b: string, sep: char)
    ensures Split(a + [sep] + b, sep) == Split(a, sep) + Split(b, sep)
  {
    hide Split, Join;
    var parts := Split(a, sep) + Split(b, sep);
    JoinSplit(a, sep);
    JoinSplit(b, sep);
    JoinConcat(Split(a, sep), Split(b, sep), sep);
    SplitJoin(parts, sep);
  }

  /** `rsplit_once` on one character: the index of its last occurrence. */
  function LastIndex(s: string, sep: char): (r: Option<nat>)
    ensures r.None? ==> sep !in s
    ensures r.Some? ==> r.value < |s| && s[r.value] == sep && sep !in s[r.value + 1..]
  {
    if s == [] then None
    else if s[|s| - 1] == sep then Some(|s| - 1)
    else LastIndex(s[..|s| - 1], sep)
  }

  /** `split_once` on one character: the index of its first occurrence. */
  function FirstIndex(s: string, sep: char): (r: Option<nat>)
    ensures r.None? ==> sep !in s
    ensures r.Some? ==> r.value < |s| && s[r.value] == sep && sep !in s[..r.value]
  {
    if s == [] then None
    else if s[0] == sep then Some(0)
    else match FirstIndex(s[1..], sep)
      case None => None
      case Some(i) =>
        assert s[..i + 1] == [s[0]] + s[1..][..i];
        Some(i + 1)
  }

  function AsciiLower(c: char): char {
    if 'A' <= c <= 'Z' then (c as int - 'A' as int + 'a' as int) as char else c
  }

  /** `eq_ignore_ascii_case` */
  predicate EqualsIgnoringAsciiCase(s: string, t: string) {
    |s| == |t| && forall i :: 0 <= i < |s| ==> AsciiLower(s[i]) == AsciiLower(t[i])
  }

  const U16_MAX: nat := 0xFFFF

  predicate IsDigit(c: char) { '0' <= c <= '9' }

  function DigitValue(c: char): (d: nat)
    requires IsDigit(c)
    ensures d < 10
  {
    (c as int) - ('0' as int)
  }

  function DigitChar(d: nat): (c: char)
    requires d < 10
    ensures IsDigit(c) && DigitValue(c) == d
  {
    (d + ('0' as int)) as char
  }

  /** Decimal printing of an unsigned number. */
  function Decimal(n: nat): (s: string)
    ensures |s| >= 1
    ensures forall i :: 0 <= i < |s| ==> IsDigit(s[i])
  {
    if n < 10 then [DigitChar(n)] else Decimal(n / 10) + [DigitChar(n % 10)]
  }

  function DigitsValue(s: string): nat
    requires forall i :: 0 <= i < |s| ==> IsDigit(s[i])
  {
    if s == [] then 0 else 10 * DigitsValue(s[..|s| - 1]) + DigitValue(s[|s| - 1])
  }

  predicate IsDigits(s: string) {
    s != [] && forall i :: 0 <= i < |s| ==> IsDigit(s[i])
  }

  /** `str::parse` of an unsigned integer whose largest value is `max`: an optional plus sign and digits. */
  function ParseUnsigned(s: string, max: nat): (r: Option<nat>)
    ensures r.Some? ==> r.value <= max
  {
    var digits := if |s| > 1 && s[0] == '+' then s[1..] else s;
    if !IsDigits(digits) then None
    else if DigitsValue(digits) > max then None
    else Some(DigitsValue(digits))
  }

  /** An optional plus sign and digits, whose value is this number. */
  ghost predicate IsNumber(s: string, n: nat, max: nat) {
    n <= max && exists digits :: (s == digits || s == "+" + digits) && IsDigits(digits) && DigitsValue(digits) == n
  }

  /** What parses is exactly the numbers that fit. */
  lemma ParseUnsignedIff(s: string, n: nat, max: nat)
    ensures ParseUnsigned(s, max) == Some(n) <==> IsNumber(s, n, max)
  {
    if ParseUnsigned(s, max) == Some(n) {
      var digits := if |s| > 1 && s[0] == '+' then s[1..] else s;
      assert s == digits || s == "+" + digits;
    }
    if digits :| (s == digits || s == "+" + digits) && IsDigits(digits) && DigitsValue(digits) == n {
      assert s == "+" + digits ==> s[1..] == digits;
      assert IsDigit(digits[0]);
    }
  }

  lemma NumberHasNoWhitespace(s: string, n: nat, max: nat)
    requires IsNumber(s, n, max)
    ensures s != [] && forall i :: 0 <= i < |s| ==> !IsWhitespace(s[i])
  {
  }

  lemma {:induction false} DecimalValue(n: nat)
    ensures DigitsValue(Decimal(n)) == n
  {
    if n >= 10 {
      DecimalValue(n / 10);
      var s := Decimal(n);
      assert s[..|s| - 1] == Decimal(n / 10);
    }
  }

  /** Parsing a printed number gives the number back, when it fits. */
  lemma ParseDecimal(n: nat, max: nat)
    requires n <= max
    ensures ParseUnsigned(Decimal(n), max) == Some(n)
  {
    DecimalValue(n);
    var s := Decimal(n);
    assert IsDigit(s[0]);
  }
}
