/** Parsing of the header block of a probe response. */
module HttpHeaders {
  import opened Wrappers
  import opened Text

  const USIZE_MAX: nat := 0xFFFF_FFFF_FFFF_FFFF

  datatype HttpProbeError =
    | ResponseHeadersUnavailable
    | InvalidResponseHeaders
    | ResponseTooLarge
    | ResponseBodyIncomplete
    | ResponseReadFailed

  datatype Headers = Headers(statusCode: nat, contentLength: Option<nat>)

  /** `std::str::from_utf8`; its details do not matter here. */
  type Utf8Decoder = seq<byte> -> Option<string>

  /** `split("\r\n")`: always at least one line. */
  function SplitLines(s: string): (lines: seq<string>)
    ensures |lines| >= 1
  {
    if s == [] then [""]
    else if |s| >= 2 && s[0] == '\r' && s[1] == '\n' then [""] + SplitLines(s[2..])
    else var rest := SplitLines(s[1..]); [[s[0]] + rest[0]] + rest[1..]
  }

  function WordLength(s: string): (n: nat)
    ensures n <= |s|
  {
    if s == [] || IsWhitespace(s[0]) then 0 else 1 + WordLength(s[1..])
  }

  /** `split_whitespace().next()`: the first word and what follows it. */
  function NextWord(s: string): Option<(string, string)> {
    var t := TrimStart(s);
    if t == [] then None else Some((t[..WordLength(t)], t[WordLength(t)..]))
  }

  function StatusCode(statusLine: string): Option<nat> {
    match NextWord(statusLine)
    case None => None
    case Some(version) =>
      if !("HTTP/1." <= version.0) then None
      else match NextWord(version.1)
        case None => None
        case Some(code) => ParseUnsigned(code.0, U16_MAX)
  }

  datatype Field = OtherField | Length(value: nat) | MalformedLength

  /** What one header line says about the length of the body. */
  function LineField(line: string): Field {
    match FirstIndex(line, ':')
    case None => OtherField
    case Some(i) =>
      if !EqualsIgnoringAsciiCase(line[..i], "content-length") then OtherField
      else match ParseUnsigned(Trim(line[i + 1..]), USIZE_MAX)
        case None => MalformedLength
        case Some(value) => Length(value)
  }

  predicate HasMalformedLength(lines: seq<string>) {
    exists i :: 0 <= i < |lines| && LineField(lines[i]) == MalformedLength
  }

  /** This value stands in a Content-Length line after which there is no other one. */
  ghost predicate IsLastLength(lines: seq<string>, length: Option<nat>) {
    match length
    case None => forall i :: 0 <= i < |lines| ==> !LineField(lines[i]).Length?
    case Some(value) =>
      exists i :: 0 <= i < |lines| && LineField(lines[i]) == Length(value)
                  && forall j :: i < j < |lines| ==> !LineField(lines[j]).Length?
  }

  /** The value of the last Content-Length line. */
  function LastLength(lines: seq<string>): Option<nat> {
    if lines == [] then None
    else match LineField(lines[|lines| - 1])
      case Length(value) => Some(value)
      case _ => LastLength(lines[..|lines| - 1])
  }

  lemma {:induction false} LastLengthIsLast(lines: seq<string>)
    ensures IsLastLength(lines, LastLength(lines))
  {
    hide LineField;
    if lines != [] && !LineField(lines[|lines| - 1]).Length? {
      var front := lines[..|lines| - 1];
      LastLengthIsLast(front);
      assert forall i :: 0 <= i < |front| ==> front[i] == lines[i];
    }
  }

  /** What a header block says: every Content-Length must be a number, and the last one counts. */
  function ParsedHeaders(headers: seq<byte>, decode: Utf8Decoder): Result<Headers, HttpProbeError> {
    match decode(headers)
    case None => Err(InvalidResponseHeaders)
    case Some(text) =>
      var lines := SplitLines(text);
      match StatusCode(lines[0])
      case None => Err(InvalidResponseHeaders)
      case Some(code) =>
        if HasMalformedLength(lines[1..]) then Err(InvalidResponseHeaders)
        else Ok(Headers(code, LastLength(lines[1..])))
  }

  method ParseHttpResponseHeaders(headers: seq<byte>, decode: Utf8Decoder)
    returns (r: Result<Headers, HttpProbeError>)
    ensures r == ParsedHeaders(headers, decode)
  {
    hide LineField, SplitLines, StatusCode;
    var text := decode(headers);
    if text.None? {
      return Err(InvalidResponseHeaders);
    }
    var lines := SplitLines(text.value);
    var code := StatusCode(lines[0]);
    if code.None? {
      return Err(InvalidResponseHeaders);
    }
    var fields := lines[1..];
    var contentLength := None;
    for i := 0 to |fields|
      invariant forall j :: 0 <= j < i ==> LineField(fields[j]) != MalformedLength
      invariant contentLength == LastLength(fields[..i])
    {
      assert fields[..i + 1][..i] == fields[..i];
      match LineField(fields[i])
      case OtherField =>
      case MalformedLength => return Err(InvalidResponseHeaders);
      case Length(value) => contentLength := Some(value);
    }
    assert fields[..|fields|] == fields;
    return Ok(Headers(code.value, contentLength));
  }

  // ---------------------------------------------------------------- what the text of a header block says

  predicate HasNoWhitespace(s: string) {
    forall i :: 0 <= i < |s| ==> !IsWhitespace(s[i])
  }

  predicate EndsWord(rest: string) {
    rest == "" || IsWhitespace(rest[0])
  }

  /** White space, `HTTP/1.` and anything up to white space, then a number; the rest does not matter. */
  ghost predicate IsStatusLine(line: string, code: nat) {
    exists pad, version, gap, number, rest :: StatusLineParts(line, pad, version, gap, number, rest, code)
  }

  ghost predicate StatusLineParts(line: string, pad: string, version: string, gap: string, number: string,
                                  rest: string, code: nat)
  {
    && line == pad + ("HTTP/1." + version) + (gap + number + rest)
    && IsBlank(pad) && HasNoWhitespace(version) && IsBlank(gap) && gap != ""
    && IsNumber(number, code, U16_MAX) && EndsWord(rest)
  }

  /** `Content-Length` in any letter case. */
  predicate IsLengthName(name: string) {
    |name| == 14 && forall i :: 0 <= i < 14 ==> name[i] == "content-length"[i] || name[i] == "CONTENT-LENGTH"[i]
  }

  /** A line that declares a length, well or badly. */
  ghost predicate NamesLength(line: string) {
    exists name, value :: LengthNameParts(line, name, value)
  }

  predicate LengthNameParts(line: string, name: string, value: string) {
    line == name + ":" + value && IsLengthName(name)
  }

  ghost predicate IsLengthLine(line: string, length: nat) {
    exists name, before, number, after :: LengthLineParts(line, name, before, number, after, length)
  }

  ghost predicate LengthLineParts(line: string, name: string, before: string, number: string, after: string,
                                  length: nat)
  {
    && line == name + ":" + (before + number + after) && IsLengthName(name)
    && IsBlank(before) && IsBlank(after) && IsNumber(number, length, USIZE_MAX)
  }

  lemma {:induction false} WordLengthOf(word: string, rest: string)
    requires HasNoWhitespace(word) && EndsWord(rest)
    ensures WordLength(word + rest) == |word|
  {
    if word == [] {
      assert word + rest == rest;
    } else {
      WordLengthOf(word[1..], rest);
      assert (word + rest)[1..] == word[1..] + rest;
    }
  }

  /** A word after white space is the next word. */
  lemma NextWordOf(pad: string, word: string, rest: string)
    requires IsBlank(pad) && word != "" && HasNoWhitespace(word) && EndsWord(rest)
    ensures NextWord(pad + word + rest) == Some((word, rest))
  {
    assert pad + word + rest == pad + (word + rest);
    assert (word + rest)[0] == word[0];
    TrimStartOf(pad, word + rest);
    WordLengthOf(word, rest);
  }

  lemma {:induction false} WordLengthParts(s: string)
    ensures HasNoWhitespace(s[..WordLength(s)]) && EndsWord(s[WordLength(s)..])
  {
    if s != [] && !IsWhitespace(s[0]) {
      WordLengthParts(s[1..]);
      assert s[..WordLength(s)] == [s[0]] + s[1..][..WordLength(s[1..])];
      assert s[WordLength(s)..] == s[1..][WordLength(s[1..])..];
    }
  }

  lemma NextWordParts(s: string, word: string, rest: string) returns (pad: string)
    requires NextWord(s) == Some((word, rest))
    ensures IsBlank(pad) && s == pad + word + rest
    ensures word != "" && HasNoWhitespace(word) && EndsWord(rest)
  {
    hide IsWhitespace, TrimStart, WordLength, IsBlank, HasNoWhitespace, EndsWord;
    var t := TrimStart(s);
    TrimStartDropsBlanks(s);
    WordLengthParts(t);
    WordIsNotEmpty(t);
    ThreeParts(s, t, WordLength(t));
    pad := s[..|s| - |t|];
  }

  lemma ThreeParts(s: string, t: string, n: nat)
    requires |t| <= |s| && t == s[|s| - |t|..] && n <= |t|
    ensures s == s[..|s| - |t|] + t[..n] + t[n..]
  {
    assert t[..n] + t[n..] == t;
    assert s[..|s| - |t|] + t == s;
  }

  lemma WordIsNotEmpty(t: string)
    requires t != [] && !IsWhitespace(t[0])
    ensures WordLength(t) > 0
  {
  }

  lemma GapIsNotEmpty(gap: string, number: string, rest: string)
    requires EndsWord(gap + number + rest) && number != "" && HasNoWhitespace(number)
    ensures gap != ""
  {
    assert (number + rest)[0] == number[0];
    assert gap + number + rest == gap + (number + rest);
  }

  /** The status code of a line, said on its text. */
  lemma StatusCodeIff(line: string, code: nat)
    ensures StatusCode(line) == Some(code) <==> IsStatusLine(line, code)
  {
    hide NextWord, ParseUnsigned, IsNumber;
    if StatusCode(line) == Some(code) {
      var (first, afterFirst) := NextWord(line).value;
      var (number, rest) := NextWord(afterFirst).value;
      var pad := NextWordParts(line, first, afterFirst);
      var gap := NextWordParts(afterFirst, number, rest);
      ParseUnsignedIff(number, code, U16_MAX);
      GapIsNotEmpty(gap, number, rest);
      assert first == "HTTP/1." + first[7..];
      assert StatusLineParts(line, pad, first[7..], gap, number, rest, code);
    }
    if pad, version, gap, number, rest :| StatusLineParts(line, pad, version, gap, number, rest, code) {
      var first, afterFirst := "HTTP/1." + version, gap + number + rest;
      assert afterFirst[0] == gap[0];
      NextWordOf(pad, first, afterFirst);
      NumberHasNoWhitespace(number, code, U16_MAX);
      NextWordOf(gap, number, rest);
      ParseUnsignedIff(number, code, U16_MAX);
    }
  }

  lemma LengthNameIff(name: string)
    ensures EqualsIgnoringAsciiCase(name, "content-length") <==> IsLengthName(name)
    ensures IsLengthName(name) ==> ':' !in name
  {
  }

  lemma FirstIndexOf(name: string, value: string)
    requires ':' !in name
    ensures FirstIndex(name + ":" + value, ':') == Some(|name|)
  {
    hide FirstIndex;
    var line := name + ":" + value;
    assert line[|name|] == ':';
    var i := FirstIndex(line, ':').value;
    assert forall k :: 0 <= k < |name| ==> line[k] == name[k];
    assert forall k :: 0 <= k < i ==> line[k] == line[..i][k];
  }

  /** What a line says about the length, said on its text. */
  lemma LineFieldIff(line: string)
    ensures forall length :: LineField(line) == Length(length) <==> IsLengthLine(line, length)
    ensures LineField(line) == OtherField <==> !NamesLength(line)
  {
    hide EqualsIgnoringAsciiCase, ParseUnsigned, IsNumber, Trim, FirstIndex, IsLengthName;
    if !LineField(line).OtherField? {
      LengthNameWhenFound(line);
    }
    forall length | LineField(line) == Length(length) ensures IsLengthLine(line, length) {
      LengthIsNumber(line, length);
    }
    forall length | IsLengthLine(line, length) ensures LineField(line) == Length(length) {
      NumberIsLength(line, length);
    }
    if name, value :| LengthNameParts(line, name, value) {
      LengthNameIff(name);
      FirstIndexOf(name, value);
      assert line[..|name|] == name;
    }
  }

  lemma LengthNameWhenFound(line: string)
    requires !LineField(line).OtherField?
    ensures NamesLength(line)
  {
    hide EqualsIgnoringAsciiCase, ParseUnsigned, Trim, IsLengthName;
    var i := FirstIndex(line, ':').value;
    LengthNameIff(line[..i]);
    assert LengthNameParts(line, line[..i], line[i + 1..]);
  }

  lemma LengthIsNumber(line: string, length: nat)
    requires LineField(line) == Length(length)
    ensures IsLengthLine(line, length)
  {
    hide EqualsIgnoringAsciiCase, ParseUnsigned, IsNumber, Trim, IsLengthName;
    var i := FirstIndex(line, ':').value;
    LengthNameIff(line[..i]);
    var value := line[i + 1..];
    var before, after := TrimParts(value);
    ParseUnsignedIff(Trim(value), length, USIZE_MAX);
    assert LengthLineParts(line, line[..i], before, Trim(value), after, length);
  }

  lemma NumberIsLength(line: string, length: nat)
    requires IsLengthLine(line, length)
    ensures LineField(line) == Length(length)
  {
    hide EqualsIgnoringAsciiCase, ParseUnsigned, IsNumber, Trim, FirstIndex, IsLengthName;
    var name, before, number, after :| LengthLineParts(line, name, before, number, after, length);
    LengthNameIff(name);
    FirstIndexOf(name, before + number + after);
    assert line[..|name|] == name && line[|name| + 1..] == before + number + after;
    NumberHasNoWhitespace(number, length, USIZE_MAX);
    TrimOfPadded(before, number, after);
    ParseUnsignedIff(number, length, USIZE_MAX);
  }

  // ---------------------------------------------------------------- lines

  predicate HasNoLineEnd(line: string) {
    forall i :: 0 <= i < |line| - 1 ==> !(line[i] == '\r' && line[i + 1] == '\n')
  }

  function JoinLines(lines: seq<string>): string
    requires lines != []
  {
    if |lines| == 1 then lines[0] else lines[0] + "\r\n" + JoinLines(lines[1..])
  }

  lemma {:induction false} SplitLinesOfOne(line: string)
    requires HasNoLineEnd(line)
    ensures SplitLines(line) == [line]
  {
    if line != [] {
      SplitLinesOfOne(line[1..]);
      assert [line[0]] + line[1..] == line;
    }
  }

  lemma {:induction false} SplitLinesOfMore(line: string, rest: string)
    requires HasNoLineEnd(line)
    ensures SplitLines(line + "\r\n" + rest) == [line] + SplitLines(rest)
  {
    var whole := line + "\r\n" + rest;
    if line == [] {
      assert whole[2..] == rest;
    } else {
      SplitLinesOfMore(line[1..], rest);
      assert whole[1..] == line[1..] + "\r\n" + rest;
      assert [line[0]] + line[1..] == line;
    }
  }

  /** Splitting lines that were joined gives them back. */
  lemma {:induction false} SplitJoinLines(lines: seq<string>)
    requires lines != [] && forall i :: 0 <= i < |lines| ==> HasNoLineEnd(lines[i])
    ensures SplitLines(JoinLines(lines)) == lines
  {
    hide HasNoLineEnd;
    if |lines| == 1 {
      SplitLinesOfOne(lines[0]);
    } else {
      SplitJoinLines(lines[1..]);
      SplitLinesOfMore(lines[0], JoinLines(lines[1..]));
    }
  }

  lemma FirstOfFirstLine(s: string)
    ensures SplitLines(s)[0] != "" ==> s != [] && SplitLines(s)[0][0] == s[0]
  {
  }

  lemma JoinOneMoreChar(c: char, lines: seq<string>)
    requires lines != []
    ensures JoinLines([[c] + lines[0]] + lines[1..]) == [c] + JoinLines(lines)
  {
    var more := [[c] + lines[0]] + lines[1..];
    assert more[1..] == lines[1..];
  }

  lemma {:induction false} JoinSplitLines(s: string)
    ensures JoinLines(SplitLines(s)) == s
    ensures forall i :: 0 <= i < |SplitLines(s)| ==> HasNoLineEnd(SplitLines(s)[i])
    decreases |s|
  {
    if s == [] {
    } else if |s| >= 2 && s[0] == '\r' && s[1] == '\n' {
      JoinSplitLines(s[2..]);
      assert ([""] + SplitLines(s[2..]))[1..] == SplitLines(s[2..]);
    } else {
      var rest := SplitLines(s[1..]);
      JoinSplitLines(s[1..]);
      FirstOfFirstLine(s[1..]);
      JoinOneMoreChar(s[0], rest);
      assert HasNoLineEnd([s[0]] + rest[0]);
      hide HasNoLineEnd, JoinLines;
      assert [s[0]] + s[1..] == s;
    }
  }

  /** These lines are a header block with this status code and this length. */
  ghost predicate IsHeaderBlock(lines: seq<string>, code: nat, length: Option<nat>) {
    && lines != [] && (forall i :: 0 <= i < |lines| ==> HasNoLineEnd(lines[i]))
    && IsStatusLine(lines[0], code)
    && (forall i :: 1 <= i < |lines| && NamesLength(lines[i]) ==> exists n :: IsLengthLine(lines[i], n))
    && match length
       case None => forall i :: 1 <= i < |lines| ==> !NamesLength(lines[i])
       case Some(n) =>
         exists i :: 1 <= i < |lines| && IsLengthLine(lines[i], n)
                     && forall j :: i < j < |lines| ==> !NamesLength(lines[j])
  }

  lemma FieldsOfLines(lines: seq<string>)
    requires lines != []
    ensures !HasMalformedLength(lines[1..]) <==>
              forall i :: 1 <= i < |lines| && NamesLength(lines[i]) ==> exists n :: IsLengthLine(lines[i], n)
  {
    hide LineField, NamesLength, IsLengthLine;
    var fields := lines[1..];
    assert forall i :: 1 <= i < |lines| ==> lines[i] == fields[i - 1];
    forall i | 1 <= i < |lines|
      ensures LineField(lines[i]) == MalformedLength <==>
                NamesLength(lines[i]) && forall n :: !IsLengthLine(lines[i], n)
    {
      LineFieldIff(lines[i]);
    }
    if HasMalformedLength(fields) {
      var i :| 0 <= i < |fields| && LineField(fields[i]) == MalformedLength;
      assert LineField(lines[i + 1]) == MalformedLength;
    }
  }

  lemma LengthOfLines(lines: seq<string>, length: Option<nat>)
    requires lines != [] && !HasMalformedLength(lines[1..])
    ensures LastLength(lines[1..]) == length <==>
              match length
              case None => forall i :: 1 <= i < |lines| ==> !NamesLength(lines[i])
              case Some(n) =>
                exists i :: 1 <= i < |lines| && IsLengthLine(lines[i], n)
                            && forall j :: i < j < |lines| ==> !NamesLength(lines[j])
  {
    hide LineField, NamesLength, IsLengthLine, LastLength;
    var fields := lines[1..];
    LastLengthIsLast(fields);
    assert forall i :: 1 <= i < |lines| ==> lines[i] == fields[i - 1];
    forall i | 1 <= i < |lines|
      ensures LineField(lines[i]) != MalformedLength
      ensures NamesLength(lines[i]) <==> LineField(lines[i]).Length?
      ensures forall n :: IsLengthLine(lines[i], n) <==> LineField(lines[i]) == Length(n)
    {
      LineFieldIff(lines[i]);
      assert LineField(fields[i - 1]) != MalformedLength;
    }
    LastLengthIsUnique(fields, length);
    if length.Some? {
      if i :| 1 <= i < |lines| && IsLengthLine(lines[i], length.value)
              && forall j :: i < j < |lines| ==> !NamesLength(lines[j]) {
        assert LineField(fields[i - 1]) == Length(length.value);
        assert IsLastLength(fields, length);
      }
      if IsLastLength(fields, length) {
        var i :| 0 <= i < |fields| && LineField(fields[i]) == Length(length.value)
                 && forall j :: i < j < |fields| ==> !LineField(fields[j]).Length?;
        assert IsLengthLine(lines[i + 1], length.value);
        assert forall j :: i + 1 < j < |lines| ==> !NamesLength(lines[j]);
      }
    }
  }

  lemma LastLengthIsUnique(lines: seq<string>, length: Option<nat>)
    ensures LastLength(lines) == length <==> IsLastLength(lines, length)
  {
    hide LineField, LastLength;
    LastLengthIsLast(lines);
  }

  /**
    The parser said on the text alone: a header block parses to a status code and a length exactly if
    it decodes to lines of which the first is a status line with this code, every Content-Length line
    holds a number that fits, and the last of them holds this length. Every other block is invalid.
  */
  lemma ParsedHeadersIff(headers: seq<byte>, decode: Utf8Decoder, code: nat, length: Option<nat>)
    ensures ParsedHeaders(headers, decode) == Ok(Headers(code, length)) <==>
              exists lines :: IsHeaderBlock(lines, code, length) && decode(headers) == Some(JoinLines(lines))
    ensures ParsedHeaders(headers, decode).Err? ==> ParsedHeaders(headers, decode) == Err(InvalidResponseHeaders)
  {
    hide StatusCode, HasMalformedLength, LastLength, SplitLines, JoinLines, HasNoLineEnd, IsStatusLine, NamesLength,
         IsLengthLine;
    if decode(headers).Some? {
      var text := decode(headers).value;
      var lines := SplitLines(text);
      JoinSplitLines(text);
      StatusCodeIff(lines[0], code);
      FieldsOfLines(lines);
      if !HasMalformedLength(lines[1..]) {
        LengthOfLines(lines, length);
      }
      assert ParsedHeaders(headers, decode) == Ok(Headers(code, length)) <==> IsHeaderBlock(lines, code, length);
      if block :| IsHeaderBlock(block, code, length) && text == JoinLines(block) {
        SplitJoinLines(block);
      }
    }
  }

  /** The header block that a server sends as a rule. */
  function OrdinaryHeaders(version: string, code: nat, reason: string, name: string, length: nat): string {
    "HTTP/1." + version + " " + Decimal(code) + " " + reason + "\r\n"
    + (name + ": " + Decimal(length) + "\r\n" + "\r\n")
  }

  lemma OrdinaryHeadersParse(headers: seq<byte>, decode: Utf8Decoder, version: string, code: nat, reason: string,
                             name: string, length: nat)
    requires HasNoWhitespace(version) && code <= U16_MAX && '\r' !in reason
    requires IsLengthName(name) && length <= USIZE_MAX
    requires decode(headers) == Some(OrdinaryHeaders(version, code, reason, name, length))
    ensures ParsedHeaders(headers, decode) == Ok(Headers(code, Some(length)))
  {
    hide ParsedHeaders, OrdinaryHeaders, IsHeaderBlock;
    var lines := OrdinaryBlock(version, code, reason, name, length);
    ParsedHeadersIff(headers, decode, code, Some(length));
  }

  lemma OrdinaryBlock(version: string, code: nat, reason: string, name: string, length: nat)
    returns (lines: seq<string>)
    requires HasNoWhitespace(version) && code <= U16_MAX && '\r' !in reason
    requires IsLengthName(name) && length <= USIZE_MAX
    ensures IsHeaderBlock(lines, code, Some(length))
    ensures JoinLines(lines) == OrdinaryHeaders(version, code, reason, name, length)
  {
    hide IsStatusLine, NamesLength, IsLengthLine, JoinLines, Decimal, HasNoLineEnd, HasNoWhitespace, IsLengthName;
    var status := "HTTP/1." + version + " " + Decimal(code) + " " + reason;
    var field := name + ": " + Decimal(length);
    lines := [status, field, "", ""];
    OrdinaryStatusLine(status, version, code, reason);
    OrdinaryLengthLine(field, name, length);
    JoinOfFour(lines);
    EmptyLineNamesNothing();
  }

  lemma JoinOfFour(lines: seq<string>)
    requires |lines| == 4 && lines[2] == lines[3] == ""
    ensures JoinLines(lines) == lines[0] + "\r\n" + (lines[1] + "\r\n" + "\r\n")
  {
    assert JoinLines(lines[3..]) == "";
    assert lines[2..][1..] == lines[3..];
    assert JoinLines(lines[2..]) == "\r\n";
    assert lines[1..][1..] == lines[2..];
    assert JoinLines(lines[1..]) == lines[1] + "\r\n" + "\r\n";
  }

  lemma EmptyLineNamesNothing()
    ensures !NamesLength("") && HasNoLineEnd("")
  {
    forall name, value ensures "" != name + ":" + value {
      assert |name + ":" + value| > 0;
    }
  }

  lemma OrdinaryStatusLine(line: string, version: string, code: nat, reason: string)
    requires HasNoWhitespace(version) && code <= U16_MAX && '\r' !in reason
    requires line == "HTTP/1." + version + " " + Decimal(code) + " " + reason
    ensures IsStatusLine(line, code) && HasNoLineEnd(line)
  {
    DecimalValue(code);
    var digits := Decimal(code);
    assert IsDigits(digits) && IsNumber(digits, code, U16_MAX);
    assert line == "" + ("HTTP/1." + version) + (" " + digits + (" " + reason));
    assert StatusLineParts(line, "", version, " ", digits, " " + reason, code);
    assert '\r' !in digits && '\r' !in version;
    assert '\r' !in line;
  }

  lemma OrdinaryLengthLine(line: string, name: string, length: nat)
    requires IsLengthName(name) && length <= USIZE_MAX && line == name + ": " + Decimal(length)
    ensures IsLengthLine(line, length) && HasNoLineEnd(line)
  {
    DecimalValue(length);
    var before, digits, after := " ", Decimal(length), "";
    assert IsDigits(digits) && IsNumber(digits, length, USIZE_MAX);
    assert LengthLineParts(line, name, before, digits, after, length);
    assert '\r' !in digits && '\r' !in name;
    assert '\r' !in line;
  }
}
