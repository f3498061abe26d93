/**
  The reader of one HTTP probe response. It is driven by chunks: every call of the stream yields
  at most 512 bytes, the end of the stream, a timeout or a failure. The response is kept in one
  buffer of at most 64 KiB.

  `HttpResponseReader` follows the program's loops. `Outcome` replays a stream call by call;
  `Verdict` is the reference definition, which never sees how the bytes were cut.
*/
module HttpProbe {
  import opened Wrappers
  import opened HttpHeaders

  const MAX_HTTP_RESPONSE_BYTES: nat := 64 * 1024
  const READ_BUFFER_BYTES: nat := 512

  datatype HttpResponse = HttpResponse(statusCode: nat, body: seq<byte>)

  type ReadResult = Result<HttpResponse, HttpProbeError>

  /** What one call of `Read::read` gives; a call that reads no byte is `End`. */
  datatype ReadEvent = Data(bytes: seq<byte>) | End | Timeout | Failed

  /** The answers of a stream to the successive calls, possibly without end. */
  type Stream = answer: nat -> ReadEvent |
      forall k :: answer(k).Data? ==> 1 <= |answer(k).bytes| <= READ_BUFFER_BYTES
    witness k => End

  /** How a header block is understood. The program uses `ParserOf`; no result here depends on it. */
  type HeaderParser = seq<byte> -> Result<Headers, HttpProbeError>

  function ParserOf(decode: Utf8Decoder): HeaderParser {
    headers => ParsedHeaders(headers, decode)
  }

  // ---------------------------------------------------------------- where the body starts

  /** An empty line ends the headers at this index: CR LF CR LF. */
  predicate HeaderEndAt(response: seq<byte>, k: nat) {
    && k + 4 <= |response|
    && response[k] == 13 && response[k + 1] == 10 && response[k + 2] == 13 && response[k + 3] == 10
  }

  function BodyStartFrom(response: seq<byte>, k: nat): (r: Option<nat>)
    requires k <= |response|
    ensures r.Some? ==> k + 4 <= r.value <= |response|
    decreases |response| - k
  {
    if k + 4 > |response| then None
    else if HeaderEndAt(response, k) then Some(k + 4)
    else BodyStartFrom(response, k + 1)
  }

  /** Where the body starts: just after the first empty line. */
  function HttpBodyStart(response: seq<byte>): (r: Option<nat>)
    ensures r.Some? ==> 4 <= r.value <= |response|
  {
    BodyStartFrom(response, 0)
  }

  // ---------------------------------------------------------------- what the bytes decide

  /** The result that these first bytes of a response already fix, if they do. */
  function Decide(buffer: seq<byte>, parse: HeaderParser): Option<ReadResult> {
    match HttpBodyStart(buffer)
    case None => None
    case Some(bodyStart) =>
      match parse(buffer[..bodyStart])
      case Err(error) => Some(Err(error))
      case Ok(headers) =>
        match headers.contentLength
        case None => None
        case Some(length) =>
          if bodyStart + length > MAX_HTTP_RESPONSE_BYTES then Some(Err(ResponseTooLarge))
          else if |buffer| < bodyStart + length then None
          else Some(Ok(HttpResponse(headers.statusCode, buffer[bodyStart..bodyStart + length])))
  }

  /** The result when the stream stops with `event` after exactly these bytes. */
  function AtStop(bytes: seq<byte>, event: ReadEvent, parse: HeaderParser): ReadResult
    requires !event.Data?
    requires Decide(bytes, parse).None?
  {
    if event.Failed? then Err(ResponseReadFailed)
    else match HttpBodyStart(bytes)
      case None => Err(ResponseHeadersUnavailable)
      case Some(bodyStart) =>
        var headers := parse(bytes[..bodyStart]).value;
        if headers.contentLength.Some? then Err(ResponseBodyIncomplete)
        else Ok(HttpResponse(headers.statusCode, bytes[bodyStart..]))
  }

  /** Reference definition: the result as a function of the bytes and of the event that ends them. */
  function Verdict(bytes: seq<byte>, event: ReadEvent, parse: HeaderParser): ReadResult
    requires !event.Data?
  {
    match Decide(bytes, parse)
    case Some(result) => result
    case None => AtStop(bytes, event, parse)
  }

  /** The result of reading on from call `k` with `buffer` read so far. */
  function Outcome(stream: Stream, k: nat, buffer: seq<byte>, parse: HeaderParser): ReadResult
    requires |buffer| <= MAX_HTTP_RESPONSE_BYTES
    decreases MAX_HTTP_RESPONSE_BYTES - |buffer|
  {
    match Decide(buffer, parse)
    case Some(result) => result
    case None =>
      match stream(k)
      case Data(bytes) =>
        if |buffer| + |bytes| > MAX_HTTP_RESPONSE_BYTES then Err(ResponseTooLarge)
        else Outcome(stream, k + 1, buffer + bytes, parse)
      case event => AtStop(buffer, event, parse)
  }

  // ---------------------------------------------------------------- the reader

  datatype HttpRead = DataRead | EndRead | TimeoutRead

  class HttpResponseReader {
    const stream: Stream
    const decode: Utf8Decoder
    ghost const parse: HeaderParser
    var response: seq<byte>
    /** How often the stream was read. */
    var calls: nat

    constructor (stream: Stream, decode: Utf8Decoder)
      ensures this.stream == stream && this.decode == decode && parse == ParserOf(decode)
      ensures response == [] && calls == 0
    {
      this.stream := stream;
      this.decode := decode;
      this.parse := ParserOf(decode);
      response := [];
      calls := 0;
    }

    /** At most 64 KiB are buffered, and every call so far brought at least one byte. */
    ghost predicate Valid()
      reads this
    {
      && |response| <= MAX_HTTP_RESPONSE_BYTES
      && calls <= |response|
    }

    ghost function Rest(): ReadResult
      reads this
      requires Valid()
    {
      Outcome(stream, calls, response, parse)
    }

    method Read() returns (result: ReadResult)
      requires parse == ParserOf(decode) && response == [] && calls == 0
      modifies this
      ensures result == Outcome(stream, 0, [], parse)
      ensures |response| <= MAX_HTTP_RESPONSE_BYTES && calls <= MAX_HTTP_RESPONSE_BYTES + 1
    {
      hide ParsedHeaders;
      var bodyStart := ReadHeaders();
      if bodyStart.Err? {
        return Err(bodyStart.error);
      }
      var headers := ParseHttpResponseHeaders(response[..bodyStart.value], decode);
      assert headers == parse(response[..bodyStart.value]);
      if headers.Err? {
        return Err(headers.error);
      }
      var body: Result<(), HttpProbeError>;
      match headers.value.contentLength {
        case Some(length) => body := ReadDeclaredBody(bodyStart.value, length, headers.value);
        case None => body := ReadUndeclaredBody(bodyStart.value, headers.value);
      }
      if body.Err? {
        return Err(body.error);
      }
      return Ok(HttpResponse(headers.value.statusCode, response[bodyStart.value..]));
    }

    method ReadHeaders() returns (r: Result<nat, HttpProbeError>)
      requires Valid()
      modifies this
      ensures |response| <= MAX_HTTP_RESPONSE_BYTES && calls <= MAX_HTTP_RESPONSE_BYTES + 1
      ensures r.Ok? ==> Valid() && HttpBodyStart(response) == Some(r.value) && Rest() == old(Rest())
      ensures r.Err? ==> old(Rest()) == Err(r.error)
    {
      while true
        invariant Valid() && Rest() == old(Rest())
        decreases MAX_HTTP_RESPONSE_BYTES - |response|
      {
        var bodyStart := HttpBodyStart(response);
        if bodyStart.Some? {
          return Ok(bodyStart.value);
        }
        var chunk := ReadChunk();
        if chunk.Err? {
          return Err(chunk.error);
        }
        if chunk.value != DataRead {
          return Err(ResponseHeadersUnavailable);
        }
      }
    }

    method ReadDeclaredBody(bodyStart: nat, length: nat, ghost headers: Headers)
      returns (r: Result<(), HttpProbeError>)
      requires Valid() && HttpBodyStart(response) == Some(bodyStart)
      requires parse(response[..bodyStart]) == Ok(headers)
      requires headers.contentLength == Some(length)
      modifies this
      ensures |response| <= MAX_HTTP_RESPONSE_BYTES && calls <= MAX_HTTP_RESPONSE_BYTES + 1
      ensures r.Ok? ==> bodyStart <= |response|
                        && old(Rest()) == Ok(HttpResponse(headers.statusCode, response[bodyStart..]))
      ensures r.Err? ==> old(Rest()) == Err(r.error)
    {
      var responseLength := bodyStart + length;
      if responseLength > USIZE_MAX || responseLength > MAX_HTTP_RESPONSE_BYTES {
        return Err(ResponseTooLarge);
      }
      while |response| < responseLength
        invariant Valid() && Rest() == old(Rest())
        invariant HttpBodyStart(response) == Some(bodyStart)
        invariant parse(response[..bodyStart]) == Ok(headers)
        decreases MAX_HTTP_RESPONSE_BYTES - |response|
      {
        ghost var before := response;
        var chunk := ReadChunk();
        if chunk.Err? {
          return Err(chunk.error);
        }
        if chunk.value != DataRead {
          return Err(ResponseBodyIncomplete);
        }
        BodyStartIsStable(before, response[|before|..]);
      }
      assert response[..responseLength][bodyStart..] == response[bodyStart..responseLength];
      response := response[..responseLength];
      return Ok(());
    }

    method ReadUndeclaredBody(ghost bodyStart: nat, ghost headers: Headers)
      returns (r: Result<(), HttpProbeError>)
      requires Valid() && HttpBodyStart(response) == Some(bodyStart)
      requires parse(response[..bodyStart]) == Ok(headers)
      requires headers.contentLength == None
      modifies this
      ensures |response| <= MAX_HTTP_RESPONSE_BYTES && calls <= MAX_HTTP_RESPONSE_BYTES + 1
      ensures r.Ok? ==> bodyStart <= |response|
                        && old(Rest()) == Ok(HttpResponse(headers.statusCode, response[bodyStart..]))
      ensures r.Err? ==> old(Rest()) == Err(r.error)
    {
      while true
        invariant Valid() && Rest() == old(Rest())
        invariant HttpBodyStart(response) == Some(bodyStart)
        invariant parse(response[..bodyStart]) == Ok(headers)
        decreases MAX_HTTP_RESPONSE_BYTES - |response|
      {
        ghost var before := response;
        var chunk := ReadChunk();
        if chunk.Err? {
          return Err(chunk.error);
        }
        if chunk.value != DataRead {
          return Ok(());
        }
        BodyStartIsStable(before, response[|before|..]);
      }
    }

    method ReadChunk() returns (r: Result<HttpRead, HttpProbeError>)
      requires Valid()
      modifies this
      ensures calls == old(calls) + 1
      ensures r == match stream(old(calls))
                   case Data(bytes) =>
                     if old(|response|) + |bytes| > MAX_HTTP_RESPONSE_BYTES then Err(ResponseTooLarge)
                     else Ok(DataRead)
                   case End => Ok(EndRead)
                   case Timeout => Ok(TimeoutRead)
                   case Failed => Err(ResponseReadFailed)
      ensures r == Ok(DataRead) ==> Valid() && response == old(response) + stream(old(calls)).bytes
      ensures r != Ok(DataRead) ==> response == old(response)
    {
      var event := stream(calls);
      calls := calls + 1;
      match event
      case Data(bytes) =>
        if |response| + |bytes| > MAX_HTTP_RESPONSE_BYTES {
          return Err(ResponseTooLarge);
        }
        response := response + bytes;
        return Ok(DataRead);
      case End => return Ok(EndRead);
      case Timeout => return Ok(TimeoutRead);
      case Failed => return Err(ResponseReadFailed);
    }
  }

  // ---------------------------------------------------------------- chunking independence

  lemma {:induction false} BodyStartFromFindsFirst(response: seq<byte>, k: nat)
    requires k <= |response|
    ensures match BodyStartFrom(response, k)
            case None => forall j :: j >= k ==> !HeaderEndAt(response, j)
            case Some(n) => HeaderEndAt(response, n - 4) && forall j :: k <= j < n - 4 ==> !HeaderEndAt(response, j)
    decreases |response| - k
  {
    if k + 4 <= |response| && !HeaderEndAt(response, k) {
      BodyStartFromFindsFirst(response, k + 1);
    }
  }

  /** CR LF CR LF. */
  const EMPTY_LINE: seq<byte> := [13, 10, 13, 10]

  predicate EmptyLineAt(response: seq<byte>, k: nat) {
    k + 4 <= |response| && response[k..k + 4] == EMPTY_LINE
  }

  /** The body starts right after the first empty line, and only there. */
  lemma BodyStartIsFirstEmptyLine(response: seq<byte>)
    ensures match HttpBodyStart(response)
            case None => forall j: nat :: !EmptyLineAt(response, j)
            case Some(n) => EmptyLineAt(response, n - 4) && forall j: nat :: j < n - 4 ==> !EmptyLineAt(response, j)
  {
    BodyStartFromFindsFirst(response, 0);
    forall k: nat ensures HeaderEndAt(response, k) <==> EmptyLineAt(response, k) {
      EmptyLineIff(response, k);
    }
  }

  lemma EmptyLineIff(response: seq<byte>, k: nat)
    ensures HeaderEndAt(response, k) <==> EmptyLineAt(response, k)
  {
    if k + 4 <= |response| {
      var window := response[k..k + 4];
      assert window[0] == response[k] && window[1] == response[k + 1];
      assert window[2] == response[k + 2] && window[3] == response[k + 3];
    }
  }

  lemma {:induction false} BodyStartFromIsStable(a: seq<byte>, b: seq<byte>, k: nat)
    requires k <= |a| && BodyStartFrom(a, k).Some?
    ensures BodyStartFrom(a + b, k) == BodyStartFrom(a, k)
    decreases |a| - k
  {
    assert HeaderEndAt(a + b, k) == HeaderEndAt(a, k);
    if !HeaderEndAt(a, k) {
      BodyStartFromIsStable(a, b, k + 1);
    }
  }

  /** Later bytes never move the start of the body. */
  lemma BodyStartIsStable(a: seq<byte>, b: seq<byte>)
    requires HttpBodyStart(a).Some?
    ensures HttpBodyStart(a + b) == HttpBodyStart(a)
    ensures (a + b)[..HttpBodyStart(a).value] == a[..HttpBodyStart(a).value]
  {
    BodyStartFromIsStable(a, b, 0);
  }

  /** A result fixed by a prefix stays fixed when more bytes arrive. */
  lemma DecisionIsStable(a: seq<byte>, b: seq<byte>, parse: HeaderParser)
    requires Decide(a, parse).Some?
    ensures Decide(a + b, parse) == Decide(a, parse)
  {
    BodyStartIsStable(a, b);
    var bodyStart := HttpBodyStart(a).value;
    var headers := parse(a[..bodyStart]);
    if headers.Ok? && headers.value.contentLength.Some? {
      var end := bodyStart + headers.value.contentLength.value;
      if end <= |a| {
        assert (a + b)[bodyStart..end] == a[bodyStart..end];
      }
    }
  }

  predicate AllData(stream: Stream, n: nat) {
    forall k :: 0 <= k < n ==> stream(k).Data?
  }

  /** The bytes of the first `n` calls. */
  function Bytes(stream: Stream, n: nat): seq<byte>
    requires AllData(stream, n)
  {
    if n == 0 then [] else Bytes(stream, n - 1) + stream(n - 1).bytes
  }

  lemma {:induction false} BytesGrow(stream: Stream, m: nat, n: nat)
    requires m <= n && AllData(stream, n)
    ensures |Bytes(stream, m)| <= |Bytes(stream, n)|
    ensures Bytes(stream, n)[..|Bytes(stream, m)|] == Bytes(stream, m)
    decreases n
  {
    if m < n {
      BytesGrow(stream, m, n - 1);
    }
  }

  lemma {:induction false} OutcomeFromCall(stream: Stream, k: nat, n: nat, parse: HeaderParser)
    requires k <= n && AllData(stream, n) && !stream(n).Data?
    requires |Bytes(stream, n)| <= MAX_HTTP_RESPONSE_BYTES
    ensures |Bytes(stream, k)| <= MAX_HTTP_RESPONSE_BYTES
    ensures Outcome(stream, k, Bytes(stream, k), parse) == Verdict(Bytes(stream, n), stream(n), parse)
    decreases n - k
  {
    BytesGrow(stream, k, n);
    var a, whole := Bytes(stream, k), Bytes(stream, n);
    if Decide(a, parse).Some? {
      DecisionIsStable(a, whole[|a|..], parse);
      assert a + whole[|a|..] == whole;
    } else if k < n {
      BytesGrow(stream, k + 1, n);
      OutcomeFromCall(stream, k + 1, n, parse);
    }
  }

  /** For at most 64 KiB the result is a function of the bytes and of the event that ends them. */
  lemma ReadIsVerdictOfBytes(stream: Stream, n: nat, parse: HeaderParser)
    requires AllData(stream, n) && !stream(n).Data?
    requires |Bytes(stream, n)| <= MAX_HTTP_RESPONSE_BYTES
    ensures Outcome(stream, 0, [], parse) == Verdict(Bytes(stream, n), stream(n), parse)
  {
    OutcomeFromCall(stream, 0, n, parse);
  }

  /** Two ways of cutting the same bytes give the same result. */
  lemma ChunkingIsIrrelevant(left: Stream, m: nat, right: Stream, n: nat, parse: HeaderParser)
    requires AllData(left, m) && !left(m).Data? && AllData(right, n) && !right(n).Data?
    requires Bytes(left, m) == Bytes(right, n) && left(m) == right(n)
    requires |Bytes(left, m)| <= MAX_HTTP_RESPONSE_BYTES
    ensures Outcome(left, 0, [], parse) == Outcome(right, 0, [], parse)
  {
    ReadIsVerdictOfBytes(left, m, parse);
    ReadIsVerdictOfBytes(right, n, parse);
  }

  /** The whole content of a response, which may have no end. */
  datatype Content = Content(at: nat -> byte, length: Option<nat>, event: ReadEvent)

  predicate IsPrefixOf(bytes: seq<byte>, content: Content) {
    && (content.length.Some? ==> |bytes| <= content.length.value)
    && forall i :: 0 <= i < |bytes| ==> bytes[i] == content.at(i)
  }

  /** The first `n` calls deliver a beginning of the content, and the end only where it ends. */
  ghost predicate CarriesFirst(stream: Stream, n: nat, content: Content)
    requires AllData(stream, n)
  {
    && IsPrefixOf(Bytes(stream, n), content)
    && (!stream(n).Data? ==> content.length == Some(|Bytes(stream, n)|) && content.event == stream(n))
  }

  /** The stream delivers this content, cut in any way. */
  ghost predicate Carries(stream: Stream, content: Content) {
    forall n :: AllData(stream, n) ==> CarriesFirst(stream, n, content)
  }

  /** How far the reader got when it answered, if it did not give up on the size. */
  lemma {:induction false} AnswerPoint(stream: Stream, k: nat, parse: HeaderParser) returns (n: nat)
    requires AllData(stream, k) && |Bytes(stream, k)| <= MAX_HTTP_RESPONSE_BYTES
    ensures var outcome := Outcome(stream, k, Bytes(stream, k), parse);
            || outcome == Err(ResponseTooLarge)
            || (AllData(stream, n) && Decide(Bytes(stream, n), parse) == Some(outcome))
            || (AllData(stream, n) && Decide(Bytes(stream, n), parse).None? && !stream(n).Data?
                && outcome == AtStop(Bytes(stream, n), stream(n), parse))
    decreases MAX_HTTP_RESPONSE_BYTES - |Bytes(stream, k)|
  {
    n := k;
    if Decide(Bytes(stream, k), parse).None? && stream(k).Data?
       && |Bytes(stream, k)| + |stream(k).bytes| <= MAX_HTTP_RESPONSE_BYTES {
      assert Bytes(stream, k + 1) == Bytes(stream, k) + stream(k).bytes;
      n := AnswerPoint(stream, k + 1, parse);
    }
  }

  /**
    The reader gives up on the size after `n` calls: either what it has read declares too long a body, or
    it is still undecided and the next call passes 64 KiB.
  */
  predicate GivesUpAfter(stream: Stream, n: nat, parse: HeaderParser)
    requires AllData(stream, n)
  {
    var bytes := Bytes(stream, n);
    && |bytes| <= MAX_HTTP_RESPONSE_BYTES
    && (Decide(bytes, parse) == Some(Err(ResponseTooLarge))
        || (&& Decide(bytes, parse).None? && stream(n).Data?
            && |bytes| + |stream(n).bytes| > MAX_HTTP_RESPONSE_BYTES))
  }

  /** Nothing was decided, and no call failed to bring data, before the first `n` calls. */
  predicate UndecidedBefore(stream: Stream, n: nat, parse: HeaderParser) {
    AllData(stream, n) && forall k: nat :: k < n ==> Decide(Bytes(stream, k), parse).None?
  }

  lemma {:induction false} GivesUpFrom(stream: Stream, k: nat, parse: HeaderParser)
    requires UndecidedBefore(stream, k, parse) && |Bytes(stream, k)| <= MAX_HTTP_RESPONSE_BYTES
    ensures Outcome(stream, k, Bytes(stream, k), parse) == Err(ResponseTooLarge) <==>
              exists n :: n >= k && UndecidedBefore(stream, n, parse) && GivesUpAfter(stream, n, parse)
    decreases MAX_HTTP_RESPONSE_BYTES - |Bytes(stream, k)|
  {
    hide Decide, AtStop;
    var bytes := Bytes(stream, k);
    if n :| n > k && UndecidedBefore(stream, n, parse) && GivesUpAfter(stream, n, parse) {
      ReadsOnBefore(stream, k, n, parse);
    }
    if Decide(bytes, parse).None? && stream(k).Data? && |bytes| + |stream(k).bytes| <= MAX_HTTP_RESPONSE_BYTES {
      assert Bytes(stream, k + 1) == bytes + stream(k).bytes;
      GivesUpFrom(stream, k + 1, parse);
    } else if Decide(bytes, parse).None? && !stream(k).Data? {
      StopIsNotTooLarge(bytes, stream(k), parse);
    }
  }

  lemma StopIsNotTooLarge(bytes: seq<byte>, event: ReadEvent, parse: HeaderParser)
    requires !event.Data? && Decide(bytes, parse).None?
    ensures AtStop(bytes, event, parse) != Err(ResponseTooLarge)
  {
    hide HttpBodyStart;
  }

  lemma ReadsOnBefore(stream: Stream, k: nat, n: nat, parse: HeaderParser)
    requires k < n && UndecidedBefore(stream, n, parse) && |Bytes(stream, n)| <= MAX_HTTP_RESPONSE_BYTES
    ensures Decide(Bytes(stream, k), parse).None? && stream(k).Data?
    ensures |Bytes(stream, k)| + |stream(k).bytes| <= MAX_HTTP_RESPONSE_BYTES
  {
    BytesOneMore(stream, k);
    hide Decide, Bytes;
    BytesGrow(stream, k + 1, n);
  }

  lemma BytesOneMore(stream: Stream, k: nat)
    requires AllData(stream, k) && stream(k).Data?
    ensures AllData(stream, k + 1) && |Bytes(stream, k + 1)| == |Bytes(stream, k)| + |stream(k).bytes|
  {
  }

  /** Exactly when a chunking makes the reader give up on the size. */
  lemma GivesUpIff(stream: Stream, parse: HeaderParser)
    ensures Outcome(stream, 0, [], parse) == Err(ResponseTooLarge) <==>
              exists n: nat :: UndecidedBefore(stream, n, parse) && GivesUpAfter(stream, n, parse)
  {
    GivesUpFrom(stream, 0, parse);
  }

  lemma PrefixesAgree(a: seq<byte>, b: seq<byte>, content: Content)
    requires IsPrefixOf(a, content) && IsPrefixOf(b, content) && |a| <= |b|
    ensures b[..|a|] == a
  {
  }

  lemma AgreeWhenShorter(left: Stream, m: nat, right: Stream, n: nat, content: Content, parse: HeaderParser)
    requires AllData(left, m) && AllData(right, n)
    requires CarriesFirst(left, m, content) && CarriesFirst(right, n, content)
    requires |Bytes(left, m)| <= |Bytes(right, n)|
    ensures Bytes(right, n)[..|Bytes(left, m)|] == Bytes(left, m)
    ensures Decide(Bytes(left, m), parse).Some? ==>
              Decide(Bytes(right, n), parse) == Decide(Bytes(left, m), parse)
    ensures !left(m).Data? ==> Bytes(right, n) == Bytes(left, m)
  {
    hide Decide, Bytes, AllData;
    var a, b := Bytes(left, m), Bytes(right, n);
    PrefixesAgree(a, b, content);
    assert a + b[|a|..] == b;
    if Decide(a, parse).Some? {
      DecisionIsStable(a, b[|a|..], parse);
    }
  }

  /**
    For responses of any length, even endless ones, two ways of cutting the same content agree
    unless one of them makes the reader give up on the size.
  */
  lemma ChunkingsAgreeUnlessTooLarge(left: Stream, right: Stream, content: Content, parse: HeaderParser)
    requires Carries(left, content) && Carries(right, content)
    ensures || Outcome(left, 0, [], parse) == Outcome(right, 0, [], parse)
            || Outcome(left, 0, [], parse) == Err(ResponseTooLarge)
            || Outcome(right, 0, [], parse) == Err(ResponseTooLarge)
  {
    var m := AnswerPoint(left, 0, parse);
    var n := AnswerPoint(right, 0, parse);
    if Outcome(left, 0, [], parse) != Err(ResponseTooLarge)
       && Outcome(right, 0, [], parse) != Err(ResponseTooLarge) {
      if |Bytes(left, m)| <= |Bytes(right, n)| {
        AgreeWhenShorter(left, m, right, n, content, parse);
      }
      if |Bytes(right, n)| <= |Bytes(left, m)| {
        AgreeWhenShorter(right, n, left, m, content, parse);
      }
    }
  }

  /** Whatever was read, the headers are the same. */
  lemma SameHeaders(stream: Stream, m: nat, n: nat)
    requires AllData(stream, m) && AllData(stream, n)
    requires HttpBodyStart(Bytes(stream, n)).Some?
    ensures var bodyStart := HttpBodyStart(Bytes(stream, n)).value;
            || (HttpBodyStart(Bytes(stream, m)).None? && m < n)
            || (HttpBodyStart(Bytes(stream, m)) == Some(bodyStart)
                && Bytes(stream, m)[..bodyStart] == Bytes(stream, n)[..bodyStart])
  {
    hide HttpBodyStart;
    var a, b := Bytes(stream, n), Bytes(stream, m);
    if n <= m {
      BytesGrow(stream, n, m);
      assert a + b[|a|..] == b;
      BodyStartIsStable(a, b[|a|..]);
    } else if HttpBodyStart(b).Some? {
      BytesGrow(stream, m, n);
      assert b + a[|b|..] == a;
      BodyStartIsStable(b, a[|b|..]);
    }
  }

  /** A declared length is honoured exactly: that many bytes, from just after the first empty line. */
  lemma DeclaredLengthIsExact(stream: Stream, n: nat, parse: HeaderParser)
    requires AllData(stream, n) && HttpBodyStart(Bytes(stream, n)).Some?
    requires |Bytes(stream, n)| <= MAX_HTTP_RESPONSE_BYTES
    requires var bodyStart := HttpBodyStart(Bytes(stream, n)).value;
             var headers := parse(Bytes(stream, n)[..bodyStart]);
             headers.Ok? && headers.value.contentLength.Some?
    ensures var bodyStart := HttpBodyStart(Bytes(stream, n)).value;
            var length := parse(Bytes(stream, n)[..bodyStart]).value.contentLength.value;
            match Outcome(stream, 0, [], parse)
            case Ok(response) => |response.body| == length && bodyStart + length <= MAX_HTTP_RESPONSE_BYTES
                                 && exists k :: k >= 0 && AllData(stream, k)
                                                && bodyStart + length <= |Bytes(stream, k)|
                                                && response.body == Bytes(stream, k)[bodyStart..bodyStart + length]
            case Err(error) => error in {ResponseTooLarge, ResponseBodyIncomplete, ResponseReadFailed}
  {
    var k := AnswerPoint(stream, 0, parse);
    if Outcome(stream, 0, [], parse) != Err(ResponseTooLarge) {
      SameHeaders(stream, k, n);
    }
  }

  // ---------------------------------------------------------------- from the bytes to the response

  predicate IsFirstEmptyLine(bytes: seq<byte>, k: nat) {
    EmptyLineAt(bytes, k) && forall j: nat :: j < k ==> !EmptyLineAt(bytes, j)
  }

  /** The bytes before the body decode to a header block with this code and this length. */
  ghost predicate HasHeaders(bytes: seq<byte>, k: nat, decode: Utf8Decoder, code: nat, length: Option<nat>) {
    k + 4 <= |bytes|
    && exists lines :: IsHeaderBlock(lines, code, length) && decode(bytes[..k + 4]) == Some(JoinLines(lines))
  }

  lemma FirstEmptyLineIsBodyStart(bytes: seq<byte>, k: nat)
    requires IsFirstEmptyLine(bytes, k)
    ensures HttpBodyStart(bytes) == Some(k + 4)
  {
    BodyStartIsFirstEmptyLine(bytes);
    hide EmptyLineAt;
    match HttpBodyStart(bytes) {
      case None =>
      case Some(n) =>
        var m: nat := n - 4;
        assert EmptyLineAt(bytes, m);
    }
  }

  /** The result for a response whose headers are these. */
  function ReadOf(bytes: seq<byte>, event: ReadEvent, bodyStart: nat, headers: Headers): ReadResult
    requires bodyStart <= |bytes|
  {
    match headers.contentLength
    case None =>
      if event.Failed? then Err(ResponseReadFailed) else Ok(HttpResponse(headers.statusCode, bytes[bodyStart..]))
    case Some(m) =>
      if bodyStart + m > MAX_HTTP_RESPONSE_BYTES then Err(ResponseTooLarge)
      else if bodyStart + m <= |bytes| then Ok(HttpResponse(headers.statusCode, bytes[bodyStart..bodyStart + m]))
      else if event.Failed? then Err(ResponseReadFailed)
      else Err(ResponseBodyIncomplete)
  }

  lemma VerdictOfHeaders(bytes: seq<byte>, event: ReadEvent, parse: HeaderParser, bodyStart: nat, headers: Headers)
    requires !event.Data? && HttpBodyStart(bytes) == Some(bodyStart) && parse(bytes[..bodyStart]) == Ok(headers)
    ensures Verdict(bytes, event, parse) == ReadOf(bytes, event, bodyStart, headers)
  {
    hide HttpBodyStart;
  }

  /**
    What is read of a response of at most 64 KiB with a header block: its code and, of its body, as much
    as it declares or else all there is. It is too large if it declares to be, incomplete if it stops
    before the declared end, and a failing stream fails unless the whole declared body came before.
  */
  lemma ResponseIsRead(stream: Stream, n: nat, decode: Utf8Decoder, k: nat, code: nat, length: Option<nat>)
    requires AllData(stream, n) && !stream(n).Data? && |Bytes(stream, n)| <= MAX_HTTP_RESPONSE_BYTES
    requires IsFirstEmptyLine(Bytes(stream, n), k) && HasHeaders(Bytes(stream, n), k, decode, code, length)
    ensures Outcome(stream, 0, [], ParserOf(decode)) ==
            ReadOf(Bytes(stream, n), stream(n), k + 4, Headers(code, length))
  {
    ReadIsVerdictOfBytes(stream, n, ParserOf(decode));
    hide ParsedHeaders, IsHeaderBlock, JoinLines, IsFirstEmptyLine, HttpBodyStart, Verdict, Outcome, ReadOf, Bytes;
    var bytes := Bytes(stream, n);
    ParsedHeadersIff(bytes[..k + 4], decode, code, length);
    FirstEmptyLineIsBodyStart(bytes, k);
    VerdictOfHeaders(bytes, stream(n), ParserOf(decode), k + 4, Headers(code, length));
  }

  /** A response without an empty line has no headers. */
  lemma NoEmptyLineIsNoHeaders(stream: Stream, n: nat, decode: Utf8Decoder)
    requires AllData(stream, n) && !stream(n).Data? && |Bytes(stream, n)| <= MAX_HTTP_RESPONSE_BYTES
    requires forall k: nat :: !EmptyLineAt(Bytes(stream, n), k)
    ensures Outcome(stream, 0, [], ParserOf(decode)) ==
            if stream(n).Failed? then Err(ResponseReadFailed) else Err(ResponseHeadersUnavailable)
  {
    ReadIsVerdictOfBytes(stream, n, ParserOf(decode));
    BodyStartIsFirstEmptyLine(Bytes(stream, n));
    hide ParsedHeaders, HttpBodyStart, Outcome, EmptyLineAt, Bytes;
  }

  /** What comes before the first empty line is a header block, or the response is invalid. */
  lemma OtherHeadersAreInvalid(stream: Stream, n: nat, decode: Utf8Decoder, k: nat)
    requires AllData(stream, n) && !stream(n).Data? && |Bytes(stream, n)| <= MAX_HTTP_RESPONSE_BYTES
    requires IsFirstEmptyLine(Bytes(stream, n), k)
    requires forall code, length :: !HasHeaders(Bytes(stream, n), k, decode, code, length)
    ensures Outcome(stream, 0, [], ParserOf(decode)) == Err(InvalidResponseHeaders)
  {
    ReadIsVerdictOfBytes(stream, n, ParserOf(decode));
    hide ParsedHeaders, IsHeaderBlock, JoinLines, IsFirstEmptyLine, HttpBodyStart, Outcome, Bytes;
    var bytes := Bytes(stream, n);
    FirstEmptyLineIsBodyStart(bytes, k);
    NoHeadersAreInvalid(bytes, k, decode);
  }

  lemma NoHeadersAreInvalid(bytes: seq<byte>, k: nat, decode: Utf8Decoder)
    requires k + 4 <= |bytes| && forall code, length :: !HasHeaders(bytes, k, decode, code, length)
    ensures ParsedHeaders(bytes[..k + 4], decode) == Err(InvalidResponseHeaders)
  {
    hide ParsedHeaders, IsHeaderBlock, JoinLines;
    var r := ParsedHeaders(bytes[..k + 4], decode);
    var headers := if r.Ok? then r.value else Headers(0, None);
    assert !HasHeaders(bytes, k, decode, headers.statusCode, headers.contentLength);
    ParsedHeadersIff(bytes[..k + 4], decode, headers.statusCode, headers.contentLength);
  }
}
