/** What becomes of the octets after the empty line: which of them are the body, as the headers say. */
module HttpBodies {
  import opened Ctype
  import opened HttpChunks
  import opened HttpHeaders
  import opened HttpMessages
  import opened HttpRoundTrip
  import opened HttpScanning
  import opened Numbers

  // --- What the headers say

  /** The header is there with this value, which has no blanks to squeeze. */
  predicate Says(h: Headers, key: string, value: string) { key in h && h[key] == value && Spaced(value) }

  lemma SaysKept(h: Headers, key: string, value: string)
    requires Says(h, key, value)
    ensures key in Keeps(h) && Keeps(h)[key] == value
  {
    KeptFixed(value);
  }

  lemma DigitsAreSpaced(t: string)
    requires AllDigits(t)
    ensures Spaced(t)
  {
  }

  /** content-length is a number in decimal notation. */
  predicate SaysLength(h: Headers, n: nat) {
    "content-length" in h && h["content-length"] == Decimal(n) && n <= ULONG_MAX
  }

  lemma LengthKept(h: Headers, n: nat)
    requires SaysLength(h, n)
    ensures ContentLength(Keeps(h)) == Given(n)
  {
    DigitsAreSpaced(Decimal(n));
    KeptFixed(Decimal(n));
    ReadDecimal(n);
  }

  /** Any content-length: no digits or too large a number throw, and a number that more text follows does not count. */
  lemma LengthDecides(h: Headers, blanks: string, sign: string, digits: string, rest: string)
    requires "content-length" in h && Numeral(Kept(Start, h["content-length"]), blanks, sign, digits, rest)
    ensures var n := Value(10, digits);
      ContentLength(Keeps(h)) ==
      if digits == "" || n > ULONG_MAX then Throwing
      else if rest != "" then Missing
      else Given(if sign == "-" && n > 0 then ULONG_MAX + 1 - n else n)
  {
    StoulReads(Kept(Start, h["content-length"]), blanks, sign, digits, rest);
  }

  /** No content-length that counts. */
  predicate NoLength(h: Headers) {
    "content-length" in h ==>
      var t := Kept(Start, h["content-length"]); ReadUnsigned(t).Number? && ReadUnsigned(t).pos < |t|
  }

  predicate SaysChunked(h: Headers) {
    NoLength(h) && "transfer-encoding" in h && h["transfer-encoding"] == "chunked"
  }

  lemma ChunkedKept(h: Headers)
    requires SaysChunked(h)
    ensures ContentLength(Keeps(h)) == Missing
    ensures "transfer-encoding" in Keeps(h) && Keeps(h)["transfer-encoding"] == "chunked"
  {
    NoLengthKept(h);
    SaysKept(h, "transfer-encoding", "chunked");
  }

  /** A transfer-encoding, and another one than chunked once its blanks are squeezed. */
  predicate SaysOther(h: Headers) {
    NoLength(h) && "transfer-encoding" in h && Kept(Start, h["transfer-encoding"]) != "chunked"
  }

  predicate SaysNothing(h: Headers) { NoLength(h) && "transfer-encoding" !in h }

  lemma NoLengthKept(h: Headers)
    requires NoLength(h)
    ensures ContentLength(Keeps(h)) == Missing
  {
  }

  /** Chunks, the zero-size line and what follows it. */
  ghost predicate IsChunked(rest: string, cs: seq<Chunk>, last: string, more: string) {
    Sized(cs) && SizeIs(last, 0) && rest == Encode(cs) + last + CRLF + more
  }

  lemma ChunkedStands(d: string, i: nat, rest: string, cs: seq<Chunk>, last: string, more: string)
    requires IsChunked(rest, cs, last, more) && i <= |d| && d[i..] == rest
    ensures BodyAt(d, i, cs, last) && i + |Encode(cs)| + |last| + 2 == |d| - |more|
  {
    PiecesFollow(d, i, Encode(cs), last, more);
  }

  lemma PiecesFollow(d: string, i: nat, a: string, b: string, c: string)
    requires i <= |d| && d[i..] == a + b + CRLF + c
    ensures At(d, i, a) && At(d, i + |a|, b) && At(d, i + |a| + |b|, CRLF) && i + |a| + |b| + 2 == |d| - |c|
  {
    assert At(d, i, a + b + CRLF + c);
    AtSplit(d, i, a + b + CRLF, c);
    AtSplit(d, i, a + b, CRLF);
    AtSplit(d, i, a, b);
  }

  lemma ChunkedReads(d: string, i: nat, rest: string, cs: seq<Chunk>, last: string, more: string)
    requires IsChunked(rest, cs, last, more) && i <= |d| && d[i..] == rest
    ensures i < |d| && |d| > |more| && Chunks(d, i, "") == Upto(d, |d| - |more|, Payload(cs))
  {
    ChunkedStands(d, i, rest, cs, last, more);
    DecodeUndoesEncode(d, i, cs, last, "");
    assert "" + Payload(cs) == Payload(cs);
  }

  /** A parse that took the first n octets of the rest, which begins at i, and stands at the last of them; or that took
      all there is and found it too little. */
  predicate FirstOf(result: Result, pos: nat, body: string, i: nat, rest: string, n: nat) {
    if n <= |rest| then result == Ok && body == rest[..n] && pos == if n == 0 then i else i + n - 1
    else result == Again && body == rest
  }

  /** A parse that decoded the chunks and stands at the octet after them, at e; or found none there. */
  predicate Decoded(result: Result, pos: nat, body: string, cs: seq<Chunk>, more: string, e: nat) {
    body == Payload(cs) && if more != "" then result == Ok && pos == e else result == Again
  }

  // --- Requests

  /** A request line and headers that can be parsed, an empty line, and any octets. */
  function RequestThen(l: RequestLine, h: Headers, order: seq<string>, rest: string): string
    requires forall k :: k in order ==> k in h
  {
    RequestLineText(l) + HeaderText(order, h) + CRLF + rest
  }

  ghost predicate RequestReady(l: RequestLine, h: Headers, order: seq<string>) {
    RequestLineOk(l) && h != map[] && Printable(h) && Enumerates(order, h)
  }

  lemma RequestReaches(d: string, l: RequestLine, h: Headers, order: seq<string>, rest: string,
    p: Parsed<Request>)
    returns (q: nat)
    requires RequestReady(l, h, order) && d == RequestThen(l, h, order, rest)
    requires d != "" && p == ParseRequest(d, 0, FRESH_REQUEST)
    ensures q + 1 + |rest| == |d| && d[q + 1..] == rest && p == RequestTail(d, q, Request(l, Keeps(h), ""))
  {
    q := |d| - |rest| - 1;
    assert HeadAt(d, RequestLineText(l), HeaderText(order, h), q) && d[q + 1..] == rest by {
      HeadStands(d, RequestLineText(l), HeaderText(order, h), rest);
    }
    RequestHeadReads(d, Request(l, h, ""), order, q);
  }

  /** Whatever follows the empty line, the line and the headers are those that were sent. */
  lemma RequestKeepsHead(l: RequestLine, h: Headers, order: seq<string>, rest: string)
    requires RequestReady(l, h, order)
    ensures var p := ParseRequest(RequestThen(l, h, order, rest), 0, FRESH_REQUEST);
      p.value.line == l && p.value.headers == Keeps(h) && (rest == "" ==> p.result == Ok && p.value.body == "")
  {
    var d := RequestThen(l, h, order, rest);
    var q := RequestReaches(d, l, h, order, rest, ParseRequest(d, 0, FRESH_REQUEST));
  }

  /** With a content-length of n the body is the first n octets, and fewer are an EAGAIN. */
  lemma RequestTakesLength(l: RequestLine, h: Headers, order: seq<string>, rest: string, n: nat)
    requires RequestReady(l, h, order) && SaysLength(h, n) && rest != ""
    ensures var d := RequestThen(l, h, order, rest);
      var p := ParseRequest(d, 0, FRESH_REQUEST);
      FirstOf(p.result, p.pos, p.value.body, |d| - |rest|, rest, n)
  {
    var d := RequestThen(l, h, order, rest);
    var p := ParseRequest(d, 0, FRESH_REQUEST);
    var q := RequestReaches(d, l, h, order, rest, p);
    LengthKept(h, n);
    RequestTailLength(d, q, Request(l, Keeps(h), ""), rest, n, p);
  }

  lemma RequestTailLength(d: string, q: nat, r: Request, rest: string, n: nat, p: Parsed<Request>)
    requires q < |d| && d[q + 1..] == rest && rest != "" && r.body == "" && ContentLength(r.headers) == Given(n)
    requires p == RequestTail(d, q, r)
    ensures FirstOf(p.result, p.pos, p.value.body, q + 1, rest, n)
  {
    TakesLength(d, q + 1, rest, n);
  }

  lemma TakesLength(d: string, i: nat, rest: string, n: nat)
    requires i < |d| && d[i..] == rest
    ensures var r := TakeLast(d, i, n, "");
      FirstOf(r.result, r.pos, r.value, i, rest, n)
  {
    TakeLastReads(d, i, n, "");
    if n <= |rest| {
      assert "" + d[i..i + n] == d[i..][..n];
    } else {
      assert "" + d[i..] == d[i..];
    }
  }

  /** A chunked body is decoded, whatever the chunks, if an octet follows it. */
  lemma RequestDecodesChunks(l: RequestLine, h: Headers, order: seq<string>,
                             rest: string, cs: seq<Chunk>, last: string, more: string)
    requires RequestReady(l, h, order) && SaysChunked(h) && IsChunked(rest, cs, last, more)
    ensures var d := RequestThen(l, h, order, rest);
      var p := ParseRequest(d, 0, FRESH_REQUEST);
      Decoded(p.result, p.pos, p.value.body, cs, more, |d| - |more|)
  {
    var d := RequestThen(l, h, order, rest);
    var p := ParseRequest(d, 0, FRESH_REQUEST);
    var q := RequestReaches(d, l, h, order, rest, p);
    ChunkedKept(h);
    RequestTailChunks(d, q, Request(l, Keeps(h), ""), rest, cs, last, more, p);
  }

  lemma RequestTailChunks(d: string, q: nat, r: Request, rest: string, cs: seq<Chunk>, last: string, more: string,
    p: Parsed<Request>)
    requires q < |d| && d[q + 1..] == rest && IsChunked(rest, cs, last, more) && r.body == ""
    requires ContentLength(r.headers) == Missing
    requires "transfer-encoding" in r.headers && r.headers["transfer-encoding"] == "chunked"
    requires p == RequestTail(d, q, r)
    ensures Decoded(p.result, p.pos, p.value.body, cs, more, |d| - |more|)
  {
    ChunkedReads(d, q + 1, rest, cs, last, more);
  }

  /** A content-length that makes stoul throw ends the parse in its exception. */
  lemma RequestThrows(l: RequestLine, h: Headers, order: seq<string>, rest: string)
    requires RequestReady(l, h, order) && rest != "" && ContentLength(Keeps(h)) == Throwing
    ensures var p := ParseRequest(RequestThen(l, h, order, rest), 0, FRESH_REQUEST);
      p.result == Thrown && p.value.body == ""
  {
    var d := RequestThen(l, h, order, rest);
    var q := RequestReaches(d, l, h, order, rest, ParseRequest(d, 0, FRESH_REQUEST));
  }

  /** Any other transfer-encoding is refused, and so is a body that nothing announces. */
  lemma RequestRefusesBody(l: RequestLine, h: Headers, order: seq<string>, rest: string)
    requires RequestReady(l, h, order) && rest != "" && (SaysOther(h) || SaysNothing(h))
    ensures var p := ParseRequest(RequestThen(l, h, order, rest), 0, FRESH_REQUEST);
      && p.result == Bad(if SaysOther(h) then InvalidTransferEncoding else UnexpectedBody)
      && p.value.body == ""
  {
    var d := RequestThen(l, h, order, rest);
    var p := ParseRequest(d, 0, FRESH_REQUEST);
    var q := RequestReaches(d, l, h, order, rest, p);
    NoLengthKept(h);
    RequestTailRefuses(d, q, Request(l, Keeps(h), ""), rest, p);
  }

  lemma RequestTailRefuses(d: string, q: nat, r: Request, rest: string, p: Parsed<Request>)
    requires q < |d| && d[q + 1..] == rest && rest != "" && ContentLength(r.headers) == Missing
    requires "transfer-encoding" in r.headers ==> r.headers["transfer-encoding"] != "chunked"
    requires p == RequestTail(d, q, r)
    ensures p.result == Bad(if "transfer-encoding" in r.headers then InvalidTransferEncoding else UnexpectedBody)
    ensures p.value.body == r.body
  {
  }

  // --- Responses

  function ResponseThen(l: ResponseLine, reason: string, h: Headers, order: seq<string>, rest: string): string
    requires forall k :: k in order ==> k in h
  {
    ResponseLineText(l, reason) + HeaderText(order, h) + CRLF + rest
  }

  ghost predicate ResponseReady(l: ResponseLine, reason: string, h: Headers, order: seq<string>) {
    CR !in reason && ResponseLineOk(l) && h != map[] && Printable(h) && Enumerates(order, h)
  }

  lemma ResponseReaches(d: string, l: ResponseLine, reason: string, h: Headers, order: seq<string>, rest: string,
    p: Parsed<Response>)
    returns (q: nat)
    requires ResponseReady(l, reason, h, order) && d == ResponseThen(l, reason, h, order, rest)
    requires d != "" && p == ParseResponse(d, 0, FRESH_RESPONSE)
    ensures q + 1 + |rest| == |d| && d[q + 1..] == rest && p == ResponseTail(d, q, Response(l, Keeps(h), ""))
  {
    q := |d| - |rest| - 1;
    assert HeadAt(d, ResponseLineText(l, reason), HeaderText(order, h), q) && d[q + 1..] == rest by {
      HeadStands(d, ResponseLineText(l, reason), HeaderText(order, h), rest);
    }
    ResponseHeadReads(d, Response(l, h, ""), reason, order, q);
  }

  lemma ResponseTakesLength(l: ResponseLine, reason: string, h: Headers, order: seq<string>, rest: string, n: nat)
    requires ResponseReady(l, reason, h, order) && SaysLength(h, n) && n > 0 && rest != ""
    ensures var d := ResponseThen(l, reason, h, order, rest);
      var p := ParseResponse(d, 0, FRESH_RESPONSE);
      FirstOf(p.result, p.pos, p.value.body, |d| - |rest|, rest, n)
  {
    var d := ResponseThen(l, reason, h, order, rest);
    var p := ParseResponse(d, 0, FRESH_RESPONSE);
    var q := ResponseReaches(d, l, reason, h, order, rest, p);
    LengthKept(h, n);
    ResponseTailLength(d, q, Response(l, Keeps(h), ""), rest, n, p);
  }

  lemma ResponseTailLength(d: string, q: nat, r: Response, rest: string, n: nat, p: Parsed<Response>)
    requires n > 0 && q < |d| && d[q + 1..] == rest && rest != ""
    requires r.body == "" && ContentLength(r.headers) == Given(n)
    requires p == ResponseTail(d, q, r)
    ensures FirstOf(p.result, p.pos, p.value.body, q + 1, rest, n)
  {
    TakesLength(d, q + 1, rest, n);
  }

  /** A content-length of zero: the parse ends at the empty line, unless the headers announce a body otherwise. */
  lemma ResponseTakesNothing(l: ResponseLine, reason: string, h: Headers, order: seq<string>, rest: string)
    requires ResponseReady(l, reason, h, order) && SaysLength(h, 0) && rest != ""
    ensures var d := ResponseThen(l, reason, h, order, rest);
      var p := ParseResponse(d, 0, FRESH_RESPONSE);
      && p.result == Ok && p.value.body == ""
      && p.pos == if SaysClose(h) || SaysChunks(h) then |d| - |rest| else |d| - |rest| - 1
  {
    var d := ResponseThen(l, reason, h, order, rest);
    var q := ResponseReaches(d, l, reason, h, order, rest, ParseResponse(d, 0, FRESH_RESPONSE));
    LengthKept(h, 0);
  }

  predicate SaysChunks(h: Headers) {
    "transfer-encoding" in h && Kept(Start, h["transfer-encoding"]) == "chunked"
  }

  lemma ResponseDecodesChunks(l: ResponseLine, reason: string, h: Headers, order: seq<string>,
                              rest: string, cs: seq<Chunk>, last: string, more: string)
    requires ResponseReady(l, reason, h, order) && SaysChunked(h) && IsChunked(rest, cs, last, more)
    ensures var d := ResponseThen(l, reason, h, order, rest);
      var p := ParseResponse(d, 0, FRESH_RESPONSE);
      Decoded(p.result, p.pos, p.value.body, cs, more, |d| - |more|)
  {
    var d := ResponseThen(l, reason, h, order, rest);
    var p := ParseResponse(d, 0, FRESH_RESPONSE);
    var q := ResponseReaches(d, l, reason, h, order, rest, p);
    ChunkedKept(h);
    ResponseTailChunks(d, q, Response(l, Keeps(h), ""), rest, cs, last, more, p);
  }

  lemma ResponseTailChunks(d: string, q: nat, r: Response, rest: string, cs: seq<Chunk>, last: string, more: string,
    p: Parsed<Response>)
    requires q < |d| && d[q + 1..] == rest && IsChunked(rest, cs, last, more) && r.body == ""
    requires ContentLength(r.headers) == Missing
    requires "transfer-encoding" in r.headers && r.headers["transfer-encoding"] == "chunked"
    requires p == ResponseTail(d, q, r)
    ensures Decoded(p.result, p.pos, p.value.body, cs, more, |d| - |more|)
  {
    ChunkedReads(d, q + 1, rest, cs, last, more);
  }

  lemma ResponseThrows(l: ResponseLine, reason: string, h: Headers, order: seq<string>, rest: string)
    requires ResponseReady(l, reason, h, order) && ContentLength(Keeps(h)) == Throwing
    ensures var p := ParseResponse(ResponseThen(l, reason, h, order, rest), 0, FRESH_RESPONSE);
      p.result == Thrown && p.value.body == ""
  {
    var d := ResponseThen(l, reason, h, order, rest);
    var q := ResponseReaches(d, l, reason, h, order, rest, ParseResponse(d, 0, FRESH_RESPONSE));
  }

  /** The connection is said to close after the response. */
  predicate SaysClose(h: Headers) { "connection" in h && Kept(Start, h["connection"]) == "close" }

  /** Without a length the body is all that follows if the connection closes, and nothing if it does not; another
      transfer-encoding than chunked is refused only where a body is read. */
  lemma ResponseReadsRest(l: ResponseLine, reason: string, h: Headers, order: seq<string>, rest: string)
    requires ResponseReady(l, reason, h, order) && rest != "" && (SaysOther(h) || SaysNothing(h))
    ensures var p := ParseResponse(ResponseThen(l, reason, h, order, rest), 0, FRESH_RESPONSE);
      if !SaysClose(h) then p.result == Ok && p.value.body == ""
      else if SaysNothing(h) then p.result == Ok && p.value.body == rest
      else p.result == Bad(InvalidTransferEncoding) && p.value.body == ""
  {
    var d := ResponseThen(l, reason, h, order, rest);
    var p := ParseResponse(d, 0, FRESH_RESPONSE);
    var q := ResponseReaches(d, l, reason, h, order, rest, p);
    NoLengthKept(h);
    ResponseTailRest(d, q, Response(l, Keeps(h), ""), rest, p);
  }

  lemma ResponseTailRest(d: string, q: nat, r: Response, rest: string, p: Parsed<Response>)
    requires q < |d| && d[q + 1..] == rest && rest != "" && ContentLength(r.headers) == Missing && r.body == ""
    requires "transfer-encoding" in r.headers ==> r.headers["transfer-encoding"] != "chunked"
    requires p == ResponseTail(d, q, r)
    ensures if "connection" !in r.headers || r.headers["connection"] != "close"
            then p.result == Ok && p.value.body == ""
            else if "transfer-encoding" !in r.headers then p.result == Ok && p.value.body == rest
            else p.result == Bad(InvalidTransferEncoding) && p.value.body == ""
  {
    assert "" + rest == rest;
  }

  // --- Messages without header lines, parsed into a message that may have headers and a body from before

  lemma EmptyLineStands(d: string, line: string, rest: string)
    requires d == line + CRLF + rest
    ensures At(d, 0, line) && At(d, |line|, CRLF) && d[|line| + 2..] == rest && |line| + 2 <= |d|
  {
    assert At(d, 0, line + CRLF + rest);
    AtSplit(d, 0, line + CRLF, rest);
    AtSplit(d, 0, line, CRLF);
  }

  /** A CR after the line that no LF follows ends the parse there, without an error. */
  lemma RequestStopsAtCR(d: string, l: RequestLine, was: Request)
    requires RequestLineOk(l) && At(d, 0, RequestLineText(l))
    requires var i := |RequestLineText(l)|; i < |d| && d[i] == CR && (i + 1 < |d| ==> d[i + 1] != LF)
    ensures var i := |RequestLineText(l)|;
      ParseRequest(d, 0, was) == Parsed(Ok, if i + 1 == |d| then i else i + 1, was.(line := l))
  {
    assert ParseRequestLine(d, 0, was.line) == Parsed(Ok, |RequestLineText(l)|, l) by {
      RequestLineReads(d, 0, l, was.line);
    }
  }

  lemma ResponseStopsAtCR(d: string, l: ResponseLine, reason: string, was: Response)
    requires ResponseLineOk(l) && CR !in reason && At(d, 0, ResponseLineText(l, reason))
    requires var i := |ResponseLineText(l, reason)|; i < |d| && d[i] == CR && (i + 1 < |d| ==> d[i + 1] != LF)
    ensures var i := |ResponseLineText(l, reason)|;
      ParseResponse(d, 0, was) == Parsed(Ok, if i + 1 == |d| then i else i + 1, was.(line := l))
  {
    assert ParseResponseLine(d, 0, was.line) == Parsed(Ok, |ResponseLineText(l, reason)|, l) by {
      ResponseLineReads(d, 0, l, reason, was.line);
    }
  }

  /** The body so far is b, and the rest follows: what was announced before decides, and the body grows. */
  predicate BareRequest(result: Result, body: string, h: Headers, b: string, rest: string) {
    && (rest == "" ==> result == Again && body == b)
    && (rest != "" && ContentLength(h) == Missing && "transfer-encoding" !in h ==>
        result == Bad(UnexpectedBody) && body == b)
    && (rest != "" && ContentLength(h).Given? && ContentLength(h).n <= |rest| ==>
        result == Ok && body == b + rest[..ContentLength(h).n])
  }

  /** A request line, an empty line, and any octets. */
  lemma RequestWithoutHeaders(l: RequestLine, rest: string, was: Request)
    requires RequestLineOk(l)
    ensures var p := ParseRequest(RequestLineText(l) + CRLF + rest, 0, was);
      && p.value.line == l && p.value.headers == was.headers
      && BareRequest(p.result, p.value.body, was.headers, was.body, rest)
  {
    var d := RequestLineText(l) + CRLF + rest;
    var i := |RequestLineText(l)|;
    EmptyLineStands(d, RequestLineText(l), rest);
    assert ParseRequestLine(d, 0, was.line) == Parsed(Ok, i, l) by { RequestLineReads(d, 0, l, was.line); }
    AtTwo(d, i, CR, LF);
    RequestBareTail(d, i, rest, was.(line := l), RequestNoHeaders(d, i, was.(line := l)));
  }

  lemma RequestBareTail(d: string, i: nat, rest: string, r: Request, p: Parsed<Request>)
    requires At(d, i, CRLF) && d[i + 2..] == rest && p == RequestNoHeaders(d, i, r)
    ensures p.value.line == r.line && p.value.headers == r.headers
    ensures BareRequest(p.result, p.value.body, r.headers, r.body, rest)
  {
    AtTwo(d, i, CR, LF);
    if rest != "" && ContentLength(r.headers).Given? { TakesMore(d, i + 2, rest, ContentLength(r.headers).n, r.body); }
  }

  lemma TakesMore(d: string, i: nat, rest: string, n: nat, b: string)
    requires i < |d| && d[i..] == rest
    ensures n <= |rest| ==> TakeLast(d, i, n, b).result == Ok && TakeLast(d, i, n, b).value == b + rest[..n]
  {
    TakeLastReads(d, i, n, b);
    if n <= |rest| { assert d[i..i + n] == rest[..n]; }
  }

  predicate BareResponse(result: Result, body: string, h: Headers, b: string, rest: string) {
    && (rest == "" ==> result == Again && body == b)
    && (rest != "" && ContentLength(h) == Missing && "transfer-encoding" !in h ==>
        if "connection" !in h then result == Ok && body == b
        else if h["connection"] == "close" then result == Ok && body == b + rest
        else result == Bad(UnexpectedBody) && body == b)
    && (rest != "" && ContentLength(h).Given? && ContentLength(h).n <= |rest| ==>
        result == Ok && body == b + rest[..ContentLength(h).n])
  }

  lemma ResponseWithoutHeaders(l: ResponseLine, reason: string, rest: string, was: Response)
    requires ResponseLineOk(l) && CR !in reason
    ensures var p := ParseResponse(ResponseLineText(l, reason) + CRLF + rest, 0, was);
      && p.value.line == l && p.value.headers == was.headers
      && BareResponse(p.result, p.value.body, was.headers, was.body, rest)
  {
    var d := ResponseLineText(l, reason) + CRLF + rest;
    var i := |ResponseLineText(l, reason)|;
    EmptyLineStands(d, ResponseLineText(l, reason), rest);
    assert ParseResponseLine(d, 0, was.line) == Parsed(Ok, i, l) by { ResponseLineReads(d, 0, l, reason, was.line); }
    AtTwo(d, i, CR, LF);
    ResponseBareTail(d, i, rest, was.(line := l), ResponseNoHeaders(d, i, was.(line := l)));
  }

  lemma ResponseBareTail(d: string, i: nat, rest: string, r: Response, p: Parsed<Response>)
    requires At(d, i, CRLF) && d[i + 2..] == rest && p == ResponseNoHeaders(d, i, r)
    ensures p.value.line == r.line && p.value.headers == r.headers
    ensures BareResponse(p.result, p.value.body, r.headers, r.body, rest)
  {
    AtTwo(d, i, CR, LF);
    if rest != "" && ContentLength(r.headers).Given? { TakesMore(d, i + 2, rest, ContentLength(r.headers).n, r.body); }
  }
}
