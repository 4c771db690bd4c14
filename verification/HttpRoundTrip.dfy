/** Parsing what was printed: exactly which messages come back as they were. */
module HttpRoundTrip {
  import opened Ctype
  import opened HttpChunks
  import opened HttpHeaders
  import opened HttpMessages
  import opened HttpScanning
  import opened Numbers

  // --- Lines

  predicate VersionOk(v: Version) { v.major <= UINT_MAX && v.minor <= UINT_MAX }

  lemma {:induction false} LettersRead(d: string, i: nat, k: nat, was: Version)
    requires k < |HTTP| && At(d, i, HTTP[k..]) && i + |HTTP| - k < |d|
    ensures VersionFrom(d, i, Letter(k), "", "", was) == VersionFrom(d, i + |HTTP| - k, Major, "", "", was)
    decreases |HTTP| - k
  {
    AtHead(d, i, HTTP[k..]);
    if k + 1 < |HTTP| {
      assert HTTP[k..][1..] == HTTP[k + 1..];
      LettersRead(d, i + 1, k + 1, was);
    }
  }

  lemma {:induction false} MajorReads(d: string, i: nat, t: string, acc: string, was: Version)
    requires At(d, i, t) && i + |t| < |d| && AllDigits(t) && AllDigits(acc) && d[i + |t|] == '.'
    ensures AllDigits(acc + t)
    ensures VersionFrom(d, i, Major, acc, "", was) == VersionFrom(d, i + |t|, Dot, acc + t, "", was)
    decreases |t|
  {
    if t == "" {
      assert acc + t == acc;
    } else {
      AtHead(d, i, t);
      MajorReads(d, i + 1, t[1..], acc + [t[0]], was);
      assert acc + [t[0]] + t[1..] == acc + t;
    }
  }

  lemma {:induction false} MinorReads(d: string, i: nat, major: string, t: string, acc: string, was: Version)
    requires At(d, i, t) && i + |t| < |d| && AllDigits(major) && AllDigits(t) && AllDigits(acc) && !IsDigit(d[i + |t|])
    ensures AllDigits(acc + t)
    ensures VersionFrom(d, i, Minor, major, acc, was) ==
            Parsed(Ok, i + |t|,
              Version(Extract(10, major, UINT_MAX, was.major), Extract(10, acc + t, UINT_MAX, was.minor)))
    decreases |t|
  {
    if t == "" {
      assert acc + t == acc;
    } else {
      AtHead(d, i, t);
      MinorReads(d, i + 1, major, t[1..], acc + [t[0]], was);
      assert acc + [t[0]] + t[1..] == acc + t;
    }
  }

  /** What the parser makes of a version: the numbers are clipped to an unsigned int. */
  function Clipped(v: Version): Version { Version(Clip(v.major, UINT_MAX), Clip(v.minor, UINT_MAX)) }

  lemma NumbersRead(d: string, i: nat, v: Version, was: Version)
    requires At(d, i, Decimal(v.major))
    requires var dot := i + |Decimal(v.major)|; dot < |d| && d[dot] == '.' && At(d, dot + 1, Decimal(v.minor))
    requires var e := i + |Decimal(v.major)| + 1 + |Decimal(v.minor)|; e < |d| && !IsDigit(d[e])
    ensures VersionFrom(d, i, Major, "", "", was) ==
            Parsed(Ok, i + |Decimal(v.major)| + 1 + |Decimal(v.minor)|, Clipped(v))
  {
    var major, minor := Decimal(v.major), Decimal(v.minor);
    assert "" + major == major && "" + minor == minor;
    MajorReads(d, i, major, "", was);
    MinorReads(d, i + |major| + 1, major, minor, "", was);
    DecimalValue(v.major);
    DecimalValue(v.minor);
  }

  /** A printed version is read back, as far as an unsigned int holds its numbers. */
  lemma VersionReads(d: string, i: nat, v: Version, was: Version)
    requires At(d, i, VersionText(v))
    requires i + |VersionText(v)| < |d| && !IsDigit(d[i + |VersionText(v)|])
    ensures ParseVersion(d, i, was) == Parsed(Ok, i + |VersionText(v)|, Clipped(v))
  {
    var major, minor := Decimal(v.major), Decimal(v.minor);
    var dot := i + |HTTP| + |major|;
    assert At(d, i, HTTP) && At(d, i + |HTTP|, major) && At(d, dot, ".") && At(d, dot + 1, minor) by {
      AtSplit(d, i, HTTP + major + ".", minor);
      AtSplit(d, i, HTTP + major, ".");
      AtSplit(d, i, HTTP, major);
    }
    AtHead(d, dot, ".");
    assert HTTP[0..] == HTTP;
    AtHead(d, i, HTTP);
    LettersRead(d, i, 0, was);
    NumbersRead(d, i + |HTTP|, v, was);
  }

  /** A line that can be parsed back: a real method, a uri without white space, a version in range. */
  predicate RequestLineOk(l: RequestLine) {
    && l.verb != INVALID
    && l.uri != "" && NoSpace(l.uri)
    && VersionOk(l.version)
  }

  lemma MethodTextIsWord(m: Method)
    ensures forall i :: 0 <= i < |MethodText(m)| ==> !IsSpace(MethodText(m)[i])
    ensures m != INVALID ==> MethodOf(MethodText(m)) == m
  {}

  /** Where the pieces of a printed request line stand. */
  lemma RequestLineStands(d: string, i: nat, l: RequestLine)
    requires At(d, i, RequestLineText(l))
    ensures var u := i + |MethodText(l.verb)| + 1; var v := u + |l.uri| + 1;
      && At(d, i, MethodText(l.verb)) && At(d, u - 1, " ") && At(d, u, l.uri) && At(d, v - 1, " ")
      && At(d, v, VersionText(l.version)) && At(d, v + |VersionText(l.version)|, CRLF)
      && i + |RequestLineText(l)| == v + |VersionText(l.version)| + 2
  {
    PiecesStand(d, i, MethodText(l.verb), l.uri, VersionText(l.version));
  }

  lemma PiecesStand(d: string, i: nat, a: string, b: string, c: string)
    requires At(d, i, a + " " + b + " " + c + CRLF)
    ensures var u := i + |a| + 1; var v := u + |b| + 1;
      && At(d, i, a) && At(d, u - 1, " ") && At(d, u, b) && At(d, v - 1, " ") && At(d, v, c) && At(d, v + |c|, CRLF)
  {
    AtSplit(d, i, a + " " + b + " " + c, CRLF);
    AtSplit(d, i, a + " " + b + " ", c);
    AtSplit(d, i, a + " " + b, " ");
    AtSplit(d, i, a + " ", b);
    AtSplit(d, i, a, " ");
  }

  /** A word and the space after it. */
  lemma WordThenSpace(d: string, i: nat, t: string)
    requires NoSpace(t) && At(d, i, t) && At(d, i + |t|, " ")
    ensures i + |t| < |d| && d[i + |t|] == ' ' && Word(d, i, "") == Parsed(Ok, i + |t|, t)
  {
    AtHead(d, i + |t|, " ");
    WordReads(d, i, t, "");
    assert "" + t == t;
  }

  /** Any words where the method and the uri belong, a version, and a line end. */
  lemma RequestWordsRead(d: string, i: nat, verb: string, uri: string, v: Version, was: RequestLine)
    requires NoSpace(verb) && NoSpace(uri) && uri != "" && VersionOk(v)
    requires var line := verb + " " + uri + " " + VersionText(v) + CRLF; At(d, i, line) && i + |line| < |d|
    ensures var e := i + |verb + " " + uri + " " + VersionText(v) + CRLF|;
      ParseRequestLine(d, i, was) ==
      Parsed(if MethodOf(verb) == INVALID then Bad(InvalidMethod) else Ok, e, RequestLine(MethodOf(verb), uri, v))
  {
    var u := i + |verb| + 1;
    PiecesStand(d, i, verb, uri, VersionText(v));
    WordThenSpace(d, i, verb);
    AtHead(d, u, uri);
    assert EatSpace(d, u - 1) == Parsed(Ok, u, ());
    WordThenSpace(d, u, uri);
    var e := u + |uri| + 1 + |VersionText(v)|;
    AtTwo(d, e, CR, LF);
    VersionReads(d, u + |uri| + 1, v, was.version);
    VersionAfterSpace(d, u + |uri|, was.version);
  }

  lemma VersionAfterSpace(d: string, i: nat, was: Version)
    requires i + 1 < |d| && d[i] == ' '
    ensures ParseVersion(d, i, was) == ParseVersion(d, i + 1, was)
  {
  }

  lemma RequestLineReads(d: string, i: nat, l: RequestLine, was: RequestLine)
    requires RequestLineOk(l) && At(d, i, RequestLineText(l)) && i + |RequestLineText(l)| < |d|
    ensures ParseRequestLine(d, i, was) == Parsed(Ok, i + |RequestLineText(l)|, l)
  {
    MethodTextIsWord(l.verb);
    RequestWordsRead(d, i, MethodText(l.verb), l.uri, l.version, was);
  }

  predicate ResponseLineOk(l: ResponseLine) { VersionOk(l.version) && l.code <= UINT_MAX }

  lemma CodeReads(d: string, i: nat, code: nat)
    requires code <= UINT_MAX && At(d, i, Decimal(code)) && i + |Decimal(code)| < |d| && d[i + |Decimal(code)|] == ' '
    ensures UInt(d, i) == Parsed(Ok, i + |Decimal(code)|, code) && !IsSP(d[i])
  {
    AtHead(d, i, Decimal(code));
    DigitsRead(d, i, Decimal(code), "");
    assert "" + Decimal(code) == Decimal(code);
    DecimalValue(code);
  }

  lemma ReasonReads(d: string, i: nat, reason: string, l: ResponseLine)
    requires CR !in reason && i < |d| && d[i] == ' ' && At(d, i + 1, reason) && At(d, i + 1 + |reason|, CRLF)
    requires i + 1 + |reason| + 2 < |d|
    ensures ResponseLineEnd(d, i, l) == Parsed(Ok, i + 1 + |reason| + 2, l)
  {
    AtTwo(d, i + 1 + |reason|, CR, LF);
    SkipsToCR(d, i + 1, reason);
    assert SkipToCR(d, i) == SkipToCR(d, i + 1);
  }

  lemma ResponseLineReads(d: string, i: nat, l: ResponseLine, reason: string, was: ResponseLine)
    requires ResponseLineOk(l) && CR !in reason
    requires At(d, i, ResponseLineText(l, reason)) && i + |ResponseLineText(l, reason)| < |d|
    ensures ParseResponseLine(d, i, was) == Parsed(Ok, i + |ResponseLineText(l, reason)|, l)
  {
    var version, code := VersionText(l.version), Decimal(l.code);
    var c := i + |version| + 1;
    PiecesStand(d, i, version, code, reason);
    AtHead(d, c - 1, " ");
    AtHead(d, c + |code|, " ");
    CodeReads(d, c, l.code);
    VersionReads(d, i, l.version, was.version);
    assert EatSpace(d, c - 1) == Parsed(Ok, c, ());
    ReasonReads(d, c + |code|, reason, l);
  }

  // --- Bodies

  /** A request body that was sent comes back exactly when content-length gives its size. */
  lemma RequestBodyReads(d: string, i: nat, h: Headers)
    requires i < |d|
    ensures var r := RequestBody(d, i, h, "");
      (r.result == Ok && r.value == d[i..]) <==> ContentLength(h) == Given(|d| - i)
  {
    assert "" + d[i..] == d[i..];
    match ContentLength(h)
    case Given(n) =>
      TakeLastReads(d, i, n, "");
    case Missing =>
      if Chunks(d, i, "").result == Ok { ChunksShrink(d, i, ""); }
    case Throwing =>
  }

  /** Read up to the end of the stream: neither a length nor an encoding, and the connection closes. */
  predicate ReadToEnd(h: Headers) {
    && ContentLength(h) == Missing && "transfer-encoding" !in h
    && "connection" in h && h["connection"] == "close"
  }

  lemma ResponseBodyReads(d: string, i: nat, h: Headers)
    requires i < |d|
    ensures var r := ResponseBody(d, i, h, "");
      (r.result == Ok && r.value == d[i..]) <==> ContentLength(h) == Given(|d| - i) || ReadToEnd(h)
  {
    assert "" + d[i..] == d[i..];
    match ContentLength(h)
    case Given(n) =>
      TakeLastReads(d, i, n, "");
    case Missing =>
      if Chunks(d, i, "").result == Ok { ChunksShrink(d, i, ""); }
    case Throwing =>
  }

  // --- Messages

  /** A line, header lines and an empty line from the start of the stream on, with the last LF at q. */
  predicate HeadAt(d: string, line: string, headers: string, q: nat) {
    && At(d, 0, line) && At(d, |line|, headers) && At(d, |line| + |headers|, CRLF)
    && q == |line| + |headers| + 1
  }

  lemma HeadStands(d: string, line: string, headers: string, sent: string)
    requires d == line + headers + CRLF + sent
    ensures HeadAt(d, line, headers, |d| - |sent| - 1) && d[|d| - |sent|..] == sent
  {
    assert At(d, 0, line + headers + CRLF + sent);
    AtSplit(d, 0, line + headers + CRLF, sent);
    AtSplit(d, 0, line + headers, CRLF);
    AtSplit(d, 0, line, headers);
  }

  // --- What the parsers deliver, whatever the stream

  lemma {:induction false} VersionDelivers(d: string, i: nat, state: VersionState,
    major: string, minor: string, was: Version)
    requires i < |d| && state.Valid() && AllDigits(major) && AllDigits(minor) && VersionOk(was)
    ensures VersionOk(VersionFrom(d, i, state, major, minor, was).value)
    decreases |d| - i, state.Rank()
  {
    match state
    case Blank =>
      if !IsSpace(d[i]) {
        VersionDelivers(d, i, Letter(0), major, minor, was);
      } else if i + 1 < |d| {
        VersionDelivers(d, i + 1, Blank, major, minor, was);
      }
    case Letter(k) =>
      if i + 1 < |d| {
        VersionDelivers(d, i + 1, if k + 1 < |HTTP| then Letter(k + 1) else Major, major, minor, was);
      }
    case Major =>
      if !IsDigit(d[i]) {
        VersionDelivers(d, i, Dot, major, minor, was);
      } else if i + 1 < |d| {
        VersionDelivers(d, i + 1, Major, major + [d[i]], minor, was);
      }
    case Dot =>
      if i + 1 < |d| {
        VersionDelivers(d, i + 1, Minor, major, minor, was);
      }
    case Minor =>
      if IsDigit(d[i]) && i + 1 < |d| {
        VersionDelivers(d, i + 1, Minor, major, minor + [d[i]], was);
      }
  }

  lemma RequestLineDelivers(d: string, i: nat, was: RequestLine)
    requires i < |d| && VersionOk(was.version)
    ensures var r := ParseRequestLine(d, i, was);
      r.result == Ok ==> r.value.verb != INVALID && NoSpace(r.value.uri) && VersionOk(r.value.version)
  {
    var verb := Word(d, i, "");
    var space := EatSpace(d, verb.pos);
    var uri := Word(d, space.pos, "");
    WordDelivers(d, space.pos, "");
    VersionDelivers(d, uri.pos, Blank, "", "", was.version);
  }

  /** The words before the version, when the uri is empty: the version is taken for the uri. */
  lemma EmptyUriFails(d: string, l: RequestLine, was: RequestLine)
    requires l.uri == "" && At(d, 0, RequestLineText(l)) && 0 < |d|
    ensures ParseRequestLine(d, 0, was).value.uri != ""
  {
    var verb, version := MethodText(l.verb), VersionText(l.version);
    var u := |verb| + 2;
    RequestLineStands(d, 0, l);
    MethodTextIsWord(l.verb);
    WordThenSpace(d, 0, verb);
    AtHead(d, u - 1, " ");
    AtHead(d, u, version);
    assert EatSpace(d, u - 1) == Parsed(Ok, u, ());
    assert EatSpace(d, u - 2) == EatSpace(d, u - 1);
    WordDelivers(d, u, "");
  }

  lemma ResponseLineDelivers(d: string, i: nat, was: ResponseLine)
    requires i < |d| && ResponseLineOk(was)
    ensures ResponseLineOk(ParseResponseLine(d, i, was).value)
  {
    VersionDelivers(d, i, Blank, "", "", was.version);
  }

  // --- Requests

  predicate RequestOk(r: Request) { RequestLineOk(r.line) && r.headers != map[] && HeadersOk(r.headers) }

  /** A parsed request has the line that was parsed and headers as they can be parsed. */
  lemma RequestDelivers(d: string, p: Parsed<Request>)
    requires d != "" && p == ParseRequest(d, 0, FRESH_REQUEST)
    ensures var line := ParseRequestLine(d, 0, FRESH_REQUEST.line);
      p.value.line == line.value && (p.result == Ok ==> line.result == Ok)
    ensures Printable(p.value.headers) && NoTabs(p.value.headers)
  {
    var line := ParseRequestLine(d, 0, FRESH_REQUEST.line);
    HeaderLinesClean(d, EatSpace(d, line.pos).pos, map[]);
  }

  /** The rest of the parse, after its line. */
  lemma RequestAfterLine(d: string, i: nat, line: RequestLine)
    requires i < |d| && ParseRequestLine(d, 0, FRESH_REQUEST.line) == Parsed(Ok, i, line)
    ensures ParseRequest(d, 0, FRESH_REQUEST) ==
            if d[i] == CR then RequestNoHeaders(d, i, Request(line, map[], ""))
            else RequestWithHeaders(d, i, Request(line, map[], ""))
  {
  }

  /** A request without headers ends in EAGAIN or in an unexpected body. */
  lemma RequestNeedsHeaders(d: string, i: nat, line: RequestLine)
    requires At(d, i, CRLF)
    ensures RequestNoHeaders(d, i, Request(line, map[], "")).result != Ok
  {
    AtTwo(d, i, CR, LF);
  }

  lemma RequestAfterHeaders(d: string, i: nat, q: nat, line: RequestLine, h: Headers)
    requires i < |d| && q < |d| && !IsSP(d[i]) && HeaderLines(d, i, map[]) == Parsed(Ok, q, h)
    ensures RequestWithHeaders(d, i, Request(line, map[], "")) == RequestTail(d, q, Request(line, h, ""))
  {
    assert EatSpace(d, i).pos == i;
  }

  /** A sent request up to its body: the parser stands at the LF of the empty line, with the line and what is kept of
      the headers. */
  lemma RequestHeadReads(d: string, r: Request, order: seq<string>, q: nat)
    requires RequestLineOk(r.line) && r.headers != map[] && Printable(r.headers) && Enumerates(order, r.headers)
    requires HeadAt(d, RequestLineText(r.line), HeaderText(order, r.headers), q)
    ensures q < |d|
    ensures ParseRequest(d, 0, FRESH_REQUEST) == RequestTail(d, q, Request(r.line, Keeps(r.headers), ""))
  {
    var i := |RequestLineText(r.line)|;
    HeadersRead(d, i, order, r.headers, q - 1);
    assert ParseRequestLine(d, 0, FRESH_REQUEST.line) == Parsed(Ok, i, r.line) by {
      RequestLineReads(d, 0, r.line, FRESH_REQUEST.line);
    }
    RequestAfterLine(d, i, r.line);
    RequestAfterHeaders(d, i, q, r.line, Keeps(r.headers));
  }

  lemma RequestTailReads(d: string, i: nat, r: Request)
    requires i < |d| && r.body == ""
    ensures var p := RequestTail(d, i, r);
      && p.value.line == r.line && p.value.headers == r.headers
      && ((p.result == Ok && p.value.body == d[i + 1..]) <==>
          i + 1 == |d| || ContentLength(r.headers) == Given(|d| - i - 1))
      && (i + 1 == |d| ==> p.value.body == "")
  {
    if i + 1 < |d| { RequestBodyReads(d, i + 1, r.headers); }
  }

  function Sent(r: Request): string { if AllowsBody(r.line.verb) then r.body else "" }

  lemma RequestStands(d: string, r: Request, order: seq<string>)
    requires Enumerates(order, r.headers) && d == RequestText(r, order)
    ensures |d| > |Sent(r)| && d[|d| - |Sent(r)|..] == Sent(r)
    ensures HeadAt(d, RequestLineText(r.line), HeaderText(order, r.headers), |d| - |Sent(r)| - 1)
  {
    var line, headers := RequestLineText(r.line), HeaderText(order, r.headers);
    assert d == line + headers + CRLF + Sent(r);
    HeadStands(d, line, headers, Sent(r));
  }

  predicate RequestSurvives(r: Request) {
    r.body == "" || (AllowsBody(r.line.verb) && ContentLength(r.headers) == Given(|r.body|))
  }

  /** What comes back is decided by the headers and the body. */
  lemma RequestDecides(d: string, r: Request, q: nat, p: Parsed<Request>)
    requires q + 1 + |Sent(r)| == |d| && d[q + 1..] == Sent(r)
    requires p == RequestTail(d, q, Request(r.line, Keeps(r.headers), ""))
    ensures (p.result == Ok && p.value == r) <==> Keeps(r.headers) == r.headers && RequestSurvives(r)
  {
    RequestTailReads(d, q, Request(r.line, Keeps(r.headers), ""));
  }

  /** Without headers nothing comes back. */
  lemma RequestNotBare(d: string, r: Request, q: nat, p: Parsed<Request>)
    requires RequestLineOk(r.line) && HeadAt(d, RequestLineText(r.line), "", q)
    requires p == ParseRequest(d, 0, FRESH_REQUEST)
    ensures !(p.result == Ok && p.value == r)
  {
    var i := |RequestLineText(r.line)|;
    RequestLineReads(d, 0, r.line, FRESH_REQUEST.line);
    AtTwo(d, i, CR, LF);
    RequestAfterLine(d, i, r.line);
    RequestNeedsHeaders(d, i, r.line);
  }

  /** A request that comes back has a line that can be parsed, and headers as they can be parsed. */
  lemma RequestBack(d: string, r: Request, order: seq<string>, q: nat, p: Parsed<Request>)
    requires Enumerates(order, r.headers) && q < |d|
    requires HeadAt(d, RequestLineText(r.line), HeaderText(order, r.headers), q)
    requires p == ParseRequest(d, 0, FRESH_REQUEST) && p.result == Ok && p.value == r
    ensures RequestLineOk(r.line) && r.headers != map[] && Printable(r.headers)
  {
    RequestDelivers(d, p);
    RequestLineDelivers(d, 0, FRESH_REQUEST.line);
    if r.line.uri == "" { EmptyUriFails(d, r.line, FRESH_REQUEST.line); }
    if r.headers == map[] {
      assert order == [];
      RequestNotBare(d, r, q, p);
    }
  }

  /** Parsing exactly what HTTPRequest::send writes, into a fresh request, gives the request back if and only if its
      line and headers can be parsed back and its body is empty, or its method allows one and content-length is its
      size. */
  lemma RequestRoundTrip(r: Request, order: seq<string>)
    requires Enumerates(order, r.headers)
    ensures var p := ParseRequest(RequestText(r, order), 0, FRESH_REQUEST);
      (p.result == Ok && p.value == r) <==> RequestOk(r) && RequestSurvives(r)
  {
    var d := RequestText(r, order);
    RequestReturns(d, r, order, ParseRequest(d, 0, FRESH_REQUEST));
  }

  /** The line and the headers are read as such. */
  predicate RequestFits(r: Request) { RequestLineOk(r.line) && r.headers != map[] && Printable(r.headers) }

  lemma RequestCombines(d: string, r: Request, q: nat, p: Parsed<Request>)
    requires q + 1 + |Sent(r)| == |d| && d[q + 1..] == Sent(r)
    requires RequestFits(r) ==> p == RequestTail(d, q, Request(r.line, Keeps(r.headers), ""))
    requires p.result == Ok && p.value == r ==> RequestFits(r)
    ensures (p.result == Ok && p.value == r) <==> RequestOk(r) && RequestSurvives(r)
  {
    KeepsFixed(r.headers);
    if RequestFits(r) { RequestDecides(d, r, q, p); }
  }

  lemma RequestReturns(d: string, r: Request, order: seq<string>, p: Parsed<Request>)
    requires Enumerates(order, r.headers) && d == RequestText(r, order) && d != ""
    requires p == ParseRequest(d, 0, FRESH_REQUEST)
    ensures (p.result == Ok && p.value == r) <==> RequestOk(r) && RequestSurvives(r)
  {
    var q := |d| - |Sent(r)| - 1;
    RequestStands(d, r, order);
    RequestHead(d, r, order, q, p);
    RequestCombines(d, r, q, p);
  }

  lemma RequestHead(d: string, r: Request, order: seq<string>, q: nat, p: Parsed<Request>)
    requires Enumerates(order, r.headers) && q + 1 + |Sent(r)| == |d|
    requires HeadAt(d, RequestLineText(r.line), HeaderText(order, r.headers), q)
    requires p == ParseRequest(d, 0, FRESH_REQUEST)
    ensures RequestFits(r) ==> p == RequestTail(d, q, Request(r.line, Keeps(r.headers), ""))
    ensures p.result == Ok && p.value == r ==> RequestFits(r)
  {
    if RequestFits(r) {
      RequestHeadReads(d, r, order, q);
    } else if p.result == Ok && p.value == r {
      RequestBack(d, r, order, q, p);
    }
  }

  /** A value with two spaces in a row does not come back. */
  lemma DoubleSpaceIsLost()
    ensures var r := Request(RequestLine(GET, "/", Version(1, 1)), map["k" := "a  b"], "");
      var p := ParseRequest(RequestText(r, ["k"]), 0, FRESH_REQUEST);
      !(p.result == Ok && p.value == r)
  {
    var r := Request(RequestLine(GET, "/", Version(1, 1)), map["k" := "a  b"], "");
    assert r.headers["k"][1] == ' ' && r.headers["k"][2] == ' ';
    RequestRoundTrip(r, ["k"]);
  }

  // --- Responses

  predicate ResponseOk(r: Response) { ResponseLineOk(r.line) && r.headers != map[] && HeadersOk(r.headers) }

  /** A parsed response has the line that was parsed and headers as they can be parsed. */
  lemma ResponseDelivers(d: string, p: Parsed<Response>)
    requires d != "" && p == ParseResponse(d, 0, FRESH_RESPONSE)
    ensures var line := ParseResponseLine(d, 0, FRESH_RESPONSE.line);
      p.value.line == line.value && (p.result == Ok ==> line.result == Ok)
    ensures Printable(p.value.headers) && NoTabs(p.value.headers)
  {
    var line := ParseResponseLine(d, 0, FRESH_RESPONSE.line);
    HeaderLinesClean(d, EatSpace(d, line.pos).pos, map[]);
  }

  /** The rest of the parse, after its line. */
  lemma ResponseAfterLine(d: string, i: nat, line: ResponseLine)
    requires i < |d| && ParseResponseLine(d, 0, FRESH_RESPONSE.line) == Parsed(Ok, i, line)
    ensures ParseResponse(d, 0, FRESH_RESPONSE) ==
            if d[i] == CR then ResponseNoHeaders(d, i, Response(line, map[], ""))
            else ResponseWithHeaders(d, i, Response(line, map[], ""))
  {
  }

  /** A response without headers ends in EAGAIN, or its body is not read. */
  lemma ResponseNeedsHeaders(d: string, i: nat, line: ResponseLine)
    requires At(d, i, CRLF)
    ensures var p := ResponseNoHeaders(d, i, Response(line, map[], ""));
      if i + 2 == |d| then p.result == Again else p.value.body == ""
  {
    AtTwo(d, i, CR, LF);
  }

  lemma ResponseAfterHeaders(d: string, i: nat, q: nat, line: ResponseLine, h: Headers)
    requires i < |d| && q < |d| && !IsSP(d[i]) && HeaderLines(d, i, map[]) == Parsed(Ok, q, h)
    ensures ResponseWithHeaders(d, i, Response(line, map[], "")) == ResponseTail(d, q, Response(line, h, ""))
  {
    assert EatSpace(d, i).pos == i;
  }

  /** A sent response up to its body: the parser stands at the LF of the empty line, with the line and what is kept of
      the headers. */
  lemma ResponseHeadReads(d: string, r: Response, reason: string, order: seq<string>, q: nat)
    requires CR !in reason && ResponseLineOk(r.line) && r.headers != map[]
    requires Printable(r.headers) && Enumerates(order, r.headers)
    requires HeadAt(d, ResponseLineText(r.line, reason), HeaderText(order, r.headers), q)
    ensures q < |d|
    ensures ParseResponse(d, 0, FRESH_RESPONSE) == ResponseTail(d, q, Response(r.line, Keeps(r.headers), ""))
  {
    var i := |ResponseLineText(r.line, reason)|;
    HeadersRead(d, i, order, r.headers, q - 1);
    assert ParseResponseLine(d, 0, FRESH_RESPONSE.line) == Parsed(Ok, i, r.line) by {
      ResponseLineReads(d, 0, r.line, reason, FRESH_RESPONSE.line);
    }
    ResponseAfterLine(d, i, r.line);
    ResponseAfterHeaders(d, i, q, r.line, Keeps(r.headers));
  }

  lemma ResponseTailReads(d: string, i: nat, r: Response)
    requires i < |d| && r.body == ""
    ensures var p := ResponseTail(d, i, r);
      && p.value.line == r.line && p.value.headers == r.headers
      && ((p.result == Ok && p.value.body == d[i + 1..]) <==>
          if i + 1 == |d| then ContentLength(r.headers) != Throwing
          else ContentLength(r.headers) == Given(|d| - i - 1) || ReadToEnd(r.headers))
  {
    if i + 1 < |d| { ResponseBodyReads(d, i + 1, r.headers); }
  }

  lemma ResponseStands(d: string, r: Response, reason: string, order: seq<string>)
    requires Enumerates(order, r.headers) && d == ResponseText(r, reason, order)
    ensures |d| > |r.body| && d[|d| - |r.body|..] == r.body
    ensures HeadAt(d, ResponseLineText(r.line, reason), HeaderText(order, r.headers), |d| - |r.body| - 1)
  {
    var line, headers := ResponseLineText(r.line, reason), HeaderText(order, r.headers);
    assert d == line + headers + CRLF + r.body;
    HeadStands(d, line, headers, r.body);
  }

  /** With a body, content-length is its size or it is read to the end of the stream; without one, only an unreadable
      content-length is in the way. */
  predicate ResponseSurvives(r: Response) {
    if r.body == "" then ContentLength(r.headers) != Throwing
    else ContentLength(r.headers) == Given(|r.body|) || ReadToEnd(r.headers)
  }

  /** What comes back is decided by the headers and the body. */
  lemma ResponseDecides(d: string, r: Response, q: nat, p: Parsed<Response>)
    requires q + 1 + |r.body| == |d| && d[q + 1..] == r.body
    requires p == ResponseTail(d, q, Response(r.line, Keeps(r.headers), ""))
    ensures (p.result == Ok && p.value == r) <==> Keeps(r.headers) == r.headers && ResponseSurvives(r)
  {
    ResponseTailReads(d, q, Response(r.line, Keeps(r.headers), ""));
  }

  /** Without headers nothing comes back. */
  lemma ResponseNotBare(d: string, r: Response, reason: string, q: nat, p: Parsed<Response>)
    requires CR !in reason && ResponseLineOk(r.line) && HeadAt(d, ResponseLineText(r.line, reason), "", q)
    requires p == ParseResponse(d, 0, FRESH_RESPONSE)
    requires q + 1 + |r.body| == |d|
    ensures !(p.result == Ok && p.value == r)
  {
    var i := |ResponseLineText(r.line, reason)|;
    ResponseLineReads(d, 0, r.line, reason, FRESH_RESPONSE.line);
    AtTwo(d, i, CR, LF);
    ResponseAfterLine(d, i, r.line);
    ResponseNeedsHeaders(d, i, r.line);
  }

  /** A response that comes back has a line that can be parsed, and headers as they can be parsed. */
  lemma ResponseBack(d: string, r: Response, reason: string, order: seq<string>, q: nat, p: Parsed<Response>)
    requires CR !in reason && Enumerates(order, r.headers) && q < |d|
    requires HeadAt(d, ResponseLineText(r.line, reason), HeaderText(order, r.headers), q)
    requires q + 1 + |r.body| == |d|
    requires p == ParseResponse(d, 0, FRESH_RESPONSE) && p.result == Ok && p.value == r
    ensures ResponseLineOk(r.line) && r.headers != map[] && Printable(r.headers)
  {
    ResponseDelivers(d, p);
    ResponseLineDelivers(d, 0, FRESH_RESPONSE.line);
    if r.headers == map[] {
      assert order == [];
      ResponseNotBare(d, r, reason, q, p);
    }
  }

  /** Parsing exactly what HTTPResponse::send writes, into a fresh response, gives the response back if and only if its
      line and headers can be parsed back and its body survives. */
  lemma ResponseRoundTrip(r: Response, reason: string, order: seq<string>)
    requires CR !in reason && Enumerates(order, r.headers)
    ensures var p := ParseResponse(ResponseText(r, reason, order), 0, FRESH_RESPONSE);
      (p.result == Ok && p.value == r) <==> ResponseOk(r) && ResponseSurvives(r)
  {
    var d := ResponseText(r, reason, order);
    ResponseReturns(d, r, reason, order, ParseResponse(d, 0, FRESH_RESPONSE));
  }

  /** The line and the headers are read as such. */
  predicate ResponseFits(r: Response) { ResponseLineOk(r.line) && r.headers != map[] && Printable(r.headers) }

  lemma ResponseCombines(d: string, r: Response, q: nat, p: Parsed<Response>)
    requires q + 1 + |r.body| == |d| && d[q + 1..] == r.body
    requires ResponseFits(r) ==> p == ResponseTail(d, q, Response(r.line, Keeps(r.headers), ""))
    requires p.result == Ok && p.value == r ==> ResponseFits(r)
    ensures (p.result == Ok && p.value == r) <==> ResponseOk(r) && ResponseSurvives(r)
  {
    KeepsFixed(r.headers);
    if ResponseFits(r) { ResponseDecides(d, r, q, p); }
  }

  lemma ResponseReturns(d: string, r: Response, reason: string, order: seq<string>, p: Parsed<Response>)
    requires CR !in reason && Enumerates(order, r.headers) && d == ResponseText(r, reason, order) && d != ""
    requires p == ParseResponse(d, 0, FRESH_RESPONSE)
    ensures (p.result == Ok && p.value == r) <==> ResponseOk(r) && ResponseSurvives(r)
  {
    var q := |d| - |r.body| - 1;
    ResponseStands(d, r, reason, order);
    ResponseHead(d, r, reason, order, q, p);
    ResponseCombines(d, r, q, p);
  }

  lemma ResponseHead(d: string, r: Response, reason: string, order: seq<string>, q: nat, p: Parsed<Response>)
    requires CR !in reason && Enumerates(order, r.headers) && q + 1 + |r.body| == |d|
    requires HeadAt(d, ResponseLineText(r.line, reason), HeaderText(order, r.headers), q)
    requires p == ParseResponse(d, 0, FRESH_RESPONSE)
    ensures ResponseFits(r) ==> p == ResponseTail(d, q, Response(r.line, Keeps(r.headers), ""))
    ensures p.result == Ok && p.value == r ==> ResponseFits(r)
  {
    if ResponseFits(r) {
      ResponseHeadReads(d, r, reason, order, q);
    } else if p.result == Ok && p.value == r {
      ResponseBack(d, r, reason, order, q, p);
    }
  }

  // --- setBody

  /** setBody on a request's headers and body. */
  function WithBody(r: Request, body: string): Request {
    r.(headers := r.headers["content-length" := Decimal(|body|)], body := body)
  }

  /** After setBody the body is never in the way, in a method that allows one or when it is empty. */
  lemma SetBodyRoundTrip(r: Request, body: string, order: seq<string>)
    requires |body| <= ULONG_MAX && Enumerates(order, WithBody(r, body).headers)
    ensures var sent := WithBody(r, body); var p := ParseRequest(RequestText(sent, order), 0, FRESH_REQUEST);
      (p.result == Ok && p.value == sent) <==> RequestOk(sent) && (AllowsBody(r.line.verb) || body == "")
  {
    ReadDecimal(|body|);
    RequestRoundTrip(WithBody(r, body), order);
  }
}
