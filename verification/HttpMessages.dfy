/** HTTP versions, request lines, response lines and whole messages: what is printed and how it is parsed. */
module HttpMessages {
  import opened Ctype
  import opened HttpChunks
  import opened HttpHeaders
  import opened HttpScanning
  import opened Numbers

  // --- Version

  datatype Version = Version(major: nat, minor: nat)

  const HTTP: string := "HTTP/"

  /** ssStart; ssHttp to ssSlash, by the number of letters read; ssMajor; ssDot; ssMinor. */
  datatype VersionState = Blank | Letter(k: nat) | Major | Dot | Minor {
    predicate Valid() { Letter? ==> k < |HTTP| }

    function Rank(): nat {
      match this
      case Blank => 4
      case Letter(_) => 3
      case Major => 2
      case Dot => 1
      case Minor => 0
    }
  }

  function VersionText(v: Version): string { HTTP + Decimal(v.major) + "." + Decimal(v.minor) }

  /** HTTPVersion::parse from a state of its automaton, with the digits read so far. */
  function VersionFrom(d: string, i: nat, state: VersionState, major: string, minor: string, was: Version)
    : (r: Parsed<Version>)
    requires i < |d| && state.Valid() && AllDigits(major) && AllDigits(minor)
    ensures i <= r.pos < |d| && (r.result != Ok ==> r.value == was)
    decreases |d| - i, state.Rank()
  {
    match state
    case Blank =>
      if !IsSpace(d[i]) then VersionFrom(d, i, Letter(0), major, minor, was)
      else if i + 1 == |d| then Parsed(Again, i, was)
      else VersionFrom(d, i + 1, Blank, major, minor, was)
    case Letter(k) =>
      if d[i] != HTTP[k] then Parsed(Bad(InvalidHTTPVersion), i, was)
      else if i + 1 == |d| then Parsed(Again, i, was)
      else VersionFrom(d, i + 1, if k + 1 < |HTTP| then Letter(k + 1) else Major, major, minor, was)
    case Major =>
      if !IsDigit(d[i]) then VersionFrom(d, i, Dot, major, minor, was)
      else if i + 1 == |d| then Parsed(Again, i, was)
      else VersionFrom(d, i + 1, Major, major + [d[i]], minor, was)
    case Dot =>
      if d[i] != '.' then Parsed(Bad(InvalidHTTPVersion), i, was)
      else if i + 1 == |d| then Parsed(Again, i, was)
      else VersionFrom(d, i + 1, Minor, major, minor, was)
    case Minor =>
      if !IsDigit(d[i]) then
        Parsed(Ok, i, Version(Extract(10, major, UINT_MAX, was.major), Extract(10, minor, UINT_MAX, was.minor)))
      else if i + 1 == |d| then Parsed(Again, i, was)
      else VersionFrom(d, i + 1, Minor, major, minor + [d[i]], was)
  }

  function ParseVersion(d: string, i: nat, was: Version): (r: Parsed<Version>)
    requires i < |d|
    ensures i <= r.pos < |d| && (r.result != Ok ==> r.value == was)
  {
    VersionFrom(d, i, Blank, "", "", was)
  }

  // --- Request

  datatype Method = GET | HEAD | POST | PUT | PATCH | DELETE | CONNECT | OPTIONS | TRACE | INVALID

  function MethodText(m: Method): string {
    match m
    case GET => "GET"
    case HEAD => "HEAD"
    case POST => "POST"
    case PUT => "PUT"
    case PATCH => "PATCH"
    case DELETE => "DELETE"
    case CONNECT => "CONNECT"
    case OPTIONS => "OPTIONS"
    case TRACE => "TRACE"
    case INVALID => "INVALID_METHOD"
  }

  function MethodOf(s: string): Method {
    if s == "GET" then GET
    else if s == "HEAD" then HEAD
    else if s == "POST" then POST
    else if s == "PUT" then PUT
    else if s == "PATCH" then PATCH
    else if s == "DELETE" then DELETE
    else if s == "CONNECT" then CONNECT
    else if s == "OPTIONS" then OPTIONS
    else if s == "TRACE" then TRACE
    else INVALID
  }

  predicate AllowsBody(m: Method) { m == POST || m == PUT || m == PATCH || m == OPTIONS }

  datatype RequestLine = RequestLine(verb: Method, uri: string, version: Version)

  datatype Request = Request(line: RequestLine, headers: Headers, body: string)

  function RequestLineText(l: RequestLine): string {
    MethodText(l.verb) + " " + l.uri + " " + VersionText(l.version) + CRLF
  }

  /** What HTTPRequest::send writes, for an iteration order of the headers. */
  function RequestText(r: Request, order: seq<string>): string
    requires forall k :: k in order ==> k in r.headers
  {
    RequestLineText(r.line) + HeaderText(order, r.headers) + CRLF +
    (if AllowsBody(r.line.verb) then r.body else "")
  }

  /** HTTPRequestLine::parse from psRequestURIEnd on. */
  function RequestLineEnd(d: string, i: nat, verb: string, l: RequestLine): (r: Parsed<RequestLine>)
    requires i < |d|
    ensures i <= r.pos < |d|
  {
    var version := ParseVersion(d, i, l.version);
    var l' := l.(version := version.value);
    if version.result != Ok then Parsed(version.result, version.pos, l')
    else
      var space := EatSpace(d, version.pos);
      if space.result != Ok then Parsed(Bad(InvalidRequestLine), space.pos, l')
      else
        var line := Newline(d, space.pos);
        if line.result != Ok then Parsed(line.result, line.pos, l')
        else Parsed(if MethodOf(verb) == INVALID then Bad(InvalidMethod) else Ok, line.pos, l'.(verb := MethodOf(verb)))
  }

  /** HTTPRequestLine::parse */
  function ParseRequestLine(d: string, i: nat, was: RequestLine): (r: Parsed<RequestLine>)
    requires i < |d|
    ensures i <= r.pos < |d|
  {
    var verb := Word(d, i, "");
    if verb.result != Ok then Parsed(verb.result, verb.pos, was.(uri := ""))
    else
      var space := EatSpace(d, verb.pos);
      if space.result != Ok then Parsed(space.result, space.pos, was.(uri := ""))
      else
        var uri := Word(d, space.pos, "");
        if uri.result != Ok then Parsed(uri.result, uri.pos, was.(uri := uri.value))
        else RequestLineEnd(d, uri.pos, verb.value, was.(uri := uri.value))
  }

  /** getHeaderValue of a number: no such header or more than a number, an exception, or the number. */
  datatype Length = Missing | Throwing | Given(n: nat)

  function ContentLength(h: Headers): Length {
    if "content-length" !in h then Missing
    else
      match ReadUnsigned(h["content-length"])
      case Throws => Throwing
      case Number(n, pos) => if pos == |h["content-length"]| then Given(n) else Missing
  }

  /** HTTPRequest::parseBody */
  function RequestBody(d: string, i: nat, h: Headers, body: string): (r: Parsed<string>)
    requires i < |d|
    ensures i <= r.pos < |d|
  {
    match ContentLength(h)
    case Throwing => Parsed(Thrown, i, body)
    case Given(n) => TakeLast(d, i, n, body)
    case Missing =>
      if "transfer-encoding" !in h then Parsed(Bad(UnexpectedBody), i, body)
      else if h["transfer-encoding"] == "chunked" then Chunks(d, i, body)
      else Parsed(Bad(InvalidTransferEncoding), i, body)
  }

  /** HTTPRequest::parse from the LF of the empty line on. */
  function RequestTail(d: string, i: nat, r: Request): (p: Parsed<Request>)
    requires i < |d|
    ensures i <= p.pos < |d|
  {
    if i + 1 == |d| then Parsed(Ok, i, r)
    else
      var body := RequestBody(d, i + 1, r.headers, r.body);
      Parsed(body.result, body.pos, r.(body := body.value))
  }

  /** HTTPRequest::parse after a line that the empty line follows at once, from its CR on. */
  function RequestNoHeaders(d: string, i: nat, r: Request): (p: Parsed<Request>)
    requires i < |d|
    ensures i <= p.pos < |d|
  {
    if i + 1 == |d| then Parsed(Ok, i, r)
    else if d[i + 1] != LF then Parsed(Ok, i + 1, r)
    else if i + 2 == |d| then Parsed(Again, i + 1, r)
    else
      var body := RequestBody(d, i + 2, r.headers, r.body);
      Parsed(body.result, body.pos, r.(body := body.value))
  }

  /** HTTPRequest::parse after a line that headers follow. */
  function RequestWithHeaders(d: string, i: nat, r: Request): (p: Parsed<Request>)
    requires i < |d|
    ensures i <= p.pos < |d|
  {
    var headers := HeaderLines(d, EatSpace(d, i).pos, r.headers);
    var r' := r.(headers := headers.value);
    if headers.result != Ok then Parsed(headers.result, headers.pos, r') else RequestTail(d, headers.pos, r')
  }

  /** HTTPRequest::parse into an existing request. */
  function ParseRequest(d: string, i: nat, was: Request): (r: Parsed<Request>)
    requires i < |d|
    ensures i <= r.pos < |d|
  {
    var line := ParseRequestLine(d, i, was.line);
    var r := was.(line := line.value);
    if line.result != Ok then Parsed(line.result, line.pos, r)
    else if d[line.pos] == CR then RequestNoHeaders(d, line.pos, r)
    else RequestWithHeaders(d, line.pos, r)
  }

  const FRESH_REQUEST: Request := Request(RequestLine(GET, "\"*\"", Version(1, 0)), map[], "")

  // --- Response

  datatype ResponseLine = ResponseLine(version: Version, code: nat)

  datatype Response = Response(line: ResponseLine, headers: Headers, body: string)

  /** The reason phrase, HTTPCodeAsString of the code, is a parameter. */
  function ResponseLineText(l: ResponseLine, reason: string): string {
    VersionText(l.version) + " " + Decimal(l.code) + " " + reason + CRLF
  }

  /** What HTTPResponse::send writes, for an iteration order of the headers. */
  function ResponseText(r: Response, reason: string, order: seq<string>): string
    requires forall k :: k in order ==> k in r.headers
  {
    ResponseLineText(r.line, reason) + HeaderText(order, r.headers) + CRLF + r.body
  }

  /** HTTPResponseLine::parse after the code. */
  function ResponseLineEnd(d: string, i: nat, l: ResponseLine): (r: Parsed<ResponseLine>)
    requires i < |d|
    ensures i <= r.pos < |d|
  {
    var reason := SkipToCR(d, i);
    if reason.result != Ok then Parsed(reason.result, reason.pos, l)
    else
      var line := Newline(d, reason.pos);
      Parsed(line.result, line.pos, l)
  }

  /** HTTPResponseLine::parse */
  function ParseResponseLine(d: string, i: nat, was: ResponseLine): (r: Parsed<ResponseLine>)
    requires i < |d|
    ensures i <= r.pos < |d|
  {
    var version := ParseVersion(d, i, was.version);
    var l := was.(version := version.value);
    if version.result != Ok then Parsed(version.result, version.pos, l)
    else
      var space := EatSpace(d, version.pos);
      if space.result != Ok then Parsed(space.result, space.pos, l)
      else
        var code := UInt(d, space.pos);
        if code.result != Ok then Parsed(code.result, code.pos, l)
        else ResponseLineEnd(d, code.pos, l.(code := code.value))
  }

  /** HTTPResponse::hasBody when reading the length does not throw. */
  predicate HasBody(h: Headers) {
    || (ContentLength(h).Given? && ContentLength(h).n > 0)
    || ("transfer-encoding" in h && h["transfer-encoding"] == "chunked")
    || ("connection" in h && h["connection"] == "close")
  }

  /** HTTPResponse::parseBody */
  function ResponseBody(d: string, i: nat, h: Headers, body: string): (r: Parsed<string>)
    requires i < |d|
    ensures i <= r.pos < |d|
  {
    match ContentLength(h)
    case Throwing => Parsed(Thrown, i, body)
    case Given(n) => TakeLast(d, i, n, body)
    case Missing =>
      if "transfer-encoding" in h then
        if h["transfer-encoding"] == "chunked" then Chunks(d, i, body)
        else Parsed(Bad(InvalidTransferEncoding), i, body)
      else if "connection" in h then
        if h["connection"] == "close" then Parsed(Ok, |d| - 1, body + d[i..])
        else Parsed(Bad(UnexpectedBody), i, body)
      else Parsed(Ok, i, body)
  }

  /** HTTPResponse::parse from the LF of the empty line on. */
  function ResponseTail(d: string, i: nat, r: Response): (p: Parsed<Response>)
    requires i < |d|
    ensures i <= p.pos < |d|
  {
    if ContentLength(r.headers).Throwing? then Parsed(Thrown, i, r)
    else if !HasBody(r.headers) || i + 1 == |d| then Parsed(Ok, i, r)
    else
      var body := ResponseBody(d, i + 1, r.headers, r.body);
      Parsed(body.result, body.pos, r.(body := body.value))
  }

  /** HTTPResponse::parse after a line that the empty line follows at once, from its CR on. */
  function ResponseNoHeaders(d: string, i: nat, r: Response): (p: Parsed<Response>)
    requires i < |d|
    ensures i <= p.pos < |d|
  {
    if i + 1 == |d| then Parsed(Ok, i, r)
    else if d[i + 1] != LF then Parsed(Ok, i + 1, r)
    else if i + 2 == |d| then Parsed(Again, i + 1, r)
    else
      var body := ResponseBody(d, i + 2, r.headers, r.body);
      Parsed(body.result, body.pos, r.(body := body.value))
  }

  /** HTTPResponse::parse after a line that headers follow. */
  function ResponseWithHeaders(d: string, i: nat, r: Response): (p: Parsed<Response>)
    requires i < |d|
    ensures i <= p.pos < |d|
  {
    var headers := HeaderLines(d, EatSpace(d, i).pos, r.headers);
    var r' := r.(headers := headers.value);
    if headers.result != Ok then Parsed(headers.result, headers.pos, r') else ResponseTail(d, headers.pos, r')
  }

  /** HTTPResponse::parse into an existing response. */
  function ParseResponse(d: string, i: nat, was: Response): (r: Parsed<Response>)
    requires i < |d|
    ensures i <= r.pos < |d|
  {
    var line := ParseResponseLine(d, i, was.line);
    var r := was.(line := line.value);
    if line.result != Ok then Parsed(line.result, line.pos, r)
    else if d[line.pos] == CR then ResponseNoHeaders(d, line.pos, r)
    else ResponseWithHeaders(d, line.pos, r)
  }

  const FRESH_RESPONSE: Response := Response(ResponseLine(Version(1, 0), 200), map[], "")
}
