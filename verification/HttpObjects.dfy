/** HTTPMessage, HTTPRequest and HTTPResponse as objects that parse a stream into themselves. */
module HttpObjects {
  import opened ByteBuffers
  import opened Ctype
  import opened HttpChunks
  import opened HttpHeaders
  import opened HttpMessages
  import opened HttpParsers
  import opened HttpRoundTrip
  import opened HttpScanning
  import opened Numbers
  import opened ReadBuffers

  /** The headers and the body, common to requests and responses. */
  class HTTPMessage {
    var headers: Headers
    const body: Bytes

    ghost predicate Valid()
      reads this, body
    {
      body.Valid()
    }

    ghost function Body(): string
      requires Valid()
      reads this, body, body.data
    {
      body.Contents()
    }

    constructor ()
      ensures Valid() && headers == map[] && Body() == "" && fresh(body) && body.data == null
    {
      headers := map[];
      body := new Bytes();
    }

    /** The array of the body, when it is another than before, is a new one. */
    twostate predicate Grown()
      reads this, body
    {
      body.data == old(body.data) || (body.data != null && fresh(body.data))
    }

    method AddHeader(key: string, value: string)
      modifies this
      ensures headers == HttpHeaders.AddHeader(old(headers), key, value)
    {
      if key !in headers {
        headers := headers[key := value];
      } else {
        headers := headers[key := headers[key] + "," + value];
      }
    }

    /** setBody */
    method SetBody(text: string)
      requires Valid()
      modifies this, body, body.data
      ensures Valid() && Grown() && Body() == text
      ensures headers == old(headers)["content-length" := Decimal(|text|)]
    {
      body.Reserve(|text|);
      var i := 0;
      while i < |text|
        invariant 0 <= i <= |text| == body.size && Valid() && Grown() && headers == old(headers)
        invariant i > 0 ==> body.data != null
        invariant Body()[..i] == text[..i]
      {
        body.data[i] := text[i];
        i := i + 1;
      }
      headers := headers["content-length" := Decimal(body.size)];
    }

    method ParseHeaders(data: StringReadBuffer) returns (result: Result)
      requires Valid() && data.Valid()
      modifies this, data
      ensures Valid() && data.Valid()
      ensures Parsed(result, data.Pos(), headers) ==
              HeaderLines(data.stream, EatSpace(data.stream, old(data.Pos())).pos, old(headers))
    {
      result := ReadSpace(data);
      ghost var i := data.Pos();
      var more := true;
      while more
        invariant Valid() && data.Valid()
        invariant HeaderLines(data.stream, i, old(headers)) ==
                  if more then HeaderLines(data.stream, data.Pos(), headers)
                  else HeaderListEnd(data.stream, data.Pos(), headers)
        decreases more, |data.stream| - data.Pos()
      {
        result := ParseField(data);
        if result != Ok {
          return;
        }
        more := data.Get() != CR;
      }
      var ok := data.Next();
      if !ok {
        return Again;
      }
      result := if data.Get() != LF then Bad(InvalidHeaderListEnd) else Ok;
    }

    /** The body of the loop of parseHeaders. */
    method ParseField(data: StringReadBuffer) returns (result: Result)
      requires data.Valid()
      modifies this, data
      ensures data.Valid()
      ensures Parsed(result, data.Pos(), headers) == HeaderField(data.stream, old(data.Pos()), old(headers))
    {
      var key, value;
      result, key := ReadToken(data);
      if result != Ok {
        return;
      }
      key := Lower(key);
      result := ReadSpace(data);
      if result != Ok {
        return;
      }
      if data.Get() != ':' {
        return Bad(ExpectingHeaderColon);
      }
      result := ReadSpace(data);
      if result != Ok {
        return;
      }
      var ok := data.Next();
      if !ok {
        return Again;
      }
      result, value := ReadFieldValue(data);
      if result == Ok || result == Again {
        AddHeader(key, value);
        result := ReadSpace(data);
      }
    }

    /** The loop of send over the headers. */
    method PrintHeaders(order: seq<string>) returns (text: string)
      requires Enumerates(order, headers)
      ensures text == HeaderText(order, headers)
    {
      text := "";
      var i := 0;
      while i < |order|
        invariant 0 <= i <= |order| && text + HeaderText(order[i..], headers) == HeaderText(order, headers)
      {
        HeaderTextStep(text, order[i..], headers);
        assert order[i..][1..] == order[i + 1..];
        text := text + order[i] + ": " + headers[order[i]] + CRLF;
        i := i + 1;
      }
    }

    /** getHeaderValue of a number. */
    method GetLength() returns (length: Length)
      ensures length == ContentLength(headers)
    {
      if "content-length" in headers {
        var text := headers["content-length"];
        match ReadUnsigned(text) {
          case Throws =>
            return Throwing;
          case Number(n, pos) =>
            return if pos == |text| then Given(n) else Missing;
        }
      }
      return Missing;
    }

    /** The loop of parseBody for a known length. */
    method ParseLength(data: StringReadBuffer, n: nat) returns (result: Result)
      requires Valid() && data.Valid()
      modifies body, body.data, data
      ensures Valid() && data.Valid() && Grown()
      ensures Parsed(result, data.Pos(), Body()) == TakeLast(data.stream, old(data.Pos()), n, old(Body()))
    {
      var i := 0;
      while i < n
        invariant 0 <= i <= n && Valid() && data.Valid() && Grown()
        invariant TakeLast(data.stream, old(data.Pos()), n, old(Body())) ==
                  if i < n then TakeLast(data.stream, data.Pos(), n - i, Body()) else Parsed(Ok, data.Pos(), Body())
      {
        body.AppendOctet(data.Get());
        if i < n - 1 {
          var ok := data.Next();
          if !ok {
            return Again;
          }
        }
        i := i + 1;
      }
      result := Ok;
    }

    /** The loop that appends the octets of one chunk. */
    method ParseOctets(data: StringReadBuffer, n: nat) returns (result: Result)
      requires Valid() && data.Valid()
      modifies body, body.data, data
      ensures Valid() && data.Valid() && Grown()
      ensures Parsed(result, data.Pos(), Body()) == Take(data.stream, old(data.Pos()), n, old(Body()))
    {
      var i := 0;
      while i < n
        invariant 0 <= i <= n && Valid() && data.Valid() && Grown()
        invariant Take(data.stream, old(data.Pos()), n, old(Body())) == Take(data.stream, data.Pos(), n - i, Body())
      {
        body.AppendOctet(data.Get());
        var ok := data.Next();
        if !ok {
          return Again;
        }
        i := i + 1;
      }
      result := Ok;
    }

    /** parseChunkedBody; its loop is left only at the chunk of size zero or with an error. */
    method ParseChunkedBody(data: StringReadBuffer) returns (result: Result)
      requires Valid() && data.Valid()
      modifies body, body.data, data
      ensures Valid() && data.Valid() && Grown()
      ensures Parsed(result, data.Pos(), Body()) == Chunks(data.stream, old(data.Pos()), old(Body()))
    {
      var more := true;
      result := Ok;
      while more
        invariant Valid() && data.Valid() && Grown()
        invariant Chunks(data.stream, old(data.Pos()), old(Body())) ==
                  if more then Chunks(data.stream, data.Pos(), Body()) else Parsed(Ok, data.Pos(), Body())
        invariant result == Ok
        decreases more, |data.stream| - data.Pos()
      {
        var size;
        result, size := ReadChunkSize(data);
        if result != Ok {
          return;
        }
        if size == 0 {
          more := false;
        } else {
          result := ParseOctets(data, size);
          if result != Ok {
            return;
          }
          result := ReadNewline(data);
          if result != Ok {
            return;
          }
        }
      }
    }
  }

  /** One line more of the text. */
  lemma HeaderTextStep(done: string, order: seq<string>, h: Headers)
    requires order != [] && forall k :: k in order ==> k in h
    ensures done + order[0] + ": " + h[order[0]] + CRLF + HeaderText(order[1..], h) == done + HeaderText(order, h)
  {
    var line := HeaderLine(order[0], h[order[0]]);
    assert done + order[0] + ": " + h[order[0]] + CRLF == done + line;
    assert done + line + HeaderText(order[1..], h) == done + (line + HeaderText(order[1..], h));
  }

  /** The end of a header list, from its CR on. */
  function HeaderListEnd(d: string, i: nat, h: Headers): Parsed<Headers>
    requires i < |d|
  {
    if i + 1 == |d| then Parsed(Again, i, h)
    else if d[i + 1] != LF then Parsed(Bad(InvalidHeaderListEnd), i + 1, h)
    else Parsed(Ok, i + 1, h)
  }

  lemma TakeOne(taken: string, d: string, i: nat)
    requires i < |d|
    ensures taken + [d[i]] + d[i + 1..] == taken + d[i..]
    ensures i + 1 == |d| ==> taken + [d[i]] == taken + d[i..]
  {
    assert d[i..] == [d[i]] + d[i + 1..];
  }

  /** HTTPRequest::HTTPRequestLine */
  class HTTPRequestLine {
    var verb: Method
    var uri: string
    const version: HTTPVersion

    function View(): RequestLine
      reads this, version
    {
      RequestLine(verb, uri, version.View())
    }

    constructor ()
      ensures View() == RequestLine(GET, "\"*\"", Version(1, 0)) == FRESH_REQUEST.line && fresh(version)
    {
      verb, uri := GET, "\"*\"";
      version := new HTTPVersion();
    }

    /** The states psMethodStart and psRequestURIStart: up to white space. */
    method ReadWord(data: StringReadBuffer) returns (result: Result, word: string)
      requires data.Valid()
      modifies data
      ensures data.Valid() && Parsed(result, data.Pos(), word) == Word(data.stream, old(data.Pos()), "")
    {
      word := "";
      while !IsSpace(data.Get())
        invariant data.Valid() && Word(data.stream, old(data.Pos()), "") == Word(data.stream, data.Pos(), word)
        decreases |data.stream| - data.Pos()
      {
        word := word + [data.Get()];
        var ok := data.Next();
        if !ok {
          return Again, word;
        }
      }
      result := Ok;
    }

    method Parse(data: StringReadBuffer) returns (result: Result)
      requires data.Valid()
      modifies this, version, data
      ensures data.Valid()
      ensures Parsed(result, data.Pos(), View()) == ParseRequestLine(data.stream, old(data.Pos()), old(View()))
    {
      var word;
      uri := "";
      result, word := ReadWord(data);
      if result != Ok {
        return;
      }
      result := ReadSpace(data);
      if result != Ok {
        return;
      }
      result, uri := ReadWord(data);
      if result != Ok {
        return;
      }
      result := version.Parse(data);
      if result != Ok {
        return;
      }
      result := ReadSpace(data);
      if result != Ok {
        return Bad(InvalidRequestLine);
      }
      result := ReadNewline(data);
      if result != Ok {
        return;
      }
      verb := MethodOf(word);
      if verb == INVALID {
        result := Bad(InvalidMethod);
      }
    }
  }

  class HTTPRequest {
    const line: HTTPRequestLine
    const message: HTTPMessage

    ghost predicate Valid()
      reads this, message, message.body
    {
      message.Valid()
    }

    ghost function View(): Request
      requires Valid()
      reads this, line, line.version, message, message.body, message.body.data
    {
      Request(line.View(), message.headers, message.Body())
    }

    constructor ()
      ensures Valid() && View() == FRESH_REQUEST
      ensures fresh(line) && fresh(line.version) && fresh(message) && fresh(message.body) && message.body.data == null
    {
      line := new HTTPRequestLine();
      message := new HTTPMessage();
    }

    method ParseBody(data: StringReadBuffer) returns (result: Result)
      requires Valid() && data.Valid()
      modifies message.body, message.body.data, data
      ensures Valid() && data.Valid()
      ensures Parsed(result, data.Pos(), message.Body()) ==
              RequestBody(data.stream, old(data.Pos()), message.headers, old(message.Body()))
    {
      var length := message.GetLength();
      match length {
        case Throwing =>
          result := Thrown;
        case Given(n) =>
          result := message.ParseLength(data, n);
        case Missing =>
          if "transfer-encoding" !in message.headers {
            result := Bad(UnexpectedBody);
          } else if message.headers["transfer-encoding"] == "chunked" {
            result := message.ParseChunkedBody(data);
          } else {
            result := Bad(InvalidTransferEncoding);
          }
      }
    }

    /** parse after a request line that the empty line follows at once, from its CR on. */
    method ParseNoHeaders(data: StringReadBuffer) returns (result: Result)
      requires Valid() && data.Valid()
      modifies message.body, message.body.data, data
      ensures Valid() && data.Valid()
      ensures Parsed(result, data.Pos(), View()) == RequestNoHeaders(data.stream, old(data.Pos()), old(View()))
    {
      var ok := data.Next();
      if !ok || data.Get() != LF {
        return Ok;
      }
      ok := data.Next();
      if !ok {
        return Again;
      }
      result := ParseBody(data);
    }

    /** parse after the headers, from the LF of the empty line on. */
    method ParseTail(data: StringReadBuffer) returns (result: Result)
      requires Valid() && data.Valid()
      modifies message.body, message.body.data, data
      ensures Valid() && data.Valid()
      ensures Parsed(result, data.Pos(), View()) == RequestTail(data.stream, old(data.Pos()), old(View()))
    {
      var ok := data.Next();
      result := Ok;
      if ok {
        result := ParseBody(data);
      }
    }

    /** parse after a request line that headers follow. */
    method ParseWithHeaders(data: StringReadBuffer) returns (result: Result)
      requires Valid() && data.Valid()
      modifies message, message.body, message.body.data, data
      ensures Valid() && data.Valid()
      ensures Parsed(result, data.Pos(), View()) == RequestWithHeaders(data.stream, old(data.Pos()), old(View()))
    {
      result := message.ParseHeaders(data);
      if result == Ok {
        result := ParseTail(data);
      }
    }

    method Parse(data: StringReadBuffer) returns (result: Result)
      requires Valid() && data.Valid()
      modifies line, line.version, message, message.body, message.body.data, data
      ensures Valid() && data.Valid()
      ensures Parsed(result, data.Pos(), View()) == ParseRequest(data.stream, old(data.Pos()), old(View()))
    {
      result := line.Parse(data);
      if result != Ok {
        return;
      }
      if data.Get() == CR {
        result := ParseNoHeaders(data);
      } else {
        result := ParseWithHeaders(data);
      }
    }

    /** send, as the octets it hands to the socket, for an iteration order of the headers. */
    method Send(order: seq<string>) returns (text: string)
      requires Valid() && Enumerates(order, message.headers)
      ensures text == RequestText(View(), order)
    {
      text := RequestLineText(line.View());
      var lines := message.PrintHeaders(order);
      text := text + lines + CRLF;
      if AllowsBody(line.verb) && message.body.size > 0 {
        text := text + message.body.data[..message.body.size];
      }
    }
  }

  /** HTTPResponse::HTTPResponseLine */
  class HTTPResponseLine {
    const version: HTTPVersion
    var code: nat

    function View(): ResponseLine
      reads this, version
    {
      ResponseLine(version.View(), code)
    }

    constructor ()
      ensures View() == ResponseLine(Version(1, 0), 200) == FRESH_RESPONSE.line && fresh(version)
    {
      version := new HTTPVersion();
      code := 200;
    }

    method Parse(data: StringReadBuffer) returns (result: Result)
      requires data.Valid()
      modifies this, version, data
      ensures data.Valid()
      ensures Parsed(result, data.Pos(), View()) == ParseResponseLine(data.stream, old(data.Pos()), old(View()))
    {
      result := version.Parse(data);
      if result != Ok {
        return;
      }
      result := ReadSpace(data);
      if result != Ok {
        return;
      }
      var i;
      result, i := ReadUInt(data);
      if result != Ok {
        return;
      }
      code := i;
      ghost var p := data.Pos();
      while data.Get() != CR
        invariant data.Valid() && SkipToCR(data.stream, p) == SkipToCR(data.stream, data.Pos())
        decreases |data.stream| - data.Pos()
        modifies data
      {
        var ok := data.Next();
        if !ok {
          return Again;
        }
      }
      result := ReadNewline(data);
    }
  }

  class HTTPResponse {
    const line: HTTPResponseLine
    const message: HTTPMessage

    ghost predicate Valid()
      reads this, message, message.body
    {
      message.Valid()
    }

    ghost function View(): Response
      requires Valid()
      reads this, line, line.version, message, message.body, message.body.data
    {
      Response(line.View(), message.headers, message.Body())
    }

    constructor ()
      ensures Valid() && View() == FRESH_RESPONSE
      ensures fresh(line) && fresh(line.version) && fresh(message) && fresh(message.body) && message.body.data == null
    {
      line := new HTTPResponseLine();
      message := new HTTPMessage();
    }

    /** The loop of parseBody that takes everything up to the end of the stream. */
    method ParseRest(data: StringReadBuffer)
      requires Valid() && data.Valid()
      modifies message.body, message.body.data, data
      ensures Valid() && data.Valid() && data.Pos() == |data.stream| - 1
      ensures message.Body() == old(message.Body()) + data.stream[old(data.Pos())..]
    {
      var ok := true;
      ghost var all := message.Body() + data.stream[data.Pos()..];
      while ok
        invariant Valid() && data.Valid() && message.Grown()
        invariant if ok then message.Body() + data.stream[data.Pos()..] == all
                  else data.Pos() == |data.stream| - 1 && message.Body() == all
        decreases ok, |data.stream| - data.Pos()
      {
        TakeOne(message.Body(), data.stream, data.Pos());
        message.body.AppendOctet(data.Get());
        ok := data.Next();
      }
    }

    method ParseBody(data: StringReadBuffer) returns (result: Result)
      requires Valid() && data.Valid()
      modifies message.body, message.body.data, data
      ensures Valid() && data.Valid()
      ensures Parsed(result, data.Pos(), message.Body()) ==
              ResponseBody(data.stream, old(data.Pos()), message.headers, old(message.Body()))
    {
      var length := message.GetLength();
      match length {
        case Throwing =>
          result := Thrown;
        case Given(n) =>
          result := message.ParseLength(data, n);
        case Missing =>
          if "transfer-encoding" in message.headers {
            if message.headers["transfer-encoding"] == "chunked" {
              result := message.ParseChunkedBody(data);
            } else {
              result := Bad(InvalidTransferEncoding);
            }
          } else if "connection" in message.headers {
            if message.headers["connection"] == "close" {
              ParseRest(data);
              result := Ok;
            } else {
              result := Bad(UnexpectedBody);
            }
          } else {
            result := Ok;
          }
      }
    }

    method ParseNoHeaders(data: StringReadBuffer) returns (result: Result)
      requires Valid() && data.Valid()
      modifies message.body, message.body.data, data
      ensures Valid() && data.Valid()
      ensures Parsed(result, data.Pos(), View()) == ResponseNoHeaders(data.stream, old(data.Pos()), old(View()))
    {
      var ok := data.Next();
      if !ok || data.Get() != LF {
        return Ok;
      }
      ok := data.Next();
      if !ok {
        return Again;
      }
      result := ParseBody(data);
    }

    /** parse after the headers; hasBody reads the length and may throw. */
    method ParseTail(data: StringReadBuffer) returns (result: Result)
      requires Valid() && data.Valid()
      modifies message.body, message.body.data, data
      ensures Valid() && data.Valid()
      ensures Parsed(result, data.Pos(), View()) == ResponseTail(data.stream, old(data.Pos()), old(View()))
    {
      var length := message.GetLength();
      if length == Throwing {
        return Thrown;
      }
      result := Ok;
      if HasBody(message.headers) {
        var ok := data.Next();
        if ok {
          result := ParseBody(data);
        }
      }
    }

    method ParseWithHeaders(data: StringReadBuffer) returns (result: Result)
      requires Valid() && data.Valid()
      modifies message, message.body, message.body.data, data
      ensures Valid() && data.Valid()
      ensures Parsed(result, data.Pos(), View()) == ResponseWithHeaders(data.stream, old(data.Pos()), old(View()))
    {
      result := message.ParseHeaders(data);
      if result == Ok {
        result := ParseTail(data);
      }
    }

    method Parse(data: StringReadBuffer) returns (result: Result)
      requires Valid() && data.Valid()
      modifies line, line.version, message, message.body, message.body.data, data
      ensures Valid() && data.Valid()
      ensures Parsed(result, data.Pos(), View()) == ParseResponse(data.stream, old(data.Pos()), old(View()))
    {
      result := line.Parse(data);
      if result != Ok {
        return;
      }
      if data.Get() == CR {
        result := ParseNoHeaders(data);
      } else {
        result := ParseWithHeaders(data);
      }
    }

    /** send, as the octets it hands to the socket, for an iteration order of the headers. */
    method Send(reason: string, order: seq<string>) returns (text: string)
      requires Valid() && Enumerates(order, message.headers)
      ensures text == ResponseText(View(), reason, order)
    {
      text := ResponseLineText(line.View(), reason);
      var lines := message.PrintHeaders(order);
      text := text + lines + CRLF;
      if message.body.size > 0 {
        text := text + message.body.data[..message.body.size];
      }
    }
  }

  /** A request sent by one object and parsed by another: the second is the first exactly when it can come back. */
  method RelayRequest(r: HTTPRequest, order: seq<string>) returns (result: Result, q: HTTPRequest)
    requires r.Valid() && Enumerates(order, r.message.headers)
    ensures q.Valid()
    ensures (result == Ok && q.View() == r.View()) <==> RequestOk(r.View()) && RequestSurvives(r.View())
  {
    var text := r.Send(order);
    ghost var sent := r.View();
    var data := new StringReadBuffer(text);
    q := new HTTPRequest();
    result := q.Parse(data);
    assert r.View() == sent;
    RequestReturns(text, sent, order, Parsed(result, data.Pos(), q.View()));
  }
}
