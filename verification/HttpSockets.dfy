/** Parsing from a socket: tokens and chunked bodies read through a SocketReadBuffer, whatever its size and however the
    peer splits the stream, are those of the flat stream. */
module HttpSockets {
  import opened ByteBuffers
  import opened Ctype
  import opened HttpChunks
  import opened HttpScanning
  import opened Numbers
  import opened ReadBuffers

  /** The reader stands where the scan of the flat stream ended, if that was a success. */
  ghost predicate StandsAt<T>(data: SocketReadBuffer, r: Parsed<T>)
    reads data, data.buffer
  {
    r.result == Ok ==> data.Filled() && data.Pos() == r.pos
  }

  /** The scan does not run into the end of a peer that has closed the connection: next would then go on succeeding. */
  ghost predicate Ends<T>(data: SocketReadBuffer, r: Parsed<T>) {
    data.closes ==> r.result != Again
  }

  /** next, and then get if there is an octet. */
  method Advance(data: SocketReadBuffer) returns (ok: bool, c: char)
    requires data.Filled()
    modifies data, data.buffer
    ensures data.buffer == old(data.buffer) && ok == (old(data.Pos()) + 1 < |data.stream| || data.closes)
    ensures old(data.Pos()) + 1 < |data.stream| ==>
              data.Filled() && data.Pos() == old(data.Pos()) + 1 && c == data.stream[data.Pos()]
  {
    ok := data.Next();
    c := '\0';
    if ok {
      c := data.Get();
    }
  }

  /** parseToken */
  method ReadToken(data: SocketReadBuffer) returns (result: Result, token: string)
    requires data.Filled() && Ends(data, Token(data.stream, data.Pos(), ""))
    modifies data, data.buffer
    ensures data.buffer == old(data.buffer)
    ensures var r := Token(data.stream, old(data.Pos()), "");
      result == r.result && token == r.value && StandsAt(data, r)
  {
    token := "";
    ghost var pos := data.Pos();
    ghost var all := Token(data.stream, pos, "");
    var c := data.Get();
    while !IsSeparator(c) && !IsCTL(c)
      invariant data.buffer == old(data.buffer) && data.Filled() && pos == data.Pos() && c == data.stream[pos]
      invariant all == Token(data.stream, pos, token)
      decreases |data.stream| - pos
    {
      token := token + [c];
      var ok;
      ok, c := Advance(data);
      if !ok {
        return Again, "";
      }
      pos := pos + 1;
    }
    result := Ok;
  }

  /** parseCRLF */
  method ReadNewline(data: SocketReadBuffer) returns (result: Result)
    requires data.Filled() && Ends(data, Newline(data.stream, data.Pos()))
    modifies data, data.buffer
    ensures data.buffer == old(data.buffer)
    ensures var r := Newline(data.stream, old(data.Pos())); result == r.result && StandsAt(data, r)
  {
    var c := data.Get();
    if c != CR {
      return Bad(ExpectCRLF);
    }
    var ok;
    ok, c := Advance(data);
    if !ok {
      return Again;
    }
    if c != LF {
      return Bad(ExpectCRLF);
    }
    ok := data.Next();
    result := if ok then Ok else Again;
  }

  /** The digits of parseChunkHex. */
  method ReadHexDigits(data: SocketReadBuffer) returns (result: Result, digits: string)
    requires data.Filled() && Ends(data, HexDigits(data.stream, data.Pos(), ""))
    modifies data, data.buffer
    ensures data.buffer == old(data.buffer)
    ensures var r := HexDigits(data.stream, old(data.Pos()), "");
      result == r.result && (result == Ok ==> digits == r.value) && StandsAt(data, r)
  {
    ghost var pos := data.Pos();
    ghost var all := HexDigits(data.stream, pos, "");
    digits := "";
    var c := data.Get();
    while IsXDigit(c)
      invariant data.buffer == old(data.buffer) && data.Filled() && pos == data.Pos() && c == data.stream[pos]
      invariant AllXDigits(digits) && all == HexDigits(data.stream, pos, digits)
      decreases |data.stream| - pos
    {
      digits := digits + [c];
      var ok;
      ok, c := Advance(data);
      if !ok {
        return Again, digits;
      }
      pos := pos + 1;
    }
    result := Ok;
  }

  /** parseChunkHex */
  method ReadChunkSize(data: SocketReadBuffer) returns (result: Result, value: nat)
    requires data.Filled() && Ends(data, ChunkSize(data.stream, data.Pos()))
    modifies data, data.buffer
    ensures data.buffer == old(data.buffer)
    ensures var r := ChunkSize(data.stream, old(data.Pos()));
      result == r.result && value == r.value && StandsAt(data, r)
  {
    var digits;
    result, digits := ReadHexDigits(data);
    value := 0;
    if result == Ok {
      if digits == "" {
        result := Bad(InvalidChunkHex);
      } else {
        value := Extract(16, digits, ULONG_MAX, 0);
        result := ReadNewline(data);
      }
    }
  }

  /** The body and the receive buffer do not share an array. */
  ghost predicate Apart(data: SocketReadBuffer, body: Bytes)
    reads data, body
  {
    body.Valid() && body.data != data.buffer
  }

  /** The octet at the position goes to the body, and the reader moves on. */
  method TakeOctet(data: SocketReadBuffer, body: Bytes) returns (ok: bool)
    requires data.Filled() && Apart(data, body)
    modifies data, data.buffer, body, body.data
    ensures data.buffer == old(data.buffer) && Apart(data, body)
    ensures body.data == old(body.data) || (body.data != null && fresh(body.data))
    ensures body.Contents() == old(body.Contents()) + [data.stream[old(data.Pos())]]
    ensures ok == (old(data.Pos()) + 1 < |data.stream| || data.closes)
    ensures old(data.Pos()) + 1 < |data.stream| ==> data.Filled() && data.Pos() == old(data.Pos()) + 1
  {
    var c := data.Get();
    body.AppendOctet(c);
    ok := data.Next();
  }

  /** The octets of one chunk. */
  method ReadOctets(data: SocketReadBuffer, body: Bytes, n: nat) returns (result: Result)
    requires data.Filled() && Apart(data, body) && Ends(data, Take(data.stream, data.Pos(), n, body.Contents()))
    modifies data, data.buffer, body, body.data
    ensures data.buffer == old(data.buffer) && Apart(data, body)
    ensures body.data == old(body.data) || (body.data != null && fresh(body.data))
    ensures var r := Take(data.stream, old(data.Pos()), n, old(body.Contents()));
      result == r.result && body.Contents() == r.value && StandsAt(data, r)
  {
    var i := 0;
    ghost var all := Take(data.stream, data.Pos(), n, body.Contents());
    ghost var pos, held := data.Pos(), body.Contents();
    while i < n
      invariant 0 <= i <= n && data.buffer == old(data.buffer) && data.Filled() && Apart(data, body)
      invariant body.data == old(body.data) || (body.data != null && fresh(body.data))
      invariant pos == data.Pos() && held == body.Contents() && all == Take(data.stream, pos, n - i, held)
    {
      var ok := TakeOctet(data, body);
      if !ok {
        return Again;
      }
      i, pos, held := i + 1, pos + 1, body.Contents();
    }
    result := Ok;
  }

  /** One chunk that is not the last. */
  method ReadChunkData(data: SocketReadBuffer, body: Bytes, n: nat) returns (result: Result)
    requires data.Filled() && Apart(data, body) && Ends(data, ChunkData(data.stream, data.Pos(), n, body.Contents()))
    modifies data, data.buffer, body, body.data
    ensures data.buffer == old(data.buffer) && Apart(data, body)
    ensures body.data == old(body.data) || (body.data != null && fresh(body.data))
    ensures var r := ChunkData(data.stream, old(data.Pos()), n, old(body.Contents()));
      result == r.result && body.Contents() == r.value && StandsAt(data, r)
  {
    result := ReadOctets(data, body, n);
    if result == Ok {
      result := ReadNewline(data);
    }
  }

  /** parseChunkedBody */
  method ReadChunkedBody(data: SocketReadBuffer, body: Bytes) returns (result: Result)
    requires data.Filled() && Apart(data, body) && Ends(data, Chunks(data.stream, data.Pos(), body.Contents()))
    modifies data, data.buffer, body, body.data
    ensures data.buffer == old(data.buffer) && Apart(data, body)
    ensures var r := Chunks(data.stream, old(data.Pos()), old(body.Contents()));
      result == r.result && body.Contents() == r.value && StandsAt(data, r)
  {
    var more := true;
    ghost var all := Chunks(data.stream, data.Pos(), body.Contents());
    while more
      invariant data.buffer == old(data.buffer) && data.Filled() && Apart(data, body)
      invariant body.data == old(body.data) || (body.data != null && fresh(body.data))
      invariant all == if more then Chunks(data.stream, data.Pos(), body.Contents())
                       else Parsed(Ok, data.Pos(), body.Contents())
      decreases more, |data.stream| - data.Pos()
    {
      var size;
      result, size := ReadChunkSize(data);
      if result != Ok {
        return;
      }
      if size == 0 {
        more := false;
      } else {
        result := ReadChunkData(data, body, size);
        if result != Ok {
          return;
        }
      }
    }
    result := Ok;
  }
}
