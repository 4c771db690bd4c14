/** Message bodies: so many octets, or chunks (section 3.6.1 of RFC 2616, without extensions). */
module HttpChunks {
  import opened Ctype
  import opened HttpScanning
  import opened Numbers

  function HexDigits(d: string, i: nat, acc: string): (r: Parsed<string>)
    requires i < |d| && AllXDigits(acc)
    ensures i <= r.pos < |d| && (r.result == Ok || r.result == Again) && AllXDigits(r.value)
    decreases |d| - i
  {
    if !IsXDigit(d[i]) then Parsed(Ok, i, acc)
    else if i + 1 < |d| then HexDigits(d, i + 1, acc + [d[i]])
    else Parsed(Again, i, acc + [d[i]])
  }

  /** parseChunkHex: the size of a chunk and the end of its line. */
  function ChunkSize(d: string, i: nat): (r: Parsed<nat>)
    requires i < |d|
    ensures i <= r.pos < |d| && (r.result == Ok ==> i < r.pos)
  {
    var hex := HexDigits(d, i, "");
    if hex.result != Ok then Parsed(hex.result, hex.pos, 0)
    else if hex.value == "" then Parsed(Bad(InvalidChunkHex), hex.pos, 0)
    else
      var line := Newline(d, hex.pos);
      Parsed(line.result, line.pos, Extract(16, hex.value, ULONG_MAX, 0))
  }

  /** n octets of a chunk, with a next() after each. */
  function Take(d: string, i: nat, n: nat, body: string): (r: Parsed<string>)
    requires i < |d|
    ensures i <= r.pos < |d| && (r.result == Ok || r.result == Again)
    decreases |d| - i
  {
    if n == 0 then Parsed(Ok, i, body)
    else if i + 1 < |d| then Take(d, i + 1, n - 1, body + [d[i]])
    else Parsed(Again, i, body + [d[i]])
  }

  /** n octets of a body of known length, with a next() between them. */
  function TakeLast(d: string, i: nat, n: nat, body: string): (r: Parsed<string>)
    requires i < |d|
    ensures i <= r.pos < |d| && (r.result == Ok || r.result == Again)
    decreases |d| - i
  {
    if n == 0 then Parsed(Ok, i, body)
    else if n == 1 then Parsed(Ok, i, body + [d[i]])
    else if i + 1 < |d| then TakeLast(d, i + 1, n - 1, body + [d[i]])
    else Parsed(Again, i, body + [d[i]])
  }

  /** One chunk that is not the last: its octets and the line end after them. */
  function ChunkData(d: string, i: nat, n: nat, body: string): (r: Parsed<string>)
    requires i < |d|
    ensures i <= r.pos < |d|
  {
    var data := Take(d, i, n, body);
    if data.result != Ok then data
    else
      var line := Newline(d, data.pos);
      Parsed(line.result, line.pos, data.value)
  }

  /** parseChunkedBody */
  function Chunks(d: string, i: nat, body: string): (r: Parsed<string>)
    requires i < |d|
    ensures i <= r.pos < |d|
    decreases |d| - i
  {
    var size := ChunkSize(d, i);
    if size.result != Ok then Parsed(size.result, size.pos, body)
    else if size.value == 0 then Parsed(Ok, size.pos, body)
    else
      var data := ChunkData(d, size.pos, size.value, body);
      if data.result != Ok then data else Chunks(d, data.pos, data.value)
  }

  // --- The encoding

  /** A chunk with its size as written: hexadecimal digits in either case, zeros in front allowed. */
  datatype Chunk = Chunk(hex: string, data: string)

  /** The digits denote the number n that operator>> stores. */
  predicate Stored(hex: string, n: nat) {
    hex != "" && AllXDigits(hex) && Extract(16, hex, ULONG_MAX, 0) == n
  }

  predicate ChunkOk(c: Chunk) { c.data != "" && Stored(c.hex, |c.data|) }

  predicate ChunksOk(cs: seq<Chunk>) { forall i :: 0 <= i < |cs| ==> ChunkOk(cs[i]) }

  function EncodeChunk(c: Chunk): string { c.hex + CRLF + c.data + CRLF }

  function Encode(cs: seq<Chunk>): string {
    if cs == [] then "" else EncodeChunk(cs[0]) + Encode(cs[1..])
  }

  function Payload(cs: seq<Chunk>): string {
    if cs == [] then "" else cs[0].data + Payload(cs[1..])
  }

  // --- Decoding undoes encoding

  lemma {:induction false} HexDigitsRead(d: string, i: nat, t: string, acc: string)
    requires At(d, i, t) && i + |t| < |d| && AllXDigits(acc) && AllXDigits(t) && !IsXDigit(d[i + |t|])
    ensures HexDigits(d, i, acc) == Parsed(Ok, i + |t|, acc + t)
    decreases |t|
  {
    if t == "" {
      assert acc + t == acc;
    } else {
      AtHead(d, i, t);
      HexDigitsRead(d, i + 1, t[1..], acc + [d[i]]);
      assert acc + [t[0]] + t[1..] == acc + t;
    }
  }

  lemma ChunkSizeReads(d: string, i: nat, hex: string, n: nat)
    requires Stored(hex, n) && At(d, i, hex) && At(d, i + |hex|, CRLF)
    ensures var e := i + |hex| + 2; ChunkSize(d, i) == if e < |d| then Parsed(Ok, e, n) else Parsed(Again, e - 1, n)
  {
    AtTwo(d, i + |hex|, CR, LF);
    HexDigitsRead(d, i, hex, "");
    assert "" + hex == hex;
  }

  lemma {:induction false} TakeReads(d: string, i: nat, t: string, body: string)
    requires At(d, i, t) && i + |t| < |d|
    ensures Take(d, i, |t|, body) == Parsed(Ok, i + |t|, body + t)
    decreases |t|
  {
    if t == "" {
      assert body + t == body;
    } else {
      AtHead(d, i, t);
      TakeReads(d, i + 1, t[1..], body + [d[i]]);
      assert body + [t[0]] + t[1..] == body + t;
    }
  }

  lemma ChunkDataReads(d: string, i: nat, t: string, body: string)
    requires At(d, i, t) && At(d, i + |t|, CRLF) && i + |t| + 2 < |d|
    ensures ChunkData(d, i, |t|, body) == Parsed(Ok, i + |t| + 2, body + t)
  {
    AtTwo(d, i + |t|, CR, LF);
    TakeReads(d, i, t, body);
  }

  lemma ChunkReads(d: string, i: nat, c: Chunk, body: string)
    requires ChunkOk(c) && At(d, i, EncodeChunk(c)) && i + |EncodeChunk(c)| < |d|
    ensures Chunks(d, i, body) == Chunks(d, i + |EncodeChunk(c)|, body + c.data)
  {
    var j := i + |c.hex| + 2;
    assert At(d, i, c.hex) && At(d, j - 2, CRLF) && At(d, j, c.data) && At(d, j + |c.data|, CRLF) by {
      AtSplit(d, i, c.hex + CRLF + c.data, CRLF);
      AtSplit(d, i, c.hex + CRLF, c.data);
      AtSplit(d, i, c.hex, CRLF);
    }
    ChunkSizeReads(d, i, c.hex, |c.data|);
    ChunkDataReads(d, j, c.data, body);
  }

  /** The zero-size line stands at i. */
  predicate LastAt(d: string, i: nat, last: string) {
    Stored(last, 0) && At(d, i, last) && At(d, i + |last|, CRLF)
  }

  /** A parse that comes to position e: there must be an octet there. */
  function Upto(d: string, e: nat, body: string): Parsed<string>
    requires e > 0
  {
    if e < |d| then Parsed(Ok, e, body) else Parsed(Again, e - 1, body)
  }

  lemma LastReads(d: string, i: nat, last: string, body: string)
    requires LastAt(d, i, last)
    ensures Chunks(d, i, body) == Upto(d, i + |last| + 2, body)
  {
    AtTwo(d, i + |last|, CR, LF);
    ChunkSizeReads(d, i, last, 0);
  }

  /** Chunks and a zero-size line stand at i, one after the other, up to e. */
  predicate EncodedAt(d: string, i: nat, cs: seq<Chunk>, last: string, e: nat)
    decreases |cs|
  {
    if cs == [] then LastAt(d, i, last) && e == i + |last| + 2
    else
      && ChunkOk(cs[0]) && At(d, i, EncodeChunk(cs[0]))
      && EncodedAt(d, i + |EncodeChunk(cs[0])|, cs[1..], last, e)
  }

  /** Which is to say that the encoded text stands at i. */
  lemma {:induction false} EncodedText(d: string, i: nat, cs: seq<Chunk>, last: string, e: nat)
    ensures EncodedAt(d, i, cs, last, e) <==>
            && ChunksOk(cs) && At(d, i, Encode(cs)) && LastAt(d, i + |Encode(cs)|, last)
            && e == i + |Encode(cs)| + |last| + 2
    decreases |cs|
  {
    if cs != [] {
      AtSplit(d, i, EncodeChunk(cs[0]), Encode(cs[1..]));
      EncodedText(d, i + |EncodeChunk(cs[0])|, cs[1..], last, e);
      ChunksOkSplit(cs);
    }
  }

  lemma ChunksOkSplit(cs: seq<Chunk>)
    requires cs != []
    ensures ChunksOk(cs) <==> ChunkOk(cs[0]) && ChunksOk(cs[1..])
  {
    assert forall k :: 0 < k < |cs| ==> cs[k] == cs[1..][k - 1];
  }

  lemma {:induction false} EncodedInside(d: string, i: nat, cs: seq<Chunk>, last: string, e: nat)
    requires EncodedAt(d, i, cs, last, e)
    ensures i < e <= |d|
    decreases |cs|
  {
    if cs != [] { EncodedInside(d, i + |EncodeChunk(cs[0])|, cs[1..], last, e); }
  }

  lemma PayloadThen(body: string, cs: seq<Chunk>)
    requires cs != []
    ensures body + Payload(cs) == body + cs[0].data + Payload(cs[1..])
  {
    assert body + (cs[0].data + Payload(cs[1..])) == body + cs[0].data + Payload(cs[1..]);
  }

  /** parseChunkedBody reads those chunks from the octet at i, and stops at e. */
  ghost predicate Decodes(d: string, i: nat, cs: seq<Chunk>, e: nat, body: string) {
    i < e <= |d| && Chunks(d, i, body) == Upto(d, e, body + Payload(cs))
  }

  lemma DecodesNone(d: string, i: nat, last: string, e: nat, body: string)
    requires EncodedAt(d, i, [], last, e)
    ensures Decodes(d, i, [], e, body)
  {
    EncodedInside(d, i, [], last, e);
    LastReads(d, i, last, body);
    assert body + "" == body;
  }

  lemma DecodesMore(d: string, i: nat, cs: seq<Chunk>, last: string, e: nat, body: string)
    requires EncodedAt(d, i, cs, last, e) && cs != []
    requires Decodes(d, i + |EncodeChunk(cs[0])|, cs[1..], e, body + cs[0].data)
    ensures Decodes(d, i, cs, e, body)
  {
    EncodedInside(d, i, cs, last, e);
    ChunkReads(d, i, cs[0], body);
    PayloadThen(body, cs);
  }

  lemma {:induction false} ChunksDecode(d: string, i: nat, cs: seq<Chunk>, last: string, e: nat, body: string)
    requires EncodedAt(d, i, cs, last, e)
    ensures Decodes(d, i, cs, e, body)
    decreases |cs|
  {
    if cs == [] {
      DecodesNone(d, i, last, e, body);
    } else {
      ChunksDecode(d, i + |EncodeChunk(cs[0])|, cs[1..], last, e, body + cs[0].data);
      DecodesMore(d, i, cs, last, e, body);
    }
  }

  // --- Whatever decodes is an encoding

  lemma {:induction false} HexDigitsFound(d: string, i: nat, acc: string)
    requires i < |d| && AllXDigits(acc) && HexDigits(d, i, acc).result == Ok
    ensures var r := HexDigits(d, i, acc); r.value == acc + d[i..r.pos]
    decreases |d| - i
  {
    if IsXDigit(d[i]) {
      HexDigitsFound(d, i + 1, acc + [d[i]]);
      var r := HexDigits(d, i, acc);
      assert [d[i]] + d[i + 1..r.pos] == d[i..r.pos];
      assert acc + [d[i]] + d[i + 1..r.pos] == acc + ([d[i]] + d[i + 1..r.pos]);
    }
  }

  lemma {:induction false} TakeFound(d: string, i: nat, n: nat, body: string)
    requires i < |d| && Take(d, i, n, body).result == Ok
    ensures Take(d, i, n, body).pos == i + n && Take(d, i, n, body).value == body + d[i..i + n]
    decreases |d| - i
  {
    if n > 0 {
      TakeFound(d, i + 1, n - 1, body + [d[i]]);
      assert [d[i]] + d[i + 1..i + n] == d[i..i + n];
      assert body + [d[i]] + d[i + 1..i + n] == body + ([d[i]] + d[i + 1..i + n]);
    }
  }

  lemma ChunkSizeFound(d: string, i: nat) returns (hex: string)
    requires i < |d| && ChunkSize(d, i).result == Ok
    ensures Stored(hex, ChunkSize(d, i).value) && At(d, i, hex)
    ensures At(d, i + |hex|, CRLF) && ChunkSize(d, i).pos == i + |hex| + 2
  {
    var digits := HexDigits(d, i, "");
    HexDigitsFound(d, i, "");
    hex := d[i..digits.pos];
    assert "" + hex == hex;
  }

  lemma ChunkFound(d: string, i: nat, body: string) returns (c: Chunk)
    requires i < |d| && ChunkSize(d, i).result == Ok && ChunkSize(d, i).value > 0
    requires ChunkData(d, ChunkSize(d, i).pos, ChunkSize(d, i).value, body).result == Ok
    ensures ChunkOk(c) && At(d, i, EncodeChunk(c))
    ensures ChunkData(d, ChunkSize(d, i).pos, ChunkSize(d, i).value, body) ==
            Parsed(Ok, i + |EncodeChunk(c)|, body + c.data)
    ensures Chunks(d, i, body) == Chunks(d, i + |EncodeChunk(c)|, body + c.data)
  {
    var size := ChunkSize(d, i);
    var hex := ChunkSizeFound(d, i);
    TakeFound(d, size.pos, size.value, body);
    c := Chunk(hex, d[size.pos..size.pos + size.value]);
    AtSplit(d, i, hex, CRLF);
    AtSplit(d, i, hex + CRLF, c.data);
    AtSplit(d, i, hex + CRLF + c.data, CRLF);
  }

  lemma FirstFound(d: string, i: nat, body: string)
    requires i < |d| && Chunks(d, i, body).result == Ok
    ensures var size := ChunkSize(d, i);
      size.result == Ok && (size.value > 0 ==> ChunkData(d, size.pos, size.value, body).result == Ok)
  {
  }

  /** Up to where r ends the octets are an encoding of those chunks, and what they carry is what r appended. */
  ghost predicate Found(d: string, i: nat, body: string, r: Parsed<string>, cs: seq<Chunk>, last: string) {
    EncodedAt(d, i, cs, last, r.pos) && r.value == body + Payload(cs)
  }

  lemma FoundMore(d: string, i: nat, body: string, r: Parsed<string>, c: Chunk, cs: seq<Chunk>, last: string)
    requires ChunkOk(c) && At(d, i, EncodeChunk(c)) && Found(d, i + |EncodeChunk(c)|, body + c.data, r, cs, last)
    ensures Found(d, i, body, r, [c] + cs, last)
  {
    assert ([c] + cs)[1..] == cs;
    PayloadThen(body, [c] + cs);
  }

  lemma FoundNone(d: string, i: nat, body: string) returns (last: string)
    requires i < |d| && Chunks(d, i, body).result == Ok && ChunkSize(d, i).value == 0
    ensures Found(d, i, body, Chunks(d, i, body), [], last)
  {
    FirstFound(d, i, body);
    last := LastFound(d, i, body);
  }

  /** The first chunk is read, and what follows is read as the rest. */
  lemma ChunkThenRest(d: string, i: nat, body: string) returns (c: Chunk)
    requires i < |d| && Chunks(d, i, body).result == Ok && ChunkSize(d, i).value > 0
    ensures ChunkOk(c) && At(d, i, EncodeChunk(c)) && |EncodeChunk(c)| > 0 && i + |EncodeChunk(c)| < |d|
    ensures Chunks(d, i, body) == Chunks(d, i + |EncodeChunk(c)|, body + c.data)
  {
    FirstFound(d, i, body);
    c := ChunkFound(d, i, body);
  }

  lemma {:induction false} ChunksFound(d: string, i: nat, body: string, r: Parsed<string>)
    returns (cs: seq<Chunk>, last: string)
    requires i < |d| && r == Chunks(d, i, body) && r.result == Ok
    ensures Found(d, i, body, r, cs, last)
    decreases |d| - i
  {
    if ChunkSize(d, i).value == 0 {
      last := FoundNone(d, i, body);
      cs := [];
    } else {
      var c := ChunkThenRest(d, i, body);
      var rest;
      rest, last := ChunksFound(d, i + |EncodeChunk(c)|, body + c.data, r);
      FoundMore(d, i, body, r, c, rest, last);
      cs := [c] + rest;
    }
  }

  lemma LastFound(d: string, i: nat, body: string) returns (last: string)
    requires i < |d| && ChunkSize(d, i).result == Ok && ChunkSize(d, i).value == 0
    ensures LastAt(d, i, last) && Chunks(d, i, body) == Parsed(Ok, i + |last| + 2, body + Payload([]))
  {
    last := ChunkSizeFound(d, i);
    assert body + "" == body;
  }

  // --- In terms of hexadecimal notation

  /** The text is the number n in hexadecimal notation, or one that no unsigned long holds and n the largest of them. */
  ghost predicate SizeIs(hex: string, n: nat) {
    exists m: nat :: Hexadecimal(hex, m) && n == Clip(m, ULONG_MAX)
  }

  /** That is the number operator>> stores. */
  lemma SizeIsStored(hex: string, n: nat)
    ensures SizeIs(hex, n) <==> Stored(hex, n)
  {
    if hex != "" && AllXDigits(hex) {
      HexadecimalValue(hex, Value(16, hex));
    }
    forall m: nat | Hexadecimal(hex, m) ensures hex != "" && AllXDigits(hex) && Value(16, hex) == m {
      HexadecimalValue(hex, m);
    }
  }

  /** No chunk is empty, and each has its size in front in hexadecimal notation. */
  ghost predicate Sized(cs: seq<Chunk>) {
    forall i :: 0 <= i < |cs| ==> cs[i].data != "" && SizeIs(cs[i].hex, |cs[i].data|)
  }

  lemma SizedIsOk(cs: seq<Chunk>)
    ensures Sized(cs) <==> ChunksOk(cs)
  {
    forall i | 0 <= i < |cs| ensures SizeIs(cs[i].hex, |cs[i].data|) <==> Stored(cs[i].hex, |cs[i].data|) {
      SizeIsStored(cs[i].hex, |cs[i].data|);
    }
  }

  /** Chunks and a line with the size zero stand at i. */
  ghost predicate BodyAt(d: string, i: nat, cs: seq<Chunk>, last: string) {
    && Sized(cs) && At(d, i, Encode(cs))
    && SizeIs(last, 0) && At(d, i + |Encode(cs)|, last) && At(d, i + |Encode(cs)| + |last|, CRLF)
  }

  lemma BodyIsEncoded(d: string, i: nat, cs: seq<Chunk>, last: string, e: nat)
    ensures BodyAt(d, i, cs, last) && e == i + |Encode(cs)| + |last| + 2 <==> EncodedAt(d, i, cs, last, e)
  {
    SizedIsOk(cs);
    SizeIsStored(last, 0);
    EncodedText(d, i, cs, last, e);
  }

  /** Any encoding of any chunks: their octets are appended, the parser stops just after the zero-size line, and it
      succeeds exactly when one more octet follows. */
  lemma DecodeUndoesEncode(d: string, i: nat, cs: seq<Chunk>, last: string, body: string)
    requires BodyAt(d, i, cs, last)
    ensures i < |d| && Chunks(d, i, body) == Upto(d, i + |Encode(cs)| + |last| + 2, body + Payload(cs))
  {
    var e := i + |Encode(cs)| + |last| + 2;
    BodyIsEncoded(d, i, cs, last, e);
    ChunksDecode(d, i, cs, last, e, body);
  }

  /** Every successful chunked body is an encoding of chunks whose octets are what was appended. */
  lemma DecodedIsEncoded(d: string, i: nat, body: string) returns (cs: seq<Chunk>, last: string)
    requires i < |d| && Chunks(d, i, body).result == Ok
    ensures BodyAt(d, i, cs, last)
    ensures Chunks(d, i, body) == Parsed(Ok, i + |Encode(cs)| + |last| + 2, body + Payload(cs))
  {
    var r := Chunks(d, i, body);
    cs, last := ChunksFound(d, i, body, r);
    BodyIsEncoded(d, i, cs, last, r.pos);
  }

  lemma {:induction false} PayloadShorter(cs: seq<Chunk>)
    ensures |Payload(cs)| <= |Encode(cs)|
  {
    if cs != [] { PayloadShorter(cs[1..]); }
  }

  /** A chunked body is longer on the wire than what it carries. */
  lemma ChunksShrink(d: string, i: nat, body: string)
    requires i < |d| && Chunks(d, i, body).result == Ok
    ensures |Chunks(d, i, body).value| < |body| + |d| - i
  {
    var cs, last := DecodedIsEncoded(d, i, body);
    PayloadShorter(cs);
  }

  /** A body of known length: the first n octets, if there are that many. */
  lemma {:induction false} TakeLastReads(d: string, i: nat, n: nat, body: string)
    requires i < |d|
    ensures (TakeLast(d, i, n, body).result == Ok) <==> n <= |d| - i
    ensures n <= |d| - i ==> TakeLast(d, i, n, body) == Parsed(Ok, if n == 0 then i else i + n - 1, body + d[i..i + n])
    ensures n > |d| - i ==> TakeLast(d, i, n, body) == Parsed(Again, |d| - 1, body + d[i..])
    decreases |d| - i
  {
    if n == 0 {
      assert body + d[i..i] == body;
    } else if n == 1 {
      assert d[i..i + 1] == [d[i]];
    } else if n > 1 && i + 1 < |d| {
      TakeLastReads(d, i + 1, n - 1, body + [d[i]]);
      if n <= |d| - i {
        assert [d[i]] + d[i + 1..i + n] == d[i..i + n];
        assert body + [d[i]] + d[i + 1..i + n] == body + ([d[i]] + d[i + 1..i + n]);
      } else {
        assert [d[i]] + d[i + 1..] == d[i..];
        assert body + [d[i]] + d[i + 1..] == body + ([d[i]] + d[i + 1..]);
      }
    } else {
      assert d[i..] == [d[i]];
    }
  }
}
