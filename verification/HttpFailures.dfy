/** Lines, numbers and chunks that are malformed or cut short, and numbers too large for their type. */
module HttpFailures {
  import opened Ctype
  import opened HttpChunks
  import opened HttpFields
  import opened HttpHeaders
  import opened HttpMessages
  import opened HttpRoundTrip
  import opened HttpScanning
  import opened Numbers

  /** A line end is CRLF with an octet after it; a stream that ends inside one is an EAGAIN, anything else refused. */
  lemma NewlineExactly(d: string, i: nat)
    requires i < |d|
    ensures var r := Newline(d, i);
      if At(d, i, CRLF) && i + 2 < |d| then r == Parsed(Ok, i + 2, ())
      else if d[i..] == [CR] || d[i..] == CRLF then r == Parsed(Again, |d| - 1, ())
      else r.result == Bad(ExpectCRLF) && r.pos == if d[i] == CR then i + 1 else i
  {
    if i + 2 <= |d| && d[i] == CR && d[i + 1] == LF {
      assert At(d, i, CRLF);
      if i + 2 == |d| { assert d[i..] == CRLF; }
    } else {
      if At(d, i, CRLF) { AtTwo(d, i, CR, LF); }
      if i + 1 == |d| { assert d[i..] == [d[i]]; }
    }
  }

  // --- Numbers

  /** A number of any size is read as itself or as the largest unsigned int. */
  lemma UIntReads(d: string, i: nat, n: nat)
    requires At(d, i, Decimal(n)) && i + |Decimal(n)| < |d| && !IsDigit(d[i + |Decimal(n)|])
    ensures UInt(d, i) == Parsed(Ok, i + |Decimal(n)|, Clip(n, UINT_MAX))
  {
    AtHead(d, i, Decimal(n));
    DigitsRead(d, i, Decimal(n), "");
    assert "" + Decimal(n) == Decimal(n);
    DecimalValue(n);
  }

  lemma UIntIsExpected(d: string, i: nat)
    requires i < |d| && !IsDigit(d[i])
    ensures UInt(d, i) == Parsed(Bad(ExpectingUnsignedInt), i, 0)
  {
  }

  lemma {:induction false} DigitsRunOut(d: string, i: nat, acc: string)
    requires i < |d| && AllDigits(acc) && forall k :: i <= k < |d| ==> IsDigit(d[k])
    ensures Digits(d, i, acc).result == Again && |Digits(d, i, acc).value| > |acc|
    decreases |d| - i
  {
    if i + 1 < |d| { DigitsRunOut(d, i + 1, acc + [d[i]]); }
  }

  /** A number that the stream ends in is an EAGAIN. */
  lemma UIntIsCut(d: string, i: nat)
    requires i < |d| && forall k :: i <= k < |d| ==> IsDigit(d[k])
    ensures UInt(d, i).result == Again
  {
    DigitsRunOut(d, i, "");
  }

  // --- Versions

  lemma {:induction false} LettersMatch(d: string, i: nat, k: nat, m: nat, was: Version)
    requires k <= m < |HTTP| && i + (m - k) < |d| && forall j :: k <= j < m ==> d[i + (j - k)] == HTTP[j]
    ensures VersionFrom(d, i, Letter(k), "", "", was) == VersionFrom(d, i + (m - k), Letter(m), "", "", was)
    decreases m - k
  {
    if k < m {
      assert d[i] == HTTP[k];
      assert forall j :: k + 1 <= j < m ==> d[i + 1 + (j - (k + 1))] == HTTP[j];
      LettersMatch(d, i + 1, k + 1, m, was);
    }
  }

  /** The first octet that differs from "HTTP/" is where a version is refused, and the version stays what it was. */
  lemma VersionIsExpected(d: string, i: nat, m: nat, was: Version)
    requires m < |"HTTP/"| && i + m < |d| && At(d, i, "HTTP/"[..m]) && d[i + m] != "HTTP/"[m] && !IsSpace(d[i])
    ensures ParseVersion(d, i, was) == Parsed(Bad(InvalidHTTPVersion), i + m, was)
  {
    assert forall j :: 0 <= j < m ==> d[i + j] == "HTTP/"[..m][j];
    LettersMatch(d, i, 0, m, was);
  }

  /** The major number must be followed by a dot. */
  lemma DotIsExpected(d: string, i: nat, major: string, was: Version)
    requires AllDigits(major) && At(d, i, "HTTP/" + major)
    requires var e := i + 5 + |major|; e < |d| && !IsDigit(d[e]) && d[e] != '.'
    ensures ParseVersion(d, i, was) == Parsed(Bad(InvalidHTTPVersion), i + 5 + |major|, was)
  {
    AtSplit(d, i, HTTP, major);
    AtHead(d, i, HTTP);
    assert HTTP[0..] == HTTP;
    LettersRead(d, i, 0, was);
    MajorStops(d, i + 5, major, "", was);
  }

  lemma {:induction false} MajorStops(d: string, i: nat, t: string, acc: string, was: Version)
    requires At(d, i, t) && i + |t| < |d| && AllDigits(t) && AllDigits(acc) && !IsDigit(d[i + |t|])
    requires d[i + |t|] != '.'
    ensures VersionFrom(d, i, Major, acc, "", was) == Parsed(Bad(InvalidHTTPVersion), i + |t|, was)
    decreases |t|
  {
    if t != "" {
      AtHead(d, i, t);
      MajorStops(d, i + 1, t[1..], acc + [t[0]], was);
    }
  }

  /** A version without digits leaves the numbers as they were. */
  lemma VersionWithoutDigits(d: string, i: nat, was: Version)
    requires At(d, i, "HTTP/.") && i + 6 < |d| && !IsDigit(d[i + 6])
    ensures ParseVersion(d, i, was) == Parsed(Ok, i + 6, was)
  {
    assert HTTP + "." == "HTTP/.";
    AtSplit(d, i, HTTP, ".");
    AtHead(d, i + 5, ".");
    AtHead(d, i, HTTP);
    assert HTTP[0..] == HTTP;
    LettersRead(d, i, 0, was);
    assert VersionFrom(d, i + 5, Major, "", "", was) == VersionFrom(d, i + 5, Dot, "", "", was);
    assert VersionFrom(d, i + 5, Dot, "", "", was) == VersionFrom(d, i + 6, Minor, "", "", was);
  }

  // --- Request lines

  lemma {:induction false} WordRunsOut(d: string, i: nat, acc: string)
    requires i < |d| && forall k :: i <= k < |d| ==> !IsSpace(d[k])
    ensures Word(d, i, acc).result == Again
    decreases |d| - i
  {
    if i + 1 < |d| { WordRunsOut(d, i + 1, acc + [d[i]]); }
  }

  /** A method that the stream ends in is an EAGAIN, and the uri is empty then. */
  lemma MethodIsCut(d: string, i: nat, was: RequestLine)
    requires i < |d| && forall k :: i <= k < |d| ==> !IsSpace(d[k])
    ensures ParseRequestLine(d, i, was).result == Again && ParseRequestLine(d, i, was).value == was.(uri := "")
  {
    WordRunsOut(d, i, "");
  }

  /** A stream that ends in the blanks after the method is an EAGAIN. */
  lemma UriIsCut(d: string, i: nat, verb: string, was: RequestLine)
    requires NoSpace(verb) && At(d, i, verb) && i + |verb| < |d| && Blanks(d, i + |verb|, |d|)
    ensures ParseRequestLine(d, i, was) == Parsed(Again, |d| - 1, was.(uri := ""))
  {
    WordReads(d, i, verb, "");
    SkipsBlanks(d, i + |verb|, |d|);
  }

  /** Whatever is wrong with the version, the line fails in the same way, with its uri read. */
  lemma RequestVersionFails(d: string, i: nat, verb: string, uri: string, was: RequestLine)
    requires NoSpace(verb) && NoSpace(uri) && uri != "" && At(d, i, verb + " " + uri + " ")
    requires var v := i + |verb| + |uri| + 2; v < |d| && ParseVersion(d, v, was.version).result != Ok
    ensures var r := ParseVersion(d, i + |verb| + |uri| + 2, was.version);
      ParseRequestLine(d, i, was) == Parsed(r.result, r.pos, was.(uri := uri))
  {
    var u := i + |verb| + 1;
    AtSplit(d, i, verb + " " + uri, " ");
    AtSplit(d, i, verb + " ", uri);
    AtSplit(d, i, verb, " ");
    WordThenSpace(d, i, verb);
    AtHead(d, u, uri);
    assert EatSpace(d, u - 1) == Parsed(Ok, u, ());
    WordThenSpace(d, u, uri);
    VersionAfterSpace(d, u + |uri|, was.version);
  }

  /** After the version, blanks that the stream ends in are refused, and so is anything but a line end. */
  lemma LineEndIsExpected(d: string, i: nat, verb: string, l: RequestLine, v: Version)
    requires VersionOk(v) && At(d, i, VersionText(v)) && i + |VersionText(v)| < |d| && !IsDigit(d[i + |VersionText(v)|])
    ensures var e, r := i + |VersionText(v)|, RequestLineEnd(d, i, verb, l);
      && (d[e] != CR && !IsSP(d[e]) ==> r == Parsed(Bad(ExpectCRLF), e, l.(version := v)))
      && (e + 1 == |d| && IsSP(d[e]) ==> r == Parsed(Bad(InvalidRequestLine), e, l.(version := v)))
  {
    VersionReads(d, i, v, l.version);
  }

  // --- Response lines

  /** After the version of a response: blanks to the end of the stream are an EAGAIN, and a code must be a number. */
  lemma CodeIsExpected(d: string, i: nat, v: Version, j: nat, was: ResponseLine)
    requires VersionOk(v) && At(d, i, VersionText(v)) && i + |VersionText(v)| < |d|
    requires var e := i + |VersionText(v)|; e < j && Blanks(d, e, j) && (j < |d| ==> !IsSP(d[j]) && !IsDigit(d[j]))
    ensures ParseResponseLine(d, i, was) ==
            Parsed(if j < |d| then Bad(ExpectingUnsignedInt) else Again, if j < |d| then j else |d| - 1,
                   was.(version := v))
  {
    VersionReads(d, i, v, was.version);
    SkipsBlanks(d, i + |VersionText(v)|, j);
  }

  lemma {:induction false} NoCR(d: string, i: nat)
    requires i < |d| && forall k :: i <= k < |d| ==> d[k] != CR
    ensures SkipToCR(d, i) == Parsed(Again, |d| - 1, ())
    decreases |d| - i
  {
    if i + 1 < |d| { NoCR(d, i + 1); }
  }

  /** A reason phrase that the stream ends in is an EAGAIN, with version and code read. */
  lemma ReasonIsCut(d: string, i: nat, l: ResponseLine, was: ResponseLine)
    requires ResponseLineOk(l) && At(d, i, VersionText(l.version) + " " + Decimal(l.code) + " ")
    requires forall k :: i <= k < |d| ==> d[k] != CR
    ensures i < |d| && ParseResponseLine(d, i, was) == Parsed(Again, |d| - 1, l)
  {
    var version, code := VersionText(l.version), Decimal(l.code);
    var c := i + |version| + 1;
    AtSplit(d, i, version + " " + code, " ");
    AtSplit(d, i, version + " ", code);
    AtSplit(d, i, version, " ");
    AtHead(d, c - 1, " ");
    AtHead(d, c + |code|, " ");
    CodeReads(d, c, l.code);
    VersionReads(d, i, l.version, was.version);
    assert EatSpace(d, c - 1) == Parsed(Ok, c, ());
    NoCR(d, c + |code|);
  }

  // --- Messages

  /** Blanks before the first header do not count. */
  lemma BlanksBeforeHeaders(d: string, i: nat, j: nat, r: Request, s: Response)
    requires i < |d| && Blanks(d, i, j) && j < |d| && !IsSP(d[j])
    ensures RequestWithHeaders(d, i, r) == RequestWithHeaders(d, j, r)
    ensures ResponseWithHeaders(d, i, s) == ResponseWithHeaders(d, j, s)
  {
    SkipsBlanks(d, i, j);
    SkipsBlanks(d, j, j);
  }

  /** A malformed header section ends the parse there; the headers read before it count. */
  lemma RequestHeadersFail(d: string, l: RequestLine, key: string, was: Request)
    requires RequestLineOk(l) && AllToken(key) && key != "" && At(d, 0, RequestLineText(l) + key)
    requires var j := |RequestLineText(l)| + |key|; j < |d| && !IsTokenChar(d[j]) && !IsSP(d[j]) && d[j] != ':'
    ensures ParseRequest(d, 0, was) ==
            Parsed(Bad(ExpectingHeaderColon), |RequestLineText(l)| + |key|, was.(line := l))
  {
    var i := |RequestLineText(l)|;
    AtSplit(d, 0, RequestLineText(l), key);
    AtHead(d, i, key);
    assert ParseRequestLine(d, 0, was.line) == Parsed(Ok, i, l) by { RequestLineReads(d, 0, l, was.line); }
    SkipsBlanks(d, i, i);
    ColonIsExpected(d, i, key, was.headers);
  }

  /** What a failing header section has read is kept. */
  lemma HeadersKept(d: string, i: nat, r: Request, s: Response)
    requires i < |d| && !IsSP(d[i])
    ensures var h := HeaderLines(d, i, r.headers);
      h.result != Ok ==> RequestWithHeaders(d, i, r) == Parsed(h.result, h.pos, r.(headers := h.value))
    ensures var h := HeaderLines(d, i, s.headers);
      h.result != Ok ==> ResponseWithHeaders(d, i, s) == Parsed(h.result, h.pos, s.(headers := h.value))
  {
    SkipsBlanks(d, i, i);
  }

  // --- Chunks

  lemma NoChunkSize(d: string, i: nat, body: string)
    requires i < |d| && !IsXDigit(d[i])
    ensures Chunks(d, i, body) == Parsed(Bad(InvalidChunkHex), i, body)
  {
  }

  lemma {:induction false} TakeRunsOut(d: string, i: nat, n: nat, body: string)
    requires i < |d| && n >= |d| - i
    ensures Take(d, i, n, body) == Parsed(Again, |d| - 1, body + d[i..])
    decreases |d| - i
  {
    if i + 1 < |d| {
      TakeRunsOut(d, i + 1, n - 1, body + [d[i]]);
      assert body + [d[i]] + d[i + 1..] == body + d[i..];
    } else {
      assert d[i..] == [d[i]];
    }
  }

  /** A chunk that the stream ends in is an EAGAIN, with what was there of it appended. */
  lemma ChunkIsCut(d: string, i: nat, hex: string, n: nat, body: string)
    requires SizeIs(hex, n) && n > 0 && At(d, i, hex) && At(d, i + |hex|, CRLF)
    requires var j := i + |hex| + 2; j < |d| && n >= |d| - j
    ensures Chunks(d, i, body) == Parsed(Again, |d| - 1, body + d[i + |hex| + 2..])
  {
    SizeIsStored(hex, n);
    ChunkSizeReads(d, i, hex, n);
    TakeRunsOut(d, i + |hex| + 2, n, body);
  }

  /** A chunk that is longer than its size says is refused, with the octets of the size appended. */
  lemma ChunkIsLonger(d: string, i: nat, hex: string, data: string, body: string)
    requires data != "" && SizeIs(hex, |data|) && At(d, i, hex) && At(d, i + |hex|, CRLF) && At(d, i + |hex| + 2, data)
    requires var j := i + |hex| + 2 + |data|; j < |d| && d[j] != CR
    ensures Chunks(d, i, body) == Parsed(Bad(ExpectCRLF), i + |hex| + 2 + |data|, body + data)
  {
    SizeIsStored(hex, |data|);
    ChunkSizeReads(d, i, hex, |data|);
    TakeReads(d, i + |hex| + 2, data, body);
  }
}
