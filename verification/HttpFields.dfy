/** Header lines as a client may write them: keys in any case, repeated keys, malformed lines. */
module HttpFields {
  import opened HttpHeaders
  import opened HttpScanning

  datatype Field = Field(key: string, value: string)

  predicate FieldsOk(fields: seq<Field>) {
    forall i :: 0 <= i < |fields| ==> AllToken(fields[i].key) && CR !in fields[i].value
  }

  function FieldText(fields: seq<Field>): string {
    if fields == [] then "" else HeaderLine(fields[0].key, fields[0].value) + FieldText(fields[1..])
  }

  /** What is kept of the values given under a key, whatever the case it was written in, in order. */
  function Under(fields: seq<Field>, key: string): seq<string> {
    if fields == [] then []
    else (if Lower(fields[0].key) == key then [Kept(Start, fields[0].value)] else []) + Under(fields[1..], key)
  }

  /** Values with commas between them, after a first one. */
  function Joined(first: string, more: seq<string>): string
    decreases |more|
  {
    if more == [] then first else Joined(first + "," + more[0], more[1..])
  }

  function AddFields(fields: seq<Field>, before: Headers): Headers {
    if fields == [] then before
    else AddFields(fields[1..], AddHeader(before, Lower(fields[0].key), Kept(Start, fields[0].value)))
  }

  lemma {:induction false} AddFieldsIs(fields: seq<Field>, before: Headers, key: string)
    ensures var h, vs := AddFields(fields, before), Under(fields, key);
      && (key in h <==> key in before || vs != [])
      && (key in before ==> h[key] == Joined(before[key], vs))
      && (key !in before && vs != [] ==> h[key] == Joined(vs[0], vs[1..]))
    decreases |fields|
  {
    if fields != [] {
      var k, v := Lower(fields[0].key), Kept(Start, fields[0].value);
      AddFieldsIs(fields[1..], AddHeader(before, k, v), key);
      if k == key {
        assert Under(fields, key)[1..] == Under(fields[1..], key);
      } else {
        assert Under(fields, key) == Under(fields[1..], key);
      }
    }
  }

  /** The lines stand one after the other from i on, and the empty line at e. */
  predicate FieldsAt(d: string, i: nat, fields: seq<Field>, e: nat)
    decreases |fields|
  {
    if fields == [] then i == e && At(d, e, CRLF)
    else
      var line := HeaderLine(fields[0].key, fields[0].value);
      At(d, i, line) && FieldsAt(d, i + |line|, fields[1..], e)
  }

  lemma {:induction false} FieldsStand(d: string, i: nat, fields: seq<Field>)
    requires At(d, i, FieldText(fields)) && At(d, i + |FieldText(fields)|, CRLF)
    ensures FieldsAt(d, i, fields, i + |FieldText(fields)|)
    decreases |fields|
  {
    if fields != [] {
      var line := HeaderLine(fields[0].key, fields[0].value);
      AtSplit(d, i, line, FieldText(fields[1..]));
      FieldsStand(d, i + |line|, fields[1..]);
    }
  }

  lemma FieldStart(d: string, i: nat, fields: seq<Field>, e: nat)
    requires FieldsOk(fields) && FieldsAt(d, i, fields, e)
    ensures i < |d| && !IsSP(d[i])
    ensures if fields == [] then i + 1 < |d| && d[i] == CR && d[i + 1] == LF else d[i] != CR
  {
    if fields == [] {
      AtTwo(d, i, CR, LF);
    } else {
      var k := fields[0].key;
      var line := HeaderLine(k, fields[0].value);
      AtHead(d, i, line);
      assert line[0] == if k == "" then ':' else k[0];
    }
  }

  lemma {:induction false} FieldsAdd(d: string, i: nat, fields: seq<Field>, before: Headers, e: nat)
    requires fields != [] && FieldsOk(fields) && FieldsAt(d, i, fields, e)
    ensures i < |d| && HeaderLines(d, i, before) == Parsed(Ok, e + 1, AddFields(fields, before))
    decreases |fields|
  {
    var f, rest := fields[0], fields[1..];
    var j := i + |HeaderLine(f.key, f.value)|;
    FieldStart(d, i, fields, e);
    FieldStart(d, j, rest, e);
    HeaderLinesStep(d, i, f.key, f.value, before);
    if rest != [] {
      FieldsAdd(d, j, rest, AddHeader(before, Lower(f.key), Kept(Start, f.value)), e);
    }
  }

  /** Any header lines with token keys and values without CR: a key is stored in lower case, with all the values it was
      given, in order, joined by commas. */
  lemma FieldsRead(d: string, i: nat, fields: seq<Field>, key: string)
    requires fields != [] && FieldsOk(fields)
    requires At(d, i, FieldText(fields)) && At(d, i + |FieldText(fields)|, CRLF)
    ensures i < |d|
    ensures var r, vs := HeaderLines(d, i, map[]), Under(fields, key);
      && r.result == Ok && r.pos == i + |FieldText(fields)| + 1
      && (key in r.value <==> vs != [])
      && (vs != [] ==> r.value[key] == Joined(vs[0], vs[1..]))
  {
    FieldsStand(d, i, fields);
    FieldsAdd(d, i, fields, map[], i + |FieldText(fields)|);
    AddFieldsIs(fields, map[], key);
  }

  /** As in "Content-Length", which is found under "content-length". */
  lemma ContentLengthKey()
    ensures Lower("Content-Length") == "content-length"
  {
  }

  // --- Malformed header sections

  /** A key that no colon follows is refused. */
  lemma ColonIsExpected(d: string, i: nat, key: string, h: Headers)
    requires AllToken(key) && At(d, i, key)
    requires var j := i + |key|; j < |d| && !IsTokenChar(d[j]) && !IsSP(d[j]) && d[j] != ':'
    ensures HeaderLines(d, i, h) == Parsed(Bad(ExpectingHeaderColon), i + |key|, h)
  {
    TokenReads(d, i, key, "");
    assert "" + key == key;
  }

  /** A key that the stream ends in, or its colon, is an EAGAIN. */
  lemma KeyIsCut(d: string, i: nat, key: string, h: Headers)
    requires AllToken(key) && i < |d| && (d[i..] == key || d[i..] == key + ":")
    ensures HeaderLines(d, i, h).result == Again && HeaderLines(d, i, h).value == h
  {
    if d[i..] == key {
      assert forall k :: i <= k < |d| ==> d[k] == key[k - i];
      TokenRunsOut(d, i, "");
    } else {
      assert At(d, i, key + ":");
      AtSplit(d, i, key, ":");
      AtHead(d, i + |key|, ":");
      TokenReads(d, i, key, "");
      assert "" + key == key;
    }
  }

  lemma {:induction false} TokenRunsOut(d: string, i: nat, acc: string)
    requires i < |d| && forall k :: i <= k < |d| ==> IsTokenChar(d[k])
    ensures Token(d, i, acc) == Parsed(Again, |d| - 1, "")
    decreases |d| - i
  {
    if i + 1 < |d| { TokenRunsOut(d, i + 1, acc + [d[i]]); }
  }

  /** After a line, a CR without LF is refused, and a CR that the stream ends in is an EAGAIN; the header counts. */
  lemma ListEndIsExpected(d: string, i: nat, key: string, value: string, h: Headers)
    requires AllToken(key) && CR !in value && At(d, i, HeaderLine(key, value))
    requires var e := i + |HeaderLine(key, value)|; e < |d| && d[e] == CR && (e + 1 < |d| ==> d[e + 1] != LF)
    ensures var e, h' := i + |HeaderLine(key, value)|, AddHeader(h, Lower(key), Kept(Start, value));
      HeaderLines(d, i, h) ==
      if e + 1 == |d| then Parsed(Again, e, h') else Parsed(Bad(InvalidHeaderListEnd), e + 1, h')
  {
    HeaderFieldReads(d, i, key, value, h);
  }

  /** Lines that the stream ends with, before an empty line: the last one counts, and the parser then looks for a colon
      at its LF. */
  lemma EmptyLineIsExpected(d: string, i: nat, key: string, value: string, h: Headers)
    requires AllToken(key) && CR !in value && At(d, i, HeaderLine(key, value)) && i + |HeaderLine(key, value)| == |d|
    ensures HeaderLines(d, i, h) ==
            Parsed(Bad(ExpectingHeaderColon), |d| - 1, AddHeader(h, Lower(key), Kept(Start, value)))
  {
    var c := i + |key|;
    assert At(d, i, key) && At(d, c, ": ") && At(d, c + 2, value) && At(d, c + 2 + |value|, CRLF) by {
      AtSplit(d, i, key + ": " + value, CRLF);
      AtSplit(d, i, key + ": ", value);
      AtSplit(d, i, key, ": ");
    }
    AtTwo(d, c, ':', ' ');
    AtTwo(d, |d| - 2, CR, LF);
    TokenReads(d, i, key, "");
    assert "" + key == key;
    assert FieldValue(d, c + 1, Start, "") == FieldValue(d, c + 2, Start, "");
    FieldValueCut(d, c + 2, value);
    assert HeaderField(d, i, h) == Parsed(Ok, |d| - 1, AddHeader(h, Lower(key), Kept(Start, value)));
    ColonIsExpected(d, |d| - 1, "", AddHeader(h, Lower(key), Kept(Start, value)));
  }

  // --- Blanks

  predicate Blanks(d: string, i: nat, j: nat) { i <= j <= |d| && forall k :: i <= k < j ==> IsSP(d[k]) }

  lemma {:induction false} SkipsBlanks(d: string, i: nat, j: nat)
    requires i < |d| && Blanks(d, i, j) && (j < |d| ==> !IsSP(d[j]))
    ensures EatSpace(d, i) == if j < |d| then Parsed(Ok, j, ()) else Parsed(Again, |d| - 1, ())
    decreases j - i
  {
    if i < j && i + 1 < |d| { SkipsBlanks(d, i + 1, j); }
  }

  /** Blanks between a key and its colon do not count; a stream that ends in them is an EAGAIN. */
  lemma BlanksBeforeColon(d: string, i: nat, key: string, j: nat, h: Headers)
    requires AllToken(key) && At(d, i, key) && i + |key| < |d| && Blanks(d, i + |key|, j) && i + |key| < j
    requires j < |d| ==> d[j] == ':'
    ensures j == |d| ==> HeaderField(d, i, h) == Parsed(Again, |d| - 1, h)
    ensures j + 1 == |d| ==> HeaderField(d, i, h) == Parsed(Again, j, h)
    ensures j + 1 < |d| ==>
      var value := FieldValue(d, j + 1, Start, "");
      value.result == Ok ==>
      HeaderField(d, i, h) == Parsed(EatSpace(d, value.pos).result, EatSpace(d, value.pos).pos,
                                     AddHeader(h, Lower(key), value.value))
  {
    TokenReads(d, i, key, "");
    assert "" + key == key;
    SkipsBlanks(d, i + |key|, j);
  }
}
