/** Header fields: parseFieldValue, addHeader and parseHeaders, and what printing and parsing them preserves. */
module HttpHeaders {
  import opened Ctype
  import opened HttpScanning

  type Headers = map<string, string>

  datatype FieldState = Start | Reading | AfterCR | AfterSP

  /** parseFieldValue from a state of its automaton. */
  function FieldValue(d: string, i: nat, state: FieldState, acc: string): (r: Parsed<string>)
    requires i < |d|
    ensures i <= r.pos < |d| && r.result != Thrown
    decreases |d| - i, if state == Reading then 0 else 1
  {
    match state
    case Start =>
      if !IsSP(d[i]) then FieldValue(d, i, Reading, acc)
      else if i + 1 < |d| then FieldValue(d, i + 1, Start, acc)
      else Parsed(Bad(InvalidHeaderFieldValue), i, acc)
    case Reading =>
      var acc' := if d[i] == CR || IsSP(d[i]) then acc else acc + [d[i]];
      if i + 1 == |d| then Parsed(Bad(InvalidHeaderFieldValue), i, acc')
      else FieldValue(d, i + 1, if d[i] == CR then AfterCR else if IsSP(d[i]) then AfterSP else Reading, acc')
    case AfterCR =>
      if d[i] != LF then Parsed(Bad(ExpectCRLF), i, acc)
      else if i + 1 == |d| then Parsed(Again, i, acc)
      else if !IsSP(d[i + 1]) then Parsed(Ok, i + 1, acc)
      else if i + 2 < |d| then FieldValue(d, i + 2, AfterSP, acc)
      else Parsed(Bad(InvalidHeaderFieldValue), i + 1, acc)
    case AfterSP =>
      if !IsSP(d[i]) then FieldValue(d, i, Reading, acc + " ")
      else if i + 1 < |d| then FieldValue(d, i + 1, AfterSP, acc)
      else Parsed(Bad(InvalidHeaderFieldValue), i, acc)
  }

  /** addHeader: a repeated key joins its values with a comma. */
  function AddHeader(h: Headers, key: string, value: string): Headers {
    if key in h then h[key := h[key] + "," + value] else h[key := value]
  }

  function Lower(s: string): (r: string)
    ensures |r| == |s|
  {
    seq(|s|, i requires 0 <= i < |s| => ToLower(s[i]))
  }

  /** One round of parseHeaders: a header line and any white space after it. */
  function HeaderField(d: string, i: nat, h: Headers): (r: Parsed<Headers>)
    requires i < |d|
    ensures i <= r.pos < |d| && (r.result == Ok ==> i < r.pos)
  {
    var key := Token(d, i, "");
    if key.result != Ok then Parsed(key.result, key.pos, h)
    else
      var colon := EatSpace(d, key.pos);
      if colon.result != Ok then Parsed(colon.result, colon.pos, h)
      else if d[colon.pos] != ':' then Parsed(Bad(ExpectingHeaderColon), colon.pos, h)
      else if colon.pos + 1 == |d| then Parsed(Again, colon.pos, h)
      else
        var value := FieldValue(d, colon.pos + 1, Start, "");
        if value.result != Ok && value.result != Again then Parsed(value.result, value.pos, h)
        else
          var next := EatSpace(d, value.pos);
          Parsed(next.result, next.pos, AddHeader(h, Lower(key.value), value.value))
  }

  /** parseHeaders after its first eatSpace, with h the headers so far; a success ends at the LF of the empty line. */
  function HeaderLines(d: string, i: nat, h: Headers): (r: Parsed<Headers>)
    requires i < |d|
    ensures i <= r.pos < |d|
    decreases |d| - i
  {
    var field := HeaderField(d, i, h);
    if field.result != Ok then field
    else if d[field.pos] != CR then HeaderLines(d, field.pos, field.value)
    else if field.pos + 1 == |d| then field.(result := Again)
    else if d[field.pos + 1] != LF then Parsed(Bad(InvalidHeaderListEnd), field.pos + 1, field.value)
    else Parsed(Ok, field.pos + 1, field.value)
  }

  // --- The value that comes back

  function TrimSP(v: string): (r: string)
    ensures |r| <= |v| && (r != "" ==> !IsSP(r[0]))
    ensures v != "" && IsSP(v[0]) ==> |r| < |v|
    ensures CR !in v ==> CR !in r
  {
    if v != "" && IsSP(v[0]) then TrimSP(v[1..]) else v
  }

  /** Every run of spaces and tabs as one space. */
  function Squeeze(v: string): (r: string)
    decreases |v|
  {
    if v == "" then ""
    else if IsSP(v[0]) then " " + Squeeze(TrimSP(v[1..]))
    else [v[0]] + Squeeze(v[1..])
  }

  predicate NoDoubleSpace(v: string) { forall i :: 0 < i < |v| ==> !(v[i - 1] == ' ' && v[i] == ' ') }

  /** No tab, no leading space and no two spaces in a row. */
  predicate Spaced(v: string) {
    && '\t' !in v
    && (v != "" ==> v[0] != ' ')
    && NoDoubleSpace(v)
  }

  /** The values that survive being printed and parsed. */
  predicate Canonical(v: string) { CR !in v && Spaced(v) }

  /** What the automaton makes of the CR-free text v, from each of its states. */
  function Kept(state: FieldState, v: string): string {
    match state
    case Reading => Squeeze(v)
    case AfterSP => " " + Squeeze(TrimSP(v))
    case _ => Squeeze(TrimSP(v))
  }

  /** A text without CR, and then a CR. */
  predicate TextAt(d: string, i: nat, v: string) {
    CR !in v && At(d, i, v) && i + |v| < |d| && d[i + |v|] == CR
  }

  /** A step of the automaton on the first character of the value. */
  lemma FieldValueStep(d: string, i: nat, state: FieldState, acc: string)
    requires state != AfterCR && i + 1 < |d| && d[i] != CR
    ensures FieldValue(d, i, state, acc) ==
            if IsSP(d[i]) then FieldValue(d, i + 1, if state == Reading then AfterSP else state, acc)
            else if state == Reading then FieldValue(d, i + 1, Reading, acc + [d[i]])
            else FieldValue(d, i, Reading, if state == Start then acc else acc + " ")
  {
  }

  /** What that step keeps of the value. */
  lemma KeptStep(state: FieldState, v: string, acc: string)
    requires v != "" && state != AfterCR
    ensures acc + Kept(state, v) ==
            if IsSP(v[0]) then acc + Kept(if state == Reading then AfterSP else state, v[1..])
            else if state == Reading then acc + [v[0]] + Squeeze(v[1..])
            else (if state == Start then acc else acc + " ") + Squeeze(v)
  {
  }

  /** After its first character the text is still one. */
  lemma TextTail(d: string, i: nat, v: string)
    requires TextAt(d, i, v) && v != ""
    ensures i + 1 < |d| && d[i] == v[0] && v[0] != CR && TextAt(d, i + 1, v[1..])
  {
    AtHead(d, i, v);
  }

  /** The automaton comes from the octet at i, in the given state, to the CR after v, with what is kept of v. */
  ghost predicate TextReads(d: string, i: nat, state: FieldState, v: string, acc: string) {
    i + |v| < |d| && FieldValue(d, i, state, acc) == FieldValue(d, i + |v|, Reading, acc + Kept(state, v))
  }

  lemma TextEnds(d: string, i: nat, state: FieldState, acc: string)
    requires state != AfterCR && i < |d| && d[i] == CR
    ensures TextReads(d, i, state, "", acc)
  {
    assert Kept(state, "") == if state == AfterSP then " " else "";
    assert acc + "" == acc;
  }

  lemma TextBlank(d: string, i: nat, state: FieldState, v: string, acc: string)
    requires state != AfterCR && TextAt(d, i, v) && v != "" && IsSP(v[0])
    requires TextReads(d, i + 1, if state == Reading then AfterSP else state, v[1..], acc)
    ensures TextReads(d, i, state, v, acc)
  {
    TextTail(d, i, v);
    FieldValueStep(d, i, state, acc);
    KeptStep(state, v, acc);
  }

  lemma TextOctet(d: string, i: nat, v: string, acc: string)
    requires TextAt(d, i, v) && v != "" && !IsSP(v[0]) && TextReads(d, i + 1, Reading, v[1..], acc + [v[0]])
    ensures TextReads(d, i, Reading, v, acc)
  {
    TextTail(d, i, v);
    FieldValueStep(d, i, Reading, acc);
    KeptStep(Reading, v, acc);
  }

  lemma TextWord(d: string, i: nat, state: FieldState, v: string, acc: string)
    requires state != AfterCR && state != Reading && TextAt(d, i, v) && v != "" && !IsSP(v[0])
    requires TextReads(d, i, Reading, v, if state == Start then acc else acc + " ")
    ensures TextReads(d, i, state, v, acc)
  {
    TextTail(d, i, v);
    FieldValueStep(d, i, state, acc);
    KeptStep(state, v, acc);
  }

  lemma {:induction false} FieldTextReads(d: string, i: nat, state: FieldState, v: string, acc: string)
    requires state != AfterCR && TextAt(d, i, v)
    ensures TextReads(d, i, state, v, acc)
    decreases |v|, if state == Reading then 0 else 1
  {
    if v == "" {
      TextEnds(d, i, state, acc);
    } else if IsSP(v[0]) {
      TextTail(d, i, v);
      FieldTextReads(d, i + 1, if state == Reading then AfterSP else state, v[1..], acc);
      TextBlank(d, i, state, v, acc);
    } else if state == Reading {
      TextTail(d, i, v);
      FieldTextReads(d, i + 1, Reading, v[1..], acc + [v[0]]);
      TextOctet(d, i, v, acc);
    } else {
      FieldTextReads(d, i, Reading, v, if state == Start then acc else acc + " ");
      TextWord(d, i, state, v, acc);
    }
  }

  /** A text without CR, then CRLF and an octet that is no space. */
  predicate FieldAt(d: string, i: nat, v: string) {
    CR !in v && At(d, i, v) && At(d, i + |v|, CRLF) && i + |v| + 2 < |d| && !IsSP(d[i + |v| + 2])
  }

  /** What the automaton does at the CR after a text. */
  lemma AtCR(d: string, i: nat, acc: string)
    requires i < |d| && d[i] == CR
    ensures FieldValue(d, i, Reading, acc) ==
            if i + 1 == |d| then Parsed(Bad(InvalidHeaderFieldValue), i, acc)
            else if d[i + 1] != LF then Parsed(Bad(ExpectCRLF), i + 1, acc)
            else if i + 2 == |d| then Parsed(Again, i + 1, acc)
            else if !IsSP(d[i + 2]) then Parsed(Ok, i + 2, acc)
            else if i + 3 == |d| then Parsed(Bad(InvalidHeaderFieldValue), i + 2, acc)
            else FieldValue(d, i + 3, AfterSP, acc)
  {
    if i + 1 < |d| {
      assert FieldValue(d, i, Reading, acc) == FieldValue(d, i + 1, AfterCR, acc);
    }
  }

  /** A field value is its text with each run of blanks as one space. */
  lemma FieldValueReads(d: string, i: nat, state: FieldState, v: string, acc: string)
    requires state != AfterCR && FieldAt(d, i, v)
    ensures FieldValue(d, i, state, acc) == Parsed(Ok, i + |v| + 2, acc + Kept(state, v))
  {
    AtTwo(d, i + |v|, CR, LF);
    FieldTextReads(d, i, state, v, acc);
    AtCR(d, i + |v|, acc + Kept(state, v));
  }

  /** A line that goes on after CRLF and blanks: they count as one space. */
  lemma FoldedReads(d: string, i: nat, v: string, w: string)
    requires CR !in v && At(d, i, v) && At(d, i + |v|, CRLF)
    requires var j := i + |v| + 2; j < |d| && IsSP(d[j]) && FieldAt(d, j + 1, w)
    ensures FieldValue(d, i, Start, "") == Parsed(Ok, i + |v| + 3 + |w| + 2, Kept(Start, v) + " " + Squeeze(TrimSP(w)))
  {
    var acc := Kept(Start, v);
    assert "" + acc == acc;
    AtTwo(d, i + |v|, CR, LF);
    FieldTextReads(d, i, Start, v, "");
    AtCR(d, i + |v|, acc);
    FieldValueReads(d, i + |v| + 3, AfterSP, w, acc);
    assert acc + (" " + Squeeze(TrimSP(w))) == acc + " " + Squeeze(TrimSP(w));
  }

  /** A value that is cut short, or whose CR has no LF, is refused; one that ends with the stream is an EAGAIN. */
  lemma FieldValueCut(d: string, i: nat, v: string)
    requires TextAt(d, i, v)
    ensures var j, r := i + |v|, FieldValue(d, i, Start, "");
      && (j + 1 == |d| ==> r == Parsed(Bad(InvalidHeaderFieldValue), j, Kept(Start, v)))
      && (j + 1 < |d| && d[j + 1] != LF ==> r == Parsed(Bad(ExpectCRLF), j + 1, Kept(Start, v)))
      && (j + 2 == |d| && d[j + 1] == LF ==> r == Parsed(Again, j + 1, Kept(Start, v)))
  {
    var acc := Kept(Start, v);
    assert "" + acc == acc;
    FieldTextReads(d, i, Start, v, "");
    AtCR(d, i + |v|, acc);
  }

  /** A value without any CR up to the end of the stream is refused. */
  lemma {:induction false} FieldValueEndless(d: string, i: nat, state: FieldState, acc: string)
    requires i < |d| && state != AfterCR && CR !in d[i..]
    ensures FieldValue(d, i, state, acc).result == Bad(InvalidHeaderFieldValue)
    decreases |d| - i, if state == Reading then 0 else 1
  {
    assert d[i] == d[i..][0];
    if i + 1 == |d| {
    } else if IsSP(d[i]) {
      assert d[i + 1..] == d[i..][1..];
      FieldValueEndless(d, i + 1, if state == Reading then AfterSP else state, acc);
      FieldValueStep(d, i, state, acc);
    } else if state == Reading {
      assert d[i + 1..] == d[i..][1..];
      FieldValueEndless(d, i + 1, Reading, acc + [d[i]]);
      FieldValueStep(d, i, state, acc);
    } else {
      FieldValueEndless(d, i, Reading, if state == Start then acc else acc + " ");
      FieldValueStep(d, i, state, acc);
    }
  }

  /** Whatever the octets, what parseFieldValue collects has no CR and no tab. */
  lemma {:induction false} FieldValueClean(d: string, i: nat, state: FieldState, acc: string)
    requires i < |d| && CR !in acc && '\t' !in acc
    ensures var v := FieldValue(d, i, state, acc).value; CR !in v && '\t' !in v
    decreases |d| - i, if state == Reading then 0 else 1
  {
    match state
    case Start =>
      if !IsSP(d[i]) {
        FieldValueClean(d, i, Reading, acc);
      } else if i + 1 < |d| {
        FieldValueClean(d, i + 1, Start, acc);
      }
    case Reading =>
      var acc' := if d[i] == CR || IsSP(d[i]) then acc else acc + [d[i]];
      if i + 1 < |d| {
        FieldValueClean(d, i + 1, if d[i] == CR then AfterCR else if IsSP(d[i]) then AfterSP else Reading, acc');
      }
    case AfterCR =>
      if i + 2 < |d| {
        FieldValueClean(d, i + 2, AfterSP, acc);
      }
    case AfterSP =>
      if !IsSP(d[i]) {
        FieldValueClean(d, i, Reading, acc + " ");
      } else if i + 1 < |d| {
        FieldValueClean(d, i + 1, AfterSP, acc);
      }
  }

  /** Squeezing leaves alone exactly the texts without tabs or double spaces. */
  lemma {:induction false} SqueezeFixed(v: string)
    ensures |Squeeze(v)| <= |v|
    ensures Squeeze(v) == v <==> '\t' !in v && NoDoubleSpace(v)
    decreases |v|
  {
    if v == "" {
    } else if IsSP(v[0]) {
      var rest := TrimSP(v[1..]);
      SqueezeFixed(rest);
      if |v| > 1 && IsSP(v[1]) {
        assert |Squeeze(v)| < |v|;
        assert v[1] == ' ' || v[1] == '\t';
      } else {
        assert rest == v[1..];
        assert v == [v[0]] + rest;
        assert Squeeze(v)[1..] == Squeeze(rest);
        SqueezeTail(v);
      }
    } else {
      SqueezeFixed(v[1..]);
      assert v == [v[0]] + v[1..];
      assert Squeeze(v)[1..] == Squeeze(v[1..]);
      SqueezeTail(v);
    }
  }

  /** Tabs and double spaces of a text are at its front or in its tail. */
  lemma SqueezeTail(v: string)
    requires v != ""
    ensures '\t' in v <==> v[0] == '\t' || '\t' in v[1..]
    ensures NoDoubleSpace(v) <==> (|v| > 1 ==> !(v[0] == ' ' && v[1] == ' ')) && NoDoubleSpace(v[1..])
  {
    if NoDoubleSpace(v[1..]) {
      forall i | 1 < i < |v|
        ensures !(v[i - 1] == ' ' && v[i] == ' ')
      {
        assert v[i] == v[1..][i - 1];
      }
    }
  }

  lemma KeptFixed(v: string)
    ensures Kept(Start, v) == v <==> Spaced(v)
  {
    if v != "" && IsSP(v[0]) {
      SqueezeFixed(TrimSP(v));
    } else {
      SqueezeFixed(v);
    }
  }

  /** A field value printed before CRLF and a next line comes back exactly when it is canonical. */
  lemma FieldValueRoundTrip(d: string, i: nat, v: string)
    requires At(d, i, v) && At(d, i + |v|, CRLF) && i + |v| + 2 < |d| && !IsSP(d[i + |v| + 2])
    ensures (FieldValue(d, i, Start, "").result == Ok && FieldValue(d, i, Start, "").value == v) <==> Canonical(v)
    ensures Canonical(v) ==> FieldValue(d, i, Start, "") == Parsed(Ok, i + |v| + 2, v)
  {
    if CR in v {
      FieldValueClean(d, i, Start, "");
    } else {
      FieldValueReads(d, i, Start, v, "");
      assert "" + Kept(Start, v) == Kept(Start, v);
      KeptFixed(v);
    }
  }

  // --- Whole header sections

  /** A key that parses back to itself: token characters, none in upper case. */
  predicate KeyOk(k: string) { forall i :: 0 <= i < |k| ==> IsTokenChar(k[i]) && ToLower(k[i]) == k[i] }

  predicate HeadersOk(h: Headers) { forall k :: k in h ==> KeyOk(k) && Canonical(h[k]) }

  function HeaderLine(k: string, v: string): string { k + ": " + v + CRLF }

  /** The header lines, in the order given. */
  function HeaderText(order: seq<string>, h: Headers): string
    requires forall k :: k in order ==> k in h
  {
    if order == [] then "" else HeaderLine(order[0], h[order[0]]) + HeaderText(order[1..], h)
  }

  predicate Distinct(order: seq<string>) { forall i, j :: 0 <= i < j < |order| ==> order[i] != order[j] }

  /** The order in which a map is iterated: every key once. std::map uses the sorted one. */
  ghost predicate Enumerates(order: seq<string>, h: Headers) {
    Distinct(order) && forall k :: k in order <==> k in h
  }

  /** Headers whose lines are read as lines: the keys are fit, and no value has a CR. */
  predicate Printable(h: Headers) { forall k :: k in h ==> KeyOk(k) && CR !in h[k] }

  /** What the parser makes of the values. */
  function Keeps(h: Headers): (r: Headers)
    ensures r.Keys == h.Keys
  {
    map k | k in h :: Kept(Start, h[k])
  }

  lemma FieldValueAfterColon(d: string, i: nat, v: string)
    requires CR !in v && i < |d| && d[i] == ' ' && FieldAt(d, i + 1, v)
    ensures FieldValue(d, i, Start, "") == Parsed(Ok, i + 1 + |v| + 2, Kept(Start, v))
  {
    assert FieldValue(d, i, Start, "") == FieldValue(d, i + 1, Start, "");
    FieldValueReads(d, i + 1, Start, v, "");
    assert "" + Kept(Start, v) == Kept(Start, v);
  }

  /** A line adds its header, under the key in lower case, and leaves the parser at the line after it. */
  lemma HeaderFieldReads(d: string, i: nat, k: string, v: string, h: Headers)
    requires AllToken(k) && CR !in v && At(d, i, HeaderLine(k, v))
    requires var e := i + |HeaderLine(k, v)|; e < |d| && !IsSP(d[e])
    ensures HeaderField(d, i, h) == Parsed(Ok, i + |HeaderLine(k, v)|, AddHeader(h, Lower(k), Kept(Start, v)))
  {
    var c := i + |k|;
    assert At(d, i, k) && At(d, c, ": ") && At(d, c + 2, v) && At(d, c + 2 + |v|, CRLF) by {
      AtSplit(d, i, k + ": " + v, CRLF);
      AtSplit(d, i, k + ": ", v);
      AtSplit(d, i, k, ": ");
    }
    AtTwo(d, c, ':', ' ');
    assert Token(d, i, "") == Parsed(Ok, c, k) by {
      TokenReads(d, i, k, "");
      assert "" + k == k;
    }
    assert FieldValue(d, c + 1, Start, "") == Parsed(Ok, i + |HeaderLine(k, v)|, Kept(Start, v)) by {
      FieldValueAfterColon(d, c + 1, v);
    }
  }

  lemma HeaderLinesStep(d: string, i: nat, k: string, v: string, h: Headers)
    requires AllToken(k) && CR !in v && At(d, i, HeaderLine(k, v))
    requires var e := i + |HeaderLine(k, v)|; e < |d| && !IsSP(d[e]) && (d[e] == CR ==> e + 1 < |d| && d[e + 1] == LF)
    ensures var e, h' := i + |HeaderLine(k, v)|, AddHeader(h, Lower(k), Kept(Start, v));
      HeaderLines(d, i, h) == if d[e] == CR then Parsed(Ok, e + 1, h') else HeaderLines(d, e, h')
  {
    HeaderFieldReads(d, i, k, v, h);
  }

  /** addHeader for the keys in turn. */
  function AddAll(order: seq<string>, h: Headers, before: Headers): Headers
    requires forall k :: k in order ==> k in h
  {
    if order == [] then before else AddAll(order[1..], h, AddHeader(before, order[0], h[order[0]]))
  }

  /** The header lines stand one after the other from i on, and the empty line at e. */
  ghost predicate LinesAt(d: string, i: nat, order: seq<string>, h: Headers, e: nat)
    requires forall k :: k in order ==> k in h
    decreases |order|
  {
    if order == [] then i == e && At(d, e, CRLF)
    else
      var line := HeaderLine(order[0], h[order[0]]);
      At(d, i, line) && LinesAt(d, i + |line|, order[1..], h, e)
  }

  lemma {:induction false} LinesStand(d: string, i: nat, order: seq<string>, h: Headers)
    requires forall k :: k in order ==> k in h
    requires At(d, i, HeaderText(order, h)) && At(d, i + |HeaderText(order, h)|, CRLF)
    ensures LinesAt(d, i, order, h, i + |HeaderText(order, h)|)
    decreases |order|
  {
    if order != [] {
      var line := HeaderLine(order[0], h[order[0]]);
      AtSplit(d, i, line, HeaderText(order[1..], h));
      LinesStand(d, i + |line|, order[1..], h);
    }
  }

  /** What stands where the next line begins: a key character or its colon, or the empty line. */
  lemma LineStart(d: string, i: nat, order: seq<string>, h: Headers, e: nat)
    requires Printable(h) && (forall k :: k in order ==> k in h) && LinesAt(d, i, order, h, e)
    ensures i < |d| && !IsSP(d[i])
    ensures if order == [] then i + 1 < |d| && d[i] == CR && d[i + 1] == LF else d[i] != CR
  {
    if order == [] {
      AtTwo(d, i, CR, LF);
    } else {
      var k := order[0];
      AtHead(d, i, HeaderLine(k, h[k]));
      assert HeaderLine(k, h[k])[0] == if k == "" then ':' else k[0];
    }
  }

  lemma {:induction false} HeaderLinesRead(d: string, i: nat, order: seq<string>, h: Headers, before: Headers, e: nat)
    requires order != [] && Printable(h) && (forall k :: k in order ==> k in h) && LinesAt(d, i, order, h, e)
    ensures i < |d| && HeaderLines(d, i, before) == Parsed(Ok, e + 1, AddAll(order, Keeps(h), before))
    decreases |order|
  {
    var k, rest := order[0], order[1..];
    var j := i + |HeaderLine(k, h[k])|;
    LineStart(d, i, order, h, e);
    LineStart(d, j, rest, h, e);
    HeaderLinesStep(d, i, k, h[k], before);
    assert Lower(k) == k;
    if rest != [] {
      HeaderLinesRead(d, j, rest, h, AddHeader(before, k, Keeps(h)[k]), e);
    }
  }

  lemma {:induction false} AddAllIs(order: seq<string>, h: Headers, before: Headers)
    requires Distinct(order) && forall k :: k in order ==> k in h && k !in before
    ensures forall k :: k in AddAll(order, h, before) <==> k in before || k in order
    ensures forall k :: k in before ==> AddAll(order, h, before)[k] == before[k]
    ensures forall k :: k in order ==> AddAll(order, h, before)[k] == h[k]
    decreases |order|
  {
    if order != [] {
      var after := before[order[0] := h[order[0]]];
      assert forall k :: k in order <==> k == order[0] || k in order[1..];
      assert forall k :: k in order[1..] ==> k !in after;
      AddAllIs(order[1..], h, after);
    }
  }

  lemma LinesRead(d: string, i: nat, order: seq<string>, h: Headers, e: nat)
    requires Enumerates(order, h) && h != map[] && Printable(h) && LinesAt(d, i, order, h, e)
    ensures i < |d| && !IsSP(d[i]) && d[i] != CR
    ensures HeaderLines(d, i, map[]) == Parsed(Ok, e + 1, Keeps(h))
  {
    AddAllKeeps(order, h);
    LineStart(d, i, order, h, e);
    HeaderLinesRead(d, i, order, h, map[], e);
  }

  /** Printed header lines are read as the same keys, each with what is kept of its value. */
  lemma HeadersRead(d: string, i: nat, order: seq<string>, h: Headers, e: nat)
    requires Enumerates(order, h) && h != map[] && Printable(h)
    requires At(d, i, HeaderText(order, h)) && e == i + |HeaderText(order, h)| && At(d, e, CRLF)
    ensures i < |d| && !IsSP(d[i]) && d[i] != CR
    ensures HeaderLines(d, i, map[]) == Parsed(Ok, e + 1, Keeps(h))
  {
    assert LinesAt(d, i, order, h, e) by { LinesStand(d, i, order, h); }
    LinesRead(d, i, order, h, e);
  }

  lemma AddAllKeeps(order: seq<string>, h: Headers)
    requires Enumerates(order, h) && h != map[]
    ensures order != [] && AddAll(order, Keeps(h), map[]) == Keeps(h)
  {
    var k :| k in h;
    assert k in order;
    AddAllIs(order, Keeps(h), map[]);
  }

  /** The values are all kept as they are exactly when none has a tab, a leading or a double space. */
  lemma KeepsFixed(h: Headers)
    ensures Keeps(h) == h <==> forall k :: k in h ==> Spaced(h[k])
  {
    forall k | k in h
      ensures Keeps(h)[k] == h[k] <==> Spaced(h[k])
    {
      KeptFixed(h[k]);
    }
  }

  // --- Whatever the stream, the headers parsed are printable and have no tab

  predicate NoTabs(h: Headers) { forall k :: k in h ==> '\t' !in h[k] }

  lemma LowerIsKey(t: string)
    requires AllToken(t)
    ensures KeyOk(Lower(t))
  {
  }

  lemma AddHeaderClean(h: Headers, k: string, v: string)
    requires Printable(h) && NoTabs(h) && KeyOk(k) && CR !in v && '\t' !in v
    ensures Printable(AddHeader(h, k, v)) && NoTabs(AddHeader(h, k, v))
  {
  }

  lemma HeaderFieldClean(d: string, i: nat, h: Headers)
    requires i < |d| && Printable(h) && NoTabs(h)
    ensures Printable(HeaderField(d, i, h).value) && NoTabs(HeaderField(d, i, h).value)
  {
    var key := Token(d, i, "");
    TokenDelivers(d, i, "");
    LowerIsKey(key.value);
    var colon := EatSpace(d, key.pos);
    if colon.pos + 1 < |d| {
      var value := FieldValue(d, colon.pos + 1, Start, "");
      FieldValueClean(d, colon.pos + 1, Start, "");
      AddHeaderClean(h, Lower(key.value), value.value);
    }
  }

  lemma {:induction false} HeaderLinesClean(d: string, i: nat, h: Headers)
    requires i < |d| && Printable(h) && NoTabs(h)
    ensures Printable(HeaderLines(d, i, h).value) && NoTabs(HeaderLines(d, i, h).value)
    decreases |d| - i
  {
    var field := HeaderField(d, i, h);
    HeaderFieldClean(d, i, h);
    if field.result == Ok && d[field.pos] != CR {
      HeaderLinesClean(d, field.pos, field.value);
    }
  }

  /** A header section printed in any order of its keys, before the empty line, comes back if and only if there is a
      header, the keys are lower-case tokens and the values are canonical. */
  lemma HeadersRoundTrip(d: string, i: nat, order: seq<string>, h: Headers)
    requires Enumerates(order, h)
    requires At(d, i, HeaderText(order, h)) && At(d, i + |HeaderText(order, h)|, CRLF)
    ensures i < |d|
    ensures var r := HeaderLines(d, i, map[]);
      (r.result == Ok && r.value == h) <==> h != map[] && HeadersOk(h)
  {
    AtTwo(d, i + |HeaderText(order, h)|, CR, LF);
    HeaderLinesClean(d, i, map[]);
    KeepsFixed(h);
    if h == map[] {
      assert order == [];
      NoHeadersFail(d, i);
    } else if Printable(h) {
      HeadersRead(d, i, order, h, i + |HeaderText(order, h)|);
    }
  }

  lemma NoHeadersFail(d: string, i: nat)
    requires i < |d| && d[i] == CR
    ensures HeaderLines(d, i, map[]).result == Bad(ExpectingHeaderColon)
  {
    assert Token(d, i, "") == Parsed(Ok, i, "");
    assert EatSpace(d, i) == Parsed(Ok, i, ());
  }
}
