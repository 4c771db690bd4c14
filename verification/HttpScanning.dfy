/**
 The scanning functions shared by the HTTP parsers, over a stream d and a position i in it.
 A next() beyond the last octet is refused with EAGAIN and leaves the position where it is.
 */
module HttpScanning {
  import opened Ctype
  import opened Numbers

  const CR: char := '\r'
  const LF: char := '\n'
  const CRLF: string := "\r\n"

  datatype ParseError =
    | ExpectCRLF
    | ExpectingHeaderColon
    | InvalidHeaderFieldValue
    | InvalidHeaderListEnd
    | InvalidMethod
    | InvalidHTTPVersion
    | InvalidRequestLine
    | UnexpectedBody
    | InvalidTransferEncoding
    | InvalidChunkHex
    | ExpectingUnsignedInt

  /** ParseResult; Again is a system error of EAGAIN, Thrown an exception of std::stoul. */
  datatype Result = Ok | Again | Bad(error: ParseError) | Thrown

  /** How a parse ended, where the stream then stands, and what was read. */
  datatype Parsed<+T> = Parsed(result: Result, pos: nat, value: T)

  predicate IsSP(c: char) { c == ' ' || c == '\t' }

  /** A signed char of 31 or less is a control character, which takes in the octets from 128. */
  predicate IsCTL(c: char) { c as int <= 31 || c as int >= 127 }

  predicate IsSeparator(c: char) {
    || c == '(' || c == ')' || c == '<' || c == '>' || c == '@' || c == ',' || c == ';' || c == ':' || c == '\\'
    || c == '"' || c == '/' || c == '[' || c == ']' || c == '?' || c == '=' || c == '{' || c == '}' || IsSP(c)
  }

  predicate IsTokenChar(c: char) { !IsSeparator(c) && !IsCTL(c) }

  function EatSpace(d: string, i: nat): (r: Parsed<()>)
    requires i < |d|
    ensures i <= r.pos < |d|
    ensures r.result == Ok || r.result == Again
    decreases |d| - i
  {
    if !IsSP(d[i]) then Parsed(Ok, i, ())
    else if i + 1 < |d| then EatSpace(d, i + 1)
    else Parsed(Again, i, ())
  }

  /** parseCRLF */
  function Newline(d: string, i: nat): (r: Parsed<()>)
    requires i < |d|
    ensures i <= r.pos < |d| && (r.result == Ok ==> r.pos == i + 2)
  {
    if d[i] != CR then Parsed(Bad(ExpectCRLF), i, ())
    else if i + 1 == |d| then Parsed(Again, i, ())
    else if d[i + 1] != LF then Parsed(Bad(ExpectCRLF), i + 1, ())
    else if i + 2 == |d| then Parsed(Again, i + 1, ())
    else Parsed(Ok, i + 2, ())
  }

  /** parseToken */
  function Token(d: string, i: nat, acc: string): (r: Parsed<string>)
    requires i < |d|
    ensures i <= r.pos < |d| && (r.result == Ok || r.result == Again)
    decreases |d| - i
  {
    if !IsTokenChar(d[i]) then Parsed(Ok, i, acc)
    else if i + 1 < |d| then Token(d, i + 1, acc + [d[i]])
    else Parsed(Again, i, "")
  }

  /** The request line's method and uri: everything up to white space. */
  function Word(d: string, i: nat, acc: string): (r: Parsed<string>)
    requires i < |d|
    ensures i <= r.pos < |d| && (r.result == Ok || r.result == Again)
    decreases |d| - i
  {
    if IsSpace(d[i]) then Parsed(Ok, i, acc)
    else if i + 1 < |d| then Word(d, i + 1, acc + [d[i]])
    else Parsed(Again, i, acc + [d[i]])
  }

  /** The digits parseUInt collects. */
  function Digits(d: string, i: nat, acc: string): (r: Parsed<string>)
    requires i < |d| && AllDigits(acc)
    ensures i <= r.pos < |d| && (r.result == Ok || r.result == Again) && AllDigits(r.value)
    decreases |d| - i
  {
    if !IsDigit(d[i]) then Parsed(Ok, i, acc)
    else if i + 1 < |d| then Digits(d, i + 1, acc + [d[i]])
    else Parsed(Again, i, acc + [d[i]])
  }

  /** parseUInt */
  function UInt(d: string, i: nat): (r: Parsed<nat>)
    requires i < |d|
    ensures i <= r.pos < |d|
  {
    var digits := Digits(d, i, "");
    if digits.value == "" then Parsed(Bad(ExpectingUnsignedInt), digits.pos, 0)
    else Parsed(digits.result, digits.pos, Extract(10, digits.value, UINT_MAX, 0))
  }

  /** The response line's reason phrase: everything up to a CR is skipped. */
  function SkipToCR(d: string, i: nat): (r: Parsed<()>)
    requires i < |d|
    ensures i <= r.pos < |d| && (r.result == Ok || r.result == Again)
    ensures r.result == Ok ==> d[r.pos] == CR
    decreases |d| - i
  {
    if d[i] == CR then Parsed(Ok, i, ())
    else if i + 1 < |d| then SkipToCR(d, i + 1)
    else Parsed(Again, i, ())
  }

  // --- The text t stands in the stream d at position i

  predicate At(d: string, i: nat, t: string) {
    i + |t| <= |d| && forall k :: 0 <= k < |t| ==> d[i + k] == t[k]
  }

  lemma AtSplit(d: string, i: nat, s: string, t: string)
    ensures At(d, i, s + t) <==> At(d, i, s) && At(d, i + |s|, t)
  {
    if At(d, i, s + t) {
      forall k | 0 <= k < |t|
        ensures d[i + |s| + k] == t[k]
      {
        assert (s + t)[|s| + k] == t[k];
      }
      assert forall k :: 0 <= k < |s| ==> (s + t)[k] == s[k];
    } else if At(d, i, s) && At(d, i + |s|, t) {
      forall k | 0 <= k < |s + t|
        ensures d[i + k] == (s + t)[k]
      {
        if k >= |s| { assert d[i + |s| + (k - |s|)] == t[k - |s|]; }
      }
    }
  }

  lemma AtHead(d: string, i: nat, t: string)
    requires At(d, i, t) && t != ""
    ensures d[i] == t[0] && At(d, i + 1, t[1..])
  {
    assert d[i + 0] == t[0];
  }

  lemma AtTwo(d: string, i: nat, a: char, b: char)
    requires At(d, i, [a, b])
    ensures i + 2 <= |d| && d[i] == a && d[i + 1] == b
  {
    AtHead(d, i, [a, b]);
    assert d[i + 1] == [a, b][1];
  }

  lemma {:induction false} TokenReads(d: string, i: nat, t: string, acc: string)
    requires At(d, i, t) && i + |t| < |d|
    requires forall k :: 0 <= k < |t| ==> IsTokenChar(t[k])
    requires !IsTokenChar(d[i + |t|])
    ensures Token(d, i, acc) == Parsed(Ok, i + |t|, acc + t)
    decreases |t|
  {
    if t == "" {
      assert acc + t == acc;
    } else {
      AtHead(d, i, t);
      TokenReads(d, i + 1, t[1..], acc + [d[i]]);
      assert acc + [t[0]] + t[1..] == acc + t;
    }
  }

  lemma {:induction false} WordReads(d: string, i: nat, t: string, acc: string)
    requires At(d, i, t) && i + |t| < |d|
    requires forall k :: 0 <= k < |t| ==> !IsSpace(t[k])
    requires IsSpace(d[i + |t|])
    ensures Word(d, i, acc) == Parsed(Ok, i + |t|, acc + t)
    decreases |t|
  {
    if t == "" {
      assert acc + t == acc;
    } else {
      AtHead(d, i, t);
      WordReads(d, i + 1, t[1..], acc + [d[i]]);
      assert acc + [t[0]] + t[1..] == acc + t;
    }
  }

  lemma {:induction false} DigitsRead(d: string, i: nat, t: string, acc: string)
    requires At(d, i, t) && i + |t| < |d| && AllDigits(acc) && AllDigits(t) && !IsDigit(d[i + |t|])
    ensures Digits(d, i, acc) == Parsed(Ok, i + |t|, acc + t)
    decreases |t|
  {
    if t == "" {
      assert acc + t == acc;
    } else {
      AtHead(d, i, t);
      DigitsRead(d, i + 1, t[1..], acc + [d[i]]);
      assert acc + [t[0]] + t[1..] == acc + t;
    }
  }

  lemma {:induction false} SkipsToCR(d: string, i: nat, t: string)
    requires At(d, i, t) && i + |t| < |d| && CR !in t && d[i + |t|] == CR
    ensures SkipToCR(d, i) == Parsed(Ok, i + |t|, ())
    decreases |t|
  {
    if t != "" {
      AtHead(d, i, t);
      SkipsToCR(d, i + 1, t[1..]);
    }
  }

  // --- What the scanners deliver, whatever the stream

  predicate AllToken(t: string) { forall k :: 0 <= k < |t| ==> IsTokenChar(t[k]) }

  predicate NoSpace(t: string) { forall k :: 0 <= k < |t| ==> !IsSpace(t[k]) }

  lemma {:induction false} TokenDelivers(d: string, i: nat, acc: string)
    requires i < |d| && AllToken(acc)
    ensures AllToken(Token(d, i, acc).value)
    decreases |d| - i
  {
    if IsTokenChar(d[i]) && i + 1 < |d| { TokenDelivers(d, i + 1, acc + [d[i]]); }
  }

  /** A word has no white space, and is empty only where white space stands. */
  lemma {:induction false} WordDelivers(d: string, i: nat, acc: string)
    requires i < |d| && NoSpace(acc)
    ensures NoSpace(Word(d, i, acc).value)
    ensures |Word(d, i, acc).value| >= |acc| && (!IsSpace(d[i]) ==> |Word(d, i, acc).value| > |acc|)
    decreases |d| - i
  {
    if !IsSpace(d[i]) && i + 1 < |d| { WordDelivers(d, i + 1, acc + [d[i]]); }
  }
}
