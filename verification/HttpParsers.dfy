/** The parsing loops of HTTPMessage and HTTPVersion, each proved to compute its scanning function on the stream. */
module HttpParsers {
  import opened Ctype
  import opened HttpChunks
  import opened HttpHeaders
  import opened HttpMessages
  import opened HttpScanning
  import opened Numbers
  import opened ReadBuffers

  method ReadSpace(data: StringReadBuffer) returns (result: Result)
    requires data.Valid()
    modifies data
    ensures data.Valid() && Parsed(result, data.Pos(), ()) == EatSpace(data.stream, old(data.Pos()))
  {
    result := Ok;
    while IsSP(data.Get()) && result == Ok
      invariant data.Valid()
      invariant EatSpace(data.stream, old(data.Pos())) ==
                if result == Ok then EatSpace(data.stream, data.Pos()) else Parsed(result, data.Pos(), ())
      decreases result == Ok, |data.stream| - data.Pos()
    {
      var ok := data.Next();
      if !ok {
        result := Again;
      }
    }
  }

  /** parseCRLF */
  method ReadNewline(data: StringReadBuffer) returns (result: Result)
    requires data.Valid()
    modifies data
    ensures data.Valid() && Parsed(result, data.Pos(), ()) == Newline(data.stream, old(data.Pos()))
  {
    if data.Get() != CR {
      return Bad(ExpectCRLF);
    }
    var ok := data.Next();
    if !ok {
      return Again;
    }
    if data.Get() != LF {
      return Bad(ExpectCRLF);
    }
    ok := data.Next();
    result := if ok then Ok else Again;
  }

  /** parseToken */
  method ReadToken(data: StringReadBuffer) returns (result: Result, token: string)
    requires data.Valid()
    modifies data
    ensures data.Valid() && Parsed(result, data.Pos(), token) == Token(data.stream, old(data.Pos()), "")
  {
    token := "";
    while !IsSeparator(data.Get()) && !IsCTL(data.Get())
      invariant data.Valid()
      invariant Token(data.stream, old(data.Pos()), "") == Token(data.stream, data.Pos(), token)
      decreases |data.stream| - data.Pos()
    {
      token := token + [data.Get()];
      var ok := data.Next();
      if !ok {
        return Again, "";
      }
    }
    result := Ok;
  }

  /** parseUInt */
  method ReadUInt(data: StringReadBuffer) returns (result: Result, value: nat)
    requires data.Valid()
    modifies data
    ensures data.Valid() && Parsed(result, data.Pos(), value) == UInt(data.stream, old(data.Pos()))
  {
    result := Ok;
    var digits := "";
    while result == Ok && IsDigit(data.Get())
      invariant data.Valid() && AllDigits(digits)
      invariant Digits(data.stream, old(data.Pos()), "") ==
                if result == Ok then Digits(data.stream, data.Pos(), digits) else Parsed(result, data.Pos(), digits)
      decreases result == Ok, |data.stream| - data.Pos()
    {
      digits := digits + [data.Get()];
      var ok := data.Next();
      if !ok {
        result := Again;
      }
    }
    if digits == "" {
      return Bad(ExpectingUnsignedInt), 0;
    }
    value := Extract(10, digits, UINT_MAX, 0);
  }

  /** parseChunkHex */
  method ReadChunkSize(data: StringReadBuffer) returns (result: Result, value: nat)
    requires data.Valid()
    modifies data
    ensures data.Valid() && Parsed(result, data.Pos(), value) == ChunkSize(data.stream, old(data.Pos()))
  {
    var digits := "";
    while IsXDigit(data.Get())
      invariant data.Valid() && AllXDigits(digits)
      invariant HexDigits(data.stream, old(data.Pos()), "") == HexDigits(data.stream, data.Pos(), digits)
      decreases |data.stream| - data.Pos()
    {
      digits := digits + [data.Get()];
      var ok := data.Next();
      if !ok {
        return Again, 0;
      }
    }
    if digits == "" {
      return Bad(InvalidChunkHex), 0;
    }
    value := Extract(16, digits, ULONG_MAX, 0);
    result := ReadNewline(data);
  }

  /** parseFieldValue */
  method ReadFieldValue(data: StringReadBuffer) returns (result: Result, value: string)
    requires data.Valid()
    modifies data
    ensures data.Valid() && Parsed(result, data.Pos(), value) == FieldValue(data.stream, old(data.Pos()), Start, "")
  {
    result, value := Ok, "";
    var state, done := Start, false;
    ghost var i := data.Pos();
    while result == Ok && !done
      invariant data.Valid() && (result == Ok || result == Again)
      invariant FieldValue(data.stream, i, Start, "") ==
                if done then Parsed(result, data.Pos(), value)
                else if result == Ok then FieldValue(data.stream, data.Pos(), state, value)
                else Parsed(Bad(InvalidHeaderFieldValue), data.Pos(), value)
      decreases result == Ok && !done, |data.stream| - data.Pos(), state != Reading
    {
      var ok := true;
      match state {
        case Start =>
          if !IsSP(data.Get()) {
            state := Reading;
          } else {
            ok := data.Next();
          }
        case Reading =>
          if data.Get() == CR {
            state := AfterCR;
          } else if IsSP(data.Get()) {
            state := AfterSP;
          } else {
            value := value + [data.Get()];
          }
          ok := data.Next();
        case AfterCR =>
          if data.Get() != LF {
            return Bad(ExpectCRLF), value;
          }
          ok := data.Next();
          if ok && IsSP(data.Get()) {
            state := AfterSP;
            ok := data.Next();
          } else {
            done := true;
          }
        case AfterSP =>
          if IsSP(data.Get()) {
            ok := data.Next();
          } else {
            value := value + " ";
            state := Reading;
          }
      }
      result := if ok then Ok else Again;
    }
    if !done {
      result := Bad(InvalidHeaderFieldValue);
    }
  }

  /** HTTPVersion */
  class HTTPVersion {
    var major: nat
    var minor: nat

    function View(): Version
      reads this
    {
      Version(major, minor)
    }

    constructor ()
      ensures View() == Version(1, 0)
    {
      major, minor := 1, 0;
    }

    method Parse(data: StringReadBuffer) returns (result: Result)
      requires data.Valid()
      modifies this, data
      ensures data.Valid()
      ensures Parsed(result, data.Pos(), View()) == ParseVersion(data.stream, old(data.Pos()), old(View()))
    {
      result := Ok;
      var state, done := Blank, false;
      var majors, minors := "", "";
      ghost var i, was := data.Pos(), View();
      while result == Ok && !done
        invariant data.Valid() && state.Valid() && View() == was
        invariant AllDigits(majors) && AllDigits(minors)
        invariant (result == Ok || result == Again) && !(done && result == Again)
        invariant ParseVersion(data.stream, i, was) ==
                  if done then
                    Parsed(Ok, data.Pos(), Version(Extract(10, majors, UINT_MAX, was.major),
                                                   Extract(10, minors, UINT_MAX, was.minor)))
                  else if result == Ok then VersionFrom(data.stream, data.Pos(), state, majors, minors, was)
                  else Parsed(Again, data.Pos(), was)
        decreases result == Ok && !done, |data.stream| - data.Pos(), state.Rank()
      {
        var c, ok := data.Get(), true;
        match state {
          case Blank =>
            if !IsSpace(c) {
              state := Letter(0);
            } else {
              ok := data.Next();
            }
          case Letter(k) =>
            if c != HTTP[k] {
              return Bad(InvalidHTTPVersion);
            }
            ok := data.Next();
            state := if k + 1 < |HTTP| then Letter(k + 1) else Major;
          case Major =>
            if !IsDigit(c) {
              state := Dot;
            } else {
              majors := majors + [c];
              ok := data.Next();
            }
          case Dot =>
            if c != '.' {
              return Bad(InvalidHTTPVersion);
            }
            ok := data.Next();
            state := Minor;
          case Minor =>
            if !IsDigit(c) {
              done := true;
            } else {
              minors := minors + [c];
              ok := data.Next();
            }
        }
        result := if ok then Ok else Again;
      }
      if result == Ok {
        major := Extract(10, majors, UINT_MAX, major);
        minor := Extract(10, minors, UINT_MAX, minor);
      }
    }
  }
}
