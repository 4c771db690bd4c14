/** The characters and words of the HTTP parsers, spelled out. */
module HttpTables {
  import opened Alphabets
  import opened Ctype
  import opened HttpHeaders
  import opened HttpMessages
  import opened HttpScanning
  import opened Numbers

  /** The characters of a token: section 2.2 of RFC 2616 leaves these besides letters and digits. */
  const MARKS: string := "!#$%&'*+-.^_`|~"

  lemma TokenCharIs(c: char)
    ensures IsTokenChar(c) <==> c in UPPER || c in LOWER || c in DIGIT || c in MARKS
  {
    LetterIs(c);
    DigitIs(c);
    MarkIs(c);
  }

  lemma MarkIs(c: char)
    ensures IsAlpha(c) || IsDigit(c) ==> IsTokenChar(c)
    ensures !IsAlpha(c) && !IsDigit(c) ==> (IsTokenChar(c) <==> c in MARKS)
  {
  }

  lemma BlankIs(c: char)
    ensures IsSP(c) <==> c in " \t"
  {
  }

  const METHODS: seq<string> := ["GET", "HEAD", "POST", "PUT", "PATCH", "DELETE", "CONNECT", "OPTIONS", "TRACE"]

  /** The nine methods by name, and the four of them that may carry a body. */
  lemma MethodsAre(s: string)
    ensures MethodOf(s) != INVALID <==> s in METHODS
    ensures MethodOf(s) != INVALID ==> MethodText(MethodOf(s)) == s
    ensures AllowsBody(MethodOf(s)) <==> s in ["POST", "PUT", "PATCH", "OPTIONS"]
  {
  }

  /** A version is printed as in "HTTP/1.1". */
  lemma VersionTextIs(v: Version)
    ensures VersionText(v) == "HTTP/" + Decimal(v.major) + "." + Decimal(v.minor)
    ensures VersionText(Version(1, 1)) == "HTTP/1.1"
  {
  }
}
