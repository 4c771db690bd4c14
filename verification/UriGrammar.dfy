/** The URIs that parse and asString carry into each other without loss, in terms of the verify*Char predicates, and
    that these are the ones of the grammar. */
module UriGrammar {
  import opened Alphabets
  import opened Ctype
  import opened Uri
  import opened UriSyntax

  predicate Allowed(a: Alphabet, c: char) {
    match a
    case AuthorityAlphabet => UserInfoHostChar(c)
    case PathAlphabet => PathChar(c)
    case QueryAlphabet => QueryFragmentChar(c)
  }

  /** Allowed characters and complete percent-encodings, nothing else. */
  predicate Segment(a: Alphabet, t: string) {
    t == "" ||
    (Allowed(a, t[0]) && Segment(a, t[1..])) ||
    (|t| >= 3 && t[0] == '%' && IsXDigit(t[1]) && IsXDigit(t[2]) && Segment(a, t[3..]))
  }

  predicate SchemeOk(t: string) {
    t != "" && IsAlpha(t[0]) && forall i :: 0 <= i < |t| ==> SchemeChar(t[i])
  }

  predicate Digits(t: string) {
    forall i :: 0 <= i < |t| ==> IsDigit(t[i])
  }

  /** A host part, an opening bracket and characters of a TCP6 address. */
  ghost predicate OpenBracket(t: string) {
    exists i :: OpensAt(t, i)
  }

  predicate OpensAt(t: string, i: int) {
    0 <= i < |t| && t[i] == '[' && Segment(AuthorityAlphabet, t[..i]) && forall j :: i < j < |t| ==> Tcp6Char(t[j])
  }

  ghost predicate Bracketed(t: string) {
    |t| >= 1 && t[|t| - 1] == ']' && OpenBracket(t[..|t| - 1])
  }

  ghost predicate HostOk(t: string) {
    t != "" && (Segment(AuthorityAlphabet, t) || Bracketed(t))
  }

  /** The components before the path are well-formed and end where `rest` begins. */
  ghost predicate PathFits(u: Parts, rest: string) {
    && SchemeOk(u.scheme)
    && Segment(AuthorityAlphabet, u.userinfo)
    && Digits(u.port)
    && if u.host == "" then u.userinfo == "" && u.port == "" && (rest != "" ==> rest[0] != '/')
       else && HostOk(u.host) && rest != ""
            && if u.port != "" then !IsDigit(rest[0])
               else if Bracketed(u.host) then rest[0] != ':'
               else rest[0] == '/'
  }

  /** Nothing but a scheme and a plain host. */
  predicate HostOnly(u: Parts) {
    && SchemeOk(u.scheme) && u.host != "" && Segment(AuthorityAlphabet, u.host)
    && u == Parts(u.scheme, "", u.host, "", "", "", "")
  }

  /** The component tuples that survive printing and parsing. */
  ghost predicate Wellformed(u: Parts) {
    || HostOnly(u)
    || (&& PathFits(u, u.path) && Segment(PathAlphabet, u.path)
        && Segment(QueryAlphabet, u.query) && Segment(QueryAlphabet, u.fragment)
        && (u.query != "" || u.fragment != "" ==> u.path != ""))
  }

  // ---- the predicates accept the characters of the grammar ----

  lemma AllowedIs(a: Alphabet, c: char)
    ensures Allowed(a, c) <==> Permits(a, c)
  {
    LetterIs(c);
    DigitIs(c);
  }

  lemma {:induction false} SegmentIs(a: Alphabet, t: string)
    ensures Segment(a, t) <==> Text(a, t)
    decreases |t|
  {
    if t != "" {
      AllowedIs(a, t[0]);
      SegmentIs(a, t[1..]);
      if |t| >= 3 {
        DigitIs(t[1]);
        DigitIs(t[2]);
        SegmentIs(a, t[3..]);
      }
    }
  }

  lemma SchemeIs(t: string)
    ensures SchemeOk(t) <==> Scheme(t)
  {
    if t != "" { LetterIs(t[0]); }
    forall i | 0 <= i < |t| ensures SchemeChar(t[i]) <==> IsLetter(t[i]) || t[i] in DIGIT || t[i] in "+-." {
      LetterIs(t[i]);
      DigitIs(t[i]);
    }
  }

  lemma PortIs(t: string)
    ensures Digits(t) <==> Port(t)
  {
    forall i | 0 <= i < |t| ensures IsDigit(t[i]) <==> t[i] in DIGIT {
      DigitIs(t[i]);
    }
  }

  lemma OpensIs(t: string, i: int)
    ensures OpensAt(t, i) <==> AddressAt(t, i)
  {
    if 0 <= i < |t| { SegmentIs(AuthorityAlphabet, t[..i]); }
    forall j | 0 <= j < |t| ensures Tcp6Char(t[j]) <==> t[j] in HEXDIG || t[j] == ':' {
      DigitIs(t[j]);
    }
  }

  lemma OpenAddressIs(t: string)
    ensures OpenBracket(t) <==> OpenAddress(t)
  {
    forall i ensures OpensAt(t, i) <==> AddressAt(t, i) {
      OpensIs(t, i);
    }
  }

  lemma AddressIs(t: string)
    ensures Bracketed(t) <==> Address(t)
  {
    if |t| >= 1 { OpenAddressIs(t[..|t| - 1]); }
  }

  /** The well-formed tuples are the ones of the grammar. */
  lemma WellformedIs(u: Parts)
    ensures Wellformed(u) <==> Grammatical(u)
  {
    SchemeIs(u.scheme);
    PortIs(u.port);
    AddressIs(u.host);
    SegmentIs(AuthorityAlphabet, u.userinfo);
    SegmentIs(AuthorityAlphabet, u.host);
    SegmentIs(PathAlphabet, u.path);
    SegmentIs(QueryAlphabet, u.query);
    SegmentIs(QueryAlphabet, u.fragment);
    if u.path != "" { DigitIs(u.path[0]); }
  }

  // ---- segments ----

  lemma {:induction false} SegmentConcat(a: Alphabet, t: string, v: string)
    requires Segment(a, t) && Segment(a, v)
    ensures Segment(a, t + v)
    decreases |t|
  {
    if t == "" {
      assert t + v == v;
    } else if Allowed(a, t[0]) && Segment(a, t[1..]) {
      assert (t + v)[1..] == t[1..] + v;
      SegmentConcat(a, t[1..], v);
    } else {
      assert (t + v)[3..] == t[3..] + v;
      SegmentConcat(a, t[3..], v);
    }
  }

  /** Every '%' of a segment is followed by two hexadecimal digits. */
  lemma {:induction false} PercentIsEncoded(a: Alphabet, t: string, i: nat)
    requires Segment(a, t) && i < |t| && t[i] == '%'
    ensures i + 2 < |t| && IsXDigit(t[i + 1]) && IsXDigit(t[i + 2])
    decreases |t|
  {
    if Allowed(a, t[0]) && Segment(a, t[1..]) {
      assert t[1..][i - 1] == t[i];
      PercentIsEncoded(a, t[1..], i - 1);
    } else if i > 0 {
      assert i >= 3;
      assert t[3..][i - 3] == t[i];
      PercentIsEncoded(a, t[3..], i - 3);
    }
  }

  lemma PushChar(a: Alphabet, s: string, i: nat, j: nat)
    requires i <= j < |s| && Segment(a, s[i..j]) && Allowed(a, s[j])
    ensures Segment(a, s[i..j + 1])
  {
    assert Segment(a, [s[j]]) by { assert [s[j]][1..] == ""; }
    SegmentConcat(a, s[i..j], [s[j]]);
    assert s[i..j + 1] == s[i..j] + [s[j]];
  }

  lemma PushPercent(a: Alphabet, s: string, i: nat, j: nat)
    requires i <= j && j + 2 < |s| && Segment(a, s[i..j])
    requires s[j] == '%' && IsXDigit(s[j + 1]) && IsXDigit(s[j + 2])
    ensures Segment(a, s[i..j + 3])
  {
    assert Segment(a, s[j..j + 3]) by { assert s[j..j + 3][3..] == ""; }
    SegmentConcat(a, s[i..j], s[j..j + 3]);
    assert s[i..j + 3] == s[i..j] + s[j..j + 3];
  }
}
