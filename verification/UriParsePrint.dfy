/** Printing undoes parsing: what the automaton has stored, printed, is what it has read. */
module UriParsePrint {
  import opened Ctype
  import opened Uri
  import opened UriGrammar
  import opened UriSyntax

  /** Scheme, "://" and user information. */
  function Opening(u: Parts): string {
    u.scheme + "://" + (if u.userinfo != "" then u.userinfo + "@" else "")
  }

  predicate OnlyScheme(u: Parts) {
    SchemeOk(u.scheme) && u == Parts(u.scheme, "", "", "", "", "", "")
  }

  predicate UpToUserInfo(u: Parts) {
    SchemeOk(u.scheme) && Segment(AuthorityAlphabet, u.userinfo) && u == Parts(u.scheme, u.userinfo, "", "", "", "", "")
  }

  ghost predicate UpToHost(u: Parts) {
    && SchemeOk(u.scheme) && Segment(AuthorityAlphabet, u.userinfo) && HostOk(u.host)
    && u == Parts(u.scheme, u.userinfo, u.host, "", "", "", "")
  }

  predicate NoPath(u: Parts) {
    u.path == "" && u.query == "" && u.fragment == ""
  }

  ghost predicate UpToPath(u: Parts) {
    PathFits(u, u.path) && u.path != "" && Segment(PathAlphabet, u.path) && u.query == "" && u.fragment == ""
  }

  ghost predicate UpToQuery(u: Parts) {
    && PathFits(u, u.path) && u.path != "" && Segment(PathAlphabet, u.path)
    && Segment(QueryAlphabet, u.query) && u.fragment == ""
  }

  /** The modes that read a component with percent-encodings. */
  predicate Running(m: Mode) {
    m == AuthorityStart || m == HostStart || m == PathStart || m == QueryStart || m == FragmentStart
  }

  function AlphabetOf(m: Mode): Alphabet {
    if m == PathStart then PathAlphabet
    else if m == QueryStart || m == FragmentStart then QueryAlphabet else AuthorityAlphabet
  }

  /** What has been stored accounts for s[..mark], and s[mark..idx] is a beginning of the component being read. */
  ghost predicate Inv(s: string, c: Config) {
    && c.mark <= c.idx <= |s|
    && var u, piece, before := c.uri, s[c.mark..c.idx], s[..c.mark];
    match c.mode
    case SchemeStart => u == EMPTY && c.mark == 0 && (if c.idx == 0 then c.prev != SchemeStart else SchemeOk(piece))
    case SchemeEnd => u == EMPTY && c.mark == 0 && SchemeOk(piece) && At(s, c.idx) == ':'
    case UserInfoEnd =>
      OnlyScheme(u) && before == Opening(u) && Segment(AuthorityAlphabet, piece) && At(s, c.idx) == '@'
    case Tcp6Start => UpToUserInfo(u) && before == Opening(u) && OpenBracket(piece)
    case HostEnd =>
      && UpToUserInfo(u) && before == Opening(u)
      && ((Segment(AuthorityAlphabet, piece) && (At(s, c.idx) == ':' || At(s, c.idx) == '/')) || Bracketed(piece))
    case PortStart => UpToHost(u) && before == Print(u) + ":" && Digits(piece)
    case PortEnd => UpToHost(u) && before == Print(u) + ":" && Digits(piece) && !IsDigit(At(s, c.idx)) && c.idx < |s|
    case PathEnd =>
      && PathFits(u, s[c.mark..]) && NoPath(u) && before == Print(u) && Segment(PathAlphabet, piece)
      && (At(s, c.idx) == '?' || At(s, c.idx) == '#')
    case QueryEnd => UpToPath(u) && before == Print(u) + "?" && Segment(QueryAlphabet, piece) && At(s, c.idx) == '#'
    case PctEncoded(back) => Running(back) && At(s, c.idx) == '%' && Reading(s, c, back)
    case Error => true
    case Done => false
    case _ => Reading(s, c, c.mode)
  }

  /** A component with percent-encodings is being read in mode `back`. */
  ghost predicate Reading(s: string, c: Config, back: Mode)
    requires Running(back) && c.mark <= c.idx <= |s|
  {
    var u, piece, before := c.uri, s[c.mark..c.idx], s[..c.mark];
    && Segment(AlphabetOf(back), piece)
    && match back
       case AuthorityStart => OnlyScheme(u) && before == Opening(u)
       case HostStart => UpToUserInfo(u) && u.userinfo != "" && before == Opening(u)
       case PathStart => PathFits(u, s[c.mark..]) && NoPath(u) && before == Print(u)
       case QueryStart => UpToPath(u) && before == Print(u) + "?"
       case FragmentStart => UpToQuery(u) && before == Print(u) + "#"
  }

  lemma ReadingOn(s: string, c: Config, m: Mode, j: nat)
    requires Running(m) && c.mark <= c.idx <= j <= |s| && Reading(s, c, m) && Segment(AlphabetOf(m), s[c.mark..j])
    ensures Reading(s, c.(mode := m, prev := m, idx := j), m)
  {
  }

  lemma RunningStepIs(s: string, c: Config)
    requires Running(c.mode) && c.mark <= c.idx < |s|
    requires Allowed(AlphabetOf(c.mode), s[c.idx]) || s[c.idx] == '%'
    ensures Step(s, c) == if s[c.idx] == '%' then c.(mode := PctEncoded(c.mode), prev := PctEncoded(c.mode))
                          else c.(prev := c.mode, idx := c.idx + 1)
  {
  }

  /** A running mode consumes an allowed character or stops before a percent-encoding. */
  lemma RunningStep(s: string, c: Config)
    requires Running(c.mode) && c.mark <= c.idx < |s| && Reading(s, c, c.mode)
    requires Allowed(AlphabetOf(c.mode), s[c.idx]) || s[c.idx] == '%'
    ensures var r := Step(s, c);
            && (r.mode == c.mode || (r.mode == PctEncoded(c.mode) && r.idx == c.idx && s[c.idx] == '%'))
            && Reading(s, r, c.mode)
  {
    RunningStepIs(s, c);
    if s[c.idx] != '%' {
      PushChar(AlphabetOf(c.mode), s, c.mark, c.idx);
      ReadingOn(s, c, c.mode, c.idx + 1);
    }
  }

  /** A percent-encoding is consumed as a whole, or is an error. */
  lemma PercentStep(s: string, c: Config)
    requires c.mode.PctEncoded? && Running(c.mode.back) && c.mark <= c.idx < |s| && Reading(s, c, c.mode.back)
    ensures var r := Step(s, c); r.mode == Error || (r.mode == c.mode.back && Reading(s, r, r.mode))
  {
    if Step(s, c).mode != Error {
      PushPercent(AlphabetOf(c.mode.back), s, c.mark, c.idx);
      ReadingOn(s, c, c.mode.back, c.idx + 3);
      assert Step(s, c) == c.(mode := c.mode.back, prev := c.mode.back, idx := c.idx + 3);
    }
  }

  lemma ReadingStep(s: string, c: Config)
    requires Inv(s, c) && c.idx < |s|
    requires c.mode.PctEncoded? || (Running(c.mode) && (Allowed(AlphabetOf(c.mode), s[c.idx]) || s[c.idx] == '%'))
    ensures Inv(s, Step(s, c))
  {
    if c.mode.PctEncoded? { PercentStep(s, c); } else { RunningStep(s, c); }
  }

  lemma SchemeStep(s: string, c: Config)
    requires Inv(s, c) && c.idx < |s| && (c.mode == SchemeStart || c.mode == SchemeEnd)
    ensures Inv(s, Step(s, c))
  {
    var r := Step(s, c);
    if c.mode == SchemeStart {
      if r.mode == SchemeStart {
        assert s[0..c.idx + 1] == s[0..c.idx] + [s[c.idx]];
      }
    } else {
      assert s[..c.idx + 1] == s[0..c.idx] + ":";
      if r.mode == AuthorityStart {
        assert s[..c.idx + 3] == s[..c.idx + 1] + "//";
        assert Opening(r.uri) == s[..c.idx + 3];
      } else if r.mode == PathStart {
        assert Print(r.uri) == s[..c.idx + 1];
      }
    }
  }

  lemma BracketOpens(s: string, c: Config)
    requires Inv(s, c) && c.idx < |s| && (c.mode == AuthorityStart || c.mode == HostStart) && s[c.idx] == '['
    ensures Inv(s, Step(s, c))
  {
    var piece, longer := s[c.mark..c.idx], s[c.mark..c.idx + 1];
    assert longer == piece + [s[c.idx]];
    assert longer[..|piece|] == piece;
    assert OpensAt(longer, |piece|);
  }

  lemma BracketStep(s: string, c: Config)
    requires Inv(s, c) && c.idx < |s| && c.mode == Tcp6Start
    ensures Inv(s, Step(s, c))
  {
    var r := Step(s, c);
    var piece, longer := s[c.mark..c.idx], s[c.mark..c.idx + 1];
    assert longer == piece + [s[c.idx]];
    var i :| OpensAt(piece, i);
    if r.mode == Tcp6Start {
      assert longer[..i] == piece[..i];
      assert OpensAt(longer, i);
    } else if r.mode == HostEnd {
      assert longer[..|longer| - 1] == piece;
    }
  }

  lemma UserInfoStep(s: string, c: Config)
    requires Inv(s, c) && c.idx < |s| && c.mode == UserInfoEnd
    ensures Inv(s, Step(s, c))
  {
    var r := Step(s, c);
    if r.mode == HostStart {
      assert s[..c.idx + 1] == s[..c.mark] + s[c.mark..c.idx] + "@";
      assert Opening(r.uri) == Opening(c.uri) + (r.uri.userinfo + "@");
    }
  }

  /** Printing a tuple that ends with its host. */
  lemma PrintHost(u: Parts)
    requires u.host != "" && u == Parts(u.scheme, u.userinfo, u.host, "", "", "", "")
    ensures Print(u) == Opening(u) + u.host
  {
  }

  /** The host that has been read, stored and printed. */
  lemma HostStored(s: string, c: Config, u: Parts)
    requires Inv(s, c) && c.idx < |s| && c.mode == HostEnd && c.idx > c.mark && u == c.uri.(host := s[c.mark..c.idx])
    ensures UpToHost(u) && Print(u) == s[..c.idx]
    ensures s[c.idx] != ':' ==> PathFits(u, s[c.idx..])
  {
    PrintHost(u);
    assert Opening(u) == Opening(c.uri);
    assert s[..c.idx] == s[..c.mark] + s[c.mark..c.idx];
  }

  lemma PortBegins(s: string, i: nat, u: Parts)
    requires i < |s| && s[i] == ':' && UpToHost(u) && Print(u) == s[..i]
    ensures Inv(s, Config(PortStart, PortStart, i + 1, i + 1, u))
  {
    assert s[..i + 1] == s[..i] + ":" && s[i + 1..i + 1] == "";
  }

  lemma PathBegins(s: string, i: nat, u: Parts)
    requires i <= |s| && PathFits(u, s[i..]) && NoPath(u) && Print(u) == s[..i]
    ensures Inv(s, Config(PathStart, PathStart, i, i, u))
  {
    assert s[i..i] == "";
  }

  lemma HostStep(s: string, c: Config)
    requires Inv(s, c) && c.idx < |s| && c.mode == HostEnd
    ensures Inv(s, Step(s, c))
  {
    if c.idx > c.mark {
      var u := c.uri.(host := s[c.mark..c.idx]);
      HostStored(s, c, u);
      if s[c.idx] == ':' {
        assert Step(s, c) == Config(PortStart, PortStart, c.idx + 1, c.idx + 1, u);
        PortBegins(s, c.idx, u);
      } else {
        assert Step(s, c) == Config(PathStart, PathStart, c.idx, c.idx, u);
        PathBegins(s, c.idx, u);
      }
    }
  }

  /** Printing a tuple that ends with its port. */
  lemma PrintPort(u: Parts)
    requires u.host != "" && u.port != "" && NoPath(u)
    ensures Print(u) == Print(u.(port := "")) + ":" + u.port
  {
  }

  lemma PortStep(s: string, c: Config)
    requires Inv(s, c) && c.idx < |s| && (c.mode == PortStart || c.mode == PortEnd)
    ensures Inv(s, Step(s, c))
  {
    var r := Step(s, c);
    if c.mode == PortStart {
      if r.mode == PortStart {
        assert s[c.mark..c.idx + 1] == s[c.mark..c.idx] + [s[c.idx]];
      }
    } else if r.mode == PathStart {
      PrintPort(r.uri);
      assert r.uri.(port := "") == c.uri;
      assert s[..c.idx] == s[..c.mark] + s[c.mark..c.idx];
    }
  }

  /** Printing a path, a query or a fragment after what comes before it. */
  lemma PrintPath(u: Parts)
    requires u.query == "" && u.fragment == ""
    ensures Print(u) == Print(u.(path := "")) + u.path
  {
  }

  lemma PrintQuery(u: Parts)
    requires u.fragment == "" && u.query != ""
    ensures Print(u) == Print(u.(query := "")) + "?" + u.query
  {
  }

  lemma PrintFragment(u: Parts)
    requires u.fragment != ""
    ensures Print(u) == Print(u.(fragment := "")) + "#" + u.fragment
  {
  }

  /** The path that has been read, stored and printed. */
  lemma PathStored(s: string, c: Config, u: Parts)
    requires Inv(s, c) && c.idx < |s| && c.mode == PathEnd && c.idx > c.mark && u == c.uri.(path := s[c.mark..c.idx])
    ensures UpToPath(u) && Print(u) == s[..c.idx]
  {
    PrintPath(u);
    assert u.(path := "") == c.uri;
    assert s[c.mark..c.idx][0] == s[c.mark..][0];
    assert s[..c.idx] == s[..c.mark] + s[c.mark..c.idx];
  }

  lemma QueryBegins(s: string, i: nat, u: Parts)
    requires i < |s| && s[i] == '?' && UpToPath(u) && Print(u) == s[..i]
    ensures Inv(s, Config(QueryStart, QueryStart, i + 1, i + 1, u))
  {
    assert s[..i + 1] == s[..i] + "?" && s[i + 1..i + 1] == "";
  }

  lemma FragmentBegins(s: string, i: nat, u: Parts)
    requires i < |s| && s[i] == '#' && UpToQuery(u) && Print(u) == s[..i]
    ensures Inv(s, Config(FragmentStart, FragmentStart, i + 1, i + 1, u))
  {
    assert s[..i + 1] == s[..i] + "#" && s[i + 1..i + 1] == "";
  }

  lemma PathStep(s: string, c: Config)
    requires Inv(s, c) && c.idx < |s| && c.mode == PathEnd
    ensures Inv(s, Step(s, c))
  {
    if c.idx > c.mark {
      var u := c.uri.(path := s[c.mark..c.idx]);
      PathStored(s, c, u);
      if s[c.idx] == '?' {
        assert Step(s, c) == Config(QueryStart, QueryStart, c.idx + 1, c.idx + 1, u);
        QueryBegins(s, c.idx, u);
      } else {
        assert Step(s, c) == Config(FragmentStart, FragmentStart, c.idx + 1, c.idx + 1, u);
        FragmentBegins(s, c.idx, u);
      }
    }
  }

  lemma QueryStep(s: string, c: Config)
    requires Inv(s, c) && c.idx < |s| && c.mode == QueryEnd
    ensures Inv(s, Step(s, c))
  {
    var r := Step(s, c);
    if r.mode != Error {
      PrintQuery(r.uri);
      assert r.uri.(query := "") == c.uri;
      assert s[..c.idx + 1] == s[..c.mark] + s[c.mark..c.idx] + [s[c.idx]];
    }
  }

  /** A running mode that meets any other character goes to the end of the component or to the error. */
  lemma LeavingStep(s: string, c: Config)
    requires Inv(s, c) && c.idx < |s| && Running(c.mode)
    requires !Allowed(AlphabetOf(c.mode), s[c.idx]) && s[c.idx] != '%'
    requires c.mode == AuthorityStart || c.mode == HostStart ==> s[c.idx] != '['
    ensures Inv(s, Step(s, c))
  {
  }

  lemma RunningInv(s: string, c: Config)
    requires Inv(s, c) && c.idx < |s| && Running(c.mode)
    ensures Inv(s, Step(s, c))
  {
    if (c.mode == AuthorityStart || c.mode == HostStart) && s[c.idx] == '[' {
      BracketOpens(s, c);
    } else if Allowed(AlphabetOf(c.mode), s[c.idx]) || s[c.idx] == '%' {
      ReadingStep(s, c);
    } else {
      LeavingStep(s, c);
    }
  }

  lemma AuthorityInv(s: string, c: Config)
    requires Inv(s, c) && c.idx < |s|
    requires c.mode == UserInfoEnd || c.mode == HostEnd || c.mode == PortStart || c.mode == PortEnd
             || c.mode == Tcp6Start
    ensures Inv(s, Step(s, c))
  {
    if c.mode == UserInfoEnd {
      UserInfoStep(s, c);
    } else if c.mode == HostEnd {
      HostStep(s, c);
    } else if c.mode == Tcp6Start {
      BracketStep(s, c);
    } else {
      PortStep(s, c);
    }
  }

  lemma StepInv(s: string, c: Config)
    requires Inv(s, c) && !Halted(s, c)
    ensures Inv(s, Step(s, c))
  {
    if Running(c.mode) {
      RunningInv(s, c);
    } else if c.mode.PctEncoded? {
      ReadingStep(s, c);
    } else if c.mode == SchemeStart || c.mode == SchemeEnd {
      SchemeStep(s, c);
    } else if c.mode == PathEnd {
      PathStep(s, c);
    } else if c.mode == QueryEnd {
      QueryStep(s, c);
    } else {
      AuthorityInv(s, c);
    }
  }

  lemma {:induction false} ScanInv(s: string, c: Config)
    requires Inv(s, c)
    ensures Inv(s, Scan(s, c))
    decreases |s| - c.idx, Rank(c.mode)
  {
    if !Halted(s, c) {
      StepInv(s, c);
      StepProgress(s, c);
      ScanInv(s, Step(s, c));
    }
  }
}
