/** Parsing and printing URIs are inverse to each other, exactly on the grammar of UriSyntax. */
module UriRoundTrip {
  import opened Alphabets
  import opened Ctype
  import opened Uri
  import opened UriGrammar
  import opened UriParsePrint
  import opened UriSyntax

  /** The scan ended in a mode whose pending component the final switch stores, and that component prints again. */
  predicate Lossless(s: string, c: Config) {
    || c.mode == PathStart
    || ((c.mode == AuthorityStart || c.mode == QueryStart || c.mode == FragmentStart) && c.mark < |s|)
  }

  // ---- printing undoes parsing ----

  lemma StoredHostPrints(s: string, c: Config)
    requires Inv(s, c) && c.idx == |s| && c.mode == AuthorityStart && c.mark < |s|
    ensures Print(Store(s, c)) == s && Wellformed(Store(s, c))
  {
    var u := Store(s, c);
    assert s == s[..c.mark] + s[c.mark..] && s[c.mark..] == s[c.mark..c.idx];
    PrintHost(u);
    assert Opening(u) == Opening(c.uri);
  }

  lemma StoredPrints(s: string, c: Config)
    requires Inv(s, c) && c.idx == |s| && Lossless(s, c)
    ensures Print(Store(s, c)) == s && Wellformed(Store(s, c))
  {
    if c.mode == AuthorityStart {
      StoredHostPrints(s, c);
    } else {
      var u := Store(s, c);
      assert s == s[..c.mark] + s[c.mark..] && s[c.mark..] == s[c.mark..c.idx];
      if c.mode == PathStart {
        PrintPath(u);
        assert u.(path := "") == c.uri;
      } else if c.mode == QueryStart {
        PrintQuery(u);
        assert u.(query := "") == c.uri;
      } else {
        PrintFragment(u);
        assert u.(fragment := "") == c.uri;
      }
    }
  }

  lemma UnstoredIsLost(s: string, c: Config)
    requires Inv(s, c) && c.idx == |s| && c.mode != Error && !Lossless(s, c)
    ensures Print(Store(s, c)) != s
  {
    if c.mode == SchemeStart {
      assert Print(EMPTY) == ":";
      assert s[0..c.idx] == s;
    } else if Running(c.mode) && c.mode != HostStart {
      assert s == s[..c.mark];
      assert Store(s, c) == c.uri;
    } else {
      assert |s[..c.mark]| <= |s|;
      assert Store(s, c) == c.uri;
    }
  }

  /** For every input that parse accepts, asString gives the input back exactly when the scan ended in the path, or in
      the authority, the query or the fragment with something left to store; and then the components are grammatical. */
  lemma PrintUndoesParse(s: string)
    requires Final(s).mode != Error
    ensures Print(Store(s, Final(s))) == s <==> Lossless(s, Final(s))
    ensures Lossless(s, Final(s)) ==> Grammatical(Store(s, Final(s)))
  {
    ScanInv(s, START);
    if Lossless(s, Final(s)) {
      StoredPrints(s, Final(s));
      WellformedIs(Store(s, Final(s)));
    } else {
      UnstoredIsLost(s, Final(s));
    }
  }

  // ---- parsing undoes printing ----

  /** An outcome of the scan, which an iteration of the loop does not change. */
  type Outcome = Config -> Config

  ghost predicate Stable(s: string, f: Outcome) {
    forall c: Config {:trigger Step(s, c)} ::
      c.mark <= c.idx < |s| && c.mode != Error && c.mode != Done ==> f(c) == f(Step(s, c))
  }

  /** The configuration in which mode m begins to read a component at i. */
  function At0(m: Mode, i: nat, u: Parts): Config { Config(m, m, i, i, u) }

  lemma RunChar(s: string, f: Outcome, c: Config)
    requires Stable(s, f) && Running(c.mode) && c.prev == c.mode && c.mark <= c.idx < |s|
    requires Allowed(AlphabetOf(c.mode), s[c.idx])
    ensures f(c) == f(c.(idx := c.idx + 1))
  {
    RunningStepIs(s, c);
  }

  lemma RunPercent(s: string, f: Outcome, c: Config)
    requires Stable(s, f) && Running(c.mode) && c.prev == c.mode && c.mark <= c.idx && c.idx + 2 < |s|
    requires s[c.idx] == '%' && IsXDigit(s[c.idx + 1]) && IsXDigit(s[c.idx + 2])
    ensures f(c) == f(c.(idx := c.idx + 3))
  {
    RunningStepIs(s, c);
    assert Step(s, c.(mode := PctEncoded(c.mode), prev := PctEncoded(c.mode))) == c.(idx := c.idx + 3);
  }

  lemma {:induction false} RunScan(s: string, f: Outcome, c: Config, j: nat)
    requires Stable(s, f) && Running(c.mode) && c.prev == c.mode && c.mark <= c.idx <= j <= |s|
    requires Segment(AlphabetOf(c.mode), s[c.idx..j])
    ensures f(c) == f(c.(idx := j))
    decreases j - c.idx
  {
    if c.idx < j {
      var t := s[c.idx..j];
      if t[0] != '%' {
        assert t[1..] == s[c.idx + 1..j];
        RunChar(s, f, c);
        RunScan(s, f, c.(idx := c.idx + 1), j);
      } else {
        assert t[3..] == s[c.idx + 3..j] && t[1] == s[c.idx + 1] && t[2] == s[c.idx + 2];
        RunPercent(s, f, c);
        RunScan(s, f, c.(idx := c.idx + 3), j);
      }
    } else {
      assert c.(idx := j) == c;
    }
  }

  lemma {:induction false} SchemeScan(s: string, f: Outcome, i: nat, j: nat)
    requires Stable(s, f) && 1 <= i <= j <= |s| && forall k :: i <= k < j ==> SchemeChar(s[k])
    ensures f(Config(SchemeStart, SchemeStart, i, 0, EMPTY)) == f(Config(SchemeStart, SchemeStart, j, 0, EMPTY))
    decreases j - i
  {
    if i < j {
      var c := Config(SchemeStart, SchemeStart, i, 0, EMPTY);
      assert Step(s, c) == c.(idx := i + 1);
      SchemeScan(s, f, i + 1, j);
    }
  }

  lemma {:induction false} PlainScan(s: string, f: Outcome, c: Config, j: nat)
    requires Stable(s, f) && c.prev == c.mode && c.mark <= c.idx <= j <= |s|
    requires || (c.mode == PortStart && forall k :: c.idx <= k < j ==> IsDigit(s[k]))
             || (c.mode == Tcp6Start && forall k :: c.idx <= k < j ==> Tcp6Char(s[k]))
    ensures f(c) == f(c.(idx := j))
    decreases j - c.idx
  {
    if c.idx < j {
      assert Step(s, c) == c.(idx := c.idx + 1);
      PlainScan(s, f, c.(idx := c.idx + 1), j);
    } else {
      assert c.(idx := j) == c;
    }
  }

  // ---- one component after the other ----

  lemma ScanScheme(s: string, f: Outcome, scheme: string)
    requires Stable(s, f) && SchemeOk(scheme) && |scheme| < |s| && s[..|scheme|] == scheme && s[|scheme|] == ':'
    ensures f(START) == f(Config(SchemeEnd, SchemeEnd, |scheme|, 0, EMPTY))
  {
    var n := |scheme|;
    assert forall k :: 0 <= k < n ==> s[k] == scheme[k];
    assert Step(s, START) == Config(SchemeStart, SchemeStart, 1, 0, EMPTY);
    SchemeScan(s, f, 1, n);
    assert Step(s, Config(SchemeStart, SchemeStart, n, 0, EMPTY)) == Config(SchemeEnd, SchemeEnd, n, 0, EMPTY);
  }

  lemma EnterAuthority(s: string, f: Outcome, scheme: string)
    requires Stable(s, f) && |scheme| + 3 <= |s| && s[..|scheme|] == scheme && s[|scheme|..|scheme| + 3] == "://"
    ensures f(Config(SchemeEnd, SchemeEnd, |scheme|, 0, EMPTY)) ==
            f(At0(AuthorityStart, |scheme| + 3, EMPTY.(scheme := scheme)))
  {
    var n := |scheme|;
    assert s[n] == s[n..n + 3][0] && s[n + 1] == s[n..n + 3][1] && s[n + 2] == s[n..n + 3][2];
    assert Step(s, Config(SchemeEnd, SchemeEnd, n, 0, EMPTY)) == At0(AuthorityStart, n + 3, EMPTY.(scheme := scheme));
  }

  lemma EnterPath(s: string, f: Outcome, scheme: string)
    requires Stable(s, f) && |scheme| + 1 <= |s| && s[..|scheme|] == scheme && At(s, |scheme| + 1) != '/'
    ensures f(Config(SchemeEnd, SchemeEnd, |scheme|, 0, EMPTY)) ==
            f(At0(PathStart, |scheme| + 1, EMPTY.(scheme := scheme)))
  {
    assert Step(s, Config(SchemeEnd, SchemeEnd, |scheme|, 0, EMPTY)) ==
           At0(PathStart, |scheme| + 1, EMPTY.(scheme := scheme));
  }

  /** The two steps at the end of the user information. */
  lemma UserInfoEnds(s: string, f: Outcome, i: nat, j: nat, u: Parts)
    requires Stable(s, f) && i < j < |s| && s[j] == '@'
    ensures f(At0(AuthorityStart, i, u).(idx := j)) == f(At0(HostStart, j + 1, u.(userinfo := s[i..j])))
  {
    var c := At0(AuthorityStart, i, u).(idx := j);
    var c1 := c.(mode := UserInfoEnd, prev := UserInfoEnd);
    assert Step(s, c) == c1;
    assert Step(s, c1) == At0(HostStart, j + 1, u.(userinfo := s[i..j]));
  }

  lemma ScanUserInfo(s: string, f: Outcome, i: nat, u: Parts, userinfo: string)
    requires Stable(s, f)
    requires i + |userinfo| < |s| && s[i..i + |userinfo|] == userinfo && s[i + |userinfo|] == '@'
    requires userinfo != "" && Segment(AuthorityAlphabet, userinfo)
    ensures f(At0(AuthorityStart, i, u)) == f(At0(HostStart, i + |userinfo| + 1, u.(userinfo := userinfo)))
  {
    ScanUserInfoTo(s, f, i, i + |userinfo|, u);
  }

  lemma ScanUserInfoTo(s: string, f: Outcome, i: nat, j: nat, u: Parts)
    requires Stable(s, f) && i < j < |s| && s[j] == '@' && Segment(AuthorityAlphabet, s[i..j])
    ensures f(At0(AuthorityStart, i, u)) == f(At0(HostStart, j + 1, u.(userinfo := s[i..j])))
  {
    RunScan(s, f, At0(AuthorityStart, i, u), j);
    UserInfoEnds(s, f, i, j, u);
  }

  lemma BracketAt(s: string, i: nat, host: string) returns (k: nat)
    requires i + |host| <= |s| && s[i..i + |host|] == host && Bracketed(host)
    ensures i + k + 1 < i + |host| && Segment(AuthorityAlphabet, s[i..i + k]) && s[i + k] == '['
    ensures s[i + |host| - 1] == ']'
    ensures forall n :: i + k + 1 <= n < i + |host| - 1 ==> Tcp6Char(s[n])
  {
    var inner := host[..|host| - 1];
    var m :| OpensAt(inner, m);
    k := m;
    assert forall n :: i <= n < i + |host| ==> s[n] == host[n - i];
    assert s[i..i + k] == inner[..k];
    assert forall n :: i + k + 1 <= n < i + |host| - 1 ==> s[n] == inner[n - i];
  }

  /** From an opening bracket to past the closing one. */
  lemma ScanAddress(s: string, f: Outcome, c: Config, j: nat)
    requires Stable(s, f) && (c.mode == AuthorityStart || c.mode == HostStart) && c.prev == c.mode
    requires c.mark <= c.idx && c.idx + 1 < j <= |s| && s[c.idx] == '[' && s[j - 1] == ']'
    requires forall n :: c.idx + 1 <= n < j - 1 ==> Tcp6Char(s[n])
    ensures f(c) == f(Config(HostEnd, HostEnd, j, c.mark, c.uri))
  {
    var c2 := Config(Tcp6Start, Tcp6Start, c.idx + 1, c.mark, c.uri);
    assert Step(s, c) == c2;
    PlainScan(s, f, c2, j - 1);
    assert Step(s, c2.(idx := j - 1)) == Config(HostEnd, HostEnd, j, c.mark, c.uri);
  }

  lemma ScanBracket(s: string, f: Outcome, c: Config, host: string)
    requires Stable(s, f) && (c.mode == AuthorityStart || c.mode == HostStart) && c == At0(c.mode, c.idx, c.uri)
    requires c.idx + |host| <= |s| && s[c.idx..c.idx + |host|] == host && Bracketed(host)
    ensures f(c) == f(Config(HostEnd, HostEnd, c.idx + |host|, c.idx, c.uri))
  {
    var k := BracketAt(s, c.idx, host);
    RunScan(s, f, c, c.idx + k);
    ScanAddress(s, f, c.(idx := c.idx + k), c.idx + |host|);
  }

  /** From the beginning of the host to its end, where the rest of the string cannot be taken for part of the host. */
  lemma ScanHost(s: string, f: Outcome, c: Config, host: string)
    requires Stable(s, f) && (c.mode == AuthorityStart || c.mode == HostStart) && c == At0(c.mode, c.idx, c.uri)
    requires HostOk(host) && c.idx + |host| < |s| && s[c.idx..c.idx + |host|] == host
    requires Bracketed(host) || s[c.idx + |host|] == ':' || s[c.idx + |host|] == '/'
    ensures f(c) == f(Config(HostEnd, HostEnd, c.idx + |host|, c.idx, c.uri))
  {
    var j := c.idx + |host|;
    if !Bracketed(host) {
      RunScan(s, f, c, j);
      assert Step(s, c.(idx := j)) == Config(HostEnd, HostEnd, j, c.idx, c.uri);
    } else {
      ScanBracket(s, f, c, host);
    }
  }

  /** From the end of the host past a port. */
  lemma ScanPort(s: string, f: Outcome, i: nat, mark: nat, u: Parts)
    requires Stable(s, f) && mark < i && i + 1 + |u.port| < |s| && s[mark..i] == u.host
    requires s[i] == ':' && s[i + 1..i + 1 + |u.port|] == u.port && u.port != "" && Digits(u.port)
    requires !IsDigit(s[i + 1 + |u.port|])
    ensures f(Config(HostEnd, HostEnd, i, mark, u.(host := "", port := ""))) == f(At0(PathStart, i + 1 + |u.port|, u))
  {
    var c1, j := At0(PortStart, i + 1, u.(port := "")), i + 1 + |u.port|;
    assert Step(s, Config(HostEnd, HostEnd, i, mark, u.(host := "", port := ""))) == c1;
    assert forall k :: i + 1 <= k < j ==> s[k] == u.port[k - i - 1];
    PlainScan(s, f, c1, j);
    var c3 := c1.(idx := j, mode := PortEnd, prev := PortEnd);
    assert Step(s, c1.(idx := j)) == c3;
    assert Step(s, c3) == At0(PathStart, j, u);
  }

  lemma NoPort(s: string, f: Outcome, i: nat, mark: nat, u: Parts)
    requires Stable(s, f) && mark < i < |s| && s[mark..i] == u.host && s[i] != ':'
    ensures f(Config(HostEnd, HostEnd, i, mark, u.(host := ""))) == f(At0(PathStart, i, u))
  {
    assert Step(s, Config(HostEnd, HostEnd, i, mark, u.(host := ""))) == At0(PathStart, i, u);
  }

  lemma LeavePath(s: string, f: Outcome, c: Config)
    requires Stable(s, f) && c.mode == PathStart && c.mark < c.idx < |s| && (s[c.idx] == '?' || s[c.idx] == '#')
    ensures f(c) == f(At0(if s[c.idx] == '?' then QueryStart else FragmentStart, c.idx + 1,
                          c.uri.(path := s[c.mark..c.idx])))
  {
    var c1 := c.(mode := PathEnd, prev := PathEnd);
    assert Step(s, c) == c1;
    assert Step(s, c1) == At0(if s[c.idx] == '?' then QueryStart else FragmentStart, c.idx + 1,
                              c.uri.(path := s[c.mark..c.idx]));
  }

  lemma LeaveQuery(s: string, f: Outcome, c: Config)
    requires Stable(s, f) && c.mode == QueryStart && c.mark < c.idx < |s| && s[c.idx] == '#'
    ensures f(c) == f(At0(FragmentStart, c.idx + 1, c.uri.(query := s[c.mark..c.idx])))
  {
    var c1 := c.(mode := QueryEnd, prev := QueryEnd);
    assert Step(s, c) == c1;
    assert Step(s, c1) == At0(FragmentStart, c.idx + 1, c.uri.(query := s[c.mark..c.idx]));
  }

  // ---- whole URIs ----

  /** What follows the path. */
  function Tail(u: Parts): string {
    (if u.query != "" then "?" + u.query else "") + (if u.fragment != "" then "#" + u.fragment else "")
  }

  /** The configuration in which the scan of a URI with a path ends. */
  function EndOf(s: string, u: Parts): Config
    requires |u.path + Tail(u)| <= |s|
  {
    if u.fragment != "" then Config(FragmentStart, FragmentStart, |s|, |s| - |u.fragment|, u.(fragment := ""))
    else if u.query != "" then Config(QueryStart, QueryStart, |s|, |s| - |u.query|, u.(query := ""))
    else Config(PathStart, PathStart, |s|, |s| - |u.path|, u.(path := ""))
  }

  ghost predicate PathOk(u: Parts) {
    && Segment(PathAlphabet, u.path) && Segment(QueryAlphabet, u.query) && Segment(QueryAlphabet, u.fragment)
    && (u.query != "" || u.fragment != "" ==> u.path != "")
  }

  lemma ScanFragment(s: string, f: Outcome, u: Parts, i: nat)
    requires Stable(s, f) && PathOk(u) && i <= |s| && u.fragment != "" && s[i..] == u.fragment
    requires |u.path + Tail(u)| <= |s|
    ensures f(At0(FragmentStart, i, u.(fragment := ""))) == f(EndOf(s, u))
  {
    assert s[i..|s|] == u.fragment;
    RunScan(s, f, At0(FragmentStart, i, u.(fragment := "")), |s|);
  }

  lemma ScanQuery(s: string, f: Outcome, u: Parts, i: nat)
    requires Stable(s, f) && PathOk(u) && i <= |s| && u.query != "" && s[i..] == Tail(u)[1..]
    requires |u.path + Tail(u)| <= |s|
    ensures f(At0(QueryStart, i, u.(query := "", fragment := ""))) == f(EndOf(s, u))
  {
    var c, j := At0(QueryStart, i, u.(query := "", fragment := "")), i + |u.query|;
    var tail := Tail(u)[1..];
    assert tail[..|u.query|] == u.query;
    assert s[i..j] == s[i..][..|u.query|];
    RunScan(s, f, c, j);
    if u.fragment != "" {
      assert tail[|u.query|] == '#' && tail[|u.query| + 1..] == u.fragment;
      assert s[j] == s[i..][|u.query|];
      assert s[j + 1..] == s[i..][|u.query| + 1..];
      LeaveQuery(s, f, c.(idx := j));
      ScanFragment(s, f, u, j + 1);
    }
  }

  /** From the beginning of the path to the end of the string. */
  lemma ScanPath(s: string, f: Outcome, u: Parts, i: nat)
    requires Stable(s, f) && PathOk(u) && i <= |s| && s[i..] == u.path + Tail(u)
    ensures f(At0(PathStart, i, u.(path := "", query := "", fragment := ""))) == f(EndOf(s, u))
  {
    var c, j := At0(PathStart, i, u.(path := "", query := "", fragment := "")), i + |u.path|;
    assert s[i..j] == s[i..][..|u.path|] == u.path;
    RunScan(s, f, c, j);
    if Tail(u) != "" {
      PastPath(s, f, u, i);
    }
  }

  lemma PastPath(s: string, f: Outcome, u: Parts, i: nat)
    requires Stable(s, f) && PathOk(u) && i <= |s| && s[i..] == u.path + Tail(u) && Tail(u) != ""
    ensures f(Config(PathStart, PathStart, i + |u.path|, i, u.(path := "", query := "", fragment := ""))) ==
            f(EndOf(s, u))
  {
    var j := i + |u.path|;
    var c := Config(PathStart, PathStart, j, i, u.(path := "", query := "", fragment := ""));
    assert s[i..j] == s[i..][..|u.path|] == u.path;
    assert s[j] == s[i..][|u.path|] == Tail(u)[0];
    assert s[j + 1..] == s[i..][|u.path| + 1..] == Tail(u)[1..];
    LeavePath(s, f, c);
    if u.query != "" {
      ScanQuery(s, f, u, j + 1);
    } else {
      ScanFragment(s, f, u, j + 1);
    }
  }

  /** From the beginning of the host to the beginning of the path. */
  lemma HostPortStands(s: string, i: nat, u: Parts, rest: string)
    requires i <= |s| && s[i..] == HostPort(u, rest)
    ensures var h, n := i + |u.host|, |u.port|;
      && h <= |s| && s[i..h] == u.host
      && (if u.port == "" then s[h..] == rest
          else h + 1 + n <= |s| && s[h] == ':' && s[h + 1..h + 1 + n] == u.port && s[h + 1 + n..] == rest)
  {
    var h, n, t := i + |u.host|, |u.port|, s[i..];
    assert s[i..h] == t[..|u.host|];
    assert s[h..] == t[|u.host|..];
    if u.port != "" {
      assert s[h..][0] == ':' && s[h + 1..h + 1 + n] == s[h..][1..1 + n] && s[h + 1 + n..] == s[h..][1 + n..];
    }
  }

  lemma ScanHostPort(s: string, f: Outcome, m: Mode, i: nat, u: Parts, rest: string)
    requires Stable(s, f) && (m == AuthorityStart || m == HostStart) && i <= |s|
    requires u.host != "" && PathFits(u, rest)
    requires s[i..] == HostPort(u, rest)
    ensures f(At0(m, i, u.(host := "", port := ""))) == f(At0(PathStart, |s| - |rest|, u))
  {
    var h := i + |u.host|;
    HostPortStands(s, i, u, rest);
    if u.port != "" {
      assert s[h + 1 + |u.port|..][0] == rest[0];
      ScanHost(s, f, At0(m, i, u.(host := "", port := "")), u.host);
      ScanPort(s, f, h, i, u);
    } else {
      assert s[h..][0] == rest[0];
      ScanHost(s, f, At0(m, i, u.(host := "", port := "")), u.host);
      NoPort(s, f, h, i, u);
    }
  }

  /** From the start to the beginning of a path without a host. */
  lemma ScanNoHost(s: string, f: Outcome, u: Parts, rest: string)
    requires Stable(s, f) && NoPath(u) && PathFits(u, rest) && u.host == "" && s == Print(u) + rest
    ensures f(START) == f(At0(PathStart, |s| - |rest|, u))
  {
    var n := |u.scheme|;
    assert s == u.scheme + ":" + rest;
    assert s[..n] == u.scheme && s[n] == ':' && (rest != "" ==> s[n + 1] == rest[0]);
    ScanScheme(s, f, u.scheme);
    EnterPath(s, f, u.scheme);
  }

  /** The authority and what follows it. */
  function Authority(u: Parts, rest: string): string {
    (if u.userinfo != "" then u.userinfo + "@" else "") + HostPort(u, rest)
  }

  function HostPort(u: Parts, rest: string): string {
    u.host + (if u.port != "" then ":" + u.port else "") + rest
  }

  lemma ScanAuthority(s: string, f: Outcome, i: nat, u: Parts, rest: string)
    requires Stable(s, f) && NoPath(u) && PathFits(u, rest) && u.host != "" && i <= |s| && s[i..] == Authority(u, rest)
    ensures f(At0(AuthorityStart, i, EMPTY.(scheme := u.scheme))) == f(At0(PathStart, |s| - |rest|, u))
  {
    if u.userinfo != "" {
      var k := i + |u.userinfo|;
      var a := s[i..];
      assert a[..|u.userinfo|] == u.userinfo && a[|u.userinfo|] == '@' && a[|u.userinfo| + 1..] == HostPort(u, rest);
      assert s[i..k] == a[..|u.userinfo|] && s[k] == a[|u.userinfo|] && s[k + 1..] == a[|u.userinfo| + 1..];
      ScanUserInfo(s, f, i, EMPTY.(scheme := u.scheme), u.userinfo);
      ScanHostPort(s, f, HostStart, k + 1, u, rest);
    } else {
      ScanHostPort(s, f, AuthorityStart, i, u, rest);
    }
  }

  /** From the start to the beginning of a path after an authority. */
  lemma ScanWithHost(s: string, f: Outcome, u: Parts, rest: string)
    requires Stable(s, f) && NoPath(u) && PathFits(u, rest) && u.host != ""
    requires s == u.scheme + "://" + Authority(u, rest)
    ensures f(START) == f(At0(PathStart, |s| - |rest|, u))
  {
    var n := |u.scheme|;
    assert s[..n] == u.scheme && s[n] == ':' && s[n..n + 3] == "://" && s[n + 3..] == Authority(u, rest);
    ScanScheme(s, f, u.scheme);
    EnterAuthority(s, f, u.scheme);
    ScanAuthority(s, f, n + 3, u, rest);
  }

  lemma JoinRight(a: string, b: string, c: string, d: string, e: string)
    ensures a + "://" + b + c + d + e == a + "://" + (b + (c + d + e))
  {
  }

  lemma PrintWithHost(u: Parts, rest: string)
    requires u.host != "" && NoPath(u)
    ensures Print(u) + rest == u.scheme + "://" + Authority(u, rest)
  {
    var ui := if u.userinfo != "" then u.userinfo + "@" else "";
    var port := if u.port != "" then ":" + u.port else "";
    assert Print(u) == u.scheme + "://" + ui + u.host + port;
    JoinRight(u.scheme, ui, u.host, port, rest);
  }

  /** A scheme and a plain host. */
  lemma ScanHostOnly(s: string, f: Outcome, u: Parts)
    requires Stable(s, f) && HostOnly(u) && s == Print(u)
    ensures f(START) == f(Config(AuthorityStart, AuthorityStart, |s|, |u.scheme| + 3, u.(host := "")))
  {
    var n := |u.scheme|;
    assert s == u.scheme + "://" + u.host;
    assert s[..n] == u.scheme && s[n] == ':' && s[n..n + 3] == "://" && s[n + 3..|s|] == u.host;
    ScanScheme(s, f, u.scheme);
    EnterAuthority(s, f, u.scheme);
    RunScan(s, f, At0(AuthorityStart, n + 3, u.(host := "")), |s|);
  }

  lemma ScanIsStable(s: string) returns (f: Outcome)
    ensures Stable(s, f) && f(START) == Final(s)
    ensures forall c: Config :: c.mark <= c.idx <= |s| && Halted(s, c) ==> f(c) == c
  {
    f := (c: Config) => if c.mark <= c.idx <= |s| then Scan(s, c) else c;
  }

  lemma PrintFrontPath(u: Parts)
    ensures Print(u) == Print(u.(path := "", query := "", fragment := "")) + (u.path + Tail(u))
  {
  }

  /** The scan of a printed tuple comes to the beginning of its path. */
  lemma ScanToPath(s: string, f: Outcome, u: Parts, front: Parts, rest: string)
    requires Stable(s, f) && Wellformed(u) && !HostOnly(u) && s == Print(u)
    requires front == u.(path := "", query := "", fragment := "") && rest == u.path + Tail(u)
    ensures |rest| <= |s| && s[|s| - |rest|..] == rest
    ensures f(START) == f(At0(PathStart, |s| - |rest|, front))
  {
    PrintFrontPath(u);
    assert rest != "" ==> u.path != "" && rest[0] == u.path[0];
    if front.host == "" {
      ScanNoHost(s, f, front, rest);
    } else {
      PrintWithHost(front, rest);
      ScanWithHost(s, f, front, rest);
    }
    assert s[|s| - |rest|..] == rest;
  }

  /** The configuration the scan of a printed tuple ends in. */
  lemma ScanPrinted(u: Parts)
    requires Wellformed(u) && !HostOnly(u)
    ensures var s := Print(u);
            |u.path + Tail(u)| <= |s| && s[|s| - |u.path + Tail(u)|..] == u.path + Tail(u)
            && Final(s) == EndOf(s, u)
  {
    var s, front, rest := Print(u), u.(path := "", query := "", fragment := ""), u.path + Tail(u);
    var f := ScanIsStable(s);
    ScanToPath(s, f, u, front, rest);
    ScanPath(s, f, u, |s| - |rest|);
    assert Halted(s, EndOf(s, u));
  }

  lemma ScanPrintedHost(u: Parts)
    requires HostOnly(u)
    ensures Final(Print(u)) == Config(AuthorityStart, AuthorityStart, |Print(u)|, |u.scheme| + 3, u.(host := ""))
    ensures |u.scheme| + 3 < |Print(u)| && Print(u)[|u.scheme| + 3..] == u.host
  {
    var s := Print(u);
    var f := ScanIsStable(s);
    assert s == u.scheme + "://" + u.host;
    ScanHostOnly(s, f, u);
  }

  /** Every grammatical component tuple, printed and parsed, comes back, and the scan ends without loss. */
  lemma ParseUndoesPrint(u: Parts)
    requires Grammatical(u)
    ensures Final(Print(u)).mode != Error
    ensures Lossless(Print(u), Final(Print(u)))
    ensures Store(Print(u), Final(Print(u))) == u
  {
    WellformedIs(u);
    WellformedScans(u);
  }

  lemma WellformedScans(u: Parts)
    requires Wellformed(u)
    ensures Final(Print(u)).mode != Error
    ensures Lossless(Print(u), Final(Print(u)))
    ensures Store(Print(u), Final(Print(u))) == u
  {
    if HostOnly(u) {
      ScanPrintedHost(u);
    } else {
      ScanPrinted(u);
      EndStores(Print(u), u);
    }
  }

  lemma EndStores(s: string, u: Parts)
    requires |u.path + Tail(u)| <= |s| && s[|s| - |u.path + Tail(u)|..] == u.path + Tail(u)
    ensures var c := EndOf(s, u); c.mark <= c.idx == |s| && Lossless(s, c) && Store(s, c) == u
  {
    var rest := u.path + Tail(u);
    if u.fragment != "" {
      assert s[|s| - |u.fragment|..] == rest[|rest| - |u.fragment|..] == u.fragment;
    } else if u.query != "" {
      assert s[|s| - |u.query|..] == rest[|rest| - |u.query|..] == u.query;
    }
  }

  /** The strings that parse without loss are exactly the printed forms of the grammatical tuples. */
  lemma GrammarIsExact(s: string)
    ensures (Final(s).mode != Error && Lossless(s, Final(s))) <==> exists u :: Grammatical(u) && Print(u) == s
  {
    if Final(s).mode != Error && Lossless(s, Final(s)) {
      PrintUndoesParse(s);
    }
    if u :| Grammatical(u) && Print(u) == s {
      ParseUndoesPrint(u);
    }
  }

  /** Inputs that are accepted and not given back exist: the scan of a scheme alone stores nothing. */
  lemma LossHappens()
    ensures Final("a").mode == SchemeStart && Print(Store("a", Final("a"))) == ":" != "a"
  {
    assert Step("a", START) == Config(SchemeStart, SchemeStart, 1, 0, EMPTY);
  }

  // ---- percent-encodings ----

  /** Every '%' is followed by two hexadecimal digits. */
  predicate Encoded(t: string) {
    forall i :: 0 <= i < |t| && t[i] == '%' ==> i + 2 < |t| && IsXDigit(t[i + 1]) && IsXDigit(t[i + 2])
  }

  predicate AllEncoded(u: Parts) {
    && Encoded(u.scheme) && Encoded(u.userinfo) && Encoded(u.host) && Encoded(u.port)
    && Encoded(u.path) && Encoded(u.query) && Encoded(u.fragment)
  }

  lemma SegmentEncoded(a: Alphabet, t: string)
    requires Segment(a, t)
    ensures Encoded(t)
  {
    forall i | 0 <= i < |t| && t[i] == '%'
      ensures i + 2 < |t| && IsXDigit(t[i + 1]) && IsXDigit(t[i + 2])
    {
      PercentIsEncoded(a, t, i);
    }
  }

  lemma HostEncoded(t: string)
    requires HostOk(t)
    ensures Encoded(t)
  {
    if Segment(AuthorityAlphabet, t) {
      SegmentEncoded(AuthorityAlphabet, t);
    } else {
      var front := t[..|t| - 1];
      var k :| OpensAt(front, k);
      SegmentEncoded(AuthorityAlphabet, front[..k]);
      assert forall i :: 0 <= i < k ==> t[i] == front[..k][i];
      assert forall i :: k < i < |front| ==> t[i] == front[i];
    }
  }

  lemma PartsEncoded(u: Parts)
    requires SchemeOk(u.scheme) && Segment(AuthorityAlphabet, u.userinfo)
    requires (u.host == "" || HostOk(u.host)) && Digits(u.port)
    requires Segment(PathAlphabet, u.path) && Segment(QueryAlphabet, u.query) && Segment(QueryAlphabet, u.fragment)
    ensures AllEncoded(u)
  {
    SegmentEncoded(AuthorityAlphabet, u.userinfo);
    if u.host != "" { HostEncoded(u.host); }
    SegmentEncoded(PathAlphabet, u.path);
    SegmentEncoded(QueryAlphabet, u.query);
    SegmentEncoded(QueryAlphabet, u.fragment);
  }

  /** What the scan has stored in a mode other than the error is encoded. */
  lemma StoredEncoded(s: string, c: Config)
    requires Inv(s, c) && c.mode != Error
    ensures AllEncoded(c.uri)
  {
    if c.uri != EMPTY { PartsEncoded(c.uri); }
  }

  /** A step into the error stores nothing, except that a scheme may have been stored. */
  lemma ErrorStores(s: string, c: Config)
    requires c.mark <= c.idx < |s| && c.mode != Error && c.mode != Done && Step(s, c).mode == Error
    ensures Step(s, c).uri == c.uri || (c.mode == SchemeEnd && Step(s, c).uri == c.uri.(scheme := s[c.mark..c.idx]))
  {
  }

  lemma StepEncoded(s: string, c: Config)
    requires Inv(s, c) && !Halted(s, c) && Inv(s, Step(s, c)) && AllEncoded(c.uri)
    ensures AllEncoded(Step(s, c).uri)
  {
    if Step(s, c).mode != Error {
      StoredEncoded(s, Step(s, c));
    } else {
      ErrorStores(s, c);
    }
  }

  lemma {:induction false} ScanEncoded(s: string, c: Config)
    requires Inv(s, c) && AllEncoded(c.uri)
    ensures AllEncoded(Scan(s, c).uri)
    decreases |s| - c.idx, Rank(c.mode)
  {
    if !Halted(s, c) {
      StepProgress(s, c);
      StepInv(s, c);
      StepEncoded(s, c);
      ScanEncoded(s, Step(s, c));
    }
  }

  lemma FinalEncoded(s: string, c: Config)
    requires Inv(s, c) && AllEncoded(c.uri) && (Running(c.mode) ==> c.idx == |s|)
    ensures AllEncoded(Store(s, c))
  {
    if Running(c.mode) {
      assert s[c.mark..] == s[c.mark..c.idx];
      SegmentEncoded(AlphabetOf(c.mode), s[c.mark..]);
    }
  }

  /** A percent sign without two hexadecimal digits ends the scan at the first octet that is none, or at the end. */
  lemma BadPercentStops(s: string, c: Config)
    requires c.mark <= c.idx < |s| && c.mode.PctEncoded? && s[c.idx] == '%'
    requires !(c.idx + 2 < |s| && s[c.idx + 1] in HEXDIG && s[c.idx + 2] in HEXDIG)
    ensures var r := Step(s, c);
      && r.mode == Error && c.idx < r.idx && r.uri == c.uri
      && (r.idx < |s| ==> s[r.idx] !in HEXDIG) && forall j :: c.idx < j < r.idx ==> s[j] in HEXDIG
  {
    if c.idx + 1 < |s| { DigitIs(s[c.idx + 1]); }
    if c.idx + 2 < |s| { DigitIs(s[c.idx + 2]); }
  }

  /** For every input, accepted or not, every '%' in every stored component is followed by two hexadecimal digits. */
  lemma EveryPercentEncoded(s: string)
    ensures AllEncoded(Store(s, Final(s)))
  {
    ScanEncoded(s, START);
    ScanInv(s, START);
    FinalEncoded(s, Final(s));
  }
}
