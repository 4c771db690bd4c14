/** URI::parse, the scanning automaton of uri.cpp, and URI::asString. */
module Uri {
  import opened Ctype

  datatype Parts = Parts(scheme: string, userinfo: string, host: string, port: string,
                         path: string, query: string, fragment: string)

  const EMPTY := Parts("", "", "", "", "", "", "")

  /** asString. */
  function Print(u: Parts): string {
    u.scheme + ":" +
    (if u.host != "" then "//" else "") +
    (if u.userinfo != "" then u.userinfo + "@" else "") +
    u.host +
    (if u.port != "" then ":" + u.port else "") +
    u.path +
    (if u.query != "" then "?" + u.query else "") +
    (if u.fragment != "" then "#" + u.fragment else "")
  }

  // ---- the verify*Char predicates ----

  predicate SchemeChar(c: char) { IsAlpha(c) || IsDigit(c) || c == '+' || c == '.' || c == '-' }

  predicate OctetChar(c: char) { IsAlpha(c) || IsDigit(c) || c == '-' || c == '.' || c == '_' || c == '~' }

  predicate Tcp6Char(c: char) { 'a' <= c <= 'f' || 'A' <= c <= 'F' || IsDigit(c) || c == ':' }

  predicate UserInfoHostChar(c: char) {
    OctetChar(c) || c == '!' || c == '$' || c == '&' || c == '\'' || c == '(' || c == ')' || c == '*' ||
    c == '+' || c == ',' || c == ';' || c == '='
  }

  predicate PathChar(c: char) { UserInfoHostChar(c) || c == ':' || c == '/' || c == '@' }

  predicate QueryFragmentChar(c: char) { UserInfoHostChar(c) || c == ':' || c == '@' || c == '/' || c == '?' }

  // ---- the automaton ----

  /** ParseState. PctEncoded carries return_state. */
  datatype Mode =
    | SchemeStart | SchemeEnd | AuthorityStart | UserInfoEnd | HostStart | HostEnd | PortStart | PortEnd
    | PathStart | PathEnd | QueryStart | QueryEnd | FragmentStart | Tcp6Start | PctEncoded(back: Mode)
    | Error | Done

  /** The variables of the scanning loop. */
  datatype Config = Config(mode: Mode, prev: Mode, idx: nat, mark: nat, uri: Parts)

  const START := Config(SchemeStart, Error, 0, 0, EMPTY)

  /** s[i], where the position one past the end reads as NUL. */
  function At(s: string, i: nat): char
    requires i <= |s|
  {
    if i < |s| then s[i] else '\0'
  }

  /** The transition that neither stores a component nor moves the index. */
  function Goto(c: Config, m: Mode): Config { c.(mode := m) }

  function Advance(c: Config): Config { c.(idx := c.idx + 1) }

  /** One iteration of the switch, before prev_state is updated. */
  function Switch(s: string, c: Config): (r: Config)
    requires c.mark <= c.idx < |s|
    ensures c.idx <= r.idx <= |s| && r.mark <= r.idx
  {
    var ch := s[c.idx];
    var piece := s[c.mark..c.idx];
    match c.mode
    case SchemeStart =>
      if c.prev != SchemeStart && !IsAlpha(ch) then Goto(c, Error)
      else if ch == ':' then Goto(c, SchemeEnd)
      else if SchemeChar(ch) then Advance(c) else Goto(c, Error)
    case SchemeEnd =>
      var c1 := Advance(c.(uri := c.uri.(scheme := piece)));
      if At(s, c1.idx) == '/' then
        var c2 := Advance(c1);
        if At(s, c2.idx) == '/' then c2.(idx := c2.idx + 1, mark := c2.idx + 1, mode := AuthorityStart)
        else Goto(c2, Error)
      else c1.(mode := PathStart, mark := c1.idx)
    case AuthorityStart =>
      if ch == '@' then Goto(c, UserInfoEnd)
      else if ch == '/' || ch == ':' then Goto(c, HostEnd)
      else if ch == '[' then Advance(Goto(c, Tcp6Start))
      else if ch == '%' then Goto(c, PctEncoded(AuthorityStart))
      else if UserInfoHostChar(ch) then Advance(c) else Goto(c, Error)
    case UserInfoEnd =>
      if c.idx > c.mark
      then c.(uri := c.uri.(userinfo := piece), idx := c.idx + 1, mark := c.idx + 1, mode := HostStart)
      else Goto(c, Error)
    case HostStart =>
      if ch == '[' then Advance(Goto(c, Tcp6Start))
      else if ch == ':' || ch == '/' then Goto(c, HostEnd)
      else if UserInfoHostChar(ch) then Advance(c)
      else if ch == '%' then Goto(c, PctEncoded(HostStart)) else Goto(c, Error)
    case Tcp6Start =>
      if ch == ']' then Advance(Goto(c, HostEnd))
      else if Tcp6Char(ch) then Advance(c) else Goto(c, Error)
    case HostEnd =>
      if c.idx > c.mark then
        var c1 := c.(uri := c.uri.(host := piece));
        if ch == ':' then c1.(mode := PortStart, idx := c.idx + 1, mark := c.idx + 1)
        else c1.(mode := PathStart, mark := c.idx)
      else Goto(c, Error)
    case PortStart =>
      if !IsDigit(ch) then Goto(c, PortEnd) else Advance(c)
    case PortEnd =>
      if c.idx > c.mark then c.(uri := c.uri.(port := piece), mode := PathStart, mark := c.idx) else Goto(c, Error)
    case PathStart =>
      if ch == '?' || ch == '#' then Goto(c, PathEnd)
      else if PathChar(ch) then Advance(c)
      else if ch == '%' then Goto(c, PctEncoded(PathStart)) else Goto(c, Error)
    case PathEnd =>
      if c.idx > c.mark then
        var m := if ch == '?' then QueryStart else if ch == '#' then FragmentStart else PathEnd;
        c.(uri := c.uri.(path := piece), mode := m, idx := c.idx + 1, mark := c.idx + 1)
      else Goto(c, Error)
    case QueryStart =>
      if ch == '#' then Goto(c, QueryEnd)
      else if QueryFragmentChar(ch) then Advance(c)
      else if ch == '%' then Goto(c, PctEncoded(QueryStart)) else Goto(c, Error)
    case QueryEnd =>
      if c.idx > c.mark
      then c.(uri := c.uri.(query := piece), mode := FragmentStart, idx := c.idx + 1, mark := c.idx + 1)
      else Goto(c, Error)
    case FragmentStart =>
      if QueryFragmentChar(ch) then Advance(c)
      else if ch == '%' then Goto(c, PctEncoded(FragmentStart)) else Goto(c, Error)
    case PctEncoded(back) =>
      if ch == '%' then
        if c.idx + 1 < |s| && IsXDigit(s[c.idx + 1]) then
          if c.idx + 2 < |s| && IsXDigit(s[c.idx + 2]) then c.(idx := c.idx + 3, mode := back)
          else c.(idx := c.idx + 2, mode := Error)
        else c.(idx := c.idx + 1, mode := Error)
      else Goto(c, Error)
    case Error => Advance(c)
    case Done => Advance(c)
  }

  function Step(s: string, c: Config): (r: Config)
    requires c.mark <= c.idx < |s|
    ensures c.idx <= r.idx <= |s| && r.mark <= r.idx && r.prev == r.mode
  {
    var r := Switch(s, c);
    r.(prev := r.mode)
  }

  /** The loop guard is false. */
  predicate Halted(s: string, c: Config) {
    c.mode == Done || c.mode == Error || c.idx >= |s|
  }

  /** Orders the modes so that a transition that does not move the index goes down. */
  function Rank(m: Mode): nat {
    match m
    case SchemeStart => 5
    case AuthorityStart => 5
    case HostStart => 5
    case PortStart => 5
    case QueryStart => 5
    case FragmentStart => 5
    case HostEnd => 4
    case PortEnd => 4
    case PathStart => 3
    case PctEncoded(_) => 1
    case Error => 0
    case Done => 0
    case _ => 2
  }

  /** Every iteration moves the index or goes down in rank. */
  lemma StepProgress(s: string, c: Config)
    requires c.mark <= c.idx < |s| && c.mode != Error && c.mode != Done
    ensures var r := Step(s, c); c.idx < r.idx || (c.idx == r.idx && Rank(r.mode) < Rank(c.mode))
  {
  }

  /** The loop, from configuration c. */
  function Scan(s: string, c: Config): (r: Config)
    requires c.mark <= c.idx <= |s|
    ensures Halted(s, r) && r.mark <= r.idx <= |s|
    decreases |s| - c.idx, Rank(c.mode)
  {
    if Halted(s, c) then c
    else
      StepProgress(s, c);
      Scan(s, Step(s, c))
  }

  /** The switch after the loop. */
  function Store(s: string, c: Config): Parts
    requires c.mark <= |s|
  {
    var rest := s[c.mark..];
    match c.mode
    case AuthorityStart => c.uri.(host := rest)
    case PathStart => c.uri.(path := rest)
    case QueryStart => c.uri.(query := rest)
    case FragmentStart => c.uri.(fragment := rest)
    case _ => c.uri
  }

  /** The result of parse on a fresh URI. */
  function Final(s: string): (r: Config)
    ensures r.mark <= r.idx <= |s|
  {
    Scan(s, START)
  }

  class URI {
    var parts: Parts

    constructor ()
      ensures parts == EMPTY
    {
      parts := EMPTY;
    }

    method Parse(s: string) returns (ok: bool, idx: nat)
      modifies this
      ensures ok == (Final(s).mode != Error)
      ensures parts == Store(s, Final(s))
      ensures idx == Final(s).idx <= |s|
    {
      var c := START;
      while c.mode != Done && c.mode != Error && c.idx < |s|
        invariant c.mark <= c.idx <= |s|
        invariant Scan(s, c) == Final(s)
        decreases |s| - c.idx, Rank(c.mode)
      {
        StepProgress(s, c);
        c := Step(s, c);
      }
      parts := Store(s, c);
      ok, idx := c.mode != Error, c.idx;
    }
  }
}
