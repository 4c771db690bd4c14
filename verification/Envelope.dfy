/** The ENC[...] text around encrypted data: how it is printed and decoded, and the padding of keys. */
module Envelope {
  import opened Ctype
  import opened Wrappers

  // --- split

  /** The position of the first delimiter, or the length. */
  function FindChar(s: string, c: char, i: nat): (j: nat)
    requires i <= |s|
    ensures i <= j <= |s| && (j < |s| ==> s[j] == c) && forall k :: i <= k < j ==> s[k] != c
    decreases |s| - i
  {
    if i < |s| && s[i] != c then FindChar(s, c, i + 1) else i
  }

  /** split: what successive calls of getline deliver. Nothing follows a delimiter at the end. */
  function Split(s: string, c: char): (r: seq<string>) {
    if s == "" then []
    else
      var j := FindChar(s, c, 0);
      if j == |s| then [s] else [s[..j]] + Split(s[j + 1..], c)
  }

  lemma {:induction false} FindCharIs(s: string, c: char, i: nat, j: nat)
    requires i <= j <= |s| && (forall k :: i <= k < j ==> s[k] != c) && (j < |s| ==> s[j] == c)
    ensures FindChar(s, c, i) == j
    decreases j - i
  {
    if i < j { FindCharIs(s, c, i + 1, j); }
  }

  lemma SplitFirst(a: string, c: char, rest: string)
    requires c !in a
    ensures Split(a + [c] + rest, c) == [a] + Split(rest, c)
  {
    var s := a + [c] + rest;
    FindCharIs(s, c, 0, |a|);
    assert s[..|a|] == a && s[|a| + 1..] == rest;
  }

  lemma SplitLast(a: string, c: char)
    requires c !in a && a != ""
    ensures Split(a, c) == [a]
  {
    FindCharIs(a, c, 0, |a|);
  }

  lemma {:induction false} PiecesAreFree(s: string, c: char)
    ensures forall i :: 0 <= i < |Split(s, c)| ==> c !in Split(s, c)[i]
    ensures forall i :: 0 <= i < |Split(s, c)| ==> forall x :: x in Split(s, c)[i] ==> x in s
    decreases |s|
  {
    if s != "" {
      var j := FindChar(s, c, 0);
      if j < |s| { PiecesAreFree(s[j + 1..], c); }
    }
  }

  /** split, by a loop over the stream of characters. */
  method SplitText(s: string, c: char) returns (r: seq<string>)
    ensures r == Split(s, c)
  {
    r := [];
    var i := 0;
    while i < |s|
      invariant 0 <= i <= |s| && r + Split(s[i..], c) == Split(s, c)
    {
      var j := i;
      while j < |s| && s[j] != c
        invariant i <= j <= |s| && forall k :: i <= k < j ==> s[k] != c
      {
        j := j + 1;
      }
      SplitStep(s, c, i, j);
      ghost var rest := Split(s[if j < |s| then j + 1 else j..], c);
      assert r + [s[i..j]] + rest == r + ([s[i..j]] + rest);
      r := r + [s[i..j]];
      i := if j < |s| then j + 1 else j;
    }
  }

  /** What one getline from position i takes off. */
  lemma SplitStep(s: string, c: char, i: nat, j: nat)
    requires i < |s| && i <= j <= |s| && (forall k :: i <= k < j ==> s[k] != c) && (j < |s| ==> s[j] == c)
    ensures Split(s[i..], c) == [s[i..j]] + Split(s[if j < |s| then j + 1 else j..], c)
  {
    if j < |s| {
      assert s[i..] == s[i..j] + [c] + s[j + 1..];
      SplitFirst(s[i..j], c, s[j + 1..]);
    } else {
      assert s[i..] == s[i..j] && s[j..] == "";
      SplitLast(s[i..j], c);
    }
  }

  // --- The envelope

  datatype Parts = Parts(cipher: string, data: string, iv: string, tag: string)

  /** The end of encrypt. */
  function Print(p: Parts): string {
    "ENC[cipher:" + p.cipher + ",data:" + p.data + ",iv:" + p.iv + ",tag:" + p.tag + "]"
  }

  /** One section assigned to its part; None stands for decode returning false. */
  function Assign(p: Parts, section: string): Option<Parts> {
    var tokens := Split(section, ':');
    if |tokens| != 2 then None
    else if tokens[0] == "cipher" then Some(p.(cipher := tokens[1]))
    else if tokens[0] == "data" then Some(p.(data := tokens[1]))
    else if tokens[0] == "iv" then Some(p.(iv := tokens[1]))
    else if tokens[0] == "tag" then Some(p.(tag := tokens[1]))
    else None
  }

  function AssignAll(p: Parts, sections: seq<string>): Option<Parts>
    decreases |sections|
  {
    if sections == [] then Some(p)
    else match Assign(p, sections[0])
      case None => None
      case Some(q) => AssignAll(q, sections[1..])
  }

  /** The position of the last character that is no white space, or 0. */
  function CloseAt(s: string, i: nat): (j: nat)
    requires i < |s|
    ensures j <= i && (j == 0 || !IsSpace(s[j])) && forall k :: j < k <= i ==> IsSpace(s[k])
  {
    if IsSpace(s[i]) && i > 0 then CloseAt(s, i - 1) else i
  }

  predicate Opens(s: string) { |s| >= 4 && s[..4] == "ENC[" }

  predicate Filled(p: Parts) { p.cipher != "" && p.data != "" && p.iv != "" && p.tag != "" }

  const EMPTY: Parts := Parts("", "", "", "")

  /** What stands between the brackets, if they are there. */
  function Inner(src: string): (r: Option<string>) {
    if !Opens(src) then None
    else
      var close := CloseAt(src, |src| - 1);
      if src[close] != ']' || close < 4 then None else Some(src[4..close])
  }

  /** decode */
  function Decoded(src: string): Option<Parts> {
    match Inner(src)
    case None => None
    case Some(inner) =>
      var sections := Split(inner, ',');
      if |sections| != 4 then None
      else
        match AssignAll(EMPTY, sections)
        case None => None
        case Some(p) => if Filled(p) then Some(p) else None
  }

  /** decode, with its loops; the parts are what the output parameters hold on success. */
  method Decode(src: string) returns (ok: bool, p: Parts)
    ensures (if ok then Some(p) else None) == Decoded(src)
  {
    p := EMPTY;
    if !Opens(src) {
      return false, p;
    }
    var close := |src| - 1;
    while IsSpace(src[close]) && close > 0
      invariant 0 <= close < |src| && CloseAt(src, |src| - 1) == CloseAt(src, close)
    {
      close := close - 1;
    }
    if src[close] != ']' {
      return false, p;
    }
    assert src[..4][0] == 'E' && src[..4][1] == 'N' && src[..4][2] == 'C' && src[..4][3] == '[';
    var sections := SplitText(src[4..close], ',');
    if |sections| != 4 {
      return false, p;
    }
    var i := 0;
    while i < |sections|
      invariant 0 <= i <= |sections| && AssignAll(p, sections[i..]) == AssignAll(EMPTY, sections)
    {
      var next := Assign(p, sections[i]);
      if next == None {
        return false, p;
      }
      assert sections[i..][1..] == sections[i + 1..];
      p := next.value;
      i := i + 1;
    }
    assert sections[i..] == [];
    ok := Filled(p);
  }

  predicate Blank(t: string) { forall i :: 0 <= i < |t| ==> IsSpace(t[i]) }

  predicate Encloses(src: string, inner: string, blanks: string) {
    src == "ENC[" + inner + "]" + blanks && Blank(blanks)
  }

  lemma {:induction false} CloseIs(s: string, i: nat, j: nat)
    requires j <= i < |s| && !IsSpace(s[j]) && forall k :: j < k <= i ==> IsSpace(s[k])
    ensures CloseAt(s, i) == j
    decreases i
  {
    if j < i { CloseIs(s, i - 1, j); }
  }

  /** What decode looks into is what stands between "ENC[" and a bracket that only white space follows. */
  lemma InnerExactly(src: string, inner: string)
    ensures Inner(src) == Some(inner) <==> exists blanks :: Encloses(src, inner, blanks)
  {
    if Inner(src) == Some(inner) {
      var close := CloseAt(src, |src| - 1);
      assert src == src[..4] + src[4..close] + [src[close]] + src[close + 1..];
      assert Encloses(src, inner, src[close + 1..]);
    }
    if blanks :| Encloses(src, inner, blanks) {
      var j := 4 + |inner|;
      assert src[..4] == "ENC[" && src[j] == ']' && src[4..j] == inner;
      assert forall k :: j < k < |src| ==> src[k] == blanks[k - j - 1];
      CloseIs(src, |src| - 1, j);
    }
  }

  // --- Round trip

  /** Not empty, and free of the two delimiters. */
  predicate Plain(t: string) { t != "" && ',' !in t && ':' !in t }

  predicate AllPlain(p: Parts) { Plain(p.cipher) && Plain(p.data) && Plain(p.iv) && Plain(p.tag) }

  function Named(name: string, value: string): string { name + ":" + value }

  lemma SplitNamed(p: Parts, name: string, value: string)
    requires ':' !in name && Plain(value)
    ensures Split(Named(name, value), ':') == [name, value]
  {
    SplitFirst(name, ':', value);
    SplitLast(value, ':');
    assert name + [':'] + value == Named(name, value);
  }

  function Sections(p: Parts): seq<string> {
    [Named("cipher", p.cipher), Named("data", p.data), Named("iv", p.iv), Named("tag", p.tag)]
  }

  function Joined(p: Parts): string {
    var s := Sections(p);
    s[0] + "," + (s[1] + "," + (s[2] + "," + s[3]))
  }

  lemma SplitComma(a: string, rest: string)
    requires ',' !in a
    ensures Split(a + "," + rest, ',') == [a] + Split(rest, ',')
  {
    SplitFirst(a, ',', rest);
  }

  lemma SplitTwo(c: string, d: string)
    requires ',' !in c && ',' !in d && d != ""
    ensures Split(c + "," + d, ',') == [c, d]
  {
    SplitComma(c, d);
    SplitLast(d, ',');
  }

  lemma SplitMore(a: string, rest: string, pieces: seq<string>)
    requires ',' !in a && Split(rest, ',') == pieces
    ensures Split(a + "," + rest, ',') == [a] + pieces
  {
    SplitComma(a, rest);
  }

  lemma SplitFour(a: string, b: string, c: string, d: string)
    requires ',' !in a && ',' !in b && ',' !in c && ',' !in d && d != ""
    ensures Split(a + "," + (b + "," + (c + "," + d)), ',') == [a, b, c, d]
  {
    SplitTwo(c, d);
    SplitMore(b, c + "," + d, [c, d]);
    SplitMore(a, b + "," + (c + "," + d), [b] + [c, d]);
    assert [a] + ([b] + [c, d]) == [a, b, c, d];
  }

  lemma SplitSections(p: Parts)
    requires AllPlain(p)
    ensures Split(Joined(p), ',') == Sections(p)
  {
    var s := Sections(p);
    SplitFour(s[0], s[1], s[2], s[3]);
  }

  lemma AssignSections(p: Parts)
    requires AllPlain(p)
    ensures AssignAll(EMPTY, Sections(p)) == Some(p)
  {
    var s := Sections(p);
    SplitNamed(p, "cipher", p.cipher);
    SplitNamed(p, "data", p.data);
    SplitNamed(p, "iv", p.iv);
    SplitNamed(p, "tag", p.tag);
    var p1 := EMPTY.(cipher := p.cipher);
    var p2 := p1.(data := p.data);
    var p3 := p2.(iv := p.iv);
    assert AssignAll(p3, s[3..]) == Some(p) by { assert s[3..][1..] == []; }
    assert AssignAll(p2, s[2..]) == Some(p) by { assert s[2..][1..] == s[3..]; }
    assert AssignAll(p1, s[1..]) == Some(p) by { assert s[1..][1..] == s[2..]; }
  }

  lemma {:induction false} ClosesAt(s: string, i: nat, j: nat)
    requires j <= i < |s| && !IsSpace(s[j]) && forall k :: j < k <= i ==> IsSpace(s[k])
    ensures CloseAt(s, i) == j
    decreases i
  {
    if j < i { ClosesAt(s, i - 1, j); }
  }

  lemma PrintIs(p: Parts)
    ensures Print(p) == "ENC[" + Joined(p) + "]"
  {
  }

  lemma InnerOf(inner: string, blanks: string)
    requires forall i :: 0 <= i < |blanks| ==> IsSpace(blanks[i])
    ensures Inner("ENC[" + inner + "]" + blanks) == Some(inner)
  {
    var text := "ENC[" + inner + "]";
    var src := text + blanks;
    assert src[..4] == "ENC[";
    assert src[|text| - 1] == ']';
    ClosesAt(src, |src| - 1, |text| - 1);
    assert src[4..|text| - 1] == inner;
  }

  lemma InnerOfPrint(p: Parts, blanks: string)
    requires forall i :: 0 <= i < |blanks| ==> IsSpace(blanks[i])
    ensures Inner(Print(p) + blanks) == Some(Joined(p))
  {
    PrintIs(p);
    InnerOf(Joined(p), blanks);
  }

  /** Whatever decode delivers is plain. */
  lemma AssignKeepsPlain(p: Parts, section: string)
    requires ',' !in section && Assign(p, section).Some?
    ensures var tokens := Split(section, ':'); |tokens| == 2 && ',' !in tokens[1] && ':' !in tokens[1]
  {
    PiecesAreFree(section, ':');
  }

  predicate NoDelimiter(t: string) { ',' !in t && ':' !in t }

  predicate NoDelimiters(p: Parts) {
    NoDelimiter(p.cipher) && NoDelimiter(p.data) && NoDelimiter(p.iv) && NoDelimiter(p.tag)
  }

  lemma {:induction false} AssignAllKeepsFree(p: Parts, sections: seq<string>)
    requires NoDelimiters(p) && forall i :: 0 <= i < |sections| ==> ',' !in sections[i]
    requires AssignAll(p, sections).Some?
    ensures NoDelimiters(AssignAll(p, sections).value)
    decreases |sections|
  {
    if sections != [] {
      AssignKeepsPlain(p, sections[0]);
      AssignAllKeepsFree(Assign(p, sections[0]).value, sections[1..]);
    }
  }

  lemma DecodedIsPlain(src: string)
    requires Decoded(src).Some?
    ensures AllPlain(Decoded(src).value)
  {
    var inner := Inner(src).value;
    PiecesAreFree(inner, ',');
    AssignAllKeepsFree(EMPTY, Split(inner, ','));
  }

  /** A printed envelope, with any white space after it, decodes to its parts if and only if they are all plain. */
  lemma EnvelopeRoundTrip(p: Parts, blanks: string)
    requires forall i :: 0 <= i < |blanks| ==> IsSpace(blanks[i])
    ensures Decoded(Print(p) + blanks) == Some(p) <==> AllPlain(p)
  {
    InnerOfPrint(p, blanks);
    if AllPlain(p) {
      SplitSections(p);
      AssignSections(p);
    }
    if Decoded(Print(p) + blanks) == Some(p) {
      DecodedIsPlain(Print(p) + blanks);
    }
  }

  // --- What a successful decode has seen

  const LABELS: set<string> := {"cipher", "data", "iv", "tag"}

  /** The value that a name's part holds. */
  function Part(p: Parts, name: string): string
    requires name in LABELS
  {
    if name == "cipher" then p.cipher else if name == "data" then p.data else if name == "iv" then p.iv else p.tag
  }

  /** The section is name:value. */
  predicate Labels(section: string, name: string, value: string) { Split(section, ':') == [name, value] }

  /** A part that is filled by the sections was filled by one of them. */
  lemma {:induction false} FilledBy(p: Parts, sections: seq<string>, name: string) returns (i: nat)
    requires name in LABELS && AssignAll(p, sections).Some?
    requires Part(p, name) != Part(AssignAll(p, sections).value, name)
    ensures i < |sections| && Labels(sections[i], name, Part(AssignAll(p, sections).value, name))
    decreases |sections|
  {
    var q := Assign(p, sections[0]).value;
    var tokens := Split(sections[0], ':');
    assert tokens == [tokens[0], tokens[1]];
    if Part(q, name) != Part(AssignAll(p, sections).value, name) {
      i := FilledBy(q, sections[1..], name);
      i := i + 1;
    } else {
      i := 0;
    }
  }

  /** A successful decode means four sections: those at c, d, v and t, each with one of the labels and its value. */
  lemma DecodedSections(src: string) returns (sections: seq<string>, c: nat, d: nat, v: nat, t: nat)
    requires Decoded(src).Some?
    ensures Inner(src).Some? && sections == Split(Inner(src).value, ',') && |sections| == 4
    ensures c < 4 && Labels(sections[c], "cipher", Decoded(src).value.cipher)
    ensures d < 4 && Labels(sections[d], "data", Decoded(src).value.data)
    ensures v < 4 && Labels(sections[v], "iv", Decoded(src).value.iv)
    ensures t < 4 && Labels(sections[t], "tag", Decoded(src).value.tag)
    ensures c != d && c != v && c != t && d != v && d != t && v != t
  {
    sections := Split(Inner(src).value, ',');
    c := FilledBy(EMPTY, sections, "cipher");
    d := FilledBy(EMPTY, sections, "data");
    v := FilledBy(EMPTY, sections, "iv");
    t := FilledBy(EMPTY, sections, "tag");
    assert |"iv"| == 2 && |"tag"| == 3 && |"data"| == 4 && |"cipher"| == 6;
  }

  /** The section has one of the labels, and a value. */
  predicate Labelled(section: string) { |Split(section, ':')| == 2 && Split(section, ':')[0] in LABELS }

  predicate AllLabelled(sections: seq<string>) { forall i :: 0 <= i < |sections| ==> Labelled(sections[i]) }

  /** Labelled sections are all assigned; a part keeps its value up to the section with its label, and takes
      that one. */
  lemma {:induction false} PartTakes(p: Parts, sections: seq<string>, name: string, i: nat)
    requires AllLabelled(sections) && name in LABELS && i <= |sections|
    requires forall j :: 0 <= j < |sections| && j != i ==> Split(sections[j], ':')[0] != name
    requires i < |sections| ==> Split(sections[i], ':')[0] == name
    ensures AssignAll(p, sections).Some?
    ensures Part(AssignAll(p, sections).value, name) ==
            if i < |sections| then Split(sections[i], ':')[1] else Part(p, name)
    decreases |sections|
  {
    if sections != [] {
      var q := Assign(p, sections[0]).value;
      assert Part(q, name) == if i == 0 then Split(sections[0], ':')[1] else Part(p, name);
      PartTakes(q, sections[1..], name, if i == 0 then |sections| - 1 else i - 1);
    }
  }

  /** The sections with the four labels stand at c, d, v and t. */
  predicate LabelsAt(s: seq<string>, p: Parts, c: nat, d: nat, v: nat, t: nat) {
    && c < |s| && Labels(s[c], "cipher", p.cipher) && d < |s| && Labels(s[d], "data", p.data)
    && v < |s| && Labels(s[v], "iv", p.iv) && t < |s| && Labels(s[t], "tag", p.tag)
  }

  /** Nothing but the section at i has the label. */
  predicate OnlyAt(s: seq<string>, name: string, i: nat) {
    AllLabelled(s) && forall j :: 0 <= j < |s| && j != i ==> Split(s[j], ':')[0] != name
  }

  lemma LabelsCover(s: seq<string>, p: Parts, c: nat, d: nat, v: nat, t: nat)
    requires |s| == 4 && LabelsAt(s, p, c, d, v, t)
    ensures OnlyAt(s, "cipher", c) && OnlyAt(s, "data", d) && OnlyAt(s, "iv", v) && OnlyAt(s, "tag", t)
  {
    assert |"iv"| == 2 && |"tag"| == 3 && |"data"| == 4 && |"cipher"| == 6;
    forall i | 0 <= i < |s|
      ensures Labelled(s[i])
      ensures Split(s[i], ':')[0] ==
        if i == c then "cipher" else if i == d then "data" else if i == v then "iv" else "tag"
    {
      assert i == c || i == d || i == v || i == t;
    }
  }

  lemma PartIs(s: seq<string>, name: string, value: string, i: nat)
    requires name in LABELS && i < |s| && Labels(s[i], name, value) && OnlyAt(s, name, i)
    ensures AssignAll(EMPTY, s).Some? && Part(AssignAll(EMPTY, s).value, name) == value
  {
    PartTakes(EMPTY, s, name, i);
  }

  lemma SectionsAssign(s: seq<string>, p: Parts, c: nat, d: nat, v: nat, t: nat)
    requires |s| == 4 && LabelsAt(s, p, c, d, v, t)
    ensures AssignAll(EMPTY, s) == Some(p)
  {
    LabelsCover(s, p, c, d, v, t);
    PartIs(s, "cipher", p.cipher, c);
    PartIs(s, "data", p.data, d);
    PartIs(s, "iv", p.iv, v);
    PartIs(s, "tag", p.tag, t);
  }

  /** Conversely, four sections with the four labels decode to their values, in whatever order they stand. */
  lemma AnyOrderDecodes(src: string, p: Parts, c: nat, d: nat, v: nat, t: nat)
    requires Filled(p) && Inner(src).Some? && |Split(Inner(src).value, ',')| == 4
    requires LabelsAt(Split(Inner(src).value, ','), p, c, d, v, t)
    ensures Decoded(src) == Some(p)
  {
    SectionsAssign(Split(Inner(src).value, ','), p, c, d, v, t);
  }

  // --- paddedKey

  datatype Cipher = Aes128 | Aes192 | Aes256 | Invalid

  function KeyOctets(c: Cipher): nat {
    match c
    case Aes128 => 16
    case Aes192 => 24
    case Aes256 => 32
    case Invalid => 0
  }

  /** The numbers in the names are the bits of the key. */
  lemma KeySizes()
    ensures KeyOctets(Aes128) * 8 == 128 && KeyOctets(Aes192) * 8 == 192 && KeyOctets(Aes256) * 8 == 256
    ensures KeyOctets(Invalid) == 0
  {
  }

  /** paddedKey; None stands for the exception on an empty key. The key is repeated, or cut, to the cipher's size. */
  method PaddedKey(c: Cipher, key: string) returns (r: Option<string>)
    ensures r == None <==> key == ""
    ensures r.Some? ==> |r.value| == KeyOctets(c) && forall i :: 0 <= i < |r.value| ==> r.value[i] == key[i % |key|]
  {
    if |key| < 1 {
      return None;
    }
    var text, idx := "", 0;
    while |text| < KeyOctets(c)
      invariant |text| <= KeyOctets(c) && idx == |text| % |key|
      invariant forall i :: 0 <= i < |text| ==> text[i] == key[i % |key|]
    {
      text := text + [key[idx]];
      NextIndex(|text| - 1, |key|);
      idx := idx + 1;
      if idx > |key| - 1 {
        idx := 0;
      }
    }
    r := Some(text);
  }

  lemma NextIndex(n: nat, m: nat)
    requires m > 0
    ensures (n + 1) % m == if n % m + 1 > m - 1 then 0 else n % m + 1
  {
    var q, k := n / m, n % m;
    assert n == q * m + k;
    if k + 1 > m - 1 {
      assert n + 1 == (q + 1) * m;
      ModIs(n + 1, q + 1, 0, m);
    } else {
      assert n + 1 == q * m + (k + 1);
      ModIs(n + 1, q, k + 1, m);
    }
  }

  lemma ModIs(n: nat, q: nat, k: nat, m: nat)
    requires m > 0 && k < m && n == q * m + k
    ensures n % m == k
  {
    Unique(q, k, n / m, n % m, m);
  }

  lemma Unique(q: int, k: int, q': int, k': int, m: int)
    requires 0 <= k < m && 0 <= k' < m && q * m + k == q' * m + k'
    ensures k == k'
  {
    if q > q' {
      Apart(q', q, m);
    } else if q < q' {
      Apart(q, q', m);
    }
  }

  lemma Apart(q: int, q': int, m: int)
    requires q < q' && m > 0
    ensures q * m + m <= q' * m
  {
    var a := q' - q - 1;
    assert q' * m == q * m + a * m + m;
    assert a * m >= 0;
  }
}
