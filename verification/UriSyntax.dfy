/** The grammar of the URIs that are parsed and printed without loss, spelled out (sections 2 and 3 of RFC 3986). */
module UriSyntax {
  import opened Alphabets
  import opened Uri

  const SUB_DELIMS: string := "!$&'()*+,;="

  predicate IsLetter(c: char) { c in UPPER || c in LOWER }

  predicate Unreserved(c: char) { IsLetter(c) || c in DIGIT || c in "-._~" }

  /** The three alphabets of the components that allow percent-encoding. */
  datatype Alphabet = AuthorityAlphabet | PathAlphabet | QueryAlphabet

  predicate Permits(a: Alphabet, c: char) {
    || Unreserved(c) || c in SUB_DELIMS
    || match a
       case AuthorityAlphabet => false
       case PathAlphabet => c in ":@/"
       case QueryAlphabet => c in ":@/?"
  }

  /** Permitted characters and complete percent-encodings, nothing else. */
  predicate Text(a: Alphabet, t: string) {
    t == "" ||
    (Permits(a, t[0]) && Text(a, t[1..])) ||
    (|t| >= 3 && t[0] == '%' && t[1] in HEXDIG && t[2] in HEXDIG && Text(a, t[3..]))
  }

  predicate Scheme(t: string) {
    t != "" && IsLetter(t[0]) && forall i :: 0 <= i < |t| ==> IsLetter(t[i]) || t[i] in DIGIT || t[i] in "+-."
  }

  predicate Port(t: string) { forall i :: 0 <= i < |t| ==> t[i] in DIGIT }

  /** Authority text, an opening bracket at i, and what may stand in a TCP6 address. */
  predicate AddressAt(t: string, i: int) {
    && 0 <= i < |t| && t[i] == '[' && Text(AuthorityAlphabet, t[..i])
    && forall j :: i < j < |t| ==> t[j] in HEXDIG || t[j] == ':'
  }

  ghost predicate OpenAddress(t: string) { exists i :: AddressAt(t, i) }

  /** A host that ends in a bracketed address. */
  ghost predicate Address(t: string) {
    |t| >= 1 && t[|t| - 1] == ']' && OpenAddress(t[..|t| - 1])
  }

  ghost predicate Host(t: string) { t != "" && (Text(AuthorityAlphabet, t) || Address(t)) }

  /** The components before the path, and that the path cannot be taken for a part of them. */
  ghost predicate Prefix(u: Parts) {
    && Scheme(u.scheme) && Text(AuthorityAlphabet, u.userinfo) && Port(u.port)
    && if u.host == "" then u.userinfo == "" && u.port == "" && (u.path != "" ==> u.path[0] != '/')
       else && Host(u.host) && u.path != ""
            && if u.port != "" then u.path[0] !in DIGIT
               else if Address(u.host) then u.path[0] != ':'
               else u.path[0] == '/'
  }

  /** Nothing but a scheme and a plain host. */
  predicate Bare(u: Parts) {
    && Scheme(u.scheme) && u.host != "" && Text(AuthorityAlphabet, u.host)
    && u == Parts(u.scheme, "", u.host, "", "", "", "")
  }

  ghost predicate Grammatical(u: Parts) {
    || Bare(u)
    || (&& Prefix(u) && Text(PathAlphabet, u.path) && Text(QueryAlphabet, u.query) && Text(QueryAlphabet, u.fragment)
        && (u.query != "" || u.fragment != "" ==> u.path != ""))
  }
}
