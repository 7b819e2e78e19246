/** Strings as Java compares them, restricted to ASCII letters for case conversion. */
module Text {
  import opened Exceptions

  /** Character.toUpperCase on ASCII. */
  function Upper(c: char): (u: char)
    ensures 'a' <= c <= 'z' ==> 'A' <= u <= 'Z'
    ensures !('a' <= c <= 'z') ==> u == c
  {
    if 'a' <= c <= 'z' then (c as int - 32) as char else c
  }

  /** Character.toLowerCase on ASCII. */
  function Lower(c: char): (l: char)
    ensures 'A' <= c <= 'Z' ==> 'a' <= l <= 'z'
    ensures !('A' <= c <= 'Z') ==> l == c
  {
    if 'A' <= c <= 'Z' then (c as int + 32) as char else c
  }

  /** Two characters match the way String.equalsIgnoreCase compares them. */
  predicate CharEqualsIgnoreCase(x: char, y: char) {
    x == y || Upper(x) == Upper(y) || Lower(x) == Lower(y)
  }

  /** String.equalsIgnoreCase. */
  predicate EqualsIgnoreCase(a: string, b: string) {
    |a| == |b| && forall i :: 0 <= i < |a| ==> CharEqualsIgnoreCase(a[i], b[i])
  }

  /** String.startsWith. */
  predicate StartsWith(s: string, prefix: string) {
    |prefix| <= |s| && s[..|prefix|] == prefix
  }

  lemma EqualsIgnoreCaseReflexive(a: string)
    ensures EqualsIgnoreCase(a, a)
  {
  }

  /** The position of the first string in `xs` equal to `key` ignoring case. */
  function IndexIgnoreCase(xs: seq<string>, key: string): (r: Option<nat>)
    ensures r.Some? ==> r.value < |xs| && EqualsIgnoreCase(xs[r.value], key)
    ensures r.Some? ==> forall j :: 0 <= j < r.value ==> !EqualsIgnoreCase(xs[j], key)
    ensures r.None? <==> forall j :: 0 <= j < |xs| ==> !EqualsIgnoreCase(xs[j], key)
  {
    if xs == [] then None
    else if EqualsIgnoreCase(xs[0], key) then Some(0)
    else match IndexIgnoreCase(xs[1..], key)
      case None => None
      case Some(j) => Some(j + 1)
  }
}
