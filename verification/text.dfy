/** String helpers for the comparisons the system relies on: ordinal (exact)
    prefixes, and the ordinal case-insensitive comparisons of .NET, modelled by
    upper-casing the ASCII letters. */
module Text {
  import opened Wrappers

  /** Upper-cases one ASCII letter and leaves every other character alone. */
  function UpperChar(c: char): (r: char)
    ensures 'a' <= c <= 'z' ==> 'A' <= r <= 'Z' && r as int == c as int - 32
    ensures !('a' <= c <= 'z') ==> r == c
  {
    if 'a' <= c <= 'z' then (c as int - 32) as char else c
  }

  /** `ToUpperInvariant`, restricted to ASCII letters. */
  function ToUpper(s: string): (r: string)
    ensures |r| == |s|
    ensures forall i :: 0 <= i < |s| ==> r[i] == UpperChar(s[i])
  {
    seq(|s|, i requires 0 <= i < |s| => UpperChar(s[i]))
  }

  /** `string.StartsWith(prefix)` with ordinal comparison. */
  predicate StartsWith(s: string, prefix: string) {
    |prefix| <= |s| && s[..|prefix|] == prefix
  }

  /** `string.StartsWith(prefix, StringComparison.OrdinalIgnoreCase)`. */
  predicate StartsWithIgnoreCase(s: string, prefix: string) {
    |prefix| <= |s| && ToUpper(s[..|prefix|]) == ToUpper(prefix)
  }

  /** `string.Equals(a, b, StringComparison.OrdinalIgnoreCase)`. */
  predicate EqualsIgnoreCase(a: string, b: string) {
    ToUpper(a) == ToUpper(b)
  }

  /** True when `c` does not occur in `s`. */
  predicate Lacks(s: string, c: char) {
    forall i :: 0 <= i < |s| ==> s[i] != c
  }

  /** An exact prefix is also a case-insensitive prefix. */
  lemma StartsWithIgnoresCase(s: string, prefix: string)
    requires StartsWith(s, prefix)
    ensures StartsWithIgnoreCase(s, prefix)
  {
  }

  /** A case-insensitive prefix of a case-insensitive prefix is one of the whole string. */
  lemma {:induction false} StartsWithIgnoreCaseTransitive(s: string, mid: string, prefix: string)
    requires StartsWithIgnoreCase(s, mid)
    requires StartsWithIgnoreCase(mid, prefix)
    ensures StartsWithIgnoreCase(s, prefix)
  {
    var n := |prefix|;
    forall i | 0 <= i < n
      ensures ToUpper(s[..n])[i] == ToUpper(prefix)[i]
    {
      assert ToUpper(s[..|mid|])[i] == ToUpper(mid)[i];
      assert ToUpper(mid[..n])[i] == ToUpper(prefix)[i];
    }
  }

  /** The position of the first occurrence of `c` in `s`, if any (`IndexOf`). */
  function IndexOf(s: string, c: char): (r: Option<nat>)
    ensures r.None? ==> Lacks(s, c)
    ensures r.Some? ==> r.value < |s| && s[r.value] == c && Lacks(s[..r.value], c)
  {
    if |s| == 0 then None
    else if s[0] == c then Some(0)
    else match IndexOf(s[1..], c)
      case None => None
      case Some(k) => Some(k + 1)
  }
}
