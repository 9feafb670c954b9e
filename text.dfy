/** String and path helpers used by the fetchers: prefix tests, trailing
    whitespace removal, the last `/`-separated segment of a URL and joining
    path components. */
module Text {

  /** `s.startswith(prefix)` */
  predicate StartsWith(s: string, prefix: string)
  {
    |prefix| <= |s| && s[..|prefix|] == prefix
  }

  /** `startswith` compares character by character: `s` begins with every
      character of `prefix`, at the same position. */
  lemma StartsWithCharwise(s: string, prefix: string)
    ensures StartsWith(s, prefix) <==>
      |prefix| <= |s| && forall i :: 0 <= i < |prefix| ==> s[i] == prefix[i]
  {
    if |prefix| <= |s| && forall i :: 0 <= i < |prefix| ==> s[i] == prefix[i] {
      assert s[..|prefix|] == prefix;
    }
  }

  lemma StartsWithExtend(s: string, more: string, prefix: string)
    requires StartsWith(s, prefix)
    ensures StartsWith(s + more, prefix)
  {
    assert (s + more)[..|prefix|] == s[..|prefix|];
  }

  lemma StartsWithSelf(s: string, more: string)
    ensures StartsWith(s + more, s)
  {
    assert (s + more)[..|s|] == s;
  }

  /** Two prefixes of one string are prefixes of each other, one way or the other. */
  lemma {:induction false} PrefixesComparable(s: string, a: string, b: string)
    requires StartsWith(s, a) && StartsWith(s, b)
    ensures StartsWith(a, b) || StartsWith(b, a)
  {
    if |b| <= |a| {
      assert a[..|b|] == s[..|a|][..|b|] == s[..|b|];
    } else {
      assert b[..|a|] == s[..|b|][..|a|] == s[..|a|];
    }
  }

  /** A string that disagrees with `prefix` at some position both have does
      not start with it, whatever follows. */
  lemma NotStartsWithAt(s: string, more: string, prefix: string, d: nat)
    requires d < |s| && d < |prefix| && s[d] != prefix[d]
    ensures !StartsWith(s + more, prefix)
  {
  }

  /** The characters Python's `str.rstrip()` removes (ASCII whitespace). */
  predicate IsSpace(c: char)
  {
    c == ' ' || c == '\t' || c == '\n' || c == '\r' || c == '\U{000B}' || c == '\U{000C}'
  }

  /** `s.rstrip()`: the longest prefix of `s` that does not end in whitespace. */
  function RStrip(s: string): (r: string)
    ensures |r| <= |s| && r == s[..|r|]
    ensures r == [] || !IsSpace(r[|r| - 1])
    ensures forall i :: |r| <= i < |s| ==> IsSpace(s[i])
  {
    if s == [] || !IsSpace(s[|s| - 1]) then s
    else RStrip(s[..|s| - 1])
  }

  /** `url.split("/")[-1]`: everything after the last slash, or all of `url`
      when it has none. */
  function LastSegment(url: string): (seg: string)
    ensures '/' !in seg
    ensures |seg| <= |url| && url[|url| - |seg|..] == seg
    ensures |seg| == |url| || url[|url| - |seg| - 1] == '/'
  {
    if url == [] || url[|url| - 1] == '/' then []
    else LastSegment(url[..|url| - 1]) + [url[|url| - 1]]
  }

  /** `Path(base) / part` for a relative component: an empty component leaves
      the path as it is (pathlib drops it). */
  function Join(base: string, part: string): (p: string)
    ensures part == [] ==> p == base
    ensures base == [] ==> p == part
    ensures base != [] && part != [] ==> p == base + "/" + part
  {
    if part == [] then base
    else if base == [] then part
    else base + "/" + part
  }
}
