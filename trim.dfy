/**
 * The PHP-style `trim(str, charlist)` of index.js:428-475: strip every leading
 * and trailing character that belongs to a strip set.
 */
module Trim {

  /** The default strip set, the whitespace list of index.js:429-452. */
  const WHITESPACE: string :=
    " \n\r\t\U{000C}\U{000B}\U{00A0}"
    + "\U{2000}\U{2001}\U{2002}\U{2003}\U{2004}\U{2005}\U{2006}\U{2007}\U{2008}\U{2009}\U{200A}\U{200B}"
    + "\U{2028}\U{2029}\U{3000}"

  /**
   * The strip set `trim` uses: the characters of `charlist` when it is given,
   * the whitespace list otherwise. The empty string stands for both of the
   * falsy values (`undefined`, `""`) the test `if (charlist)` rejects.
   */
  function StripSet(charlist: string): (cs: string)
    ensures charlist != "" ==> cs == charlist
    ensures charlist == "" ==> cs == WHITESPACE
  {
    if charlist == "" then WHITESPACE else charlist
  }

  /** Number of leading characters of `s` that are in `cs`. */
  function LeadingRun(s: string, cs: string): (n: nat)
    ensures n <= |s|
    ensures forall k :: 0 <= k < n ==> s[k] in cs
    ensures n < |s| ==> s[n] !in cs
  {
    if s == [] || s[0] !in cs then 0 else 1 + LeadingRun(s[1..], cs)
  }

  /** Number of trailing characters of `s` that are in `cs`. */
  function TrailingRun(s: string, cs: string): (n: nat)
    ensures n <= |s|
    ensures forall k :: |s| - n <= k < |s| ==> s[k] in cs
    ensures n < |s| ==> s[|s| - 1 - n] !in cs
  {
    if s == [] || s[|s| - 1] !in cs then 0
    else
      var m := TrailingRun(s[..|s| - 1], cs);
      assert forall k :: |s| - 1 - m <= k < |s| - 1 ==> s[k] == s[..|s| - 1][k];
      1 + m
  }

  /** `s` without its leading and trailing characters from `cs`. */
  function Trimmed(s: string, cs: string): (r: string)
    ensures r == [] <==> forall k :: 0 <= k < |s| ==> s[k] in cs
    ensures r != [] ==> r[0] !in cs && r[|r| - 1] !in cs
  {
    var a := LeadingRun(s, cs);
    if a == |s| then []
    else
      var b := |s| - TrailingRun(s, cs);
      assert s[a] !in cs;
      s[a..b]
  }

  /** `r` is `s[a..b]` and everything `s` has outside `[a, b)` is in `cs`. */
  ghost predicate StrippedAt(s: string, cs: string, r: string, a: nat, b: nat) {
    && a <= b <= |s|
    && r == s[a..b]
    && (forall k :: 0 <= k < a ==> s[k] in cs)
    && (forall k :: b <= k < |s| ==> s[k] in cs)
  }

  /** The result is one contiguous piece of the input, and only strip-set characters are removed. */
  lemma TrimmedIsInfix(s: string, cs: string)
    ensures exists a, b :: StrippedAt(s, cs, Trimmed(s, cs), a, b)
  {
    var a := LeadingRun(s, cs);
    if a == |s| {
      assert StrippedAt(s, cs, Trimmed(s, cs), a, a);
    } else {
      var b := |s| - TrailingRun(s, cs);
      assert StrippedAt(s, cs, Trimmed(s, cs), a, b);
    }
  }

  /** `trim` leaves a string alone exactly when neither end is in the strip set. */
  lemma TrimmedFixpoint(s: string, cs: string)
    ensures Trimmed(s, cs) == s <==> (s == [] || (s[0] !in cs && s[|s| - 1] !in cs))
  {
    if s != [] && s[0] !in cs && s[|s| - 1] !in cs {
      assert LeadingRun(s, cs) == 0;
      assert TrailingRun(s, cs) == 0;
      assert s[0..|s|] == s;
    }
  }

  /** Trimming twice is trimming once. */
  lemma TrimmedIdempotent(s: string, cs: string)
    ensures Trimmed(Trimmed(s, cs), cs) == Trimmed(s, cs)
  {
    TrimmedFixpoint(Trimmed(s, cs), cs);
  }

  /** With a charlist of `/`, whitespace at the ends is kept and only the slashes go. */
  lemma SlashCharlistKeepsWhitespace()
    ensures Trimmed("/ a /", StripSet("/")) == " a "
  {
    assert LeadingRun("/ a /", "/") == 1;
    assert TrailingRun("/ a /", "/") == 1;
  }

  /**
   * index.js:428-475 as written: choose the strip set (index.js:429-459), then
   * let `TrimWith` run the two cutting loops.
   */
  method Trim(str: string, charlist: string) returns (r: string)
    ensures r == Trimmed(str, StripSet(charlist))
  {
    var whitespace := WHITESPACE;
    if charlist != "" {
      // the `replace` of index.js:458 substitutes each match with itself
      whitespace := charlist;
    }
    r := TrimWith(str, whitespace);
  }

  /**
   * The loops of index.js:460-474: cut the string at the first character
   * outside the strip set, cut again after the last one, and return `""` if
   * the first character is still in the set.
   */
  method TrimWith(str: string, whitespace: string) returns (r: string)
    ensures r == Trimmed(str, whitespace)
  {
    ghost var lead := LeadingRun(str, whitespace);
    ghost var tail := TrailingRun(str, whitespace);
    var s := str;
    var l := |s|;
    var i := 0;
    while i < l
      invariant 0 <= i <= l == |str| && s == str
      invariant forall k :: 0 <= k < i ==> str[k] in whitespace
    {
      if str[i] !in whitespace {
        assert i == lead;
        s := str[i..];
        break;
      }
      i := i + 1;
    }
    assert s == if lead < |str| then str[lead..] else str;
    ghost var t := s;
    l := |s|;
    i := l - 1;
    while i >= 0
      invariant -1 <= i < l == |t| && s == t
      invariant forall k :: i < k < l ==> t[k] in whitespace
    {
      if s[i] !in whitespace {
        assert lead < |str| ==> lead + i + 1 == |str| - tail by {
          if lead < |str| {
            assert str[lead + i] == t[i];
            assert forall k :: lead + i < k < |str| ==> str[k] == t[k - lead];
          }
        }
        s := s[..i + 1];
        break;
      }
      i := i - 1;
    }
    if |s| > 0 && s[0] !in whitespace {
      r := s;
    } else {
      r := "";
    }
  }
}
