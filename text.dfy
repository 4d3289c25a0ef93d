/**
 * The JavaScript string primitives the plugin relies on: `String.prototype.split`
 * with each of the separators the plugin passes it, the global `/[0-9]+/g` match
 * and `parseInt(_, 10)`.
 */
module Text {
  import opened Wrappers

  predicate IsDigit(c: char) {
    '0' <= c <= '9'
  }

  /** The class `[\r\n]`. */
  predicate IsLineBreak(c: char) {
    c == '\r' || c == '\n'
  }

  /** The characters a regular-expression `.` refuses to match. */
  predicate IsLineTerminator(c: char) {
    IsLineBreak(c) || c == '\U{2028}' || c == '\U{2029}'
  }

  predicate AllDigits(s: string) {
    forall i :: 0 <= i < |s| ==> IsDigit(s[i])
  }

  /** A non-empty string of decimal digits, as `/[0-9]+/` matches it. */
  predicate Numeral(s: string) {
    |s| > 0 && AllDigits(s)
  }

  // ---------------------------------------------------------------------------
  // split
  // ---------------------------------------------------------------------------

  /** The separators the plugin splits on. */
  datatype Separator =
    | Char(c: char)  // a one-character string separator: `.` and `:`
    | LineBreak      // /[\r\n]/
    | BlankLine      // /[\r\n][\r\n]/
    | Arrow          // / ?--> ?/
    | Fragment       // /#xywh=/i

  predicate ArrowHeadAt(s: string, i: nat) {
    i + 3 <= |s| && s[i] == '-' && s[i + 1] == '-' && s[i + 2] == '>'
  }

  function SpaceAt(s: string, i: nat): nat {
    if i < |s| && s[i] == ' ' then 1 else 0
  }

  /** `#xywh=` starting at `i`, its letters in either case (the `i` flag). */
  predicate FragmentAt(s: string, i: nat) {
    && i + 6 <= |s|
    && s[i] == '#'
    && (s[i + 1] == 'x' || s[i + 1] == 'X')
    && (s[i + 2] == 'y' || s[i + 2] == 'Y')
    && (s[i + 3] == 'w' || s[i + 3] == 'W')
    && (s[i + 4] == 'h' || s[i + 4] == 'H')
    && s[i + 5] == '='
  }

  /** Length of the separator's match starting exactly at `q`; 0 when it does not match there. */
  function MatchLen(sep: Separator, s: string, q: nat): (n: nat)
    requires q < |s|
    ensures q + n <= |s|
  {
    match sep
    case Char(c) => if s[q] == c then 1 else 0
    case LineBreak => if IsLineBreak(s[q]) then 1 else 0
    case BlankLine => if q + 1 < |s| && IsLineBreak(s[q]) && IsLineBreak(s[q + 1]) then 2 else 0
    case Arrow =>
      // the leading ` ?` is greedy: the space is tried first, then no space
      if s[q] == ' ' && ArrowHeadAt(s, q + 1) then 4 + SpaceAt(s, q + 4)
      else if ArrowHeadAt(s, q) then 3 + SpaceAt(s, q + 3)
      else 0
    case Fragment => if FragmentAt(s, q) then 6 else 0
  }

  /** The first position at or after `from` where `sep` matches, or `|s|` when there is none. */
  function FirstMatch(sep: Separator, s: string, from: nat): (q: nat)
    requires from <= |s|
    ensures from <= q <= |s|
    ensures q < |s| ==> MatchLen(sep, s, q) > 0
    ensures forall k :: from <= k < q ==> MatchLen(sep, s, k) == 0
    decreases |s| - from
  {
    if from == |s| then from
    else if MatchLen(sep, s, from) > 0 then from
    else FirstMatch(sep, s, from + 1)
  }

  /**
   * `s.split(sep)`: the pieces between successive non-overlapping matches,
   * scanned from the left. Every separator here is non-empty, so the string
   * is never cut at an empty match.
   */
  function Split(s: string, sep: Separator): (parts: seq<string>)
    ensures |parts| >= 1
    decreases |s|
  {
    var q := FirstMatch(sep, s, 0);
    if q == |s| then [s]
    else [s[..q]] + Split(s[q + MatchLen(sep, s, q)..], sep)
  }

  /** `parts.join(c)`. */
  function Join(parts: seq<string>, c: char): (s: string)
    requires |parts| >= 1
    decreases |parts|
  {
    if |parts| == 1 then parts[0] else parts[0] + [c] + Join(parts[1..], c)
  }

  /** Splitting at a separator found at `k` with nothing matching before it. */
  lemma SplitAt(s: string, sep: Separator, k: nat)
    requires k < |s| && MatchLen(sep, s, k) > 0
    requires forall j :: 0 <= j < k ==> MatchLen(sep, s, j) == 0
    ensures Split(s, sep) == [s[..k]] + Split(s[k + MatchLen(sep, s, k)..], sep)
  {
    FirstMatchAt(s, sep, k);
  }

  /** The first match is the one at `k` when nothing matches before it. */
  lemma FirstMatchAt(s: string, sep: Separator, k: nat)
    requires k < |s| && MatchLen(sep, s, k) > 0
    requires forall j :: 0 <= j < k ==> MatchLen(sep, s, j) == 0
    ensures FirstMatch(sep, s, 0) == k
  {
  }

  /** A string in which the separator never matches is its own only piece. */
  lemma SplitNoMatch(s: string, sep: Separator)
    requires forall j :: 0 <= j < |s| ==> MatchLen(sep, s, j) == 0
    ensures Split(s, sep) == [s]
  {
    assert FirstMatch(sep, s, 0) == |s|;
  }

  /** A separator that matches somewhere yields at least two pieces. */
  lemma SplitAtLeastTwo(s: string, sep: Separator, k: nat)
    requires k < |s| && MatchLen(sep, s, k) > 0
    ensures |Split(s, sep)| >= 2
  {
    var q := FirstMatch(sep, s, 0);
    assert q < |s|;
  }

  /** Splitting `a + [c] + b` on `c`, where `a` holds no `c`, cuts right after `a`. */
  lemma SplitCharConcat(a: string, c: char, b: string)
    requires c !in a
    ensures Split(a + [c] + b, Char(c)) == [a] + Split(b, Char(c))
  {
    var s := a + [c] + b;
    forall j | 0 <= j < |a| ensures MatchLen(Char(c), s, j) == 0 {
      assert s[j] == a[j];
    }
    SplitAt(s, Char(c), |a|);
    assert s[..|a|] == a;
    assert s[|a| + 1..] == b;
  }

  lemma SplitCharNone(a: string, c: char)
    requires c !in a
    ensures Split(a, Char(c)) == [a]
  {
    forall j | 0 <= j < |a| ensures MatchLen(Char(c), a, j) == 0 {
      assert a[j] in a;
    }
    SplitNoMatch(a, Char(c));
  }

  /** Round trip: joining the pieces of a one-character split gives back the string. */
  lemma {:induction false} JoinSplit(s: string, c: char)
    ensures Join(Split(s, Char(c)), c) == s
    decreases |s|
  {
    var q := FirstMatch(Char(c), s, 0);
    if q < |s| {
      var rest := s[q + 1..];
      JoinSplit(rest, c);
      var parts := Split(s, Char(c));
      assert parts == [s[..q]] + Split(rest, Char(c));
      assert parts[1..] == Split(rest, Char(c));
      assert Join(parts, c) == s[..q] + [c] + rest;
      assert s == s[..q] + [s[q]] + rest;
    }
  }

  /** No piece of a one-character split contains the separator. */
  lemma {:induction false} SplitPiecesLackSeparator(s: string, c: char)
    ensures forall i :: 0 <= i < |Split(s, Char(c))| ==> c !in Split(s, Char(c))[i]
    decreases |s|
  {
    var q := FirstMatch(Char(c), s, 0);
    if q < |s| {
      var rest := s[q + 1..];
      SplitPiecesLackSeparator(rest, c);
      var parts := Split(s, Char(c));
      assert parts == [s[..q]] + Split(rest, Char(c));
      assert c !in s[..q] by {
        forall j | 0 <= j < q ensures s[..q][j] != c {
          assert MatchLen(Char(c), s, j) == 0;
        }
      }
    } else {
      forall j | 0 <= j < |s| ensures s[j] != c {
        assert MatchLen(Char(c), s, j) == 0;
      }
    }
  }

  /** Every character of `t` occurs in `s`. */
  predicate CharsWithin(t: string, s: string) {
    forall k :: 0 <= k < |t| ==> t[k] in s
  }

  /** Every character of every piece of `parts` occurs in `s`. */
  predicate PiecesWithin(parts: seq<string>, s: string) {
    forall piece :: piece in parts ==> CharsWithin(piece, s)
  }

  /** Every character of every piece comes from the split string. */
  lemma {:induction false} SplitPiecesDrawFrom(s: string, sep: Separator)
    ensures PiecesWithin(Split(s, sep), s)
    decreases |s|
  {
    var q := FirstMatch(sep, s, 0);
    if q < |s| {
      var rest := s[q + MatchLen(sep, s, q)..];
      SplitPiecesDrawFrom(rest, sep);
      PrefixWithin(s, q);
      SuffixWithin(s, q + MatchLen(sep, s, q));
      ConsWithin(s[..q], Split(rest, sep), rest, s);
    } else {
      PrefixWithin(s, |s|);
      assert s[..|s|] == s;
      ConsWithin(s, [], s, s);
    }
  }

  /** A piece drawn from `s` before pieces drawn from a part `rest` of `s`. */
  lemma ConsWithin(head: string, tail: seq<string>, rest: string, s: string)
    requires CharsWithin(head, s) && PiecesWithin(tail, rest) && CharsWithin(rest, s)
    ensures PiecesWithin([head] + tail, s)
  {
    forall piece | piece in [head] + tail ensures CharsWithin(piece, s) {
      if piece != head {
        WithinTransitive(piece, rest, s);
      }
    }
  }

  lemma PrefixWithin(s: string, b: nat)
    requires b <= |s|
    ensures CharsWithin(s[..b], s)
  {
    forall k | 0 <= k < b ensures s[..b][k] in s {
      assert s[..b][k] == s[k];
    }
  }

  lemma SuffixWithin(s: string, a: nat)
    requires a <= |s|
    ensures CharsWithin(s[a..], s)
  {
    forall k | 0 <= k < |s| - a ensures s[a..][k] in s {
      assert s[a..][k] == s[a + k];
    }
  }

  lemma WithinTransitive(t: string, u: string, s: string)
    requires CharsWithin(t, u) && CharsWithin(u, s)
    ensures CharsWithin(t, s)
  {
  }

  // ---------------------------------------------------------------------------
  // digit runs and parseInt
  // ---------------------------------------------------------------------------

  /** Length of the run of decimal digits at the start of `s`. */
  function DigitPrefixLen(s: string): (n: nat)
    ensures n <= |s|
    ensures forall k :: 0 <= k < n ==> IsDigit(s[k])
    ensures n < |s| ==> !IsDigit(s[n])
  {
    if s == [] || !IsDigit(s[0]) then 0 else 1 + DigitPrefixLen(s[1..])
  }

  /**
   * `s.match(/[0-9]+/g)`: the maximal digit runs of `s`, left to right. The
   * empty sequence stands for the `null` JavaScript returns when nothing matches.
   */
  function DigitRuns(s: string): (runs: seq<string>)
    ensures forall i :: 0 <= i < |runs| ==> |runs[i]| > 0 && AllDigits(runs[i])
    decreases |s|
  {
    if s == [] then []
    else if !IsDigit(s[0]) then DigitRuns(s[1..])
    else
      var n := DigitPrefixLen(s);
      [s[..n]] + DigitRuns(s[n..])
  }

  /** There are no runs exactly when `s` holds no digit. */
  lemma {:induction false} DigitRunsEmptyIff(s: string)
    ensures DigitRuns(s) == [] <==> forall k :: 0 <= k < |s| ==> !IsDigit(s[k])
    decreases |s|
  {
    if s != [] && !IsDigit(s[0]) {
      DigitRunsEmptyIff(s[1..]);
      if DigitRuns(s) == [] {
        forall k | 0 <= k < |s| ensures !IsDigit(s[k]) {
          if k > 0 { assert s[k] == s[1..][k - 1]; }
        }
      }
    }
  }

  /** A run followed by a non-digit is taken whole, and the scan resumes after it. */
  lemma DigitRunsCons(a: string, c: char, rest: string)
    requires |a| > 0 && AllDigits(a) && !IsDigit(c)
    ensures DigitRuns(a + [c] + rest) == [a] + DigitRuns(rest)
  {
    var s := a + [c] + rest;
    var n := DigitPrefixLen(s);
    assert forall k :: 0 <= k < |a| ==> s[k] == a[k];
    assert !IsDigit(s[|a|]);
    assert n == |a|;
    assert s[..n] == a;
    assert s[n..] == [c] + rest;
    assert ([c] + rest)[1..] == rest;
  }

  /** A prefix without digits contributes no run. */
  lemma {:induction false} DigitRunsSkip(p: string, t: string)
    requires forall k :: 0 <= k < |p| ==> !IsDigit(p[k])
    ensures DigitRuns(p + t) == DigitRuns(t)
    decreases |p|
  {
    if p == [] {
      assert p + t == t;
    } else {
      assert !IsDigit((p + t)[0]);
      assert (p + t)[1..] == p[1..] + t;
      DigitRunsSkip(p[1..], t);
    }
  }

  /** A string of digits is one run. */
  lemma DigitRunsWhole(a: string)
    requires |a| > 0 && AllDigits(a)
    ensures DigitRuns(a) == [a]
  {
    var n := DigitPrefixLen(a);
    assert n == |a|;
    assert a[..n] == a;
    assert a[n..] == [];
  }

  function DigitValue(c: char): nat
    requires IsDigit(c)
  {
    (c as int) - ('0' as int)
  }

  /** The value of a string of decimal digits. */
  function DecimalValue(ds: string): nat
    requires AllDigits(ds)
  {
    if ds == [] then 0 else 10 * DecimalValue(ds[..|ds| - 1]) + DigitValue(ds[|ds| - 1])
  }

  /**
   * `parseInt(s, 10)` restricted to what the plugin feeds it: the value of the
   * leading digit run, `None` (NaN) when `s` does not start with a digit.
   */
  function ParseInt(s: string): (r: Option<nat>)
    ensures r.None? <==> (s == [] || !IsDigit(s[0]))
  {
    var n := DigitPrefixLen(s);
    if n == 0 then None else Some(DecimalValue(s[..n]))
  }

  /** `x || 0` applied to a parse: NaN becomes 0. */
  function OrZero(r: Option<nat>): nat {
    match r
    case Some(v) => v
    case None => 0
  }

  /** A whole string of digits parses to its decimal value. */
  lemma ParseIntDigits(s: string)
    requires |s| > 0 && AllDigits(s)
    ensures ParseInt(s) == Some(DecimalValue(s))
  {
    var n := DigitPrefixLen(s);
    assert n == |s|;
    assert s[..n] == s;
  }

  /** Whatever follows the leading digits is ignored. */
  lemma ParseIntIgnoresTail(ds: string, c: char, rest: string)
    requires |ds| > 0 && AllDigits(ds) && !IsDigit(c)
    ensures ParseInt(ds + [c] + rest) == Some(DecimalValue(ds))
  {
    var s := ds + [c] + rest;
    var n := DigitPrefixLen(s);
    assert forall k :: 0 <= k < |ds| ==> s[k] == ds[k];
    assert !IsDigit(s[|ds|]);
    assert n == |ds|;
    assert s[..n] == ds;
  }
}
