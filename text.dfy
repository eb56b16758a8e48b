/**
 * The handful of Python string operations the core relies on: `str.strip`,
 * ASCII case mapping, substring search, `str.split` on one character and
 * `str.join`, and `str()` of an integer.
 */
module Text {
  import opened Outcomes

  /** `str.isspace` for one character: the characters Python strips by default. */
  predicate IsSpace(c: char) {
    c == ' ' || ('\t' <= c <= '\r') || ('\U{1C}' <= c <= '\U{1F}')
    || c == '\U{85}' || c == '\U{A0}' || c == '\U{1680}'
    || ('\U{2000}' <= c <= '\U{200A}') || c == '\U{2028}' || c == '\U{2029}'
    || c == '\U{202F}' || c == '\U{205F}' || c == '\U{3000}'
  }

  predicate AllSpace(s: string) {
    forall k :: 0 <= k < |s| ==> IsSpace(s[k])
  }

  /** Number of whitespace characters at the start of `s`. */
  function LeadingSpace(s: string): (n: nat)
    ensures n <= |s|
    ensures AllSpace(s[..n])
    ensures n < |s| ==> !IsSpace(s[n])
  {
    if s == [] || !IsSpace(s[0]) then 0 else 1 + LeadingSpace(s[1..])
  }

  /** Number of whitespace characters at the end of `s`. */
  function TrailingSpace(s: string): (n: nat)
    ensures n <= |s|
    ensures AllSpace(s[|s| - n..])
    ensures n < |s| ==> !IsSpace(s[|s| - 1 - n])
  {
    if s == [] || !IsSpace(s[|s| - 1]) then 0 else 1 + TrailingSpace(s[..|s| - 1])
  }

  /** A string with no whitespace at either end. */
  predicate Trimmed(s: string) {
    s == [] || (!IsSpace(s[0]) && !IsSpace(s[|s| - 1]))
  }

  /** Python's `s.strip()`: `s` without its leading and trailing whitespace. */
  function Strip(s: string): (r: string)
    ensures Trimmed(r)
    ensures LeadingSpace(s) + |r| <= |s|
    ensures r == s[LeadingSpace(s)..LeadingSpace(s) + |r|]
  {
    var i := LeadingSpace(s);
    var n := TrailingSpace(s[i..]);
    TrimmedSlice(s, i, n);
    s[i..][..|s| - i - n]
  }

  /** Cutting `i` characters from the front and `n` from the back leaves a trimmed slice, when the cut ends are not whitespace. */
  lemma TrimmedSlice(s: string, i: nat, n: nat)
    requires i <= |s| && n <= |s| - i
    requires i < |s| ==> !IsSpace(s[i])
    requires n < |s[i..]| ==> !IsSpace(s[i..][|s[i..]| - 1 - n])
    ensures var r := s[i..][..|s| - i - n];
      Trimmed(r) && i + |r| <= |s| && r == s[i..i + |r|]
  {
  }

  /** What `strip` removes is whitespace. */
  lemma StripFrame(s: string)
    ensures LeadingSpace(s) + |Strip(s)| <= |s|
    ensures AllSpace(s[..LeadingSpace(s)]) && AllSpace(s[LeadingSpace(s) + |Strip(s)|..])
  {
    var i := LeadingSpace(s);
    var t := s[i..];
    var n := TrailingSpace(t);
    StripCuts(s);
    FrameOf(s, i, Strip(s), t, n);
  }

  /** What is left after cutting a whitespace suffix from a suffix of `s` is followed in `s` by whitespace only. */
  lemma FrameOf(s: string, i: nat, r: string, t: string, n: nat)
    requires i <= |s| && t == s[i..] && n <= |t| && r == t[..|t| - n] && AllSpace(t[|t| - n..])
    ensures i + |r| <= |s| && AllSpace(s[i + |r|..])
  {
    SuffixOfSuffix(s, i, |t| - n);
  }

  /** `strip` cuts the leading whitespace, then the trailing whitespace of what is left. */
  lemma StripCuts(s: string)
    ensures var t := s[LeadingSpace(s)..];
      Strip(s) == t[..|t| - TrailingSpace(t)]
  {
  }

  /** A suffix of a suffix is a suffix. */
  lemma SuffixOfSuffix(s: string, i: nat, j: nat)
    requires i + j <= |s|
    ensures s[i + j..] == s[i..][j..]
  {
  }

  lemma AllSpaceAppend(a: string, b: string)
    requires AllSpace(a) && AllSpace(b)
    ensures AllSpace(a + b)
  {
  }

  /** Whatever whitespace frames a trimmed string, stripping recovers that string. */
  lemma StripUnique(x: string, a: string, y: string, b: string)
    requires x == a + y + b
    requires AllSpace(a) && AllSpace(b) && Trimmed(y)
    ensures Strip(x) == y
  {
    if y == [] {
      assert AllSpace(x) by {
        forall k | 0 <= k < |x| ensures IsSpace(x[k]) {
          if k < |a| { assert x[k] == a[k]; } else { assert x[k] == b[k - |a|]; }
        }
      }
      AllSpaceLeading(x);
    } else {
      LeadingOfFramed(x, a, y + b);
      var t := x[|a|..];
      assert t == y + b;
      TrailingOfFramed(t, y, b);
      assert t[..|t| - |b|] == y;
    }
  }

  lemma AllSpaceLeading(x: string)
    requires AllSpace(x)
    ensures LeadingSpace(x) == |x|
  {
  }

  /** Whitespace followed by a non-whitespace character is exactly the leading whitespace. */
  lemma LeadingOfFramed(x: string, a: string, z: string)
    requires x == a + z && AllSpace(a) && z != [] && !IsSpace(z[0])
    ensures LeadingSpace(x) == |a|
  {
    var n := LeadingSpace(x);
    assert x[|a|] == z[0];
    assert forall k :: 0 <= k < |a| ==> x[k] == a[k];
  }

  /** A non-whitespace character followed by whitespace: that whitespace is exactly the trailing whitespace. */
  lemma TrailingOfFramed(t: string, y: string, b: string)
    requires t == y + b && AllSpace(b) && y != [] && !IsSpace(y[|y| - 1])
    ensures TrailingSpace(t) == |b|
  {
    var m := TrailingSpace(t);
    assert t[|t| - 1 - |b|] == y[|y| - 1];
    assert forall k :: |y| <= k < |t| ==> t[k] == b[k - |y|];
  }

  /** Padding with whitespace on either side does not change what `strip` returns. */
  lemma StripPadded(pre: string, s: string, post: string)
    requires AllSpace(pre) && AllSpace(post)
    ensures Strip(pre + s + post) == Strip(s)
  {
    var i := LeadingSpace(s);
    var y := Strip(s);
    var a := s[..i];
    var b := s[i + |y|..];
    StripFrame(s);
    assert s == a + y + b;
    AllSpaceAppend(pre, a);
    AllSpaceAppend(b, post);
    Regroup(pre, a, y, b, post);
    StripUnique(pre + s + post, pre + a, y, b + post);
  }

  lemma Assoc<T>(a: seq<T>, b: seq<T>, c: seq<T>)
    ensures (a + b) + c == a + (b + c)
  {
  }

  lemma Regroup(p: string, a: string, y: string, b: string, q: string)
    ensures p + (a + y + b) + q == (p + a) + y + (b + q)
  {
  }

  /** Stripping twice is stripping once. */
  lemma StripIdempotent(s: string)
    ensures Strip(Strip(s)) == Strip(s)
  {
    var y := Strip(s);
    assert y == [] + y + [];
    StripUnique(y, [], y, []);
  }

  /** ASCII lower-casing of one character. */
  function LowerChar(c: char): char {
    if 'A' <= c <= 'Z' then (c as int + 32) as char else c
  }

  /** `str.lower`, on the ASCII letters. */
  function Lower(s: string): (r: string)
    ensures |r| == |s|
    ensures forall k :: 0 <= k < |s| ==> r[k] == LowerChar(s[k])
  {
    seq(|s|, k requires 0 <= k < |s| => LowerChar(s[k]))
  }

  lemma LowerAppend(a: string, b: string)
    ensures Lower(a + b) == Lower(a) + Lower(b)
  {
  }

  /** A string without ASCII capitals is its own lower case. */
  lemma LowerFixed(s: string)
    requires forall k :: 0 <= k < |s| ==> !('A' <= s[k] <= 'Z')
    ensures Lower(s) == s
  {
  }

  /** Lower-casing twice is lower-casing once. */
  lemma LowerIdempotent(s: string)
    ensures Lower(Lower(s)) == Lower(s)
  {
  }

  /** Lower-casing leaves whitespace whitespace and everything else not. */
  lemma LowerKeepsSpace(c: char)
    ensures IsSpace(LowerChar(c)) <==> IsSpace(c)
  {
  }

  /** Stripping and lower-casing can be done in either order. */
  lemma StripLower(s: string)
    ensures Strip(Lower(s)) == Lower(Strip(s))
  {
    var i := LeadingSpace(s);
    var y := Strip(s);
    var a, b := s[..i], s[i + |y|..];
    StripParts(s);
    StripFrame(s);
    assert s == a + y + b;
    LowerFramed(a, y, b);
  }

  /** A string is its leading whitespace, its stripped self and its trailing whitespace. */
  lemma StripParts(s: string)
    ensures var i := LeadingSpace(s);
      var y := Strip(s);
      i + |y| <= |s| && s == s[..i] + y + s[i + |y|..]
  {
    var i := LeadingSpace(s);
    var y := Strip(s);
    SplitThree(s, i, i + |y|);
  }

  lemma SplitThree(s: string, i: nat, j: nat)
    requires i <= j <= |s|
    ensures s == s[..i] + s[i..j] + s[j..]
  {
  }

  /** Lower-casing a trimmed string framed by whitespace keeps that framing. */
  lemma LowerFramed(a: string, y: string, b: string)
    requires AllSpace(a) && AllSpace(b) && Trimmed(y)
    ensures Strip(Lower(a + y + b)) == Lower(y)
  {
    LowerAppend(a + y, b);
    LowerAppend(a, y);
    forall k | 0 <= k < |a| ensures IsSpace(Lower(a)[k]) {
      LowerKeepsSpace(a[k]);
    }
    forall k | 0 <= k < |b| ensures IsSpace(Lower(b)[k]) {
      LowerKeepsSpace(b[k]);
    }
    if y != [] {
      LowerKeepsSpace(y[0]);
      LowerKeepsSpace(y[|y| - 1]);
    }
    StripUnique(Lower(a + y + b), Lower(a), Lower(y), Lower(b));
  }

  /**
   * `str.upper` of one character, on the ASCII letters and on the four
   * non-ASCII characters whose upper case contains an ASCII letter S
   * (long s, sharp s and the two s-t ligatures).
   */
  function UpperChar(c: char): string {
    if 'a' <= c <= 'z' then [(c as int - 32) as char]
    else if c == '\U{17F}' then "S"
    else if c == '\U{DF}' then "SS"
    else if c == '\U{FB05}' || c == '\U{FB06}' then "ST"
    else [c]
  }

  function Upper(s: string): string {
    if s == [] then [] else UpperChar(s[0]) + Upper(s[1..])
  }

  /** `pat` occurs in `s` starting at index `i`. */
  predicate ContainsAt(s: string, pat: string, i: nat) {
    i + |pat| <= |s| && s[i..i + |pat|] == pat
  }

  /** Python's `pat in s`. */
  predicate Contains(s: string, pat: string) {
    exists i: nat | i <= |s| :: ContainsAt(s, pat, i)
  }

  /** An occurrence stays an occurrence when text is added on either side. */
  lemma ContainsWithin(a: string, s: string, b: string, pat: string)
    requires Contains(s, pat)
    ensures Contains(a + s + b, pat)
  {
    var i: nat :| i <= |s| && ContainsAt(s, pat, i);
    assert (a + s + b)[|a| + i..|a| + i + |pat|] == s[i..i + |pat|];
    assert ContainsAt(a + s + b, pat, |a| + i);
  }

  /** The first index at or after `from` where `pat` occurs in `s`. */
  function FindFrom(s: string, pat: string, from: nat): (r: Option<nat>)
    ensures r.Some? ==> from <= r.value && ContainsAt(s, pat, r.value)
    ensures r.Some? ==> forall j: nat :: from <= j < r.value ==> !ContainsAt(s, pat, j)
    ensures r.None? ==> forall j: nat :: from <= j ==> !ContainsAt(s, pat, j)
    decreases |s| - from
  {
    if from + |pat| > |s| then None
    else if s[from..from + |pat|] == pat then Some(from)
    else FindFrom(s, pat, from + 1)
  }

  /** An occurrence is at the front or in the rest. */
  lemma ContainsShift(s: string, pat: string)
    requires s != []
    ensures Contains(s, pat) <==> ContainsAt(s, pat, 0) || Contains(s[1..], pat)
  {
    if Contains(s, pat) && !ContainsAt(s, pat, 0) {
      var i: nat :| i <= |s| && ContainsAt(s, pat, i);
      assert s[1..][i - 1..i - 1 + |pat|] == s[i..i + |pat|];
      assert ContainsAt(s[1..], pat, i - 1);
    }
    if Contains(s[1..], pat) {
      var i: nat :| i <= |s[1..]| && ContainsAt(s[1..], pat, i);
      assert s[i + 1..i + 1 + |pat|] == s[1..][i..i + |pat|];
      assert ContainsAt(s, pat, i + 1);
    }
  }

  /** The index of the first `c` in `s`. */
  function FirstIndex(s: string, c: char): (k: nat)
    requires c in s
    ensures k < |s| && s[k] == c && c !in s[..k]
  {
    if s[0] == c then 0
    else
      var k := FirstIndex(s[1..], c);
      assert s[..k + 1] == [s[0]] + s[1..][..k];
      k + 1
  }

  /** Python's `s.split(sep)` for a one-character separator. */
  function Split(s: string, sep: char): (parts: seq<string>)
    ensures |parts| >= 1
    ensures forall k :: 0 <= k < |parts| ==> sep !in parts[k]
    decreases |s|
  {
    if sep !in s then [s]
    else
      var k := FirstIndex(s, sep);
      [s[..k]] + Split(s[k + 1..], sep)
  }

  /** Python's `sep.join(parts)`. */
  function Join(parts: seq<string>, sep: string): string {
    if |parts| == 0 then ""
    else if |parts| == 1 then parts[0]
    else parts[0] + sep + Join(parts[1..], sep)
  }

  /** Where the `k`-th piece starts in `Join(parts, sep)`. */
  function Offset(parts: seq<string>, sep: string, k: nat): nat
    requires k <= |parts|
  {
    if k == 0 then 0 else Offset(parts, sep, k - 1) + |parts[k - 1]| + |sep|
  }

  lemma {:induction false} OffsetShift(parts: seq<string>, sep: string, k: nat)
    requires 0 < k <= |parts|
    ensures Offset(parts, sep, k) == |parts[0]| + |sep| + Offset(parts[1..], sep, k - 1)
  {
    if k > 1 {
      OffsetShift(parts, sep, k - 1);
    }
  }

  /** A piece ends before any later piece starts: the pieces do not overlap and keep their order. */
  lemma {:induction false} OffsetsOrdered(parts: seq<string>, sep: string, k: nat, m: nat)
    requires k < m <= |parts|
    ensures Offset(parts, sep, k) + |parts[k]| + |sep| <= Offset(parts, sep, m)
  {
    if m > k + 1 {
      OffsetsOrdered(parts, sep, k, m - 1);
    }
  }

  /** Each piece stands whole in the joined text, at its offset. */
  lemma {:induction false} JoinPlaces(parts: seq<string>, sep: string, k: nat)
    requires k < |parts|
    ensures ContainsAt(Join(parts, sep), parts[k], Offset(parts, sep, k))
  {
    var j := Join(parts, sep);
    if |parts| == 1 {
      assert j[0..|parts[0]|] == parts[0];
    } else {
      var rest := Join(parts[1..], sep);
      assert j == parts[0] + sep + rest;
      if k == 0 {
        assert j[0..|parts[0]|] == parts[0];
      } else {
        JoinPlaces(parts[1..], sep, k - 1);
        OffsetShift(parts, sep, k);
        assert parts[1..][k - 1] == parts[k];
        SliceAfter(parts[0] + sep, rest, Offset(parts[1..], sep, k - 1), |parts[k]|);
      }
    }
  }

  /** The separator stands right after every piece but the last. */
  lemma {:induction false} JoinSeparator(parts: seq<string>, sep: string, k: nat)
    requires k + 1 < |parts|
    ensures ContainsAt(Join(parts, sep), sep, Offset(parts, sep, k) + |parts[k]|)
  {
    var j := Join(parts, sep);
    var rest := Join(parts[1..], sep);
    assert j == parts[0] + sep + rest;
    if k == 0 {
      assert j[|parts[0]|..|parts[0]| + |sep|] == sep;
    } else {
      JoinSeparator(parts[1..], sep, k - 1);
      OffsetShift(parts, sep, k);
      assert parts[1..][k - 1] == parts[k];
      SliceAfter(parts[0] + sep, rest, Offset(parts[1..], sep, k - 1) + |parts[k]|, |sep|);
    }
  }

  /** The joined text ends with the last piece: nothing follows it. */
  lemma {:induction false} JoinLength(parts: seq<string>, sep: string)
    requires parts != []
    ensures |Join(parts, sep)| == Offset(parts, sep, |parts| - 1) + |parts[|parts| - 1]|
  {
    if |parts| > 1 {
      JoinLength(parts[1..], sep);
      OffsetShift(parts, sep, |parts| - 1);
      assert parts[1..][|parts| - 2] == parts[|parts| - 1];
    }
  }

  /** A slice of the second part of a concatenation, seen from the whole. */
  lemma SliceAfter(x: string, y: string, o: nat, len: nat)
    requires o + len <= |y|
    ensures (x + y)[|x| + o..|x| + o + len] == y[o..o + len]
  {
  }

  /** The pieces written one after the other. */
  function Concat(parts: seq<string>): string {
    if parts == [] then "" else parts[0] + Concat(parts[1..])
  }

  lemma {:induction false} ConcatSnoc(parts: seq<string>)
    requires parts != []
    ensures Concat(parts) == Concat(parts[..|parts| - 1]) + parts[|parts| - 1]
  {
    if |parts| > 1 {
      ConcatSnoc(parts[1..]);
      assert parts[1..][..|parts| - 2] == parts[..|parts| - 1][1..];
      Assoc(parts[0], Concat(parts[..|parts| - 1][1..]), parts[|parts| - 1]);
    } else {
      assert parts[1..] == [];
    }
  }

  /** Joining the pieces of a split with the same separator gives the string back. */
  lemma {:induction false} JoinSplit(s: string, sep: char)
    ensures Join(Split(s, sep), [sep]) == s
    decreases |s|
  {
    if sep in s {
      var k := FirstIndex(s, sep);
      var rest := Split(s[k + 1..], sep);
      var parts := [s[..k]] + rest;
      assert Split(s, sep) == parts;
      assert parts[0] == s[..k] && parts[1..] == rest && |parts| >= 2;
      assert Join(parts, [sep]) == s[..k] + [sep] + Join(rest, [sep]);
      JoinSplit(s[k + 1..], sep);
      assert s == s[..k] + [sep] + s[k + 1..];
    }
  }

  /** Splitting a join of separator-free pieces gives the pieces back. */
  lemma {:induction false} SplitJoin(parts: seq<string>, sep: char)
    requires |parts| >= 1
    requires forall k :: 0 <= k < |parts| ==> sep !in parts[k]
    ensures Split(Join(parts, [sep]), sep) == parts
  {
    if |parts| > 1 {
      var s := Join(parts, [sep]);
      var rest := Join(parts[1..], [sep]);
      assert s == parts[0] + [sep] + rest;
      assert s[|parts[0]|] == sep;
      assert s[..|parts[0]|] == parts[0];
      var k := FirstIndex(s, sep);
      assert forall j :: 0 <= j < |parts[0]| ==> s[j] == parts[0][j];
      assert k == |parts[0]|;
      assert s[k + 1..] == rest;
      SplitJoin(parts[1..], sep);
    }
  }

  function Digit(d: nat): char
    requires d < 10
  {
    "0123456789"[d]
  }

  function NatToString(n: nat): (r: string)
    ensures |r| >= 1
    decreases n
  {
    if n < 10 then [Digit(n)] else NatToString(n / 10) + [Digit(n % 10)]
  }

  /** Python's `str(n)` for an integer. */
  function IntToString(n: int): string {
    if n < 0 then "-" + NatToString(-n) else NatToString(n)
  }
}
