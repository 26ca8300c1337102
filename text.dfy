/** The Python string operations the core relies on: `str.strip()`,
    `str.lower()`, `sep.join(parts)`, `str.endswith(suffix)` and `str(n)` for a
    natural number. */
module Text {

  /** Python's `str.isspace()` for one character: the characters `str.strip()`
      with no argument removes. */
  predicate IsSpace(c: char)
    ensures IsSpace(c) ==> !('0' <= c <= '9' || 'A' <= c <= 'Z' || 'a' <= c <= 'z')
  {
    || c == ' '
    || ('\t' <= c <= '\r')               // tab, line feed, vertical tab, form feed, carriage return
    || ('\U{1C}' <= c <= '\U{1F}')       // file, group, record and unit separators
    || c == '\U{85}' || c == '\U{A0}' || c == '\U{1680}'
    || ('\U{2000}' <= c <= '\U{200A}')
    || c == '\U{2028}' || c == '\U{2029}' || c == '\U{202F}' || c == '\U{205F}' || c == '\U{3000}'
  }

  /** Number of whitespace characters at the front of `s`. */
  function LeadingSpace(s: string): (n: nat)
    ensures n <= |s|
    ensures forall k :: 0 <= k < n ==> IsSpace(s[k])
    ensures n < |s| ==> !IsSpace(s[n])
  {
    if s != [] && IsSpace(s[0]) then 1 + LeadingSpace(s[1..]) else 0
  }

  /** Number of whitespace characters at the back of `s`. */
  function TrailingSpace(s: string): (n: nat)
    ensures n <= |s|
    ensures forall k :: |s| - n <= k < |s| ==> IsSpace(s[k])
    ensures n < |s| ==> !IsSpace(s[|s| - 1 - n])
  {
    if s != [] && IsSpace(s[|s| - 1]) then 1 + TrailingSpace(s[..|s| - 1]) else 0
  }

  /** `s.strip()`: `s` without its leading and trailing whitespace. */
  function Strip(s: string): (r: string)
    ensures LeadingSpace(s) + |r| <= |s|
    ensures r == s[LeadingSpace(s)..LeadingSpace(s) + |r|]
    ensures forall k :: LeadingSpace(s) + |r| <= k < |s| ==> IsSpace(s[k])
    ensures r == [] || (!IsSpace(r[0]) && !IsSpace(r[|r| - 1]))
  {
    var t := s[LeadingSpace(s)..];
    t[..|t| - TrailingSpace(t)]
  }

  ghost predicate AllSpace(s: string) {
    forall k :: 0 <= k < |s| ==> IsSpace(s[k])
  }

  /** Whitespace followed by a non-space character: the leading run is exactly the whitespace. */
  lemma LeadingSpaceAfter(a: string, x: string)
    requires AllSpace(a)
    requires x == [] || !IsSpace(x[0])
    ensures LeadingSpace(a + x) == |a|
  {
    var s := a + x;
    assert forall k :: 0 <= k < |a| ==> s[k] == a[k];
    if x != [] {
      assert s[|a|] == x[0];
    }
  }

  /** A non-space character followed by whitespace: the trailing run is exactly the whitespace. */
  lemma TrailingSpaceBefore(x: string, b: string)
    requires AllSpace(b)
    requires x == [] || !IsSpace(x[|x| - 1])
    ensures TrailingSpace(x + b) == |b|
  {
    var s := x + b;
    assert forall k :: |x| <= k < |s| ==> s[k] == b[k - |x|];
    if x != [] {
      assert s[|x| - 1] == x[|x| - 1];
    }
  }

  /** `Strip` is the unique way of writing `s` as whitespace, a core that neither
      starts nor ends with whitespace, and whitespace. */
  lemma StripIsCore(a: string, core: string, b: string)
    requires AllSpace(a) && AllSpace(b)
    requires core == [] || (!IsSpace(core[0]) && !IsSpace(core[|core| - 1]))
    ensures Strip(a + core + b) == core
  {
    var s := a + core + b;
    if core == [] {
      assert s == (a + b) + [];
      assert forall k :: 0 <= k < |a + b| ==> IsSpace((a + b)[k]);
      LeadingSpaceAfter(a + b, []);
    } else {
      assert s == a + (core + b);
      assert (core + b)[0] == core[0];
      LeadingSpaceAfter(a, core + b);
      assert s[|a|..] == core + b;
      TrailingSpaceBefore(core, b);
      assert (core + b)[..|core|] == core;
    }
  }

  /** Every string is its strip with whitespace on either side. */
  lemma StripParts(s: string)
    ensures var i, r := LeadingSpace(s), Strip(s);
      && i + |r| <= |s|
      && s == s[..i] + r + s[i + |r|..]
      && AllSpace(s[..i]) && AllSpace(s[i + |r|..])
  {
    var i, r := LeadingSpace(s), Strip(s);
    assert s == s[..i] + s[i..i + |r|] + s[i + |r|..];
    assert forall k :: 0 <= k < i ==> s[..i][k] == s[k];
    var tail := s[i + |r|..];
    assert forall k :: 0 <= k < |tail| ==> tail[k] == s[i + |r| + k];
  }

  /** A string without surrounding whitespace is its own strip. */
  lemma StripFixed(s: string)
    requires s == [] || (!IsSpace(s[0]) && !IsSpace(s[|s| - 1]))
    ensures Strip(s) == s
  {
    StripIsCore([], s, []);
    assert [] + s + [] == s;
  }

  lemma StripIdempotent(s: string)
    ensures Strip(Strip(s)) == Strip(s)
  {
    StripFixed(Strip(s));
  }

  /** Python's `str.lower()` on one character, for the ASCII letters. */
  function LowerChar(c: char): char {
    if 'A' <= c <= 'Z' then (c as int + 32) as char else c
  }

  /** `s.lower()`: every character lower-cased, in place. */
  function Lower(s: string): (r: string)
    ensures |r| == |s|
    ensures forall k :: 0 <= k < |s| ==> r[k] == LowerChar(s[k])
  {
    if s == [] then [] else [LowerChar(s[0])] + Lower(s[1..])
  }

  lemma LowerIdempotent(s: string)
    ensures Lower(Lower(s)) == Lower(s)
  {
    assert forall k :: 0 <= k < |s| ==> LowerChar(LowerChar(s[k])) == LowerChar(s[k]);
  }

  /** A string without upper-case letters is its own lower-casing. */
  lemma LowerFixed(s: string)
    requires forall k :: 0 <= k < |s| ==> !('A' <= s[k] <= 'Z')
    ensures Lower(s) == s
  {
  }

  predicate EndsWith(s: string, suffix: string) {
    |suffix| <= |s| && s[|s| - |suffix|..] == suffix
  }

  /** `s.endswith(suffix)` holds exactly when `s` is something followed by `suffix`. */
  lemma EndsWithIff(s: string, suffix: string)
    ensures EndsWith(s, suffix) <==> exists p :: p + suffix == s
  {
    if EndsWith(s, suffix) {
      var p := s[..|s| - |suffix|];
      assert p + suffix == s;
    }
    forall p | p + suffix == s
      ensures EndsWith(s, suffix)
    {
      assert s[|p|..] == suffix;
    }
  }

  /** `t` occurs in `s` starting at index `i`. */
  ghost predicate OccursAt(s: string, t: string, i: nat) {
    i + |t| <= |s| && s[i..i + |t|] == t
  }

  /** Python's `t in s` for strings. */
  ghost predicate Contains(s: string, t: string) {
    exists i: nat :: OccursAt(s, t, i)
  }

  lemma ContainsMiddle(a: string, t: string, b: string)
    ensures Contains(a + t + b, t)
  {
    assert (a + t + b)[|a|..|a| + |t|] == t;
    assert OccursAt(a + t + b, t, |a|);
  }

  /** Both middle pieces of a five-piece concatenation occur in it. */
  lemma ContainsBothMiddles(a: string, t: string, b: string, u: string, c: string)
    ensures Contains(a + t + b + u + c, t)
    ensures Contains(a + t + b + u + c, u)
  {
    var s := a + t + b + u + c;
    assert s == a + t + (b + u + c);
    ContainsMiddle(a, t, b + u + c);
    assert s == (a + t + b) + u + c;
    ContainsMiddle(a + t + b, u, c);
  }

  /** All three middle pieces of a seven-piece concatenation occur in it. */
  lemma ContainsThreeMiddles(a: string, x: string, b: string, y: string, c: string, z: string, d: string)
    ensures Contains(a + x + b + y + c + z + d, x)
    ensures Contains(a + x + b + y + c + z + d, y)
    ensures Contains(a + x + b + y + c + z + d, z)
  {
    var s := a + x + b + y + c + z + d;
    assert s == a + x + (b + y + c + z + d);
    ContainsMiddle(a, x, b + y + c + z + d);
    assert s == (a + x + b) + y + (c + z + d);
    ContainsMiddle(a + x + b, y, c + z + d);
    assert s == (a + x + b + y + c) + z + d;
    ContainsMiddle(a + x + b + y + c, z, d);
  }

  lemma ContainsTransitive(s: string, t: string, u: string)
    requires Contains(s, t) && Contains(t, u)
    ensures Contains(s, u)
  {
    var i: nat :| OccursAt(s, t, i);
    var j: nat :| OccursAt(t, u, j);
    var x, y := s[i + j..i + j + |u|], s[i..i + |t|][j..j + |u|];
    forall k | 0 <= k < |u|
      ensures x[k] == y[k]
    {
      assert x[k] == s[i + j + k];
      assert y[k] == s[i..i + |t|][j + k];
    }
    assert x == y;
    assert OccursAt(s, u, i + j);
  }

  /** `sep.join(parts)`. */
  function Join(sep: string, parts: seq<string>): (r: string)
    ensures parts == [] ==> r == []
    ensures |parts| == 1 ==> r == parts[0]
  {
    if parts == [] then []
    else if |parts| == 1 then parts[0]
    else parts[0] + sep + Join(sep, parts[1..])
  }

  /** Where `parts[i]` starts in `Join(sep, parts)`. */
  function JoinOffset(sep: string, parts: seq<string>, i: nat): nat
    requires i <= |parts|
  {
    if i == 0 then 0 else |parts[0]| + |sep| + JoinOffset(sep, parts[1..], i - 1)
  }

  /** Consecutive parts are one part and one separator apart. */
  lemma {:induction false} JoinOffsetNext(sep: string, parts: seq<string>, i: nat)
    requires i + 1 <= |parts|
    ensures JoinOffset(sep, parts, i + 1) == JoinOffset(sep, parts, i) + |parts[i]| + |sep|
  {
    if i > 0 {
      JoinOffsetNext(sep, parts[1..], i - 1);
    }
  }

  /** Every part occurs in the join at its offset, in input order, and the last
      one ends the join. */
  lemma {:induction false} JoinAt(sep: string, parts: seq<string>, i: nat)
    requires i < |parts|
    ensures JoinOffset(sep, parts, i) + |parts[i]| <= |Join(sep, parts)|
    ensures Join(sep, parts)[JoinOffset(sep, parts, i)..JoinOffset(sep, parts, i) + |parts[i]|] == parts[i]
    ensures i + 1 == |parts| ==> JoinOffset(sep, parts, i) + |parts[i]| == |Join(sep, parts)|
  {
    var j := Join(sep, parts);
    if |parts| == 1 {
    } else if i == 0 {
      assert j == parts[0] + sep + Join(sep, parts[1..]);
    } else {
      var rest := Join(sep, parts[1..]);
      var shift := |parts[0]| + |sep|;
      assert j == parts[0] + sep + rest;
      JoinAt(sep, parts[1..], i - 1);
      var o := JoinOffset(sep, parts[1..], i - 1);
      assert j[shift + o..shift + o + |parts[i]|] == rest[o..o + |parts[i]|];
    }
  }

  /** `JoinAt` phrased as an occurrence. */
  lemma JoinOccursAt(sep: string, parts: seq<string>, i: nat)
    requires i < |parts|
    ensures OccursAt(Join(sep, parts), parts[i], JoinOffset(sep, parts, i))
    ensures i + 1 == |parts| ==> JoinOffset(sep, parts, i) + |parts[i]| == |Join(sep, parts)|
  {
    JoinAt(sep, parts, i);
  }

  /** Between consecutive parts the join holds exactly the separator. */
  lemma {:induction false} JoinSeparatorAt(sep: string, parts: seq<string>, i: nat)
    requires i + 1 < |parts|
    ensures JoinOffset(sep, parts, i + 1) == JoinOffset(sep, parts, i) + |parts[i]| + |sep|
    ensures JoinOffset(sep, parts, i + 1) <= |Join(sep, parts)|
    ensures Join(sep, parts)[JoinOffset(sep, parts, i) + |parts[i]|..JoinOffset(sep, parts, i + 1)] == sep
  {
    var j := Join(sep, parts);
    var rest := Join(sep, parts[1..]);
    assert j == parts[0] + sep + rest;
    JoinOffsetNext(sep, parts, i);
    if i > 0 {
      JoinSeparatorAt(sep, parts[1..], i - 1);
      var shift := |parts[0]| + |sep|;
      var o := JoinOffset(sep, parts[1..], i - 1) + |parts[i]|;
      assert j[shift + o..shift + o + |sep|] == rest[o..o + |sep|];
    }
  }

  /** The decimal digit for `d`. */
  function Digit(d: nat): char
    requires d < 10
  {
    "0123456789"[d]
  }

  /** `str(n)`: the decimal rendering of `n`, without leading zeros. */
  function DecimalString(n: nat): (r: string)
    ensures r != []
    ensures forall k :: 0 <= k < |r| ==> '0' <= r[k] <= '9'
    ensures |r| > 1 ==> r[0] != '0'
  {
    if n < 10 then [Digit(n)] else DecimalString(n / 10) + [Digit(n % 10)]
  }

  /** Reads a string of decimal digits back as a number. */
  function DecimalValue(s: string): nat
    requires forall k :: 0 <= k < |s| ==> '0' <= s[k] <= '9'
  {
    if s == [] then 0
    else DecimalValue(s[..|s| - 1]) * 10 + (s[|s| - 1] as int - '0' as int)
  }

  lemma {:induction false} DecimalRoundTrip(n: nat)
    ensures DecimalValue(DecimalString(n)) == n
  {
    var r := DecimalString(n);
    if n < 10 {
      assert r[..0] == [];
    } else {
      DecimalRoundTrip(n / 10);
      assert r[..|r| - 1] == DecimalString(n / 10);
    }
  }
}
