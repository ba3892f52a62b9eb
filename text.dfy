/**
 * String helpers standing for the pieces of Rust's standard library and of the
 * `regex` crate that the launcher relies on: decimal formatting, `starts_with`,
 * `split(..).last()`, `split(..).get(0)`, `join`, and the two placeholder
 * regular expressions of the manifest argument parser.
 */
module Text {

  // ---------------------------------------------------------------------------
  // Decimal formatting (`format!("{}", n)` on an unsigned integer)
  // ---------------------------------------------------------------------------

  function DigitChar(d: nat): (c: char)
    requires d < 10
    ensures '0' <= c <= '9'
  {
    ('0' as int + d) as char
  }

  function DigitValue(c: char): nat
  {
    if '0' <= c <= '9' then c as int - '0' as int else 0
  }

  /** The decimal digits of `n`, most significant first, without leading zeros. */
  function NatToString(n: nat): (s: string)
    ensures |s| > 0
    ensures forall i :: 0 <= i < |s| ==> '0' <= s[i] <= '9'
    decreases n
  {
    if n < 10 then [DigitChar(n)] else NatToString(n / 10) + [DigitChar(n % 10)]
  }

  /** The number a string of decimal digits denotes. */
  function DecimalValue(s: string): nat
  {
    if s == [] then 0 else 10 * DecimalValue(s[..|s| - 1]) + DigitValue(s[|s| - 1])
  }

  /** Formatting a number and reading the digits back gives the number. */
  lemma {:induction false} DecimalRoundTrip(n: nat)
    ensures DecimalValue(NatToString(n)) == n
  {
    if n >= 10 {
      var s := NatToString(n);
      assert s[..|s| - 1] == NatToString(n / 10);
      DecimalRoundTrip(n / 10);
    }
  }

  // ---------------------------------------------------------------------------
  // Lowercase hexadecimal digits (`{:x}`)
  // ---------------------------------------------------------------------------

  predicate IsLowerHexDigit(c: char)
  {
    '0' <= c <= '9' || 'a' <= c <= 'f'
  }

  /** The value of a lowercase hexadecimal digit. */
  function HexValue(c: char): (d: nat)
    requires IsLowerHexDigit(c)
    ensures d < 16
  {
    if c <= '9' then c as int - '0' as int else c as int - 'a' as int + 10
  }

  /** A lowercase hexadecimal digit; reading it back gives the value. */
  function HexDigit(d: nat): (c: char)
    requires d < 16
    ensures IsLowerHexDigit(c)
    ensures HexValue(c) == d
  {
    if d < 10 then ('0' as int + d) as char else ('a' as int + d - 10) as char
  }

  // ---------------------------------------------------------------------------
  // Placeholders: the regular expressions `\$\{[^}]*\}` and `=\$\{[^}]*\}`
  // ---------------------------------------------------------------------------

  /** `${` starts at index `i` of `s` and some `}` follows it. */
  ghost predicate PlaceholderAt(s: string, i: int)
  {
    0 <= i && i + 1 < |s| && s[i] == '$' && s[i + 1] == '{' && '}' in s[i + 2..]
  }

  /** `=${` starts at index `i` of `s` and some `}` follows it. */
  ghost predicate NamedPlaceholderAt(s: string, i: int)
  {
    0 <= i && i + 2 < |s| && s[i] == '=' && s[i + 1] == '$' && s[i + 2] == '{' && '}' in s[i + 3..]
  }

  /**
   * Whether `\$\{[^}]*\}` matches somewhere in `s`: a `${` with a later `}`
   * (the first `}` after the brace closes the match).
   */
  function HasPlaceholder(s: string): (b: bool)
    ensures b <==> exists i :: PlaceholderAt(s, i)
  {
    if |s| < 3 then
      assert forall i :: !PlaceholderAt(s, i);
      false
    else
      var here := s[0] == '$' && s[1] == '{' && '}' in s[2..];
      var later := HasPlaceholder(s[1..]);
      assert forall i :: 1 <= i ==> (PlaceholderAt(s, i) <==> PlaceholderAt(s[1..], i - 1)) by {
        forall i | 1 <= i ensures PlaceholderAt(s, i) <==> PlaceholderAt(s[1..], i - 1) {
          if i + 1 < |s| {
            assert s[i + 2..] == s[1..][i - 1 + 2..];
          }
        }
      }
      assert later ==> exists i :: PlaceholderAt(s, i) by {
        if later {
          var j :| PlaceholderAt(s[1..], j);
          assert PlaceholderAt(s, j + 1);
        }
      }
      assert here <==> PlaceholderAt(s, 0);
      here || later
  }

  /** Whether `=\$\{[^}]*\}` matches somewhere in `s`. */
  function HasNamedPlaceholder(s: string): (b: bool)
    ensures b <==> exists i :: NamedPlaceholderAt(s, i)
  {
    if |s| < 4 then
      assert forall i :: !NamedPlaceholderAt(s, i);
      false
    else
      var here := s[0] == '=' && s[1] == '$' && s[2] == '{' && '}' in s[3..];
      var later := HasNamedPlaceholder(s[1..]);
      assert forall i :: 1 <= i ==> (NamedPlaceholderAt(s, i) <==> NamedPlaceholderAt(s[1..], i - 1)) by {
        forall i | 1 <= i ensures NamedPlaceholderAt(s, i) <==> NamedPlaceholderAt(s[1..], i - 1) {
          if i + 2 < |s| {
            assert s[i + 3..] == s[1..][i - 1 + 3..];
          }
        }
      }
      assert later ==> exists i :: NamedPlaceholderAt(s, i) by {
        if later {
          var j :| NamedPlaceholderAt(s[1..], j);
          assert NamedPlaceholderAt(s, j + 1);
        }
      }
      assert here <==> NamedPlaceholderAt(s, 0);
      here || later
  }

  /** A string the named pattern matches also matches the plain placeholder pattern. */
  lemma NamedPlaceholderIsPlaceholder(s: string)
    requires HasNamedPlaceholder(s)
    ensures HasPlaceholder(s)
  {
    var i :| NamedPlaceholderAt(s, i);
    assert s[i + 3..] == s[i + 1 + 2..];
    assert PlaceholderAt(s, i + 1);
  }

  // ---------------------------------------------------------------------------
  // Splitting
  // ---------------------------------------------------------------------------

  /** `pat` occurs in `s` starting at index `i`. */
  ghost predicate OccursAt(s: string, pat: string, i: int)
  {
    0 <= i && i + |pat| <= |s| && s[i..i + |pat|] == pat
  }

  /** A three-character pattern occurs where its three characters do; a step of `MinecraftAssets.NamedPlaceholderCuts`, with no source counterpart of its own. */
  lemma OccursAtThree(s: string, pat: string, i: int)
    requires |pat| == 3 && 0 <= i && i + 3 <= |s|
    requires s[i] == pat[0] && s[i + 1] == pat[1] && s[i + 2] == pat[2]
    ensures OccursAt(s, pat, i)
  {
    assert s[i..i + 3] == pat;
  }

  /** Dropping the first character of `s` moves every later occurrence one place to the left. */
  lemma OccursAtShift(s: string, pat: string, i: int)
    requires 1 <= i && |s| > 0
    ensures OccursAt(s, pat, i) <==> OccursAt(s[1..], pat, i - 1)
  {
    if i + |pat| <= |s| {
      assert s[i..i + |pat|] == s[1..][i - 1..i - 1 + |pat|];
    }
  }

  /**
   * `s.split(pat).get(0)`: the text before the first occurrence of `pat`, or
   * all of `s` when `pat` does not occur.
   */
  function BeforeFirst(s: string, pat: string): (r: string)
    requires |pat| > 0
    ensures r <= s
    ensures forall i :: 0 <= i < |r| ==> !OccursAt(s, pat, i)
    ensures |r| < |s| ==> OccursAt(s, pat, |r|)
    ensures |r| == |s| ==> forall i :: !OccursAt(s, pat, i)
  {
    if |s| < |pat| then
      s
    else if pat <= s then
      assert OccursAt(s, pat, 0) by { assert s[0..|pat|] == pat; }
      []
    else
      var r := [s[0]] + BeforeFirst(s[1..], pat);
      assert !OccursAt(s, pat, 0) by { assert s[0..|pat|] == s[..|pat|]; }
      forall i | 1 <= i ensures OccursAt(s, pat, i) <==> OccursAt(s[1..], pat, i - 1) {
        OccursAtShift(s, pat, i);
      }
      r
  }

  /** `s.ends_with(t)`. */
  predicate EndsWith(s: string, t: string)
  {
    |t| <= |s| && s[|s| - |t|..] == t
  }

  /** A suffix of a suffix is a suffix. */
  lemma EndsWithTrans(a: string, b: string, c: string)
    requires EndsWith(a, b) && EndsWith(b, c)
    ensures EndsWith(a, c)
  {
    assert a[|a| - |c|..] == a[|a| - |b|..][|b| - |c|..];
  }

  /** `s.split(c).last().unwrap()`: the text after the last `c`, or all of `s`. */
  function LastSegment(s: string, c: char): (r: string)
    ensures c !in r
    ensures |r| <= |s| && s[|s| - |r|..] == r
    ensures |r| < |s| ==> s[|s| - |r| - 1] == c
  {
    if s == [] then []
    else if s[|s| - 1] == c then []
    else LastSegment(s[..|s| - 1], c) + [s[|s| - 1]]
  }

  /** `parts.join(sep)` for a one-character separator. */
  function JoinWith(parts: seq<string>, sep: char): string
  {
    if parts == [] then ""
    else if |parts| == 1 then parts[0]
    else JoinWith(parts[..|parts| - 1], sep) + [sep] + parts[|parts| - 1]
  }

  /** `s.split(sep)`: the pieces between occurrences of `sep`, always at least one. */
  function Split(s: string, sep: char): (parts: seq<string>)
    ensures |parts| > 0
    decreases |s|
  {
    var last := LastSegment(s, sep);
    if |last| == |s| then [s] else Split(s[..|s| - |last| - 1], sep) + [last]
  }

  /** The segment after the last separator of `a + [c] + b` is `b` when `b` has no separator. */
  lemma LastSegmentAfterSeparator(a: string, c: char, b: string)
    requires c !in b
    ensures LastSegment(a + [c] + b, c) == b
    decreases |b|
  {
    if b == [] {
    } else {
      var s := a + [c] + b;
      assert s[..|s| - 1] == a + [c] + b[..|b| - 1];
      LastSegmentAfterSeparator(a, c, b[..|b| - 1]);
    }
  }

  /** A string without the separator is its own last segment. */
  lemma LastSegmentWhole(s: string, c: char)
    requires c !in s
    ensures LastSegment(s, c) == s
    decreases |s|
  {
    if s != [] {
      LastSegmentWhole(s[..|s| - 1], c);
    }
  }

  /** Splitting a join gives back the parts, when no part holds the separator. */
  lemma {:induction false} SplitJoin(parts: seq<string>, sep: char)
    requires |parts| > 0
    requires forall i :: 0 <= i < |parts| ==> sep !in parts[i]
    ensures Split(JoinWith(parts, sep), sep) == parts
    decreases |parts|
  {
    if |parts| == 1 {
      LastSegmentWhole(parts[0], sep);
    } else {
      var init := parts[..|parts| - 1];
      var last := parts[|parts| - 1];
      assert parts == init + [last];
      var j := JoinWith(init, sep);
      var s := JoinWith(parts, sep);
      assert s == j + [sep] + last;
      LastSegmentAfterSeparator(j, sep, last);
      assert s[..|s| - |last| - 1] == j;
      assert Split(s, sep) == Split(j, sep) + [last];
      assert forall i :: 0 <= i < |init| ==> sep !in init[i] by {
        forall i | 0 <= i < |init| ensures sep !in init[i] { assert init[i] == parts[i]; }
      }
      SplitJoin(init, sep);
    }
  }
}
