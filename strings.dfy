// Text helpers shared by the model: decimal rendering and parsing, zero
// padding as `format!("{:0N}")` does, prefix/suffix tests, lexicographic
// order on strings (Rust's `Ord` for `str`), and ASCII case mapping.

module Strings {
  import opened Wrappers
  import Sorting

  predicate IsDigit(c: char)
  {
    '0' <= c <= '9'
  }

  predicate AllDigits(s: string)
  {
    forall i | 0 <= i < |s| :: IsDigit(s[i])
  }

  function DigitChar(d: nat): (c: char)
    requires d < 10
    ensures IsDigit(c) && c as int - '0' as int == d
  {
    ('0' as int + d) as char
  }

  /** Decimal rendering without leading zeros, as `n.to_string()`. */
  function NatToString(n: nat): (r: string)
    ensures |r| >= 1 && AllDigits(r)
    ensures n < 10 <==> |r| == 1
    decreases n
  {
    if n < 10 then [DigitChar(n)] else NatToString(n / 10) + [DigitChar(n % 10)]
  }

  /** The value of a string of decimal digits. */
  function DigitsValue(s: string): nat
    requires AllDigits(s)
  {
    if |s| == 0 then 0
    else DigitsValue(s[..|s| - 1]) * 10 + (s[|s| - 1] as int - '0' as int)
  }

  /** Parsing a rendered number gives it back. */
  lemma {:induction false} NatToStringRoundTrip(n: nat)
    ensures DigitsValue(NatToString(n)) == n
    decreases n
  {
    var r := NatToString(n);
    if n >= 10 {
      NatToStringRoundTrip(n / 10);
      assert r[..|r| - 1] == NatToString(n / 10);
    }
  }

  /** `format!("{:0w}", n)`: zeros in front up to width `w`, never truncated. */
  function ZeroPad(n: nat, w: nat): string
  {
    var d := NatToString(n);
    if |d| >= w then d else Zeros(w - |d|) + d
  }

  /** The padded text is at least `w` digits long and still reads as `n`. */
  lemma ZeroPadValue(n: nat, w: nat)
    ensures AllDigits(ZeroPad(n, w)) && |ZeroPad(n, w)| >= w && |ZeroPad(n, w)| >= 1
    ensures DigitsValue(ZeroPad(n, w)) == n
  {
    var d := NatToString(n);
    NatToStringRoundTrip(n);
    var k: nat := if |d| >= w then 0 else w - |d|;
    ZeroPadShape(n, w, d, k);
    ZerosValue(k);
    DigitsValueLeadingZeros(Zeros(k), d);
  }

  lemma ZeroPadShape(n: nat, w: nat, d: string, k: nat)
    requires d == NatToString(n) && k == (if |d| >= w then 0 else w - |d|)
    ensures ZeroPad(n, w) == Zeros(k) + d
  {
    if |d| >= w {
      assert Zeros(0) + d == d;
    }
  }

  function Zeros(k: nat): string
  {
    if k == 0 then "" else Zeros(k - 1) + "0"
  }

  lemma {:induction false} ZerosValue(k: nat)
    ensures |Zeros(k)| == k && AllDigits(Zeros(k)) && DigitsValue(Zeros(k)) == 0
    decreases k
  {
    if k > 0 {
      ZerosValue(k - 1);
      assert Zeros(k)[..k - 1] == Zeros(k - 1);
    }
  }

  lemma {:induction false} DigitsValueLeadingZeros(z: string, d: string)
    requires AllDigits(z) && AllDigits(d) && DigitsValue(z) == 0
    ensures AllDigits(z + d) && DigitsValue(z + d) == DigitsValue(d)
    decreases |d|
  {
    if |d| == 0 {
      assert z + d == z;
    } else {
      var zd := z + d;
      assert zd[..|zd| - 1] == z + d[..|d| - 1];
      DigitsValueLeadingZeros(z, d[..|d| - 1]);
    }
  }

  predicate StartsWith(s: string, prefix: string)
  {
    |prefix| <= |s| && s[..|prefix|] == prefix
  }

  predicate EndsWith(s: string, suffix: string)
  {
    |suffix| <= |s| && s[|s| - |suffix|..] == suffix
  }

  /** `s` contains `sub` at some position, as `str::contains`. */
  predicate Contains(s: string, sub: string)
    decreases |s|
  {
    StartsWith(s, sub) || (|s| > 0 && Contains(s[1..], sub))
  }

  /** Lexicographic order by character code, which for UTF-8 text is the byte order Rust compares. */
  predicate LexLe(a: string, b: string)
    decreases |a|
  {
    if |a| == 0 then true
    else if |b| == 0 then false
    else if a[0] != b[0] then a[0] < b[0]
    else LexLe(a[1..], b[1..])
  }

  lemma {:induction false} LexLeTotal(a: string, b: string)
    ensures LexLe(a, b) || LexLe(b, a)
    decreases |a|
  {
    if |a| > 0 && |b| > 0 && a[0] == b[0] {
      LexLeTotal(a[1..], b[1..]);
    }
  }

  lemma {:induction false} LexLeTransitive(a: string, b: string, c: string)
    requires LexLe(a, b) && LexLe(b, c)
    ensures LexLe(a, c)
    decreases |a|
  {
    if |a| > 0 && |b| > 0 && |c| > 0 && a[0] == b[0] && b[0] == c[0] {
      LexLeTransitive(a[1..], b[1..], c[1..]);
    }
  }

  lemma {:induction false} LexLeAntisymmetric(a: string, b: string)
    requires LexLe(a, b) && LexLe(b, a)
    ensures a == b
    decreases |a|
  {
    if |a| > 0 && |b| > 0 {
      LexLeAntisymmetric(a[1..], b[1..]);
      assert a == [a[0]] + a[1..] && b == [b[0]] + b[1..];
    }
  }

  /** Rust's `Ord` on strings, as a comparator for sorting. */
  function ByName(): (string, string) -> bool
  {
    (a: string, b: string) => LexLe(a, b)
  }

  lemma ByNameTotal()
    ensures Sorting.TotalPreorder(ByName())
  {
    forall a: string, b: string ensures LexLe(a, b) || LexLe(b, a) {
      LexLeTotal(a, b);
    }
    forall a: string, b: string, c: string | LexLe(a, b) && LexLe(b, c) ensures LexLe(a, c) {
      LexLeTransitive(a, b, c);
    }
  }

  /** Rust's `char::is_whitespace`: the characters of the Unicode
      White_Space property. */
  predicate IsWhitespace(c: char)
  {
    ('\t' <= c <= '\r') || c == ' ' || c == '\U{0085}' || c == '\U{00A0}' || c == '\U{1680}' ||
    ('\U{2000}' <= c <= '\U{200A}') || c == '\U{2028}' || c == '\U{2029}' || c == '\U{202F}' ||
    c == '\U{205F}' || c == '\U{3000}'
  }

  /** `trim_start`: the leading whitespace removed. */
  function TrimStart(s: string): (r: string)
    ensures |r| <= |s| && r == s[|s| - |r|..]
    ensures forall k | 0 <= k < |s| - |r| :: IsWhitespace(s[k])
    ensures |r| > 0 ==> !IsWhitespace(r[0])
  {
    if |s| > 0 && IsWhitespace(s[0]) then TrimStart(s[1..]) else s
  }

  /** `trim_end`: the trailing whitespace removed. */
  function TrimEnd(s: string): (r: string)
    ensures |r| <= |s| && r == s[..|r|]
    ensures forall k | |r| <= k < |s| :: IsWhitespace(s[k])
    ensures |r| > 0 ==> !IsWhitespace(r[|r| - 1])
  {
    if |s| > 0 && IsWhitespace(s[|s| - 1]) then TrimEnd(s[..|s| - 1]) else s
  }

  /** `trim`: whitespace removed from both ends. */
  function Trim(s: string): string
  {
    TrimEnd(TrimStart(s))
  }

  /** Trimming gives the empty string exactly when the input is all whitespace. */
  lemma TrimEmpty(s: string)
    ensures Trim(s) == "" <==> forall k | 0 <= k < |s| :: IsWhitespace(s[k])
  {
    var t := TrimStart(s);
    if |t| > 0 {
      assert !IsWhitespace(t[0]) && t[0] == s[|s| - |t|];
    }
  }

  /** Whitespace around a piece that starts and ends with something else
      is exactly what trimming removes. */
  lemma TrimPadded(front: string, core: string, back: string)
    requires forall k | 0 <= k < |front| :: IsWhitespace(front[k])
    requires forall k | 0 <= k < |back| :: IsWhitespace(back[k])
    requires |core| > 0 && !IsWhitespace(core[0]) && !IsWhitespace(core[|core| - 1])
    ensures Trim(front + core + back) == core
  {
    TrimStartPadded(front, core + back);
    assert front + core + back == front + (core + back);
    TrimEndPadded(core, back);
  }

  lemma {:induction false} TrimStartPadded(front: string, rest: string)
    requires forall k | 0 <= k < |front| :: IsWhitespace(front[k])
    requires |rest| > 0 && !IsWhitespace(rest[0])
    ensures TrimStart(front + rest) == rest
    decreases |front|
  {
    if |front| > 0 {
      assert (front + rest)[1..] == front[1..] + rest;
      TrimStartPadded(front[1..], rest);
    } else {
      assert front + rest == rest;
    }
  }

  lemma {:induction false} TrimEndPadded(rest: string, back: string)
    requires forall k | 0 <= k < |back| :: IsWhitespace(back[k])
    requires |rest| > 0 && !IsWhitespace(rest[|rest| - 1])
    ensures TrimEnd(rest + back) == rest
    decreases |back|
  {
    if |back| > 0 {
      var n := |rest + back|;
      assert (rest + back)[..n - 1] == rest + back[..|back| - 1];
      TrimEndPadded(rest, back[..|back| - 1]);
    } else {
      assert rest + back == rest;
    }
  }

  function AsciiLowerChar(c: char): char
  {
    if 'A' <= c <= 'Z' then (c as int + 32) as char else c
  }

  function AsciiUpperChar(c: char): char
  {
    if 'a' <= c <= 'z' then (c as int - 32) as char else c
  }

  function AsciiLower(s: string): (r: string)
    ensures |r| == |s| && forall i | 0 <= i < |s| :: r[i] == AsciiLowerChar(s[i])
  {
    if |s| == 0 then "" else [AsciiLowerChar(s[0])] + AsciiLower(s[1..])
  }

  function AsciiUpper(s: string): (r: string)
    ensures |r| == |s| && forall i | 0 <= i < |s| :: r[i] == AsciiUpperChar(s[i])
  {
    if |s| == 0 then "" else [AsciiUpperChar(s[0])] + AsciiUpper(s[1..])
  }

  /** `parts` joined with `sep` between consecutive items, as `join`. */
  function Join(parts: seq<string>, sep: string): string
  {
    if |parts| == 0 then ""
    else if |parts| == 1 then parts[0]
    else parts[0] + sep + Join(parts[1..], sep)
  }

  /** `str::replace` of one character by a string. */
  function ReplaceChar(s: string, c: char, rep: string): (r: string)
    ensures c !in rep ==> forall k | 0 <= k < |r| :: r[k] != c
  {
    if |s| == 0 then ""
    else (if s[0] == c then rep else [s[0]]) + ReplaceChar(s[1..], c, rep)
  }

  lemma {:induction false} ReplaceCharAppend(a: string, b: string, c: char, rep: string)
    ensures ReplaceChar(a + b, c, rep) == ReplaceChar(a, c, rep) + ReplaceChar(b, c, rep)
  {
    if |a| > 0 {
      assert (a + b)[1..] == a[1..] + b;
      ReplaceCharAppend(a[1..], b, c, rep);
    } else {
      assert a + b == b;
    }
  }

  /** Text without the replaced character is left as it is. */
  lemma {:induction false} ReplaceCharAbsent(s: string, c: char, rep: string)
    ensures (forall k | 0 <= k < |s| :: s[k] != c) ==> ReplaceChar(s, c, rep) == s
    decreases |s|
  {
    if |s| > 0 {
      ReplaceCharAbsent(s[1..], c, rep);
    }
  }

  /** The index of the last `c` in `s`. */
  function LastIndexOf(s: string, c: char): (r: Option<nat>)
    ensures r.Some? ==> r.value < |s| && s[r.value] == c && forall k | r.value < k < |s| :: s[k] != c
    ensures r.None? ==> forall k | 0 <= k < |s| :: s[k] != c
  {
    if |s| == 0 then None
    else if s[|s| - 1] == c then Some(|s| - 1)
    else LastIndexOf(s[..|s| - 1], c)
  }

  /** The index of the first `c` in `s`, as `str::find` with a character. */
  function FirstIndexOf(s: string, c: char): (r: Option<nat>)
    ensures r.Some? ==> r.value < |s| && s[r.value] == c && forall k | 0 <= k < r.value :: s[k] != c
    ensures r.None? ==> forall k | 0 <= k < |s| :: s[k] != c
  {
    if |s| == 0 then None
    else if s[0] == c then Some(0)
    else match FirstIndexOf(s[1..], c)
      case None => None
      case Some(i) => Some(i + 1)
  }

  /** `str::replace`: every occurrence of `pat`, scanning left to right
      without overlaps, replaced by `rep`. */
  function ReplaceAll(s: string, pat: string, rep: string): string
    requires |pat| > 0
    decreases |s|
  {
    if |s| == 0 then ""
    else if StartsWith(s, pat) then rep + ReplaceAll(s[|pat|..], pat, rep)
    else [s[0]] + ReplaceAll(s[1..], pat, rep)
  }

  /** A pattern whose first character does not recur in it, appended to a
      text that does not contain it, is the only occurrence replaced. */
  lemma {:induction false} ReplaceAllAtEnd(a: string, pat: string, rep: string)
    requires |pat| > 0 && forall i | 1 <= i < |pat| :: pat[i] != pat[0]
    requires !Contains(a, pat)
    ensures ReplaceAll(a + pat, pat, rep) == a + rep
    decreases |a|
  {
    var t := a + pat;
    if |a| == 0 {
      assert t == pat && t[|pat|..] == "";
      ReplaceAllMatch(t, pat, rep);
    } else {
      NoEarlyMatch(a, pat, "");
      assert a + pat + "" == t;
      ReplaceAllSkip(t, pat, rep);
      assert t[1..] == a[1..] + pat && t[0] == a[0];
      ReplaceAllAtEnd(a[1..], pat, rep);
      assert [a[0]] + (a[1..] + rep) == a + rep;
    }
  }

  /** A text that does not contain the pattern is left as it is. */
  lemma {:induction false} ReplaceAllAbsent(s: string, pat: string, rep: string)
    requires |pat| > 0
    ensures !Contains(s, pat) ==> ReplaceAll(s, pat, rep) == s
    decreases |s|
  {
    if |s| > 0 {
      ReplaceAllAbsent(s[1..], pat, rep);
    }
  }

  /** A match at the front is replaced and skipped over. */
  lemma ReplaceAllMatch(s: string, pat: string, rep: string)
    requires |pat| > 0 && |s| > 0 && StartsWith(s, pat)
    ensures ReplaceAll(s, pat, rep) == rep + ReplaceAll(s[|pat|..], pat, rep)
  {
  }

  /** A character that starts no match is kept. */
  lemma ReplaceAllSkip(s: string, pat: string, rep: string)
    requires |pat| > 0 && |s| > 0 && !StartsWith(s, pat)
    ensures ReplaceAll(s, pat, rep) == [s[0]] + ReplaceAll(s[1..], pat, rep)
  {
  }

  /** Under the same conditions, the pattern does not start the text
      before the end, whatever follows it. */
  lemma NoEarlyMatch(a: string, pat: string, b: string)
    requires |pat| > 0 && forall i | 1 <= i < |pat| :: pat[i] != pat[0]
    requires !Contains(a, pat) && |a| > 0
    ensures !StartsWith(a + pat + b, pat) && !Contains(a[1..], pat)
  {
    var t := a + pat + b;
    if |a| >= |pat| {
      assert t[..|pat|] == a[..|pat|];
    } else {
      assert t[..|pat|][|a|] == pat[0] != pat[|a|];
    }
  }

  /** `str::find` with a pattern: the index of the first occurrence
      (what it finds is stated by `IndexOfSubSpec`). */
  function IndexOfSub(s: string, sub: string): (r: Option<nat>)
    ensures r.Some? ==> r.value + |sub| <= |s|
    decreases |s|
  {
    if StartsWith(s, sub) then Some(0)
    else if |s| == 0 then None
    else
      match IndexOfSub(s[1..], sub)
      case None => None
      case Some(i) => Some(i + 1)
  }

  /** The search finds an occurrence with none before it, and finds
      nothing exactly when the text does not contain the pattern. */
  lemma {:induction false} IndexOfSubSpec(s: string, sub: string)
    ensures var r := IndexOfSub(s, sub);
      (r.Some? ==> s[r.value..r.value + |sub|] == sub && forall k | 0 <= k < r.value :: !StartsWith(s[k..], sub)) &&
      (r.None? <==> !Contains(s, sub))
    decreases |s|
  {
    if !StartsWith(s, sub) && |s| > 0 {
      IndexOfSubSpec(s[1..], sub);
      var r := IndexOfSub(s[1..], sub);
      if r.Some? {
        var i := r.value;
        assert s[1..][i..i + |sub|] == s[i + 1..i + 1 + |sub|];
        forall k | 0 <= k < i + 1 ensures !StartsWith(s[k..], sub) {
          if k > 0 {
            assert s[1..][k - 1..] == s[k..];
          }
        }
      }
    }
  }

  /** A non-empty pattern whose first character does not recur in it. */
  predicate HeadUnique(pat: string)
  {
    |pat| > 0 && forall i | 1 <= i < |pat| :: pat[i] != pat[0]
  }

  /** A pattern whose first character does not recur in it is found at
      a position where it occurs when the text before does not contain it. */
  lemma {:induction false} IndexOfSubAt(s: string, pat: string, n: nat)
    requires HeadUnique(pat) && n + |pat| <= |s| && s[n..n + |pat|] == pat && !Contains(s[..n], pat)
    ensures IndexOfSub(s, pat) == Some(n)
    decreases n
  {
    if n == 0 {
      assert s[..|pat|] == pat;
    } else {
      if |pat| <= n {
        assert s[..|pat|] == s[..n][..|pat|];
      } else {
        assert s[..|pat|][n] == pat[0];
      }
      assert s[1..][n - 1..n - 1 + |pat|] == pat;
      assert s[1..][..n - 1] == s[..n][1..];
      IndexOfSubAt(s[1..], pat, n - 1);
    }
  }

  /** `str::parse` for an unsigned type whose values are below `limit`:
      an optional `+` (not on its own), then one or more decimal digits
      whose value is below the limit. */
  function ParseUnsigned(s: string, limit: nat): (r: Option<nat>)
    ensures r.Some? ==> r.value < limit
  {
    var digits := if |s| > 1 && s[0] == '+' then s[1..] else s;
    if |digits| > 0 && AllDigits(digits) && DigitsValue(digits) < limit then Some(DigitsValue(digits))
    else None
  }

  /** A rendered number parses back exactly when it is below the limit. */
  lemma ParseUnsignedRendered(n: nat, limit: nat)
    ensures ParseUnsigned(NatToString(n), limit) == if n < limit then Some(n) else None
  {
    NatToStringRoundTrip(n);
  }

  /** A sign or any other non-digit character makes the parse fail. */
  lemma ParseUnsignedRejects(s: string, limit: nat, k: nat)
    requires 0 < k < |s| && !IsDigit(s[k])
    ensures ParseUnsigned(s, limit).None?
  {
    var digits := if |s| > 1 && s[0] == '+' then s[1..] else s;
    if digits == s[1..] {
      assert digits[k - 1] == s[k];
    } else {
      assert digits[k] == s[k];
    }
  }
}
