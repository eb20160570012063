// `parse_size` (src/util.rs, copied in src/qcow2.rs): a human-readable size
// such as "20G" or "512M" read as a number of bytes, with binary units and
// an unsigned 64-bit result.

module SizeParse {
  import opened Wrappers
  import opened Strings
  import opened Bytes

  const KiB: nat := 1024
  const MiB: nat := 1024 * 1024
  const GiB: nat := 1024 * 1024 * 1024
  const TiB: nat := 1024 * 1024 * 1024 * 1024

  predicate IsAsciiAlpha(c: char)
  {
    'A' <= c <= 'Z' || 'a' <= c <= 'z'
  }

  /** `find(|c| c.is_ascii_alphabetic())`: the index of the first ASCII letter. */
  function FindLetter(s: string): (r: Option<nat>)
    ensures r.Some? ==> r.value < |s| && IsAsciiAlpha(s[r.value])
    ensures r.Some? ==> forall k | 0 <= k < r.value :: !IsAsciiAlpha(s[k])
    ensures r.None? <==> forall k | 0 <= k < |s| :: !IsAsciiAlpha(s[k])
  {
    if |s| == 0 then None
    else if IsAsciiAlpha(s[0]) then Some(0)
    else match FindLetter(s[1..])
      case None => None
      case Some(i) => Some(i + 1)
  }

  /** `str::parse::<u64>`: an optional `+` (not on its own), then one or
      more decimal digits whose value fits in 64 bits. */
  function ParseU64(s: string): (r: Option<nat>)
    ensures r.Some? ==> r.value < U64Limit
  {
    ParseUnsigned(s, U64Limit)
  }

  /** The multiplier of an upper-cased suffix; None for an unknown one. */
  function Multiplier(suffix: string): (r: Option<nat>)
    ensures r.Some? ==> r.value >= 1
  {
    match suffix
    case "" => Some(1)
    case "K" => Some(KiB)
    case "KB" => Some(KiB)
    case "M" => Some(MiB)
    case "MB" => Some(MiB)
    case "G" => Some(GiB)
    case "GB" => Some(GiB)
    case "T" => Some(TiB)
    case "TB" => Some(TiB)
    case _ => None
  }

  /** The number part and the upper-cased suffix of a trimmed size: split
      at the first ASCII letter. */
  function Split(t: string): (r: (string, string))
    ensures |r.0| <= |t| && r.0 == t[..|r.0|] && r.1 == AsciiUpper(t[|r.0|..])
    ensures forall k | 0 <= k < |r.0| :: !IsAsciiAlpha(t[k])
    ensures |r.0| < |t| ==> IsAsciiAlpha(t[|r.0|])
  {
    match FindLetter(t)
    case Some(i) => (t[..i], AsciiUpper(t[i..]))
    case None => (t, "")
  }

  /** `parse_size`: the number times the unit's multiplier. Blank input,
      a bad number, an unknown suffix and a product beyond `u64` are all
      validation errors. */
  function ParseSize(s: string): (r: Result<nat>)
    ensures r.Ok? ==> r.value < U64Limit
    ensures r.Err? ==> r.error == Validation
  {
    var t := Trim(s);
    if t == "" then Err(Validation)
    else
      var sp := Split(t);
      match ParseU64(sp.0)
      case None => Err(Validation)
      case Some(n) =>
        match Multiplier(sp.1)
        case None => Err(Validation)
        case Some(m) => CheckedMul(n, m)
  }

  /** `checked_mul` on `u64`: the product, or a validation error when it
      does not fit. */
  function CheckedMul(n: nat, m: nat): (r: Result<nat>)
    ensures r.Ok? <==> n * m < U64Limit
    ensures r.Ok? ==> r.value == n * m
    ensures r.Err? ==> r.error == Validation
  {
    if n * m < U64Limit then Ok(n * m) else Err(Validation)
  }

  /** A blank size is rejected. */
  lemma BlankIsRejected(s: string)
    requires forall k | 0 <= k < |s| :: IsWhitespace(s[k])
    ensures ParseSize(s) == Err(Validation)
  {
    TrimEmpty(s);
  }

  /** The suffixes `parse_size` accepts, in the case they are written in. */
  predicate IsUnit(suffix: string)
  {
    (forall k | 0 <= k < |suffix| :: IsAsciiAlpha(suffix[k])) && Multiplier(AsciiUpper(suffix)).Some?
  }

  /** A rendered number followed by a suffix of letters splits back into
      the two. */
  lemma SplitRendered(d: string, suffix: string)
    requires AllDigits(d) && forall k | 0 <= k < |suffix| :: IsAsciiAlpha(suffix[k])
    ensures Split(d + suffix) == (d, AsciiUpper(suffix))
  {
    var t := d + suffix;
    var r := Split(t);
    assert forall k | 0 <= k < |d| :: t[k] == d[k] && !IsAsciiAlpha(t[k]);
    assert |suffix| > 0 ==> IsAsciiAlpha(t[|d|]);
    assert r.0 == d;
    assert t[|d|..] == suffix;
  }

  /** The decimal rendering of a `u64` parses back to it. */
  lemma ParseRendered(n: nat)
    requires n < U64Limit
    ensures ParseU64(NatToString(n)) == Some(n)
  {
    ParseUnsignedRendered(n, U64Limit);
  }

  /** A rendered number is rejected as a `u64` when it does not fit. */
  lemma ParseRenderedTooLarge(n: nat)
    requires n >= U64Limit
    ensures ParseU64(NatToString(n)).None?
  {
    ParseUnsignedRendered(n, U64Limit);
  }

  /** Rendering a number and a unit, with any whitespace around it, and
      parsing it back gives the number times the unit's multiplier, or an
      error exactly when that product does not fit in a `u64`. */
  lemma RenderParseRoundTrip(front: string, n: nat, unit: string, back: string)
    requires forall k | 0 <= k < |front| :: IsWhitespace(front[k])
    requires forall k | 0 <= k < |back| :: IsWhitespace(back[k])
    requires IsUnit(unit)
    ensures ParseSize(front + NatToString(n) + unit + back) == CheckedMul(n, Multiplier(AsciiUpper(unit)).value)
  {
    var d := NatToString(n);
    var core := d + unit;
    RenderedEnds(d, unit);
    assert front + d + unit + back == front + core + back;
    TrimPadded(front, core, back);
    RenderedCore(n, unit);
  }

  /** Digits followed by letters neither start nor end with whitespace. */
  lemma RenderedEnds(d: string, unit: string)
    requires |d| > 0 && AllDigits(d)
    requires forall k | 0 <= k < |unit| :: IsAsciiAlpha(unit[k])
    ensures var core := d + unit;
      |core| > 0 && !IsWhitespace(core[0]) && !IsWhitespace(core[|core| - 1])
  {
    var core := d + unit;
    assert core[0] == d[0] && IsDigit(d[0]);
    if |unit| > 0 {
      assert core[|core| - 1] == unit[|unit| - 1] && IsAsciiAlpha(unit[|unit| - 1]);
    } else {
      assert core[|core| - 1] == d[|d| - 1] && IsDigit(d[|d| - 1]);
    }
  }

  lemma RenderedCore(n: nat, unit: string)
    requires IsUnit(unit)
    ensures var core := NatToString(n) + unit;
      Trim(core) == core ==> ParseSize(core) == CheckedMul(n, Multiplier(AsciiUpper(unit)).value)
  {
    var d := NatToString(n);
    var core := d + unit;
    SplitRendered(d, unit);
    var m := Multiplier(AsciiUpper(unit)).value;
    if n < U64Limit {
      ParseRendered(n);
    } else {
      ParseRenderedTooLarge(n);
      MulAtLeast(n, m);
    }
  }

  lemma MulAtLeast(n: nat, m: nat)
    requires m >= 1
    ensures n * m >= n
  {
  }

  /** A suffix other than the nine spellings is rejected whatever the number. */
  lemma UnknownSuffixIsRejected(n: nat, unit: string)
    requires |unit| > 0 && forall k | 0 <= k < |unit| :: IsAsciiAlpha(unit[k])
    requires Multiplier(AsciiUpper(unit)).None?
    ensures ParseSize(NatToString(n) + unit).Err?
  {
    var d := NatToString(n);
    var s := d + unit;
    RenderedEnds(d, unit);
    TrimPadded("", s, "");
    assert "" + s + "" == s;
    SplitRendered(d, unit);
  }
}
