// The JSON-lines observer (src/observer/json.rs): one JSON object per
// effect data item, with log and info text escaped by hand.

module JsonObserver {
  import opened Wrappers
  import opened Strings

  /** The items an effect stream carries. */
  datatype EffectData =
    | LogLine(line: string)
    | Progress(current: nat, total: nat)
    | Info(info: string)

  /** Every backslash doubled, then every double quote escaped, in that order. */
  function Escape(s: string): (r: string)
    ensures (forall k | 0 <= k < |s| :: s[k] != '\\' && s[k] != '"') ==> r == s
  {
    ReplaceCharAbsent(s, '\\', "\\\\");
    ReplaceCharAbsent(ReplaceChar(s, '\\', "\\\\"), '"', "\\\"");
    ReplaceChar(ReplaceChar(s, '\\', "\\\\"), '"', "\\\"")
  }

  /** The escape of one character. */
  function EscapeChar(c: char): string
  {
    if c == '\\' then "\\\\" else if c == '"' then "\\\"" else [c]
  }

  /** Escaping works character by character: the two passes never see
      each other's output as input to rewrite. */
  lemma {:induction false} EscapeCons(c: char, rest: string)
    ensures Escape([c] + rest) == EscapeChar(c) + Escape(rest)
  {
    ReplaceCharAppend([c], rest, '\\', "\\\\");
    var first := ReplaceChar([c], '\\', "\\\\");
    assert [c][1..] == [];
    ReplaceCharAppend(first, ReplaceChar(rest, '\\', "\\\\"), '"', "\\\"");
    if c == '\\' {
      assert first == "\\\\";
      assert first[1..] == "\\";
      assert ReplaceChar(first, '"', "\\\"") == "\\\\";
    } else {
      assert first == [c];
      assert ReplaceChar(first, '"', "\\\"") == EscapeChar(c);
    }
  }

  /** Reads a JSON string body up to its closing quote, undoing `\\` and
      `\"` (and taking any other escaped character as itself); returns the
      text and what follows the quote, or None when no quote closes it.
      Like the writer it checks, it lets raw control characters through,
      which a strict JSON reader would refuse. */
  function ReadString(t: string): Option<(string, string)>
  {
    if |t| == 0 then None
    else if t[0] == '"' then Some(("", t[1..]))
    else if t[0] == '\\' && |t| >= 2 then
      match ReadString(t[2..])
      case None => None
      case Some(p) => Some(([t[1]] + p.0, p.1))
    else if t[0] == '\\' then None
    else
      match ReadString(t[1..])
      case None => None
      case Some(p) => Some(([t[0]] + p.0, p.1))
  }

  /** The escaped text ends exactly at the quote after it and reads back
      as the original: no line can close the `data` string early or
      smuggle extra members into the object. */
  lemma {:induction false} EscapeReadsBack(s: string, after: string)
    ensures ReadString(Escape(s) + "\"" + after) == Some((s, after))
  {
    if |s| == 0 {
      assert Escape(s) == "";
      assert Escape(s) + "\"" + after == "\"" + after;
    } else {
      EscapeCons(s[0], s[1..]);
      assert [s[0]] + s[1..] == s;
      EscapeReadsBack(s[1..], after);
      var t := Escape(s) + "\"" + after;
      var tail := Escape(s[1..]) + "\"" + after;
      assert t == EscapeChar(s[0]) + tail;
      if s[0] == '\\' || s[0] == '"' {
        assert t[2..] == tail;
      } else {
        assert t[1..] == tail;
      }
    }
  }

  /** The text before the payload: type, stream (not escaped) and kind. */
  function Head(stream: string, kind: string): string
  {
    "{\"type\":\"effect\",\"stream\":\"" + stream + "\",\"kind\":\"" + kind + "\""
  }

  /** The `kind` member of each variant. */
  function Kind(data: EffectData): string
  {
    match data
    case LogLine(_) => "log"
    case Progress(_, _) => "progress"
    case Info(_) => "info"
  }

  /** `json_effect`. */
  function JsonEffect(stream: string, data: EffectData): (r: string)
    ensures StartsWith(r, Head(stream, Kind(data)))
  {
    match data
    case LogLine(line) => Head(stream, "log") + ",\"data\":\"" + Escape(line) + "\"}"
    case Progress(current, total) =>
      Head(stream, "progress") + ",\"current\":" + NatToString(current) + ",\"total\":" + NatToString(total) + "}"
    case Info(info) => Head(stream, "info") + ",\"data\":\"" + Escape(info) + "\"}"
  }

  /** The `data` member of a log or info object reads back as the original
      text, and the object closes right after it. */
  lemma DataReadsBack(stream: string, data: EffectData)
    requires !data.Progress?
    ensures var text := if data.LogLine? then data.line else data.info;
      var pre := Head(stream, Kind(data)) + ",\"data\":\"";
      var r := JsonEffect(stream, data);
      StartsWith(r, pre) && ReadString(r[|pre|..]) == Some((text, "}"))
  {
    var text := if data.LogLine? then data.line else data.info;
    var pre := Head(stream, Kind(data)) + ",\"data\":\"";
    var r := JsonEffect(stream, data);
    assert r == pre + (Escape(text) + "\"" + "}");
    assert r[|pre|..] == Escape(text) + "\"" + "}";
    EscapeReadsBack(text, "}");
  }

  /** The progress members are unquoted decimals that read back as the
      two counts. */
  lemma ProgressNumbers(stream: string, current: nat, total: nat)
    ensures var c := NatToString(current);
      var t := NatToString(total);
      JsonEffect(stream, Progress(current, total))
        == Head(stream, "progress") + ",\"current\":" + c + ",\"total\":" + t + "}" &&
      AllDigits(c) && DigitsValue(c) == current && AllDigits(t) && DigitsValue(t) == total
  {
    NatToStringRoundTrip(current);
    NatToStringRoundTrip(total);
  }
}
