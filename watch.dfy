// The inotify bridge (src/watch.rs): which mounts are watched, how a host
// path becomes a guest path, which file events are forwarded, and how one
// batch of events becomes one `touch` command run over SSH.

module Watch {
  import opened Wrappers
  import opened Strings
  import Sorting

  /** A host path as its components below `/`. */
  type HostPath = seq<string>

  datatype ResolvedMount = ResolvedMount(source: HostPath, target: string, readonly: bool, inotify: bool)

  predicate Watched(m: ResolvedMount)
  {
    m.inotify && !m.readonly
  }

  /** The (source, target) pairs of the watched mounts. */
  function WatchMounts(mounts: seq<ResolvedMount>): (r: seq<(HostPath, string)>)
    ensures |r| <= |mounts|
    ensures forall m | m in mounts && Watched(m) :: (m.source, m.target) in r
    ensures forall e | e in r :: exists m | m in mounts :: Watched(m) && e == (m.source, m.target)
  {
    if |mounts| == 0 then []
    else
      var rest := WatchMounts(mounts[1..]);
      assert forall m | m in mounts[1..] :: m in mounts;
      if Watched(mounts[0]) then [(mounts[0].source, mounts[0].target)] + rest else rest
  }

  // ---------------------------------------------------------------------
  // The path map
  // ---------------------------------------------------------------------

  /** The length in characters of `/a/b/...`: one separator and the name per component. */
  function PathLen(p: HostPath): nat
  {
    if |p| == 0 then 0 else PathLen(p[..|p| - 1]) + 1 + |p[|p| - 1]|
  }

  /** `strip_prefix` succeeds: `a` is a component-wise prefix of `b`. */
  predicate IsPrefix(a: HostPath, b: HostPath)
  {
    |a| <= |b| && b[..|a|] == a
  }

  /** Each component a path has beyond a prefix adds at least one byte. */
  lemma {:induction false} PathLenPrefix(a: HostPath, b: HostPath)
    ensures IsPrefix(a, b) ==> PathLen(a) + (|b| - |a|) <= PathLen(b)
    decreases |b|
  {
    if IsPrefix(a, b) {
      if |b| > |a| {
        var c := b[..|b| - 1];
        assert c[..|a|] == a && |c| == |b| - 1;
        PathLenPrefix(a, c);
        assert PathLen(b) == PathLen(c) + 1 + |b[|b| - 1]|;
      } else {
        assert b == b[..|a|];
      }
    }
  }

  /** Two prefixes of one path are prefixes of each other. */
  lemma PrefixesComparable(a: HostPath, b: HostPath, h: HostPath)
    requires IsPrefix(a, h) && IsPrefix(b, h)
    ensures IsPrefix(a, b) || IsPrefix(b, a)
  {
    if |a| <= |b| {
      assert b[..|a|] == h[..|a|];
    } else {
      assert a[..|b|] == h[..|b|];
    }
  }

  /** The comparison of the path-map sort: longer source first. */
  function LongerFirst(): ((HostPath, string), (HostPath, string)) -> bool
  {
    (a: (HostPath, string), b: (HostPath, string)) => PathLen(a.0) >= PathLen(b.0)
  }

  lemma LongerFirstTotal()
    ensures Sorting.TotalPreorder(LongerFirst())
  {
  }

  /** The path map: the watched mounts sorted by source length, longest
      first; mounts of equal length keep their order. */
  function PathMap(watched: seq<(HostPath, string)>): (r: seq<(HostPath, string)>)
    ensures multiset(r) == multiset(watched)
    ensures Sorting.Sorted(LongerFirst(), r)
  {
    LongerFirstTotal();
    Sorting.SortSorted(LongerFirst(), watched);
    Sorting.Sort(LongerFirst(), watched)
  }

  // ---------------------------------------------------------------------
  // Path translation
  // ---------------------------------------------------------------------

  /** The first map entry at or after `k` whose source is a prefix of `host`. */
  function FirstMatch(host: HostPath, pathMap: seq<(HostPath, string)>, k: nat): (r: Option<nat>)
    requires k <= |pathMap|
    ensures r.Some? ==> k <= r.value < |pathMap| && IsPrefix(pathMap[r.value].0, host)
    ensures r.Some? ==> forall j | k <= j < r.value :: !IsPrefix(pathMap[j].0, host)
    ensures r.None? ==> forall j | k <= j < |pathMap| :: !IsPrefix(pathMap[j].0, host)
    decreases |pathMap| - k
  {
    if k == |pathMap| then None
    else if IsPrefix(pathMap[k].0, host) then Some(k)
    else FirstMatch(host, pathMap, k + 1)
  }

  /** `Path::new(target).join(relative)`, as text: a `/` goes between them
      unless the target is empty or already ends in one. */
  function GuestJoin(target: string, relative: HostPath): string
  {
    if target == "" || EndsWith(target, "/") then target + Join(relative, "/")
    else target + "/" + Join(relative, "/")
  }

  /** `translate_path`: the first entry whose source is a prefix decides;
      an exact match gives the target itself, anything deeper the target
      joined with the rest; no match gives None. */
  function TranslatePath(host: HostPath, pathMap: seq<(HostPath, string)>): (r: Option<string>)
    ensures r.None? <==> forall j | 0 <= j < |pathMap| :: !IsPrefix(pathMap[j].0, host)
    ensures r.Some? ==> var i := FirstMatch(host, pathMap, 0).value;
      r.value == if |host| == |pathMap[i].0| then pathMap[i].1 else GuestJoin(pathMap[i].1, host[|pathMap[i].0|..])
  {
    match FirstMatch(host, pathMap, 0)
    case None => None
    case Some(i) =>
      var relative := host[|pathMap[i].0|..];
      if |relative| == 0 then Some(pathMap[i].1) else Some(GuestJoin(pathMap[i].1, relative))
  }

  /** In a path map sorted longest first, the entry `translate_path` picks
      is the deepest mount containing the path. */
  lemma LongestPrefixWins(host: HostPath, pathMap: seq<(HostPath, string)>)
    requires Sorting.Sorted(LongerFirst(), pathMap)
    requires FirstMatch(host, pathMap, 0).Some?
    ensures var i := FirstMatch(host, pathMap, 0).value;
      forall j | 0 <= j < |pathMap| && IsPrefix(pathMap[j].0, host) :: |pathMap[j].0| <= |pathMap[i].0|
  {
    var i := FirstMatch(host, pathMap, 0).value;
    forall j | 0 <= j < |pathMap| && IsPrefix(pathMap[j].0, host)
      ensures |pathMap[j].0| <= |pathMap[i].0|
    {
      PrefixesComparable(pathMap[i].0, pathMap[j].0, host);
      PathLenPrefix(pathMap[i].0, pathMap[j].0);
      PathLenPrefix(pathMap[j].0, pathMap[i].0);
    }
  }

  /** The unit tests' project mount: a file below it, the mount itself,
      an unrelated path, and a nested mount listed first. */
  lemma TranslateExamples()
    ensures TranslatePath(["home", "user", "project", "src", "main.rs"], [(["home", "user", "project"], "/workspace")])
      == Some("/workspace/src/main.rs")
    ensures TranslatePath(["home", "user", "project"], [(["home", "user", "project"], "/workspace")]) == Some("/workspace")
    ensures TranslatePath(["other", "path", "file.rs"], [(["home", "user", "project"], "/workspace")]) == None
    ensures TranslatePath(["home", "user", "project", "sub", "file.rs"],
      [(["home", "user", "project", "sub"], "/sub-mount"), (["home", "user", "project"], "/workspace")])
      == Some("/sub-mount/file.rs")
  {
    var p: HostPath := ["home", "user", "project"];
    var f: HostPath := ["home", "user", "project", "src", "main.rs"];
    assert f[..3] == p && f[3..] == ["src", "main.rs"];
    assert ["src", "main.rs"][1..] == ["main.rs"];
    assert Join(["src", "main.rs"], "/") == "src/main.rs";
    assert "/workspace"[9..] == "e";
    assert "/workspace" + "/" + "src/main.rs" == "/workspace/src/main.rs";
    assert ["other", "path", "file.rs"][..3][0] == "other" != "home";
    var q: HostPath := ["home", "user", "project", "sub"];
    var g: HostPath := ["home", "user", "project", "sub", "file.rs"];
    assert g[..4] == q && g[4..] == ["file.rs"];
    assert "/sub-mount"[9..] == "t";
    assert "/sub-mount" + "/" + "file.rs" == "/sub-mount/file.rs";
  }

  // ---------------------------------------------------------------------
  // Event kinds
  // ---------------------------------------------------------------------

  datatype ModifyKind = ModifyAny | Data | Metadata | Name | ModifyOther
  datatype EventKind = AnyKind | Access | Create | Modify(change: ModifyKind) | Remove | OtherKind

  /** `should_forward`: creations, data writes and renames. */
  predicate ShouldForward(kind: EventKind)
    ensures kind == Modify(Metadata) || kind == Access || kind == Remove ==> !ShouldForward(kind)
  {
    match kind
    case Create => true
    case Modify(Data) => true
    case Modify(Name) => true
    case _ => false
  }

  /** The metadata change a guest-side `touch` feeds back is never
      forwarded, so the bridge does not loop; removals and reads are not
      forwarded either. */
  lemma ShouldForwardKinds(kind: EventKind)
    ensures ShouldForward(kind) <==> kind == Create || kind == Modify(Data) || kind == Modify(Name)
    ensures !ShouldForward(Modify(Metadata)) && !ShouldForward(Access) && !ShouldForward(Remove)
  {
  }

  // ---------------------------------------------------------------------
  // Shell escaping
  // ---------------------------------------------------------------------

  /** `shell_escape`: single quotes around the text, each `'` inside
      written as `'\''`. */
  function ShellEscape(s: string): (r: string)
    ensures |r| >= 2 && r[0] == '\'' && r[|r| - 1] == '\''
  {
    "'" + ReplaceChar(s, '\'', "'\\''") + "'"
  }

  /** The characters that end an unquoted word for `sh`. */
  predicate IsDelimiter(c: char)
  {
    c == ' ' || c == '\t' || c == '\n' || c == ';' || c == '&' || c == '|' || c == '<' || c == '>' || c == '(' || c == ')'
  }

  function Cons(c: char, r: Option<(string, string)>): Option<(string, string)>
  {
    match r
    case None => None
    case Some(p) => Some(([c] + p.0, p.1))
  }

  function Prepend(s: string, r: Option<(string, string)>): Option<(string, string)>
  {
    match r
    case None => None
    case Some(p) => Some((s + p.0, p.1))
  }

  /** How `sh` reads one word: single quotes keep everything up to the next
      quote, a backslash outside quotes takes the next character as is,
      and an unquoted delimiter ends the word. Returns the word and the
      rest of the line, or None for an unterminated quote. */
  function ReadWord(t: string, quoted: bool): Option<(string, string)>
  {
    if |t| == 0 then (if quoted then None else Some(("", "")))
    else if quoted then
      (if t[0] == '\'' then ReadWord(t[1..], false) else Cons(t[0], ReadWord(t[1..], true)))
    else if IsDelimiter(t[0]) then Some(("", t))
    else if t[0] == '\'' then ReadWord(t[1..], true)
    else if t[0] == '\\' then (if |t| >= 2 then Cons(t[1], ReadWord(t[2..], false)) else None)
    else Cons(t[0], ReadWord(t[1..], false))
  }

  lemma PrependEmpty(r: Option<(string, string)>)
    ensures Prepend("", r) == r
  {
    match r
    case None =>
    case Some(p) => assert "" + p.0 == p.0;
  }

  lemma ConsPrepend(c: char, s: string, r: Option<(string, string)>)
    ensures Cons(c, Prepend(s, r)) == Prepend([c] + s, r)
  {
    match r
    case None =>
    case Some(p) => assert [c] + (s + p.0) == [c] + s + p.0;
  }

  /** Inside quotes, `'\''` closes the quote, adds a quote and reopens. */
  lemma EscapedQuoteReads(tail: string)
    ensures ReadWord("'\\''" + tail, true) == Cons('\'', ReadWord(tail, true))
  {
    var t := "'\\''" + tail;
    var t1 := t[1..];
    var t3 := "'" + tail;
    assert t[0] == '\'' && t1 == "\\''" + tail;
    assert t1[0] == '\\' && t1[1] == '\'' && t1[2..] == t3;
    assert t3[0] == '\'' && t3[1..] == tail;
    assert ReadWord(t3, false) == ReadWord(tail, true);
    assert ReadWord(t1, false) == Cons('\'', ReadWord(t3, false));
  }

  lemma {:induction false} QuotedBodyReads(s: string, rest: string)
    ensures ReadWord(ReplaceChar(s, '\'', "'\\''") + "'" + rest, true) == Prepend(s, ReadWord(rest, false))
    decreases |s|
  {
    var t := ReplaceChar(s, '\'', "'\\''") + "'" + rest;
    if |s| == 0 {
      assert t == "'" + rest && t[1..] == rest;
      PrependEmpty(ReadWord(rest, false));
    } else {
      var tail := ReplaceChar(s[1..], '\'', "'\\''") + "'" + rest;
      QuotedBodyReads(s[1..], rest);
      assert [s[0]] + s[1..] == s;
      if s[0] == '\'' {
        assert t == "'\\''" + tail;
        EscapedQuoteReads(tail);
      } else {
        assert t == [s[0]] + tail && t[1..] == tail;
      }
      ConsPrepend(s[0], s[1..], ReadWord(rest, false));
    }
  }

  /** An escaped text is one word for `sh` and reads back as the text,
      whatever it contains: a path with spaces, quotes or `;` cannot end
      the argument early or start another command. */
  lemma ShellEscapeReadsBack(s: string, rest: string)
    requires rest == "" || IsDelimiter(rest[0])
    ensures ReadWord(ShellEscape(s) + rest, false) == Some((s, rest))
  {
    var body := ReplaceChar(s, '\'', "'\\''") + "'" + rest;
    assert ShellEscape(s) + rest == ['\''] + body;
    OpeningQuoteReads(body);
    QuotedBodyReads(s, rest);
    DelimiterEndsWord(rest);
    assert s + "" == s;
  }

  lemma OpeningQuoteReads(body: string)
    ensures ReadWord(['\''] + body, false) == ReadWord(body, true)
  {
    var t := ['\''] + body;
    assert t[0] == '\'' && t[1..] == body;
  }

  lemma DelimiterEndsWord(rest: string)
    requires rest == "" || IsDelimiter(rest[0])
    ensures ReadWord(rest, false) == Some(("", rest))
  {
  }

  /** A text without quotes is only wrapped, as the first unit test checks
      for `/workspace/src/main.rs`. */
  lemma ShellEscapePlain(s: string)
    requires forall k | 0 <= k < |s| :: s[k] != '\''
    ensures ShellEscape(s) == "'" + s + "'"
  {
    ReplaceCharAbsent(s, '\'', "'\\''");
  }

  /** A quote between quote-free texts becomes `'\''`, as the second unit
      test checks for `it's a file`. */
  lemma ShellEscapeOneQuote(a: string, b: string)
    requires forall k | 0 <= k < |a| :: a[k] != '\''
    requires forall k | 0 <= k < |b| :: b[k] != '\''
    ensures ShellEscape(a + "'" + b) == "'" + a + "'\\''" + b + "'"
  {
    var q := "'\\''";
    var x := a + "'" + b;
    assert x == a + ("'" + b);
    ReplaceCharAppend(a, "'" + b, '\'', q);
    ReplaceCharAbsent(a, '\'', q);
    QuoteReplaced(b, q);
    ReplaceCharAbsent(b, '\'', q);
    var r := ReplaceChar(x, '\'', q);
    assert r == a + (q + b);
    assert ShellEscape(x) == "'" + r + "'";
    RegroupQuoted("'", a, q, b, "'");
  }

  lemma RegroupQuoted<T>(p: seq<T>, a: seq<T>, q: seq<T>, b: seq<T>, e: seq<T>)
    ensures p + (a + (q + b)) + e == p + a + q + b + e
  {
    assert a + (q + b) == a + q + b;
  }

  lemma QuoteReplaced(b: string, q: string)
    ensures ReplaceChar("'" + b, '\'', q) == q + ReplaceChar(b, '\'', q)
  {
    assert ("'" + b)[0] == '\'' && ("'" + b)[1..] == b;
  }

  // ---------------------------------------------------------------------
  // One batch
  // ---------------------------------------------------------------------

  datatype Event = Event(kind: EventKind, paths: seq<HostPath>)

  /** The translated paths of a list of host paths, each with the host
      path it came from, in order. */
  function PathCandidates(paths: seq<HostPath>, pathMap: seq<(HostPath, string)>): seq<(string, HostPath)>
  {
    if |paths| == 0 then []
    else
      var before := PathCandidates(paths[..|paths| - 1], pathMap);
      match TranslatePath(paths[|paths| - 1], pathMap)
      case None => before
      case Some(guest) => before + [(guest, paths[|paths| - 1])]
  }

  /** The candidates of the forwarded events of a batch, in order. */
  function Candidates(events: seq<Event>, pathMap: seq<(HostPath, string)>): (r: seq<(string, HostPath)>)
    ensures (forall i | 0 <= i < |events| :: !ShouldForward(events[i].kind)) ==> r == []
  {
    if |events| == 0 then []
    else
      var e := events[|events| - 1];
      Candidates(events[..|events| - 1], pathMap)
      + (if ShouldForward(e.kind) then PathCandidates(e.paths, pathMap) else [])
  }

  /** The guest paths of a list of touches. */
  function Keys(xs: seq<(string, HostPath)>): set<string>
  {
    set i | 0 <= i < |xs| :: xs[i].0
  }

  /** The first candidate of each guest path, in first-seen order. */
  function Dedup(xs: seq<(string, HostPath)>): (r: seq<(string, HostPath)>)
    ensures |r| <= |xs|
    ensures forall p | p in r :: p in xs
  {
    if |xs| == 0 then []
    else
      var d := Dedup(xs[..|xs| - 1]);
      if xs[|xs| - 1].0 in Keys(d) then d else d + [xs[|xs| - 1]]
  }

  lemma KeysSnoc(xs: seq<(string, HostPath)>, x: (string, HostPath))
    ensures Keys(xs + [x]) == Keys(xs) + {x.0}
  {
    var ys := xs + [x];
    assert ys[|xs|] == x;
    assert forall i | 0 <= i < |xs| :: ys[i] == xs[i];
  }

  /** No guest path is touched twice in a batch, and every forwarded,
      translated path is touched. */
  lemma {:induction false} DedupDistinct(xs: seq<(string, HostPath)>)
    ensures var d := Dedup(xs);
      Keys(d) == Keys(xs) && forall i, j | 0 <= i < j < |d| :: d[i].0 != d[j].0
    decreases |xs|
  {
    if |xs| > 0 {
      var pre := xs[..|xs| - 1];
      DedupDistinct(pre);
      KeysSnoc(pre, xs[|xs| - 1]);
      assert pre + [xs[|xs| - 1]] == xs;
      var d := Dedup(pre);
      KeysSnoc(d, xs[|xs| - 1]);
    }
  }

  /** The touch of each guest path is its first candidate: the host path
      it was first seen under gives the modification time. */
  lemma {:induction false} DedupKeepsFirst(xs: seq<(string, HostPath)>, k: nat)
    requires k < |xs| && forall j | 0 <= j < k :: xs[j].0 != xs[k].0
    ensures xs[k] in Dedup(xs)
    decreases |xs|
  {
    var pre := xs[..|xs| - 1];
    var d := Dedup(pre);
    if k < |xs| - 1 {
      DedupKeepsFirst(pre, k);
    } else {
      DedupDistinct(pre);
      assert xs[k].0 !in Keys(pre);
    }
  }

  lemma SnocPrefix<T>(s: seq<T>, i: nat)
    requires i < |s|
    ensures s[..i + 1][..i] == s[..i] && s[..i + 1][i] == s[i]
  {
  }

  lemma DedupSnoc(xs: seq<(string, HostPath)>, x: (string, HostPath))
    ensures Dedup(xs + [x]) == if x.0 in Keys(Dedup(xs)) then Dedup(xs) else Dedup(xs) + [x]
  {
    assert (xs + [x])[..|xs|] == xs;
  }

  lemma PathCandidatesSnoc(paths: seq<HostPath>, j: nat, pathMap: seq<(HostPath, string)>)
    requires j < |paths|
    ensures PathCandidates(paths[..j + 1], pathMap) ==
      match TranslatePath(paths[j], pathMap)
      case None => PathCandidates(paths[..j], pathMap)
      case Some(guest) => PathCandidates(paths[..j], pathMap) + [(guest, paths[j])]
  {
    SnocPrefix(paths, j);
  }

  lemma CandidatesSnoc(events: seq<Event>, i: nat, pathMap: seq<(HostPath, string)>)
    requires i < |events|
    ensures Candidates(events[..i + 1], pathMap) == Candidates(events[..i], pathMap)
      + (if ShouldForward(events[i].kind) then PathCandidates(events[i].paths, pathMap) else [])
  {
    SnocPrefix(events, i);
  }

  lemma AppendCandidate(before: seq<(string, HostPath)>, paths: seq<HostPath>, j: nat, pathMap: seq<(HostPath, string)>)
    requires j < |paths|
    ensures var xs := before + PathCandidates(paths[..j], pathMap);
      before + PathCandidates(paths[..j + 1], pathMap) ==
        match TranslatePath(paths[j], pathMap)
        case None => xs
        case Some(guest) => xs + [(guest, paths[j])]
  {
    PathCandidatesSnoc(paths, j, pathMap);
  }

  /** The inner loop of step 4: the touches of one forwarded event added
      to those collected so far. */
  method AddEventTouches(paths: seq<HostPath>, pathMap: seq<(HostPath, string)>,
                         ghost before: seq<(string, HostPath)>,
                         touches0: seq<(string, HostPath)>, seen0: set<string>)
    returns (touches: seq<(string, HostPath)>, seen: set<string>)
    requires touches0 == Dedup(before) && seen0 == Keys(touches0)
    ensures touches == Dedup(before + PathCandidates(paths, pathMap))
    ensures seen == Keys(touches)
  {
    touches, seen := touches0, seen0;
    var j := 0;
    assert before + PathCandidates(paths[..0], pathMap) == before;
    while j < |paths|
      invariant 0 <= j <= |paths|
      invariant touches == Dedup(before + PathCandidates(paths[..j], pathMap))
      invariant seen == Keys(touches)
    {
      var path := paths[j];
      ghost var xs := before + PathCandidates(paths[..j], pathMap);
      AppendCandidate(before, paths, j, pathMap);
      match TranslatePath(path, pathMap) {
        case Some(guest) =>
          DedupSnoc(xs, (guest, path));
          KeysSnoc(touches, (guest, path));
          if guest !in seen {
            seen := seen + {guest};
            touches := touches + [(guest, path)];
          }
        case None =>
      }
      j := j + 1;
    }
    assert paths[..j] == paths;
  }

  /** Step 4 of `bridge_loop`: forwarded events only, each path
      translated, each guest path kept once with its first host path. */
  method CollectTouches(events: seq<Event>, pathMap: seq<(HostPath, string)>) returns (touches: seq<(string, HostPath)>)
    ensures touches == Dedup(Candidates(events, pathMap))
  {
    touches := [];
    var seen: set<string> := {};
    var i := 0;
    while i < |events|
      invariant 0 <= i <= |events|
      invariant touches == Dedup(Candidates(events[..i], pathMap))
      invariant seen == Keys(touches)
    {
      var event := events[i];
      CandidatesSnoc(events, i, pathMap);
      if ShouldForward(event.kind) {
        touches, seen := AddEventTouches(event.paths, pathMap, Candidates(events[..i], pathMap), touches, seen);
      } else {
        assert Candidates(events[..i], pathMap) + [] == Candidates(events[..i], pathMap);
      }
      i := i + 1;
    }
    assert events[..i] == events;
  }

  /** One `touch -d @<epoch> '<guest path>'` command; the epoch of a host
      path comes from the host file system. */
  function TouchCommand(t: (string, HostPath), epochOf: HostPath -> string): (r: string)
    ensures StartsWith(r, "touch -d @" + epochOf(t.1) + " ") && EndsWith(r, ShellEscape(t.0))
  {
    "touch -d @" + epochOf(t.1) + " " + ShellEscape(t.0)
  }

  /** Step 5: the touches joined with `;`, or no command for an empty batch. */
  function BatchCommand(touches: seq<(string, HostPath)>, epochOf: HostPath -> string): (r: Option<string>)
    ensures r.None? <==> |touches| == 0
  {
    if |touches| == 0 then None
    else Some(Join(Sorting.Apply((t: (string, HostPath)) => TouchCommand(t, epochOf), touches), ";"))
  }

  /** In the joined command, each touch's path argument is one word that
      reads back as the guest path, ended by the `;` before the next touch
      or by the end of the command. */
  lemma TouchArgumentReadsBack(t: (string, HostPath), epochOf: HostPath -> string, rest: string)
    requires rest == "" || rest[0] == ';'
    ensures var pre := "touch -d @" + epochOf(t.1) + " ";
      var c := TouchCommand(t, epochOf) + rest;
      StartsWith(c, pre) && ReadWord(c[|pre|..], false) == Some((t.0, rest))
  {
    var pre := "touch -d @" + epochOf(t.1) + " ";
    var c := TouchCommand(t, epochOf) + rest;
    assert c == pre + (ShellEscape(t.0) + rest);
    assert c[|pre|..] == ShellEscape(t.0) + rest;
    ShellEscapeReadsBack(t.0, rest);
  }
}
