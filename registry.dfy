// The image registry (src/registry.rs): the built-in presets, the list
// `rum search` offers (Ubuntu first, live Fedora releases or the built-in
// Fedora preset), the search filter, and the editor that points the
// `[image]` base of rum.toml at the chosen image.

module Registry {
  import opened Wrappers
  import opened Strings
  import Sorting

  /** An image offered for selection; `title` is its label. */
  datatype CloudImage = CloudImage(title: string, url: string)

  /** The built-in presets, in their fixed order. */
  const Presets: seq<CloudImage> := [
    CloudImage("Ubuntu 24.04 LTS (Noble)",
      "https://cloud-images.ubuntu.com/noble/current/noble-server-cloudimg-amd64.img"),
    CloudImage("Ubuntu 22.04 LTS (Jammy)",
      "https://cloud-images.ubuntu.com/jammy/current/jammy-server-cloudimg-amd64.img"),
    CloudImage("Fedora Cloud 43",
      "https://download.fedoraproject.org/pub/fedora/linux/releases/43/Cloud/x86_64/images/Fedora-Cloud-Base-Generic-43-1.6.x86_64.qcow2"),
    CloudImage("Debian 12 (Bookworm)",
      "https://cloud.debian.org/images/cloud/bookworm/latest/debian-12-generic-amd64.qcow2"),
    CloudImage("Arch Linux",
      "https://geo.mirror.pkgbuild.com/images/latest/Arch-Linux-x86_64-cloudimg.qcow2"),
    CloudImage("Alpine Linux 3.21",
      "https://dl-cdn.alpinelinux.org/alpine/v3.21/releases/cloud/nocloud_alpine-3.21.3-x86_64-bios-cloudinit-r0.qcow2"),
    CloudImage("Rocky Linux 9",
      "https://dl.rockylinux.org/pub/rocky/9/images/x86_64/Rocky-9-GenericCloud-Base.latest.x86_64.qcow2"),
    CloudImage("AlmaLinux 9",
      "https://repo.almalinux.org/almalinux/9/cloud/x86_64/images/AlmaLinux-9-GenericCloud-latest.x86_64.qcow2"),
    CloudImage("openSUSE Leap 15.6",
      "https://download.opensuse.org/distribution/leap/15.6/appliances/openSUSE-Leap-15.6-Minimal-VM.x86_64-Cloud.qcow2"),
    CloudImage("CentOS Stream 9",
      "https://cloud.centos.org/centos/9-stream/x86_64/images/CentOS-Stream-GenericCloud-9-latest.x86_64.qcow2")
  ]

  // ---------------------------------------------------------------------
  // all_images
  // ---------------------------------------------------------------------

  /** The images, in order, whose label starts with `prefix` exactly when
      `keep` is set. */
  function ByPrefix(images: seq<CloudImage>, prefix: string, keep: bool): (r: seq<CloudImage>)
    ensures forall x | x in r :: x in images && StartsWith(x.title, prefix) == keep
    ensures forall x | x in images && StartsWith(x.title, prefix) == keep :: x in r
  {
    if |images| == 0 then []
    else
      (if StartsWith(images[0].title, prefix) == keep then [images[0]] else []) +
      ByPrefix(images[1..], prefix, keep)
  }

  /** Splitting by a prefix loses and duplicates nothing. */
  lemma {:induction false} ByPrefixPartition(images: seq<CloudImage>, prefix: string)
    ensures multiset(ByPrefix(images, prefix, false)) + multiset(ByPrefix(images, prefix, true)) == multiset(images)
  {
    if |images| > 0 {
      var x, rest := images[0], images[1..];
      ByPrefixPartition(rest, prefix);
      assert multiset(images) == multiset{x} + multiset(rest) by {
        assert images == [x] + rest;
      }
      if StartsWith(x.title, prefix) {
        assert ByPrefix(images, prefix, true) == [x] + ByPrefix(rest, prefix, true);
        assert ByPrefix(images, prefix, false) == ByPrefix(rest, prefix, false);
      } else {
        assert ByPrefix(images, prefix, false) == [x] + ByPrefix(rest, prefix, false);
        assert ByPrefix(images, prefix, true) == ByPrefix(rest, prefix, true);
      }
    }
  }

  /** The list before sorting: the presets other than Fedora's, then the
      live Fedora images, or the built-in Fedora presets when none came. */
  function Candidates(presets: seq<CloudImage>, fedoraImages: seq<CloudImage>): (r: seq<CloudImage>)
    ensures forall x | x in r :: x in presets || x in fedoraImages
    ensures |fedoraImages| > 0 ==> forall x | x in r && StartsWith(x.title, "Fedora") :: x in fedoraImages
  {
    ByPrefix(presets, "Fedora", false) +
    if |fedoraImages| == 0 then ByPrefix(presets, "Fedora", true) else fedoraImages
  }

  /** Ubuntu images before the others, the order of `all_images`. */
  predicate IsUbuntu(img: CloudImage)
  {
    StartsWith(img.title, "Ubuntu")
  }

  /** The comparator of `all_images`: Ubuntu images before the others,
      and by label within each group. */
  function ImageLe(): (CloudImage, CloudImage) -> bool
  {
    (a: CloudImage, b: CloudImage) =>
      if IsUbuntu(a) != IsUbuntu(b) then IsUbuntu(a) else LexLe(a.title, b.title)
  }

  lemma ImageLeTotal()
    ensures Sorting.TotalPreorder(ImageLe())
  {
    forall a: CloudImage, b: CloudImage ensures ImageLe()(a, b) || ImageLe()(b, a) {
      LexLeTotal(a.title, b.title);
    }
    forall a: CloudImage, b: CloudImage, c: CloudImage | ImageLe()(a, b) && ImageLe()(b, c)
      ensures ImageLe()(a, c)
    {
      if IsUbuntu(a) == IsUbuntu(b) && IsUbuntu(b) == IsUbuntu(c) {
        LexLeTransitive(a.title, b.title, c.title);
      }
    }
  }

  /** The list `all_images` builds from the given presets and live Fedora
      images (empty when they could not be fetched). */
  function ImagesFrom(presets: seq<CloudImage>, fedoraImages: seq<CloudImage>): (r: seq<CloudImage>)
    ensures forall x :: x in r <==> x in Candidates(presets, fedoraImages)
  {
    var candidates := Candidates(presets, fedoraImages);
    var sorted := Sorting.Sort(ImageLe(), candidates);
    assert forall x :: x in sorted <==> x in candidates by {
      forall x ensures x in sorted <==> x in candidates {
        assert x in sorted <==> x in multiset(sorted);
      }
    }
    sorted
  }

  /** `all_images`. */
  function AllImages(fedoraImages: seq<CloudImage>): (r: seq<CloudImage>)
    ensures forall x | x in fedoraImages :: x in r
  {
    ImagesFrom(Presets, fedoraImages)
  }

  /** Every Ubuntu image comes before every other image, and within each
      group the labels ascend. */
  lemma UbuntuFirst(presets: seq<CloudImage>, fedoraImages: seq<CloudImage>)
    ensures var r := ImagesFrom(presets, fedoraImages);
      (forall i, j | 0 <= i < j < |r| :: IsUbuntu(r[j]) ==> IsUbuntu(r[i])) &&
      (forall i, j | 0 <= i < j < |r| && IsUbuntu(r[i]) == IsUbuntu(r[j]) :: LexLe(r[i].title, r[j].title))
  {
    ImageLeTotal();
    Sorting.SortSorted(ImageLe(), Candidates(presets, fedoraImages));
  }

  /** With no live Fedora images the list holds exactly the presets,
      Fedora's included; otherwise the presets other than Fedora's and the
      live images, so a Fedora preset stays only if the live list carries
      it. */
  lemma FedoraFallback(presets: seq<CloudImage>, fedoraImages: seq<CloudImage>)
    ensures |fedoraImages| == 0 ==> multiset(ImagesFrom(presets, fedoraImages)) == multiset(presets)
    ensures |fedoraImages| > 0 ==>
      multiset(ImagesFrom(presets, fedoraImages)) ==
      multiset(ByPrefix(presets, "Fedora", false)) + multiset(fedoraImages)
    ensures |fedoraImages| > 0 ==> forall x | x in presets && StartsWith(x.title, "Fedora") ::
      x in ImagesFrom(presets, fedoraImages) <==> x in fedoraImages
  {
    ByPrefixPartition(presets, "Fedora");
    if |fedoraImages| > 0 {
      var m := multiset(ImagesFrom(presets, fedoraImages));
      forall x | x in presets && StartsWith(x.title, "Fedora")
        ensures x in m <==> x in multiset(fedoraImages)
      {
        assert x !in ByPrefix(presets, "Fedora", false);
      }
    }
  }

  // ---------------------------------------------------------------------
  // filter_images
  // ---------------------------------------------------------------------

  /** The images whose lower-cased label contains the lower-cased query. */
  function Matching(images: seq<CloudImage>, lowerQuery: string): (r: seq<CloudImage>)
    ensures |r| <= |images|
  {
    if |images| == 0 then []
    else
      (if Contains(AsciiLower(images[0].title), lowerQuery) then [images[0]] else []) +
      Matching(images[1..], lowerQuery)
  }

  /** The images kept are those whose lower-cased label contains the
      query. */
  lemma {:induction false} MatchingMembers(images: seq<CloudImage>, lowerQuery: string)
    ensures forall x :: x in Matching(images, lowerQuery) <==>
      x in images && Contains(AsciiLower(x.title), lowerQuery)
    decreases |images|
  {
    if |images| > 0 {
      MatchingMembers(images[1..], lowerQuery);
      assert images == [images[0]] + images[1..];
    }
  }

  /** Filtering keeps the order: it distributes over concatenation. */
  lemma {:induction false} MatchingAppend(a: seq<CloudImage>, b: seq<CloudImage>, lowerQuery: string)
    ensures Matching(a + b, lowerQuery) == Matching(a, lowerQuery) + Matching(b, lowerQuery)
    decreases |a|
  {
    if |a| > 0 {
      MatchingAppend(a[1..], b, lowerQuery);
      var h := MatchingCons(a, b, lowerQuery);
    } else {
      assert a + b == b;
    }
  }

  /** The first image of a non-empty list is kept or dropped on its own. */
  lemma MatchingCons(a: seq<CloudImage>, b: seq<CloudImage>, lowerQuery: string) returns (h: seq<CloudImage>)
    requires |a| > 0
    ensures Matching(a + b, lowerQuery) == h + Matching(a[1..] + b, lowerQuery)
    ensures Matching(a, lowerQuery) == h + Matching(a[1..], lowerQuery)
  {
    h := if Contains(AsciiLower(a[0].title), lowerQuery) then [a[0]] else [];
    assert (a + b)[0] == a[0] && (a + b)[1..] == a[1..] + b;
  }

  /** `filter_images`: no query or an empty one keeps every image. */
  function FilterImages(images: seq<CloudImage>, query: Option<string>): (r: seq<CloudImage>)
    ensures query.None? || query == Some("") ==> r == images
    ensures query.Some? && query.value != "" ==>
      forall x :: x in r <==> x in images && Contains(AsciiLower(x.title), AsciiLower(query.value))
  {
    match query
    case None => images
    case Some(q) =>
      if q == "" then images
      else
        MatchingMembers(images, AsciiLower(q));
        Matching(images, AsciiLower(q))
  }

  // ---------------------------------------------------------------------
  // update_config_base
  // ---------------------------------------------------------------------

  /** A line without the `\r` of a `\r\n` ending. */
  function StripCr(line: string): string
  {
    if |line| > 0 && line[|line| - 1] == '\r' then line[..|line| - 1] else line
  }

  /** `str::lines`: split at `\n` (dropping the `\r` of `\r\n`), with no
      empty line after a final newline. */
  function Lines(text: string): (r: seq<string>)
    decreases |text|
  {
    if text == "" then []
    else
      match FirstIndexOf(text, '\n')
      case None => [text]
      case Some(i) => [StripCr(text[..i])] + Lines(text[i + 1..])
  }

  /** For text without carriage returns, joining the lines with `\n` and
      putting back a final newline gives the text back. */
  lemma {:induction false} LinesRoundTrip(text: string)
    requires forall k | 0 <= k < |text| :: text[k] != '\r'
    ensures Join(Lines(text), "\n") + (if EndsWith(text, "\n") then "\n" else "") == text
    decreases |text|
  {
    if text != "" {
      match FirstIndexOf(text, '\n')
      case None =>
        assert text[|text| - 1] != '\n';
      case Some(i) =>
        var head, rest := LinesStep(text, i);
        LinesRoundTrip(rest);
        RoundTripCons(head, rest);
    }
  }

  /** The round trip carries over from the text after the first line to
      the whole text. */
  lemma RoundTripCons(head: string, rest: string)
    requires Join(Lines(rest), "\n") + (if EndsWith(rest, "\n") then "\n" else "") == rest
    ensures var text := head + "\n" + rest;
      Join([head] + Lines(rest), "\n") + (if EndsWith(text, "\n") then "\n" else "") == text
  {
    if rest == "" {
      assert Join([head], "\n") == head;
    } else {
      JoinCons(head, Lines(rest), "\n");
      EndsWithSplit(head, rest);
      var joined := Join(Lines(rest), "\n");
      var tail := if EndsWith(rest, "\n") then "\n" else "";
      assert (head + "\n" + joined) + tail == head + "\n" + (joined + tail);
    }
  }

  /** One step of `Lines` on text without carriage returns. */
  lemma LinesStep(text: string, i: nat) returns (head: string, rest: string)
    requires forall k | 0 <= k < |text| :: text[k] != '\r'
    requires FirstIndexOf(text, '\n') == Some(i)
    ensures text == head + "\n" + rest && Lines(text) == [head] + Lines(rest)
    ensures |rest| < |text| && forall k | 0 <= k < |rest| :: rest[k] != '\r'
  {
    head, rest := text[..i], text[i + 1..];
    assert text == text[..i] + [text[i]] + text[i + 1..];
    assert StripCr(head) == head;
  }

  lemma JoinCons(head: string, parts: seq<string>, sep: string)
    requires |parts| > 0
    ensures Join([head] + parts, sep) == head + sep + Join(parts, sep)
  {
    assert ([head] + parts)[1..] == parts;
  }

  lemma EndsWithSplit(head: string, rest: string)
    requires rest != ""
    ensures EndsWith(head + "\n" + rest, "\n") == EndsWith(rest, "\n")
  {
    var text := head + "\n" + rest;
    assert text[|text| - 1] == rest[|rest| - 1];
  }

  /** A line whose trimmed text starts with `base` and whose key, the part
      before its first `=`, trims to exactly `base`. */
  predicate IsBaseKey(line: string)
  {
    var t := Trim(line);
    StartsWith(t, "base") &&
    match FirstIndexOf(t, '=')
    case None => false
    case Some(eq) => Trim(t[..eq]) == "base"
  }

  /** What the scan sees in a line: a section header (a trimmed line
      starting with `[`), and whether it is exactly `[image]`; or any other
      line, and whether it is a base line. */
  datatype LineKind = Header(isImage: bool) | Plain(isBase: bool)

  function KindOf(line: string): (k: LineKind)
    ensures k.Plain? && k.isBase <==> IsBaseKey(line)
  {
    var t := Trim(line);
    if StartsWith(t, "[") then
      HeaderIsNotBase(t);
      Header(t == "[image]")
    else Plain(IsBaseKey(line))
  }

  /** A trimmed line opening a section does not start with `base`. */
  lemma HeaderIsNotBase(t: string)
    requires StartsWith(t, "[")
    ensures !StartsWith(t, "base")
  {
    assert t[0] == '[';
  }

  /** The kind of every line, in order. */
  function Kinds(lines: seq<string>): (r: seq<LineKind>)
    ensures |r| == |lines|
  {
    if |lines| == 0 then [] else [KindOf(lines[0])] + Kinds(lines[1..])
  }

  lemma {:induction false} KindsAt(lines: seq<string>, k: nat)
    requires k < |lines|
    ensures Kinds(lines)[k] == KindOf(lines[k])
    decreases k
  {
    if k > 0 {
      KindsAt(lines[1..], k - 1);
    }
  }

  /** After reading `n` lines: whether the last section header seen was
      `[image]`. */
  function InImageAfter(kinds: seq<LineKind>, n: nat): bool
    requires n <= |kinds|
  {
    if n == 0 then false
    else if kinds[n - 1].Header? then kinds[n - 1].isImage
    else InImageAfter(kinds, n - 1)
  }

  /** Line `k` is a base line inside the `[image]` section. */
  predicate IsImageBase(kinds: seq<LineKind>, k: nat)
    requires k < |kinds|
  {
    InImageAfter(kinds, k) && kinds[k] == Plain(true)
  }

  /** The line `update_config_base` rewrites. */
  function BaseLine(url: string): string
  {
    "base = \"" + url + "\""
  }

  /** The lines after the edit: the base line at `idx` rewritten, and a
      comment line right above it replaced by the label. */
  function EditedLines(lines: seq<string>, idx: nat, url: string, caption: string): (r: seq<string>)
    requires idx < |lines|
    ensures |r| == |lines| && r[idx] == BaseLine(url)
    ensures idx > 0 ==> r[idx - 1] == if StartsWith(Trim(lines[idx - 1]), "#") then "# " + caption else lines[idx - 1]
    ensures forall k | 0 <= k < |lines| && k != idx && k + 1 != idx :: r[k] == lines[k]
  {
    var base := lines[idx := BaseLine(url)];
    if idx > 0 && StartsWith(Trim(base[idx - 1]), "#") then base[idx - 1 := "# " + caption] else base
  }

  /** The text written back: the edited lines joined with `\n`, with a
      final newline when the original had one. */
  function Output(content: string, idx: nat, url: string, caption: string): string
    requires idx < |Lines(content)|
  {
    Join(EditedLines(Lines(content), idx, url, caption), "\n") + if EndsWith(content, "\n") then "\n" else ""
  }

  /** The scan from line `i` on, `inImage` telling whether the lines
      before it left it inside `[image]`. */
  function ScanFrom(kinds: seq<LineKind>, i: nat, inImage: bool): (r: Option<nat>)
    requires i <= |kinds|
    ensures r.Some? ==> i <= r.value < |kinds|
    decreases |kinds| - i
  {
    if i == |kinds| then None
    else if kinds[i].Header? then ScanFrom(kinds, i + 1, kinds[i].isImage)
    else if inImage && kinds[i].isBase then Some(i)
    else ScanFrom(kinds, i + 1, inImage)
  }

  /** The scan from `i` on finds the first base line of `[image]` at or
      after `i`, and only such a line. */
  lemma {:induction false} ScanFromFirst(kinds: seq<LineKind>, i: nat)
    requires i <= |kinds|
    ensures var r := ScanFrom(kinds, i, InImageAfter(kinds, i));
      (r.Some? ==> i <= r.value < |kinds| && IsImageBase(kinds, r.value)) &&
      (forall k | i <= k < |kinds| && (r.None? || k < r.value) :: !IsImageBase(kinds, k))
    decreases |kinds| - i
  {
    if i < |kinds| {
      ScanFromFirst(kinds, i + 1);
    }
  }

  /** The line the scan of `update_config_base` settles on. */
  function ImageBaseLine(lines: seq<string>): (r: Option<nat>)
    ensures r.Some? ==> r.value < |lines|
  {
    ScanFrom(Kinds(lines), 0, false)
  }

  /** The scan settles on the first base line inside the `[image]`
      section, and on none when there is no such line. */
  lemma ImageBaseLineIsFirst(lines: seq<string>)
    ensures var r := ImageBaseLine(lines);
      (r.Some? ==> IsImageBase(Kinds(lines), r.value)) &&
      (forall k | 0 <= k < |lines| && (r.None? || k < r.value) :: !IsImageBase(Kinds(lines), k))
  {
    ScanFromFirst(Kinds(lines), 0);
  }

  /** What the scan reads from one line, as the loop body of
      `update_config_base` computes it. */
  method ClassifyLine(line: string) returns (k: LineKind)
    ensures k == KindOf(line)
  {
    var trimmed := Trim(line);
    if StartsWith(trimmed, "[") {
      return Header(trimmed == "[image]");
    }
    if StartsWith(trimmed, "base") {
      match FirstIndexOf(trimmed, '=') {
        case Some(eq) =>
          return Plain(Trim(trimmed[..eq]) == "base");
        case None =>
      }
    }
    return Plain(false);
  }

  /** One line of the scan: a header sets the section flag, a base line
      inside `[image]` ends the scan, and any other line is passed over. */
  lemma ScanStep(kinds: seq<LineKind>, i: nat, inImage: bool)
    requires i < |kinds|
    ensures var next := if kinds[i].Header? then kinds[i].isImage else inImage;
      ScanFrom(kinds, i, inImage) ==
        if next && kinds[i] == Plain(true) then Some(i) else ScanFrom(kinds, i + 1, next)
  {
  }

  /** The scan of `update_config_base`. */
  method FindImageBase(lines: seq<string>) returns (baseIdx: Option<nat>)
    ensures baseIdx == ImageBaseLine(lines)
  {
    ghost var kinds := Kinds(lines);
    var inImage := false;
    var i := 0;
    while i < |lines|
      invariant 0 <= i <= |lines| && ScanFrom(kinds, i, inImage) == ScanFrom(kinds, 0, false)
    {
      var kind := ClassifyLine(lines[i]);
      KindsAt(lines, i);
      ScanStep(kinds, i, inImage);
      if kind.Header? {
        inImage := kind.isImage;
      }
      if inImage && kind == Plain(true) {
        return Some(i);
      }
      i := i + 1;
    }
    return None;
  }

  /** The in-place edit of `update_config_base`. */
  method EditBaseLine(lines: seq<string>, idx: nat, url: string, caption: string) returns (edited: seq<string>)
    requires idx < |lines|
    ensures edited == EditedLines(lines, idx, url, caption)
  {
    edited := lines[idx := BaseLine(url)];
    if idx > 0 && StartsWith(Trim(edited[idx - 1]), "#") {
      edited := edited[idx - 1 := "# " + caption];
    }
  }

  /** `update_config_base`: `fileExists` says whether rum.toml exists,
      `content` is its text (None when it cannot be read), and `writeOk`
      whether writing it back succeeds; `written` is the text written and
      `baseIdx` the line found by the scan. */
  method UpdateConfigBase(fileExists: bool, content: Option<string>, newUrl: string, caption: string, writeOk: bool)
    returns (r: Result<()>, written: Option<string>, baseIdx: Option<nat>)
    ensures !fileExists ==> r.Ok? && written.None?
    ensures fileExists && content.None? ==> r == Err(ConfigLoad) && written.None?
    ensures fileExists && content.Some? ==>
      var lines := Lines(content.value);
      baseIdx == ImageBaseLine(lines) &&
      (baseIdx.None? ==> r.Ok? && written.None?) &&
      (baseIdx.Some? && writeOk ==>
        r.Ok? && written == Some(Output(content.value, baseIdx.value, newUrl, caption))) &&
      (baseIdx.Some? && !writeOk ==> r == Err(ConfigWrite) && written.None?)
  {
    if !fileExists {
      return Ok(()), None, None;
    }
    if content.None? {
      return Err(ConfigLoad), None, None;
    }
    var text := content.value;
    var lines := Lines(text);
    baseIdx := FindImageBase(lines);
    match baseIdx {
      case None =>
        return Ok(()), None, None;
      case Some(idx) =>
        var edited := EditBaseLine(lines, idx, newUrl, caption);
        var output := Join(edited, "\n");
        if EndsWith(text, "\n") {
          output := output + "\n";
        }
        assert output == Output(text, idx, newUrl, caption);
        if !writeOk {
          return Err(ConfigWrite), None, baseIdx;
        }
        return Ok(()), Some(output), baseIdx;
    }
  }

  /** The last of the joined lines ends the joined text. */
  lemma {:induction false} JoinEndsWithLast(parts: seq<string>, sep: string)
    requires |parts| > 0
    ensures EndsWith(Join(parts, sep), parts[|parts| - 1])
    decreases |parts|
  {
    if |parts| > 1 {
      JoinEndsWithLast(parts[1..], sep);
      var j := Join(parts[1..], sep);
      var whole := parts[0] + sep + j;
      assert whole[|whole| - |j|..] == j;
      var last := parts[|parts| - 1];
      assert whole[|whole| - |last|..] == j[|j| - |last|..];
    }
  }

  /** No line contains a newline. */
  lemma {:induction false} LinesHaveNoNewline(text: string)
    ensures forall l | l in Lines(text) :: forall k | 0 <= k < |l| :: l[k] != '\n'
    decreases |text|
  {
    if text != "" {
      match FirstIndexOf(text, '\n')
      case None =>
      case Some(i) =>
        LinesHaveNoNewline(text[i + 1..]);
        assert forall k | 0 <= k < |StripCr(text[..i])| :: StripCr(text[..i])[k] == text[k];
    }
  }

  /** The last line of a text that does not end in a newline is not empty. */
  lemma {:induction false} LastLineNotEmpty(text: string)
    requires text != "" && !EndsWith(text, "\n")
    ensures |Lines(text)| > 0 && Lines(text)[|Lines(text)| - 1] != ""
    decreases |text|
  {
    match FirstIndexOf(text, '\n')
    case None =>
    case Some(i) =>
      assert text[|text| - 1] != '\n';
      var rest := text[i + 1..];
      assert |rest| > 0 && rest[|rest| - 1] == text[|text| - 1];
      LastLineNotEmpty(rest);
      var ls := Lines(text);
      assert ls == [StripCr(text[..i])] + Lines(rest);
      assert ls[|ls| - 1] == Lines(rest)[|Lines(rest)| - 1];
  }

  /** The rewritten file ends in a newline exactly when the original did. */
  lemma TrailingNewlineKept(content: string, idx: nat, url: string, caption: string)
    requires idx < |Lines(content)|
    ensures EndsWith(Output(content, idx, url, caption), "\n") <==> EndsWith(content, "\n")
  {
    if !EndsWith(content, "\n") {
      var lines := Lines(content);
      var edited := EditedLines(lines, idx, url, caption);
      var last := edited[|edited| - 1];
      LinesHaveNoNewline(content);
      LastLineNotEmpty(content);
      assert last != "" by {
        if |edited| - 1 == idx {
          assert last == BaseLine(url);
        } else if |edited| == idx {
          assert false;
        } else {
          assert |edited| - 1 > idx;
          assert last == lines[|lines| - 1];
        }
      }
      assert last[|last| - 1] != '\n' by {
        if |edited| - 1 != idx {
          assert last in lines;
        }
      }
      JoinEndsWithLast(edited, "\n");
    }
  }
}
