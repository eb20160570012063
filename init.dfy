// `rum init` (src/init.rs): the wizard's step machine, the configuration
// the non-interactive mode writes, and the rum.toml text generated from a
// wizard configuration.

module Init {
  import opened Wrappers
  import opened Strings
  import Registry

  // ---------------------------------------------------------------------
  // Wizard configuration
  // ---------------------------------------------------------------------

  datatype WizardInterface = WizardInterface(network: string, ip: string)

  datatype WizardMount = WizardMount(source: string, target: string, readonly: bool, tag: string)

  datatype WizardDrive = WizardDrive(name: string, size: string)

  datatype WizardFs = WizardFs(fsType: string, drives: seq<string>, mountTarget: string, pool: string)

  datatype WizardConfig = WizardConfig(
    imageUrl: string,
    imageComment: Option<string>,
    cpus: nat,
    memoryMb: nat,
    disk: string,
    hostname: string,
    useNat: bool,
    interfaces: seq<WizardInterface>,
    mounts: seq<WizardMount>,
    drives: seq<WizardDrive>,
    filesystems: seq<WizardFs>)

  /** `default_config`: the first preset, 2 CPUs, 2048 MB, a 20G disk, NAT
      and nothing else. */
  function DefaultConfig(): (r: WizardConfig)
    ensures r.imageUrl == Registry.Presets[0].url && r.imageComment == Some(Registry.Presets[0].title) && r.hostname == ""
    ensures r.cpus == 2 && r.memoryMb == 2048 && r.disk == "20G" && r.useNat
    ensures r.interfaces == [] && r.mounts == [] && r.drives == [] && r.filesystems == []
  {
    WizardConfig(Registry.Presets[0].url, Some(Registry.Presets[0].title), 2, 2048, "20G", "", true,
      [], [], [], [])
  }

  // ---------------------------------------------------------------------
  // Wizard steps
  // ---------------------------------------------------------------------

  datatype WizardStep = OsImage | Resources | Hostname | Network | Mounts | Storage | Done

  function Next(s: WizardStep): (r: WizardStep)
    ensures s != Done ==> Rank(r) == Rank(s) + 1
    ensures s == Done ==> r == Done
  {
    match s
    case OsImage => Resources
    case Resources => Hostname
    case Hostname => Network
    case Network => Mounts
    case Mounts => Storage
    case Storage | Done => Done
  }

  function Prev(s: WizardStep): (r: WizardStep)
    ensures s != OsImage ==> Rank(r) + 1 == Rank(s)
    ensures s == OsImage ==> r == OsImage
  {
    match s
    case OsImage => OsImage
    case Resources => OsImage
    case Hostname => Resources
    case Network => Hostname
    case Mounts => Network
    case Storage => Mounts
    case Done => Storage
  }

  /** The position of a step in the wizard's order. */
  function Rank(s: WizardStep): (r: nat)
    ensures r <= 6 && (r == 0 <==> s == OsImage) && (r == 6 <==> s == Done)
  {
    match s
    case OsImage => 0
    case Resources => 1
    case Hostname => 2
    case Network => 3
    case Mounts => 4
    case Storage => 5
    case Done => 6
  }

  /** `next` moves one step forward and stops at Done; `prev` moves one
      step back and stops at the first step; each undoes the other away
      from the ends. */
  lemma StepsAreInverse(s: WizardStep)
    ensures s != Done ==> Rank(Next(s)) == Rank(s) + 1 && Prev(Next(s)) == s
    ensures s != OsImage ==> Rank(Prev(s)) + 1 == Rank(s) && Next(Prev(s)) == s
    ensures Next(Done) == Done && Prev(OsImage) == OsImage
  {
  }

  /** The step reached by pressing next `k` times. */
  function Walk(s: WizardStep, k: nat): WizardStep
    decreases k
  {
    if k == 0 then s else Walk(Next(s), k - 1)
  }

  /** After `k` steps forward the wizard is `k` steps further on, never
      past Done. */
  lemma {:induction false} WalkRank(s: WizardStep, k: nat)
    ensures Rank(Walk(s, k)) == if Rank(s) + k < 6 then Rank(s) + k else 6
    decreases k
  {
    if k > 0 {
      StepsAreInverse(s);
      WalkRank(Next(s), k - 1);
    }
  }

  /** From the first step the wizard reaches Done after exactly six
      steps. */
  lemma WalkFromStart(k: nat)
    ensures Walk(OsImage, k) == Done <==> k >= 6
  {
    WalkRank(OsImage, k);
  }

  // ---------------------------------------------------------------------
  // rum.toml generation
  // ---------------------------------------------------------------------

  /** A quoted TOML string value. */
  function Quote(s: string): string
  {
    "\"" + s + "\""
  }

  /** The text of a list of lines, each one followed by a newline. */
  function Unlines(lines: seq<string>): string
  {
    if |lines| == 0 then "" else lines[0] + "\n" + Unlines(lines[1..])
  }

  lemma {:induction false} UnlinesAppend(a: seq<string>, b: seq<string>)
    ensures Unlines(a + b) == Unlines(a) + Unlines(b)
  {
    if |a| > 0 {
      assert (a + b)[1..] == a[1..] + b;
      UnlinesAppend(a[1..], b);
    } else {
      assert a + b == b;
    }
  }

  lemma AppendAssoc(a: seq<string>, b: seq<string>, c: seq<string>)
    ensures a + (b + c) == (a + b) + c
  {
  }

  /** The lines of each item, one item after the other. */
  function Flatten<T>(block: T -> seq<string>, items: seq<T>): seq<string>
  {
    if |items| == 0 then [] else block(items[0]) + Flatten(block, items[1..])
  }

  lemma {:induction false} FlattenSnoc<T>(block: T -> seq<string>, items: seq<T>, x: T)
    ensures Flatten(block, items + [x]) == Flatten(block, items) + block(x)
  {
    if |items| > 0 {
      assert (items + [x])[1..] == items[1..] + [x];
      FlattenSnoc(block, items[1..], x);
    } else {
      assert items + [x] == [x];
    }
  }

  /** Every line of the flattened items is a line of one item. */
  lemma {:induction false} FlattenMember<T>(block: T -> seq<string>, items: seq<T>, line: string)
    requires line in Flatten(block, items)
    ensures exists k | 0 <= k < |items| :: line in block(items[k])
  {
    if line !in block(items[0]) {
      FlattenMember(block, items[1..], line);
      var k :| 0 <= k < |items[1..]| && line in block(items[1..][k]);
      assert items[1..][k] == items[k + 1];
    }
  }

  function ImageBlock(c: WizardConfig): seq<string>
  {
    (if c.imageComment.Some? then ["# " + c.imageComment.value] else []) +
    ["[image]", "base = " + Quote(c.imageUrl), ""]
  }

  function ResourcesBlock(c: WizardConfig): seq<string>
  {
    ["[resources]", "cpus = " + NatToString(c.cpus), "memory_mb = " + NatToString(c.memoryMb),
     "disk = " + Quote(c.disk), ""]
  }

  /** A `[network]` section is written when NAT is off, a hostname is set
      or there are extra interfaces. */
  predicate HasNetwork(c: WizardConfig)
  {
    !c.useNat || c.hostname != "" || |c.interfaces| > 0
  }

  function NetworkHead(c: WizardConfig): seq<string>
  {
    ["[network]"] +
    (if !c.useNat then ["nat = false"] else []) +
    (if c.hostname != "" then ["hostname = " + Quote(c.hostname)] else []) +
    [""]
  }

  function InterfaceBlock(i: WizardInterface): seq<string>
  {
    ["[[network.interfaces]]", "network = " + Quote(i.network)] +
    (if i.ip != "" then ["ip = " + Quote(i.ip)] else []) +
    [""]
  }

  function MountBlock(m: WizardMount): seq<string>
  {
    ["[[mounts]]", "source = " + Quote(m.source), "target = " + Quote(m.target)] +
    (if m.readonly then ["readonly = true"] else []) +
    (if m.tag != "" then ["tag = " + Quote(m.tag)] else []) +
    [""]
  }

  function DriveBlock(d: WizardDrive): seq<string>
  {
    ["[drives." + d.name + "]", "size = " + Quote(d.size), ""]
  }

  /** The drive names of a filesystem, each quoted. */
  function QuotedAll(names: seq<string>): (r: seq<string>)
    ensures |r| == |names| && forall k | 0 <= k < |names| :: r[k] == Quote(names[k])
  {
    if |names| == 0 then [] else [Quote(names[0])] + QuotedAll(names[1..])
  }

  /** The drive line of a filesystem: `drive` for exactly one drive,
      otherwise `drives` with the quoted names joined by ", ". */
  function DriveLine(names: seq<string>): string
  {
    if |names| == 1 then "drive = " + Quote(names[0])
    else "drives = [" + Join(QuotedAll(names), ", ") + "]"
  }

  function FsBlock(f: WizardFs): seq<string>
  {
    ["[[fs." + f.fsType + "]]", DriveLine(f.drives), "target = " + Quote(f.mountTarget)] +
    (if f.pool != "" then ["pool = " + Quote(f.pool)] else []) +
    [""]
  }

  const MountsHint: seq<string> := ["# [[mounts]]", "# source = \".\"", "# target = \"/mnt/project\"", ""]

  /** The commented provisioning and advanced sections closing every file. */
  const Trailer: seq<string> := [
    "# [provision.system]",
    "# script = \"apt-get update && apt-get install -y <packages>\"",
    "#",
    "# [provision.boot]",
    "# script = \"echo booted\"",
    "#",
    "# [advanced]",
    "# autologin = false"
  ]

  function NetworkBlock(c: WizardConfig): seq<string>
  {
    if HasNetwork(c) then NetworkHead(c) + Flatten(InterfaceBlock, c.interfaces) else []
  }

  function HintBlock(c: WizardConfig): seq<string>
  {
    if |c.mounts| == 0 then MountsHint else []
  }

  /** The lines of the generated rum.toml, section by section. */
  function TomlLines(c: WizardConfig): (r: seq<string>)
    ensures |ImageBlock(c)| + |Trailer| <= |r|
    ensures r[..|ImageBlock(c)|] == ImageBlock(c) && r[|r| - |Trailer|..] == Trailer
  {
    ImageBlock(c) + ResourcesBlock(c) + NetworkBlock(c) + Flatten(MountBlock, c.mounts) +
    Flatten(DriveBlock, c.drives) + Flatten(FsBlock, c.filesystems) + HintBlock(c) + Trailer
  }

  // `generate_toml` writes the file section by section; each method below
  // appends one section's lines to those written so far.

  method AppendImage(c: WizardConfig, lines0: seq<string>) returns (lines: seq<string>)
    ensures lines == lines0 + ImageBlock(c)
  {
    lines := lines0;
    if c.imageComment.Some? {
      lines := lines + ["# " + c.imageComment.value];
    }
    lines := lines + ["[image]"];
    lines := lines + ["base = " + Quote(c.imageUrl)];
    lines := lines + [""];
  }

  method AppendResources(c: WizardConfig, lines0: seq<string>) returns (lines: seq<string>)
    ensures lines == lines0 + ResourcesBlock(c)
  {
    lines := lines0;
    lines := lines + ["[resources]"];
    lines := lines + ["cpus = " + NatToString(c.cpus)];
    lines := lines + ["memory_mb = " + NatToString(c.memoryMb)];
    lines := lines + ["disk = " + Quote(c.disk)];
    lines := lines + [""];
  }

  method AppendInterface(iface: WizardInterface, lines0: seq<string>) returns (lines: seq<string>)
    ensures lines == lines0 + InterfaceBlock(iface)
  {
    lines := lines0;
    lines := lines + ["[[network.interfaces]]"];
    lines := lines + ["network = " + Quote(iface.network)];
    if iface.ip != "" {
      lines := lines + ["ip = " + Quote(iface.ip)];
    }
    lines := lines + [""];
  }

  method AppendMount(m: WizardMount, lines0: seq<string>) returns (lines: seq<string>)
    ensures lines == lines0 + MountBlock(m)
  {
    lines := lines0;
    lines := lines + ["[[mounts]]"];
    lines := lines + ["source = " + Quote(m.source)];
    lines := lines + ["target = " + Quote(m.target)];
    if m.readonly {
      lines := lines + ["readonly = true"];
    }
    if m.tag != "" {
      lines := lines + ["tag = " + Quote(m.tag)];
    }
    lines := lines + [""];
  }

  method AppendDrive(d: WizardDrive, lines0: seq<string>) returns (lines: seq<string>)
    ensures lines == lines0 + DriveBlock(d)
  {
    lines := lines0;
    lines := lines + ["[drives." + d.name + "]"];
    lines := lines + ["size = " + Quote(d.size)];
    lines := lines + [""];
  }

  method AppendFs(f: WizardFs, lines0: seq<string>) returns (lines: seq<string>)
    ensures lines == lines0 + FsBlock(f)
  {
    lines := lines0;
    lines := lines + ["[[fs." + f.fsType + "]]"];
    if |f.drives| == 1 {
      lines := lines + ["drive = " + Quote(f.drives[0])];
    } else {
      lines := lines + ["drives = [" + Join(QuotedAll(f.drives), ", ") + "]"];
    }
    lines := lines + ["target = " + Quote(f.mountTarget)];
    if f.pool != "" {
      lines := lines + ["pool = " + Quote(f.pool)];
    }
    lines := lines + [""];
  }

  method AppendNetworkHead(c: WizardConfig, lines0: seq<string>) returns (lines: seq<string>)
    ensures lines == lines0 + NetworkHead(c)
  {
    lines := lines0;
    lines := lines + ["[network]"];
    if !c.useNat {
      lines := lines + ["nat = false"];
    }
    if c.hostname != "" {
      lines := lines + ["hostname = " + Quote(c.hostname)];
    }
    lines := lines + [""];
  }

  method AppendNetwork(c: WizardConfig, lines0: seq<string>) returns (lines: seq<string>)
    ensures lines == lines0 + NetworkBlock(c)
  {
    lines := lines0;
    if !c.useNat || c.hostname != "" || |c.interfaces| > 0 {
      lines := AppendNetworkHead(c, lines);
      ghost var head := lines;
      var i := 0;
      while i < |c.interfaces|
        invariant 0 <= i <= |c.interfaces|
        invariant lines == head + Flatten(InterfaceBlock, c.interfaces[..i])
      {
        var iface := c.interfaces[i];
        lines := AppendInterface(iface, lines);
        FlattenSnoc(InterfaceBlock, c.interfaces[..i], iface);
        AppendAssoc(head, Flatten(InterfaceBlock, c.interfaces[..i]), InterfaceBlock(iface));
        assert c.interfaces[..i + 1] == c.interfaces[..i] + [iface];
        i := i + 1;
      }
      assert c.interfaces[..i] == c.interfaces;
      AppendAssoc(lines0, NetworkHead(c), Flatten(InterfaceBlock, c.interfaces));
    }
  }

  method AppendMounts(c: WizardConfig, lines0: seq<string>) returns (lines: seq<string>)
    ensures lines == lines0 + Flatten(MountBlock, c.mounts)
  {
    lines := lines0;
    var i := 0;
    while i < |c.mounts|
      invariant 0 <= i <= |c.mounts|
      invariant lines == lines0 + Flatten(MountBlock, c.mounts[..i])
    {
      var m := c.mounts[i];
      lines := AppendMount(m, lines);
      FlattenSnoc(MountBlock, c.mounts[..i], m);
      AppendAssoc(lines0, Flatten(MountBlock, c.mounts[..i]), MountBlock(m));
      assert c.mounts[..i + 1] == c.mounts[..i] + [m];
      i := i + 1;
    }
    assert c.mounts[..i] == c.mounts;
  }

  method AppendDrives(c: WizardConfig, lines0: seq<string>) returns (lines: seq<string>)
    ensures lines == lines0 + Flatten(DriveBlock, c.drives)
  {
    lines := lines0;
    var i := 0;
    while i < |c.drives|
      invariant 0 <= i <= |c.drives|
      invariant lines == lines0 + Flatten(DriveBlock, c.drives[..i])
    {
      var d := c.drives[i];
      lines := AppendDrive(d, lines);
      FlattenSnoc(DriveBlock, c.drives[..i], d);
      AppendAssoc(lines0, Flatten(DriveBlock, c.drives[..i]), DriveBlock(d));
      assert c.drives[..i + 1] == c.drives[..i] + [d];
      i := i + 1;
    }
    assert c.drives[..i] == c.drives;
  }

  method AppendFilesystems(c: WizardConfig, lines0: seq<string>) returns (lines: seq<string>)
    ensures lines == lines0 + Flatten(FsBlock, c.filesystems)
  {
    lines := lines0;
    var i := 0;
    while i < |c.filesystems|
      invariant 0 <= i <= |c.filesystems|
      invariant lines == lines0 + Flatten(FsBlock, c.filesystems[..i])
    {
      var f := c.filesystems[i];
      lines := AppendFs(f, lines);
      FlattenSnoc(FsBlock, c.filesystems[..i], f);
      AppendAssoc(lines0, Flatten(FsBlock, c.filesystems[..i]), FsBlock(f));
      assert c.filesystems[..i + 1] == c.filesystems[..i] + [f];
      i := i + 1;
    }
    assert c.filesystems[..i] == c.filesystems;
  }

  /** `generate_toml`: the lines of every section in order, each ended
      with a newline. */
  method GenerateToml(c: WizardConfig) returns (out: string)
    ensures out == Unlines(TomlLines(c))
  {
    var lines := AppendImage(c, []);
    assert lines == ImageBlock(c);
    lines := AppendResources(c, lines);
    lines := AppendNetwork(c, lines);
    lines := AppendMounts(c, lines);
    lines := AppendDrives(c, lines);
    lines := AppendFilesystems(c, lines);
    if |c.mounts| == 0 {
      lines := lines + MountsHint;
    } else {
      assert lines + HintBlock(c) == lines;
    }
    lines := lines + Trailer;
    out := Unlines(lines);
  }

  // ---------------------------------------------------------------------
  // What the generated file holds
  // ---------------------------------------------------------------------

  /** A line that cannot be the `[network]` header: too short, or not
      starting with `[n`. */
  predicate NotNetworkHeader(line: string)
  {
    |line| < 2 || line[0] != '[' || line[1] != 'n'
  }

  predicate NotComment(line: string)
  {
    |line| == 0 || line[0] != '#'
  }

  /** No line of an interface, mount, drive or filesystem block is the
      `[network]` header. */
  lemma ItemLinesNoHeader()
    ensures forall i: WizardInterface, l | l in InterfaceBlock(i) :: NotNetworkHeader(l)
    ensures forall m: WizardMount, l | l in MountBlock(m) :: NotNetworkHeader(l)
    ensures forall d: WizardDrive, l | l in DriveBlock(d) :: NotNetworkHeader(l)
    ensures forall f: WizardFs, l | l in FsBlock(f) :: NotNetworkHeader(l)
  {
  }

  /** No line of an interface, mount, drive or filesystem block is a
      comment. */
  lemma ItemLinesNoComment()
    ensures forall i: WizardInterface, l | l in InterfaceBlock(i) :: NotComment(l)
    ensures forall m: WizardMount, l | l in MountBlock(m) :: NotComment(l)
    ensures forall d: WizardDrive, l | l in DriveBlock(d) :: NotComment(l)
    ensures forall f: WizardFs, l | l in FsBlock(f) :: NotComment(l)
  {
  }

  /** A property of every line of every item's block holds for every
      flattened line. */
  lemma FlattenAll<T>(block: T -> seq<string>, items: seq<T>, p: string -> bool)
    requires forall x, l | l in block(x) :: p(l)
    ensures forall l | l in Flatten(block, items) :: p(l)
  {
    forall l | l in Flatten(block, items) ensures p(l) {
      FlattenMember(block, items, l);
    }
  }

  /** The image and resources sections hold no `[network]` header, and
      the resources section no comment. */
  lemma HeadLinesPlain(c: WizardConfig)
    ensures forall l | l in ImageBlock(c) + ResourcesBlock(c) :: NotNetworkHeader(l)
    ensures forall l | l in ResourcesBlock(c) :: NotComment(l)
  {
  }

  /** Neither the mounts hint nor the closing comments hold a
      `[network]` header. */
  lemma CommentLinesNoHeader()
    ensures "[network]" !in MountsHint && "[network]" !in Trailer
  {
  }

  /** Blocks without a `[network]` header give none once flattened. */
  lemma FlattenNoHeader<T>(block: T -> seq<string>, items: seq<T>)
    requires forall x, l | l in block(x) :: NotNetworkHeader(l)
    ensures "[network]" !in Flatten(block, items)
  {
    assert !NotNetworkHeader("[network]");
    if "[network]" in Flatten(block, items) {
      FlattenMember(block, items, "[network]");
    }
  }

  /** The item sections hold no `[network]` header. */
  lemma NoHeaderInItems(c: WizardConfig)
    ensures "[network]" !in Flatten(MountBlock, c.mounts) + Flatten(DriveBlock, c.drives) +
      Flatten(FsBlock, c.filesystems)
  {
    ItemLinesNoHeader();
    FlattenNoHeader(MountBlock, c.mounts);
    FlattenNoHeader(DriveBlock, c.drives);
    FlattenNoHeader(FsBlock, c.filesystems);
  }

  /** The file has a `[network]` section exactly when NAT is off, a
      hostname is set or there are extra interfaces. */
  lemma NetworkSectionIff(c: WizardConfig)
    ensures "[network]" in TomlLines(c) <==> HasNetwork(c)
  {
    var front := ImageBlock(c) + ResourcesBlock(c);
    var rest := Flatten(MountBlock, c.mounts) + Flatten(DriveBlock, c.drives) +
      Flatten(FsBlock, c.filesystems) + HintBlock(c) + Trailer;
    Regroup(ImageBlock(c), ResourcesBlock(c), NetworkBlock(c), Flatten(MountBlock, c.mounts),
      Flatten(DriveBlock, c.drives), Flatten(FsBlock, c.filesystems), HintBlock(c), Trailer);
    NoHeaderOutsideNetwork(c);
    InMiddle("[network]", front, NetworkBlock(c), rest);
    NetworkBlockHeader(c);
  }

  lemma Regroup<T>(a: seq<T>, b: seq<T>, c: seq<T>, d: seq<T>, e: seq<T>, f: seq<T>, g: seq<T>, h: seq<T>)
    ensures a + b + c + d + e + f + g + h == (a + b) + c + (d + e + f + g + h)
  {
  }

  lemma InMiddle<T>(x: T, a: seq<T>, b: seq<T>, c: seq<T>)
    requires x !in a && x !in c
    ensures x in a + b + c <==> x in b
  {
  }

  lemma NetworkBlockHeader(c: WizardConfig)
    ensures "[network]" in NetworkBlock(c) <==> HasNetwork(c)
  {
    if HasNetwork(c) {
      assert NetworkBlock(c)[0] == "[network]";
    }
  }

  /** The sections around the network section hold no `[network]`
      header. */
  lemma NoHeaderOutsideNetwork(c: WizardConfig)
    ensures "[network]" !in ImageBlock(c) + ResourcesBlock(c)
    ensures "[network]" !in Flatten(MountBlock, c.mounts) + Flatten(DriveBlock, c.drives) +
      Flatten(FsBlock, c.filesystems) + HintBlock(c) + Trailer
  {
    HeadLinesPlain(c);
    assert !NotNetworkHeader("[network]");
    NoHeaderInItems(c);
    CommentLinesNoHeader();
  }

  /** Two strings that differ at position `k` neither start one with the
      other nor are equal. */
  lemma DiffersAt(line: string, q: string, k: nat)
    requires k < |line| && k < |q| && line[k] != q[k]
    ensures !StartsWith(line, q) && line != q
  {
  }

  /** An `ip` line only for an address that was given. */
  lemma InterfaceIpIff(i: WizardInterface)
    ensures (exists l | l in InterfaceBlock(i) :: StartsWith(l, "ip = ")) <==> i.ip != ""
  {
    var q := "ip = ";
    var b := InterfaceBlock(i);
    DiffersAt("[[network.interfaces]]", q, 0);
    DiffersAt("network = " + Quote(i.network), q, 0);
    if i.ip != "" {
      assert StartsWith(b[2], q);
    } else {
      assert b == ["[[network.interfaces]]", "network = " + Quote(i.network), ""];
    }
  }

  /** `readonly = true` only for a read-only mount, and a `tag` line only
      for a tag that was given. */
  lemma MountLinesIff(m: WizardMount)
    ensures "readonly = true" in MountBlock(m) <==> m.readonly
    ensures (exists l | l in MountBlock(m) :: StartsWith(l, "tag = ")) <==> m.tag != ""
  {
    var b := MountBlock(m);
    var source := "source = " + Quote(m.source);
    var target := "target = " + Quote(m.target);
    var tag := "tag = " + Quote(m.tag);
    var r := "readonly = true";
    var t := "tag = ";
    DiffersAt("[[mounts]]", r, 0);
    DiffersAt(source, r, 0);
    DiffersAt(target, r, 0);
    DiffersAt(tag, r, 0);
    DiffersAt("[[mounts]]", t, 0);
    DiffersAt(source, t, 0);
    DiffersAt(target, t, 2);
    DiffersAt(r, t, 0);
    if m.tag != "" {
      assert StartsWith(b[|b| - 2], t);
    }
  }

  /** A filesystem with one drive names it in `drive`; any other number of
      drives gives a `drives` list of the quoted names joined by ", ";
      a `pool` line only for a pool that was given. */
  lemma FsLinesIff(f: WizardFs)
    ensures (exists l | l in FsBlock(f) :: StartsWith(l, "drive = ")) <==> |f.drives| == 1
    ensures (exists l | l in FsBlock(f) :: StartsWith(l, "drives = [")) <==> |f.drives| != 1
    ensures |f.drives| == 1 ==> "drive = " + Quote(f.drives[0]) in FsBlock(f)
    ensures |f.drives| != 1 ==> "drives = [" + Join(QuotedAll(f.drives), ", ") + "]" in FsBlock(f)
    ensures (exists l | l in FsBlock(f) :: StartsWith(l, "pool = ")) <==> f.pool != ""
  {
    var b := FsBlock(f);
    var header := "[[fs." + f.fsType + "]]";
    var line := DriveLine(f.drives);
    var target := "target = " + Quote(f.mountTarget);
    var pool := "pool = " + Quote(f.pool);
    var one := "drive = ";
    var many := "drives = [";
    var p := "pool = ";
    assert b[1] == line;
    DiffersAt(header, one, 0);
    DiffersAt(target, one, 0);
    DiffersAt(pool, one, 0);
    DiffersAt(header, many, 0);
    DiffersAt(target, many, 0);
    DiffersAt(pool, many, 0);
    DiffersAt(header, p, 0);
    DiffersAt(target, p, 0);
    DiffersAt(line, p, 0);
    if |f.drives| == 1 {
      DiffersAt(line, many, 5);
      assert StartsWith(line, one);
    } else {
      DiffersAt(line, one, 5);
      assert StartsWith(line, many);
    }
    if f.pool != "" {
      assert StartsWith(b[3], p);
    }
  }

  /** The commented mounts hint is written exactly when there are no
      mounts (provided the image comment is not the hint's own text). */
  lemma MountsHintIff(c: WizardConfig)
    requires c.imageComment != Some("[[mounts]]")
    ensures "# [[mounts]]" in TomlLines(c) <==> |c.mounts| == 0
  {
    var hint := "# [[mounts]]";
    var front := ImageBlock(c) + ResourcesBlock(c) + NetworkBlock(c) + Flatten(MountBlock, c.mounts) +
      Flatten(DriveBlock, c.drives) + Flatten(FsBlock, c.filesystems);
    assert TomlLines(c) == front + HintBlock(c) + Trailer;
    assert hint !in Trailer;
    if |c.mounts| == 0 {
      assert hint == HintBlock(c)[0];
    } else {
      HeadLinesPlain(c);
      assert !NotComment(hint);
      assert hint !in ImageBlock(c) + ResourcesBlock(c) by {
        if c.imageComment.Some? {
          assert ("# " + c.imageComment.value)[2..] == c.imageComment.value;
        }
      }
      HintNotInBlocks(c);
    }
  }

  /** No line of the network, mount, drive or filesystem blocks is a
      comment. */
  lemma HintNotInBlocks(c: WizardConfig)
    ensures "# [[mounts]]" !in NetworkBlock(c)
    ensures "# [[mounts]]" !in Flatten(MountBlock, c.mounts)
    ensures "# [[mounts]]" !in Flatten(DriveBlock, c.drives)
    ensures "# [[mounts]]" !in Flatten(FsBlock, c.filesystems)
  {
    ItemLinesNoComment();
    FlattenAll(InterfaceBlock, c.interfaces, NotComment);
    FlattenAll(MountBlock, c.mounts, NotComment);
    FlattenAll(DriveBlock, c.drives, NotComment);
    FlattenAll(FsBlock, c.filesystems, NotComment);
    assert !NotComment("# [[mounts]]");
    assert forall l | l in NetworkHead(c) :: NotComment(l);
  }

  /** Every generated file ends with the commented provisioning and
      advanced sections. */
  lemma EndsWithTrailer(c: WizardConfig)
    ensures EndsWith(Unlines(TomlLines(c)), Unlines(Trailer))
  {
    var front := ImageBlock(c) + ResourcesBlock(c) + NetworkBlock(c) + Flatten(MountBlock, c.mounts) +
      Flatten(DriveBlock, c.drives) + Flatten(FsBlock, c.filesystems) + HintBlock(c);
    assert TomlLines(c) == front + Trailer;
    UnlinesAppend(front, Trailer);
    var whole := Unlines(front) + Unlines(Trailer);
    assert whole[|whole| - |Unlines(Trailer)|..] == Unlines(Trailer);
  }

  /** The non-interactive file: the image and resources sections, no
      network section, no mounts, drives or filesystems, the mounts hint
      and the closing comments. */
  lemma DefaultToml()
    ensures TomlLines(DefaultConfig()) == ImageBlock(DefaultConfig()) + ResourcesBlock(DefaultConfig()) + MountsHint + Trailer
    ensures "[network]" !in TomlLines(DefaultConfig())
  {
    var c := DefaultConfig();
    assert !HasNetwork(c);
    NetworkSectionIff(c);
  }
}
