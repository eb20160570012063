// Where a VM's files live (src/paths.rs). A path is the sequence of its
// components below the file-system root; `join` of a fixed file name
// appends one component, and `join` of a name built from user input
// appends every '/'-separated piece of it (see `Components`).

module Paths {
  import opened Wrappers
  import opened Strings

  type Path = seq<string>

  /** `/tmp`, the fallback when the platform has no data directory. */
  const Tmp: Path := ["tmp"]

  /** The work directory's own name: `{id}-{name}`, or `{id}` alone. */
  function DirName(id: string, name: Option<string>): (r: string)
    ensures StartsWith(r, id)
    ensures name.None? <==> |r| == |id|
  {
    match name
    case Some(n) => id + "-" + n
    case None => id
  }

  /** For one config id, different VM names never share a directory. */
  lemma DirNameInjective(id: string, a: Option<string>, b: Option<string>)
    requires DirName(id, a) == DirName(id, b)
    ensures a == b
  {
    if a.Some? && b.Some? {
      assert a.value == DirName(id, a)[|id| + 1..];
    }
  }

  /** `work_dir`: `<data_local_dir or /tmp>/rum/<dir name>`. */
  function WorkDir(dataLocalDir: Option<Path>, id: string, name: Option<string>): (r: Path)
    ensures |r| >= 2 && r[|r| - 2] == "rum" && r[|r| - 1] == DirName(id, name)
    ensures dataLocalDir.Some? ==> r[..|r| - 2] == dataLocalDir.value
    ensures dataLocalDir.None? ==> r[..|r| - 2] == Tmp
  {
    var base := match dataLocalDir case Some(d) => d case None => Tmp;
    base + ["rum", DirName(id, name)]
  }

  function SeedName(hash: string): string { "seed-" + hash + ".iso" }
  function DriveName(drive: string): string { "drive-" + drive + ".qcow2" }

  function OverlayPath(d: Option<Path>, id: string, name: Option<string>): (r: Path)
    ensures |r| == |WorkDir(d, id, name)| + 1 && r[..|r| - 1] == WorkDir(d, id, name) && r[|r| - 1] == "overlay.qcow2"
  {
    WorkDir(d, id, name) + ["overlay.qcow2"]
  }

  function SeedPath(d: Option<Path>, id: string, name: Option<string>, hash: string): (r: Path)
    ensures |r| == |WorkDir(d, id, name)| + 1 && r[..|r| - 1] == WorkDir(d, id, name) && r[|r| - 1] == SeedName(hash)
  {
    WorkDir(d, id, name) + [SeedName(hash)]
  }

  function DomainXmlPath(d: Option<Path>, id: string, name: Option<string>): (r: Path)
    ensures |r| == |WorkDir(d, id, name)| + 1 && r[..|r| - 1] == WorkDir(d, id, name) && r[|r| - 1] == "domain.xml"
  {
    WorkDir(d, id, name) + ["domain.xml"]
  }

  /** The components `PathBuf::join` adds for a relative name: the
      pieces between '/' separators, with empty pieces dropped. */
  function Components(s: string): (r: seq<string>)
    ensures '/' !in s && |s| > 0 ==> r == [s]
    ensures forall i | 0 <= i < |r| :: |r[i]| > 0 && '/' !in r[i]
    decreases |s|
  {
    match FirstIndexOf(s, '/')
    case None => if |s| == 0 then [] else [s]
    case Some(i) => (if i == 0 then [] else [s[..i]]) + Components(s[i + 1..])
  }

  /** Splitting at '/' undoes joining non-empty, '/'-free pieces with '/'. */
  lemma {:induction false} ComponentsJoin(parts: seq<string>)
    requires forall i | 0 <= i < |parts| :: |parts[i]| > 0 && '/' !in parts[i]
    ensures Components(Join(parts, "/")) == parts
  {
    if |parts| > 1 {
      var s := Join(parts, "/");
      var p := parts[0];
      assert s == p + "/" + Join(parts[1..], "/");
      assert FirstIndexOf(s, '/') == Some(|p|) by {
        assert s[|p|] == '/';
        forall k | 0 <= k < |p| ensures s[k] != '/' {
          assert s[k] == p[k];
        }
      }
      assert s[..|p|] == p;
      assert s[|p| + 1..] == Join(parts[1..], "/");
      ComponentsJoin(parts[1..]);
    }
  }

  /** A name that does not end in '/' ends in a non-empty component. */
  lemma {:induction false} ComponentsNonEmpty(s: string)
    requires |s| > 0 && s[|s| - 1] != '/'
    ensures |Components(s)| >= 1
    decreases |s|
  {
    match FirstIndexOf(s, '/')
    case None =>
    case Some(i) =>
      ComponentsNonEmpty(s[i + 1..]);
  }

  /** A name holding '/' that neither starts nor ends with '/' has at
      least two components. */
  lemma ComponentsAtLeastTwo(s: string)
    requires '/' in s && s[0] != '/' && s[|s| - 1] != '/'
    ensures |Components(s)| >= 2
  {
    var i := FirstIndexOf(s, '/').value;
    assert 0 < i < |s| - 1;
    var rest := s[i + 1..];
    assert rest[|rest| - 1] == s[|s| - 1];
    ComponentsNonEmpty(rest);
    assert Components(s) == [s[..i]] + Components(rest);
  }

  /** A drive name holding '/' makes a file name of several components. */
  lemma DriveNameComponents(drive: string)
    ensures '/' in drive ==> |Components(DriveName(drive))| >= 2
  {
    var n := DriveName(drive);
    if '/' in drive {
      assert n[|n| - 1] == '2' && n[0] == 'd';
      var k :| 0 <= k < |drive| && drive[k] == '/';
      assert n[6 + k] == '/';
      ComponentsAtLeastTwo(n);
    }
  }

  /** `drive_path`: the drive image `drive-<name>.qcow2` joined onto the
      work directory. The name is not checked, so a drive name holding
      '/' nests the image in sub-directories. */
  function DrivePath(d: Option<Path>, id: string, name: Option<string>, drive: string): (r: Path)
    ensures var w := WorkDir(d, id, name); |r| > |w| && r[..|w|] == w
    ensures '/' !in drive ==> r == WorkDir(d, id, name) + [DriveName(drive)]
    ensures '/' in drive ==> |r| >= |WorkDir(d, id, name)| + 2
  {
    DriveNameComponents(drive);
    WorkDir(d, id, name) + Components(DriveName(drive))
  }

  function ConfigPathFile(d: Option<Path>, id: string, name: Option<string>): (r: Path)
    ensures |r| == |WorkDir(d, id, name)| + 1 && r[..|r| - 1] == WorkDir(d, id, name) && r[|r| - 1] == "config_path"
  {
    WorkDir(d, id, name) + ["config_path"]
  }

  /** Every per-VM file lies below the work directory; all but a drive
      image whose name holds '/' are direct children of it. */
  lemma ArtifactsInWorkDir(d: Option<Path>, id: string, name: Option<string>, hash: string, drive: string)
    ensures var w := WorkDir(d, id, name);
      OverlayPath(d, id, name)[..|w|] == w && |OverlayPath(d, id, name)| == |w| + 1 &&
      SeedPath(d, id, name, hash)[..|w|] == w && |SeedPath(d, id, name, hash)| == |w| + 1 &&
      DomainXmlPath(d, id, name)[..|w|] == w && |DomainXmlPath(d, id, name)| == |w| + 1 &&
      DrivePath(d, id, name, drive)[..|w|] == w && |DrivePath(d, id, name, drive)| > |w| &&
      ConfigPathFile(d, id, name)[..|w|] == w && |ConfigPathFile(d, id, name)| == |w| + 1
    ensures '/' !in drive ==> |DrivePath(d, id, name, drive)| == |WorkDir(d, id, name)| + 1
  {
  }

  /** A drive named `a/b` is stored as `drive-a/b.qcow2`, one level below
      the work directory, and a drive named `x/../../y` adds `..`
      components that lead out of it: nothing rejects such names. */
  lemma DriveNameNests(d: Option<Path>, id: string, name: Option<string>)
    ensures DrivePath(d, id, name, "a/b") == WorkDir(d, id, name) + ["drive-a", "b.qcow2"]
    ensures DrivePath(d, id, name, "x/../../y") == WorkDir(d, id, name) + ["drive-x", "..", "..", "y.qcow2"]
  {
    NestedName();
    EscapingName();
  }

  lemma NestedName()
    ensures Components(DriveName("a/b")) == ["drive-a", "b.qcow2"]
  {
    var parts := ["drive-a", "b.qcow2"];
    assert Join(parts, "/") == "drive-a" + "/" + "b.qcow2";
    assert DriveName("a/b") == "drive-a" + "/" + "b.qcow2";
    ComponentsJoin(parts);
  }

  lemma EscapingName()
    ensures Components(DriveName("x/../../y")) == ["drive-x", "..", "..", "y.qcow2"]
  {
    var parts := ["drive-x", "..", "..", "y.qcow2"];
    assert Join(parts[2..], "/") == ".." + "/" + "y.qcow2";
    assert Join(parts[1..], "/") == ".." + "/" + ".." + "/" + "y.qcow2";
    assert Join(parts, "/") == "drive-x" + "/" + ".." + "/" + ".." + "/" + "y.qcow2";
    assert DriveName("x/../../y") == "drive-x" + "/" + ".." + "/" + ".." + "/" + "y.qcow2";
    ComponentsJoin(parts);
  }

  /** The stale-seed filter of `up`: names starting `seed-` and ending `.iso`. */
  predicate IsSeedFile(file: string)
  {
    StartsWith(file, "seed-") && EndsWith(file, ".iso")
  }

  /** The current seed matches the filter, and none of the other files
      of the work directory does, so clearing stale seeds removes only
      seed images. */
  lemma SeedFilterSelectsSeeds(hash: string, drive: string)
    ensures IsSeedFile(SeedName(hash))
    ensures !IsSeedFile("overlay.qcow2") && !IsSeedFile("domain.xml") && !IsSeedFile("config_path")
    ensures !IsSeedFile(DriveName(drive))
  {
    var s := SeedName(hash);
    assert s[..5] == "seed-";
    assert s[|s| - 4..] == ".iso";
    assert DriveName(drive)[0] == 'd';
  }

  /** The five file names are pairwise different whatever the hash and
      the drive name, so no two per-VM files collide. */
  lemma ArtifactNamesDistinct(hash: string, drive: string)
    ensures var names := ["overlay.qcow2", SeedName(hash), "domain.xml", DriveName(drive), "config_path"];
      forall i, j | 0 <= i < j < 5 :: names[i] != names[j]
  {
    var names := ["overlay.qcow2", SeedName(hash), "domain.xml", DriveName(drive), "config_path"];
    assert names[1][0] == 's' && names[3][0] == 'd';
    assert names[3][1] == 'r';
  }
}
