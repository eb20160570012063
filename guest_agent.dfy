// The guest agent's side of provisioning: saving the scripts it receives,
// running them in `order` order until one fails, writing the sentinel, and on
// later boots re-running the cached boot scripts. Process execution is an
// oracle that supplies each script's output lines and exit status.

module GuestAgent {
  import opened Wrappers
  import opened AgentProtocol
  import opened Strings
  import opened Bytes
  import Sorting

  const RpcPort: nat := 2222
  const ForwardPort: nat := 2223
  const ScriptsDir := "/var/lib/rum/scripts"
  const SentinelPath := "/var/lib/rum/.system-provisioned"

  function RunOnSuffix(r: RunOn): string
  {
    match r
    case System => "system"
    case Boot => "boot"
  }

  /** `{order:03}-{name}.{system|boot}.sh`. */
  function ScriptFileName(s: ProvisionScript): string
  {
    ZeroPad(s.order, 3) + "-" + s.name + "." + RunOnSuffix(s.runOn) + ".sh"
  }

  /** The file name starts with the zero-padded order and the script name, and
      its suffix tells boot scripts from system scripts. */
  lemma ScriptFileNameShape(s: ProvisionScript)
    ensures StartsWith(ScriptFileName(s), ZeroPad(s.order, 3) + "-" + s.name + ".")
    ensures EndsWith(ScriptFileName(s), ".boot.sh") <==> s.runOn == Boot
    ensures EndsWith(ScriptFileName(s), ".system.sh") <==> s.runOn == System
  {
    var r := ScriptFileName(s);
    var p := ZeroPad(s.order, 3) + "-" + s.name + ".";
    assert r == p + RunOnSuffix(s.runOn) + ".sh";
    assert r[..|p|] == p;
    if s.runOn == Boot {
      assert r[|r| - 8..] == ".boot.sh";
      if |r| >= 10 { assert r[|r| - 8] == '.'; }
    } else {
      assert r[|r| - 10..] == ".system.sh";
      assert r[|r| - 8] == 'y';
    }
  }

  /** The comparison `sort_by_key(|s| s.order)` uses. */
  function ByOrder(): (ProvisionScript, ProvisionScript) -> bool
  {
    (a: ProvisionScript, b: ProvisionScript) => a.order <= b.order
  }

  lemma ByOrderTotal()
    ensures Sorting.TotalPreorder(ByOrder())
  {
  }

  /** The order in which `provision` runs the scripts it received. */
  function RunOrder(scripts: seq<ProvisionScript>): (r: seq<ProvisionScript>)
    ensures multiset(r) == multiset(scripts) && |r| == |scripts|
  {
    Sorting.Sort(ByOrder(), scripts)
  }

  /** Scripts run in ascending `order`, and scripts with the same `order` keep
      the order they were received in. */
  lemma RunOrderIsStableByOrder(scripts: seq<ProvisionScript>, y: ProvisionScript)
    ensures Sorting.Sorted(ByOrder(), RunOrder(scripts))
    ensures forall i, j | 0 <= i < j < |scripts| :: RunOrder(scripts)[i].order <= RunOrder(scripts)[j].order
    ensures Sorting.Ties(ByOrder(), RunOrder(scripts), y) == Sorting.Ties(ByOrder(), scripts, y)
  {
    ByOrderTotal();
    Sorting.SortSorted(ByOrder(), scripts);
    Sorting.SortStable(ByOrder(), scripts, y);
  }

  function WithRunOn(r: RunOn): ProvisionScript -> ProvisionScript
  {
    (s: ProvisionScript) => s.(runOn := r)
  }

  /** `run_on` only names the file: changing it leaves the execution order as it was. */
  lemma RunOnDoesNotAffectOrder(scripts: seq<ProvisionScript>, r: RunOn)
    ensures RunOrder(Sorting.Apply(WithRunOn(r), scripts)) == Sorting.Apply(WithRunOn(r), RunOrder(scripts))
  {
    Sorting.SortApply(ByOrder(), ByOrder(), WithRunOn(r), scripts);
  }

  /** What the process oracle reports for one script: the lines it printed
      and its exit code, None when it could not be spawned or had no code. */
  datatype ScriptRun = ScriptRun(output: seq<ProvisionEvent>, exitCode: Option<int>)

  /** `unwrap_or(-1)`. */
  function ExitCode(run: ScriptRun): int
  {
    if run.exitCode.None? then -1 else run.exitCode.value
  }

  /** The events streamed back for `runs`: each script's lines, then its `Done`. */
  function Stream(runs: seq<ScriptRun>): seq<ProvisionEvent>
  {
    if |runs| == 0 then []
    else Stream(runs[..|runs| - 1]) + runs[|runs| - 1].output + [Done(ExitCode(runs[|runs| - 1]))]
  }

  /** The exit codes carried by the `Done` events of a stream. */
  function DoneCodes(events: seq<ProvisionEvent>): seq<int>
  {
    if |events| == 0 then []
    else DoneCodes(events[..|events| - 1]) + (if events[|events| - 1].Done? then [events[|events| - 1].exitCode] else [])
  }

  lemma {:induction false} DoneCodesAppend(a: seq<ProvisionEvent>, b: seq<ProvisionEvent>)
    ensures DoneCodes(a + b) == DoneCodes(a) + DoneCodes(b)
    decreases |b|
  {
    if |b| == 0 {
      assert a + b == a;
    } else {
      assert (a + b)[..|a + b| - 1] == a + b[..|b| - 1];
      DoneCodesAppend(a, b[..|b| - 1]);
    }
  }

  predicate OutputOnly(runs: seq<ScriptRun>)
  {
    forall i, j | 0 <= i < |runs| && 0 <= j < |runs[i].output| :: !runs[i].output[j].Done?
  }

  lemma {:induction false} NoDoneCodes(events: seq<ProvisionEvent>)
    requires forall j | 0 <= j < |events| :: !events[j].Done?
    ensures DoneCodes(events) == []
    decreases |events|
  {
    if |events| > 0 {
      NoDoneCodes(events[..|events| - 1]);
    }
  }

  /** One `Done` per script that ran, carrying its exit code, in order. */
  lemma {:induction false} StreamReportsEachExit(runs: seq<ScriptRun>)
    requires OutputOnly(runs)
    ensures |DoneCodes(Stream(runs))| == |runs|
    ensures forall i | 0 <= i < |runs| :: DoneCodes(Stream(runs))[i] == ExitCode(runs[i])
    decreases |runs|
  {
    if |runs| > 0 {
      var init := runs[..|runs| - 1];
      var last := runs[|runs| - 1];
      assert OutputOnly(init);
      StreamReportsEachExit(init);
      DoneCodesAppend(Stream(init) + last.output, [Done(ExitCode(last))]);
      DoneCodesAppend(Stream(init), last.output);
      NoDoneCodes(last.output);
      assert DoneCodes([Done(ExitCode(last))]) == [ExitCode(last)] by {
        assert [Done(ExitCode(last))][..0] == [];
      }
    }
  }

  /** The index of the first script whose exit code is not 0, or |runs|. */
  function FirstNonZero(runs: seq<ScriptRun>): (k: nat)
    ensures k <= |runs|
    ensures forall i | 0 <= i < k :: ExitCode(runs[i]) == 0
    ensures k < |runs| ==> ExitCode(runs[k]) != 0
  {
    if |runs| == 0 then 0
    else if ExitCode(runs[0]) != 0 then 0
    else 1 + FirstNonZero(runs[1..])
  }

  /** The first non-zero exit is the one index with only zero exits before it
      and a non-zero exit at it, or the end. */
  lemma FirstNonZeroUnique(runs: seq<ScriptRun>, k: nat)
    requires k <= |runs| && (forall i | 0 <= i < k :: ExitCode(runs[i]) == 0)
    requires k < |runs| ==> ExitCode(runs[k]) != 0
    ensures k == FirstNonZero(runs)
  {
  }

  /** The index of the first `false`, or |oks|. */
  function FirstFalse(oks: seq<bool>): (k: nat)
    ensures k <= |oks|
    ensures forall i | 0 <= i < k :: oks[i]
    ensures k < |oks| ==> !oks[k]
  {
    if |oks| == 0 then 0
    else if !oks[0] then 0
    else 1 + FirstFalse(oks[1..])
  }

  /** The scripts directory after saving `scripts` into an empty directory. */
  function FilesOf(name: ProvisionScript -> string, scripts: seq<ProvisionScript>): map<string, string>
  {
    if |scripts| == 0 then map[]
    else FilesOf(name, scripts[..|scripts| - 1])[name(scripts[|scripts| - 1]) := scripts[|scripts| - 1].content]
  }

  /** The saved files are named after the scripts. */
  lemma {:induction false} FilesOfKeys(name: ProvisionScript -> string, scripts: seq<ProvisionScript>)
    ensures FilesOf(name, scripts).Keys == set s | s in scripts :: name(s)
    decreases |scripts|
  {
    if |scripts| > 0 {
      var init := scripts[..|scripts| - 1];
      FilesOfKeys(name, init);
      assert forall s :: s in scripts <==> s in init || s == scripts[|scripts| - 1];
    }
  }

  /** A file holds the content of the last script saved under its name. */
  lemma {:induction false} FilesOfContents(name: ProvisionScript -> string, scripts: seq<ProvisionScript>, i: nat)
    requires i < |scripts|
    requires forall j | i < j < |scripts| :: name(scripts[j]) != name(scripts[i])
    ensures name(scripts[i]) in FilesOf(name, scripts)
    ensures FilesOf(name, scripts)[name(scripts[i])] == scripts[i].content
    decreases |scripts|
  {
    var n := |scripts|;
    if i < n - 1 {
      var init := scripts[..n - 1];
      assert init[i] == scripts[i];
      FilesOfContents(name, init, i);
    }
  }

  /** The files of the boot scripts are exactly those the cached-script run selects. */
  lemma BootFilesAreBootScripts(scripts: seq<ProvisionScript>)
    ensures (set f | f in FilesOf(ScriptFileName, scripts) && EndsWith(f, ".boot.sh"))
         == (set s | s in scripts && s.runOn == Boot :: ScriptFileName(s))
  {
    FilesOfKeys(ScriptFileName, scripts);
    forall s | s in scripts { ScriptFileNameShape(s); }
  }

  /** The elements of `names` that end in ".boot.sh", in order. */
  function BootScriptNames(names: seq<string>): seq<string>
  {
    if |names| == 0 then []
    else BootScriptNames(names[..|names| - 1]) + (if EndsWith(names[|names| - 1], ".boot.sh") then [names[|names| - 1]] else [])
  }

  /** Exactly the names ending in ".boot.sh" are selected. */
  lemma {:induction false} BootScriptNamesSelect(names: seq<string>)
    ensures forall x :: x in BootScriptNames(names) <==> x in names && EndsWith(x, ".boot.sh")
    decreases |names|
  {
    if |names| > 0 {
      var init := names[..|names| - 1];
      BootScriptNamesSelect(init);
      assert forall x :: x in names <==> x in init || x == names[|names| - 1];
    }
  }

  /** The cached boot scripts launched in order: each one that can be read is
      launched; the run continues only while they exit 0. */
  function CachedRun(sorted: seq<string>, readable: string -> bool, status: string -> Option<int>): seq<string>
  {
    if |sorted| == 0 || !readable(sorted[0]) then []
    else if status(sorted[0]) != Some(0) then [sorted[0]]
    else [sorted[0]] + CachedRun(sorted[1..], readable, status)
  }

  /** The launched scripts are a prefix of the sorted ones; all but the last
      exited 0; and the run stops early only at an unreadable script or after a
      launch that did not exit 0. */
  lemma {:induction false} CachedRunStops(sorted: seq<string>, readable: string -> bool, status: string -> Option<int>)
    ensures var r := CachedRun(sorted, readable, status);
      |r| <= |sorted| && r == sorted[..|r|] &&
      (forall i | 0 <= i < |r| :: readable(r[i])) &&
      (forall i | 0 <= i < |r| - 1 :: status(r[i]) == Some(0)) &&
      (|r| < |sorted| ==> !readable(sorted[|r|]) || (|r| > 0 && status(r[|r| - 1]) != Some(0)))
    decreases |sorted|
  {
    if |sorted| > 0 && readable(sorted[0]) && status(sorted[0]) == Some(0) {
      CachedRunStops(sorted[1..], readable, status);
      var t := CachedRun(sorted[1..], readable, status);
      assert CachedRun(sorted, readable, status) == [sorted[0]] + t;
      assert sorted[..|t| + 1] == [sorted[0]] + sorted[1..][..|t|];
    }
  }

  /** The 2-byte big-endian port number at the start of a forwarded stream. */
  function ReadPortHeader(stream: seq<byte>): (r: Option<nat>)
    ensures r.Some? <==> |stream| >= 2
    ensures r.Some? ==> r.value < 65536 && r.value == BigEndianValue(stream[..2])
  {
    if |stream| < 2 then None
    else
      assert stream[..2][..1] == [stream[0]];
      assert BigEndianValue(stream[..2][..0]) == 0;
      Some(stream[0] as nat * 256 + stream[1] as nat)
  }

  /** The run loop of `provision`: run each script in turn, stream its lines and
      its `Done`, and stop after the first non-zero exit. Returns the index of
      the script that failed, or |runs| when none did. */
  method RunInOrder(runs: seq<ScriptRun>) returns (k: nat, events: seq<ProvisionEvent>)
    // the scripts before the k-th exited 0, and the k-th, if any, did not
    ensures k <= |runs| && (forall i | 0 <= i < k :: ExitCode(runs[i]) == 0) &&
            (k < |runs| ==> ExitCode(runs[k]) != 0)
    // the events are those of every script up to and including the failing one
    ensures k < |runs| ==> events == Stream(runs[..k + 1])
    ensures k == |runs| ==> events == Stream(runs)
  {
    events := [];
    k := 0;
    while k < |runs|
      invariant 0 <= k <= |runs| && forall i | 0 <= i < k :: ExitCode(runs[i]) == 0
      invariant events == Stream(runs[..k])
    {
      var code := ExitCode(runs[k]);
      assert runs[..k + 1][..k] == runs[..k];
      events := events + runs[k].output + [Done(code)];
      if code != 0 {
        return;
      }
      k := k + 1;
    }
    assert runs[..k] == runs;
  }

  /** The directory scan of `run_cached_boot_scripts`: keep the names that end in ".boot.sh". */
  method SelectBootScripts(listing: seq<string>) returns (boot: seq<string>)
    ensures boot == BootScriptNames(listing)
  {
    boot := [];
    var i := 0;
    while i < |listing|
      invariant 0 <= i <= |listing|
      invariant boot == BootScriptNames(listing[..i])
    {
      assert listing[..i + 1][..i] == listing[..i];
      if EndsWith(listing[i], ".boot.sh") {
        boot := boot + [listing[i]];
      }
      i := i + 1;
    }
    assert listing[..|listing|] == listing;
  }

  /** The guest's provisioning state on disk. */
  /** The files left after clearing the scripts directory: a file survives
      when reading the directory failed, when it was not among the entries read
      (reading stopped at an error), or when removing it failed. */
  function Survivors(files: map<string, string>, readDirOk: bool, entries: seq<string>,
                     removeOk: string -> bool): (r: map<string, string>)
    ensures forall f :: f in r <==> f in files && !(readDirOk && f in entries && removeOk(f))
    ensures forall f | f in r :: r[f] == files[f]
  {
    map f | f in files && !(readDirOk && f in entries && removeOk(f)) :: files[f]
  }

  /** Reading one more entry removes it if its removal succeeds. */
  lemma SurvivorsSnoc(files: map<string, string>, entries: seq<string>, e: string, removeOk: string -> bool)
    ensures Survivors(files, true, entries + [e], removeOk) ==
      if removeOk(e) then Survivors(files, true, entries, removeOk) - {e} else Survivors(files, true, entries, removeOk)
  {
  }

  /** When every old file was read and removed, nothing stale survives, and the
      scripts directory holds exactly the scripts just saved. */
  lemma ClearedAll(files: map<string, string>, entries: seq<string>, removeOk: string -> bool,
                   saved: map<string, string>)
    requires forall f | f in files :: f in entries && removeOk(f)
    ensures Survivors(files, true, entries, removeOk) + saved == saved
  {
    assert Survivors(files, true, entries, removeOk) == map[];
  }

  /** A stale file survives only if the directory could not be read, it was not
      read, or its removal failed; and then a saved script of the same name
      replaces it. */
  lemma StaleSurvivor(files: map<string, string>, readDirOk: bool, entries: seq<string>, removeOk: string -> bool,
                      saved: map<string, string>, f: string)
    requires f in Survivors(files, readDirOk, entries, removeOk) + saved && f !in saved
    ensures f in files && (!readDirOk || f !in entries || !removeOk(f))
    ensures (Survivors(files, readDirOk, entries, removeOk) + saved)[f] == files[f]
  {
  }

  /** Saving one more script over the files already there. */
  lemma UnionUpdate(before: map<string, string>, scripts: seq<ProvisionScript>, w: nat)
    requires w < |scripts|
    ensures (before + FilesOf(ScriptFileName, scripts[..w]))[ScriptFileName(scripts[w]) := scripts[w].content] ==
            before + FilesOf(ScriptFileName, scripts[..w + 1])
  {
    assert scripts[..w + 1][..w] == scripts[..w];
  }

  /** Saving no script leaves the files already there. */
  lemma UnionEmpty(before: map<string, string>, none: seq<ProvisionScript>)
    requires none == []
    ensures before + FilesOf(ScriptFileName, none) == before
  {
  }

  class Guest {
    var scriptsDirExists: bool
    var files: map<string, string>   // file name -> content inside the scripts directory
    var sentinel: bool               // the sentinel file exists

    constructor(scriptsDirExists: bool, files: map<string, string>, sentinel: bool)
      ensures this.scriptsDirExists == scriptsDirExists && this.files == files && this.sentinel == sentinel
    {
      this.scriptsDirExists := scriptsDirExists;
      this.files := files;
      this.sentinel := sentinel;
    }

    /** The startup check: cached boot scripts run only when the sentinel and the scripts directory exist. */
    predicate RunsCachedScriptsAtStartup()
      reads this
    {
      sentinel && scriptsDirExists
    }

    /** `provision`: clear the scripts directory, save every script, run them in
        `order` order until the first non-zero exit, then write the sentinel.
        `createDirOk`, `readDirOk`, `removeOk`, `writeOk[i]` and
        `sentinelWriteOk` say whether those filesystem calls succeed; `entries`
        is what reading the directory yields; `runs[i]` is what running the
        i-th script of the run order produces. */
    method Provision(scripts: seq<ProvisionScript>, createDirOk: bool, readDirOk: bool, entries: seq<string>,
                     removeOk: string -> bool, writeOk: seq<bool>, runs: seq<ScriptRun>, sentinelWriteOk: bool)
      returns (result: ProvisionResult, events: seq<ProvisionEvent>)
      requires |writeOk| == |scripts| && |runs| == |scripts|
      modifies this
      // setup failure: nothing is written or run
      ensures !createDirOk ==> result == ProvisionResult(false, "(setup)") && events == [] && unchanged(this)
      // the old files whose removal failed survive; the received scripts are saved over them, stopping at a failed write
      ensures createDirOk ==>
        scriptsDirExists &&
        files == Survivors(old(files), readDirOk, entries, removeOk) + FilesOf(ScriptFileName, scripts[..FirstFalse(writeOk)])
      // when every old file was read and removed, the directory holds exactly the scripts saved
      ensures createDirOk && readDirOk && (forall f | f in old(files) :: f in entries && removeOk(f)) ==>
        files == FilesOf(ScriptFileName, scripts[..FirstFalse(writeOk)])
      ensures createDirOk && FirstFalse(writeOk) < |scripts| ==>
        result == ProvisionResult(false, scripts[FirstFalse(writeOk)].name) && events == [] && sentinel == old(sentinel)
      // every script ran in run order up to and including the first failing one
      ensures createDirOk && FirstFalse(writeOk) == |scripts| && FirstNonZero(runs) < |runs| ==>
        result == ProvisionResult(false, RunOrder(scripts)[FirstNonZero(runs)].name) &&
        events == Stream(runs[..FirstNonZero(runs) + 1]) && sentinel == old(sentinel)
      // all scripts exited 0: the sentinel is written and success reported
      ensures createDirOk && FirstFalse(writeOk) == |scripts| && FirstNonZero(runs) == |runs| ==>
        result == ProvisionResult(true, "") && events == Stream(runs) &&
        sentinel == (old(sentinel) || sentinelWriteOk)
    {
      if !createDirOk {
        return ProvisionResult(false, "(setup)"), [];
      }
      scriptsDirExists := true;
      if readDirOk {
        ClearScripts(entries, removeOk);
      } else {
        assert files == Survivors(old(files), readDirOk, entries, removeOk);
      }
      var w := SaveScripts(scripts, writeOk);
      if readDirOk && forall f | f in old(files) :: f in entries && removeOk(f) {
        ClearedAll(old(files), entries, removeOk, FilesOf(ScriptFileName, scripts[..w]));
      }
      if w < |scripts| {
        return ProvisionResult(false, scripts[w].name), [];
      }
      var k;
      k, events := RunInOrder(runs);
      FirstNonZeroUnique(runs, k);
      if k < |runs| {
        return ProvisionResult(false, RunOrder(scripts)[k].name), events;
      }
      assert runs[..|runs|] == runs;
      if sentinelWriteOk {
        sentinel := true;
      }
      result := ProvisionResult(true, "");
    }

    /** The clearing loop of `provision`: remove each directory entry read,
        ignoring a removal that fails. */
    method ClearScripts(entries: seq<string>, removeOk: string -> bool)
      modifies this
      ensures files == Survivors(old(files), true, entries, removeOk)
      ensures scriptsDirExists == old(scriptsDirExists) && sentinel == old(sentinel)
    {
      var i := 0;
      while i < |entries|
        invariant 0 <= i <= |entries|
        invariant files == Survivors(old(files), true, entries[..i], removeOk)
        invariant scriptsDirExists == old(scriptsDirExists) && sentinel == old(sentinel)
      {
        SurvivorsSnoc(old(files), entries[..i], entries[i], removeOk);
        assert entries[..i + 1] == entries[..i] + [entries[i]];
        if removeOk(entries[i]) {
          files := files - {entries[i]};
        }
        i := i + 1;
      }
      assert entries[..i] == entries;
    }

    /** The file-writing part of `provision`: save each script in received order
        over the files already there, until a write fails. Returns the index of
        the failed write, or |scripts|. */
    method SaveScripts(scripts: seq<ProvisionScript>, writeOk: seq<bool>) returns (w: nat)
      requires |writeOk| == |scripts|
      modifies this
      ensures w == FirstFalse(writeOk)
      ensures files == old(files) + FilesOf(ScriptFileName, scripts[..w])
      ensures scriptsDirExists == old(scriptsDirExists) && sentinel == old(sentinel)
    {
      ghost var before := files;
      w := 0;
      UnionEmpty(before, scripts[..0]);
      while w < |scripts|
        invariant 0 <= w <= |scripts| && w <= FirstFalse(writeOk)
        invariant files == before + FilesOf(ScriptFileName, scripts[..w])
        invariant scriptsDirExists == old(scriptsDirExists) && sentinel == old(sentinel)
      {
        if !writeOk[w] {
          return;
        }
        UnionUpdate(before, scripts, w);
        files := files[ScriptFileName(scripts[w]) := scripts[w].content];
        w := w + 1;
      }
    }

    /** `run_cached_boot_scripts`: `listing` is what reading the directory
        returns (the entries read before the first failed entry, so possibly
        not every cached file), `readable` and `status` what reading and
        running each file does. Returns the scripts launched, in order. */
    method RunCachedBootScripts(listing: seq<string>, readDirOk: bool,
                                readable: string -> bool, status: string -> Option<int>)
      returns (launched: seq<string>)
      requires forall x | x in listing :: x in files
      ensures !readDirOk ==> launched == []
      ensures readDirOk ==>
        launched == CachedRun(Sorting.Sort(ByName(), BootScriptNames(listing)), readable, status)
    {
      if !readDirOk {
        return [];
      }
      var boot := SelectBootScripts(listing);
      var sorted := Sorting.Sort(ByName(), boot);
      launched := LaunchInOrder(sorted, readable, status);
    }
  }

  /** Launch the cached boot scripts in sorted order: a script that cannot be
      read stops the sequence before launch, a launched script that does not
      exit with status 0 stops it after launch. */
  method LaunchInOrder(sorted: seq<string>, readable: string -> bool, status: string -> Option<int>)
    returns (launched: seq<string>)
    ensures launched == CachedRun(sorted, readable, status)
  {
    launched := [];
    var k := 0;
    while k < |sorted|
      invariant 0 <= k <= |sorted|
      invariant CachedRun(sorted, readable, status) == launched + CachedRun(sorted[k..], readable, status)
    {
      CachedRunAt(sorted, k, readable, status);
      if !readable(sorted[k]) {
        return;
      }
      launched := launched + [sorted[k]];
      if status(sorted[k]) != Some(0) {
        return;
      }
      k := k + 1;
    }
  }

  /** One step of `CachedRun` from position `k`. */
  lemma CachedRunAt(sorted: seq<string>, k: nat, readable: string -> bool, status: string -> Option<int>)
    requires k < |sorted|
    ensures CachedRun(sorted[k..], readable, status) ==
      if !readable(sorted[k]) then []
      else if status(sorted[k]) != Some(0) then [sorted[k]]
      else [sorted[k]] + CachedRun(sorted[k + 1..], readable, status)
  {
    var rest := sorted[k..];
    assert rest[0] == sorted[k] && rest[1..] == sorted[k + 1..];
  }
}
