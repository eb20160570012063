// The VM configuration of `rum.toml` (src/config.rs): the resolved
// hostname and the checks `validate` makes after the file is parsed.

module Config {
  import opened Wrappers

  datatype ImageConfig = ImageConfig(base: string)
  datatype ResourcesConfig = ResourcesConfig(cpus: nat, memoryMb: nat)
  datatype NetworkConfig = NetworkConfig(hostname: string, waitForIp: bool, ipWaitTimeoutS: nat)
  datatype ProvisionConfig = ProvisionConfig(script: string, packages: seq<string>)
  datatype AdvancedConfig = AdvancedConfig(libvirtUri: string, domainType: string, machine: string)

  datatype Config = Config(
    name: string,
    image: ImageConfig,
    resources: ResourcesConfig,
    network: NetworkConfig,
    provision: ProvisionConfig,
    advanced: AdvancedConfig)

  /** The defaults of the optional `[network]` and `[advanced]` tables. */
  const DefaultNetwork := NetworkConfig("", true, 120)
  const DefaultAdvanced := AdvancedConfig("qemu:///system", "kvm", "q35")

  /** `hostname`: the configured hostname, or the VM name when it is empty. */
  function Hostname(c: Config): (r: string)
    ensures c.network.hostname != "" ==> r == c.network.hostname
    ensures c.network.hostname == "" ==> r == c.name
  {
    if c.network.hostname == "" then c.name else c.network.hostname
  }

  predicate IsAsciiAlphanumeric(c: char)
  {
    'a' <= c <= 'z' || 'A' <= c <= 'Z' || '0' <= c <= '9'
  }

  predicate IsNameChar(c: char)
  {
    IsAsciiAlphanumeric(c) || c == '.' || c == '_' || c == '-'
  }

  /** `[a-zA-Z0-9][a-zA-Z0-9._-]*`. */
  predicate ValidName(name: string)
  {
    |name| > 0 && IsAsciiAlphanumeric(name[0]) && forall k | 0 <= k < |name| :: IsNameChar(name[k])
  }

  /** The checks of `validate`, in the order it makes them. */
  datatype Check = NameCheck | CpusCheck | MemoryCheck

  /** The first check the configuration fails, if any. */
  function FirstFailure(c: Config): (r: Option<Check>)
    ensures r == Some(NameCheck) <==> !ValidName(c.name)
    ensures r == Some(CpusCheck) <==> ValidName(c.name) && c.resources.cpus < 1
    ensures r == Some(MemoryCheck) <==> ValidName(c.name) && c.resources.cpus >= 1 && c.resources.memoryMb < 256
    ensures r == None <==> ValidName(c.name) && c.resources.cpus >= 1 && c.resources.memoryMb >= 256
  {
    if !ValidName(c.name) then Some(NameCheck)
    else if c.resources.cpus < 1 then Some(CpusCheck)
    else if c.resources.memoryMb < 256 then Some(MemoryCheck)
    else None
  }

  /** `validate`: Ok exactly when every check passes; otherwise a
      validation error for the first failing check. */
  function Validate(c: Config): (r: Result<()>)
    ensures r.Ok? <==> ValidName(c.name) && c.resources.cpus >= 1 && c.resources.memoryMb >= 256
    ensures r.Err? ==> r.error == Validation
  {
    match FirstFailure(c)
    case None => Ok(())
    case Some(_) => Err(Validation)
  }

  /** A configuration that validates has a non-empty hostname. */
  lemma ValidHasHostname(c: Config)
    requires Validate(c).Ok?
    ensures Hostname(c) != "" && (Hostname(c) == c.name || Hostname(c) == c.network.hostname)
  {
  }

  /** A valid name is a single path component: it holds no `/` and is
      neither `.` nor `..`, so the work directory named after it stays
      inside the data directory. */
  lemma ValidNameIsComponent(name: string)
    requires ValidName(name)
    ensures forall k | 0 <= k < |name| :: name[k] != '/'
    ensures name != "." && name != ".."
  {
    assert IsAsciiAlphanumeric(name[0]);
  }

  /** The names of the unit tests: five accepted, nine rejected. */
  lemma NameExamples()
    ensures ValidName("myvm") && ValidName("test-vm") && ValidName("vm.dev") && ValidName("VM_01") && ValidName("a")
    ensures !ValidName("") && !ValidName("-bad") && !ValidName(".bad") && !ValidName("_bad")
    ensures !ValidName("../etc") && !ValidName("a/b") && !ValidName("vm<inject>")
    ensures !ValidName("vm&amp") && !ValidName("hello world")
  {
    assert !IsNameChar("a/b"[1]);
    assert !IsNameChar("vm<inject>"[2]);
    assert !IsNameChar("vm&amp"[2]);
    assert !IsNameChar("hello world"[5]);
  }
}
