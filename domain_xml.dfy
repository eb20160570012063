// The libvirt domain definition (src/domain_xml.rs): the tree of elements
// `generate_domain_xml` hands to the XML serialiser, and the comparison
// with the definition saved by an earlier `up`.

module DomainXml {
  import opened Wrappers
  import Config

  /** A host directory shared with the guest over virtiofs. */
  datatype Mount = Mount(source: string, tag: string, readonly: bool)
  /** An extra disk image and the guest device it appears as. */
  datatype Drive = Drive(path: string, dev: string)

  /** An element with no content, such as `<readonly/>` or `<acpi/>`. */
  datatype Empty = Empty

  datatype Memory = Memory(unit: string, value: nat)
  datatype OsType = OsType(arch: string, machine: string, value: string)
  datatype Boot = Boot(dev: string)
  datatype Os = Os(osType: OsType, boot: Boot)
  datatype MemoryBacking = MemoryBacking(sourceType: string, accessMode: string)
  datatype Features = Features(acpi: Empty, apic: Empty)

  datatype DiskDriver = DiskDriver(name: string, driverType: string)
  datatype DiskTarget = DiskTarget(dev: string, bus: string)
  datatype Disk = Disk(diskType: string, device: string, driver: DiskDriver, sourceFile: string,
                       target: DiskTarget, readonly: Option<Empty>)

  datatype Filesystem = Filesystem(fsType: string, accessmode: string, driverType: string,
                                   sourceDir: string, targetDir: string, readonly: Option<Empty>)

  datatype Interface = Interface(ifaceType: string, sourceNetwork: string, modelType: string)
  datatype Serial = Serial(serialType: string, targetPort: string)
  datatype Console = Console(consoleType: string, targetType: string, targetPort: string)

  datatype Devices = Devices(disk: seq<Disk>, filesystem: seq<Filesystem>, interface: Interface,
                             serial: Serial, console: Console)

  datatype Domain = Domain(domainType: string, name: string, memory: Memory, vcpu: nat, os: Os,
                           memoryBacking: Option<MemoryBacking>, features: Features, devices: Devices)

  // ---------------------------------------------------------------------
  // The parts of the tree
  // ---------------------------------------------------------------------

  /** Shared memory, which virtiofs needs, only when something is mounted. */
  function MemoryBackingFor(mounts: seq<Mount>): Option<MemoryBacking>
  {
    if |mounts| == 0 then None else Some(MemoryBacking("memfd", "shared"))
  }

  /** The virtiofs filesystem element of one mount. */
  function FilesystemOf(m: Mount): Filesystem
  {
    Filesystem("mount", "passthrough", "virtiofs", m.source, m.tag, if m.readonly then Some(Empty) else None)
  }

  /** The filesystems of the mounts, one each, in order. */
  function Filesystems(mounts: seq<Mount>): (r: seq<Filesystem>)
    ensures |r| == |mounts|
  {
    seq(|mounts|, i requires 0 <= i < |mounts| => FilesystemOf(mounts[i]))
  }

  /** The root disk: the overlay image, as `vda` on virtio. */
  function OverlayDisk(overlay: string): Disk
  {
    Disk("file", "disk", DiskDriver("qemu", "qcow2"), overlay, DiskTarget("vda", "virtio"), None)
  }

  /** The cloud-init seed: a read-only raw CD-ROM, `sda` on SATA. */
  function SeedDisk(seed: string): Disk
  {
    Disk("file", "cdrom", DiskDriver("qemu", "raw"), seed, DiskTarget("sda", "sata"), Some(Empty))
  }

  /** An extra drive: a qcow2 disk on virtio under its own device name. */
  function DriveDisk(d: Drive): Disk
  {
    Disk("file", "disk", DiskDriver("qemu", "qcow2"), d.path, DiskTarget(d.dev, "virtio"), None)
  }

  /** The disks of the extra drives, in order. */
  function DriveDisks(drives: seq<Drive>): (r: seq<Disk>)
    ensures |r| == |drives|
  {
    seq(|drives|, i requires 0 <= i < |drives| => DriveDisk(drives[i]))
  }

  /** The devices every domain has besides its disks and filesystems. */
  const DefaultInterface := Interface("network", "default", "virtio")
  const PtySerial := Serial("pty", "0")
  const SerialConsole := Console("pty", "serial", "0")

  /** The domain `generate_domain_xml` describes, from the config, the
      displayed overlay and seed paths, the mounts and the extra drives. */
  function DomainOf(config: Config.Config, overlay: string, seed: string,
                    mounts: seq<Mount>, drives: seq<Drive>): Domain
  {
    Domain(
      config.advanced.domainType,
      config.name,
      Memory("KiB", config.resources.memoryMb * 1024),
      config.resources.cpus,
      Os(OsType("x86_64", config.advanced.machine, "hvm"), Boot("hd")),
      MemoryBackingFor(mounts),
      Features(Empty, Empty),
      Devices([OverlayDisk(overlay), SeedDisk(seed)] + DriveDisks(drives), Filesystems(mounts),
              DefaultInterface, PtySerial, SerialConsole))
  }

  // ---------------------------------------------------------------------
  // generate_domain_xml
  // ---------------------------------------------------------------------

  /** `generate_domain_xml` up to the serialiser: the two fixed disks,
      then one push per extra drive, then the tree. */
  method GenerateDomain(config: Config.Config, overlay: string, seed: string,
                        mounts: seq<Mount>, drives: seq<Drive>) returns (d: Domain)
    ensures d == DomainOf(config, overlay, seed, mounts, drives)
  {
    var memoryBacking := if |mounts| == 0 then None else Some(MemoryBacking("memfd", "shared"));
    var filesystems := Filesystems(mounts);
    var disks := [OverlayDisk(overlay), SeedDisk(seed)];
    var i := 0;
    while i < |drives|
      invariant 0 <= i <= |drives|
      invariant disks == [OverlayDisk(overlay), SeedDisk(seed)] + DriveDisks(drives[..i])
    {
      assert DriveDisks(drives[..i + 1]) == DriveDisks(drives[..i]) + [DriveDisk(drives[i])];
      disks := disks + [DriveDisk(drives[i])];
      i := i + 1;
    }
    assert drives[..i] == drives;
    d := Domain(
      config.advanced.domainType,
      config.name,
      Memory("KiB", config.resources.memoryMb * 1024),
      config.resources.cpus,
      Os(OsType("x86_64", config.advanced.machine, "hvm"), Boot("hd")),
      memoryBacking,
      Features(Empty, Empty),
      Devices(disks, filesystems, DefaultInterface, PtySerial, SerialConsole));
  }

  /** Shared memory backing (memfd, shared) is there exactly when at
      least one directory is mounted. */
  lemma MemoryBackingIffMounts(config: Config.Config, overlay: string, seed: string,
                               mounts: seq<Mount>, drives: seq<Drive>)
    ensures var d := DomainOf(config, overlay, seed, mounts, drives);
      (d.memoryBacking.Some? <==> |mounts| > 0) &&
      (d.memoryBacking.Some? ==> d.memoryBacking.value == MemoryBacking("memfd", "shared"))
  {
  }

  /** One virtiofs passthrough filesystem per mount, in mount order, from
      its source to its tag, read-only exactly when the mount is. */
  lemma FilesystemsFollowMounts(config: Config.Config, overlay: string, seed: string,
                                mounts: seq<Mount>, drives: seq<Drive>)
    ensures var fs := DomainOf(config, overlay, seed, mounts, drives).devices.filesystem;
      |fs| == |mounts| &&
      forall i | 0 <= i < |mounts| ::
        fs[i].fsType == "mount" && fs[i].accessmode == "passthrough" && fs[i].driverType == "virtiofs" &&
        fs[i].sourceDir == mounts[i].source && fs[i].targetDir == mounts[i].tag &&
        (fs[i].readonly.Some? <==> mounts[i].readonly)
  {
  }

  /** The overlay comes first as the virtio disk `vda`, the seed second as
      a read-only SATA CD-ROM `sda`, then every extra drive in order under
      its own device name; only the seed is read-only. */
  lemma DiskOrder(config: Config.Config, overlay: string, seed: string,
                  mounts: seq<Mount>, drives: seq<Drive>)
    ensures var disks := DomainOf(config, overlay, seed, mounts, drives).devices.disk;
      |disks| == 2 + |drives| &&
      disks[0].sourceFile == overlay && disks[0].driver.driverType == "qcow2" &&
      disks[0].target == DiskTarget("vda", "virtio") && disks[0].device == "disk" &&
      disks[1].sourceFile == seed && disks[1].driver.driverType == "raw" && disks[1].device == "cdrom" &&
      disks[1].target == DiskTarget("sda", "sata") &&
      (forall j | 0 <= j < |drives| ::
        disks[2 + j].sourceFile == drives[j].path && disks[2 + j].driver.driverType == "qcow2" &&
        disks[2 + j].target == DiskTarget(drives[j].dev, "virtio") && disks[2 + j].device == "disk") &&
      (forall k | 0 <= k < |disks| :: disks[k].readonly.Some? <==> k == 1)
  {
    var disks := DomainOf(config, overlay, seed, mounts, drives).devices.disk;
    forall k | 0 <= k < |disks| ensures disks[k].readonly.Some? <==> k == 1 {
      if k >= 2 {
        assert disks[k] == DriveDisk(drives[k - 2]);
      }
    }
  }

  /** The memory is the configured size in KiB, the virtual CPUs the
      configured count, and the name, domain type and machine come from
      the config. */
  lemma ResourcesCarried(config: Config.Config, overlay: string, seed: string,
                         mounts: seq<Mount>, drives: seq<Drive>)
    ensures var d := DomainOf(config, overlay, seed, mounts, drives);
      d.memory.unit == "KiB" && d.memory.value == config.resources.memoryMb * 1024 &&
      d.vcpu == config.resources.cpus && d.name == config.name &&
      d.domainType == config.advanced.domainType && d.os.osType.machine == config.advanced.machine
  {
  }

  /** Every domain boots from its hard disk as an x86_64 HVM guest, has one
      virtio network interface on the `default` network and a serial
      console on a pty. */
  lemma FixedDevices(config: Config.Config, overlay: string, seed: string,
                     mounts: seq<Mount>, drives: seq<Drive>)
    ensures var d := DomainOf(config, overlay, seed, mounts, drives);
      d.os.boot.dev == "hd" && d.os.osType.arch == "x86_64" && d.os.osType.value == "hvm" &&
      d.devices.interface.sourceNetwork == "default" && d.devices.interface.modelType == "virtio" &&
      d.devices.serial.serialType == "pty" && d.devices.console.targetType == "serial"
  {
  }

  // ---------------------------------------------------------------------
  // xml_has_changed
  // ---------------------------------------------------------------------

  /** `xml_has_changed`: `serialize` is the XML serialiser and `saved` the
      text of the saved definition, None when it cannot be read. */
  function XmlHasChanged(config: Config.Config, overlay: string, seed: string,
                         mounts: seq<Mount>, drives: seq<Drive>,
                         serialize: Domain -> string, saved: Option<string>): (r: bool)
    ensures saved.None? ==> r
    ensures saved.Some? ==> (r <==> saved.value != serialize(DomainOf(config, overlay, seed, mounts, drives)))
  {
    match saved
    case None => true
    case Some(existing) => existing != serialize(DomainOf(config, overlay, seed, mounts, drives))
  }

  /** Saving the definition generated from some inputs and asking again
      with the same inputs finds no change; any input that changes the
      tree changes the answer when the serialiser tells trees apart. */
  lemma SavedDefinitionUnchanged(config: Config.Config, overlay: string, seed: string,
                                 mounts: seq<Mount>, drives: seq<Drive>, serialize: Domain -> string,
                                 config2: Config.Config, mounts2: seq<Mount>, drives2: seq<Drive>)
    requires forall a: Domain, b: Domain :: serialize(a) == serialize(b) ==> a == b
    ensures var xml := serialize(DomainOf(config, overlay, seed, mounts, drives));
      !XmlHasChanged(config, overlay, seed, mounts, drives, serialize, Some(xml)) &&
      (XmlHasChanged(config2, overlay, seed, mounts2, drives2, serialize, Some(xml)) <==>
        DomainOf(config2, overlay, seed, mounts2, drives2) != DomainOf(config, overlay, seed, mounts, drives))
  {
  }
}
