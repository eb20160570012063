// Host-only libvirt networks (src/network_xml.rs): the network's name,
// the /24 subnet it uses, and the definition tree handed to the XML
// serialiser.

module NetworkXml {
  import opened Wrappers
  import opened Bytes
  import opened Strings

  /** `prefixed_name`: `rum-{id}-{network}`. */
  function PrefixedName(id: string, network: string): (r: string)
    ensures StartsWith(r, "rum-") && |r| == |id| + |network| + 5
    ensures r[4..4 + |id|] == id && r[4 + |id|] == '-' && r[5 + |id|..] == network
  {
    "rum-" + id + "-" + network
  }

  /** Within one VM, different configured networks get different libvirt names. */
  lemma PrefixedNameInjective(id: string, a: string, b: string)
    requires PrefixedName(id, a) == PrefixedName(id, b)
    ensures a == b
  {
    assert a == PrefixedName(id, a)[5 + |id|..];
  }

  // ---------------------------------------------------------------------
  // The subnet
  // ---------------------------------------------------------------------

  /** The djb2 hash of the bytes, on a wrapping `u32`. */
  function Djb2(bytes: seq<byte>): (r: nat)
    ensures r < U32Limit
  {
    if |bytes| == 0 then 5381
    else (Djb2(bytes[..|bytes| - 1]) * 33 + bytes[|bytes| - 1] as nat) % U32Limit
  }

  /** The third octet chosen for a name: in 2..254. */
  function Octet(nameBytes: seq<byte>): (r: nat)
    ensures 2 <= r <= 254
  {
    Djb2(nameBytes) % 253 + 2
  }

  /** `derive_subnet`: the text before the hint's last `.` when the hint
      has one; otherwise `192.168.<octet>` from the name's hash. The name
      is given as its UTF-8 bytes. */
  method DeriveSubnet(nameBytes: seq<byte>, ipHint: string) returns (subnet: string)
    ensures LastIndexOf(ipHint, '.').Some? ==>
      |subnet| < |ipHint| && subnet == ipHint[..|subnet|] && ipHint[|subnet|] == '.' &&
      forall k | |subnet| < k < |ipHint| :: ipHint[k] != '.'
    ensures LastIndexOf(ipHint, '.').None? ==> subnet == "192.168." + NatToString(Octet(nameBytes))
  {
    if ipHint != "" {
      match LastIndexOf(ipHint, '.') {
        case Some(i) =>
          return ipHint[..i];
        case None =>
      }
    }
    var hash: nat := 5381;
    var i := 0;
    while i < |nameBytes|
      invariant 0 <= i <= |nameBytes|
      invariant hash == Djb2(nameBytes[..i])
    {
      assert nameBytes[..i + 1][..i] == nameBytes[..i];
      hash := (hash * 33 + nameBytes[i] as nat) % U32Limit;
      i := i + 1;
    }
    assert nameBytes[..i] == nameBytes;
    var octet := hash % 253 + 2;
    subnet := "192.168." + NatToString(octet);
  }

  /** Appending a byte steps the hash. */
  lemma Djb2Snoc(prefix: seq<byte>, b: byte)
    ensures Djb2(prefix + [b]) == (Djb2(prefix) * 33 + b as nat) % U32Limit
  {
    assert (prefix + [b])[..|prefix|] == prefix;
  }

  /** For the two moduli of `derive_subnet`: one more than a value whose
      residue is not the largest is one more residue. */
  lemma ModStep(x: nat, m: nat)
    requires m == U32Limit || m == 253
    requires x % m + 1 < m
    ensures (x + 1) % m == x % m + 1
  {
  }

  /** Names that differ only in a last byte one apart, whose hash does not
      sit at a wrap-around point, get neighbouring octets: "net-a" and
      "net-b" are one such pair. */
  lemma NeighbourNamesDiffer(prefix: seq<byte>, b: byte)
    requires b as nat + 1 < 256
    requires (Djb2(prefix) * 33 + b as nat) % U32Limit + 1 < U32Limit
    requires Djb2(prefix + [b]) % 253 < 252
    ensures Octet(prefix + [b + 1]) == Octet(prefix + [b]) + 1
  {
    var x := Djb2(prefix) * 33 + b as nat;
    Djb2Snoc(prefix, b);
    Djb2Snoc(prefix, b + 1);
    ModStep(x, U32Limit);
    ModStep(Djb2(prefix + [b]), 253);
  }

  /** One step of the hash from a known value. */
  lemma Djb2Step(prefix: seq<byte>, b: byte, h: nat, h2: nat)
    requires Djb2(prefix) == h && (h * 33 + b as nat) % U32Limit == h2
    ensures Djb2(prefix + [b]) == h2
  {
    Djb2Snoc(prefix, b);
  }

  /** The names of the unit test: "net-a" and "net-b" land on octets 189
      and 190, so their subnets differ. */
  lemma NetAAndNetB()
    ensures Octet([0x6E, 0x65, 0x74, 0x2D, 0x61]) == 189
    ensures Octet([0x6E, 0x65, 0x74, 0x2D, 0x62]) == 190
  {
    var n0: seq<byte> := [];
    Djb2Step(n0, 0x6E, 5381, 177683);
    var n1 := n0 + [0x6E];
    Djb2Step(n1, 0x65, 177683, 5863640);
    var n2 := n1 + [0x65];
    Djb2Step(n2, 0x74, 5863640, 193500236);
    var n3 := n2 + [0x74];
    Djb2Step(n3, 0x2D, 193500236, 2090540537);
    var n4 := n3 + [0x2D];
    Djb2Step(n4, 0x61, 2090540537, 268361082);
    Djb2Step(n4, 0x62, 2090540537, 268361083);
    assert n4 + [0x61] == [0x6E, 0x65, 0x74, 0x2D, 0x61];
    assert n4 + [0x62] == [0x6E, 0x65, 0x74, 0x2D, 0x62];
  }

  // ---------------------------------------------------------------------
  // The network definition
  // ---------------------------------------------------------------------

  datatype DhcpRange = DhcpRange(start: string, end: string)
  datatype NetworkIp = NetworkIp(address: string, netmask: string, dhcp: DhcpRange)
  datatype NetworkDef = NetworkDef(name: string, ip: NetworkIp)

  /** `generate_network_xml`, as the tree it serialises. */
  function GenerateNetwork(name: string, subnet: string): (r: NetworkDef)
    ensures r.name == name && r.ip.netmask == "255.255.255.0"
    ensures StartsWith(r.ip.address, subnet + ".") && StartsWith(r.ip.dhcp.start, subnet + ".") &&
      StartsWith(r.ip.dhcp.end, subnet + ".")
  {
    NetworkDef(name, NetworkIp(subnet + ".1", "255.255.255.0",
      DhcpRange(subnet + ".100", subnet + ".254")))
  }

  /** The host number of an address inside `subnet`: the digits after
      `subnet.`, if that is what the address is. */
  function HostOf(address: string, subnet: string): Option<nat>
  {
    if |subnet| + 1 < |address| && address[..|subnet| + 1] == subnet + "." && AllDigits(address[|subnet| + 1..])
    then Some(DigitsValue(address[|subnet| + 1..]))
    else None
  }

  /** The gateway is host 1 and the DHCP range hosts 100 to 254 of the
      same /24, so the gateway is never leased. */
  lemma NetworkAddresses(name: string, subnet: string)
    ensures var n := GenerateNetwork(name, subnet);
      n.name == name && n.ip.netmask == "255.255.255.0" &&
      HostOf(n.ip.address, subnet) == Some(1) && HostOf(n.ip.dhcp.start, subnet) == Some(100) &&
      HostOf(n.ip.dhcp.end, subnet) == Some(254)
  {
    HostDigits();
    HostNumber(subnet, "1");
    HostNumber(subnet, "100");
    HostNumber(subnet, "254");
    assert subnet + ".1" == subnet + "." + "1";
    assert subnet + ".100" == subnet + "." + "100";
    assert subnet + ".254" == subnet + "." + "254";
  }

  /** The address `subnet.host` has host number `host`. */
  lemma HostNumber(subnet: string, host: string)
    requires |host| > 0 && AllDigits(host)
    ensures HostOf(subnet + "." + host, subnet) == Some(DigitsValue(host))
  {
    var a := subnet + "." + host;
    assert a[..|subnet| + 1] == subnet + "." && a[|subnet| + 1..] == host;
  }

  /** The values of the three host numbers the network uses. */
  lemma HostDigits()
    ensures AllDigits("1") && DigitsValue("1") == 1
    ensures AllDigits("100") && DigitsValue("100") == 100
    ensures AllDigits("254") && DigitsValue("254") == 254
  {
    assert "1"[..0] == "";
    assert "100"[..2] == "10" && "10"[..1] == "1";
    assert "254"[..2] == "25" && "25"[..1] == "2";
  }
}
