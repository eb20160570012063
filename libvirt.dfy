// The libvirt backend (src/backend/libvirt.rs): reading the vsock CID out
// of the live domain XML, choosing the guest address SSH connects to,
// combining SSH keys, and the hypervisor steps of `up` (define or
// redefine) and of `shutdown_domain` (ask, poll, then force).

module Libvirt {
  import opened Wrappers
  import opened Strings
  import opened Bytes
  import FlowEvents

  // ---------------------------------------------------------------------
  // parse_vsock_cid
  // ---------------------------------------------------------------------

  const VsockOpen := "<vsock"
  const VsockClose := "</vsock>"
  const DoubleAttr := "address=\""
  const SingleAttr := "address='"

  predicate IsQuote(c: char)
  {
    c == '"' || c == '\''
  }

  predicate NoQuote(s: string)
  {
    forall k | 0 <= k < |s| :: !IsQuote(s[k])
  }

  /** `find(['"', '\''])`: the index of the first quote of either kind. */
  function QuoteIndex(s: string): (r: Option<nat>)
    ensures r.Some? ==> r.value < |s| && IsQuote(s[r.value]) && NoQuote(s[..r.value])
    ensures r.None? ==> NoQuote(s)
  {
    if |s| == 0 then None
    else if IsQuote(s[0]) then Some(0)
    else
      match QuoteIndex(s[1..])
      case None => None
      case Some(i) =>
        assert s[..i + 1] == [s[0]] + s[1..][..i];
        Some(i + 1)
  }

  /** The text from the first `open` up to the first `close` after it. */
  function Section(xml: string, open: string, close: string): (r: Option<string>)
    ensures IndexOfSub(xml, open).None? ==> r.None?
    ensures r.Some? ==> IndexOfSub(xml, open).Some? && StartsWith(xml[IndexOfSub(xml, open).value..], r.value)
  {
    match IndexOfSub(xml, open)
    case None => None
    case Some(start) =>
      match IndexOfSub(xml[start..], close)
      case None => None
      case Some(len) => Some(xml[start..start + len])
  }

  /** Where the CID's digits start inside the section: after the first
      `address="`, or failing that after the first `address='`. */
  function AddressStart(section: string): (r: Option<nat>)
    ensures r.Some? ==> r.value <= |section|
  {
    match IndexOfSub(section, DoubleAttr)
    case Some(i) => Some(i + |DoubleAttr|)
    case None =>
      match IndexOfSub(section, SingleAttr)
      case Some(i) => Some(i + |SingleAttr|)
      case None => None
  }

  /** The CID read from a vsock section: the text up to the next quote of
      either kind, parsed as a `u32`. */
  function CidOf(section: string): (r: Option<nat>)
    ensures r.Some? ==> r.value < U32Limit
  {
    match AddressStart(section)
    case None => None
    case Some(a) =>
      var remaining := section[a..];
      match QuoteIndex(remaining)
      case None => None
      case Some(e) => ParseUnsigned(remaining[..e], U32Limit)
  }

  /** `parse_vsock_cid`; `xml` is the live XML, None when it cannot be read. */
  function ParseVsockCid(xml: Option<string>): (r: Option<nat>)
    ensures xml.None? ==> r.None?
    ensures r.Some? ==> r.value < U32Limit
  {
    match xml
    case None => None
    case Some(x) =>
      match Section(x, VsockOpen, VsockClose)
      case None => None
      case Some(section) => CidOf(section)
  }

  /** The four markers the search looks for start with a character that
      does not recur in them. */
  lemma MarkersHeadUnique()
    ensures HeadUnique(VsockOpen) && HeadUnique(VsockClose)
    ensures HeadUnique(DoubleAttr) && HeadUnique(SingleAttr)
  {
  }

  /** The three parts of a text made of three parts. */
  lemma Parts3(a: string, b: string, c: string)
    ensures var x := a + b + c;
      x[..|a|] == a && x[|a|..|a| + |b|] == b && x[|a|..] == b + c && x[|a| + |b|..] == c
  {
  }

  /** The section of a text with a first `open`, at the start of
      `section`, and a first `close` after it. */
  lemma SectionOf(open: string, close: string, pre: string, section: string, rest: string)
    requires HeadUnique(open) && HeadUnique(close) && StartsWith(section, open)
    requires !Contains(pre, open) && !Contains(section, close)
    ensures Section(pre + section + close + rest, open, close) == Some(section)
  {
    var x := pre + section + close + rest;
    var tail := close + rest;
    assert x == pre + section + tail;
    Parts3(pre, section, tail);
    assert x[|pre|..|pre| + |open|] == section[..|open|];
    IndexOfSubAt(x, open, |pre|);
    Parts3(section, close, rest);
    IndexOfSubAt(section + tail, close, |section|);
    SectionAt(x, open, close, |pre|, section);
  }

  /** The section found from the positions of the two searches. */
  lemma SectionAt(x: string, open: string, close: string, start: nat, section: string)
    requires IndexOfSub(x, open) == Some(start)
    requires IndexOfSub(x[start..], close) == Some(|section|)
    requires x[start..start + |section|] == section
    ensures Section(x, open, close) == Some(section)
  {
  }

  /** The section runs from the first `<vsock` to the first `</vsock>`
      after it, so the address search sees nothing outside it. */
  lemma VsockCidConfined(pre: string, section: string, rest: string)
    requires StartsWith(section, VsockOpen) && !Contains(pre, VsockOpen) && !Contains(section, VsockClose)
    ensures ParseVsockCid(Some(pre + section + VsockClose + rest)) == CidOf(section)
  {
    MarkersHeadUnique();
    SectionOf(VsockOpen, VsockClose, pre, section, rest);
  }

  /** The CID after the attribute ending at position `n`: the value up
      to the next quote. */
  lemma CidAfter(s: string, n: nat, v: string, q: char, b: string)
    requires AddressStart(s) == Some(n) && s[n..] == v + [q] + b
    requires NoQuote(v) && IsQuote(q)
    ensures CidOf(s) == ParseUnsigned(v, U32Limit)
  {
    Parts3(v, [q], b);
    QuoteFirst(v + [q] + b, v, q);
  }

  /** A value without quotes followed by a quote is cut exactly there. */
  lemma QuoteFirst(s: string, v: string, q: char)
    requires |v| < |s| && s[..|v|] == v && s[|v|] == q && NoQuote(v) && IsQuote(q)
    ensures QuoteIndex(s) == Some(|v|)
  {
    assert IsQuote(s[|v|]);
    forall k | 0 <= k < |v|
      ensures !IsQuote(s[k])
    {
      assert s[k] == v[k];
    }
    forall m | |v| < m <= |s|
      ensures !NoQuote(s[..m])
    {
      assert s[..m][|v|] == q;
    }
  }

  /** A double-quoted address is read up to the next quote of either kind
      and parsed as a `u32`; single-quoted addresses anywhere else in the
      section do not matter. */
  lemma CidDoubleQuoted(a: string, v: string, q: char, b: string)
    requires !Contains(a, DoubleAttr) && NoQuote(v) && IsQuote(q)
    ensures CidOf(a + DoubleAttr + v + [q] + b) == ParseUnsigned(v, U32Limit)
  {
    MarkersHeadUnique();
    var tail := v + [q] + b;
    var s := a + DoubleAttr + v + [q] + b;
    assert s == a + DoubleAttr + tail;
    Parts3(a, DoubleAttr, tail);
    IndexOfSubAt(s, DoubleAttr, |a|);
    CidAfter(s, |a| + |DoubleAttr|, v, q, b);
  }

  /** Without a double-quoted address, the first single-quoted one is read. */
  lemma CidSingleQuoted(a: string, v: string, q: char, b: string)
    requires !Contains(a + SingleAttr + v + [q] + b, DoubleAttr)
    requires !Contains(a, SingleAttr) && NoQuote(v) && IsQuote(q)
    ensures CidOf(a + SingleAttr + v + [q] + b) == ParseUnsigned(v, U32Limit)
  {
    MarkersHeadUnique();
    var tail := v + [q] + b;
    var s := a + SingleAttr + v + [q] + b;
    IndexOfSubSpec(s, DoubleAttr);
    assert s == a + SingleAttr + tail;
    Parts3(a, SingleAttr, tail);
    IndexOfSubAt(s, SingleAttr, |a|);
    CidAfter(s, |a| + |SingleAttr|, v, q, b);
  }

  /** A section with no address attribute gives no CID. */
  lemma CidNeedsAddress(section: string)
    requires !Contains(section, DoubleAttr) && !Contains(section, SingleAttr)
    ensures CidOf(section).None?
  {
    IndexOfSubSpec(section, DoubleAttr);
    IndexOfSubSpec(section, SingleAttr);
  }

  /** The CID libvirt writes, a decimal number in double quotes, reads
      back when it fits in a `u32` and is refused otherwise. */
  lemma CidReadsBack(a: string, cid: nat, b: string)
    requires !Contains(a, DoubleAttr)
    ensures CidOf(a + DoubleAttr + NatToString(cid) + "\"" + b) == if cid < U32Limit then Some(cid) else None
  {
    var v := NatToString(cid);
    NatToStringRoundTrip(cid);
    assert NoQuote(v) by {
      forall k | 0 <= k < |v| ensures !IsQuote(v[k]) {
        assert IsDigit(v[k]);
      }
    }
    CidDoubleQuoted(a, v, '"', b);
    ParseUnsignedRendered(cid, U32Limit);
  }

  // ---------------------------------------------------------------------
  // get_vm_ip
  // ---------------------------------------------------------------------

  /** One address of a guest interface; `typed` 0 is IPv4. */
  datatype IfaceAddr = IfaceAddr(typed: int, addr: string)
  /** One interface as the lease query reports it. */
  datatype GuestIface = GuestIface(hwaddr: string, addrs: seq<IfaceAddr>)

  /** Which interfaces may carry the SSH address: in NAT mode every
      interface except those with an extra interface's MAC, in named mode
      only the one with the named network's MAC (both lower-cased). */
  datatype Selector = SkipMacs(macs: seq<string>) | OnlyMac(mac: string)

  predicate Accepts(sel: Selector, iface: GuestIface)
    ensures sel == SkipMacs([]) ==> Accepts(sel, iface)
    ensures sel.SkipMacs? && iface.hwaddr in sel.macs ==> !Accepts(sel, iface)
  {
    var m := AsciiLower(iface.hwaddr);
    match sel
    case SkipMacs(macs) => forall k | 0 <= k < |macs| :: AsciiLower(macs[k]) != m
    case OnlyMac(mac) => m == mac
  }

  /** The index of the first IPv4 address. */
  function FirstIpv4(addrs: seq<IfaceAddr>): (r: Option<nat>)
    ensures r.Some? ==>
      r.value < |addrs| && addrs[r.value].typed == 0 && (forall k | 0 <= k < r.value :: addrs[k].typed != 0)
    ensures r.None? ==> forall k | 0 <= k < |addrs| :: addrs[k].typed != 0
  {
    if |addrs| == 0 then None
    else if addrs[0].typed == 0 then Some(0)
    else
      match FirstIpv4(addrs[1..])
      case None => None
      case Some(i) => Some(i + 1)
  }

  /** An interface the selector accepts and that has an IPv4 address. */
  predicate Usable(sel: Selector, iface: GuestIface)
  {
    Accepts(sel, iface) && FirstIpv4(iface.addrs).Some?
  }

  /** The first usable interface, as the nested loops with early return
      find it. */
  function SelectIface(ifaces: seq<GuestIface>, sel: Selector): (r: Option<nat>)
    ensures r.Some? ==>
      r.value < |ifaces| && Usable(sel, ifaces[r.value]) && (forall k | 0 <= k < r.value :: !Usable(sel, ifaces[k]))
    ensures r.None? ==> forall k | 0 <= k < |ifaces| :: !Usable(sel, ifaces[k])
  {
    if |ifaces| == 0 then None
    else if Usable(sel, ifaces[0]) then Some(0)
    else
      match SelectIface(ifaces[1..], sel)
      case None => None
      case Some(i) =>
        assert forall k | 1 <= k <= i :: ifaces[k] == ifaces[1..][k - 1];
        Some(i + 1)
  }

  /** The first IPv4 address of an interface that has one. */
  function Ipv4Of(iface: GuestIface): string
    requires FirstIpv4(iface.addrs).Some?
  {
    iface.addrs[FirstIpv4(iface.addrs).value].addr
  }

  /** The MACs of the configured extra interfaces, by position; `macOf`
      stands for `generate_mac`. */
  function ExtraMacs(vmName: string, networks: seq<string>, macOf: (string, nat) -> string): (r: seq<string>)
    ensures |r| == |networks| && forall i | 0 <= i < |networks| :: r[i] == macOf(vmName, i)
  {
    seq(|networks|, i requires 0 <= i < |networks| => macOf(vmName, i))
  }

  /** The selector of the SSH interface setting; None for a name that no
      configured interface uses. */
  function SelectorFor(vmName: string, sshInterface: string, networks: seq<string>,
                       macOf: (string, nat) -> string): Option<Selector>
  {
    if sshInterface == "" then Some(SkipMacs(ExtraMacs(vmName, networks, macOf)))
    else
      match FlowEvents.Position(networks, sshInterface)
      case None => None
      case Some(idx) => Some(OnlyMac(AsciiLower(macOf(vmName, idx))))
  }

  /** `get_vm_ip`: `ifaces` is the lease query's answer (None when it
      fails), `networks` the network of each configured extra interface. */
  function GetVmIp(ifaces: Option<seq<GuestIface>>, vmName: string, sshInterface: string,
                   networks: seq<string>, macOf: (string, nat) -> string): (r: Result<string>)
    ensures r.Err? ==> r.error == SshNotReady(vmName)
    ensures ifaces.None? ==> r.Err?
  {
    match ifaces
    case None => Err(SshNotReady(vmName))
    case Some(fs) =>
      match SelectorFor(vmName, sshInterface, networks, macOf)
      case None => Err(SshNotReady(vmName))
      case Some(sel) =>
        match SelectIface(fs, sel)
        case None => Err(SshNotReady(vmName))
        case Some(i) => Ok(Ipv4Of(fs[i]))
  }

  /** NAT mode: the address is the first IPv4 address of the first
      interface whose MAC, ignoring case, is no extra interface's MAC and
      that has one; with no such interface the guest is not ready. */
  lemma NatModeAddress(fs: seq<GuestIface>, vmName: string, networks: seq<string>,
                       macOf: (string, nat) -> string)
    ensures var r := GetVmIp(Some(fs), vmName, "", networks, macOf);
      var notExtra := (f: GuestIface) =>
        forall k | 0 <= k < |networks| :: AsciiLower(macOf(vmName, k)) != AsciiLower(f.hwaddr);
      (r.Ok? <==> exists i | 0 <= i < |fs| :: notExtra(fs[i]) && FirstIpv4(fs[i].addrs).Some?) &&
      (r.Ok? ==> exists i | 0 <= i < |fs| ::
        notExtra(fs[i]) && FirstIpv4(fs[i].addrs).Some? && r.value == Ipv4Of(fs[i]) &&
        (forall k | 0 <= k < i :: !notExtra(fs[k]) || FirstIpv4(fs[k].addrs).None?))
  {
    var sel := SkipMacs(ExtraMacs(vmName, networks, macOf));
    var notExtra := (f: GuestIface) =>
      forall k | 0 <= k < |networks| :: AsciiLower(macOf(vmName, k)) != AsciiLower(f.hwaddr);
    forall f: GuestIface ensures Accepts(sel, f) <==> notExtra(f) {
    }
    match SelectIface(fs, sel)
    case None =>
    case Some(i) =>
      assert notExtra(fs[i]) && FirstIpv4(fs[i].addrs).Some?;
  }

  /** Named mode with a configured name: only interfaces whose MAC, ignoring
      case, is the one generated for that network's position are
      considered, and the first of them with an IPv4 address gives it. */
  lemma NamedModeAddress(fs: seq<GuestIface>, vmName: string, sshInterface: string,
                         networks: seq<string>, macOf: (string, nat) -> string, idx: nat)
    requires sshInterface != "" && idx < |networks| && networks[idx] == sshInterface
    requires sshInterface !in networks[..idx]
    ensures var r := GetVmIp(Some(fs), vmName, sshInterface, networks, macOf);
      var mac := AsciiLower(macOf(vmName, idx));
      (r.Ok? <==> exists i | 0 <= i < |fs| :: AsciiLower(fs[i].hwaddr) == mac && FirstIpv4(fs[i].addrs).Some?) &&
      (r.Ok? ==> exists i | 0 <= i < |fs| ::
        AsciiLower(fs[i].hwaddr) == mac && FirstIpv4(fs[i].addrs).Some? && r.value == Ipv4Of(fs[i]))
  {
    var sel := OnlyMac(AsciiLower(macOf(vmName, idx)));
    match SelectIface(fs, sel)
    case None =>
    case Some(i) =>
      assert Usable(sel, fs[i]);
  }

  /** Named mode with a name no configured interface uses finds nothing. */
  lemma UnknownInterfaceNotReady(fs: seq<GuestIface>, vmName: string, sshInterface: string,
                                 networks: seq<string>, macOf: (string, nat) -> string)
    requires sshInterface != "" && sshInterface !in networks
    ensures GetVmIp(Some(fs), vmName, sshInterface, networks, macOf) == Err(SshNotReady(vmName))
  {
  }

  // ---------------------------------------------------------------------
  // collect_ssh_keys
  // ---------------------------------------------------------------------

  /** `collect_ssh_keys`: `autoPub` is the generated public key file's
      text, None when it cannot be read. */
  function CollectSshKeys(autoPub: Option<string>, extraKeys: seq<string>): (r: Result<seq<string>>)
    ensures autoPub.None? ==> r == Err(Io)
    ensures autoPub.Some? ==> r.Ok? && |r.value| == |extraKeys| + 1 && r.value[1..] == extraKeys
  {
    match autoPub
    case None => Err(Io)
    case Some(text) => Ok([Trim(text)] + extraKeys)
  }

  /** The generated key comes first without the whitespace around it (the
      file's final newline), then the configured keys in order. */
  lemma GeneratedKeyFirst(key: string, front: string, back: string, extraKeys: seq<string>)
    requires |key| > 0 && !IsWhitespace(key[0]) && !IsWhitespace(key[|key| - 1])
    requires forall k | 0 <= k < |front| :: IsWhitespace(front[k])
    requires forall k | 0 <= k < |back| :: IsWhitespace(back[k])
    ensures CollectSshKeys(Some(front + key + back), extraKeys) == Ok([key] + extraKeys)
  {
    TrimPadded(front, key, back);
  }

  // ---------------------------------------------------------------------
  // The hypervisor steps of up and shutdown_domain
  // ---------------------------------------------------------------------

  /** What `shutdown_domain` leaves: its result, the number of one-second
      sleeps, and whether the domain still runs. The guest is seen stopped
      from poll number `stopsAfter` on (counting from 0). */
  function ShutdownOutcome(running: bool, shutdownOk: bool, stopsAfter: nat, destroyOk: bool)
    : (r: (Result<()>, nat, bool))
    ensures r.1 <= 10
    ensures r.0.Ok? <==> !r.2
    ensures r.0.Err? ==> r.0.error == Libvirt && running
    ensures !running ==> r == (Ok(()), 0, false)
    ensures running && shutdownOk && stopsAfter < 10 ==> r == (Ok(()), stopsAfter, false)
    ensures running && (!shutdownOk || stopsAfter >= 10) ==> (r.2 <==> !shutdownOk || !destroyOk)
  {
    if !running then (Ok(()), 0, false)
    else if !shutdownOk then (Err(Libvirt), 0, true)
    else if stopsAfter < 10 then (Ok(()), stopsAfter, false)
    else if destroyOk then (Ok(()), 10, false)
    else (Err(Libvirt), 10, true)
  }

  /** The libvirt state `up` and `shutdown_domain` act on for one VM: its
      domain definition (None when `lookup_by_name` finds none), whether it
      runs, and the domain XML saved for change detection. */
  class Host {
    var domain: Option<string>
    var running: bool
    var savedXml: Option<string>

    constructor (domain: Option<string>, running: bool, savedXml: Option<string>)
      ensures this.domain == domain && this.running == running && this.savedXml == savedXml
    {
      this.domain := domain;
      this.running := running;
      this.savedXml := savedXml;
    }

    /** Step 5 of `up` and the save after it: define a missing domain;
        when the saved XML differs from `xml`, refuse on a running domain
        and otherwise undefine and define it again; then save `xml`. The
        flags say whether undefining, defining and saving succeed. */
    method Configure(name: string, xml: string, undefineOk: bool, defineOk: bool, saveOk: bool)
      returns (r: Result<()>)
      modifies this
      ensures running == old(running)
      ensures savedXml == if r.Ok? then Some(xml) else old(savedXml)
      ensures old(domain).None? ==>
        r == (if !defineOk then Err(Libvirt) else if !saveOk then Err(Io) else Ok(())) &&
        domain == (if defineOk then Some(xml) else None)
      ensures old(domain).Some? && old(savedXml) == Some(xml) ==>
        r == (if saveOk then Ok(()) else Err(Io)) && domain == old(domain)
      ensures old(domain).Some? && old(savedXml) != Some(xml) && old(running) ==>
        r == Err(RequiresRestart(name)) && domain == old(domain)
      ensures old(domain).Some? && old(savedXml) != Some(xml) && !old(running) ==>
        r == (if !undefineOk || !defineOk then Err(Libvirt) else if !saveOk then Err(Io) else Ok(())) &&
        domain == (if !undefineOk then old(domain) else if defineOk then Some(xml) else None)
    {
      if domain.Some? {
        if savedXml != Some(xml) {
          if running {
            return Err(RequiresRestart(name));
          }
          if !undefineOk {
            return Err(Libvirt);
          }
          domain := None;
          if !defineOk {
            return Err(Libvirt);
          }
          domain := Some(xml);
        }
      } else {
        if !defineOk {
          return Err(Libvirt);
        }
        domain := Some(xml);
      }
      if !saveOk {
        return Err(Io);
      }
      savedXml := Some(xml);
      r := Ok(());
    }

    /** `shutdown_domain`: nothing when the domain is not running; else
        request a shutdown, poll up to ten times a second apart, and
        destroy it if it is still running. */
    method Shutdown(shutdownOk: bool, stopsAfter: nat, destroyOk: bool) returns (r: Result<()>, sleeps: nat)
      modifies this
      ensures domain == old(domain) && savedXml == old(savedXml)
      ensures (r, sleeps, running) == ShutdownOutcome(old(running), shutdownOk, stopsAfter, destroyOk)
    {
      sleeps := 0;
      if !running {
        return Ok(()), 0;
      }
      if !shutdownOk {
        return Err(Libvirt), 0;
      }
      var poll := 0;
      while poll < 10
        invariant 0 <= poll <= 10 && poll <= stopsAfter
        invariant sleeps == poll && running
        invariant domain == old(domain) && savedXml == old(savedXml)
      {
        if poll >= stopsAfter {
          running := false;
          return Ok(()), sleeps;
        }
        sleeps := sleeps + 1;
        poll := poll + 1;
      }
      if !destroyOk {
        return Err(Libvirt), sleeps;
      }
      running := false;
      r := Ok(());
    }
  }
}
