// The persisted VM lifecycle state and its reconstruction from artifacts.

module VmStates {

  /** Where a VM is in its lifecycle: what has been done so far. */
  datatype VmState =
    | Virgin        // nothing exists
    | ImageCached   // the shared base image is cached
    | Prepared      // overlay, seed and domain definition exist, never booted
    | PartialBoot   // booted, provisioning never completed
    | Provisioned   // provisioned at least once, currently stopped
    | Running       // running and reachable
    | RunningStale  // running, but the configuration changed since the domain was defined

  /** A terminal state ends a flow's event loop. */
  predicate IsTerminal(s: VmState)
    ensures IsTerminal(s) ==> !IsInteractiveWait(s)
  {
    s == Virgin
  }

  /** States in which the event loop parks and waits for client commands. */
  predicate IsInteractiveWait(s: VmState)
  {
    s == Running || s == RunningStale
  }

  /** The facts `detect_state` reads from the host: artifact files, the
      hypervisor's view of the domain, the saved domain XML and the image cache. */
  datatype Observation = Observation(
    overlayExists: bool,
    domainDefined: bool,
    domainActive: bool,   // `is_active()`, read only when the domain is defined
    markerExists: bool,
    xmlChanged: bool,     // `xml_has_changed(...)`, consulted only when running
    imageCached: bool)

  /** A running domain is a defined domain that reports itself active. */
  predicate IsRunning(o: Observation)
  {
    o.domainDefined && o.domainActive
  }

  /** Staleness is only computed for a running domain. */
  predicate IsStale(o: Observation)
  {
    IsRunning(o) && o.xmlChanged
  }

  /** The classification table of `detect_state`, arm by arm in match order. */
  function DetectState(o: Observation): (r: VmState)
    ensures r == RunningStale <==> IsRunning(o) && o.xmlChanged
    ensures r == Running <==> IsRunning(o) && !o.xmlChanged
    ensures r == Provisioned <==> !IsRunning(o) && o.overlayExists && o.markerExists
    ensures r == PartialBoot <==> !IsRunning(o) && o.overlayExists && !o.markerExists && o.domainDefined
    ensures r == Prepared <==>
      !IsRunning(o) && ((o.overlayExists && !o.markerExists && !o.domainDefined) || (!o.overlayExists && o.domainDefined))
    ensures r == ImageCached <==> !IsRunning(o) && !o.overlayExists && !o.domainDefined && o.imageCached
    ensures r == Virgin <==> !IsRunning(o) && !o.overlayExists && !o.domainDefined && !o.imageCached
  {
    var running := IsRunning(o);
    var stale := IsStale(o);
    match (o.overlayExists, running, o.markerExists, stale)
    case (_, true, _, true) => RunningStale
    case (_, true, _, false) => Running
    case (true, false, true, _) => Provisioned
    case (true, false, false, _) =>
      if o.domainDefined then PartialBoot else Prepared
    case _ =>
      if o.domainDefined then Prepared
      else if o.imageCached then ImageCached
      else Virgin
  }

  /** RunningStale is only ever detected for a domain that is defined and active. */
  lemma StaleImpliesRunning(o: Observation)
    ensures DetectState(o) == RunningStale ==> o.domainDefined && o.domainActive
    ensures DetectState(o) == RunningStale ==> IsStale(o)
  {
  }

  /** For a running domain the overlay, the marker and the image cache do not matter. */
  lemma RunningIgnoresArtifacts(o: Observation, p: Observation)
    requires IsRunning(o) && IsRunning(p) && o.xmlChanged == p.xmlChanged
    ensures DetectState(o) == DetectState(p)
    ensures IsInteractiveWait(DetectState(o))
  {
  }
}
