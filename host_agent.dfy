// The host's side of the agent connection: waiting for the guest agent to
// answer a ping, turning the result of a `provision` call into the host's
// error type, binding the port-forward listeners, and the 2-byte header that
// tells the guest which port a forwarded connection is for. The RPC channel,
// the clock and the socket binds are oracles.

module HostAgent {
  import opened Wrappers
  import opened AgentProtocol
  import opened Strings
  import opened Bytes
  import GuestAgent

  const RpcPort: nat := 2222
  const ForwardPort: nat := 2223
  const AgentTimeoutMs: nat := 120 * 1000
  const RetryIntervalMs: nat := 500

  /** The most pings that can fail before the deadline passes. */
  const MaxRetries: nat := AgentTimeoutMs / RetryIntervalMs

  /** The clock reading at each failed ping, in milliseconds since the deadline
      was set: every sleep between two pings lasts at least the retry interval. */
  ghost predicate SleepsAdvance(clock: nat -> nat)
  {
    forall i: nat :: clock(i) + RetryIntervalMs <= clock(i + 1)
  }

  /** Every ping before attempt `n` failed while the deadline had not passed. */
  ghost predicate RetriedBefore(ping: nat -> bool, clock: nat -> nat, n: nat)
  {
    forall j: nat | j < n :: !ping(j) && clock(j) < AgentTimeoutMs
  }

  /** `wait_for_agent`: ping until one succeeds; after a failure, retry while
      the clock is before the deadline and give up with `AgentTimeout` once it
      is not. `ping(i)` is the outcome of the i-th ping and `clock(i)` the
      instant its failure is examined. Returns the index of the last ping. */
  method WaitForAgent(ping: nat -> bool, clock: nat -> nat) returns (r: Result<()>, n: nat)
    requires SleepsAdvance(clock)
    ensures RetriedBefore(ping, clock, n)
    ensures r.Ok? <==> ping(n)
    ensures r.Err? ==> r.error == AgentTimeout && clock(n) >= AgentTimeoutMs
    ensures n <= MaxRetries
  {
    n := 0;
    while true
      invariant RetriedBefore(ping, clock, n)
      decreases AgentTimeoutMs - clock(n)
    {
      if ping(n) {
        r := Ok(());
        break;
      }
      if clock(n) >= AgentTimeoutMs {
        r := Err(AgentTimeout);
        break;
      }
      assert clock(n) + RetryIntervalMs <= clock(n + 1);
      n := n + 1;
    }
    RetriesBounded(ping, clock, n);
  }

  lemma {:induction false} ClockAfterRetries(clock: nat -> nat, n: nat)
    requires SleepsAdvance(clock)
    ensures clock(n) >= RetryIntervalMs * n
  {
    if n > 0 {
      ClockAfterRetries(clock, n - 1);
      assert clock(n - 1) + RetryIntervalMs <= clock(n);
    }
  }

  /** However the clock runs, at most 240 pings fail before the 120-second
      deadline, so the loop makes at most 241 pings. */
  lemma RetriesBounded(ping: nat -> bool, clock: nat -> nat, n: nat)
    requires SleepsAdvance(clock)
    requires RetriedBefore(ping, clock, n)
    ensures n <= MaxRetries
  {
    if n > 0 {
      ClockAfterRetries(clock, n - 1);
      assert clock(n - 1) < AgentTimeoutMs;
    }
  }

  /** How the spawned `provision` call ended: the task panicked, the RPC
      failed, or the guest returned its result. */
  datatype CallOutcome = Panicked | RpcFailed | Returned(result: ProvisionResult)

  /** The error `run_provision` makes of the call's outcome. */
  function ProvisionVerdict(outcome: CallOutcome): (r: Result<()>)
    ensures !outcome.Returned? ==> r == Err(Io)
    ensures r.Ok? <==> outcome.Returned? && outcome.result.success
    ensures (r.Err? && r.error.ProvisionFailed?) <==> (outcome.Returned? && !outcome.result.success)
    ensures r.Err? && r.error.ProvisionFailed? ==> r.error.script == outcome.result.failedScript
  {
    match outcome
    case Panicked => Err(Io)
    case RpcFailed => Err(Io)
    case Returned(result) =>
      if !result.success then Err(ProvisionFailed(result.failedScript)) else Ok(())
  }

  /** `run_provision`: hand every streamed message to `on_log` in the order it
      arrives, and only then look at how the call ended. `logged` is the
      sequence of messages `on_log` received. */
  method RunProvision(messages: seq<string>, outcome: CallOutcome) returns (r: Result<()>, logged: seq<string>)
    ensures logged == messages
    ensures r == ProvisionVerdict(outcome)
  {
    logged := [];
    var i := 0;
    while i < |messages|
      invariant 0 <= i <= |messages|
      invariant logged == messages[..i]
    {
      logged := logged + [messages[i]];
      i := i + 1;
    }
    r := ProvisionVerdict(outcome);
  }

  type Port = x: nat | x < 65536

  /** A configured forward from a host port to a guest port; the bind address
      it listens on comes from the configuration and is a parameter here. */
  datatype PortForward = PortForward(host: Port, guest: Port)

  /** A started forwarder: the listener's address and the guest port each
      accepted connection is sent to. */
  datatype Forwarder = Forwarder(address: string, guestPort: Port)

  /** `format!("{}:{}", pf.bind_addr(), pf.host)`. */
  function ListenAddress(bindAddr: PortForward -> string, pf: PortForward): string
  {
    bindAddr(pf) + ":" + NatToString(pf.host)
  }

  /** `start_port_forwards`: bind one listener per forward, in order, and
      return one handle each; the first bind that fails aborts with an I/O
      error. `bindOk(i)` is the outcome of the i-th bind. `attempts` is the
      number of binds made. */
  method StartPortForwards(ports: seq<PortForward>, bindAddr: PortForward -> string, bindOk: nat -> bool)
    returns (r: Result<seq<Forwarder>>, attempts: nat)
    ensures r.Ok? <==> forall i | 0 <= i < |ports| :: bindOk(i)
    ensures r.Err? ==>
              r.error == Io && 0 < attempts <= |ports| && !bindOk(attempts - 1) &&
              forall i | 0 <= i < attempts - 1 :: bindOk(i)
    ensures r.Ok? ==>
              attempts == |ports| && |r.value| == |ports| &&
              forall i | 0 <= i < |ports| :: r.value[i] == Forwarder(ListenAddress(bindAddr, ports[i]), ports[i].guest)
  {
    var handles: seq<Forwarder> := [];
    attempts := 0;
    while attempts < |ports|
      invariant 0 <= attempts <= |ports| && |handles| == attempts
      invariant forall i | 0 <= i < attempts :: bindOk(i)
      invariant forall i | 0 <= i < attempts :: handles[i] == Forwarder(ListenAddress(bindAddr, ports[i]), ports[i].guest)
    {
      if !bindOk(attempts) {
        return Err(Io), attempts + 1;
      }
      handles := handles + [Forwarder(ListenAddress(bindAddr, ports[attempts]), ports[attempts].guest)];
      attempts := attempts + 1;
    }
    r := Ok(handles);
  }

  /** `proxy_connection`: the bytes sent on the vsock stream, the guest port as
      a big-endian `u16` followed by the proxied bytes. */
  function ProxyStream(guestPort: Port, payload: seq<byte>): (r: seq<byte>)
    ensures |r| == 2 + |payload| && r[2..] == payload
  {
    Pow256Widths();
    BigEndian(guestPort, 2) + payload
  }

  /** The guest's `read_u16` of the header gives back the port the host wrote,
      whatever bytes follow it. */
  lemma PortHeaderRoundTrip(guestPort: Port, payload: seq<byte>)
    ensures GuestAgent.ReadPortHeader(ProxyStream(guestPort, payload)) == Some(guestPort as nat)
  {
    Pow256Widths();
    var s := ProxyStream(guestPort, payload);
    assert s[..2] == BigEndian(guestPort, 2);
    BigEndianRoundTrip(guestPort, 2);
  }
}
