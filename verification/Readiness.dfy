/**
  Waiting for a launched server: the deadline loop, and what makes an inspected container ready. The
  clock, the interrupt flag, Podman and the health probe are oracles.
*/
module Readiness {
  import opened Wrappers
  import opened Text
  import opened Runtimes
  import opened Paths
  import opened Sessions
  import opened LaunchSpec

  const SERVER_READINESS_TIMEOUT: nat := 90_000
  const SERVER_READINESS_POLL_INTERVAL: nat := 200

  datatype EndpointContext = ManagedSessionContext | TransientRunContext

  datatype EndpointState = ReadyAt(endpoint: AttachEndpoint) | Pending

  datatype ServerEndpointWait = Ready(endpoint: AttachEndpoint) | Interrupted

  datatype WaitError = Exited | TimedOut

  /** A managed session says in its labels which endpoint it has; a transient run is asked for its port. */
  function DerivedEndpoint(runtime: RuntimeKind, context: EndpointContext, inspect: Inspect): Option<AttachEndpoint> {
    match context
    case ManagedSessionContext =>
      (match EndpointReport(inspect) case Ok(endpoint) => Some(endpoint) case Err(_) => None)
    case TransientRunContext => PublishedEndpoint(inspect, AttachSpec(runtime))
  }

  /** `inspect_server_endpoint` */
  function InspectServerEndpoint(runtime: RuntimeKind, context: EndpointContext, inspect: Inspect,
                                 healthy: AttachEndpoint -> bool): Result<EndpointState, WaitError>
  {
    if !inspect.running then Err(Exited)
    else match DerivedEndpoint(runtime, context, inspect)
      case Some(endpoint) => if healthy(endpoint) then Ok(ReadyAt(endpoint)) else Ok(Pending)
      case None => Ok(Pending)
  }

  /** What the loop can see, call by call: time may pass at any call, and passes at every sleep. */
  class Host {
    const interruptedAt: nat -> bool
    const inspectAt: nat -> Option<Inspect>
    const healthyAt: nat -> (AttachEndpoint -> bool)
    const elapsed: nat -> nat
    var time: nat
    var ticks: nat
    var polls: nat
    var inspections: nat

    constructor (interruptedAt: nat -> bool, inspectAt: nat -> Option<Inspect>,
                 healthyAt: nat -> (AttachEndpoint -> bool), elapsed: nat -> nat)
      ensures this.interruptedAt == interruptedAt && this.inspectAt == inspectAt
      ensures this.healthyAt == healthyAt && this.elapsed == elapsed && polls == inspections == 0
    {
      this.interruptedAt, this.inspectAt := interruptedAt, inspectAt;
      this.healthyAt, this.elapsed := healthyAt, elapsed;
      time, ticks, polls, inspections := 0, 0, 0, 0;
    }

    method Now() returns (now: nat)
      modifies this`time, this`ticks
      ensures now == time >= old(time)
    {
      time := time + elapsed(ticks);
      ticks := ticks + 1;
      now := time;
    }

    method Sleep(duration: nat)
      modifies this`time, this`ticks
      ensures time >= old(time) + duration
    {
      time := time + duration + elapsed(ticks);
      ticks := ticks + 1;
    }

    method IsInterrupted() returns (interrupted: bool)
      modifies this`polls
      ensures interrupted == interruptedAt(old(polls)) && polls == old(polls) + 1
    {
      interrupted := interruptedAt(polls);
      polls := polls + 1;
    }

    method InspectContainer() returns (inspect: Option<Inspect>)
      modifies this`inspections, this`time, this`ticks
      ensures inspect == inspectAt(old(inspections)) && inspections == old(inspections) + 1
      ensures time >= old(time)
    {
      inspect := inspectAt(inspections);
      inspections := inspections + 1;
      var _ := Now();
    }

    /** This inspection failed, or it found a running server that has no healthy endpoint yet. */
    predicate StillPending(runtime: RuntimeKind, context: EndpointContext, k: nat) {
      match inspectAt(k)
      case None => true
      case Some(inspect) =>
        inspect.running && match DerivedEndpoint(runtime, context, inspect)
                           case None => true
                           case Some(endpoint) => !healthyAt(k)(endpoint)
    }

    /**
      `wait_with`: the flag is looked at first, then the clock, then the container. The loop ends, and
      its result is that of its last look: everything before it was pending and not interrupted.
    */
    method WaitForServer(runtime: RuntimeKind, context: EndpointContext, timeout: nat, pollInterval: nat)
      returns (r: Result<ServerEndpointWait, WaitError>)
      requires pollInterval > 0 && polls == inspections == 0
      modifies this`time, this`ticks, this`polls, this`inspections
      ensures inspections <= MaxInspections(timeout, pollInterval)
      ensures forall k | 0 <= k < polls - 1 :: !interruptedAt(k)
      ensures forall k | 0 <= k < inspections - 1 :: StillPending(runtime, context, k)
      ensures match r
              case Ok(Ready(endpoint)) =>
                && inspections == polls > 0 && inspectAt(inspections - 1).Some?
                && var inspect := inspectAt(inspections - 1).value;
                   inspect.running && DerivedEndpoint(runtime, context, inspect) == Some(endpoint)
                   && healthyAt(inspections - 1)(endpoint)
              case Ok(Interrupted) =>
                && polls == inspections + 1 && interruptedAt(polls - 1)
                && (inspections > 0 ==> StillPending(runtime, context, inspections - 1))
              case Err(Exited) =>
                && inspections == polls > 0
                && inspectAt(inspections - 1).Some? && !inspectAt(inspections - 1).value.running
              case Err(TimedOut) =>
                && polls == inspections + 1 && !interruptedAt(polls - 1) && time >= old(time) + timeout
                && (inspections > 0 ==> StillPending(runtime, context, inspections - 1))
    {
      hide InspectServerEndpoint, PollTime, MaxInspections, DerivedEndpoint;
      NoPollTime(pollInterval);
      var start := Now();
      var deadline := start + timeout;
      while true
        invariant polls == inspections
        invariant time >= start + PollTime(inspections, pollInterval)
        invariant inspections <= MaxInspections(timeout, pollInterval)
        invariant forall k | 0 <= k < polls :: !interruptedAt(k)
        invariant forall k | 0 <= k < inspections :: StillPending(runtime, context, k)
        decreases MaxInspections(timeout, pollInterval) - inspections
      {
        var interrupted := IsInterrupted();
        if interrupted {
          return Ok(Interrupted);
        }
        var now := Now();
        if now >= deadline {
          return Err(TimedOut);
        }
        InspectionFits(inspections, timeout, pollInterval, now - start);
        PollTimeStep(inspections, pollInterval);
        var inspect := InspectContainer();
        if inspect.Some? {
          var state := InspectServerEndpoint(runtime, context, inspect.value, healthyAt(inspections - 1));
          DecisiveInspection(runtime, context, inspect.value, healthyAt(inspections - 1));
          match state {
            case Err(error) => return Err(error);
            case Ok(ReadyAt(endpoint)) => return Ok(Ready(endpoint));
            case Ok(Pending) =>
          }
        }
        Sleep(pollInterval);
      }
    }
  }

  /** The timeout divided by the poll interval, rounded up. */
  function MaxInspections(timeout: nat, pollInterval: nat): nat
    requires pollInterval > 0
  {
    (timeout + pollInterval - 1) / pollInterval
  }

  /** The least time that this many rounds take. */
  function PollTime(rounds: nat, pollInterval: nat): nat {
    rounds * pollInterval
  }

  lemma NoPollTime(pollInterval: nat)
    ensures PollTime(0, pollInterval) == 0
  {
  }

  lemma PollTimeStep(rounds: nat, pollInterval: nat)
    ensures PollTime(rounds + 1, pollInterval) == PollTime(rounds, pollInterval) + pollInterval
  {
  }

  /** Before the deadline there is room for one more inspection. */
  lemma InspectionFits(inspections: nat, timeout: nat, pollInterval: nat, passed: nat)
    requires pollInterval > 0 && passed < timeout && passed >= PollTime(inspections, pollInterval)
    ensures inspections + 1 <= MaxInspections(timeout, pollInterval)
  {
    var total := timeout + pollInterval - 1;
    assert PollTime(inspections + 1, pollInterval) <= total by {
      PollTimeStep(inspections, pollInterval);
    }
    QuotientAtLeast(inspections + 1, total, pollInterval);
  }

  lemma QuotientAtLeast(n: nat, total: nat, divisor: nat)
    requires divisor > 0 && n * divisor <= total
    ensures n <= total / divisor
  {
    var q := total / divisor;
    assert total < q * divisor + divisor;
    assert (n - q) * divisor < divisor;
    assert n - q >= 1 ==> (n - q) * divisor >= divisor;
  }

  /** With the constants of the program a launch is looked at no more than 450 times. */
  lemma ProductionInspections()
    ensures MaxInspections(SERVER_READINESS_TIMEOUT, SERVER_READINESS_POLL_INTERVAL) == 450
  {
  }

  /** What one inspection means for the wait. */
  lemma DecisiveInspection(runtime: RuntimeKind, context: EndpointContext, inspect: Inspect,
                           healthy: AttachEndpoint -> bool)
    ensures var state := InspectServerEndpoint(runtime, context, inspect, healthy);
            var endpoint := DerivedEndpoint(runtime, context, inspect);
            && (state == Err(Exited) <==> !inspect.running)
            && (forall ready :: state == Ok(ReadyAt(ready)) <==>
                                  inspect.running && endpoint == Some(ready) && healthy(ready))
            && (state == Ok(Pending) <==> inspect.running && (endpoint.Some? ==> !healthy(endpoint.value)))
            && state != Err(TimedOut)
  {
  }

  /** The runtime that the labels of a server name, with the endpoint labels that belong to it. */
  predicate LabelsName(labels: Labels, runtime: RuntimeKind) {
    && Label(labels, LabelRuntime) == Some(RuntimeName(runtime))
    && Label(labels, LabelAttachScheme) == Some(AttachSpec(runtime).scheme)
    && Label(labels, LabelContainerPort).Some?
    && ParseUnsigned(Label(labels, LabelContainerPort).value, U16_MAX) == Some(AttachSpec(runtime).containerPort)
    && Label(labels, LabelContainerListenIp) == Some(AttachSpec(runtime).containerListenIp)
  }

  /**
    Where an endpoint comes from: a transient run has the port published for its own runtime, a managed
    session the one published for the runtime that its labels name, and none if they do not fit.
  */
  lemma DerivedEndpointIff(runtime: RuntimeKind, inspect: Inspect, endpoint: AttachEndpoint)
    ensures DerivedEndpoint(runtime, TransientRunContext, inspect) == Some(endpoint) <==>
              PublishedEndpoint(inspect, AttachSpec(runtime)) == Some(endpoint)
    ensures DerivedEndpoint(runtime, ManagedSessionContext, inspect) == Some(endpoint) <==>
              exists named :: LabelsName(inspect.labels, named)
                              && PublishedEndpoint(inspect, AttachSpec(named)) == Some(endpoint)
  {
    hide PublishedEndpoint, ParseUnsigned;
    if EndpointReport(inspect).Ok? {
      assert LabelsName(inspect.labels, AttachRuntime(inspect.labels).value);
    }
    if named :| LabelsName(inspect.labels, named) && PublishedEndpoint(inspect, AttachSpec(named)) == Some(endpoint) {
      assert AttachRuntime(inspect.labels) == Ok(named);
    }
  }

  /** A launched server is found at the same endpoint as a transient run and as a managed session. */
  lemma LaunchedEndpointIsDerived(mode: RunMode, runtime: RuntimeKind, workspace: Workspace, contextHash: string,
                                  serverArgs: Option<string>, inspect: Inspect, context: EndpointContext,
                                  hash12: Hash12, hostPort: nat)
    requires !mode.Foreground? && IsResolved(workspace, hash12) && hostPort <= U16_MAX
    requires var spec := CreateSpecFor(mode, runtime, workspace, contextHash, [], [], [], serverArgs);
             Carries(inspect.labels, spec.labels) && PortsArePublished(inspect.ports, spec.publishedPorts, hostPort)
    requires mode.TransientServer? ==> LabelManaged !in inspect.labels
    ensures DerivedEndpoint(runtime, context, inspect) ==
            Some(AttachEndpoint(if runtime == Codex then "ws" else "http", "127.0.0.1", hostPort))
  {
    var endpoint := AttachEndpoint(if runtime == Codex then "ws" else "http", "127.0.0.1", hostPort);
    LaunchedLabelsAreSound(mode, runtime, workspace, contextHash, serverArgs, inspect.labels, hash12);
    LaunchedEndpoint(mode, runtime, workspace, contextHash, [], [], [], serverArgs, inspect, hostPort);
    DerivedEndpointIff(runtime, inspect, endpoint);
    hide PublishedEndpoint, DerivedEndpoint, Label, ParseUnsigned, AttachSpec, CreateSpecFor, PortsArePublished,
         Carries, IsResolved, IsOrDescendant, IsMarked;
    assert LabelsName(inspect.labels, runtime);
  }

  /** A managed session that is ready is one that the labels alone describe: its endpoint is that of `connect`. */
  lemma ReadySessionIsEndpointOfRecord(runtime: RuntimeKind, inspect: Inspect, healthy: AttachEndpoint -> bool,
                                       endpoint: AttachEndpoint, id: string, name: string, hash12: Hash12,
                                       probe: GitRootProbe)
    requires InspectServerEndpoint(runtime, ManagedSessionContext, inspect, healthy) == Ok(ReadyAt(endpoint))
    ensures BuildSessionRecord(id, name, Managed, inspect, hash12, probe).endpoint == Some(endpoint)
    ensures inspect.running && healthy(endpoint)
  {
    hide DeriveStatus;
  }
}
