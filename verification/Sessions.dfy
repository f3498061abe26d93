/**
  Session records: the labels written at launch, the checks that a later discovery makes of them,
  the status that follows, and what `connect` accepts. Label names are an enumeration here.
*/
module Sessions {
  import opened Wrappers
  import opened Text
  import opened Runtimes
  import opened Paths

  datatype LabelName =
    | LabelManaged | LabelContainerKind | LabelSchema
    | LabelGitRoot | LabelGitRootHash | LabelRuntime | LabelImage | LabelLaunchDirectory | LabelLogicalName
    | LabelAttachScheme | LabelContainerPort | LabelContainerListenIp | LabelServerArgs
    | OtherLabel(name: string)

  type Labels = map<LabelName, string>

  const MANAGED_VALUE := "true"
  const MANAGED_SESSION_VALUE := "managed-session"
  const TRANSIENT_RUN_VALUE := "transient-run"
  const SCHEMA_VALUE := "1"
  const NIX_CACHE_DESTINATION := "/home/user"

  /** The first twelve hex digits of the SHA-256 of a git root. */
  type Hash12 = string -> string

  // ---------------------------------------------------------------- what Podman reports

  datatype Mount = Mount(isVolume: bool, destination: string)

  datatype PortBinding = PortBinding(hostIp: Option<string>, hostPort: Option<string>)

  datatype Inspect = Inspect(
    labels: Labels,
    running: bool,
    mounts: seq<Mount>,
    ports: map<string, Option<seq<PortBinding>>>)

  datatype AttachEndpoint = AttachEndpoint(scheme: string, hostIp: string, hostPort: nat)

  /** What the host says about a git root. */
  datatype GitRootProbe = GitRootProbe(
    canonicalize: string -> Option<string>,
    isDirectory: string -> bool,
    hasGitMarker: string -> bool,
    showToplevel: string -> Option<string>)

  // ---------------------------------------------------------------- labels

  /** A label counts only if it is not blank. */
  function Label(labels: Labels, name: LabelName): Option<string> {
    if name in labels && !IsBlank(labels[name]) then Some(labels[name]) else None
  }

  function KindFromLabels(labels: Labels): Option<ContainerKind> {
    if Label(labels, LabelManaged) == Some(MANAGED_VALUE) then Some(Managed)
    else if Label(labels, LabelContainerKind) == Some(TRANSIENT_RUN_VALUE) then Some(Run)
    else None
  }

  predicate IsManagedContainer(labels: Labels) {
    LabelManaged in labels && labels[LabelManaged] == "true"
  }

  predicate IsTransientContainer(labels: Labels) {
    && !IsManagedContainer(labels)
    && LabelContainerKind in labels && labels[LabelContainerKind] == "transient-run"
  }

  /** Containers without one of the two markers are not agentbox's. */
  lemma KindFromLabelsIff(labels: Labels)
    ensures KindFromLabels(labels) == Some(Managed) <==> IsManagedContainer(labels)
    ensures KindFromLabels(labels) == Some(Run) <==> IsTransientContainer(labels)
  {
    assert !IsWhitespace(MANAGED_VALUE[0]) && !IsWhitespace(TRANSIENT_RUN_VALUE[0]);
  }

  datatype SessionFailure =
    | MissingRequiredLabels | DriftedGitRootHash | MissingCacheMount | NotRunning
    | UnsupportedRuntimeLabel | MalformedLaunchDirectory | MalformedEndpointLabels | MissingPublishedAttachPort

  datatype SessionStatus = Running | Orphaned | Duplicate | Failed(failure: Option<SessionFailure>)

  datatype IdentityLabels = IdentityLabels(root: string, hash: string)

  datatype RequiredLabels = RequiredLabels(identity: IdentityLabels, launchDirectory: string)

  predicate HasContainerMarker(labels: Labels) {
    match KindFromLabels(labels)
    case Some(Managed) => Label(labels, LabelSchema) == Some(SCHEMA_VALUE)
    case Some(Run) => true
    case None => false
  }

  /** A managed session says which schema its labels follow; a transient run need not. */
  predicate IsMarked(labels: Labels) {
    || (IsManagedContainer(labels) && LabelSchema in labels && labels[LabelSchema] == "1")
    || IsTransientContainer(labels)
  }

  lemma MarkerIff(labels: Labels)
    ensures HasContainerMarker(labels) <==> IsMarked(labels)
  {
    KindFromLabelsIff(labels);
    assert !IsWhitespace(SCHEMA_VALUE[0]);
  }

  /** `SessionIdentityLabels::validated` */
  function ValidatedIdentity(labels: Labels, hash12: Hash12): Result<IdentityLabels, SessionFailure> {
    if !HasContainerMarker(labels) then Err(MissingRequiredLabels)
    else match (Label(labels, LabelGitRoot), Label(labels, LabelGitRootHash))
      case (Some(root), Some(hash)) =>
        if hash == hash12(root) then Ok(IdentityLabels(root, hash)) else Err(DriftedGitRootHash)
      case _ => Err(MissingRequiredLabels)
  }

  /** `RequiredSessionLabels::from_validated_identity` */
  function RequiredFrom(labels: Labels, identity: Result<IdentityLabels, SessionFailure>)
    : Result<RequiredLabels, SessionFailure>
  {
    match identity
    case Err(failure) => Err(failure)
    case Ok(identity) =>
      match (Label(labels, LabelImage), Label(labels, LabelLaunchDirectory), Label(labels, LabelLogicalName))
      case (Some(_), Some(directory), Some(_)) =>
        if IsAbsolute(directory) && IsOrDescendant(directory, identity.root)
        then Ok(RequiredLabels(identity, directory)) else Err(MalformedLaunchDirectory)
      case _ => Err(MissingRequiredLabels)
  }

  /** `AttachLabels::from_session_labels`: the first label that is missing or differs decides. */
  function AttachRuntime(labels: Labels): Result<RuntimeKind, SessionFailure> {
    match Label(labels, LabelRuntime)
    case None => Err(MissingRequiredLabels)
    case Some(name) =>
      match ParseRuntime(name)
      case None => Err(UnsupportedRuntimeLabel)
      case Some(runtime) =>
        var attach := AttachSpec(runtime);
        match Label(labels, LabelAttachScheme)
        case None => Err(MissingRequiredLabels)
        case Some(scheme) =>
          if scheme != attach.scheme then Err(MalformedEndpointLabels)
          else match Label(labels, LabelContainerPort)
            case None => Err(MissingRequiredLabels)
            case Some(port) =>
              if ParseUnsigned(port, U16_MAX) != Some(attach.containerPort) then Err(MalformedEndpointLabels)
              else match Label(labels, LabelContainerListenIp)
                case None => Err(MissingRequiredLabels)
                case Some(ip) => if ip == attach.containerListenIp then Ok(runtime) else Err(MalformedEndpointLabels)
  }

  // ---------------------------------------------------------------- endpoint

  function FirstPublished(bindings: seq<PortBinding>): Option<PortBinding> {
    if bindings == [] then None
    else if bindings[0].hostPort.Some? then Some(bindings[0])
    else FirstPublished(bindings[1..])
  }

  /** `published_attach_endpoint`: the first binding with a host port; None too if that port is malformed. */
  function PublishedEndpoint(inspect: Inspect, attach: RuntimeAttachSpec): Option<AttachEndpoint> {
    var key := TcpPortKey(attach);
    if key !in inspect.ports || inspect.ports[key].None? then None
    else match FirstPublished(inspect.ports[key].value)
      case None => None
      case Some(binding) =>
        if binding.hostPort.None? then None
        else match ParseUnsigned(binding.hostPort.value, U16_MAX)
          case None => None
          case Some(port) =>
            var ip := if binding.hostIp.Some? && !IsBlank(binding.hostIp.value) then binding.hostIp.value
                      else DEFAULT_HOST_ATTACH_IP;
            Some(AttachEndpoint(attach.scheme, ip, port))
  }

  lemma {:induction false} FirstPublishedIsFirst(bindings: seq<PortBinding>)
    ensures match FirstPublished(bindings)
            case None => forall i :: 0 <= i < |bindings| ==> bindings[i].hostPort.None?
            case Some(binding) =>
              exists i :: 0 <= i < |bindings| && bindings[i] == binding && binding.hostPort.Some?
                          && forall j :: 0 <= j < i ==> bindings[j].hostPort.None?
  {
    if bindings != [] && bindings[0].hostPort.None? {
      var rest := bindings[1..];
      FirstPublishedIsFirst(rest);
      if FirstPublished(rest).Some? {
        var i :| 0 <= i < |rest| && rest[i] == FirstPublished(rest).value
                 && forall j :: 0 <= j < i ==> rest[j].hostPort.None?;
        assert bindings[i + 1] == rest[i];
        assert forall j :: 0 < j < i + 1 ==> bindings[j] == rest[j - 1];
      } else {
        assert forall j :: 0 < j < |bindings| ==> bindings[j] == rest[j - 1];
      }
    }
  }

  /** The binding leads to this endpoint. */
  ghost predicate LeadsTo(binding: PortBinding, attach: RuntimeAttachSpec, endpoint: AttachEndpoint) {
    && endpoint.scheme == attach.scheme
    && binding.hostPort.Some? && IsNumber(binding.hostPort.value, endpoint.hostPort, U16_MAX)
    && if binding.hostIp.Some? && !IsBlank(binding.hostIp.value) then endpoint.hostIp == binding.hostIp.value
       else endpoint.hostIp == "127.0.0.1"
  }

  /**
    The endpoint is that of the first binding with a host port, if that port is a number of sixteen bits;
    nothing after it is looked at, and an address that is missing or blank is the loopback address.
  */
  lemma PublishedEndpointIff(inspect: Inspect, attach: RuntimeAttachSpec, endpoint: AttachEndpoint)
    ensures PublishedEndpoint(inspect, attach) == Some(endpoint) <==>
              && TcpPortKey(attach) in inspect.ports && inspect.ports[TcpPortKey(attach)].Some?
              && var bindings := inspect.ports[TcpPortKey(attach)].value;
                 exists i :: 0 <= i < |bindings| && LeadsTo(bindings[i], attach, endpoint)
                             && forall j :: 0 <= j < i ==> bindings[j].hostPort.None?
  {
    hide ParseUnsigned, TcpPortKey, IsNumber, IsBlank;
    var key := TcpPortKey(attach);
    if key in inspect.ports && inspect.ports[key].Some? {
      var bindings := inspect.ports[key].value;
      FirstPublishedIsFirst(bindings);
      forall i | 0 <= i < |bindings| && bindings[i].hostPort.Some?
        ensures ParseUnsigned(bindings[i].hostPort.value, U16_MAX) == Some(endpoint.hostPort) <==>
                  IsNumber(bindings[i].hostPort.value, endpoint.hostPort, U16_MAX)
      {
        ParseUnsignedIff(bindings[i].hostPort.value, endpoint.hostPort, U16_MAX);
      }
    }
  }

  /** `AttachEndpointReport::from_label_report_and_inspect` */
  function EndpointReport(inspect: Inspect): Result<AttachEndpoint, SessionFailure> {
    match AttachRuntime(inspect.labels)
    case Err(failure) => Err(failure)
    case Ok(runtime) =>
      match PublishedEndpoint(inspect, AttachSpec(runtime))
      case None => Err(MissingPublishedAttachPort)
      case Some(endpoint) => Ok(endpoint)
  }

  // ---------------------------------------------------------------- status

  predicate HasVolumeMount(mounts: seq<Mount>, destination: string) {
    exists i :: 0 <= i < |mounts| && mounts[i].isVolume && mounts[i].destination == destination
  }

  /** `git_root_is_orphaned` */
  predicate IsOrphaned(root: string, probe: GitRootProbe) {
    if probe.canonicalize(root) != Some(root) then true
    else if !probe.isDirectory(root) then true
    else if probe.hasGitMarker(root) then false
    else match probe.showToplevel(root)
      case None => true
      case Some(toplevel) => probe.canonicalize(toplevel) != Some(root)
  }

  /** `derive_status` */
  function DeriveStatus(inspect: Inspect, hash12: Hash12, probe: GitRootProbe): SessionStatus {
    match RequiredFrom(inspect.labels, ValidatedIdentity(inspect.labels, hash12))
    case Err(failure) => Failed(Some(failure))
    case Ok(required) =>
      match EndpointReport(inspect)
      case Err(failure) => Failed(Some(failure))
      case Ok(_) =>
        if !HasVolumeMount(inspect.mounts, NIX_CACHE_DESTINATION) then Failed(Some(MissingCacheMount))
        else if !inspect.running then Failed(Some(NotRunning))
        else if IsOrphaned(required.identity.root, probe) then Orphaned
        else Running
  }

  datatype SessionRecord = SessionRecord(
    containerId: string,
    containerName: string,
    containerKind: ContainerKind,
    labels: Labels,
    endpoint: Option<AttachEndpoint>,
    containerRunning: bool,
    status: SessionStatus)
  {
    function Root(): Option<string> { Label(labels, LabelGitRoot) }

    function Hash(): Option<string> { Label(labels, LabelGitRootHash) }

    function Runtime(): Option<RuntimeKind> {
      match Label(labels, LabelRuntime) case None => None case Some(name) => ParseRuntime(name)
    }

    function LaunchDirectory(): Option<string> { Label(labels, LabelLaunchDirectory) }

    predicate IsConnectableCandidate() {
      containerKind == Managed && status == Running && endpoint.Some? && Root().Some?
    }
  }

  /** `build_session_record` */
  function BuildSessionRecord(id: string, name: string, kind: ContainerKind, inspect: Inspect,
                              hash12: Hash12, probe: GitRootProbe): SessionRecord
  {
    SessionRecord(id, name, kind, inspect.labels,
                  match EndpointReport(inspect) case Ok(endpoint) => Some(endpoint) case Err(_) => None,
                  inspect.running, DeriveStatus(inspect, hash12, probe))
  }

  /** Every label that a discovery looks at is there and says what the runtime requires. */
  predicate LabelsAreSound(labels: Labels, hash12: Hash12, root: string, directory: string, runtime: RuntimeKind) {
    && IsMarked(labels)
    && Label(labels, LabelGitRoot) == Some(root) && Label(labels, LabelGitRootHash) == Some(hash12(root))
    && Label(labels, LabelImage).Some? && Label(labels, LabelLogicalName).Some?
    && Label(labels, LabelLaunchDirectory) == Some(directory)
    && IsAbsolute(directory) && IsOrDescendant(directory, root)
    && Label(labels, LabelRuntime) == Some(RuntimeName(runtime))
    && Label(labels, LabelAttachScheme) == Some(AttachSpec(runtime).scheme)
    && Label(labels, LabelContainerPort).Some?
    && ParseUnsigned(Label(labels, LabelContainerPort).value, U16_MAX) == Some(AttachSpec(runtime).containerPort)
    && Label(labels, LabelContainerListenIp) == Some(AttachSpec(runtime).containerListenIp)
  }

  /** The root is still there, under this very path, and still the root of a git working tree. */
  predicate IsLiveRoot(root: string, probe: GitRootProbe) {
    && probe.canonicalize(root) == Some(root) && probe.isDirectory(root)
    && (probe.hasGitMarker(root)
        || (probe.showToplevel(root).Some? && probe.canonicalize(probe.showToplevel(root).value) == Some(root)))
  }

  /** A session is running exactly if every check passes, whichever check comes first. */
  lemma RunningIff(inspect: Inspect, hash12: Hash12, probe: GitRootProbe)
    ensures DeriveStatus(inspect, hash12, probe) == Running <==>
              exists root, directory, runtime ::
                && LabelsAreSound(inspect.labels, hash12, root, directory, runtime)
                && PublishedEndpoint(inspect, AttachSpec(runtime)).Some?
                && HasVolumeMount(inspect.mounts, NIX_CACHE_DESTINATION)
                && inspect.running && IsLiveRoot(root, probe)
  {
    var labels := inspect.labels;
    MarkerIff(labels);
    hide HasContainerMarker, IsMarked, ParseUnsigned, PublishedEndpoint;
    if DeriveStatus(inspect, hash12, probe) == Running {
      var root := Label(labels, LabelGitRoot).value;
      var directory := Label(labels, LabelLaunchDirectory).value;
      var runtime := AttachRuntime(labels).value;
      assert LabelsAreSound(labels, hash12, root, directory, runtime);
    }
  }

  /** What is wrong with the labels of a container, if anything: the first of the checks that fails. */
  function FirstLabelFailure(labels: Labels, hash12: Hash12): Option<SessionFailure> {
    var root, hash := Label(labels, LabelGitRoot), Label(labels, LabelGitRootHash);
    var directory, runtime := Label(labels, LabelLaunchDirectory), Label(labels, LabelRuntime);
    if !IsMarked(labels) || root.None? || hash.None? then Some(MissingRequiredLabels)
    else if hash.value != hash12(root.value) then Some(DriftedGitRootHash)
    else if Label(labels, LabelImage).None? || directory.None? || Label(labels, LabelLogicalName).None?
    then Some(MissingRequiredLabels)
    else if !IsAbsolute(directory.value) || !IsOrDescendant(directory.value, root.value)
    then Some(MalformedLaunchDirectory)
    else if runtime.None? then Some(MissingRequiredLabels)
    else if runtime.value != "opencode" && runtime.value != "codex" then Some(UnsupportedRuntimeLabel)
    else FirstEndpointLabelFailure(labels, AttachSpec(if runtime.value == "codex" then Codex else Opencode))
  }

  /** The endpoint labels are looked at in this order: a missing one and a wrong one are different failures. */
  function FirstEndpointLabelFailure(labels: Labels, attach: RuntimeAttachSpec): Option<SessionFailure> {
    var scheme, port := Label(labels, LabelAttachScheme), Label(labels, LabelContainerPort);
    var ip := Label(labels, LabelContainerListenIp);
    if scheme.None? then Some(MissingRequiredLabels)
    else if scheme.value != attach.scheme then Some(MalformedEndpointLabels)
    else if port.None? then Some(MissingRequiredLabels)
    else if ParseUnsigned(port.value, U16_MAX) != Some(attach.containerPort) then Some(MalformedEndpointLabels)
    else if ip.None? then Some(MissingRequiredLabels)
    else if ip.value != attach.containerListenIp then Some(MalformedEndpointLabels)
    else None
  }

  /**
    The status of every container: failed with the first check that fails, of the labels, then of the
    published port, the cache mount and the container; orphaned if all pass and the root is gone.
  */
  lemma StatusIsFirstFailure(inspect: Inspect, hash12: Hash12, probe: GitRootProbe)
    ensures var status := DeriveStatus(inspect, hash12, probe);
            match FirstLabelFailure(inspect.labels, hash12)
            case Some(failure) => status == Failed(Some(failure))
            case None =>
              var root := inspect.labels[LabelGitRoot];
              if forall runtime :: inspect.labels[LabelRuntime] == RuntimeName(runtime) ==>
                   PublishedEndpoint(inspect, AttachSpec(runtime)).None? then
                status == Failed(Some(MissingPublishedAttachPort))
              else if forall m :: m in inspect.mounts ==> m != Mount(true, NIX_CACHE_DESTINATION) then
                status == Failed(Some(MissingCacheMount))
              else if !inspect.running then status == Failed(Some(NotRunning))
              else status == if IsLiveRoot(root, probe) then Running else Orphaned
  {
    MarkerIff(inspect.labels);
    hide HasContainerMarker, IsMarked, ParseUnsigned, PublishedEndpoint, IsAbsolute, IsOrDescendant;
    assert forall i :: 0 <= i < |inspect.mounts| ==> inspect.mounts[i] in inspect.mounts;
  }

  // ---------------------------------------------------------------- connect

  datatype Connectable = Connectable(runtime: RuntimeKind, endpoint: AttachEndpoint, launchDirectory: string)

  datatype ConnectError =
    | OrphanedSession | NotRunningSession | RequiresAction(failure: SessionFailure) | FailedSession | DuplicateSessions

  /** `prepare_connect_session` */
  function PrepareConnectSession(session: SessionRecord): Result<Connectable, ConnectError> {
    match session.status
    case Orphaned => Err(OrphanedSession)
    case Failed(Some(NotRunning)) => Err(NotRunningSession)
    case Failed(Some(failure)) => Err(RequiresAction(failure))
    case Failed(None) => Err(FailedSession)
    case Duplicate => Err(DuplicateSessions)
    case Running =>
      if session.Runtime().None? then Err(RequiresAction(UnsupportedRuntimeLabel))
      else if session.endpoint.None? then Err(RequiresAction(MalformedEndpointLabels))
      else if session.LaunchDirectory().None? then Err(RequiresAction(MalformedLaunchDirectory))
      else Ok(Connectable(session.Runtime().value, session.endpoint.value, session.LaunchDirectory().value))
  }

  /** `connect` accepts a session exactly if it is running and its labels and its endpoint are all there. */
  lemma ConnectIff(session: SessionRecord, accepted: Connectable)
    ensures PrepareConnectSession(session) == Ok(accepted) <==>
              && session.status == Running
              && LabelRuntime in session.labels && session.labels[LabelRuntime] == RuntimeName(accepted.runtime)
              && session.endpoint == Some(accepted.endpoint)
              && LabelLaunchDirectory in session.labels && !IsBlank(session.labels[LabelLaunchDirectory])
              && session.labels[LabelLaunchDirectory] == accepted.launchDirectory
  {
    assert !IsWhitespace(RuntimeName(accepted.runtime)[0]);
  }

  /** What is reported otherwise: the status decides, and for a running session the first thing that is missing. */
  lemma ConnectErrors(session: SessionRecord)
    ensures session.status == Orphaned <==> PrepareConnectSession(session) == Err(OrphanedSession)
    ensures session.status == Duplicate <==> PrepareConnectSession(session) == Err(DuplicateSessions)
    ensures session.status == Failed(Some(NotRunning)) <==> PrepareConnectSession(session) == Err(NotRunningSession)
    ensures session.status == Failed(None) <==> PrepareConnectSession(session) == Err(FailedSession)
    ensures forall failure :: session.status == Failed(Some(failure)) && failure != NotRunning ==>
              PrepareConnectSession(session) == Err(RequiresAction(failure))
    ensures session.status == Running && session.Runtime().None? ==>
              PrepareConnectSession(session) == Err(RequiresAction(UnsupportedRuntimeLabel))
    ensures session.status == Running && session.Runtime().Some? && session.endpoint.None? ==>
              PrepareConnectSession(session) == Err(RequiresAction(MalformedEndpointLabels))
    ensures session.status == Running && session.Runtime().Some? && session.endpoint.Some?
            && session.LaunchDirectory().None? ==>
              PrepareConnectSession(session) == Err(RequiresAction(MalformedLaunchDirectory))
  {
  }

  /** A record built as running is always accepted, with its own labels and endpoint. */
  lemma RunningIsConnectable(id: string, name: string, kind: ContainerKind, inspect: Inspect,
                             hash12: Hash12, probe: GitRootProbe)
    requires DeriveStatus(inspect, hash12, probe) == Running
    ensures var record := BuildSessionRecord(id, name, kind, inspect, hash12, probe);
            && record.Runtime().Some? && record.LaunchDirectory().Some?
            && PrepareConnectSession(record) ==
               Ok(Connectable(record.Runtime().value, EndpointReport(inspect).value, record.LaunchDirectory().value))
            && (record.IsConnectableCandidate() <==> kind == Managed)
  {
  }
}
