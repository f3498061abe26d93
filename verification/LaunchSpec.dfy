/** What a launch writes: the labels and mounts of the container that a later discovery reads back. */
module LaunchSpec {
  import opened Wrappers
  import opened Text
  import opened Runtimes
  import opened Paths
  import opened Sessions
  import opened ContainerNames
  import opened ImageContext

  datatype RunMode = ManagedSession | TransientServer | Foreground

  /** A workspace as `resolve_workspace_identity` gives it. */
  datatype Workspace = Workspace(target: string, root: string, hash: string, containerName: string)

  /** What resolution has checked: canonical absolute paths, the target inside the root, the hash of the root. */
  predicate IsResolved(workspace: Workspace, hash12: Hash12) {
    && IsAbsolute(workspace.root) && IsAbsolute(workspace.target)
    && IsOrDescendant(workspace.target, workspace.root)
    && workspace.hash == hash12(workspace.root) && IsHash12(workspace.hash)
    && workspace.containerName == ContainerName(workspace.root, workspace.hash)
  }

  datatype RuntimeMount = RuntimeMount(isVolume: bool, source: string, destination: string, readOnly: bool)

  datatype CreateSpec = CreateSpec(
    image: string, labels: Labels, mounts: seq<RuntimeMount>, command: seq<string>, publishedPorts: seq<string>)

  function ServerContainerLabels(workspace: Workspace, runtime: RuntimeKind, image: string): Labels {
    var attach := AttachSpec(runtime);
    map[LabelGitRoot := workspace.root,
        LabelGitRootHash := workspace.hash,
        LabelRuntime := RuntimeName(runtime),
        LabelImage := image,
        LabelLaunchDirectory := workspace.target,
        LabelLogicalName := workspace.containerName,
        LabelAttachScheme := attach.scheme,
        LabelContainerPort := Decimal(attach.containerPort),
        LabelContainerListenIp := attach.containerListenIp]
  }

  /** The arguments of the server are stored as text, and only if there are any. */
  function ManagedSessionLabels(workspace: Workspace, runtime: RuntimeKind, image: string,
                                serverArgs: Option<string>): Labels
  {
    var labels := ServerContainerLabels(workspace, runtime, image)
                  [LabelManaged := MANAGED_VALUE]
                  [LabelContainerKind := MANAGED_SESSION_VALUE]
                  [LabelSchema := SCHEMA_VALUE];
    if serverArgs.Some? then labels[LabelServerArgs := serverArgs.value] else labels
  }

  function TransientRunLabels(workspace: Workspace, runtime: RuntimeKind, image: string): Labels {
    ServerContainerLabels(workspace, runtime, image)[LabelContainerKind := TRANSIENT_RUN_VALUE]
  }

  /** The workspace, the cache volume, then what the host provides. */
  function RuntimeMounts(workspace: Workspace, hostNix: seq<RuntimeMount>, runtimeMounts: seq<RuntimeMount>)
    : seq<RuntimeMount>
  {
    [RuntimeMount(false, workspace.root, workspace.root, false),
     RuntimeMount(true, workspace.containerName, NIX_CACHE_DESTINATION, false)] + hostNix + runtimeMounts
  }

  function CreateSpecFor(mode: RunMode, runtime: RuntimeKind, workspace: Workspace, contextHash: string,
                         hostNix: seq<RuntimeMount>, runtimeMounts: seq<RuntimeMount>,
                         command: seq<string>, serverArgs: Option<string>): CreateSpec
  {
    var image := DefaultImage(runtime, contextHash);
    var labels := match mode
      case ManagedSession => ManagedSessionLabels(workspace, runtime, image, serverArgs)
      case TransientServer => TransientRunLabels(workspace, runtime, image)
      case Foreground => map[];
    var ports := if mode.Foreground? then []
                 else [DEFAULT_HOST_ATTACH_IP + "::" + Decimal(AttachSpec(runtime).containerPort)];
    CreateSpec(image, labels, RuntimeMounts(workspace, hostNix, runtimeMounts), command, ports)
  }

  /**
    The workspace is mounted writable under its own path, so that every path inside it means the same in
    the container, and the cache volume of the workspace is mounted writable at the home directory.
  */
  lemma WorkspaceIsMountedInPlace(mode: RunMode, runtime: RuntimeKind, workspace: Workspace, contextHash: string,
                                  hostNix: seq<RuntimeMount>, runtimeMounts: seq<RuntimeMount>,
                                  command: seq<string>, serverArgs: Option<string>)
    ensures var mounts := CreateSpecFor(mode, runtime, workspace, contextHash, hostNix, runtimeMounts, command,
                                        serverArgs).mounts;
            && (exists m :: m in mounts && !m.isVolume && !m.readOnly && m.source == m.destination == workspace.root)
            && (exists m :: m in mounts && m.isVolume && !m.readOnly
                            && m.source == workspace.containerName && m.destination == "/home/user")
            && |mounts| == 2 + |hostNix| + |runtimeMounts|
            && (forall m :: m in hostNix || m in runtimeMounts ==> m in mounts)
  {
    hide ServerContainerLabels, ManagedSessionLabels, TransientRunLabels, DefaultImage, AttachSpec, Decimal;
    var mounts := CreateSpecFor(mode, runtime, workspace, contextHash, hostNix, runtimeMounts, command,
                                serverArgs).mounts;
    assert mounts[0] in mounts && mounts[1] in mounts;
    assert mounts == mounts[..2] + hostNix + runtimeMounts;
  }

  // ---------------------------------------------------------------- the published port

  /** Podman reads `ip::port` as: publish this container port on a free port of that host address. */
  predicate PortsArePublished(ports: map<string, Option<seq<PortBinding>>>, entries: seq<string>, hostPort: nat) {
    forall i :: 0 <= i < |entries| ==>
      var parts := Split(entries[i], ':');
      |parts| == 3 && parts[1] == "" ==>
        && parts[2] + "/tcp" in ports
        && ports[parts[2] + "/tcp"] == Some([PortBinding(Some(parts[0]), Some(Decimal(hostPort)))])
  }

  /** A server is published on the loopback address only, for exactly the port that its runtime listens on. */
  lemma PublishedEntry(mode: RunMode, runtime: RuntimeKind, workspace: Workspace, contextHash: string,
                       hostNix: seq<RuntimeMount>, runtimeMounts: seq<RuntimeMount>, command: seq<string>,
                       serverArgs: Option<string>)
    ensures var entries := CreateSpecFor(mode, runtime, workspace, contextHash, hostNix, runtimeMounts, command,
                                         serverArgs).publishedPorts;
            if mode.Foreground? then entries == []
            else
              |entries| == 1
              && Split(entries[0], ':') == ["127.0.0.1", "", if runtime == Codex then "1455" else "4096"]
              && Decimal(AttachSpec(runtime).containerPort) == if runtime == Codex then "1455" else "4096"
  {
    PortText(runtime);
    if !mode.Foreground? {
      hide ServerContainerLabels, ManagedSessionLabels, TransientRunLabels, DefaultImage, RuntimeMounts, Split;
      var entries := CreateSpecFor(mode, runtime, workspace, contextHash, hostNix, runtimeMounts, command,
                                   serverArgs).publishedPorts;
      SplitOfEntry(entries[0], Decimal(AttachSpec(runtime).containerPort));
    }
  }

  lemma PortText(runtime: RuntimeKind)
    ensures Decimal(AttachSpec(runtime).containerPort) == if runtime == Codex then "1455" else "4096"
  {
    assert Decimal(1) == "1" && Decimal(14) == "14" && Decimal(145) == "145";
    assert Decimal(4) == "4" && Decimal(40) == "40" && Decimal(409) == "409";
  }

  lemma SplitOfEntry(entry: string, port: string)
    requires entry == DEFAULT_HOST_ATTACH_IP + "::" + port && forall i :: 0 <= i < |port| ==> IsDigit(port[i])
    ensures Split(entry, ':') == ["127.0.0.1", "", port]
  {
    hide Split;
    var sep := ':';
    assert entry == "127.0.0.1" + [sep] + ("" + [sep] + port);
    assert sep !in "127.0.0.1" && sep !in port;
    SplitOfPartThen("127.0.0.1", "" + [sep] + port, sep);
    SplitOfPartThen("", port, sep);
    SplitOfPart(port, sep);
  }

  /** Where a launched server can be reached. */
  lemma LaunchedEndpoint(mode: RunMode, runtime: RuntimeKind, workspace: Workspace, contextHash: string,
                         hostNix: seq<RuntimeMount>, runtimeMounts: seq<RuntimeMount>, command: seq<string>,
                         serverArgs: Option<string>, inspect: Inspect, hostPort: nat)
    requires !mode.Foreground? && hostPort <= U16_MAX
    requires PortsArePublished(inspect.ports, CreateSpecFor(mode, runtime, workspace, contextHash, hostNix,
                                                            runtimeMounts, command, serverArgs).publishedPorts,
                               hostPort)
    ensures PublishedEndpoint(inspect, AttachSpec(runtime)) ==
            Some(AttachEndpoint(if runtime == Codex then "ws" else "http", "127.0.0.1", hostPort))
  {
    var scheme := if runtime == Codex then "ws" else "http";
    assert AttachSpec(runtime).scheme == scheme;
    PublishedEntry(mode, runtime, workspace, contextHash, hostNix, runtimeMounts, command, serverArgs);
    hide CreateSpecFor, Split, Decimal, AttachSpec, ParseUnsigned;
    ParseDecimal(hostPort, U16_MAX);
    NotBlank("127.0.0.1");
    var binding := PortBinding(Some("127.0.0.1"), Some(Decimal(hostPort)));
    assert inspect.ports[TcpPortKey(AttachSpec(runtime))] == Some([binding]);
    assert FirstPublished([binding]) == Some(binding);
  }

  // ---------------------------------------------------------------- the round trip

  function KindOf(mode: RunMode): ContainerKind
    requires !mode.Foreground?
  {
    if mode.ManagedSession? then Managed else Run
  }

  lemma NotBlank(s: string)
    requires s != [] && !IsWhitespace(s[0])
    ensures !IsBlank(s)
  {
  }

  lemma ConstantsAreNotBlank(runtime: RuntimeKind, workspace: Workspace, contextHash: string, hash12: Hash12)
    requires IsResolved(workspace, hash12)
    ensures !IsBlank(MANAGED_VALUE) && !IsBlank(TRANSIENT_RUN_VALUE) && !IsBlank(SCHEMA_VALUE)
    ensures !IsBlank(RuntimeName(runtime)) && !IsBlank(DefaultImage(runtime, contextHash))
    ensures !IsBlank(AttachSpec(runtime).scheme) && !IsBlank(AttachSpec(runtime).containerListenIp)
    ensures !IsBlank(Decimal(AttachSpec(runtime).containerPort))
    ensures !IsBlank(workspace.root) && !IsBlank(workspace.target)
    ensures !IsBlank(workspace.hash) && !IsBlank(workspace.containerName)
  {
    hide IsResolved, IsBlank;
    WorkspaceIsNotBlank(workspace, hash12);
    DefaultImageIsNotBlank(runtime, contextHash);
    hide DefaultImage, ReferencePrefix;
    var port := Decimal(AttachSpec(runtime).containerPort);
    assert IsDigit(port[0]);
    NotBlank(MANAGED_VALUE);
    NotBlank(TRANSIENT_RUN_VALUE);
    NotBlank(SCHEMA_VALUE);
    NotBlank(RuntimeName(runtime));
    NotBlank(AttachSpec(runtime).scheme);
    NotBlank(AttachSpec(runtime).containerListenIp);
    NotBlank(port);
  }

  lemma DefaultImageIsNotBlank(runtime: RuntimeKind, contextHash: string)
    ensures !IsBlank(DefaultImage(runtime, contextHash))
  {
    hide IsBlank;
    NotBlank(DefaultImage(runtime, contextHash));
  }

  lemma WorkspaceIsNotBlank(workspace: Workspace, hash12: Hash12)
    requires IsResolved(workspace, hash12)
    ensures !IsBlank(workspace.root) && !IsBlank(workspace.target)
    ensures !IsBlank(workspace.hash) && !IsBlank(workspace.containerName)
  {
    NameParts(workspace.root, workspace.hash);
    hide IsBlank, IsOrDescendant, ContainerName;
    NotBlank(workspace.hash);
    NotBlank(workspace.containerName);
    NotBlank(workspace.root);
    NotBlank(workspace.target);
  }

  /**
    How a launched container looks to `inspect`: it has the labels of its image underneath those of
    the launch, some more labels that the launch has added, and every mount of the spec.
  */
  predicate InspectShows(inspect: Inspect, spec: CreateSpec, imageLabels: Labels, added: Labels) {
    && inspect.labels == imageLabels + spec.labels + added
    && added.Keys !! spec.labels.Keys
    && LabelManaged !in imageLabels && LabelManaged !in added
    && forall m :: m in spec.mounts ==> Mount(m.isVolume, m.destination) in inspect.mounts
  }

  /** The container carries these labels, among others. */
  predicate Carries(labels: Labels, written: Labels) {
    forall name :: name in written ==> name in labels && labels[name] == written[name]
  }

  lemma MarkersAreSound(labels: Labels, mode: RunMode)
    requires !mode.Foreground?
    requires mode.ManagedSession? ==>
               Carries(labels, map[LabelManaged := MANAGED_VALUE, LabelSchema := SCHEMA_VALUE])
    requires mode.TransientServer? ==>
               Carries(labels, map[LabelContainerKind := TRANSIENT_RUN_VALUE]) && LabelManaged !in labels
    ensures KindFromLabels(labels) == Some(KindOf(mode)) && IsMarked(labels)
  {
    NotBlank(MANAGED_VALUE);
    NotBlank(TRANSIENT_RUN_VALUE);
    NotBlank(SCHEMA_VALUE);
  }

  lemma CarriedLabel(labels: Labels, written: Labels, name: LabelName)
    requires Carries(labels, written) && name in written && !IsBlank(written[name])
    ensures Label(labels, name) == Some(written[name])
  {
  }

  /** Each label that the server needs reads back as the value that the launch wrote. */
  lemma ServerLabelsReadBack(labels: Labels, workspace: Workspace, runtime: RuntimeKind, image: string)
    requires Carries(labels, ServerContainerLabels(workspace, runtime, image))
    requires !IsBlank(workspace.root) && !IsBlank(workspace.hash) && !IsBlank(workspace.target)
    requires !IsBlank(workspace.containerName) && !IsBlank(image) && !IsBlank(RuntimeName(runtime))
    requires !IsBlank(AttachSpec(runtime).scheme) && !IsBlank(AttachSpec(runtime).containerListenIp)
    requires !IsBlank(Decimal(AttachSpec(runtime).containerPort))
    ensures Label(labels, LabelGitRoot) == Some(workspace.root)
    ensures Label(labels, LabelGitRootHash) == Some(workspace.hash)
    ensures Label(labels, LabelImage) == Some(image)
    ensures Label(labels, LabelLogicalName) == Some(workspace.containerName)
    ensures Label(labels, LabelLaunchDirectory) == Some(workspace.target)
    ensures Label(labels, LabelRuntime) == Some(RuntimeName(runtime))
    ensures Label(labels, LabelAttachScheme) == Some(AttachSpec(runtime).scheme)
    ensures Label(labels, LabelContainerPort) == Some(Decimal(AttachSpec(runtime).containerPort))
    ensures Label(labels, LabelContainerListenIp) == Some(AttachSpec(runtime).containerListenIp)
  {
    hide Carries, Label, IsBlank, Decimal, AttachSpec, RuntimeName;
    var base := ServerContainerLabels(workspace, runtime, image);
    CarriedLabel(labels, base, LabelGitRoot);
    CarriedLabel(labels, base, LabelGitRootHash);
    CarriedLabel(labels, base, LabelImage);
    CarriedLabel(labels, base, LabelLogicalName);
    CarriedLabel(labels, base, LabelLaunchDirectory);
    CarriedLabel(labels, base, LabelRuntime);
    CarriedLabel(labels, base, LabelAttachScheme);
    CarriedLabel(labels, base, LabelContainerPort);
    CarriedLabel(labels, base, LabelContainerListenIp);
  }

  lemma ServerLabelsAreSound(labels: Labels, workspace: Workspace, runtime: RuntimeKind, contextHash: string,
                             hash12: Hash12)
    requires IsResolved(workspace, hash12)
    requires Carries(labels, ServerContainerLabels(workspace, runtime, DefaultImage(runtime, contextHash)))
    requires IsMarked(labels)
    ensures LabelsAreSound(labels, hash12, workspace.root, workspace.target, runtime)
  {
    hide DefaultImage, ParseUnsigned, Decimal, IsBlank, AttachSpec, RuntimeName, IsOrDescendant, IsMarked,
         ServerContainerLabels, Carries, Label, IsAbsolute;
    ConstantsAreNotBlank(runtime, workspace, contextHash, hash12);
    ServerLabelsReadBack(labels, workspace, runtime, DefaultImage(runtime, contextHash));
    PortFits(runtime);
  }

  lemma PortFits(runtime: RuntimeKind)
    ensures var port := AttachSpec(runtime).containerPort;
            ParseUnsigned(Decimal(port), U16_MAX) == Some(port)
  {
    ParseDecimal(AttachSpec(runtime).containerPort, U16_MAX);
  }

  lemma LaunchedLabelsAreSound(mode: RunMode, runtime: RuntimeKind, workspace: Workspace, contextHash: string,
                               serverArgs: Option<string>, labels: Labels, hash12: Hash12)
    requires !mode.Foreground? && IsResolved(workspace, hash12)
    requires Carries(labels, CreateSpecFor(mode, runtime, workspace, contextHash, [], [], [], serverArgs).labels)
    requires mode.TransientServer? ==> LabelManaged !in labels
    ensures KindFromLabels(labels) == Some(KindOf(mode))
    ensures LabelsAreSound(labels, hash12, workspace.root, workspace.target, runtime)
  {
    hide LabelsAreSound, ServerContainerLabels, IsMarked, KindFromLabels;
    var base := ServerContainerLabels(workspace, runtime, DefaultImage(runtime, contextHash));
    var written := CreateSpecFor(mode, runtime, workspace, contextHash, [], [], [], serverArgs).labels;
    forall name | name in base ensures name in written && written[name] == base[name] {
      ServerLabelNames(workspace, runtime, DefaultImage(runtime, contextHash));
    }
    MarkersAreSound(labels, mode);
    ServerLabelsAreSound(labels, workspace, runtime, contextHash, hash12);
  }

  lemma ServerLabelNames(workspace: Workspace, runtime: RuntimeKind, image: string)
    ensures {LabelManaged, LabelContainerKind, LabelSchema, LabelServerArgs}
            !! ServerContainerLabels(workspace, runtime, image).Keys
  {
  }

  /**
    Launch labels round-trip. A managed or transient server of either runtime, launched for any
    resolved workspace and found running with a parseable published port and a live root, is
    classified by the kind it was launched as, is Running, and gives back its root, runtime and
    launch directory; connecting to it is accepted, and only a managed one is ever offered.
  */
  lemma LaunchRoundTrip(mode: RunMode, runtime: RuntimeKind, workspace: Workspace, contextHash: string,
                        hostNix: seq<RuntimeMount>, runtimeMounts: seq<RuntimeMount>, command: seq<string>,
                        serverArgs: Option<string>, inspect: Inspect, imageLabels: Labels, added: Labels,
                        id: string, hash12: Hash12, probe: GitRootProbe)
    requires !mode.Foreground? && IsResolved(workspace, hash12)
    requires InspectShows(inspect, CreateSpecFor(mode, runtime, workspace, contextHash, hostNix, runtimeMounts,
                                                 command, serverArgs), imageLabels, added)
    requires inspect.running && PublishedEndpoint(inspect, AttachSpec(runtime)).Some?
    requires IsLiveRoot(workspace.root, probe)
    ensures KindFromLabels(inspect.labels) == Some(KindOf(mode))
    ensures var record := BuildSessionRecord(id, workspace.containerName, KindOf(mode), inspect, hash12, probe);
            && record.status == Running
            && record.Root() == Some(workspace.root) && record.Hash() == Some(hash12(workspace.root))
            && PrepareConnectSession(record) ==
               Ok(Connectable(runtime, PublishedEndpoint(inspect, AttachSpec(runtime)).value, workspace.target))
            && (record.IsConnectableCandidate() <==> mode.ManagedSession?)
  {
    hide LabelsAreSound, DeriveStatus, CreateSpecFor, InspectShows, PublishedEndpoint, AttachSpec, KindFromLabels,
         BuildSessionRecord, PrepareConnectSession, IsResolved, IsLiveRoot;
    InspectShowsLaunch(mode, runtime, workspace, contextHash, hostNix, runtimeMounts, command, serverArgs, inspect,
                       imageLabels, added);
    LaunchedLabelsAreSound(mode, runtime, workspace, contextHash, serverArgs, inspect.labels, hash12);
    RunningIff(inspect, hash12, probe);
    SoundRecord(id, workspace.containerName, KindOf(mode), inspect, hash12, probe, workspace.root, workspace.target,
                runtime);
  }

  /** Inspection finds the labels of the launch and its cache volume. */
  lemma InspectShowsLaunch(mode: RunMode, runtime: RuntimeKind, workspace: Workspace, contextHash: string,
                           hostNix: seq<RuntimeMount>, runtimeMounts: seq<RuntimeMount>, command: seq<string>,
                           serverArgs: Option<string>, inspect: Inspect, imageLabels: Labels, added: Labels)
    requires !mode.Foreground?
    requires InspectShows(inspect, CreateSpecFor(mode, runtime, workspace, contextHash, hostNix, runtimeMounts,
                                                 command, serverArgs), imageLabels, added)
    ensures Carries(inspect.labels,
                    CreateSpecFor(mode, runtime, workspace, contextHash, [], [], [], serverArgs).labels)
    ensures mode.TransientServer? ==> LabelManaged !in inspect.labels
    ensures HasVolumeMount(inspect.mounts, NIX_CACHE_DESTINATION)
  {
    hide DefaultImage, AttachSpec, Decimal;
    var spec := CreateSpecFor(mode, runtime, workspace, contextHash, hostNix, runtimeMounts, command, serverArgs);
    assert mode.TransientServer? ==> LabelManaged !in spec.labels;
    hide ServerContainerLabels, ManagedSessionLabels, TransientRunLabels;
    assert spec.mounts[1] == RuntimeMount(true, workspace.containerName, NIX_CACHE_DESTINATION, false);
    assert spec.mounts[1] in spec.mounts;
    assert Mount(true, NIX_CACHE_DESTINATION) in inspect.mounts;
  }

  /** The arguments of a managed server read back as they were given; no other container has any. */
  lemma ServerArgsReadBack(mode: RunMode, runtime: RuntimeKind, workspace: Workspace, contextHash: string,
                           hostNix: seq<RuntimeMount>, runtimeMounts: seq<RuntimeMount>, command: seq<string>,
                           serverArgs: Option<string>, inspect: Inspect, imageLabels: Labels, added: Labels)
    requires InspectShows(inspect, CreateSpecFor(mode, runtime, workspace, contextHash, hostNix, runtimeMounts,
                                                 command, serverArgs), imageLabels, added)
    requires LabelServerArgs !in imageLabels && LabelServerArgs !in added
    ensures (if LabelServerArgs in inspect.labels then Some(inspect.labels[LabelServerArgs]) else None) ==
            if mode.ManagedSession? then serverArgs else None
  {
    hide DefaultImage, AttachSpec, Decimal, ServerContainerLabels;
    ServerLabelNames(workspace, runtime, DefaultImage(runtime, contextHash));
  }

  /** What a running record with sound labels says of itself, and that connecting to it is accepted. */
  lemma SoundRecord(id: string, name: string, kind: ContainerKind, inspect: Inspect, hash12: Hash12,
                    probe: GitRootProbe, root: string, directory: string, runtime: RuntimeKind)
    requires LabelsAreSound(inspect.labels, hash12, root, directory, runtime)
    requires PublishedEndpoint(inspect, AttachSpec(runtime)).Some?
    requires DeriveStatus(inspect, hash12, probe) == Running
    ensures var record := BuildSessionRecord(id, name, kind, inspect, hash12, probe);
            && record.status == Running
            && record.Root() == Some(root) && record.Hash() == Some(hash12(root))
            && PrepareConnectSession(record) ==
               Ok(Connectable(runtime, PublishedEndpoint(inspect, AttachSpec(runtime)).value, directory))
            && (record.IsConnectableCandidate() <==> kind == Managed)
  {
    RunningIsConnectable(id, name, kind, inspect, hash12, probe);
    SoundLabelsGiveRuntime(inspect.labels, hash12, root, directory, runtime);
    hide LabelsAreSound, DeriveStatus, PublishedEndpoint, AttachSpec, Label, PrepareConnectSession;
  }

  lemma SoundLabelsGiveRuntime(labels: Labels, hash12: Hash12, root: string, directory: string, runtime: RuntimeKind)
    requires LabelsAreSound(labels, hash12, root, directory, runtime)
    ensures AttachRuntime(labels) == Ok(runtime) && Label(labels, LabelRuntime) == Some(RuntimeName(runtime))
    ensures Label(labels, LabelGitRoot) == Some(root) && Label(labels, LabelGitRootHash) == Some(hash12(root))
    ensures Label(labels, LabelLaunchDirectory) == Some(directory)
  {
  }
}
