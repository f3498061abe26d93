/** The two runtimes and the two kinds of container that agentbox launches. */
module Runtimes {
  import opened Wrappers
  import opened Text

  datatype RuntimeKind = Opencode | Codex

  datatype ContainerKind = Managed | Run

  datatype RuntimeAttachSpec = RuntimeAttachSpec(scheme: string, containerListenIp: string, containerPort: nat)

  const DEFAULT_HOST_ATTACH_IP := "127.0.0.1"

  function RuntimeName(runtime: RuntimeKind): string {
    match runtime case Opencode => "opencode" case Codex => "codex"
  }

  function AttachSpec(runtime: RuntimeKind): RuntimeAttachSpec {
    match runtime
    case Opencode => RuntimeAttachSpec("http", "0.0.0.0", 4096)
    case Codex => RuntimeAttachSpec("ws", "0.0.0.0", 1455)
  }

  /** `RuntimeKind::from_str` */
  function ParseRuntime(value: string): (r: Option<RuntimeKind>)
    ensures forall runtime :: r == Some(runtime) <==> value == RuntimeName(runtime)
  {
    if value == "opencode" then Some(Opencode)
    else if value == "codex" then Some(Codex)
    else None
  }

  function TcpPortKey(attach: RuntimeAttachSpec): string {
    Decimal(attach.containerPort) + "/tcp"
  }
}
