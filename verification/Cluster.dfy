/** The API objects the operator reads and writes, and what it wants the children to be. */
module Cluster {
  import opened Options

  // ---------- The instance ----------

  datatype Spec = Spec(
    userId: string,
    image: string,
    gatewayToken: string,
    gatewayConfig: string,
    configGeneration: nat,
    resources: string,
    storageSize: string,
    storageClass: string)

  datatype Phase = NoPhase | Pending | Creating | Starting | Running | Failed | Terminating

  datatype Reason = ReconcileComplete | WaitingForReady | ChildFailed(kind: Kind)

  /** The Ready condition. */
  datatype Condition = Condition(status: bool, reason: Reason, observedGeneration: nat)

  datatype Status = Status(phase: Phase, namespace: string, ready: Option<Condition>)

  /** A stored instance; ours is the operator's finalizer, others stands for any other finalizers. */
  datatype Inst = Inst(
    uid: nat,
    resourceVersion: nat,
    generation: nat,
    deleting: bool,
    ours: bool,
    others: bool,
    spec: Spec,
    status: Status)

  // ---------- The children ----------

  /** In the order the operator brings them about. */
  datatype Kind = KNamespace | KPvc | KDeployment | KService | KNetworkPolicy

  datatype Namespace = Absent | Active(labels: map<string, string>) | Ending(labels: map<string, string>)

  datatype Pvc = Pvc(instance: string, size: string, storageClass: string)

  /** What the init container is to write. */
  datatype Script = Script(config: string, generation: nat)

  datatype Port = Port(name: string, number: int)

  datatype DeploySpec = DeploySpec(
    instance: string,
    image: string,
    script: Script,
    command: seq<string>,
    ports: seq<Port>,
    gatewayToken: string,
    resources: string,
    ttydImage: Option<string>)

  datatype Deployment = Deployment(spec: DeploySpec, readyReplicas: nat)

  datatype Service = Service(instance: string, ports: seq<Port>)

  datatype NetworkPolicy = NetworkPolicy(instance: string, serverNamespace: string)

  // ---------- The operator's settings ----------

  datatype Config = Config(
    name: string,
    serverNamespace: string,
    defaultGatewayConfig: string,
    ttydImage: string,
    tuiEnabled: bool,
    tuiPort: int,
    tuiCommand: string,
    shellEnabled: bool,
    shellPort: int,
    shellCommand: string,
    notifier: bool)

  // ---------- Desired children ----------

  function NamespaceName(c: Config): string {
    "clawbake-" + c.name
  }

  /** The labels the operator sets, over whatever labels are there. */
  function DesiredLabels(c: Config, s: Spec, labels: map<string, string>): map<string, string> {
    labels["clawbake.io/instance" := c.name]["clawbake.io/user-id" := s.userId]
  }

  function DesiredPvc(c: Config, s: Spec): Pvc {
    Pvc(c.name, if s.storageSize == "" then "5Gi" else s.storageSize, s.storageClass)
  }

  predicate TtydNeeded(c: Config) {
    c.tuiEnabled || c.shellEnabled
  }

  function JoinLines(parts: seq<string>): string {
    if parts == [] then "" else if |parts| == 1 then parts[0] else parts[0] + "\n" + JoinLines(parts[1..])
  }

  const GATEWAY_COMMAND := ["node", "/app/openclaw.mjs", "gateway", "run", "--bind", "lan", "--allow-unconfigured"]

  const RESTART_LOOP := "while true; do\n" +
    "  node /app/openclaw.mjs gateway run --bind lan --allow-unconfigured\n" +
    "  echo \"openclaw exited ($?), restarting in 5s...\"\n" +
    "  sleep 5\n" +
    "done"

  function BuildCommand(c: Config): seq<string> {
    if !TtydNeeded(c) then GATEWAY_COMMAND
    else
      var tui := if c.tuiEnabled then [c.tuiCommand + " &"] else [];
      var main :=
        if c.shellEnabled then [c.shellCommand + " &", RESTART_LOOP]
        else ["exec node /app/openclaw.mjs gateway run --bind lan --allow-unconfigured"];
      ["sh", "-c", JoinLines(tui + main)]
  }

  function Ports(c: Config): seq<Port> {
    [Port("http", 18789)]
    + (if c.tuiEnabled then [Port("tui", c.tuiPort)] else [])
    + (if c.shellEnabled then [Port("shell", c.shellPort)] else [])
  }

  /** The config an instance runs with: its own, or the operator's default. */
  function EffectiveConfig(c: Config, s: Spec): string {
    if s.gatewayConfig == "" then c.defaultGatewayConfig else s.gatewayConfig
  }

  function DesiredScript(c: Config, s: Spec): Script {
    Script(EffectiveConfig(c, s), s.configGeneration)
  }

  function DesiredDeployment(c: Config, s: Spec): DeploySpec {
    DeploySpec(c.name, s.image, DesiredScript(c, s), BuildCommand(c), Ports(c), s.gatewayToken, s.resources,
               if TtydNeeded(c) then Some(c.ttydImage) else None)
  }

  function DesiredService(c: Config): Service {
    Service(c.name, Ports(c))
  }

  function DesiredNetworkPolicy(c: Config): NetworkPolicy {
    NetworkPolicy(c.name, c.serverNamespace)
  }
}
