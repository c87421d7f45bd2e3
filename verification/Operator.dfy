/**
  The operator's Reconcile as a step machine next to an API server.  Every API
  call is one step and may fail; the process may crash between any two steps,
  and everything else that touches the cluster happens in between.
 */
module Operator {
  import opened Options
  import opened Cluster
  import opened Volume

  // ---------- The world ----------

  /** How Reconcile returned last. */
  datatype Outcome = Quiet | Requeue | Error

  /** The operator's next API call. */
  datatype Pc =
    | DelStatus
    | DelGetNamespace
    | DelNamespace
    | DelFinalizer
    | AddFinalizer
    | SetPending
    | SetCreating
    | Get(kind: Kind)
    | Write(kind: Kind, seen: Namespace, found: bool)
    | ReadDeployment
    | WriteRunning
    | WriteStarting
    | WriteFailed(kind: Kind)
    | Notify

  /** The operator process: between reconciles, about to read the instance, or holding a copy of it. */
  datatype Process = Idle(last: Outcome) | Fetching | Busy(pc: Pc, own: Inst)

  datatype World = World(
    nextVersion: nat,
    inst: Option<Inst>,
    ns: Namespace,
    pvc: Option<Pvc>,
    deploy: Option<Deployment>,
    svc: Option<Service>,
    np: Option<NetworkPolicy>,
    vol: Volume,
    proc: Process,
    saves: map<nat, Inst>,
    sent: nat,
    transitions: nat,
    dropped: nat)

  /** What happens to an API call: it succeeds, fails, or takes effect while its answer is lost. */
  datatype Fate = Answered | Fails | Lost

  datatype Event =
    | Wake
    | Reconcile(fate: Fate)
    | Crash
    | UserCreate(spec: Spec)
    | UserDelete
    | SaveBegin(id: nat)
    | SaveCommit(id: nat, config: string)
    | SetOthers(others: bool)
    | Readiness(replicas: nat)
    | Relabel(labels: map<string, string>)
    | NamespaceGone
    | OnVolume(e: VolumeEvent)

  // ---------- The API server ----------

  /** A write that names the version it was read at is refused when the stored object has moved on. */
  predicate Current(w: World, own: Inst) {
    w.inst.Some? && w.inst.value.resourceVersion == own.resourceVersion
  }

  /** Stores an instance; a write that changes nothing keeps its version. */
  function Store(w: World, i: Inst): World
    requires w.inst.Some?
  {
    if i == w.inst.value then w
    else w.(inst := Some(i.(resourceVersion := w.nextVersion)), nextVersion := w.nextVersion + 1)
  }

  /** An instance on its way out goes when its last finalizer does. */
  function Collect(w: World): World {
    if w.inst.Some? && w.inst.value.deleting && !w.inst.value.ours && !w.inst.value.others then w.(inst := None) else w
  }

  // ---------- One API call of the operator ----------

  function Return(w: World, o: Outcome): World {
    w.(proc := Idle(o))
  }

  function Go(w: World, pc: Pc, own: Inst): World {
    w.(proc := Busy(pc, own))
  }

  /** Status().Update: the world after the write, if the write is accepted. */
  function PutStatus(w: World, own: Inst, s: Status): World {
    if Current(w, own) then Store(w, w.inst.value.(status := s)) else w
  }

  /** The copy a successful write leaves in the operator's hands. */
  function Answer(w: World): Inst
    requires w.inst.Some?
  {
    w.inst.value
  }

  /** The call went through and the operator knows it. */
  predicate Accepted(w: World, own: Inst, fate: Fate) {
    fate.Answered? && Current(w, own)
  }

  /** Status().Update followed by pc, or by an error return. */
  function StatusThen(w: World, own: Inst, s: Status, fate: Fate, pc: Pc): World {
    if fate.Fails? then Return(w, Error)
    else
      var v := PutStatus(w, own, s);
      if Accepted(w, own, fate) then Go(v, pc, Answer(v)) else Return(v, Error)
  }

  /** Status().Update followed by a return. */
  function StatusReturn(w: World, own: Inst, s: Status, fate: Fate, o: Outcome): World {
    if fate.Fails? then Return(w, Error)
    else
      var v := PutStatus(w, own, s);
      Return(v, if Accepted(w, own, fate) then o else Error)
  }

  function AfterFinalizer(own: Inst): Pc {
    if own.status.phase.NoPhase? then SetPending
    else if own.status.phase.Pending? then SetCreating
    else Get(KNamespace)
  }

  function StepFetch(w: World, fate: Fate): World {
    if !fate.Answered? then Return(w, Error)
    else if w.inst == None then Return(w, Quiet)
    else
      var own := w.inst.value;
      if own.deleting then (if own.ours then Go(w, DelStatus, own) else Return(w, Quiet))
      else Go(w, if own.ours then AfterFinalizer(own) else AddFinalizer, own)
  }

  function StepDelStatus(w: World, own: Inst, fate: Fate): World {
    StatusThen(w, own, own.status.(phase := Terminating), fate, DelGetNamespace)
  }

  function StepDelGetNamespace(w: World, own: Inst, fate: Fate): World {
    if !fate.Answered? then Return(w, Error)
    else Go(w, if w.ns.Absent? then DelFinalizer else DelNamespace, own)
  }

  function StepDelNamespace(w: World, own: Inst, fate: Fate): World {
    if fate.Fails? || w.ns.Absent? then Return(w, Error)
    else
      var v := w.(ns := Ending(w.ns.labels));
      if fate.Answered? then Go(v, DelFinalizer, own) else Return(v, Error)
  }

  function StepDelFinalizer(w: World, own: Inst, fate: Fate): World {
    if fate.Fails? then Return(w, Error)
    else if !Current(w, own) then Return(w, Error)
    else Return(Collect(Store(w, w.inst.value.(ours := false))), if fate.Answered? then Quiet else Error)
  }

  function StepAddFinalizer(w: World, own: Inst, fate: Fate): World {
    if fate.Fails? || !Current(w, own) then Return(w, Error)
    else
      var v := Store(w, w.inst.value.(ours := true));
      if fate.Answered? then Go(v, AfterFinalizer(Answer(v)), Answer(v)) else Return(v, Error)
  }

  function NextKind(k: Kind): Pc {
    match k
    case KNamespace => Get(KPvc)
    case KPvc => Get(KDeployment)
    case KDeployment => Get(KService)
    case KService => Get(KNetworkPolicy)
    case KNetworkPolicy => ReadDeployment
  }

  predicate Exists(w: World, k: Kind) {
    match k
    case KNamespace => !w.ns.Absent?
    case KPvc => w.pvc.Some?
    case KDeployment => w.deploy.Some?
    case KService => w.svc.Some?
    case KNetworkPolicy => w.np.Some?
  }

  /** The Get of CreateOrUpdate. */
  function StepGet(w: World, own: Inst, k: Kind, fate: Fate): World {
    if !fate.Answered? then Go(w, WriteFailed(k), own) else Go(w, Write(k, w.ns, Exists(w, k)), own)
  }

  /** The child as the operator wants it; an existing volume claim is left alone. */
  predicate AsDesired(c: Config, w: World, s: Spec, k: Kind) {
    match k
    case KNamespace => !w.ns.Absent? && w.ns.labels == DesiredLabels(c, s, w.ns.labels)
    case KPvc => w.pvc.Some?
    case KDeployment => w.deploy.Some? && w.deploy.value.spec == DesiredDeployment(c, s)
    case KService => w.svc == Some(DesiredService(c))
    case KNetworkPolicy => w.np == Some(DesiredNetworkPolicy(c))
  }

  /** The child after a create or an update that the API server accepts. */
  function PutChild(c: Config, w: World, s: Spec, k: Kind): World {
    match k
    case KNamespace =>
      w.(ns := match w.ns
               case Absent => Active(DesiredLabels(c, s, map[]))
               case Active(labels) => Active(DesiredLabels(c, s, labels))
               case Ending(labels) => Ending(DesiredLabels(c, s, labels)))
    case KPvc => if w.pvc.Some? then w else w.(pvc := Some(DesiredPvc(c, s)))
    case KDeployment =>
      var ready := if w.deploy.Some? then w.deploy.value.readyReplicas else 0;
      w.(deploy := Some(Deployment(DesiredDeployment(c, s), ready)))
    case KService => w.(svc := Some(DesiredService(c)))
    case KNetworkPolicy => w.(np := Some(DesiredNetworkPolicy(c)))
  }

  /**
    The API server refuses to create what exists, to update what is gone or has
    changed since it was read, and to create anything in a namespace that is
    missing or ending.
   */
  predicate ChildAccepted(w: World, k: Kind, seen: Namespace, found: bool) {
    && found == Exists(w, k)
    && (k.KNamespace? ==> seen == w.ns)
    && (!k.KNamespace? && !found ==> w.ns.Active?)
  }

  /** The write of CreateOrUpdate: none when the child is as desired already. */
  function StepWrite(c: Config, w: World, own: Inst, k: Kind, seen: Namespace, found: bool, fate: Fate): World {
    if found && ChildAccepted(w, k, seen, found) && AsDesired(c, w, own.spec, k) then Go(w, NextKind(k), own)
    else if fate.Fails? || !ChildAccepted(w, k, seen, found) then Go(w, WriteFailed(k), own)
    else Go(PutChild(c, w, own.spec, k), if fate.Answered? then NextKind(k) else WriteFailed(k), own)
  }

  function StepReadDeployment(w: World, own: Inst, fate: Fate): World {
    if !fate.Answered? || w.deploy == None then Return(w, Error)
    else Go(w, if w.deploy.value.readyReplicas >= 1 then WriteRunning else WriteStarting, own)
  }

  function RunningStatus(c: Config, own: Inst): Status {
    Status(Running, NamespaceName(c), Some(Condition(true, ReconcileComplete, own.generation)))
  }

  function StartingStatus(c: Config, own: Inst): Status {
    Status(Starting, NamespaceName(c), Some(Condition(false, WaitingForReady, own.generation)))
  }

  function FailedStatus(own: Inst, k: Kind): Status {
    own.status.(phase := Failed, ready := Some(Condition(false, ChildFailed(k), own.generation)))
  }

  /** Persists Running; a notification is due when the phase was another one before. */
  function StepWriteRunning(c: Config, w: World, own: Inst, fate: Fate): World {
    if fate.Fails? then Return(w, Error)
    else if !Current(w, own) then Return(w, Error)
    else
      var v := PutStatus(w, own, RunningStatus(c, own));
      if own.status.phase.Running? then Return(v, if fate.Answered? then Quiet else Error)
      else
        var u := v.(transitions := v.transitions + 1);
        if fate.Answered? && c.notifier then Go(u, Notify, Answer(u))
        else Return(u.(dropped := u.dropped + 1), if fate.Answered? then Quiet else Error)
  }

  function StepNotify(w: World): World {
    Return(w.(sent := w.sent + 1), Quiet)
  }

  /** The operator's step at a program counter. */
  function StepBusy(c: Config, w: World, pc: Pc, own: Inst, fate: Fate): World {
    match pc
    case DelStatus => StepDelStatus(w, own, fate)
    case DelGetNamespace => StepDelGetNamespace(w, own, fate)
    case DelNamespace => StepDelNamespace(w, own, fate)
    case DelFinalizer => StepDelFinalizer(w, own, fate)
    case AddFinalizer => StepAddFinalizer(w, own, fate)
    case SetPending => StatusThen(w, own, own.status.(phase := Pending), fate, SetCreating)
    case SetCreating => StatusThen(w, own, own.status.(phase := Creating), fate, Get(KNamespace))
    case Get(k) => StepGet(w, own, k, fate)
    case Write(k, seen, found) => StepWrite(c, w, own, k, seen, found, fate)
    case ReadDeployment => StepReadDeployment(w, own, fate)
    case WriteRunning => StepWriteRunning(c, w, own, fate)
    case WriteStarting => StatusReturn(w, own, StartingStatus(c, own), fate, Requeue)
    case WriteFailed(k) => StatusReturn(w, own, FailedStatus(own, k), fate, Error)
    case Notify => StepNotify(w)
  }

  function StepProcess(c: Config, w: World, fate: Fate): World {
    match w.proc
    case Idle(_) => w
    case Fetching => StepFetch(w, fate)
    case Busy(pc, own) => StepBusy(c, w, pc, own, fate)
  }

  // ---------- Everything else ----------

  function CrashStep(w: World): World {
    var lost := if w.proc.Busy? && w.proc.pc.Notify? then 1 else 0;
    Return(w.(dropped := w.dropped + lost), Error)
  }

  /** A same-named instance is created only once the old one and its namespace are gone. */
  function UserCreateStep(w: World, s: Spec): World {
    if w.inst.Some? || !w.ns.Absent? then w
    else
      w.(inst := Some(Inst(w.nextVersion, w.nextVersion, 1, false, false, false, s, Status(NoPhase, "", None))),
         nextVersion := w.nextVersion + 1)
  }

  function UserDeleteStep(w: World): World {
    if w.inst == None || w.inst.value.deleting then w
    else Collect(Store(w, w.inst.value.(deleting := true, generation := w.inst.value.generation + 1)))
  }

  /** The instance a save writes, from the copy it read. */
  function SavedInst(saved: Inst, config: string): Inst {
    var next := saved.spec.configGeneration + 1;
    saved.(spec := saved.spec.(gatewayConfig := config, configGeneration := next), generation := saved.generation + 1)
  }

  /** The config-save handler reads the instance ... */
  function SaveBeginStep(w: World, id: nat): World {
    if w.inst == None then w else w.(saves := w.saves[id := w.inst.value])
  }

  /** ... and writes it back with the new config and the next config generation, if nobody else wrote in between. */
  function SaveCommitStep(w: World, id: nat, config: string): World {
    if id !in w.saves then w
    else
      var saved := w.saves[id];
      var v := w.(saves := w.saves - {id});
      if !Current(w, saved) then v
      else
        Store(v, SavedInst(saved, config))
  }

  function SetOthersStep(w: World, others: bool): World {
    if w.inst == None then w else Collect(Store(w, w.inst.value.(others := others)))
  }

  function NamespaceGoneStep(w: World): World {
    if w.ns.Ending? then w.(ns := Absent, pvc := None, deploy := None, svc := None, np := None, vol := EMPTY) else w
  }

  function DeployedScript(w: World): Option<Script> {
    if w.deploy.Some? then Some(w.deploy.value.spec.script) else None
  }

  function Next(c: Config, w: World, e: Event): World {
    match e
    case Wake => if w.proc.Idle? then w.(proc := Fetching) else w
    case Reconcile(fate) => StepProcess(c, w, fate)
    case Crash => CrashStep(w)
    case UserCreate(s) => UserCreateStep(w, s)
    case UserDelete => UserDeleteStep(w)
    case SaveBegin(id) => SaveBeginStep(w, id)
    case SaveCommit(id, config) => SaveCommitStep(w, id, config)
    case SetOthers(others) => SetOthersStep(w, others)
    case Readiness(n) => if w.deploy.Some? then w.(deploy := Some(w.deploy.value.(readyReplicas := n))) else w
    case Relabel(labels) =>
      w.(ns := match w.ns case Absent => Absent case Active(_) => Active(labels) case Ending(_) => Ending(labels))
    case NamespaceGone => NamespaceGoneStep(w)
    case OnVolume(ve) => w.(vol := VolumeStep(w.vol, DeployedScript(w), ve))
  }

  const START := World(1, None, Absent, None, None, None, None, EMPTY, Idle(Quiet), map[], 0, 0, 0)

  /** The world after a sequence of events from the empty cluster. */
  function RunFrom(c: Config, w: World, events: seq<Event>): World {
    if events == [] then w else Next(c, RunFrom(c, w, events[..|events| - 1]), events[|events| - 1])
  }
}
