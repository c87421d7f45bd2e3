/** One whole Reconcile: it ends, a fault-free one repairs everything, and a second one changes nothing. */
module Convergence {
  import opened Options
  import opened Cluster
  import opened Children
  import opened Operator

  // ---------- Reconcile from start to return ----------

  /** An upper bound on the steps until the process returns. */
  function StepsLeft(p: Process): nat {
    match p
    case Idle(_) => 0
    case Fetching => 20
    case Busy(pc, _) =>
      match pc
      case AddFinalizer => 19
      case SetPending => 18
      case SetCreating => 17
      case Get(k) => 16 - 2 * KindRank(k)
      case Write(k, _, _) => 15 - 2 * KindRank(k)
      case ReadDeployment => 4
      case WriteRunning => 3
      case WriteStarting => 3
      case WriteFailed(_) => 2
      case Notify => 1
      case DelStatus => 10
      case DelGetNamespace => 9
      case DelNamespace => 8
      case DelFinalizer => 7
  }

  function KindRank(k: Kind): (n: nat)
    ensures n <= 4
  {
    match k
    case KNamespace => 0
    case KPvc => 1
    case KDeployment => 2
    case KService => 3
    case KNetworkPolicy => 4
  }

  function Head(fates: seq<Fate>): Fate {
    if fates == [] then Answered else fates[0]
  }

  function Tail(fates: seq<Fate>): seq<Fate> {
    if fates == [] then [] else fates[1..]
  }

  /** Whatever becomes of its calls, every step brings the process closer to returning. */
  lemma StepGetsCloser(c: Config, w: World, fate: Fate)
    requires !w.proc.Idle?
    ensures StepsLeft(StepProcess(c, w, fate).proc) < StepsLeft(w.proc)
  {
    hide AsDesired, ChildAccepted, PutChild, PutStatus, Store, Collect;
    if w.proc.Busy? && w.proc.pc.Write? {
      WriteGoes(c, w, w.proc.own, w.proc.pc.kind, w.proc.pc.seen, w.proc.pc.found, fate);
    }
  }

  lemma WriteGoes(c: Config, w: World, own: Inst, k: Kind, seen: Namespace, found: bool, fate: Fate)
    ensures var p := StepWrite(c, w, own, k, seen, found, fate).proc;
      p == Busy(NextKind(k), own) || p == Busy(WriteFailed(k), own)
  {
    hide AsDesired, ChildAccepted, PutChild;
  }

  /** The process runs on undisturbed until it returns; fates says what becomes of its steps in turn. */
  function RunReconcile(c: Config, w: World, fates: seq<Fate>): (v: World)
    ensures v.proc.Idle?
    decreases StepsLeft(w.proc)
  {
    if w.proc.Idle? then w
    else
      StepGetsCloser(c, w, Head(fates));
      RunReconcile(c, StepProcess(c, w, Head(fates)), Tail(fates))
  }

  // ---------- Fault-free steps ----------

  lemma RunStep(c: Config, w: World)
    requires !w.proc.Idle?
    ensures RunReconcile(c, w, []) == RunReconcile(c, StepProcess(c, w, Answered), [])
  {
    hide StepProcess;
  }

  /** CreateOrUpdate on one kind of child. */
  lemma ChildStep(c: Config, w: World, own: Inst, k: Kind)
    requires w.proc == Busy(Get(k), own)
    requires k.KNamespace? || w.ns.Active?
    ensures RunReconcile(c, w, []) == RunReconcile(c, Go(PutChild(c, w, own.spec, k), NextKind(k), own), [])
  {
    RunStep(c, w);
    var v := Go(w, Write(k, w.ns, Exists(w, k)), own);
    assert StepProcess(c, w, Answered) == v;
    RunStep(c, v);
    WriteStepOk(c, v, own, k);
    PutChildGo(c, w, own, k, Write(k, w.ns, Exists(w, k)));
    hide RunReconcile;
  }

  lemma PutChildGo(c: Config, w: World, own: Inst, k: Kind, pc: Pc)
    ensures Go(PutChild(c, Go(w, pc, own), own.spec, k), NextKind(k), own) ==
      Go(PutChild(c, w, own.spec, k), NextKind(k), own)
  {
    hide DesiredDeployment, DesiredLabels, DesiredPvc;
  }

  lemma WriteStepOk(c: Config, w: World, own: Inst, k: Kind)
    requires w.proc == Busy(Write(k, w.ns, Exists(w, k)), own)
    requires k.KNamespace? || w.ns.Active?
    ensures StepProcess(c, w, Answered) == Go(PutChild(c, w, own.spec, k), NextKind(k), own)
  {
    if AsDesired(c, w, own.spec, k) { PutDesired(c, w, own.spec, k); }
    hide AsDesired, PutChild;
  }

  /** Writing a child that is as desired already changes nothing. */
  lemma PutDesired(c: Config, w: World, s: Spec, k: Kind)
    requires AsDesired(c, w, s, k)
    ensures PutChild(c, w, s, k) == w
  {
  }

  // ---------- The three parts of a fault-free reconcile ----------

  /** All five kinds of children brought about. */
  function AllChildren(c: Config, w: World, s: Spec): World {
    var w2 := PutChild(c, PutChild(c, w, s, KNamespace), s, KPvc);
    PutChild(c, PutChild(c, PutChild(c, w2, s, KDeployment), s, KService), s, KNetworkPolicy)
  }

  lemma ChildrenRun(c: Config, w: World, own: Inst)
    requires w.proc == Busy(Get(KNamespace), own) && !w.ns.Ending?
    ensures RunReconcile(c, w, []) == RunReconcile(c, Go(AllChildren(c, w, own.spec), ReadDeployment, own), [])
  {
    var s := own.spec;
    hide RunReconcile, DesiredDeployment, DesiredLabels, DesiredPvc;
    var w1 := Go(PutChild(c, w, s, KNamespace), Get(KPvc), own);
    ChildStep(c, w, own, KNamespace);
    var w2 := Go(PutChild(c, w1, s, KPvc), Get(KDeployment), own);
    ChildStep(c, w1, own, KPvc);
    var w3 := Go(PutChild(c, w2, s, KDeployment), Get(KService), own);
    ChildStep(c, w2, own, KDeployment);
    var w4 := Go(PutChild(c, w3, s, KService), Get(KNetworkPolicy), own);
    ChildStep(c, w3, own, KService);
    ChildStep(c, w4, own, KNetworkPolicy);
    assert Go(PutChild(c, w4, s, KNetworkPolicy), ReadDeployment, own) == Go(AllChildren(c, w, s), ReadDeployment, own);
  }

  /** The instance as a reconcile finds it after finalizer and first phases. */
  predicate Prepared(w: World, i: Inst) {
    && w.inst.Some?
    && i == w.inst.value.(resourceVersion := i.resourceVersion, ours := true,
                          status := w.inst.value.status.(phase := i.status.phase))
    && i.status.phase == (if w.inst.value.status.phase.NoPhase? || w.inst.value.status.phase.Pending? then Creating
                          else w.inst.value.status.phase)
    && (w.inst.value.ours && i.status.phase == w.inst.value.status.phase ==> i == w.inst.value)
  }

  /** The world with the instance prepared, at the first kind of children. */
  predicate AtChildren(w: World, v: World) {
    && v.proc.Busy? && v.proc.pc == Get(KNamespace) && v.inst == Some(v.proc.own) && Prepared(w, v.proc.own)
    && v == w.(inst := v.inst, nextVersion := v.nextVersion, proc := v.proc)
    && (v.inst == w.inst ==> v.nextVersion == w.nextVersion)
  }

  lemma CreatingRun(c: Config, w: World) returns (v: World)
    requires w.proc.Busy? && w.proc.pc.SetCreating? && w.inst == Some(w.proc.own) && w.proc.own.status.phase.Pending?
    ensures RunReconcile(c, w, []) == RunReconcile(c, v, [])
    ensures v.proc.Busy? && v.proc.pc == Get(KNamespace) && v.inst == Some(v.proc.own)
    ensures v == w.(inst := v.inst, nextVersion := v.nextVersion, proc := v.proc)
    ensures v.proc.own == w.proc.own.(resourceVersion := v.proc.own.resourceVersion,
                                      status := w.proc.own.status.(phase := Creating))
  {
    RunStep(c, w);
    v := StepProcess(c, w, Answered);
    hide RunReconcile;
  }

  lemma PendingRun(c: Config, w: World) returns (v: World)
    requires w.proc.Busy? && w.proc.pc.SetPending? && w.inst == Some(w.proc.own) && w.proc.own.status.phase.NoPhase?
    ensures RunReconcile(c, w, []) == RunReconcile(c, v, [])
    ensures v.proc.Busy? && v.proc.pc == Get(KNamespace) && v.inst == Some(v.proc.own)
    ensures v == w.(inst := v.inst, nextVersion := v.nextVersion, proc := v.proc)
    ensures v.proc.own == w.proc.own.(resourceVersion := v.proc.own.resourceVersion,
                                      status := w.proc.own.status.(phase := Creating))
  {
    RunStep(c, w);
    var u := StepProcess(c, w, Answered);
    hide RunReconcile, StepProcess;
    SetPendingStep(c, w);
    v := CreatingRun(c, u);
  }

  lemma SetPendingStep(c: Config, w: World)
    requires w.proc.Busy? && w.proc.pc.SetPending? && w.inst == Some(w.proc.own) && w.proc.own.status.phase.NoPhase?
    ensures var u := StepProcess(c, w, Answered);
      && u.proc.Busy? && u.proc.pc.SetCreating? && u.inst == Some(u.proc.own)
      && u == w.(inst := u.inst, nextVersion := u.nextVersion, proc := u.proc)
      && u.proc.own == w.proc.own.(resourceVersion := u.proc.own.resourceVersion,
                                   status := w.proc.own.status.(phase := Pending))
  {
  }

  /** From the finalizer on, with a current copy. */
  lemma PhasesRun(c: Config, w: World) returns (v: World)
    requires w.proc.Busy? && w.inst == Some(w.proc.own) && w.proc.own.ours && w.proc.pc == AfterFinalizer(w.proc.own)
    ensures RunReconcile(c, w, []) == RunReconcile(c, v, [])
    ensures AtChildren(w, v)
  {
    hide RunReconcile;
    if w.proc.own.status.phase.NoPhase? {
      v := PendingRun(c, w);
    } else if w.proc.own.status.phase.Pending? {
      v := CreatingRun(c, w);
    } else {
      v := w;
    }
  }

  lemma PrologueRun(c: Config, w: World) returns (v: World)
    requires w.proc.Fetching? && w.inst.Some? && !w.inst.value.deleting
    ensures RunReconcile(c, w, []) == RunReconcile(c, v, [])
    ensures AtChildren(w, v)
  {
    RunStep(c, w);
    var u := StepProcess(c, w, Answered);
    hide RunReconcile;
    if !w.inst.value.ours {
      RunStep(c, u);
      u := StepProcess(c, u, Answered);
    }
    v := PhasesRun(c, u);
  }

  /** What the deployment's readiness makes of the status. */
  function FinalStatus(c: Config, own: Inst, ready: nat): Status {
    if ready >= 1 then RunningStatus(c, own) else StartingStatus(c, own)
  }

  /** The last status write, for status s. */
  predicate Persisted(w: World, v: World, own: Inst, s: Status) {
    && v.inst.Some? && v.inst.value == own.(resourceVersion := v.inst.value.resourceVersion, status := s)
    && (own.status == s ==> v.inst == w.inst && v.nextVersion == w.nextVersion)
    && v.proc == Idle(if s.phase.Running? then Quiet else Requeue)
    && v == w.(inst := v.inst, nextVersion := v.nextVersion, proc := v.proc,
               transitions := v.transitions, sent := v.sent, dropped := v.dropped)
    && (own.status.phase.Running? || s.phase.Starting? ==>
          v.transitions == w.transitions && v.sent == w.sent && v.dropped == w.dropped)
  }

  lemma StartingRun(c: Config, w: World, own: Inst)
    requires w.proc == Busy(WriteStarting, own) && w.inst == Some(own)
    ensures Persisted(w, RunReconcile(c, w, []), own, StartingStatus(c, own))
  {
    RunStep(c, w);
  }

  lemma RunningRun(c: Config, w: World, own: Inst)
    requires w.proc == Busy(WriteRunning, own) && w.inst == Some(own)
    ensures Persisted(w, RunReconcile(c, w, []), own, RunningStatus(c, own))
  {
    RunStep(c, w);
    var t := StepProcess(c, w, Answered);
    if t.proc.Busy? {
      RunStep(c, t);
    }
  }

  lemma EpilogueRun(c: Config, w: World, own: Inst)
    requires w.proc == Busy(ReadDeployment, own) && w.inst == Some(own) && w.deploy.Some?
    ensures Persisted(w, RunReconcile(c, w, []), own, FinalStatus(c, own, w.deploy.value.readyReplicas))
  {
    RunStep(c, w);
    var u := StepProcess(c, w, Answered);
    hide RunReconcile;
    if w.deploy.value.readyReplicas >= 1 {
      RunningRun(c, u, own);
    } else {
      StartingRun(c, u, own);
    }
  }

  // ---------- Convergence ----------

  /** Labels other than the operator's own. */
  predicate ForeignKept(a: map<string, string>, b: map<string, string>) {
    forall l | l in a && l != "clawbake.io/instance" && l != "clawbake.io/user-id" :: l in b && b[l] == a[l]
  }

  function ReadyBefore(w: World): nat {
    if w.deploy.Some? then w.deploy.value.readyReplicas else 0
  }

  lemma ChildrenFacts(c: Config, w: World, s: Spec)
    requires !w.ns.Ending?
    ensures var v := AllChildren(c, w, s);
      && v == w.(ns := v.ns, pvc := v.pvc, deploy := v.deploy, svc := v.svc, np := v.np)
      && v.ns.Active? && v.ns.labels == DesiredLabels(c, s, if w.ns.Active? then w.ns.labels else map[])
      && v.pvc == (if w.pvc.Some? then w.pvc else Some(DesiredPvc(c, s)))
      && v.deploy == Some(Deployment(DesiredDeployment(c, s), ReadyBefore(w)))
      && v.svc == Some(DesiredService(c)) && v.np == Some(DesiredNetworkPolicy(c))
  {
    hide DesiredDeployment, DesiredLabels, DesiredPvc;
  }

  /** What a fault-free reconcile of a live instance leaves, in the operator's own terms. */
  lemma ReconcileRun(c: Config, w: World)
    requires w.proc.Fetching? && w.inst.Some? && !w.inst.value.deleting && !w.ns.Ending?
    ensures var v, s := RunReconcile(c, w, []), w.inst.value.spec;
      && v.inst.Some? && v.inst.value.spec == s && v.inst.value.ours && !v.inst.value.deleting
      && v.inst.value.generation == w.inst.value.generation
      && v.ns.Active? && v.ns.labels == DesiredLabels(c, s, if w.ns.Active? then w.ns.labels else map[])
      && v.pvc == (if w.pvc.Some? then w.pvc else Some(DesiredPvc(c, s)))
      && v.deploy == Some(Deployment(DesiredDeployment(c, s), ReadyBefore(w)))
      && v.svc == Some(DesiredService(c)) && v.np == Some(DesiredNetworkPolicy(c))
      && v.inst.value.status == FinalStatus(c, v.inst.value, ReadyBefore(w))
      && v.proc == Idle(if ReadyBefore(w) >= 1 then Quiet else Requeue)
      && v.vol == w.vol && v.saves == w.saves
  {
    var u := PrologueRun(c, w);
    var own := u.proc.own;
    ChildrenRun(c, u, own);
    ChildrenFacts(c, u, own.spec);
    var t := Go(AllChildren(c, u, own.spec), ReadDeployment, own);
    hide RunReconcile, AllChildren, DesiredDeployment, DesiredLabels, DesiredPvc;
    EpilogueRun(c, t, own);
  }

  /**
    Whatever state the children are in, one fault-free reconcile of a live
    instance makes the deployment run the spec, exposes it to the server alone,
    labels the namespace and keeps its other labels, leaves an existing volume
    claim as it is and creates a missing one, and records Running or Starting by
    readiness for the current generation.
   */
  lemma Converges(c: Config, w: World)
    requires w.proc.Fetching? && w.inst.Some? && !w.inst.value.deleting && !w.ns.Ending?
    ensures var v, s, ready := RunReconcile(c, w, []), w.inst.value.spec, ReadyBefore(w);
      && v.inst.Some? && v.inst.value.spec == s && v.inst.value.ours && !v.inst.value.deleting
      && v.inst.value.generation == w.inst.value.generation
      && v.ns.Active? && Labelled(c, s, if w.ns.Active? then w.ns.labels else map[], v.ns.labels)
      && (w.pvc.Some? ==> v.pvc == w.pvc)
      && (w.pvc == None ==>
            v.pvc == Some(Pvc(c.name, if s.storageSize == "" then "5Gi" else s.storageSize, s.storageClass)))
      && v.deploy.Some? && v.deploy.value.readyReplicas == ready
      && RunsSpec(c, s, v.deploy.value.spec) && Exposes(c, v.deploy.value.spec, v.svc, v.np)
      && v.inst.value.status.phase == (if ready >= 1 then Running else Starting)
      && v.inst.value.status.namespace == "clawbake-" + c.name
      && v.inst.value.status.ready ==
           Some(Condition(ready >= 1, if ready >= 1 then ReconcileComplete else WaitingForReady,
                          w.inst.value.generation))
      && v.proc == Idle(if ready >= 1 then Quiet else Requeue)
      && v.vol == w.vol && v.saves == w.saves
  {
    ReconcileRun(c, w);
    DesiredChildrenFit(c, w.inst.value.spec);
    hide RunReconcile, RunsSpec, Exposes, Labelled;
    hide DesiredDeployment, DesiredService, DesiredNetworkPolicy, DesiredLabels;
  }

  lemma ForeignLabelsKept(c: Config, s: Spec, labels: map<string, string>)
    ensures ForeignKept(labels, DesiredLabels(c, s, labels))
    ensures DesiredLabels(c, s, DesiredLabels(c, s, labels)) == DesiredLabels(c, s, labels)
  {
  }

  /** A world a reconcile would leave as it is. */
  predicate Stable(c: Config, w: World) {
    && w.inst.Some? && !w.inst.value.deleting && w.inst.value.ours && w.ns.Active?
    && AsDesired(c, w, w.inst.value.spec, KNamespace) && w.pvc.Some? && w.deploy.Some?
    && AsDesired(c, w, w.inst.value.spec, KDeployment)
    && AsDesired(c, w, w.inst.value.spec, KService) && AsDesired(c, w, w.inst.value.spec, KNetworkPolicy)
    && w.inst.value.status == FinalStatus(c, w.inst.value, ReadyBefore(w))
  }

  /** A fault-free reconcile of a stable world stores nothing and announces nothing. */
  lemma StableStays(c: Config, w: World)
    requires Stable(c, w) && w.proc.Fetching?
    ensures RunReconcile(c, w, []).(proc := w.proc) == w
  {
    var u := PrologueRun(c, w);
    var own := u.proc.own;
    assert u == w.(proc := u.proc);
    ChildrenRun(c, u, own);
    PutDesired(c, u, own.spec, KNamespace);
    PutDesired(c, u, own.spec, KPvc);
    PutDesired(c, u, own.spec, KDeployment);
    PutDesired(c, u, own.spec, KService);
    PutDesired(c, u, own.spec, KNetworkPolicy);
    assert AllChildren(c, u, own.spec) == u;
    var t := Go(u, ReadDeployment, own);
    hide RunReconcile, AllChildren, DesiredDeployment, DesiredLabels;
    EpilogueRun(c, t, own);
  }

  /** A second reconcile with unchanged inputs changes no stored object. */
  lemma SecondReconcileIdle(c: Config, w: World)
    requires w.proc.Fetching? && w.inst.Some? && !w.inst.value.deleting && !w.ns.Ending?
    ensures var v := RunReconcile(c, w, []);
      Stable(c, v) && RunReconcile(c, v.(proc := Fetching), []).(proc := Fetching) == v.(proc := Fetching)
  {
    ReconcileRun(c, w);
    ForeignLabelsKept(c, w.inst.value.spec, if w.ns.Active? then w.ns.labels else map[]);
    var v := RunReconcile(c, w, []);
    hide RunReconcile, DesiredDeployment, DesiredLabels, DesiredPvc;
    StableStays(c, v.(proc := Fetching));
  }

  // ---------- Failure ----------

  /**
    A reconcile whose call for a child fails says so: it records Failed with that
    child as the reason, not ready at the instance's generation, touches no child,
    and returns an error.
   */
  lemma FailureRecorded(c: Config, w: World, own: Inst, k: Kind)
    requires w.proc == Busy(Get(k), own) && w.inst == Some(own)
    ensures var v := RunReconcile(c, w, [Fails]);
      && v.proc == Idle(Error) && v.inst.Some?
      && v.inst.value.status.phase == Failed && v.inst.value.status.namespace == own.status.namespace
      && v.inst.value.status.ready == Some(Condition(false, ChildFailed(k), own.generation))
      && v == w.(proc := v.proc, inst := v.inst, nextVersion := v.nextVersion)
      && v.inst.value == own.(status := v.inst.value.status, resourceVersion := v.inst.value.resourceVersion)
  {
    var u := Go(w, WriteFailed(k), own);
    assert StepProcess(c, w, Fails) == u;
    assert RunReconcile(c, w, [Fails]) == RunReconcile(c, u, []);
    RunStep(c, u);
  }

  // ---------- Deletion ----------

  /** What a fault-free reconcile leaves of an instance on its way out. */
  predicate Released(w: World, v: World)
    requires w.inst.Some?
  {
    var i := w.inst.value;
    && v.ns == (if w.ns.Absent? then Absent else Ending(w.ns.labels))
    && (if i.others then
          && v.inst.Some?
          && v.inst.value == i.(resourceVersion := v.inst.value.resourceVersion, ours := false,
                                status := i.status.(phase := Terminating))
        else v.inst == None)
    && v == w.(inst := v.inst, ns := v.ns, nextVersion := v.nextVersion, proc := v.proc)
  }

  lemma FinalizerRun(c: Config, w: World, own: Inst)
    requires w.proc == Busy(DelFinalizer, own) && w.inst == Some(own) && own.deleting && own.ours
    ensures var v := RunReconcile(c, w, []);
      && v.proc == Idle(Quiet)
      && v == w.(inst := v.inst, nextVersion := v.nextVersion, proc := v.proc)
      && (if own.others then
            v.inst.Some? && v.inst.value == own.(resourceVersion := v.inst.value.resourceVersion, ours := false)
          else v.inst == None)
  {
    RunStep(c, w);
  }

  lemma NamespaceRun(c: Config, w: World, own: Inst) returns (v: World)
    requires w.proc == Busy(DelGetNamespace, own)
    ensures RunReconcile(c, w, []) == RunReconcile(c, v, [])
    ensures v == w.(ns := if w.ns.Absent? then Absent else Ending(w.ns.labels), proc := Busy(DelFinalizer, own))
  {
    RunStep(c, w);
    v := StepProcess(c, w, Answered);
    hide RunReconcile;
    if !w.ns.Absent? {
      RunStep(c, v);
      v := StepProcess(c, v, Answered);
    }
  }

  lemma TerminatingRun(c: Config, w: World) returns (v: World)
    requires w.proc.Fetching? && w.inst.Some? && w.inst.value.deleting && w.inst.value.ours
    ensures RunReconcile(c, w, []) == RunReconcile(c, v, [])
    ensures v.inst.Some? && v.proc == Busy(DelGetNamespace, v.inst.value)
    ensures v == w.(inst := v.inst, nextVersion := v.nextVersion, proc := v.proc)
    ensures v.inst.value == w.inst.value.(resourceVersion := v.inst.value.resourceVersion,
                                          status := w.inst.value.status.(phase := Terminating))
  {
    RunStep(c, w);
    var u := StepProcess(c, w, Answered);
    RunStep(c, u);
    v := StepProcess(c, u, Answered);
    hide RunReconcile;
  }

  /**
    One fault-free reconcile of a deleted instance leaves no active namespace and
    no finalizer of the operator, and the instance goes unless somebody else's
    finalizer holds it; it touches nothing else.
   */
  lemma DeletionCompletes(c: Config, w: World)
    requires w.proc.Fetching? && w.inst.Some? && w.inst.value.deleting && w.inst.value.ours
    ensures Released(w, RunReconcile(c, w, [])) && RunReconcile(c, w, []).proc == Idle(Quiet)
  {
    var u := TerminatingRun(c, w);
    var own := u.inst.value;
    var t := NamespaceRun(c, u, own);
    hide RunReconcile;
    FinalizerRun(c, t, own);
  }
}
