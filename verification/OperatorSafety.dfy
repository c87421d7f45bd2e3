/** What every reachable world satisfies. */
module OperatorSafety {
  import opened Options
  import opened Cluster
  import opened Volume
  import opened Operator

  // ---------- Instances and copies of them ----------

  /** Config generations only grow, and a generation stands for one config. */
  predicate SpecNotNewer(a: Spec, b: Spec) {
    && a.configGeneration <= b.configGeneration
    && (a.configGeneration == b.configGeneration ==> a.gatewayConfig == b.gatewayConfig)
  }

  /** How one object's stored versions relate over time. */
  predicate Evolves(a: Inst, b: Inst) {
    && a.uid == b.uid && a.generation <= b.generation
    && (a.generation == b.generation ==> a.spec == b.spec && a.deleting == b.deleting)
    && SpecNotNewer(a.spec, b.spec)
    && (a.deleting ==> b.deleting)
  }

  /** A copy someone holds: the stored object itself while the version is the same, an earlier state of it otherwise. */
  predicate CopyOk(w: World, own: Inst) {
    && own.uid <= own.resourceVersion < w.nextVersion
    && (w.inst.Some? && own.resourceVersion == w.inst.value.resourceVersion ==> own == w.inst.value)
    && (w.inst.Some? && own.uid == w.inst.value.uid ==> Evolves(own, w.inst.value))
  }

  /** Which Ready condition goes with which phase. */
  predicate StatusOk(c: Config, i: Inst) {
    && (i.status.phase.NoPhase? || i.status.phase.Pending? || i.status.phase.Creating? ==> i.status.ready == None)
    && (i.status.phase.Running? ==> i.status.ready.Some? && i.status.ready.value.status)
    && (i.status.phase.Starting? || i.status.phase.Failed? ==> i.status.ready.Some? && !i.status.ready.value.status)
    && (i.status.phase.Running? || i.status.phase.Starting? ==> i.status.namespace == NamespaceName(c))
    && (i.status.phase.Terminating? ==> i.deleting)
    && (i.status.ready.Some? ==> i.status.ready.value.observedGeneration <= i.generation)
  }

  predicate InstInv(c: Config, w: World) {
    w.inst.Some? ==> StatusOk(c, w.inst.value) && w.inst.value.uid <= w.inst.value.resourceVersion < w.nextVersion
  }

  predicate SavesInv(w: World) {
    forall id | id in w.saves :: CopyOk(w, w.saves[id])
  }

  // ---------- The operator process ----------

  predicate Deletes(pc: Pc) {
    pc.DelStatus? || pc.DelGetNamespace? || pc.DelNamespace? || pc.DelFinalizer?
  }

  /** The instance is still there, the same one, with the operator's finalizer. */
  predicate Held(w: World, own: Inst) {
    w.inst.Some? && w.inst.value.uid == own.uid && w.inst.value.ours
  }

  predicate PastCreation(p: Phase) {
    !p.NoPhase? && !p.Pending? && !p.Terminating?
  }

  /** What the operator knows while it looks after a live instance. */
  predicate MainInv(w: World, pc: Pc, own: Inst) {
    && !own.deleting && own.ours && Held(w, own) && !w.ns.Ending?
    && (w.inst.value.status.ready.Some? ==> w.inst.value.status.ready.value.observedGeneration <= own.generation)
    && (pc.SetPending? ==> own.status.phase.NoPhase?)
    && (pc.SetCreating? ==> own.status.phase.Pending?)
    && (!pc.SetPending? && !pc.SetCreating? ==> PastCreation(own.status.phase))
    && (pc.Notify? ==> own.status.phase.Running?)
  }

  predicate ProcInv(c: Config, w: World) {
    w.proc.Busy? ==>
      var pc, own := w.proc.pc, w.proc.own;
      && CopyOk(w, own) && StatusOk(c, own)
      && (Deletes(pc) ==> own.deleting && own.ours && Held(w, own))
      && (pc.DelFinalizer? ==> !w.ns.Active?)
      && (pc.AddFinalizer? ==> !own.deleting && !own.ours)
      && (!Deletes(pc) && !pc.AddFinalizer? ==> MainInv(w, pc, own))
  }

  // ---------- The children ----------

  /** No orphaned namespace, and nothing outside a namespace. */
  predicate NamespaceInv(w: World) {
    && (w.ns.Active? ==> w.inst.Some? && w.inst.value.ours)
    && (w.ns.Ending? ==> w.inst == None || w.inst.value.deleting)
    && (w.ns.Absent? ==> w.pvc == None && w.deploy == None && w.svc == None && w.np == None && w.vol == EMPTY)
  }

  predicate DeployDone(c: Config, w: World, s: Spec) {
    w.deploy.Some? && w.deploy.value.spec == DesiredDeployment(c, s)
  }

  /** How many kinds of children the operator has been through at a program counter. */
  function Stage(pc: Pc): nat {
    match pc
    case Get(k) => Rank(k)
    case Write(k, _, _) => Rank(k)
    case ReadDeployment => 5
    case WriteRunning => 5
    case WriteStarting => 5
    case Notify => 5
    case _ => 0
  }

  function Rank(k: Kind): nat {
    match k
    case KNamespace => 0
    case KPvc => 1
    case KDeployment => 2
    case KService => 3
    case KNetworkPolicy => 4
  }

  predicate StageInv(c: Config, w: World) {
    w.proc.Busy? ==>
      var n, s := Stage(w.proc.pc), w.proc.own.spec;
      && (n > 0 ==> w.ns.Active?)
      && (n > 1 ==> w.pvc.Some?)
      && (n > 2 ==> DeployDone(c, w, s))
      && (n > 3 ==> w.svc == Some(DesiredService(c)))
      && (n > 4 ==> w.np == Some(DesiredNetworkPolicy(c)))
  }

  /** The Ready condition says true for the current generation. */
  predicate ReadyNow(i: Inst) {
    i.status.ready.Some? && i.status.ready.value.status && i.status.ready.value.observedGeneration == i.generation
  }

  predicate AllDesired(c: Config, w: World, s: Spec) {
    DeployDone(c, w, s) && w.svc == Some(DesiredService(c)) && w.np == Some(DesiredNetworkPolicy(c))
  }

  predicate ReadyInv(c: Config, w: World) {
    w.inst.Some? && !w.inst.value.deleting && ReadyNow(w.inst.value) ==> AllDesired(c, w, w.inst.value.spec)
  }

  /** The deployed script is never newer than the instance's, nor than the copy the operator works from. */
  predicate ScriptInv(c: Config, w: World) {
    && (w.deploy.Some? && w.inst.Some? ==> NotNewer(w.deploy.value.spec.script, DesiredScript(c, w.inst.value.spec)))
    && (w.deploy.Some? && w.proc.Busy? && !Deletes(w.proc.pc) && !w.proc.pc.AddFinalizer? ==>
          NotNewer(w.deploy.value.spec.script, DesiredScript(c, w.proc.own.spec)))
    && VolumeInv(w.vol, DeployedScript(w))
  }

  /** Every transition into Running has been announced, is about to be, or was lost to a crash or a lost answer. */
  predicate CountInv(w: World) {
    w.transitions == w.sent + w.dropped + (if w.proc.Busy? && w.proc.pc.Notify? then 1 else 0)
  }

  predicate Inv(c: Config, w: World) {
    && InstInv(c, w) && SavesInv(w) && ProcInv(c, w) && NamespaceInv(w)
    && StageInv(c, w) && ReadyInv(c, w) && ScriptInv(c, w) && CountInv(w)
  }

  // ---------- Writes to the instance ----------

  lemma StoreCopy(w: World, i: Inst, own: Inst)
    requires w.inst.Some? && CopyOk(w, own) && CopyOk(w, w.inst.value) && Evolves(w.inst.value, i)
    requires i.resourceVersion == w.inst.value.resourceVersion
    ensures CopyOk(Store(w, i), own)
    ensures Store(w, i).inst.Some? && CopyOk(Store(w, i), Store(w, i).inst.value)
  {
  }

  lemma StoreSaves(w: World, i: Inst)
    requires w.inst.Some? && SavesInv(w) && CopyOk(w, w.inst.value) && Evolves(w.inst.value, i)
    requires i.resourceVersion == w.inst.value.resourceVersion
    ensures SavesInv(Store(w, i))
  {
    forall id | id in w.saves ensures CopyOk(Store(w, i), w.saves[id]) {
      StoreCopy(w, i, w.saves[id]);
    }
  }

  /** The environment writes the instance: everything but the process's own progress carries over. */
  lemma EnvStore(c: Config, w: World, i: Inst)
    requires Inv(c, w) && w.inst.Some? && Evolves(w.inst.value, i) && StatusOk(c, i)
    requires i.resourceVersion == w.inst.value.resourceVersion
    requires i.ours == w.inst.value.ours && i.status == w.inst.value.status
    requires !i.deleting && ReadyNow(i) ==> i.spec == w.inst.value.spec && ReadyNow(w.inst.value)
    ensures Inv(c, Store(w, i))
  {
    StoreSaves(w, i);
    if w.proc.Busy? { StoreCopy(w, i, w.proc.own); }
  }

  lemma CollectInv(c: Config, w: World)
    requires Inv(c, w)
    ensures Inv(c, Collect(w))
  {
    hide VolumeInv, StatusOk, DesiredScript, DesiredDeployment;
  }

  // ---------- The environment ----------

  lemma UserCreateInv(c: Config, w: World, s: Spec)
    requires Inv(c, w)
    ensures Inv(c, UserCreateStep(w, s))
  {
    hide VolumeInv, DesiredScript, DesiredDeployment;
  }

  lemma UserDeleteInv(c: Config, w: World)
    requires Inv(c, w)
    ensures Inv(c, UserDeleteStep(w))
  {
    if w.inst.Some? && !w.inst.value.deleting {
      var i := w.inst.value.(deleting := true, generation := w.inst.value.generation + 1);
      EnvStore(c, w, i);
      CollectInv(c, Store(w, i));
    }
  }

  lemma SaveBeginInv(c: Config, w: World, id: nat)
    requires Inv(c, w)
    ensures Inv(c, SaveBeginStep(w, id))
  {
    hide VolumeInv, DesiredScript, DesiredDeployment, StatusOk;
  }

  lemma ForgetSave(c: Config, w: World, id: nat)
    requires Inv(c, w)
    ensures Inv(c, w.(saves := w.saves - {id}))
  {
    hide VolumeInv, DesiredScript, DesiredDeployment, StatusOk;
  }

  lemma SaveIsFresh(c: Config, w: World, id: nat, config: string)
    requires Inv(c, w) && id in w.saves && Current(w, w.saves[id])
    ensures w.saves[id] == w.inst.value
    ensures var i := SavedInst(w.inst.value, config);
      Evolves(w.inst.value, i) && StatusOk(c, i) && !ReadyNow(i)
  {
    assert CopyOk(w, w.saves[id]);
    hide VolumeInv, DesiredScript, DesiredDeployment;
  }

  /** An accepted save is a save on top of the stored instance. */
  lemma SaveCommitInv(c: Config, w: World, id: nat, config: string)
    requires Inv(c, w)
    ensures Inv(c, SaveCommitStep(w, id, config))
  {
    if id in w.saves {
      ForgetSave(c, w, id);
      hide Inv, StatusOk;
      if Current(w, w.saves[id]) {
        SaveIsFresh(c, w, id, config);
        EnvStore(c, w.(saves := w.saves - {id}), SavedInst(w.inst.value, config));
      }
    }
  }

  lemma SetOthersInv(c: Config, w: World, others: bool)
    requires Inv(c, w)
    ensures Inv(c, SetOthersStep(w, others))
  {
    if w.inst.Some? {
      EnvStore(c, w, w.inst.value.(others := others));
      CollectInv(c, Store(w, w.inst.value.(others := others)));
    }
  }

  lemma NamespaceGoneInv(c: Config, w: World)
    requires Inv(c, w)
    ensures Inv(c, NamespaceGoneStep(w))
  {
    hide DesiredScript, DesiredDeployment;
  }

  lemma ReadinessInv(c: Config, w: World, n: nat)
    requires Inv(c, w)
    ensures Inv(c, Next(c, w, Readiness(n)))
  {
    hide VolumeInv, DesiredScript, DesiredDeployment, StatusOk;
  }

  lemma RelabelInv(c: Config, w: World, labels: map<string, string>)
    requires Inv(c, w)
    ensures Inv(c, Next(c, w, Relabel(labels)))
  {
    hide VolumeInv, DesiredScript, DesiredDeployment, StatusOk;
  }

  lemma OnVolumeInv(c: Config, w: World, e: VolumeEvent)
    requires Inv(c, w)
    ensures Inv(c, Next(c, w, OnVolume(e)))
  {
    VolumeStepInv(w.vol, DeployedScript(w), e);
    EmptyVolumeStays(e);
    hide VolumeInv, DesiredScript, DesiredDeployment, StatusOk, VolumeStep;
  }

  lemma EmptyVolumeStays(e: VolumeEvent)
    ensures VolumeStep(EMPTY, None, e) == EMPTY
  {
  }

  lemma CrashInv(c: Config, w: World)
    requires Inv(c, w)
    ensures Inv(c, CrashStep(w))
  {
    hide VolumeInv, DesiredScript, DesiredDeployment, StatusOk;
  }

  // ---------- The operator's steps ----------

  /** Giving up, returning or starting over needs nothing. */
  lemma ReturnInv(c: Config, w: World, o: Outcome)
    requires Inv(c, w) && !(w.proc.Busy? && w.proc.pc.Notify?)
    ensures Inv(c, Return(w, o)) && Inv(c, w.(proc := Fetching))
  {
    hide VolumeInv, DesiredScript, DesiredDeployment, StatusOk;
  }

  lemma FetchInv(c: Config, w: World, fate: Fate)
    requires Inv(c, w) && w.proc.Fetching?
    ensures Inv(c, StepFetch(w, fate))
  {
    hide VolumeInv, DesiredScript, DesiredDeployment;
  }

  lemma DelGetNamespaceInv(c: Config, w: World, own: Inst, fate: Fate)
    requires Inv(c, w) && w.proc == Busy(DelGetNamespace, own)
    ensures Inv(c, StepDelGetNamespace(w, own, fate))
  {
    hide VolumeInv, DesiredScript, DesiredDeployment, StatusOk;
  }

  lemma DelNamespaceInv(c: Config, w: World, own: Inst, fate: Fate)
    requires Inv(c, w) && w.proc == Busy(DelNamespace, own)
    ensures Inv(c, StepDelNamespace(w, own, fate))
  {
    hide VolumeInv, DesiredScript, DesiredDeployment, StatusOk;
  }

  lemma OwnStore(c: Config, w: World, i: Inst, p: Process)
    requires Inv(c, w) && w.inst.Some? && Evolves(w.inst.value, i) && StatusOk(c, i)
    requires i.resourceVersion == w.inst.value.resourceVersion && i.generation == w.inst.value.generation
    requires w.ns.Active? ==> i.ours
    requires !i.deleting && ReadyNow(i) ==> AllDesired(c, w, i.spec)
    requires p.Idle?
    requires !(w.proc.Busy? && w.proc.pc.Notify?)
    ensures Inv(c, Store(w, i).(proc := p))
  {
    StoreSaves(w, i);
    hide VolumeInv, DesiredScript, DesiredDeployment;
  }

  lemma DelFinalizerInv(c: Config, w: World, own: Inst, fate: Fate)
    requires Inv(c, w) && w.proc == Busy(DelFinalizer, own)
    ensures Inv(c, StepDelFinalizer(w, own, fate))
  {
    ReturnInv(c, w, Error);
    if !fate.Fails? && Current(w, own) {
      var i := w.inst.value.(ours := false);
      var o := if fate.Answered? then Quiet else Error;
      OwnStore(c, w, i, Idle(o));
      CollectInv(c, Store(w, i).(proc := Idle(o)));
      hide Inv;
    }
  }

  /** Where the operator may stand with a fresh copy of the instance. */
  predicate MayEnter(pc: Pc, i: Inst) {
    match pc
    case DelStatus => i.deleting && i.ours
    case DelGetNamespace => i.deleting && i.ours
    case AddFinalizer => !i.deleting && !i.ours
    case SetPending => !i.deleting && i.ours && i.status.phase.NoPhase?
    case SetCreating => !i.deleting && i.ours && i.status.phase.Pending?
    case Get(k) => k.KNamespace? && !i.deleting && i.ours && PastCreation(i.status.phase)
    case _ => false
  }

  lemma EnterInv(c: Config, w: World, pc: Pc)
    requires Inv(c, w) && !w.proc.Busy? && w.inst.Some? && MayEnter(pc, w.inst.value)
    ensures Inv(c, Go(w, pc, w.inst.value))
  {
    hide VolumeInv, DesiredScript, DesiredDeployment;
  }

  lemma AddFinalizerInv(c: Config, w: World, own: Inst, fate: Fate)
    requires Inv(c, w) && w.proc == Busy(AddFinalizer, own)
    ensures Inv(c, StepAddFinalizer(w, own, fate))
  {
    ReturnInv(c, w, Error);
    if !fate.Fails? && Current(w, own) {
      var i := w.inst.value.(ours := true);
      OwnStore(c, w, i, Idle(Error));
      var v := Store(w, i).(proc := Idle(Error));
      MayEnterAfterFinalizer(c, v);
      EnterInv(c, v, AfterFinalizer(v.inst.value));
      hide Inv;
    }
  }

  lemma MayEnterAfterFinalizer(c: Config, w: World)
    requires Inv(c, w) && w.inst.Some? && !w.inst.value.deleting && w.inst.value.ours
    ensures MayEnter(AfterFinalizer(w.inst.value), w.inst.value)
  {
  }

  /** A status write that keeps the Ready condition, then on with a fresh copy. */
  lemma StatusThenInv(c: Config, w: World, own: Inst, s: Status, fate: Fate, pc: Pc)
    requires Inv(c, w) && w.proc.Busy? && w.proc.own == own && !w.proc.pc.Notify?
    requires Current(w, own) ==>
      StatusOk(c, own.(status := s)) && MayEnter(pc, own.(status := s)) && s.ready == own.status.ready
    ensures Inv(c, StatusThen(w, own, s, fate, pc))
  {
    ReturnInv(c, w, Error);
    if !fate.Fails? && Current(w, own) {
      var i := w.inst.value.(status := s);
      OwnIsCurrent(c, w, own);
      ReadyKept(c, w, i);
      OwnStore(c, w, i, Idle(Error));
      var v := Store(w, i).(proc := Idle(Error));
      assert v.inst.value == i.(resourceVersion := v.inst.value.resourceVersion);
      EnterInv(c, v, pc);
      hide Inv;
    }
  }

  lemma OwnIsCurrent(c: Config, w: World, own: Inst)
    requires Inv(c, w) && w.proc.Busy? && w.proc.own == own && Current(w, own)
    ensures w.inst.value == own
  {
    hide VolumeInv, DesiredScript, DesiredDeployment;
  }

  lemma ReadyKept(c: Config, w: World, i: Inst)
    requires Inv(c, w) && w.inst.Some? && i.status.ready == w.inst.value.status.ready
    requires i.spec == w.inst.value.spec && i.generation == w.inst.value.generation
    requires i.deleting == w.inst.value.deleting
    requires i.ours == w.inst.value.ours
    ensures w.ns.Active? ==> i.ours
    ensures !i.deleting && ReadyNow(i) ==> AllDesired(c, w, i.spec)
  {
    hide VolumeInv, DesiredScript, DesiredDeployment;
  }

  lemma DelStatusInv(c: Config, w: World, own: Inst, fate: Fate)
    requires Inv(c, w) && w.proc == Busy(DelStatus, own)
    ensures Inv(c, StepDelStatus(w, own, fate))
  {
    StatusThenInv(c, w, own, own.status.(phase := Terminating), fate, DelGetNamespace);
  }

  lemma SetPendingInv(c: Config, w: World, own: Inst, fate: Fate)
    requires Inv(c, w) && w.proc == Busy(SetPending, own)
    ensures Inv(c, StatusThen(w, own, own.status.(phase := Pending), fate, SetCreating))
  {
    StatusThenInv(c, w, own, own.status.(phase := Pending), fate, SetCreating);
  }

  lemma SetCreatingInv(c: Config, w: World, own: Inst, fate: Fate)
    requires Inv(c, w) && w.proc == Busy(SetCreating, own)
    ensures Inv(c, StatusThen(w, own, own.status.(phase := Creating), fate, Get(KNamespace)))
  {
    StatusThenInv(c, w, own, own.status.(phase := Creating), fate, Get(KNamespace));
  }

  /** A status write followed by a return: the Ready condition may only say true when every child is as desired. */
  lemma StatusReturnInv(c: Config, w: World, own: Inst, s: Status, fate: Fate, o: Outcome)
    requires Inv(c, w) && w.proc.Busy? && w.proc.own == own && !w.proc.pc.Notify?
    requires Current(w, own) ==> StatusOk(c, own.(status := s)) && !own.deleting && own.ours
    requires s.ready.Some? && s.ready.value.status ==> AllDesired(c, w, own.spec)
    ensures Inv(c, StatusReturn(w, own, s, fate, o))
  {
    ReturnInv(c, w, Error);
    if !fate.Fails? && Current(w, own) {
      OwnIsCurrent(c, w, own);
      OwnStore(c, w, w.inst.value.(status := s), Idle(o));
      OwnStore(c, w, w.inst.value.(status := s), Idle(Error));
      hide Inv;
    }
  }

  lemma MainFacts(c: Config, w: World)
    requires Inv(c, w) && w.proc.Busy? && !Deletes(w.proc.pc) && !w.proc.pc.AddFinalizer?
    ensures MainInv(w, w.proc.pc, w.proc.own) && StatusOk(c, w.proc.own)
    ensures Stage(w.proc.pc) == 5 ==> AllDesired(c, w, w.proc.own.spec)
  {
    hide VolumeInv, DesiredScript, DesiredDeployment;
  }

  lemma WriteStartingInv(c: Config, w: World, own: Inst, fate: Fate)
    requires Inv(c, w) && w.proc == Busy(WriteStarting, own)
    ensures Inv(c, StatusReturn(w, own, StartingStatus(c, own), fate, Requeue))
  {
    MainFacts(c, w);
    StatusReturnInv(c, w, own, StartingStatus(c, own), fate, Requeue);
  }

  lemma WriteFailedInv(c: Config, w: World, own: Inst, k: Kind, fate: Fate)
    requires Inv(c, w) && w.proc == Busy(WriteFailed(k), own)
    ensures Inv(c, StatusReturn(w, own, FailedStatus(own, k), fate, Error))
  {
    MainFacts(c, w);
    StatusReturnInv(c, w, own, FailedStatus(own, k), fate, Error);
  }

  /** Counting a transition that is announced next, or not at all. */
  lemma CountTransition(c: Config, w: World)
    requires Inv(c, w) && !w.proc.Busy?
    ensures Inv(c, w.(transitions := w.transitions + 1, dropped := w.dropped + 1))
  {
    hide VolumeInv, DesiredScript, DesiredDeployment, StatusOk;
  }

  lemma EnterNotify(c: Config, w: World, v: World)
    requires Inv(c, w) && w.proc.Busy? && w.proc.pc.WriteRunning? && w.inst == Some(w.proc.own)
    requires Inv(c, v) && !v.proc.Busy? && v.inst.Some?
    requires v == Store(w, w.proc.own.(status := RunningStatus(c, w.proc.own))).(proc := v.proc)
    ensures Inv(c, Go(v.(transitions := v.transitions + 1), Notify, v.inst.value))
  {
    hide VolumeInv, DesiredScript, DesiredDeployment;
  }

  lemma WriteRunningInv(c: Config, w: World, own: Inst, fate: Fate)
    requires Inv(c, w) && w.proc == Busy(WriteRunning, own)
    ensures Inv(c, StepWriteRunning(c, w, own, fate))
  {
    MainFacts(c, w);
    if fate.Fails? || !Current(w, own) {
      ReturnInv(c, w, Error);
    } else {
      OwnIsCurrent(c, w, own);
      var o := if fate.Answered? then Quiet else Error;
      StatusReturnInv(c, w, own, RunningStatus(c, own), fate, Quiet);
      var v := StatusReturn(w, own, RunningStatus(c, own), fate, Quiet);
      assert v == PutStatus(w, own, RunningStatus(c, own)).(proc := Idle(o));
      CountTransition(c, v);
      EnterNotify(c, w, v);
      hide Inv;
    }
  }

  lemma NotifyInv(c: Config, w: World, own: Inst)
    requires Inv(c, w) && w.proc == Busy(Notify, own)
    ensures Inv(c, StepNotify(w))
  {
    hide VolumeInv, DesiredScript, DesiredDeployment, StatusOk;
  }

  /** Moving on within a reconcile with the same copy. */
  lemma MoveInv(c: Config, w: World, pc: Pc)
    requires Inv(c, w) && w.proc.Busy? && !Deletes(w.proc.pc) && !w.proc.pc.AddFinalizer?
    requires !w.proc.pc.SetPending? && !w.proc.pc.SetCreating? && !w.proc.pc.Notify?
    requires !Deletes(pc) && !pc.AddFinalizer? && !pc.SetPending? && !pc.SetCreating? && !pc.Notify?
    requires Stage(pc) <= Stage(w.proc.pc)
    ensures Inv(c, Go(w, pc, w.proc.own))
  {
    hide VolumeInv, DesiredScript, DesiredDeployment, StatusOk;
  }

  lemma GetInv(c: Config, w: World, own: Inst, k: Kind, fate: Fate)
    requires Inv(c, w) && w.proc == Busy(Get(k), own)
    ensures Inv(c, StepGet(w, own, k, fate))
  {
    MoveInv(c, w, WriteFailed(k));
    MoveInv(c, w, Write(k, w.ns, Exists(w, k)));
  }

  lemma ReadDeploymentInv(c: Config, w: World, own: Inst, fate: Fate)
    requires Inv(c, w) && w.proc == Busy(ReadDeployment, own)
    ensures Inv(c, StepReadDeployment(w, own, fate))
  {
    ReturnInv(c, w, Error);
    MoveInv(c, w, WriteRunning);
    MoveInv(c, w, WriteStarting);
    hide Inv;
  }

  /** A copy at work while the stored condition says ready for the current generation has the current spec. */
  lemma ReadyMeansCurrent(c: Config, w: World)
    requires Inv(c, w) && w.proc.Busy? && !Deletes(w.proc.pc) && !w.proc.pc.AddFinalizer?
    requires ReadyNow(w.inst.value) && !w.inst.value.deleting
    ensures w.proc.own.spec == w.inst.value.spec
  {
    hide VolumeInv, DesiredScript, DesiredDeployment;
  }

  lemma HeldNow(c: Config, w: World)
    requires Inv(c, w) && w.proc.Busy? && !Deletes(w.proc.pc) && !w.proc.pc.AddFinalizer?
    ensures Held(w, w.proc.own) && !w.ns.Ending? && SpecNotNewer(w.proc.own.spec, w.inst.value.spec)
  {
    hide VolumeInv, DesiredScript, DesiredDeployment;
  }

  /** Bringing about the deployment: its script replaces an older one. */
  lemma PutDeploymentInv(c: Config, w: World, own: Inst)
    requires Inv(c, w) && w.proc.Busy? && w.proc.own == own && w.proc.pc.Write? && w.proc.pc.kind.KDeployment?
    ensures Inv(c, PutChild(c, w, own.spec, KDeployment))
  {
    HeldNow(c, w);
    DeployInv(w.vol, DeployedScript(w), DesiredScript(c, own.spec));
    if ReadyNow(w.inst.value) && !w.inst.value.deleting { ReadyMeansCurrent(c, w); }
    ScriptsOrdered(c, own.spec, w.inst.value.spec);
    DesiredCarriesScript(c, own.spec);
    hide VolumeInv, DesiredScript, DesiredDeployment, StatusOk;
  }

  lemma DesiredCarriesScript(c: Config, s: Spec)
    ensures DesiredDeployment(c, s).script == DesiredScript(c, s)
  {
  }

  lemma ScriptsOrdered(c: Config, a: Spec, b: Spec)
    requires SpecNotNewer(a, b)
    ensures NotNewer(DesiredScript(c, a), DesiredScript(c, b)) && NotNewer(DesiredScript(c, a), DesiredScript(c, a))
  {
  }

  lemma PutOtherInv(c: Config, w: World, own: Inst, k: Kind)
    requires Inv(c, w) && w.proc.Busy? && w.proc.own == own && w.proc.pc.Write? && w.proc.pc.kind == k
    requires !k.KDeployment?
    ensures Inv(c, PutChild(c, w, own.spec, k))
  {
    HeldNow(c, w);
    hide VolumeInv, DesiredScript, DesiredDeployment, StatusOk;
  }

  /** With its child as desired the operator may go on to the next kind. */
  lemma AdvanceInv(c: Config, w: World, own: Inst, k: Kind)
    requires Inv(c, w) && w.proc.Busy? && w.proc.own == own && w.proc.pc.Write? && w.proc.pc.kind == k
    requires AsDesired(c, w, own.spec, k)
    ensures Inv(c, Go(w, NextKind(k), own))
  {
    hide VolumeInv, DesiredScript, DesiredDeployment, StatusOk;
  }

  lemma PutAsDesired(c: Config, w: World, s: Spec, k: Kind)
    ensures AsDesired(c, PutChild(c, w, s, k), s, k)
  {
    hide DesiredDeployment;
  }

  lemma WriteInv(c: Config, w: World, own: Inst, k: Kind, seen: Namespace, found: bool, fate: Fate)
    requires Inv(c, w) && w.proc == Busy(Write(k, seen, found), own)
    ensures Inv(c, StepWrite(c, w, own, k, seen, found, fate))
  {
    MoveInv(c, w, WriteFailed(k));
    if AsDesired(c, w, own.spec, k) { AdvanceInv(c, w, own, k); }
    if k.KDeployment? { PutDeploymentInv(c, w, own); } else { PutOtherInv(c, w, own, k); }
    var v := PutChild(c, w, own.spec, k);
    PutAsDesired(c, w, own.spec, k);
    assert v.proc == w.proc;
    AdvanceInv(c, v, own, k);
    MoveInv(c, v, WriteFailed(k));
    hide Inv, PutChild, AsDesired, ChildAccepted;
  }

  // ---------- Every run ----------

  lemma BusyInv(c: Config, w: World, pc: Pc, own: Inst, fate: Fate)
    requires Inv(c, w) && w.proc == Busy(pc, own)
    ensures Inv(c, StepBusy(c, w, pc, own, fate))
  {
    hide Inv;
    match pc
    case DelStatus => DelStatusInv(c, w, own, fate);
    case DelGetNamespace => DelGetNamespaceInv(c, w, own, fate);
    case DelNamespace => DelNamespaceInv(c, w, own, fate);
    case DelFinalizer => DelFinalizerInv(c, w, own, fate);
    case AddFinalizer => AddFinalizerInv(c, w, own, fate);
    case SetPending => SetPendingInv(c, w, own, fate);
    case SetCreating => SetCreatingInv(c, w, own, fate);
    case Get(k) => GetInv(c, w, own, k, fate);
    case Write(k, seen, found) => WriteInv(c, w, own, k, seen, found, fate);
    case ReadDeployment => ReadDeploymentInv(c, w, own, fate);
    case WriteRunning => WriteRunningInv(c, w, own, fate);
    case WriteStarting => WriteStartingInv(c, w, own, fate);
    case WriteFailed(k) => WriteFailedInv(c, w, own, k, fate);
    case Notify => NotifyInv(c, w, own);
  }

  /** Every event keeps the invariant. */
  lemma NextInv(c: Config, w: World, e: Event)
    requires Inv(c, w)
    ensures Inv(c, Next(c, w, e))
  {
    hide Inv;
    match e
    case Wake => if w.proc.Idle? { ReturnInv(c, w, Error); }
    case Reconcile(fate) =>
      match w.proc {
        case Idle(_) =>
        case Fetching => FetchInv(c, w, fate);
        case Busy(pc, own) => BusyInv(c, w, pc, own, fate);
      }
    case Crash => CrashInv(c, w);
    case UserCreate(s) => UserCreateInv(c, w, s);
    case UserDelete => UserDeleteInv(c, w);
    case SaveBegin(id) => SaveBeginInv(c, w, id);
    case SaveCommit(id, config) => SaveCommitInv(c, w, id, config);
    case SetOthers(others) => SetOthersInv(c, w, others);
    case Readiness(n) => ReadinessInv(c, w, n);
    case Relabel(labels) => RelabelInv(c, w, labels);
    case NamespaceGone => NamespaceGoneInv(c, w);
    case OnVolume(ve) => OnVolumeInv(c, w, ve);
  }

  predicate Reachable(c: Config, w: World, events: seq<Event>) {
    w == RunFrom(c, START, events)
  }

  lemma StartInv(c: Config)
    ensures Inv(c, START)
  {
  }

  lemma {:induction false} ReachableInv(c: Config, w: World, events: seq<Event>)
    requires Reachable(c, w, events)
    ensures Inv(c, w)
    decreases |events|
  {
    if events == [] {
      StartInv(c);
    } else {
      hide Inv, Next;
      var n := |events| - 1;
      ReachableInv(c, RunFrom(c, START, events[..n]), events[..n]);
      NextInv(c, RunFrom(c, START, events[..n]), events[n]);
    }
  }
}
