/** What the operator guarantees in every run, read off the invariant and off single steps. */
module OperatorTheorems {
  import opened Options
  import opened Cluster
  import opened Children
  import opened Volume
  import opened Operator
  import opened OperatorSafety

  // ---------- Every reachable world ----------

  /** An active namespace always has its instance, with the finalizer that will clean it up. */
  lemma NoOrphanedNamespace(c: Config, w: World, events: seq<Event>)
    requires Reachable(c, w, events) && w.ns.Active?
    ensures w.inst.Some? && w.inst.value.ours
  {
    ReachableInv(c, w, events);
  }

  /**
    Ready for the current generation means the children are those of the current
    spec: the deployment runs its image and token, writes its config, and service
    and network policy expose it and nothing else.
   */
  lemma ReadyVouches(c: Config, w: World, events: seq<Event>)
    requires Reachable(c, w, events)
    requires w.inst.Some? && !w.inst.value.deleting && ReadyNow(w.inst.value)
    ensures w.deploy.Some? && w.deploy.value.spec == DesiredDeployment(c, w.inst.value.spec)
    ensures w.svc == Some(DesiredService(c)) && w.np == Some(DesiredNetworkPolicy(c))
    ensures RunsSpec(c, w.inst.value.spec, w.deploy.value.spec) && Exposes(c, w.deploy.value.spec, w.svc, w.np)
  {
    ReachableInv(c, w, events);
    DesiredChildrenFit(c, w.inst.value.spec);
    hide RunsSpec, Exposes;
  }

  /** Marker generation <= file generation <= deployed generation <= the instance's config generation. */
  lemma GenerationChain(c: Config, w: World, events: seq<Event>)
    requires Reachable(c, w, events)
    ensures w.vol.file.Some? && w.vol.marker.Some? ==> w.vol.marker.value <= w.vol.file.value.generation
    ensures w.vol.file.Some? ==> w.deploy.Some? && w.vol.file.value.generation <= w.deploy.value.spec.script.generation
    ensures w.vol.marker.Some? ==> w.deploy.Some? && w.vol.marker.value <= w.deploy.value.spec.script.generation
    ensures w.deploy.Some? && w.inst.Some? ==>
      w.deploy.value.spec.script.generation <= w.inst.value.spec.configGeneration
    ensures w.deploy.Some? && w.inst.Some? ==>
      w.deploy.value.spec.script.generation == w.inst.value.spec.configGeneration ==>
      Carries(c, w.inst.value.spec, w.deploy.value.spec.script)
  {
    ReachableInv(c, w, events);
    GenerationOrder(w.vol, DeployedScript(w));
  }

  /** A running app's file is at its pod's generation and holds that generation's config unless it was edited. */
  lemma RunningFile(c: Config, w: World, events: seq<Event>)
    requires Reachable(c, w, events) && AppRuns(w.vol) && w.vol.file.Some?
    ensures w.vol.file.value.generation == w.vol.pod.script.generation
    ensures !w.vol.file.value.edited ==> w.vol.file.value.text == w.vol.pod.script.config
    ensures w.vol.marker.Some? ==> w.vol.marker.value == w.vol.pod.script.generation
  {
    ReachableInv(c, w, events);
  }

  /** Phases and the Ready condition go together. */
  lemma StatusConsistent(c: Config, w: World, events: seq<Event>)
    requires Reachable(c, w, events) && w.inst.Some?
    ensures var s := w.inst.value.status;
      && (s.phase.Pending? || s.phase.Creating? ==> s.ready == None)
      && (s.phase.Running? ==> s.ready.Some? && s.ready.value.status)
      && (s.phase.Starting? || s.phase.Failed? ==> s.ready.Some? && !s.ready.value.status)
      && (s.ready.Some? && s.ready.value.status ==> s.phase.Running? || s.phase.Terminating?)
      && (s.phase.Running? || s.phase.Starting? ==> s.namespace == "clawbake-" + c.name)
  {
    ReachableInv(c, w, events);
  }

  // ---------- Every step ----------

  /** The edges of the phase automaton. */
  predicate PhaseEdge(a: Phase, b: Phase) {
    || a == b
    || b.Terminating?
    || (a.NoPhase? && b.Pending?)
    || (a.Pending? && b.Creating?)
    || ((a.Creating? || a.Starting? || a.Running? || a.Failed?) && (b.Starting? || b.Running? || b.Failed?))
  }

  predicate SameObject(w: World, v: World) {
    w.inst.Some? && v.inst.Some? && w.inst.value.uid == v.inst.value.uid
  }

  /** What one step may do to the stored instance. */
  ghost predicate InstanceStep(w: World, v: World, saved: bool) {
    SameObject(w, v) ==>
      var a, b := w.inst.value, v.inst.value;
      && PhaseEdge(a.status.phase, b.status.phase)
      && (if saved then b.spec.configGeneration == a.spec.configGeneration + 1 && b.status == a.status
          else b.spec == a.spec)
  }

  predicate IsTransition(w: World, v: World) {
    SameObject(w, v) && !w.inst.value.status.phase.Running? && v.inst.value.status.phase.Running?
  }

  ghost predicate CountStep(w: World, v: World) {
    v.transitions == w.transitions + (if IsTransition(w, v) then 1 else 0)
  }

  lemma StatusThenStep(c: Config, w: World, own: Inst, s: Status, fate: Fate, pc: Pc)
    requires Inv(c, w) && w.proc.Busy? && w.proc.own == own
    requires PhaseEdge(own.status.phase, s.phase) && !s.phase.Running?
    ensures InstanceStep(w, StatusThen(w, own, s, fate, pc), false) && CountStep(w, StatusThen(w, own, s, fate, pc))
  {
    hide Inv;
    if !fate.Fails? && Current(w, own) {
      OwnIsCurrent(c, w, own);
      assert PutStatus(w, own, s) == Store(w, own.(status := s));
    }
  }

  lemma StatusReturnStep(c: Config, w: World, own: Inst, s: Status, fate: Fate, o: Outcome)
    requires Inv(c, w) && w.proc.Busy? && w.proc.own == own
    requires PhaseEdge(own.status.phase, s.phase) && !s.phase.Running?
    ensures InstanceStep(w, StatusReturn(w, own, s, fate, o), false) && CountStep(w, StatusReturn(w, own, s, fate, o))
  {
    hide Inv;
    if !fate.Fails? && Current(w, own) {
      OwnIsCurrent(c, w, own);
      assert PutStatus(w, own, s) == Store(w, own.(status := s));
    }
  }

  lemma WriteRunningStep(c: Config, w: World, own: Inst, fate: Fate)
    requires Inv(c, w) && w.proc == Busy(WriteRunning, own)
    ensures InstanceStep(w, StepWriteRunning(c, w, own, fate), false) && CountStep(w, StepWriteRunning(c, w, own, fate))
  {
    MainFacts(c, w);
    if Current(w, own) { OwnIsCurrent(c, w, own); }
    hide Inv;
  }

  lemma WriteStep(c: Config, w: World, own: Inst, k: Kind, seen: Namespace, found: bool, fate: Fate)
    ensures InstanceStep(w, StepWrite(c, w, own, k, seen, found, fate), false)
    ensures CountStep(w, StepWrite(c, w, own, k, seen, found, fate))
  {
    hide AsDesired, DesiredDeployment, DesiredLabels, DesiredPvc;
  }

  lemma BusyStep(c: Config, w: World, pc: Pc, own: Inst, fate: Fate)
    requires Inv(c, w) && w.proc == Busy(pc, own)
    ensures InstanceStep(w, StepBusy(c, w, pc, own, fate), false) && CountStep(w, StepBusy(c, w, pc, own, fate))
  {
    if !Deletes(pc) && !pc.AddFinalizer? { MainFacts(c, w); }
    hide Inv;
    match pc
    case DelStatus => StatusThenStep(c, w, own, own.status.(phase := Terminating), fate, DelGetNamespace);
    case SetPending => StatusThenStep(c, w, own, own.status.(phase := Pending), fate, SetCreating);
    case SetCreating => StatusThenStep(c, w, own, own.status.(phase := Creating), fate, Get(KNamespace));
    case Write(k, seen, found) => WriteStep(c, w, own, k, seen, found, fate);
    case WriteRunning => WriteRunningStep(c, w, own, fate);
    case WriteStarting => StatusReturnStep(c, w, own, StartingStatus(c, own), fate, Requeue);
    case WriteFailed(k) => StatusReturnStep(c, w, own, FailedStatus(own, k), fate, Error);
    case AddFinalizer =>
    case _ =>
  }

  /** A save takes effect only on top of the instance it read. */
  predicate SaveAccepted(w: World, e: Event) {
    e.SaveCommit? && e.id in w.saves && Current(w, w.saves[e.id])
  }

  /**
    In every run, every event moves the stored phase along an edge of the
    automaton, only an accepted save changes the spec - by exactly one config
    generation - and the transition counter counts the persisted moves into Running.
   */
  lemma EveryStep(c: Config, w: World, events: seq<Event>, e: Event)
    requires Reachable(c, w, events)
    ensures InstanceStep(w, Next(c, w, e), SaveAccepted(w, e)) && CountStep(w, Next(c, w, e))
    ensures SaveAccepted(w, e) ==>
      var v := Next(c, w, e); v.inst.Some? && v.inst.value.spec.gatewayConfig == e.config && SameObject(w, v)
  {
    ReachableInv(c, w, events);
    match e
    case Reconcile(fate) =>
      hide Inv;
      match w.proc {
        case Idle(_) =>
        case Fetching =>
        case Busy(pc, own) => BusyStep(c, w, pc, own, fate);
      }
    case SaveCommit(id, config) => SaveStep(c, w, id, config);
    case UserCreate(_) => CreateStep(c, w, e.spec);
    case _ => hide Inv, VolumeStep;
  }

  lemma SaveStep(c: Config, w: World, id: nat, config: string)
    requires Inv(c, w)
    ensures InstanceStep(w, SaveCommitStep(w, id, config), id in w.saves && Current(w, w.saves[id]))
    ensures CountStep(w, SaveCommitStep(w, id, config))
    ensures id in w.saves && Current(w, w.saves[id]) ==>
      var v := SaveCommitStep(w, id, config);
      v.inst.Some? && v.inst.value.spec.gatewayConfig == config && SameObject(w, v)
  {
    if id in w.saves && Current(w, w.saves[id]) {
      assert CopyOk(w, w.saves[id]);
      assert w.saves[id] == w.inst.value;
    }
    hide Inv;
  }

  lemma CreateStep(c: Config, w: World, s: Spec)
    ensures InstanceStep(w, UserCreateStep(w, s), false) && CountStep(w, UserCreateStep(w, s))
  {
  }

  /** An existing volume claim is never altered; only the end of its namespace takes it away. */
  lemma ClaimKept(c: Config, w: World, e: Event)
    requires w.pvc.Some? && !e.NamespaceGone?
    ensures Next(c, w, e).pvc == w.pvc
  {
    hide VolumeStep;
    if e.Reconcile? && w.proc.Busy? {
      BusyClaimKept(c, w, w.proc.pc, w.proc.own, e.fate);
    }
  }

  lemma BusyClaimKept(c: Config, w: World, pc: Pc, own: Inst, fate: Fate)
    requires w.pvc.Some?
    ensures StepBusy(c, w, pc, own, fate).pvc == w.pvc
  {
    hide AsDesired, ChildAccepted, DesiredDeployment, DesiredLabels, DesiredPvc;
  }

  // ---------- Returning quietly ----------

  /** The process returns with nothing more to do. */
  predicate ReturnsQuietly(w: World, v: World) {
    !w.proc.Idle? && v.proc == Idle(Quiet)
  }

  /** Gone, or being deleted without the operator's finalizer. */
  predicate Finished(v: World) {
    v.inst == None || (v.inst.value.deleting && !v.inst.value.ours)
  }

  /** The reconcile has just persisted Running for the copy it worked on. */
  predicate JustRunning(c: Config, w: World, v: World) {
    && w.proc.Busy?
    && ((w.proc.pc.WriteRunning? && v.inst.Some? && v.inst.value.status.phase.Running? &&
         v.inst.value.status.ready == Some(Condition(true, ReconcileComplete, w.proc.own.generation)))
        || (w.proc.pc.Notify? && w.proc.own.status.phase.Running?))
  }

  lemma BusyQuiet(c: Config, w: World, pc: Pc, own: Inst, fate: Fate)
    requires Inv(c, w) && w.proc == Busy(pc, own)
    requires StepBusy(c, w, pc, own, fate).proc == Idle(Quiet)
    ensures Finished(StepBusy(c, w, pc, own, fate)) || JustRunning(c, w, StepBusy(c, w, pc, own, fate))
  {
    OnlyThreeQuiet(c, w, pc, own, fate);
    if pc.DelFinalizer? {
      DelFinalizerQuiet(c, w, own, fate);
    } else if pc.WriteRunning? {
      WriteRunningQuiet(c, w, own, fate);
    } else {
      MainFacts(c, w);
    }
  }

  lemma OnlyThreeQuiet(c: Config, w: World, pc: Pc, own: Inst, fate: Fate)
    requires StepBusy(c, w, pc, own, fate).proc == Idle(Quiet)
    ensures pc.DelFinalizer? || pc.WriteRunning? || pc.Notify?
  {
    hide AsDesired, ChildAccepted, PutChild, PutStatus;
  }

  lemma DelFinalizerQuiet(c: Config, w: World, own: Inst, fate: Fate)
    requires Inv(c, w) && w.proc == Busy(DelFinalizer, own)
    requires StepDelFinalizer(w, own, fate).proc == Idle(Quiet)
    ensures Finished(StepDelFinalizer(w, own, fate))
  {
    OwnIsCurrent(c, w, own);
    assert own.deleting;
    hide Inv;
  }

  lemma WriteRunningQuiet(c: Config, w: World, own: Inst, fate: Fate)
    requires Inv(c, w) && w.proc == Busy(WriteRunning, own)
    requires StepWriteRunning(c, w, own, fate).proc == Idle(Quiet)
    ensures JustRunning(c, w, StepWriteRunning(c, w, own, fate))
  {
    hide Inv;
  }

  /** No error and no requeue means the instance is gone, leaving without us, or was just persisted as Running. */
  lemma QuietMeansSettled(c: Config, w: World, events: seq<Event>, e: Event)
    requires Reachable(c, w, events) && ReturnsQuietly(w, Next(c, w, e))
    ensures e.Reconcile?
    ensures Finished(Next(c, w, e)) || JustRunning(c, w, Next(c, w, e))
  {
    ReachableInv(c, w, events);
    hide Inv, VolumeStep;
    if e.Reconcile? && w.proc.Busy? {
      BusyQuiet(c, w, w.proc.pc, w.proc.own, e.fate);
    }
  }

  // ---------- Notifications ----------

  /** Notifications never outnumber the persisted transitions into Running. */
  lemma NotificationsBounded(c: Config, w: World, events: seq<Event>)
    requires Reachable(c, w, events)
    ensures w.transitions == w.sent + w.dropped + (if w.proc.Busy? && w.proc.pc.Notify? then 1 else 0)
    ensures w.sent <= w.transitions
  {
    ReachableInv(c, w, events);
  }

  lemma BusyStaysSilent(c: Config, w: World, pc: Pc, own: Inst, fate: Fate)
    requires !c.notifier && !pc.Notify?
    ensures var v := StepBusy(c, w, pc, own, fate); v.sent == w.sent && !(v.proc.Busy? && v.proc.pc.Notify?)
  {
    hide AsDesired, ChildAccepted, DesiredDeployment, DesiredLabels, DesiredPvc;
  }

  /** Without a notifier nothing is ever sent. */
  lemma {:induction false} SilentWithoutNotifier(c: Config, w: World, events: seq<Event>)
    requires Reachable(c, w, events) && !c.notifier
    ensures w.sent == 0 && !(w.proc.Busy? && w.proc.pc.Notify?)
    decreases |events|
  {
    hide VolumeStep, StepBusy;
    if events != [] {
      var n := |events| - 1;
      var v := RunFrom(c, START, events[..n]);
      SilentWithoutNotifier(c, v, events[..n]);
      if events[n].Reconcile? && v.proc.Busy? {
        BusyStaysSilent(c, v, v.proc.pc, v.proc.own, events[n].fate);
      }
    }
  }

  predicate NoLoss(e: Event) {
    !e.Crash? && (e.Reconcile? ==> !e.fate.Lost?)
  }

  lemma NothingDropped(c: Config, w: World, e: Event)
    requires c.notifier && NoLoss(e)
    ensures Next(c, w, e).dropped == w.dropped
  {
    hide VolumeStep, AsDesired, ChildAccepted, DesiredDeployment;
    if e.Reconcile? && w.proc.Busy? {
      BusyNothingDropped(c, w, w.proc.pc, w.proc.own, e.fate);
    }
  }

  lemma BusyNothingDropped(c: Config, w: World, pc: Pc, own: Inst, fate: Fate)
    requires c.notifier && !fate.Lost?
    ensures StepBusy(c, w, pc, own, fate).dropped == w.dropped
  {
    hide AsDesired, ChildAccepted, DesiredDeployment, DesiredLabels, DesiredPvc;
  }

  /** With a notifier and no crash or lost answer, every transition is announced, at the latest by the next step. */
  lemma {:induction false} EveryTransitionAnnounced(c: Config, w: World, events: seq<Event>)
    requires Reachable(c, w, events) && c.notifier
    requires forall i | 0 <= i < |events| :: NoLoss(events[i])
    ensures w.dropped == 0
    ensures w.transitions == w.sent + (if w.proc.Busy? && w.proc.pc.Notify? then 1 else 0)
    decreases |events|
  {
    NotificationsBounded(c, w, events);
    hide Next;
    if events != [] {
      var n := |events| - 1;
      var v := RunFrom(c, START, events[..n]);
      EveryTransitionAnnounced(c, v, events[..n]);
      NothingDropped(c, v, events[n]);
    }
  }

  // ---------- Live edits ----------

  predicate KeepsMarker(e: Event) {
    !(e.OnVolume? && e.e.DeleteMarker?)
  }

  lemma VouchedNext(c: Config, w: World, e: Event)
    requires Inv(c, w) && Vouched(w.vol) && KeepsMarker(e)
    ensures Vouched(Next(c, w, e).vol)
  {
    match e
    case OnVolume(ve) => VouchedStep(w.vol, DeployedScript(w), ve);
    case Reconcile(fate) =>
      hide Inv;
      VolumeUntouched(c, w, fate);
    case _ => hide Inv, VolumeStep;
  }

  /** The i-th event deleted the marker, and no start-up has written it since. */
  ghost predicate MarkerGoneSince(c: Config, events: seq<Event>, i: nat) {
    && i < |events| && events[i] == OnVolume(DeleteMarker)
    && forall k | i < k <= |events| :: !Vouched(RunFrom(c, START, events[..k]).vol)
  }

  /** Where an edited file or a running app lacks its marker, somebody deleted it: no crash does that. */
  lemma {:induction false} MissingMarkerWasDeleted(c: Config, w: World, events: seq<Event>)
    requires Reachable(c, w, events) && !Vouched(w.vol)
    ensures exists i: nat :: MarkerGoneSince(c, events, i)
    decreases |events|
  {
    hide Next, VolumeInv;
    if events != [] {
      var n := |events| - 1;
      var before := events[..n];
      var v := RunFrom(c, START, before);
      ReachableInv(c, v, before);
      hide Inv, Vouched;
      assert events[..n + 1] == events;
      if Vouched(v.vol) {
        if KeepsMarker(events[n]) { VouchedNext(c, v, events[n]); }
        assert MarkerGoneSince(c, events, n);
      } else {
        MissingMarkerWasDeleted(c, v, before);
        var i: nat :| MarkerGoneSince(c, before, i);
        forall k | i < k <= |events| ensures !Vouched(RunFrom(c, START, events[..k]).vol) {
          if k <= n { assert before[..k] == events[..k]; }
        }
        assert MarkerGoneSince(c, events, i);
      }
    }
  }

  /**
    A live edit of the config file goes away only through a further edit, by
    deleting the file, with the namespace, because a newer config generation
    than the file's was saved, or after the marker was deleted and before a
    start-up has written it again.
   */
  lemma LiveEditLostOnlyIf(c: Config, w: World, events: seq<Event>, e: Event)
    requires Reachable(c, w, events) && w.vol.file.Some? && w.vol.file.value.edited
    requires Next(c, w, e).vol.file != w.vol.file
    ensures
      || e.NamespaceGone?
      || (e.OnVolume? && (e.e.LiveEdit? || e.e.DeleteFile?))
      || (e.OnVolume? && e.e.InitStep? && w.vol.pod.Pod? &&
          w.vol.file.value.generation < w.vol.pod.script.generation &&
          (w.inst.Some? ==> w.vol.file.value.generation < w.inst.value.spec.configGeneration))
      || (e.OnVolume? && e.e.InitStep? && exists i: nat :: MarkerGoneSince(c, events, i))
  {
    ReachableInv(c, w, events);
    match e
    case OnVolume(ve) =>
      EditLostOnlyIf(w.vol, DeployedScript(w), ve);
      if !Vouched(w.vol) {
        MissingMarkerWasDeleted(c, w, events);
      }
    case Reconcile(fate) =>
      hide Inv;
      VolumeUntouched(c, w, fate);
    case _ => hide Inv, VolumeStep;
  }

  lemma VolumeUntouched(c: Config, w: World, fate: Fate)
    ensures StepProcess(c, w, fate).vol == w.vol
  {
    hide AsDesired, ChildAccepted, DesiredDeployment, DesiredLabels, DesiredPvc;
  }
}
