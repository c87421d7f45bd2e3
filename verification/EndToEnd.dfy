/** From a saved config to the file the app reads: the save handler, the operator and the init container together. */
module EndToEnd {
  import opened Options
  import opened Cluster
  import opened Volume
  import opened Operator
  import opened OperatorSafety
  import opened OperatorTheorems
  import opened Convergence
  import opened Reconciler

  /** Anything but a further save, the deletion of the instance, or a live edit of the file. */
  predicate LeavesSave(e: Event) {
    !e.SaveCommit? && !e.UserDelete? && !(e.OnVolume? && e.e.LiveEdit?)
  }

  /** The instance carries the saved config, and no file edited since is in its way. */
  predicate HoldsSave(w: World, config: string, g: nat) {
    && w.inst.Some? && !w.inst.value.deleting
    && w.inst.value.spec.gatewayConfig == config && w.inst.value.spec.configGeneration == g
    && (w.vol.file.Some? && w.vol.file.value.edited ==> w.vol.file.value.generation < g)
  }

  lemma {:induction false} RunFromAppend(c: Config, w: World, a: seq<Event>, b: seq<Event>)
    ensures RunFrom(c, w, a + b) == RunFrom(c, RunFrom(c, w, a), b)
  {
    hide Next;
    if b == [] {
      assert a + b == a;
    } else {
      var n := |b| - 1;
      assert (a + b)[..|a + b| - 1] == a + b[..n];
      RunFromAppend(c, w, a, b[..n]);
    }
  }

  lemma SaveHolds(c: Config, w: World, before: seq<Event>, id: nat, config: string)
    requires Reachable(c, w, before) && SaveAccepted(w, SaveCommit(id, config)) && !w.inst.value.deleting
    ensures HoldsSave(Next(c, w, SaveCommit(id, config)), config, w.inst.value.spec.configGeneration + 1)
  {
    EveryStep(c, w, before, SaveCommit(id, config));
    GenerationChain(c, w, before);
    ReachableInv(c, w, before);
    SaveIsFresh(c, w, id, config);
    hide Inv;
  }

  predicate Alive(w: World, uid: nat) {
    w.inst.Some? && !w.inst.value.deleting && w.inst.value.uid == uid
  }

  lemma BusyStaysAlive(c: Config, w: World, pc: Pc, own: Inst, fate: Fate, uid: nat)
    requires Alive(w, uid)
    ensures Alive(StepBusy(c, w, pc, own, fate), uid)
  {
    hide AsDesired, ChildAccepted, DesiredDeployment, DesiredLabels, DesiredPvc;
    match pc
    case Write(k, seen, found) => hide PutStatus, Store, Collect;
    case WriteRunning =>
    case _ => hide StepWrite;
  }

  /** A live instance stays as long as nobody deletes it. */
  lemma StaysAlive(c: Config, w: World, e: Event, uid: nat)
    requires Alive(w, uid) && LeavesSave(e)
    ensures Alive(Next(c, w, e), uid)
  {
    if e.Reconcile? && w.proc.Busy? { BusyStaysAlive(c, w, w.proc.pc, w.proc.own, e.fate, uid); }
    hide VolumeStep, StepBusy;
  }

  lemma FileStaysBehind(c: Config, w: World, e: Event)
    requires LeavesSave(e)
    requires Next(c, w, e).vol.file.Some? && Next(c, w, e).vol.file.value.edited
    ensures Next(c, w, e).vol.file == w.vol.file
  {
    if e.Reconcile? { VolumeUntouched(c, w, e.fate); }
    hide StepProcess;
  }

  lemma HoldsStep(c: Config, w: World, before: seq<Event>, e: Event, config: string, g: nat)
    requires Reachable(c, w, before) && HoldsSave(w, config, g) && LeavesSave(e)
    ensures HoldsSave(Next(c, w, e), config, g)
  {
    EveryStep(c, w, before, e);
    StaysAlive(c, w, e, w.inst.value.uid);
    var v := Next(c, w, e);
    if v.vol.file.Some? && v.vol.file.value.edited { FileStaysBehind(c, w, e); }
    hide Next;
  }

  lemma {:induction false} HoldsOn(c: Config, w: World, before: seq<Event>, between: seq<Event>, config: string, g: nat)
    requires Reachable(c, w, before) && HoldsSave(w, config, g)
    requires forall i | 0 <= i < |between| :: LeavesSave(between[i])
    ensures Reachable(c, RunFrom(c, w, between), before + between)
    ensures HoldsSave(RunFrom(c, w, between), config, g)
    decreases |between|
  {
    hide Next, HoldsSave, LeavesSave;
    RunFromAppend(c, START, before, between);
    if between != [] {
      var n := |between| - 1;
      HoldsOn(c, w, before, between[..n], config, g);
      HoldsStep(c, RunFrom(c, w, between[..n]), before + between[..n], between[n], config, g);
    }
  }

  /** After a restart the pod's file is that of the deployed script, unless it was edited at that generation. */
  lemma RestartWrites(v: Volume, s: Script)
    requires VolumeInv(v, Some(s)) && (v.file.Some? && v.file.value.edited ==> v.file.value.generation < s.generation)
    ensures var z := RunVolume(VolumeStep(v, Some(s), PodStop), Some(s), [PodStart, InitStep, InitStep, InitStep]);
      AppRuns(z) && z.file == Some(File(s.config, s.generation, false)) && z.marker == Some(s.generation)
  {
    var u := VolumeStep(v, Some(s), PodStop);
    VolumeStepInv(v, Some(s), PodStop);
    RestartCompletes(u, s);
    hide RunVolume, VolumeInv;
  }

  /**
    After an accepted save of a live instance, whatever happens before the operator
    next wakes up from rest - short of a further save, the deletion of the instance,
    or a live edit - one fault-free reconcile deploys the saved config at the next
    generation, and one undisturbed restart of the pod puts it, unedited, in the file.
   */
  lemma SavedConfigReachesFile(c: Config, w: World, before: seq<Event>, id: nat, config: string, between: seq<Event>)
    requires Reachable(c, w, before) && SaveAccepted(w, SaveCommit(id, config))
    requires !w.inst.value.deleting && config != ""
    requires forall i | 0 <= i < |between| :: LeavesSave(between[i])
    requires RunFrom(c, Next(c, w, SaveCommit(id, config)), between).proc.Idle?
    ensures var g := w.inst.value.spec.configGeneration + 1;
      var x := Next(c, RunFrom(c, Next(c, w, SaveCommit(id, config)), between), Wake);
      var y := RunReconcile(c, x, []);
      && y.deploy.Some? && y.deploy.value.spec.script == Script(config, g)
      && var z := RunVolume(VolumeStep(y.vol, DeployedScript(y), PodStop), DeployedScript(y),
                            [PodStart, InitStep, InitStep, InitStep]);
      AppRuns(z) && z.file == Some(File(config, g, false))
  {
    var e, g := SaveCommit(id, config), w.inst.value.spec.configGeneration + 1;
    var v := Next(c, w, e);
    SaveHolds(c, w, before, id, config);
    ReachNext(c, w, before, e);
    hide HoldsSave, RunReconcile, Next, LeavesSave, RunVolume, VolumeStep, RunFrom, Inv, VolumeInv;
    HoldsOn(c, v, before + [e], between, config, g);
    var r := RunFrom(c, v, between);
    ReachableInv(c, r, before + [e] + between);
    AfterWake(c, r, config, g);
    var y := RunReconcile(c, Next(c, r, Wake), []);
    RestartWrites(y.vol, Script(config, g));
  }

  lemma ReachNext(c: Config, w: World, before: seq<Event>, e: Event)
    requires Reachable(c, w, before)
    ensures Reachable(c, Next(c, w, e), before + [e])
  {
    assert (before + [e])[..|before|] == before;
    hide Next;
  }

  lemma AfterWake(c: Config, r: World, config: string, g: nat)
    requires Inv(c, r) && HoldsSave(r, config, g) && r.proc.Idle? && config != ""
    ensures var y := RunReconcile(c, Next(c, r, Wake), []);
      && y.deploy.Some? && y.deploy.value.spec.script == Script(config, g)
      && VolumeInv(y.vol, Some(Script(config, g)))
      && (y.vol.file.Some? && y.vol.file.value.edited ==> y.vol.file.value.generation < g)
  {
    var x := Next(c, r, Wake);
    assert x == r.(proc := Fetching);
    Converges(c, x);
    NextInv(c, r, Wake);
    ReconcileKeepsInv(c, x, []);
    var y := RunReconcile(c, x, []);
    assert ScriptInv(c, y);
    hide RunReconcile, Next;
  }
}
