/**
  Reconcile as sequential code over the cluster it updates, and the proof that
  undisturbed it does what the step machine does, whatever becomes of its calls.
 */
module Reconciler {
  import opened Options
  import opened Cluster
  import opened Operator
  import opened OperatorSafety
  import opened Convergence

  lemma Unfold(c: Config, w: World, fates: seq<Fate>)
    requires !w.proc.Idle?
    ensures RunReconcile(c, w, fates) == RunReconcile(c, StepProcess(c, w, Head(fates)), Tail(fates))
  {
    hide StepProcess;
  }

  /** A process that has returned stays as it is. */
  lemma IdleRuns(c: Config, w: World, fates: seq<Fate>)
    requires w.proc.Idle?
    ensures RunReconcile(c, w, fates) == w
  {
  }

  class ClawInstanceReconciler {
    const c: Config
    var cluster: World
    var fates: seq<Fate>

    constructor (c: Config, cluster: World, fates: seq<Fate>)
      ensures this.c == c && this.cluster == cluster && this.fates == fates
    {
      this.c, this.cluster, this.fates := c, cluster, fates;
    }

    /** What the step machine makes of the rest of the reconcile. */
    ghost function Rest(pc: Pc, own: Inst): World
      reads this
    {
      RunReconcile(c, Go(cluster, pc, own), fates)
    }

    /** The cluster with the process returned. */
    ghost function Returned(o: Outcome): World
      reads this
    {
      Return(cluster, o)
    }

    method NextFate() returns (f: Fate)
      modifies this`fates
      ensures f == Head(old(fates)) && fates == Tail(old(fates))
    {
      f := if fates == [] then Answered else fates[0];
      fates := if fates == [] then [] else fates[1..];
    }

    /** r.Status().Update */
    method UpdateStatus(own: Inst, s: Status) returns (ok: bool, copy: Inst)
      modifies this
      ensures fates == Tail(old(fates))
      ensures cluster == if Head(old(fates)).Fails? then old(cluster) else PutStatus(old(cluster), own, s)
      ensures ok == Accepted(old(cluster), own, Head(old(fates)))
      ensures copy == if ok then cluster.inst.value else own
    {
      var f := NextFate();
      ok := f.Answered? && Current(cluster, own);
      if !f.Fails? {
        cluster := PutStatus(cluster, own, s);
      }
      copy := if ok then cluster.inst.value else own;
    }

    /** r.Update of the finalizer list */
    method UpdateFinalizer(own: Inst, ours: bool) returns (ok: bool, copy: Inst)
      modifies this
      ensures fates == Tail(old(fates))
      ensures ok == Accepted(old(cluster), own, Head(old(fates)))
      ensures cluster == if Head(old(fates)).Fails? || !Current(old(cluster), own) then old(cluster)
                         else Collect(Store(old(cluster), old(cluster).inst.value.(ours := ours)))
      ensures copy == if ok && cluster.inst.Some? then cluster.inst.value else own
    {
      var f := NextFate();
      ok := f.Answered? && Current(cluster, own);
      if !f.Fails? && Current(cluster, own) {
        cluster := Collect(Store(cluster, cluster.inst.value.(ours := ours)));
      }
      copy := if ok && cluster.inst.Some? then cluster.inst.value else own;
    }

    /** deleteUserNamespace: the Get, and the Delete if there is anything to delete. */
    method DeleteUserNamespace(own: Inst) returns (ok: bool)
      modifies this
      ensures ok ==> Rest(DelFinalizer, own) == old(Rest(DelGetNamespace, own))
      ensures !ok ==> Returned(Error) == old(Rest(DelGetNamespace, own))
    {
      Unfold(c, Go(cluster, DelGetNamespace, own), fates);
      var f := NextFate();
      if !f.Answered? {
        return false;
      }
      if cluster.ns.Absent? {
        return true;
      }
      Unfold(c, Go(cluster, DelNamespace, own), fates);
      f := NextFate();
      if f.Fails? {
        return false;
      }
      cluster := cluster.(ns := Ending(cluster.ns.labels));
      return f.Answered?;
    }

    /** The branch for an instance that is being deleted. */
    method MarkTerminating(instance: Inst) returns (ok: bool, own: Inst)
      modifies this
      ensures ok ==> Rest(DelGetNamespace, own) == old(Rest(DelStatus, instance))
      ensures !ok ==> Returned(Error) == old(Rest(DelStatus, instance))
    {
      Unfold(c, Go(cluster, DelStatus, instance), fates);
      ok, own := UpdateStatus(instance, instance.status.(phase := Terminating));
    }

    method RemoveFinalizer(own: Inst) returns (o: Outcome)
      modifies this
      ensures Returned(o) == old(Rest(DelFinalizer, own))
    {
      Unfold(c, Go(cluster, DelFinalizer, own), fates);
      hide RunReconcile;
      IdleRuns(c, StepDelFinalizer(Go(cluster, DelFinalizer, own), own, Head(fates)), Tail(fates));
      var ok, _ := UpdateFinalizer(own, false);
      return if ok then Quiet else Error;
    }

    method ReconcileDeletion(instance: Inst) returns (o: Outcome)
      modifies this
      ensures Returned(o) == old(Rest(DelStatus, instance))
    {
      hide Rest, Returned;
      var ok, own := MarkTerminating(instance);
      if !ok {
        return Error;
      }
      ok := DeleteUserNamespace(own);
      if !ok {
        return Error;
      }
      o := RemoveFinalizer(own);
    }

    /** The status write that takes a copy instance one phase on. */
    method FirstPhase(instance: Inst, pc: Pc) returns (ok: bool, own: Inst)
      requires pc == AfterFinalizer(instance) && !pc.Get?
      modifies this
      ensures ok ==> AfterFinalizer(own) == (if pc.SetPending? then SetCreating else Get(KNamespace))
      ensures ok ==> Rest(AfterFinalizer(own), own) == old(Rest(pc, instance))
      ensures !ok ==> Returned(Error) == old(Rest(pc, instance))
    {
      Unfold(c, Go(cluster, pc, instance), fates);
      var s := instance.status.(phase := if pc.SetPending? then Pending else Creating);
      ok, own := UpdateStatus(instance, s);
    }

    /** Finalizer, Pending, Creating. */
    method Prepare(instance: Inst) returns (ok: bool, own: Inst)
      modifies this
      requires !instance.deleting
      ensures ok ==>
        Rest(Get(KNamespace), own) ==
        old(Rest(if instance.ours then AfterFinalizer(instance) else AddFinalizer, instance))
      ensures !ok ==>
        Returned(Error) ==
        old(Rest(if instance.ours then AfterFinalizer(instance) else AddFinalizer, instance))
    {
      ok, own := true, instance;
      if !own.ours {
        ok, own := AddOurs(own);
        if !ok {
          return;
        }
      }
      if own.status.phase.NoPhase? {
        ok, own := FirstPhase(own, SetPending);
        if !ok {
          return;
        }
      }
      if own.status.phase.Pending? {
        ok, own := FirstPhase(own, SetCreating);
      }
    }

    method AddOurs(instance: Inst) returns (ok: bool, own: Inst)
      modifies this
      requires !instance.deleting
      ensures ok ==> Rest(AfterFinalizer(own), own) == old(Rest(AddFinalizer, instance))
      ensures !ok ==> Returned(Error) == old(Rest(AddFinalizer, instance))
    {
      Unfold(c, Go(cluster, AddFinalizer, instance), fates);
      ok, own := UpdateFinalizer(instance, true);
    }

    /** CreateOrUpdate: read the child, set what is desired, write it if that changed anything. */
    method CreateOrUpdate(own: Inst, k: Kind) returns (ok: bool)
      modifies this
      ensures Rest(if ok then NextKind(k) else WriteFailed(k), own) == old(Rest(Get(k), own))
    {
      Unfold(c, Go(cluster, Get(k), own), fates);
      var f := NextFate();
      if !f.Answered? {
        return false;
      }
      var seen, found := cluster.ns, Exists(cluster, k);
      Unfold(c, Go(cluster, Write(k, seen, found), own), fates);
      BusyFieldFree(c, cluster, Busy(Write(k, seen, found), own), own.spec, k, seen, found);
      f := NextFate();
      hide AsDesired, ChildAccepted, PutChild, RunReconcile;
      if found && ChildAccepted(cluster, k, seen, found) && AsDesired(c, cluster, own.spec, k) {
        return true;
      }
      if f.Fails? || !ChildAccepted(cluster, k, seen, found) {
        return false;
      }
      cluster := PutChild(c, cluster, own.spec, k);
      return f.Answered?;
    }

    /** setFailed */
    method SetFailed(own: Inst, k: Kind)
      modifies this
      ensures Returned(Error) == old(Rest(WriteFailed(k), own))
    {
      Unfold(c, Go(cluster, WriteFailed(k), own), fates);
      var ok, _ := UpdateStatus(own, FailedStatus(own, k));
    }

    /** One kind after the other; the first failure is recorded and ends the reconcile. */
    method ReconcileChildren(own: Inst) returns (ok: bool)
      modifies this
      ensures ok ==> Rest(ReadDeployment, own) == old(Rest(Get(KNamespace), own))
      ensures !ok ==> Returned(Error) == old(Rest(Get(KNamespace), own))
    {
      var kinds := [KNamespace, KPvc, KDeployment, KService, KNetworkPolicy];
      for i := 0 to 5
        invariant Rest(if i == 5 then ReadDeployment else Get(kinds[i]), own) == old(Rest(Get(KNamespace), own))
      {
        ok := CreateOrUpdate(own, kinds[i]);
        if !ok {
          SetFailed(own, kinds[i]);
          return;
        }
      }
      ok := true;
    }

    /** Persisting Running and telling the notifier about a new Running. */
    method SendNotification(copy: Inst)
      modifies this
      ensures Returned(Quiet) == old(Rest(Notify, copy))
    {
      Unfold(c, Go(cluster, Notify, copy), fates);
      var _ := NextFate();
      cluster := cluster.(sent := cluster.sent + 1);
    }

    method DeclareRunning(own: Inst) returns (o: Outcome)
      modifies this
      ensures Returned(o) == old(Rest(WriteRunning, own))
    {
      Unfold(c, Go(cluster, WriteRunning, own), fates);
      var wasRunning := own.status.phase.Running?;
      var persisted := !Head(fates).Fails? && Current(cluster, own);
      var ok, copy := UpdateStatus(own, RunningStatus(c, own));
      if persisted && !wasRunning {
        cluster := cluster.(transitions := cluster.transitions + 1);
        if !ok || !c.notifier {
          cluster := cluster.(dropped := cluster.dropped + 1);
        }
      }
      if !ok {
        return Error;
      }
      if !wasRunning && c.notifier {
        SendNotification(copy);
      }
      return Quiet;
    }

    /** The readiness check and the final status. */
    method Finish(own: Inst) returns (o: Outcome)
      modifies this
      ensures Returned(o) == old(Rest(ReadDeployment, own))
    {
      Unfold(c, Go(cluster, ReadDeployment, own), fates);
      var f := NextFate();
      if !f.Answered? || cluster.deploy == None {
        return Error;
      }
      if cluster.deploy.value.readyReplicas >= 1 {
        o := DeclareRunning(own);
        return;
      }
      o := DeclareStarting(own);
    }

    method DeclareStarting(own: Inst) returns (o: Outcome)
      modifies this
      ensures Returned(o) == old(Rest(WriteStarting, own))
    {
      Unfold(c, Go(cluster, WriteStarting, own), fates);
      var ok, _ := UpdateStatus(own, StartingStatus(c, own));
      return if ok then Requeue else Error;
    }

    /** Reconcile, from the first Get to the return. */
    method Reconcile() returns (o: Outcome)
      modifies this
      ensures Returned(o) == RunReconcile(c, old(cluster).(proc := Fetching), old(fates))
    {
      Unfold(c, cluster.(proc := Fetching), fates);
      var f := NextFate();
      hide RunReconcile;
      if !f.Answered? {
        AlreadyReturned(c, Return(cluster, Error), fates);
        return Error;
      }
      if cluster.inst == None {
        AlreadyReturned(c, Return(cluster, Quiet), fates);
        return Quiet;
      }
      var instance := cluster.inst.value;
      if instance.deleting {
        if instance.ours {
          o := ReconcileDeletion(instance);
          return;
        }
        AlreadyReturned(c, Return(cluster, Quiet), fates);
        return Quiet;
      }
      var ok, own := Prepare(instance);
      if !ok {
        return Error;
      }
      ok := ReconcileChildren(own);
      if !ok {
        return Error;
      }
      o := Finish(own);
    }
  }

  /** An undisturbed reconcile is one of the runs the invariant covers. */
  lemma {:induction false} ReconcileKeepsInv(c: Config, w: World, fates: seq<Fate>)
    requires Inv(c, w)
    ensures Inv(c, RunReconcile(c, w, fates))
    decreases StepsLeft(w.proc)
  {
    hide Inv, Next, StepsLeft;
    if w.proc.Idle? {
      AlreadyReturned(c, w, fates);
    } else {
      StepGetsCloser(c, w, Head(fates));
      NextIsStep(c, w, Head(fates));
      NextInv(c, w, Event.Reconcile(Head(fates)));
      ReconcileKeepsInv(c, StepProcess(c, w, Head(fates)), Tail(fates));
    }
  }

  lemma NextIsStep(c: Config, w: World, f: Fate)
    ensures Next(c, w, Event.Reconcile(f)) == StepProcess(c, w, f)
  {
    hide StepProcess;
  }

  lemma AlreadyReturned(c: Config, w: World, fates: seq<Fate>)
    requires w.proc.Idle?
    ensures RunReconcile(c, w, fates) == w
  {
  }

  /** The process's own place does not matter to the API server. */
  lemma BusyFieldFree(c: Config, w: World, p: Process, s: Spec, k: Kind, seen: Namespace, found: bool)
    ensures var v := w.(proc := p);
      && AsDesired(c, v, s, k) == AsDesired(c, w, s, k)
      && ChildAccepted(v, k, seen, found) == ChildAccepted(w, k, seen, found)
      && PutChild(c, v, s, k) == PutChild(c, w, s, k).(proc := p)
  {
    hide DesiredDeployment, DesiredLabels, DesiredPvc;
  }
}
