/** What whole runs of requests keep: who can change an instance, and what its generation counts. */
module ServerRuns {
  import opened Placeholders
  import opened Layout
  import opened Args
  import opened Server

  type Fated = (Request, bool)

  // ---------- Who can change an instance ----------

  /** A create, save or delete for the instance that comes from its owner or from an administrator. */
  predicate IsEntitled(req: Request, id: string) {
    match req
    case CreateInstance(uid, _, _) => uid == id
    case PageCreateInstance(uid, _) => uid == id
    case SlackCreate(uid, _) => uid == id
    case PageUpdateInstanceConfig(caller, admin, target, _) => target == id && (admin || caller == id)
    case DeleteInstance(caller, admin, target) => target == id && (admin || caller == id)
    case _ => false
  }

  /** Both stores have the same instance under a name, or none. */
  predicate SameInstance(a: Store, b: Store, id: string) {
    (id in a.instances <==> id in b.instances) && (id in a.instances ==> a.instances[id] == b.instances[id])
  }

  lemma RequestOfOthers(st: Store, req: Request, fails: bool, id: string)
    requires !IsEntitled(req, id)
    ensures SameInstance(st, Serve(st, req, fails).0, id)
  {
    hide Resolve, ParsedArgs, FormValues, GateReply, Compacted, Names;
  }

  /** No sequence of other people's requests touches an instance, whatever they ask for. */
  lemma {:induction false} OthersCannotTouch(st: Store, reqs: seq<Fated>, id: string)
    requires forall i | 0 <= i < |reqs| :: !IsEntitled(reqs[i].0, id)
    ensures SameInstance(st, Run(st, reqs), id)
  {
    hide Serve, IsEntitled;
    if reqs != [] {
      var n := |reqs| - 1;
      OthersCannotTouch(st, reqs[..n], id);
      RequestOfOthers(Run(st, reqs[..n]), reqs[n].0, reqs[n].1, id);
    }
  }

  // ---------- Generations ----------

  predicate IsCreate(req: Request) {
    req.CreateInstance? || req.PageCreateInstance? || req.SlackCreate?
  }

  /** How many saves of the instance were stored since it was last created. */
  function SavesSince(st: Store, reqs: seq<Fated>, id: string): nat {
    if reqs == [] then 0
    else
      var n := |reqs| - 1;
      var before, (req, fails) := SavesSince(st, reqs[..n], id), reqs[n];
      var stored := Serve(Run(st, reqs[..n]), req, fails).1 == Stored;
      if stored && req.PageUpdateInstanceConfig? && req.id == id then before + 1
      else if stored && IsCreate(req) && req.uid == id then 0
      else before
  }

  /** What one request does to an instance's generation. */
  lemma GenerationStep(st: Store, req: Request, fails: bool, id: string)
    ensures var (v, reply) := Serve(st, req, fails);
      id in v.instances ==>
        if reply == Stored && req.PageUpdateInstanceConfig? && req.id == id then
          id in st.instances && v.instances[id].configGeneration == st.instances[id].configGeneration + 1
        else if reply == Stored && IsCreate(req) && req.uid == id then
          id !in st.instances && v.instances[id].configGeneration == 0
        else id in st.instances && v.instances[id] == st.instances[id]
  {
    hide Resolve, ParsedArgs, FormValues, GateReply, Compacted, Names;
  }

  /** From a store without the instance on, its generation counts the saves stored since it was created. */
  lemma {:induction false} GenerationCountsSaves(st: Store, reqs: seq<Fated>, id: string)
    requires id !in st.instances
    ensures id in Run(st, reqs).instances ==> Run(st, reqs).instances[id].configGeneration == SavesSince(st, reqs, id)
  {
    hide Serve;
    if reqs != [] {
      var n := |reqs| - 1;
      GenerationCountsSaves(st, reqs[..n], id);
      GenerationStep(Run(st, reqs[..n]), reqs[n].0, reqs[n].1, id);
    }
  }

  /** The instance is there after every one of the requests from the i-th on. */
  predicate StaysFrom(st: Store, reqs: seq<Fated>, id: string, i: nat) {
    forall k | i <= k <= |reqs| :: id in Run(st, reqs[..k]).instances
  }

  /**
    While an instance exists its generation never falls, and two of its states
    with different configs have different generations.
   */
  lemma {:induction false} GenerationTellsConfigs(st: Store, reqs: seq<Fated>, id: string, i: nat)
    requires i <= |reqs| && StaysFrom(st, reqs, id, i)
    ensures reqs[..|reqs|] == reqs
    ensures id in Run(st, reqs[..i]).instances && id in Run(st, reqs).instances
    ensures var a, b := Run(st, reqs[..i]).instances[id], Run(st, reqs).instances[id];
      && a.configGeneration <= b.configGeneration
      && (a.configGeneration == b.configGeneration ==> a == b)
    decreases |reqs|
  {
    hide Serve;
    assert reqs[..|reqs|] == reqs;
    assert id in Run(st, reqs[..i]).instances && id in Run(st, reqs[..|reqs|]).instances;
    if i < |reqs| {
      var n := |reqs| - 1;
      var before := reqs[..n];
      forall k | i <= k <= n ensures id in Run(st, before[..k]).instances {
        assert before[..k] == reqs[..k];
      }
      GenerationTellsConfigs(st, before, id, i);
      assert before[..i] == reqs[..i];
      assert id in Run(st, reqs[..n]).instances;
      GenerationStep(Run(st, before), reqs[n].0, reqs[n].1, id);
    }
  }
}
