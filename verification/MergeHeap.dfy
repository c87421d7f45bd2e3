/** The in-place deepMerge on maps in memory, and MergeJSON around it. */
module MergeHeap {
  import opened Options
  import opened Json
  import opened Objects
  import opened Merge

  /** What a decoded object's map holds under a name: a nested object's map, or a value that is no object. */
  datatype Slot = Leaf(d: Data) | Sub(node: MapNode)

  /** A map in memory with everything reachable from it, or a value that is no object. */
  datatype Shape = Val(d: Data) | Map(node: MapNode, m: map<string, Shape>)

  /** The data a shape represents: which maps hold it no longer matters. */
  function Forget(s: Shape): Data {
    match s
    case Val(d) => d
    case Map(_, m) => DObj(map k | k in m :: Forget(m[k]))
  }

  /** Two maps merge into the base's own; anything else of the override is taken over as it is, maps included. */
  function MergedGraph(base: Shape, over: Shape): Shape {
    if base.Map? && over.Map? then
      Map(base.node, map k | k in base.m.Keys + over.m.Keys ::
        if k !in over.m then base.m[k]
        else if k !in base.m then over.m[k]
        else MergedGraph(base.m[k], over.m[k]))
    else over
  }

  predicate WFShape(s: Shape) {
    match s
    case Val(d) => !d.DObj?
    case Map(_, m) => forall k | k in m :: WFShape(m[k])
  }

  /** Merging maps in memory is merging the objects they represent. */
  lemma {:induction false} ForgetMerged(base: Shape, over: Shape)
    requires WFShape(base) && WFShape(over)
    ensures Forget(MergedGraph(base, over)) == Merged(Forget(base), Forget(over))
    decreases over
  {
    if base.Map? && over.Map? {
      forall k | k in base.m && k in over.m
        ensures Forget(MergedGraph(base.m[k], over.m[k])) == Merged(Forget(base.m[k]), Forget(over.m[k]))
      {
        ForgetMerged(base.m[k], over.m[k]);
      }
    }
  }

  /** A map[string]any. */
  class MapNode {
    var entries: map<string, Slot>
    ghost var Repr: set<object>

    /** The maps reachable from here form a tree. */
    ghost predicate Valid()
      reads this, Repr
      ensures Valid() ==> this in Repr
      decreases Repr
    {
      && this in Repr
      && (forall k | k in entries :: entries[k].Leaf? ==> !entries[k].d.DObj?)
      && (forall k | k in entries && entries[k].Sub? ::
            entries[k].node in Repr && entries[k].node.Repr <= Repr && this !in entries[k].node.Repr)
      && (forall k | k in entries && entries[k].Sub? :: entries[k].node.Valid())
      && (forall k, l | k in entries && l in entries && k != l && entries[k].Sub? && entries[l].Sub? ::
            entries[k].node.Repr !! entries[l].node.Repr)
    }

    /** This map and the maps below it, as they are. */
    ghost function Graph(): Shape
      requires Valid()
      reads this, Repr
      decreases Repr, 0
    {
      Map(this, map k | k in entries :: At(k))
    }

    ghost function At(k: string): Shape
      requires Valid() && k in entries
      reads this, Repr
      decreases Repr, 0, 0
    {
      match entries[k]
      case Leaf(d) => Val(d)
      case Sub(node) => node.Graph()
    }

    /** The object they represent. */
    ghost function Content(): Data
      requires Valid()
      reads this, Repr
    {
      Forget(Graph())
    }

    /** The maps below a name. */
    ghost function Under(k: string): set<object>
      reads this, if k in entries && entries[k].Sub? then {entries[k].node} else {}
    {
      if k in entries && entries[k].Sub? then entries[k].node.Repr else {}
    }

    constructor ()
      ensures Valid() && fresh(Repr) && entries == map[]
    {
      entries := map[];
      Repr := {this};
    }

    /** base[k] = v */
    method Put(k: string, v: Slot)
      requires Valid()
      requires v.Leaf? ==> !v.d.DObj?
      requires v.Sub? ==> v.node.Valid() && v.node.Repr !! Repr
      modifies this
      ensures Valid() && entries == old(entries)[k := v]
      ensures Repr == old(Repr) + Under(k)
      ensures At(k) == SlotGraph(v)
      ensures forall l | l in old(entries) && l != k :: At(l) == old(At(l))
      ensures forall l | l != k :: Under(l) == old(Under(l))
    {
      hide Graph;
      entries := entries[k := v];
      if v.Sub? {
        Repr := Repr + v.node.Repr;
      }
    }
  }

  /** What a slot stands for. */
  ghost function SlotGraph(v: Slot): Shape
    requires v.Sub? ==> v.node.Valid()
    reads if v.Sub? then {v.node} + v.node.Repr else {}
  {
    match v
    case Leaf(d) => Val(d)
    case Sub(node) => node.Graph()
  }

  lemma GraphAt(n: MapNode)
    requires n.Valid()
    ensures n.Graph().Map? && n.Graph().node == n && n.Graph().m.Keys == n.entries.Keys
    ensures forall l | l in n.entries :: n.Graph().m[l] == n.At(l)
  {
  }

  /** When one slot changes, the graph changes under that name. */
  lemma GraphUpdated(n: MapNode, was: map<string, Shape>, k: string, d: Shape)
    requires n.Valid() && n.entries.Keys == was.Keys + {k} && n.At(k) == d
    requires forall l | l in n.entries && l != k :: n.At(l) == was[l]
    ensures n.Graph() == Map(n, was[k := d])
  {
    hide MapNode.Valid, MapNode.At;
    assert n.Graph().m == was[k := d];
  }

  lemma {:induction false} GraphWF(n: MapNode)
    requires n.Valid()
    ensures WFShape(n.Graph())
    decreases n.Repr
  {
    forall k | k in n.entries ensures WFShape(n.At(k)) {
      if n.entries[k].Sub? { GraphWF(n.entries[k].node); }
    }
  }

  lemma SlotFacts(n: MapNode, k: string)
    requires n.Valid() && k in n.entries
    ensures n.Under(k) <= n.Repr && n !in n.Under(k)
    ensures n.entries[k].Sub? ==> n.entries[k].node.Valid() && n.At(k) == n.entries[k].node.Graph()
    ensures n.entries[k].Leaf? ==> n.At(k) == Val(n.entries[k].d)
    ensures forall l | l in n.entries && l != k :: n.Under(l) !! n.Under(k)
  {
  }

  /** The recursive call on the maps both sides have under a name. */
  method MergeUnder(base: MapNode, k: string, over: MapNode)
    requires base.Valid() && over.Valid() && base.Repr !! over.Repr
    requires k in base.entries && base.entries[k].Sub?
    modifies base.Under(k), base`Repr
    ensures base.Valid() && base.entries == old(base.entries)
    ensures base.Repr == old(base.Repr) + over.Repr
    ensures base.At(k) == MergedGraph(old(base.At(k)), over.Graph())
    ensures forall l | l in base.entries && l != k :: base.At(l) == old(base.At(l))
    ensures forall l | l != k :: base.Under(l) == old(base.Under(l))
    decreases over.Repr, 4
  {
    hide MapNode.Graph, MapNode.Content, MergedGraph, Merged, Forget;
    SlotFacts(base, k);
    var b := base.entries[k].node;
    DeepMerge(b, over);
    assert forall l | l in base.entries && l != k && base.entries[l].Sub? :: base.entries[l].node.Repr !! b.Repr;
    base.Repr := base.Repr + over.Repr;
  }

  /** What base holds under a name once the override's value has come in. */
  function Incoming(before: map<string, Shape>, k: string, d: Shape): Shape {
    if k in before then MergedGraph(before[k], d) else d
  }

  /** Both sides hold a map under a name: base's is merged into. */
  method MergeMaps(base: MapNode, k: string, over: MapNode)
    requires base.Valid() && over.Valid() && k in over.entries && over.entries[k].Sub?
    requires k in base.entries && base.entries[k].Sub?
    requires base.Repr !! over.Under(k) && base !in over.Repr && base.Under(k) !! over.Repr
    modifies base, base.Under(k)
    ensures base.Valid() && base.entries == old(base.entries)
    ensures base.Repr <= old(base.Repr) + over.Under(k)
    ensures unchanged(over.Repr)
    ensures base.Graph() == Map(base, old(base.Graph()).m[k := MergedGraph(old(base.Graph()).m[k], over.Graph().m[k])])
    ensures forall l | l != k :: base.Under(l) == old(base.Under(l))
    decreases over.Repr, 0
  {
    SlotFacts(over, k);
    SlotFacts(base, k);
    ghost var was := base.Graph().m;
    GraphAt(base);
    GraphAt(over);
    hide MapNode.Valid, MapNode.At, MapNode.Graph, MergedGraph;
    MergeUnder(base, k, over.entries[k].node);
    GraphUpdated(base, was, k, MergedGraph(was[k], over.At(k)));
  }

  /** Otherwise the override's slot replaces whatever base has. */
  method ShareSlot(base: MapNode, k: string, over: MapNode)
    requires base.Valid() && over.Valid() && k in over.entries
    requires base.Repr !! over.Under(k) && base !in over.Repr
    modifies base
    ensures base.Valid() && base.entries == old(base.entries)[k := over.entries[k]]
    ensures base.Repr == old(base.Repr) + over.Under(k)
    ensures base.Graph() == Map(base, old(base.Graph()).m[k := over.Graph().m[k]])
    ensures forall l | l != k :: base.Under(l) == old(base.Under(l))
  {
    SlotFacts(over, k);
    ghost var was := base.Graph().m;
    GraphAt(base);
    GraphAt(over);
    hide MapNode.Valid, MapNode.At, MapNode.Graph;
    base.Put(k, over.entries[k]);
    GraphUpdated(base, was, k, over.At(k));
  }

  /** The loop body: brings one name of the override into base. */
  method MergeName(base: MapNode, k: string, over: MapNode)
    requires base.Valid() && over.Valid() && k in over.entries
    requires base.Repr !! over.Under(k) && base !in over.Repr && base.Under(k) !! over.Repr
    modifies base, base.Under(k)
    ensures base.Valid() && base.entries.Keys == old(base.entries.Keys) + {k}
    ensures base.Repr <= old(base.Repr) + over.Under(k)
    ensures unchanged(over.Repr)
    ensures base.Graph() == Map(base, old(base.Graph()).m[k := Incoming(old(base.Graph()).m, k, over.Graph().m[k])])
    ensures forall l | l != k :: base.Under(l) == old(base.Under(l))
    decreases over.Repr, 1
  {
    GraphAt(base);
    GraphAt(over);
    if k in base.entries { SlotFacts(base, k); }
    SlotFacts(over, k);
    LeafWins(base, k, over);
    hide MapNode.Valid, MapNode.At, MapNode.Graph, MergedGraph;
    var overVal := over.entries[k];
    if k in base.entries && base.entries[k].Sub? && overVal.Sub? {
      MergeMaps(base, k, over);
    } else {
      ShareSlot(base, k, over);
    }
  }

  /** Unless both sides are objects, the override's value is what comes of a name. */
  lemma LeafWins(base: MapNode, k: string, over: MapNode)
    requires base.Valid() && over.Valid() && k in over.entries
    ensures !(k in base.entries && base.entries[k].Sub? && over.entries[k].Sub?) ==>
      Incoming(base.Graph().m, k, over.Graph().m[k]) == over.Graph().m[k]
  {
    if k in base.entries { SlotFacts(base, k); }
    SlotFacts(over, k);
    GraphAt(base);
    GraphAt(over);
    hide MapNode.Valid, MapNode.At;
  }

  /** The merge of the names that are no longer to do. */
  function Partial(before: map<string, Shape>, over: map<string, Shape>, todo: set<string>): map<string, Shape> {
    map k | k in before.Keys + (over.Keys - todo) ::
      if k in over && k !in todo then Incoming(before, k, over[k]) else before[k]
  }

  lemma PartialStep(before: map<string, Shape>, over: map<string, Shape>, todo: set<string>, k: string)
    requires k in todo && todo <= over.Keys
    ensures var m := Partial(before, over, todo);
      m[k := Incoming(m, k, over[k])] == Partial(before, over, todo - {k})
  {
    hide MergedGraph;
  }

  lemma PartialEnds(before: map<string, Shape>, over: map<string, Shape>)
    ensures Partial(before, over, over.Keys) == before
    ensures forall base, o :: Map(base, Partial(before, over, {})) == MergedGraph(Map(base, before), Map(o, over))
  {
    forall base, o ensures Map(base, Partial(before, over, {})) == MergedGraph(Map(base, before), Map(o, over)) {
      assert Partial(before, over, {}) == MergedGraph(Map(base, before), Map(o, over)).m;
    }
  }

  /** Base holds the merge of the visited names, and nothing below it overlaps what is still to come. */
  ghost predicate Progress(base: MapNode, over: MapNode, todo: set<string>,
                           before: map<string, Shape>, start: set<object>)
    reads base, base.Repr, over, over.Repr
  {
    && base.Valid() && over.Valid() && todo <= over.entries.Keys
    && base !in over.Repr && start !! over.Repr && base.Repr <= start + over.Repr && Apart(over, todo, base.Repr)
    && base.Graph() == Map(base, Partial(before, over.Graph().m, todo))
    && (forall k | k in todo :: base.Under(k) <= start)
  }

  lemma UnvisitedIsOld(base: MapNode, over: MapNode, todo: set<string>,
                       before: map<string, Shape>, start: set<object>, k: string)
    requires Progress(base, over, todo, before, start) && k in todo
    ensures base.Under(k) <= start && over.Under(k) !! base.Repr && base.Under(k) !! over.Repr
    ensures base in base.Repr && base !in over.Repr
  {
    hide MapNode.Valid;
  }

  /** One turn of the loop. */
  method MergeOne(base: MapNode, over: MapNode, ghost todo: set<string>,
                  ghost before: map<string, Shape>, ghost start: set<object>, k: string)
    requires Progress(base, over, todo, before, start) && k in todo
    modifies base, base.Under(k)
    ensures Progress(base, over, todo - {k}, before, start) && unchanged(over.Repr)
    decreases over.Repr, 2
  {
    UnvisitedIsOld(base, over, todo, before, start, k);
    ApartAt(over, todo, k, base.Repr);
    StillApart(over, todo - {k}, k, base.Repr);
    SlotFacts(over, k);
    assert over.Graph().m.Keys == over.entries.Keys;
    PartialStep(before, over.Graph().m, todo, k);
    hide MapNode.Valid, MapNode.At, MapNode.Graph, MergedGraph, Apart, Partial, Incoming, MapNode.Under;
    MergeName(base, k, over);
  }

  lemma MergedContent(base: MapNode, over: MapNode)
    requires base.Valid() && over.Valid()
    ensures Forget(MergedGraph(base.Graph(), over.Graph())) == Merged(base.Content(), over.Content())
  {
    GraphWF(base);
    GraphWF(over);
    ForgetMerged(base.Graph(), over.Graph());
  }

  /**
    Merges override into base, map by map, visiting the names of the override
    in any order.  Where both sides have a nested map base keeps its own; every
    other value of the override is shared afterwards, nested maps included.
   */
  method DeepMerge(base: MapNode, over: MapNode)
    requires base.Valid() && over.Valid() && base.Repr !! over.Repr
    modifies base.Repr
    ensures base.Valid() && base.Repr <= old(base.Repr) + over.Repr
    ensures over.Valid() && unchanged(over.Repr)
    ensures base.Graph() == MergedGraph(old(base.Graph()), over.Graph())
    ensures base.Content() == Merged(old(base.Content()), over.Content())
    decreases over.Repr, 3
  {
    ghost var start, before := base.Repr, base.Graph().m;
    MergedContent(base, over);
    ProgressStarts(base, over);
    hide MapNode.Valid, MapNode.Graph, Progress, MergedGraph, Merged, WFShape, Forget;
    var todo := over.entries.Keys;
    while todo != {}
      invariant Progress(base, over, todo, before, start) && unchanged(over.Repr)
      decreases |todo|
    {
      var k :| k in todo;
      UnvisitedIsOld(base, over, todo, before, start, k);
      MergeOne(base, over, todo, before, start, k);
      todo := todo - {k};
    }
    ProgressEnds(base, over, before, start);
  }

  lemma ProgressStarts(base: MapNode, over: MapNode)
    requires base.Valid() && over.Valid() && base.Repr !! over.Repr
    ensures Progress(base, over, over.entries.Keys, base.Graph().m, base.Repr)
  {
    forall k ensures base.Under(k) <= base.Repr {
      if k in base.entries { SlotFacts(base, k); }
    }
    SlotsApart(base, over);
    assert over.Graph().m.Keys == over.entries.Keys;
    PartialEnds(base.Graph().m, over.Graph().m);
    hide MapNode.Valid, MapNode.At, Apart, Partial, MapNode.Graph;
  }

  lemma ProgressEnds(base: MapNode, over: MapNode, before: map<string, Shape>, start: set<object>)
    requires Progress(base, over, {}, before, start)
    ensures base.Valid() && over.Valid() && base.Repr <= start + over.Repr
    ensures base.Graph() == MergedGraph(Map(base, before), over.Graph())
  {
    hide MapNode.Valid, MapNode.At, MergedGraph, Partial;
    PartialEnds(before, over.Graph().m);
  }

  /** The maps below the names in todo are not among those in r. */
  ghost predicate Apart(over: MapNode, todo: set<string>, r: set<object>)
    requires over.Valid()
    reads over, over.Repr
  {
    forall k | k in todo :: over.Under(k) !! r
  }

  lemma ApartAt(over: MapNode, todo: set<string>, k: string, r: set<object>)
    requires over.Valid() && Apart(over, todo, r) && k in todo
    ensures over.Under(k) !! r && Apart(over, todo - {k}, r)
  {
  }

  lemma SlotsApart(base: MapNode, over: MapNode)
    requires base.Valid() && over.Valid() && base.Repr !! over.Repr
    ensures Apart(over, over.entries.Keys, base.Repr)
  {
    forall k | k in over.entries { SlotFacts(over, k); }
  }

  lemma StillApart(over: MapNode, todo: set<string>, k: string, r: set<object>)
    requires over.Valid() && todo <= over.entries.Keys && k in over.entries && k !in todo
    requires Apart(over, todo, r)
    ensures forall q: set<object> | q <= r + over.Under(k) :: Apart(over, todo, q)
  {
    SlotFacts(over, k);
    hide MapNode.Valid, MapNode.Under;
    forall q: set<object>, l | q <= r + over.Under(k) && l in todo ensures over.Under(l) !! q {
      assert over.Under(l) !! r && over.Under(l) !! over.Under(k);
    }
  }

  // ---------- MergeJSON ----------

  /** An object without the names that are still to come. */
  function Without(m: map<string, Data>, todo: set<string>): map<string, Data> {
    map k | k in m.Keys - todo :: m[k]
  }

  lemma ContentAt(n: MapNode)
    requires n.Valid()
    ensures n.Content().DObj? && n.Content().m.Keys == n.entries.Keys
    ensures forall l | l in n.entries :: n.Content().m[l] == Forget(n.At(l))
  {
  }

  /** When one slot changes, the content changes under that name. */
  lemma ContentUpdated(n: MapNode, was: map<string, Data>, k: string, d: Data)
    requires n.Valid() && n.entries.Keys == was.Keys + {k} && Forget(n.At(k)) == d
    requires forall l | l in n.entries && l != k :: Forget(n.At(l)) == was[l]
    ensures n.Content() == DObj(was[k := d])
  {
    ContentAt(n);
    hide MapNode.Valid, MapNode.At, MapNode.Content;
    assert n.Content().m == was[k := d];
  }

  lemma WithoutStep(m: map<string, Data>, todo: set<string>, k: string)
    requires k in todo && todo <= m.Keys
    ensures Without(m, todo)[k := m[k]] == Without(m, todo - {k})
  {
  }

  lemma WithoutEnds(m: map<string, Data>)
    ensures Without(m, m.Keys) == map[] && Without(m, {}) == m
  {
  }

  /** Lays a decoded object out in fresh maps, as json.Unmarshal does. */
  method Load(m: map<string, Data>) returns (n: MapNode)
    ensures n.Valid() && fresh(n.Repr) && n.Content() == DObj(m)
    decreases DObj(m), 1
  {
    n := new MapNode();
    var todo := m.Keys;
    assert n.Content().m == map[];
    WithoutEnds(m);
    hide MapNode.Valid, MapNode.Content, MapNode.Graph, Without;
    while todo != {}
      invariant n.Valid() && fresh(n.Repr) && todo <= m.Keys
      invariant n.Content() == DObj(Without(m, todo))
      decreases |todo|
    {
      var k :| k in todo;
      WithoutStep(m, todo, k);
      LoadName(n, k, m[k], m);
      todo := todo - {k};
    }
  }

  method LoadName(n: MapNode, k: string, d: Data, ghost m: map<string, Data>)
    requires n.Valid() && k in m && d == m[k]
    modifies n
    ensures n.Valid() && fresh(n.Repr - old(n.Repr))
    ensures n.Content() == DObj(old(n.Content()).m[k := d])
    decreases DObj(m), 0
  {
    ghost var was := n.Content().m;
    ContentAt(n);
    hide MapNode.Valid, MapNode.At, MapNode.Content, SlotGraph, Forget;
    var slot := LoadSlot(d);
    n.Put(k, slot);
    ContentUpdated(n, was, k, d);
  }

  method LoadSlot(d: Data) returns (slot: Slot)
    ensures slot.Leaf? ==> !slot.d.DObj?
    ensures slot.Sub? ==> slot.node.Valid() && fresh(slot.node.Repr)
    ensures Forget(SlotGraph(slot)) == d
    decreases d, 2
  {
    if d.DObj? {
      var c := Load(d.m);
      slot := Sub(c);
    } else {
      slot := Leaf(d);
    }
  }

  /** Reads the represented object back, as json.Marshal does before printing. */
  method Dump(n: MapNode) returns (d: Data)
    requires n.Valid()
    ensures d == n.Content()
    decreases n.Repr, 1
  {
    ghost var content := n.Content().m;
    assert content.Keys == n.entries.Keys;
    WithoutEnds(content);
    hide MapNode.Valid, MapNode.At, MapNode.Content, Without;
    var todo := n.entries.Keys;
    var out: map<string, Data> := map[];
    while todo != {}
      invariant todo <= content.Keys && out == Without(content, todo)
      decreases |todo|
    {
      var k :| k in todo;
      WithoutStep(content, todo, k);
      todo := todo - {k};
      var v := DumpSlot(n, k);
      out := out[k := v];
    }
    d := DObj(out);
  }

  method DumpSlot(n: MapNode, k: string) returns (d: Data)
    requires n.Valid() && k in n.entries
    ensures k in n.Content().m && d == n.Content().m[k]
    decreases n.Repr, 0
  {
    SlotFacts(n, k);
    ContentAt(n);
    hide MapNode.Valid, MapNode.Content, MapNode.At;
    match n.entries[k] {
      case Leaf(leaf) => d := leaf;
      case Sub(node) => d := Dump(node);
    }
  }

  datatype MergeOutcome = Done(text: string) | InvalidBase | InvalidOverride | NilMapPanic

  /** Decoding into a map: an object gives its members, null gives no map, anything else is an error. */
  function UnmarshalMap(t: string): Option<Data> {
    match Unmarshal(t)
    case Some(DObj(m)) => Some(DObj(m))
    case Some(DNull) => Some(DNull)
    case _ => None
  }

  /** The override merged on top, where a null on either side changes nothing. */
  function OnTop(base: Data, over: Data): Data {
    if base == DNull || over == DNull then base else Merged(base, over)
  }

  /** MergeJSON as a function of the two texts. */
  function MergeText(base: string, over: string): MergeOutcome {
    match UnmarshalMap(base)
    case None => InvalidBase
    case Some(b) =>
      match UnmarshalMap(over)
      case None => InvalidOverride
      case Some(o) =>
        if o.DNull? || o == EMPTY then Done(MarshalText(b))
        else if b.DNull? then NilMapPanic
        else Done(MarshalText(Merged(b, o)))
  }

  /** Decodes both texts, merges the second into the first in place, and prints the first. */
  method MergeJSON(base: string, over: string) returns (r: MergeOutcome)
    ensures r == MergeText(base, over)
  {
    var b, o := UnmarshalMap(base), UnmarshalMap(over);
    hide MapNode.Valid, MapNode.At, MapNode.Content, Merged, MarshalText, Unmarshal;
    if b == None {
      return InvalidBase;
    }
    if o == None {
      return InvalidOverride;
    }
    if b.value.DNull? {
      return if o.value.DNull? || o.value == EMPTY then Done(MarshalText(DNull)) else NilMapPanic;
    }
    var baseMap := Load(b.value.m);
    if o.value.DObj? {
      var overrideMap := Load(o.value.m);
      DeepMerge(baseMap, overrideMap);
      EmptyNeutral(b.value);
    }
    var merged := Dump(baseMap);
    r := Done(MarshalText(merged));
  }

  /** The text decodes into a map: it is an object or null. */
  predicate DecodesToMap(t: string) {
    Unmarshal(t).Some? && (Unmarshal(t).value.DObj? || Unmarshal(t).value.DNull?)
  }

  /** The base decodes to no map at all, and the override has something to put into it. */
  predicate NothingToMergeInto(base: string, over: string) {
    && Unmarshal(base) == Some(DNull)
    && Unmarshal(over).Some? && Unmarshal(over).value.DObj? && Unmarshal(over).value != EMPTY
  }

  /**
    The outcome for any two texts.  A text is printed exactly when both are
    objects or null and there is a map to merge into; it is JSON that decodes to
    the merge, with sorted names and without whitespace.  Otherwise the outcome
    says which text is to blame.
   */
  lemma MergeTextCorrect(base: string, over: string)
    ensures MergeText(base, over).InvalidBase? <==> !DecodesToMap(base)
    ensures MergeText(base, over).InvalidOverride? <==> DecodesToMap(base) && !DecodesToMap(over)
    ensures MergeText(base, over).NilMapPanic? <==> NothingToMergeInto(base, over)
    ensures MergeText(base, over).Done? <==>
      DecodesToMap(base) && DecodesToMap(over) && !NothingToMergeInto(base, over)
    ensures MergeText(base, over).Done? ==>
      var text := MergeText(base, over).text;
      && Canonical(text)
      && Unmarshal(text) == Some(OnTop(Unmarshal(base).value, Unmarshal(over).value))
  {
    if DecodesToMap(base) && DecodesToMap(over) {
      var b, o := Unmarshal(base).value, Unmarshal(over).value;
      UnmarshalWF(base);
      UnmarshalWF(over);
      MergedWF(b, o, MAX_DEPTH);
      if b.DObj? { EmptyNeutral(b); }
      MarshalDecodes(b);
      MarshalDecodes(Merged(b, o));
      hide Unmarshal, MarshalText, Canonical, WFData, Shallow;
    }
  }

  lemma MarshalDecodes(d: Data)
    requires WFData(d) && Shallow(d, MAX_DEPTH)
    ensures Canonical(MarshalText(d)) && Unmarshal(MarshalText(d)) == Some(d)
  {
    MarshalRoundTrip(d);
    MarshalCanonical(d);
  }
}
