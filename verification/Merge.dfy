/** Deep merge of one JSON object onto another: what it means, path by path, and its algebra. */
module Merge {
  import opened Options
  import opened Objects

  /** Objects merge name by name; anything else in the override replaces what the base holds. */
  function Merged(base: Data, over: Data): Data {
    if base.DObj? && over.DObj? then
      DObj(map k | k in base.m.Keys + over.m.Keys ::
        if k !in over.m then base.m[k]
        else if k !in base.m then over.m[k]
        else Merged(base.m[k], over.m[k]))
    else over
  }

  // ---------- Paths ----------

  /** The value reached by following the names of a path through nested objects. */
  function At(d: Data, path: seq<string>): Option<Data> {
    if path == [] then Some(d)
    else if d.DObj? && path[0] in d.m then At(d.m[path[0]], path[1..])
    else None
  }

  /** The override leaves the base's objects at some name the override does not have. */
  predicate FallsOff(base: Data, over: Data, path: seq<string>) {
    && path != [] && base.DObj? && over.DObj?
    && (path[0] !in over.m || (path[0] in base.m && FallsOff(base.m[path[0]], over.m[path[0]], path[1..])))
  }

  predicate IsObject(o: Option<Data>) {
    o.Some? && o.value.DObj?
  }

  /** Every value of the override that is no object appears at its path. */
  lemma {:induction false} OverrideWins(base: Data, over: Data, path: seq<string>)
    requires At(over, path).Some? && !IsObject(At(over, path))
    ensures At(Merged(base, over), path) == At(over, path)
    decreases |path|
  {
    if path != [] && base.DObj? && path[0] in base.m {
      OverrideWins(base.m[path[0]], over.m[path[0]], path[1..]);
    }
  }

  /** Every base path the override falls off keeps what the base has there, or its absence. */
  lemma {:induction false} BaseSurvives(base: Data, over: Data, path: seq<string>)
    requires FallsOff(base, over, path)
    ensures At(Merged(base, over), path) == At(base, path)
    decreases |path|
  {
    if path[0] in over.m {
      BaseSurvives(base.m[path[0]], over.m[path[0]], path[1..]);
    }
  }

  /** What the merge has at a path comes from the override, from the base, or is the merge of two objects there. */
  lemma {:induction false} NothingInvented(base: Data, over: Data, path: seq<string>)
    ensures var r := At(Merged(base, over), path);
      || r == At(over, path)
      || (r == At(base, path) && FallsOff(base, over, path))
      || (IsObject(r) && IsObject(At(base, path)) && IsObject(At(over, path)) &&
          r.value == Merged(At(base, path).value, At(over, path).value))
    decreases |path|
  {
    if path != [] && base.DObj? && over.DObj? && path[0] in base.m && path[0] in over.m {
      NothingInvented(base.m[path[0]], over.m[path[0]], path[1..]);
    }
  }

  // ---------- Algebra ----------

  const EMPTY := DObj(map[])

  /** The empty object is neutral on both sides. */
  lemma EmptyNeutral(a: Data)
    requires a.DObj?
    ensures Merged(a, EMPTY) == a && Merged(EMPTY, a) == a
  {
    assert Merged(a, EMPTY).m == a.m;
    assert Merged(EMPTY, a).m == a.m;
  }

  /** Every name the data a has, at any depth, is in c, and no object of a meets an object of c with more to say. */
  predicate Covered(a: Data, c: Data) {
    a.DObj? && c.DObj? ==> forall k | k in a.m :: k in c.m && Covered(a.m[k], c.m[k])
  }

  /** Merging c onto a gives c exactly when a is covered by c. */
  lemma {:induction false} MergeCovered(a: Data, c: Data)
    ensures Merged(a, c) == c <==> Covered(a, c)
  {
    if a.DObj? && c.DObj? {
      var r := Merged(a, c);
      forall k | k in a.m && k in c.m ensures Merged(a.m[k], c.m[k]) == c.m[k] <==> Covered(a.m[k], c.m[k]) {
        MergeCovered(a.m[k], c.m[k]);
      }
      if Covered(a, c) {
        assert r.m.Keys == c.m.Keys;
        assert forall k | k in c.m :: r.m[k] == c.m[k];
      }
      if r == c {
        assert forall k | k in a.m :: k in r.m;
        assert forall k | k in a.m :: r.m[k] == c.m[k];
      }
    }
  }

  lemma {:induction false} CoveredSelf(a: Data)
    ensures Covered(a, a)
  {
    if a.DObj? {
      forall k | k in a.m { CoveredSelf(a.m[k]); }
    }
  }

  lemma {:induction false} CoveredByMerge(a: Data, b: Data)
    ensures Merged(Merged(a, b), b) == Merged(a, b)
  {
    if a.DObj? && b.DObj? {
      var r := Merged(a, b);
      forall k | k in a.m && k in b.m { CoveredByMerge(a.m[k], b.m[k]); }
      forall k | k in b.m && k !in a.m ensures Merged(b.m[k], b.m[k]) == b.m[k] {
        CoveredSelf(b.m[k]);
        MergeCovered(b.m[k], b.m[k]);
      }
      assert Merged(r, b).m == r.m;
    } else {
      CoveredSelf(b);
      MergeCovered(b, b);
    }
  }

  /** Merging a value onto itself, or the same override twice, changes nothing more. */
  lemma MergeIdempotent(a: Data, b: Data)
    ensures Merged(a, a) == a
    ensures Merged(Merged(a, b), b) == Merged(a, b)
  {
    CoveredSelf(a);
    MergeCovered(a, a);
    CoveredByMerge(a, b);
  }

  /**
    Wherever all three have a value and b's is no object between objects of a
    and c, the object of a adds nothing to that of c.
   */
  predicate NoSandwich(a: Data, b: Data, c: Data) {
    if !(a.DObj? && c.DObj?) then true
    else if !b.DObj? then Covered(a, c)
    else forall k | k in a.m && k in b.m && k in c.m :: NoSandwich(a.m[k], b.m[k], c.m[k])
  }

  /** Merging is associative exactly when no value of b cuts an object of a off from an object of c. */
  lemma {:induction false} MergeAssociative(a: Data, b: Data, c: Data)
    ensures Merged(Merged(a, b), c) == Merged(a, Merged(b, c)) <==> NoSandwich(a, b, c)
    decreases a
  {
    if a.DObj? && b.DObj? && c.DObj? {
      var l, r := Merged(Merged(a, b), c), Merged(a, Merged(b, c));
      assert l.m.Keys == r.m.Keys;
      forall k | k in l.m ensures l.m[k] == r.m[k] <==> FineAt(a, b, c, k) {
        if k in a.m && k in b.m && k in c.m { MergeAssociative(a.m[k], b.m[k], c.m[k]); }
      }
      EqualByKeys(l.m, r.m, a, b, c);
    } else if a.DObj? && c.DObj? {
      MergeCovered(a, c);
    }
  }

  predicate FineAt(a: Data, b: Data, c: Data, k: string)
    requires a.DObj? && b.DObj? && c.DObj?
  {
    k in a.m && k in b.m && k in c.m ==> NoSandwich(a.m[k], b.m[k], c.m[k])
  }

  lemma EqualByKeys(l: map<string, Data>, r: map<string, Data>, a: Data, b: Data, c: Data)
    requires l.Keys == r.Keys && a.DObj? && b.DObj? && c.DObj? && a.m.Keys <= l.Keys
    requires forall k | k in l :: l[k] == r[k] <==> FineAt(a, b, c, k)
    ensures l == r <==> NoSandwich(a, b, c)
  {
    assert NoSandwich(a, b, c) <==> forall k | k in a.m.Keys :: FineAt(a, b, c, k);
    hide NoSandwich;
    if NoSandwich(a, b, c) {
      forall k | k in l ensures l[k] == r[k] {
        assert k in a.m.Keys ==> FineAt(a, b, c, k);
      }
    }
  }

  /** Associativity does fail: an object, a scalar and an object at the same name. */
  lemma MergeNotAssociative()
    ensures var a, b, c := DObj(map["k" := DObj(map["x" := DNull])]), DObj(map["k" := DNull]), DObj(map["k" := EMPTY]);
      Merged(Merged(a, b), c) != Merged(a, Merged(b, c))
  {
    var a, b, c := DObj(map["k" := DObj(map["x" := DNull])]), DObj(map["k" := DNull]), DObj(map["k" := EMPTY]);
    assert !Covered(a.m["k"], c.m["k"]) by { assert "x" in a.m["k"].m; }
    assert !NoSandwich(a, b, c) by { assert "k" in a.m; }
    MergeAssociative(a, b, c);
  }

  // ---------- Well-formedness ----------

  lemma {:induction false} MergedWF(base: Data, over: Data, h: nat)
    requires WFData(base) && WFData(over) && Shallow(base, h) && Shallow(over, h)
    ensures WFData(Merged(base, over)) && Shallow(Merged(base, over), h)
  {
    if base.DObj? && over.DObj? {
      forall k | k in base.m && k in over.m
        ensures WFData(Merged(base.m[k], over.m[k])) && Shallow(Merged(base.m[k], over.m[k]), h - 1)
      {
        MergedWF(base.m[k], over.m[k], h - 1);
      }
    }
  }
}
