/** The order Go's sort.Strings and encoding/json use on strings, and insertion into sorted lists. */
module Order {

  /** Lexicographic by scalar value, which is also the order of the UTF-8 bytes. */
  predicate Less(a: string, b: string) {
    b != "" && (a == "" || a[0] < b[0] || (a[0] == b[0] && Less(a[1..], b[1..])))
  }

  lemma {:induction false} LessTotal(a: string, b: string)
    ensures Less(a, b) || a == b || Less(b, a)
    decreases |a|
  {
    if a != "" && b != "" && a[0] == b[0] {
      LessTotal(a[1..], b[1..]);
      assert a == [a[0]] + a[1..] && b == [b[0]] + b[1..];
    }
  }

  lemma {:induction false} LessTransitive(a: string, b: string, c: string)
    requires Less(a, b) && Less(b, c)
    ensures Less(a, c)
    decreases |a|
  {
    if a != "" && a[0] == b[0] && b[0] == c[0] {
      LessTransitive(a[1..], b[1..], c[1..]);
    }
  }

  lemma {:induction false} LessIrreflexive(a: string)
    ensures !Less(a, a)
    decreases |a|
  {
    if a != "" { LessIrreflexive(a[1..]); }
  }

  predicate StrictlySorted(xs: seq<string>) {
    forall i, j | 0 <= i < j < |xs| :: Less(xs[i], xs[j])
  }

  function Insert(xs: seq<string>, x: string): seq<string> {
    if xs == [] then [x]
    else if Less(x, xs[0]) then [x] + xs
    else [xs[0]] + Insert(xs[1..], x)
  }

  function SortStrings(xs: seq<string>): seq<string> {
    if xs == [] then [] else Insert(SortStrings(xs[1..]), xs[0])
  }

  lemma {:induction false} InsertMembers(xs: seq<string>, x: string)
    ensures forall y :: y in Insert(xs, x) <==> y == x || y in xs
  {
    if xs != [] && !Less(x, xs[0]) {
      InsertMembers(xs[1..], x);
      assert xs == [xs[0]] + xs[1..];
    }
  }

  lemma {:induction false} InsertSorted(xs: seq<string>, x: string)
    requires StrictlySorted(xs) && x !in xs
    ensures StrictlySorted(Insert(xs, x))
  {
    if xs == [] {
    } else if Less(x, xs[0]) {
      forall j | 0 < j < |xs| ensures Less(x, xs[j]) {
        LessTransitive(x, xs[0], xs[j]);
      }
    } else {
      LessTotal(x, xs[0]);
      InsertSorted(xs[1..], x);
      InsertMembers(xs[1..], x);
      var ys := Insert(xs[1..], x);
      forall j | 0 <= j < |ys| ensures Less(xs[0], ys[j]) {
        assert ys[j] in ys;
        assert ys[j] == x || ys[j] in xs[1..];
      }
    }
  }

  predicate Distinct(xs: seq<string>) {
    forall i, j | 0 <= i < j < |xs| :: xs[i] != xs[j]
  }

  /** Sorting keeps the elements, and distinct elements come out strictly ascending. */
  lemma {:induction false} SortStringsSorts(xs: seq<string>)
    ensures forall y :: y in SortStrings(xs) <==> y in xs
    ensures Distinct(xs) ==> StrictlySorted(SortStrings(xs))
  {
    if xs != [] {
      var rest := xs[1..];
      assert xs == [xs[0]] + rest;
      SortStringsSorts(rest);
      InsertMembers(SortStrings(rest), xs[0]);
      if Distinct(xs) {
        assert xs[0] !in rest;
        InsertSorted(SortStrings(rest), xs[0]);
      }
    }
  }

  /** A strictly ascending list is determined by its set of elements. */
  lemma {:induction false} SortedUnique(xs: seq<string>, ys: seq<string>)
    requires StrictlySorted(xs) && StrictlySorted(ys)
    requires forall z :: z in xs <==> z in ys
    ensures xs == ys
  {
    assert forall j | 0 <= j < |ys| :: ys[j] in xs;
    var y := if ys == [] then "" else ys[0];
    if xs != [] {
      assert xs[0] in ys && (ys != [] ==> ys[0] in xs);
      HeadLeast(xs, ys[0]);
      HeadLeast(ys, xs[0]);
      if xs[0] != ys[0] {
        LessTransitive(xs[0], ys[0], xs[0]);
        LessIrreflexive(xs[0]);
        assert false;
      }
      TailMembers(xs);
      TailMembers(ys);
      SortedUnique(xs[1..], ys[1..]);
    }
  }

  lemma HeadLeast(xs: seq<string>, z: string)
    requires StrictlySorted(xs) && z in xs
    ensures z == xs[0] || Less(xs[0], z)
  {
  }

  lemma TailMembers(xs: seq<string>)
    requires StrictlySorted(xs) && xs != []
    ensures StrictlySorted(xs[1..])
    ensures forall z :: z in xs[1..] <==> z in xs && z != xs[0]
  {
    LessIrreflexive(xs[0]);
    assert xs == [xs[0]] + xs[1..];
    forall i | 1 <= i < |xs| ensures xs[i] != xs[0] {
      assert Less(xs[0], xs[i]);
    }
  }
}
