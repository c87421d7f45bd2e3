/**
  What a filled string denotes: the template's text around the holes with the
  raw values in between, and exactly when that is so.
 */
module Content {
  import opened Json
  import opened Escape
  import opened Fill
  import opened Templates

  function FirstHole(ps: seq<Piece>): (i: nat)
    ensures i <= |ps|
    ensures forall k | 0 <= k < i :: !ps[k].Hole?
    ensures i < |ps| ==> ps[i].Hole?
  {
    if ps == [] || ps[0].Hole? then 0 else 1 + FirstHole(ps[1..])
  }

  predicate HolesHaveValues(ps: seq<Piece>, values: Values) {
    forall i | 0 <= i < |ps| && ps[i].Hole? :: ps[i].name in values
  }

  /** The string with each stretch between holes decoded on its own and each hole replaced by the raw value. */
  function Spliced(ps: seq<Piece>, values: Values): string
    requires HolesHaveValues(ps, values)
    decreases |ps|
  {
    var i := FirstHole(ps);
    if i == |ps| then Decode(ps)
    else Decode(ps[..i]) + values[ps[i].name] + Spliced(ps[i + 1..], values)
  }

  predicate EmptyHole(p: Piece, values: Values) {
    p.Hole? && p.name in values && values[p.name] == ""
  }

  /** The holes from position i up to j all get the empty value. */
  predicate EmptyHoles(ps: seq<Piece>, values: Values, i: nat, j: nat)
    requires j <= |ps|
  {
    forall k | i <= k < j :: EmptyHole(ps[k], values)
  }

  /** Holes that all get the empty value stand between the escapes of a high and a low surrogate. */
  predicate JointAt(ps: seq<Piece>, values: Values, i: nat, j: nat) {
    i + 1 < j < |ps| && IsHigh(Unit(ps[i])) && IsLow(Unit(ps[j])) && EmptyHoles(ps, values, i + 1, j)
  }

  ghost predicate Joint(ps: seq<Piece>, values: Values) {
    exists i: nat, j: nat :: JointAt(ps, values, i, j)
  }

  // ---------- Filling ----------

  lemma {:induction false} FillAppend(a: seq<Piece>, b: seq<Piece>, g: Filler)
    ensures FillPieces(a + b, g) == FillPieces(a, g) + FillPieces(b, g)
    decreases |b|
  {
    if b == [] {
      assert a + b == a;
    } else {
      var n := |b| - 1;
      assert (a + b)[..|a + b| - 1] == a + b[..n];
      FillAppend(a, b[..n], g);
    }
  }

  lemma {:induction false} FillWithoutHoles(ps: seq<Piece>, g: Filler)
    requires forall k | 0 <= k < |ps| :: !ps[k].Hole?
    ensures FillPieces(ps, g) == ps
  {
    if ps != [] {
      var n := |ps| - 1;
      FillWithoutHoles(ps[..n], g);
      assert ps == ps[..n] + [ps[n]];
    }
  }

  lemma FillSingle(p: Piece, values: Values)
    requires p.Hole? ==> p.name in values
    ensures FillPieces([p], Escapes(values)) == if p.Hole? then EscapePieces(values[p.name]) else [p]
  {
    assert [p][..0] == [];
  }

  /** The filled pieces: the stretch before the first hole, the escaped value, and the rest filled. */
  lemma FillSplit(ps: seq<Piece>, values: Values, i: nat)
    requires HolesHaveValues(ps, values) && i == FirstHole(ps) < |ps| && ps[i].Hole?
    ensures FillPieces(ps, Escapes(values)) ==
      ps[..i] + (EscapePieces(values[ps[i].name]) + FillPieces(ps[i + 1..], Escapes(values)))
  {
    FillParts(ps, Escapes(values), i);
    FillBefore(ps, Escapes(values), i);
    FillSingle(ps[i], values);
  }

  lemma FillParts(ps: seq<Piece>, g: Filler, i: nat)
    requires i < |ps|
    ensures FillPieces(ps, g) == FillPieces(ps[..i], g) + (FillPieces([ps[i]], g) + FillPieces(ps[i + 1..], g))
  {
    hide FillPieces;
    assert ps[i..] == [ps[i]] + ps[i + 1..];
    assert ps == ps[..i] + ps[i..];
    FillAppend(ps[..i], ps[i..], g);
    FillAppend([ps[i]], ps[i + 1..], g);
  }

  lemma FillBefore(ps: seq<Piece>, g: Filler, i: nat)
    requires i == FirstHole(ps)
    ensures FillPieces(ps[..i], g) == ps[..i]
  {
    FillWithoutHoles(ps[..i], g);
  }

  // ---------- Decoding a concatenation ----------

  predicate EndsHigh(a: seq<Piece>) {
    a != [] && IsHigh(Unit(a[|a| - 1]))
  }

  predicate StartsLow(b: seq<Piece>) {
    b != [] && IsLow(Unit(b[0]))
  }

  /** Decoding is compositional except across a surrogate pair, where one character is lost. */
  lemma {:induction false} DecodeAppend(a: seq<Piece>, b: seq<Piece>)
    ensures !(EndsHigh(a) && StartsLow(b)) ==> Decode(a + b) == Decode(a) + Decode(b)
    ensures EndsHigh(a) && StartsLow(b) ==> |Decode(a + b)| == |Decode(a)| + |Decode(b)| - 1
    decreases |a|
  {
    if a == [] {
      assert a + b == b;
    } else if |a| == 1 {
      DecodeSingleAppend(a[0], b);
      assert a == [a[0]];
    } else {
      var k := if Pairs(a) then 2 else 1;
      hide Decode;
      DecodeAppend(a[k..], b);
      DecodeBoth(a, b, k);
      LastPiece(a, k);
    }
  }

  /** Both sides of DecodeAppend start with the same character. */
  lemma DecodeBoth(a: seq<Piece>, b: seq<Piece>, k: nat)
    requires |a| >= 2 && k == if Pairs(a) then 2 else 1
    ensures Decode(a) == Decode(a[..k]) + Decode(a[k..])
    ensures Decode(a + b) == Decode(a[..k]) + Decode(a[k..] + b)
    ensures Decode(a) + Decode(b) == Decode(a[..k]) + (Decode(a[k..]) + Decode(b))
  {
    hide Decode, Unit;
    DecodeHead(a, k);
    DecodeHead(a + b, k);
    assert (a + b)[k..] == a[k..] + b && (a + b)[..k] == a[..k];
  }

  lemma LastPiece(a: seq<Piece>, k: nat)
    requires |a| >= 2 && k == if Pairs(a) then 2 else 1
    ensures EndsHigh(a[k..]) <==> EndsHigh(a)
  {
    if a[k..] != [] {
      assert a[k..][|a| - k - 1] == a[|a| - 1];
    }
  }

  lemma DecodeOne(p: Piece)
    ensures Decode([p]) == [Single(Unit(p))]
  {
    hide Unit, Single;
    assert [p][1..] == [];
  }

  lemma DecodeTwo(p: Piece, q: Piece)
    requires IsHigh(Unit(p)) && IsLow(Unit(q))
    ensures Decode([p, q]) == [Combine(Unit(p), Unit(q))]
  {
    hide Unit, Combine, IsHigh, IsLow;
    assert [p, q][2..] == [];
  }

  /** The first character takes one piece, or two when they form a pair. */
  lemma DecodeHead(ps: seq<Piece>, k: nat)
    requires |ps| >= 2 && k == if Pairs(ps) then 2 else 1
    ensures Decode(ps) == Decode(ps[..k]) + Decode(ps[k..])
  {
    DecodeStep(ps);
    if k == 1 {
      assert ps[..1] == [ps[0]];
      DecodeOne(ps[0]);
    } else {
      assert ps[..2] == [ps[0], ps[1]];
      DecodeTwo(ps[0], ps[1]);
    }
    hide Decode, Unit, IsHigh, IsLow, Single, Combine;
  }

  lemma DecodeStep(ps: seq<Piece>)
    requires |ps| >= 2
    ensures Pairs(ps) ==> Decode(ps) == [Combine(Unit(ps[0]), Unit(ps[1]))] + Decode(ps[2..])
    ensures !Pairs(ps) ==> Decode(ps) == [Single(Unit(ps[0]))] + Decode(ps[1..])
  {
    hide Unit, IsHigh, IsLow, Single, Combine;
  }

  lemma DecodeSingleAppend(p: Piece, b: seq<Piece>)
    ensures !(IsHigh(Unit(p)) && StartsLow(b)) ==> Decode([p] + b) == Decode([p]) + Decode(b)
    ensures IsHigh(Unit(p)) && StartsLow(b) ==> |Decode([p] + b)| == |Decode([p])| + |Decode(b)| - 1
  {
    var ps := [p] + b;
    assert ps[1..] == b && [p][1..] == [];
    assert Decode([p]) == [Single(Unit(p))];
    if IsHigh(Unit(p)) && StartsLow(b) {
      assert ps[2..] == b[1..] && !Pairs(b);
      assert Decode(b) == [Single(Unit(b[0]))] + Decode(b[1..]);
    }
  }

  // ---------- The content theorem ----------

  /** Only empty holes come before a low surrogate. */
  ghost predicate LowAhead(ps: seq<Piece>, values: Values) {
    exists j: nat :: j < |ps| && IsLow(Unit(ps[j])) && EmptyHoles(ps, values, 0, j)
  }

  lemma LowAheadSkip(ps: seq<Piece>, values: Values)
    requires ps != [] && EmptyHole(ps[0], values)
    ensures LowAhead(ps, values) <==> LowAhead(ps[1..], values)
  {
    var rest := ps[1..];
    assert !IsLow(Unit(ps[0]));
    hide Unit, IsLow, EmptyHole;
    if LowAhead(rest, values) {
      var j: nat :| j < |rest| && IsLow(Unit(rest[j])) && EmptyHoles(rest, values, 0, j);
      forall k | 0 <= k < j + 1 ensures EmptyHole(ps[k], values) {
        if k > 0 { assert ps[k] == rest[k - 1]; }
      }
      assert ps[j + 1] == rest[j];
    }
    if LowAhead(ps, values) {
      var j: nat :| j < |ps| && IsLow(Unit(ps[j])) && EmptyHoles(ps, values, 0, j);
      forall k | 0 <= k < j - 1 ensures EmptyHole(rest[k], values) {
        assert ps[k + 1] == rest[k];
      }
      assert ps[j] == rest[j - 1];
    }
  }

  lemma LowAheadHere(ps: seq<Piece>, values: Values)
    requires ps != [] && !EmptyHole(ps[0], values)
    ensures LowAhead(ps, values) <==> IsLow(Unit(ps[0]))
  {
    if IsLow(Unit(ps[0])) {
      assert EmptyHoles(ps, values, 0, 0);
    }
  }

  /** The filled rest starts with a low surrogate exactly when only empty holes come before one. */
  lemma {:induction false} FilledStartsLow(ps: seq<Piece>, values: Values)
    requires HolesHaveValues(ps, values)
    ensures StartsLow(FillPieces(ps, Escapes(values))) <==> LowAhead(ps, values)
    decreases |ps|
  {
    if ps != [] {
      var p, rest, g := ps[0], ps[1..], Escapes(values);
      assert ps == [p] + rest;
      FillAppend([p], rest, g);
      FillSingle(p, values);
      hide FillPieces, Unit, LowAhead;
      if EmptyHole(p, values) {
        FilledStartsLow(rest, values);
        LowAheadSkip(ps, values);
        assert FillPieces(ps, g) == FillPieces(rest, g);
      } else {
        FirstUnitDecides(p, values);
        LowAheadHere(ps, values);
      }
    }
  }

  /** What a piece that does not vanish starts with. */
  lemma FirstUnitDecides(p: Piece, values: Values)
    requires (p.Hole? ==> p.name in values) && !EmptyHole(p, values)
    ensures FillPieces([p], Escapes(values)) != []
    ensures IsLow(Unit(FillPieces([p], Escapes(values))[0])) <==> IsLow(Unit(p))
  {
    FillSingle(p, values);
    if p.Hole? {
      EscapeCharCorrect(values[p.name][0]);
    }
  }

  /** An all-empty run of holes at position i, after a high surrogate, runs into a low one. */
  ghost predicate Across(ps: seq<Piece>, values: Values, i: nat)
    requires i < |ps|
  {
    EmptyHole(ps[i], values) && EndsHigh(ps[..i]) && StartsLow(FillPieces(ps[i + 1..], Escapes(values)))
  }

  lemma JointInRest(ps: seq<Piece>, values: Values, i: nat)
    requires i < |ps| && Joint(ps[i + 1..], values)
    ensures Joint(ps, values)
  {
    var rest := ps[i + 1..];
    hide Unit, IsHigh, IsLow, EmptyHole;
    var x: nat, y: nat :| JointAt(rest, values, x, y);
    forall k: nat | k < |rest| ensures ps[k + i + 1] == rest[k] {}
    forall k | x + i + 2 <= k < y + i + 1 ensures EmptyHole(ps[k], values) {
      assert rest[k - i - 1] == ps[k];
      assert EmptyHole(rest[k - i - 1], values);
    }
    assert JointAt(ps, values, x + i + 1, y + i + 1);
  }

  lemma JointAcross(ps: seq<Piece>, values: Values, i: nat)
    requires HolesHaveValues(ps, values) && i < |ps| && Across(ps, values, i)
    ensures Joint(ps, values)
  {
    var rest := ps[i + 1..];
    hide FillPieces, Unit, IsHigh, IsLow, EmptyHole;
    FilledStartsLow(rest, values);
    var j: nat :| j < |rest| && IsLow(Unit(rest[j])) && EmptyHoles(rest, values, 0, j);
    forall k | i <= k < j + i + 1 ensures EmptyHole(ps[k], values) {
      if k > i {
        assert rest[k - i - 1] == ps[k];
        assert EmptyHole(rest[k - i - 1], values);
      }
    }
    assert rest[j] == ps[j + i + 1];
    assert ps[..i][i - 1] == ps[i - 1];
    assert JointAt(ps, values, i - 1, j + i + 1);
  }

  lemma JointLocation(ps: seq<Piece>, values: Values, i: nat, x: nat, y: nat)
    requires HolesHaveValues(ps, values) && i == FirstHole(ps) < |ps|
    requires JointAt(ps, values, x, y)
    ensures Joint(ps[i + 1..], values) || Across(ps, values, i)
  {
    assert EmptyHole(ps[x + 1], values);
    assert IsHigh(Unit(ps[x]));
    assert x + 1 >= i && x != i;
    hide FirstHole, FillPieces;
    if x > i {
      JointLater(ps, values, i, x, y);
    } else {
      JointEarlier(ps, values, i, y);
    }
  }

  lemma JointLater(ps: seq<Piece>, values: Values, i: nat, x: nat, y: nat)
    requires i < x && JointAt(ps, values, x, y)
    ensures Joint(ps[i + 1..], values)
  {
    var rest := ps[i + 1..];
    hide Unit, IsHigh, IsLow, EmptyHole;
    forall k | x - i <= k < y - i - 1 ensures EmptyHole(rest[k], values) {
      assert rest[k] == ps[k + i + 1];
    }
    assert rest[x - i - 1] == ps[x] && rest[y - i - 1] == ps[y];
    assert JointAt(rest, values, x - i - 1, y - i - 1);
  }

  lemma JointEarlier(ps: seq<Piece>, values: Values, i: nat, y: nat)
    requires HolesHaveValues(ps, values) && 0 < i < |ps| && JointAt(ps, values, i - 1, y)
    ensures Across(ps, values, i)
  {
    var rest := ps[i + 1..];
    hide FillPieces, Unit, IsHigh, IsLow, EmptyHole;
    FilledStartsLow(rest, values);
    var j := y - i - 1;
    forall k | 0 <= k < j ensures EmptyHole(rest[k], values) {
      assert rest[k] == ps[k + i + 1];
    }
    assert rest[j] == ps[y];
    assert IsLow(Unit(rest[j])) && EmptyHoles(rest, values, 0, j);
    assert ps[..i][i - 1] == ps[i - 1];
    assert EmptyHole(ps[i], values);
  }

  /** Joints in a string: one across its first hole, or one after it. */
  lemma JointSplit(ps: seq<Piece>, values: Values, i: nat)
    requires HolesHaveValues(ps, values) && i == FirstHole(ps) < |ps|
    ensures Joint(ps, values) <==> Joint(ps[i + 1..], values) || Across(ps, values, i)
  {
    hide JointAt, FirstHole, Across;
    if Joint(ps[i + 1..], values) { JointInRest(ps, values, i); }
    if Across(ps, values, i) { JointAcross(ps, values, i); }
    if Joint(ps, values) {
      var x: nat, y: nat :| JointAt(ps, values, x, y);
      JointLocation(ps, values, i, x, y);
    }
  }

  /** How filling and decoding compare with decoding and splicing. */
  lemma {:induction false} ContentLengths(ps: seq<Piece>, values: Values)
    requires HolesHaveValues(ps, values)
    ensures Joint(ps, values) ==> |Decode(FillPieces(ps, Escapes(values)))| < |Spliced(ps, values)|
    ensures !Joint(ps, values) ==> Decode(FillPieces(ps, Escapes(values))) == Spliced(ps, values)
    decreases |ps|
  {
    var i, g := FirstHole(ps), Escapes(values);
    hide Joint, Decode, FillPieces, StartsLow, EndsHigh;
    if i == |ps| {
      FillWithoutHoles(ps, g);
      NoJoint(ps, values);
    } else {
      var a, v, rest := ps[..i], values[ps[i].name], ps[i + 1..];
      ContentLengths(rest, values);
      JointSplit(ps, values, i);
      ContentStep(ps, values, i);
    }
  }

  lemma NoJoint(ps: seq<Piece>, values: Values)
    requires forall k | 0 <= k < |ps| :: !ps[k].Hole?
    ensures !Joint(ps, values)
  {
    forall i: nat, j: nat ensures !JointAt(ps, values, i, j) {
      if i + 1 < j < |ps| { assert !EmptyHole(ps[i + 1], values); }
    }
  }

  /** The stretch before the first hole, and its value, come through unless the value is empty and halves meet. */
  lemma ContentStep(ps: seq<Piece>, values: Values, i: nat)
    requires HolesHaveValues(ps, values) && i == FirstHole(ps) < |ps|
    ensures var a, v, filled := ps[..i], values[ps[i].name], FillPieces(ps[i + 1..], Escapes(values));
      if v == "" && EndsHigh(a) && StartsLow(filled)
      then |Decode(FillPieces(ps, Escapes(values)))| == |Decode(a) + v| + |Decode(filled)| - 1
      else Decode(FillPieces(ps, Escapes(values))) == Decode(a) + v + Decode(filled)
  {
    FillSplit(ps, values, i);
    SpliceDecodes(ps[..i], values[ps[i].name], FillPieces(ps[i + 1..], Escapes(values)));
  }

  lemma SpliceDecodes(a: seq<Piece>, v: string, filled: seq<Piece>)
    ensures if v == "" && EndsHigh(a) && StartsLow(filled)
      then |Decode(a + (EscapePieces(v) + filled))| == |Decode(a) + v| + |Decode(filled)| - 1
      else Decode(a + (EscapePieces(v) + filled)) == Decode(a) + v + Decode(filled)
  {
    var b := EscapePieces(v) + filled;
    DecodeAppend(a, b);
    DecodeEscapePrefix(v, filled);
    hide Decode, EndsHigh, Unit;
    if v == "" {
      assert b == filled;
    } else {
      ValueStartsPlain(v, filled);
    }
  }

  lemma ValueStartsPlain(v: string, filled: seq<Piece>)
    requires v != ""
    ensures !StartsLow(EscapePieces(v) + filled)
  {
    EscapeCharCorrect(v[0]);
    assert (EscapePieces(v) + filled)[0] == EscapeChar(v[0]);
  }

  /**
    A filled string denotes the template's text with the raw values spliced in,
    unless empty values bring the two halves of a surrogate pair together.
   */
  lemma ContentPreserved(ps: seq<Piece>, values: Values)
    requires HolesHaveValues(ps, values)
    ensures Decode(FillPieces(ps, Escapes(values))) == Spliced(ps, values) <==> !Joint(ps, values)
  {
    ContentLengths(ps, values);
  }
}
