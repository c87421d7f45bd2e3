/**
  JSON values as Go sees them after decoding: objects are maps, so a repeated
  name keeps its last value.  Marshalling prints them back with sorted names.
 */
module Objects {
  import opened Options
  import opened Json
  import opened JsonSound
  import opened JsonComplete
  import opened Layout
  import opened Escape
  import opened Order

  datatype Data =
    | DNull
    | DBool(b: bool)
    | DNum(text: string)
    | DStr(s: string)
    | DArr(xs: seq<Data>)
    | DObj(m: map<string, Data>)

  // ---------- Decoding ----------

  function ToData(v: Value): Data {
    match v
    case Literal(w) => (match w case Null => DNull case True => DBool(true) case False => DBool(false))
    case Num(t) => DNum(t)
    case Str(ps) => DStr(Decode(ps))
    case Arr(items, _) => DArr(ItemsData(items))
    case Obj(mems, _) => DObj(MembersData(mems))
  }

  function ItemsData(items: Items): seq<Data> {
    match items
    case NoItems => []
    case Item(init, _, v, _) => ItemsData(init) + [ToData(v)]
  }

  function MembersData(mems: Members): map<string, Data> {
    match mems
    case NoMembers => map[]
    case Member(init, _, key, _, _, v, _) => MembersData(init)[Decode(key) := ToData(v)]
  }

  // ---------- Marshalling ----------

  predicate IsLeast(s: set<string>, x: string) {
    x in s && forall y | y in s :: x == y || Less(x, y)
  }

  lemma {:induction false} LeastExists(s: set<string>)
    requires s != {}
    ensures exists x :: IsLeast(s, x)
    decreases |s|
  {
    var z :| z in s;
    var rest := s - {z};
    if rest == {} {
      assert s == {z};
      assert IsLeast(s, z);
    } else {
      LeastExists(rest);
      var w :| IsLeast(rest, w);
      LessTotal(z, w);
      if Less(w, z) {
        assert IsLeast(s, w);
      } else {
        forall y | y in rest && y != w ensures Less(z, y) {
          if z != w { LessTransitive(z, w, y); }
        }
        assert IsLeast(s, z);
      }
    }
  }

  lemma LeastUnique(s: set<string>, x: string, y: string)
    requires IsLeast(s, x) && IsLeast(s, y)
    ensures x == y
  {
    if x != y {
      LessTransitive(x, y, x);
      LessIrreflexive(x);
    }
  }

  function Least(s: set<string>): (x: string)
    requires s != {}
    ensures IsLeast(s, x)
  {
    LeastExists(s);
    assert forall x, y | IsLeast(s, x) && IsLeast(s, y) :: x == y by {
      forall x, y | IsLeast(s, x) && IsLeast(s, y) ensures x == y {
        LeastUnique(s, x, y);
      }
    }
    var x :| IsLeast(s, x);
    x
  }

  /** The names of an object in the order json.Marshal prints them. */
  function SortedKeys(s: set<string>): seq<string>
    decreases |s|
  {
    if s == {} then [] else [Least(s)] + SortedKeys(s - {Least(s)})
  }

  lemma {:induction false} SortedKeysSpec(s: set<string>)
    ensures StrictlySorted(SortedKeys(s))
    ensures forall k :: k in SortedKeys(s) <==> k in s
    decreases |s|
  {
    if s != {} {
      var x, rest := Least(s), SortedKeys(s - {Least(s)});
      SortedKeysSpec(s - {x});
      forall j | 0 <= j < |rest| ensures Less(x, rest[j]) {
        assert rest[j] in rest;
      }
    }
  }

  function FromData(d: Data): Value
    decreases d, 2
  {
    match d
    case DNull => Literal(Null)
    case DBool(b) => Literal(if b then True else False)
    case DNum(t) => Num(t)
    case DStr(s) => Str(EscapePieces(s))
    case DArr(xs) => Arr(FromItems(d, |xs|), "")
    case DObj(m) =>
      SortedKeysSpec(m.Keys);
      Obj(FromMembers(d, SortedKeys(m.Keys)), "")
  }

  /** The first n elements of an array. */
  function FromItems(d: Data, n: nat): Items
    requires d.DArr? && n <= |d.xs|
    decreases d, 1, n
  {
    if n == 0 then NoItems else Item(FromItems(d, n - 1), "", FromData(d.xs[n - 1]), "")
  }

  /** The members of an object with the given names. */
  function FromMembers(d: Data, keys: seq<string>): Members
    requires d.DObj? && forall k | k in keys :: k in d.m
    decreases d, 1, |keys|
  {
    if keys == [] then NoMembers
    else
      var k := keys[|keys| - 1];
      Member(FromMembers(d, keys[..|keys| - 1]), "", EscapePieces(k), "", "", FromData(d.m[k]), "")
  }

  /** The output of json.Marshal. */
  function MarshalText(d: Data): string {
    DocText(Doc("", FromData(d), ""))
  }

  // ---------- Well-formed data ----------

  /** Numbers are spelled as JSON numbers. */
  predicate WFData(d: Data) {
    match d
    case DNum(t) => WFValue(Num(t))
    case DArr(xs) => forall i | 0 <= i < |xs| :: WFData(xs[i])
    case DObj(m) => forall k | k in m :: WFData(m[k])
    case _ => true
  }

  /** No more than h arrays and objects nest inside each other. */
  predicate Shallow(d: Data, h: nat) {
    match d
    case DArr(xs) => h > 0 && forall i | 0 <= i < |xs| :: Shallow(xs[i], h - 1)
    case DObj(m) => h > 0 && forall k | k in m :: Shallow(m[k], h - 1)
    case _ => true
  }

  lemma {:induction false} ToDataWF(v: Value, h: nat)
    requires WFValue(v) && Depth(v) <= h
    ensures WFData(ToData(v)) && Shallow(ToData(v), h)
    decreases v
  {
    match v
    case Arr(items, _) => ItemsDataWF(items, h - 1);
    case Obj(mems, _) => MembersDataWF(mems, h - 1);
    case _ =>
  }

  lemma {:induction false} ItemsDataWF(items: Items, h: nat)
    requires WFItems(items) && ItemsDepth(items) <= h
    ensures forall i | 0 <= i < |ItemsData(items)| :: WFData(ItemsData(items)[i]) && Shallow(ItemsData(items)[i], h)
    decreases items
  {
    if items.Item? {
      ItemsDataWF(items.init, h);
      ToDataWF(items.v, h);
    }
  }

  lemma {:induction false} MembersDataWF(mems: Members, h: nat)
    requires WFMembers(mems) && MembersDepth(mems) <= h
    ensures forall k | k in MembersData(mems) :: WFData(MembersData(mems)[k]) && Shallow(MembersData(mems)[k], h)
    decreases mems
  {
    if mems.Member? {
      MembersDataWF(mems.init, h);
      ToDataWF(mems.v, h);
    }
  }

  // ---------- Marshalling round trip ----------

  lemma {:induction false} FromDataWF(d: Data, h: nat)
    requires WFData(d) && Shallow(d, h)
    ensures WFValue(FromData(d)) && Depth(FromData(d)) <= h
    decreases d, 2
  {
    match d
    case DStr(s) => EscapePiecesWF(s);
    case DArr(xs) => FromItemsWF(d, |xs|, h - 1);
    case DObj(m) =>
      SortedKeysSpec(m.Keys);
      FromMembersWF(d, SortedKeys(m.Keys), h - 1);
    case _ =>
  }

  lemma {:induction false} FromItemsWF(d: Data, n: nat, h: nat)
    requires d.DArr? && n <= |d.xs| && WFData(d) && Shallow(d, h + 1)
    ensures WFItems(FromItems(d, n)) && ItemsDepth(FromItems(d, n)) <= h
    decreases d, 1, n
  {
    if n > 0 {
      FromItemsWF(d, n - 1, h);
      FromDataWF(d.xs[n - 1], h);
    }
  }

  lemma {:induction false} FromMembersWF(d: Data, keys: seq<string>, h: nat)
    requires d.DObj? && (forall k | k in keys :: k in d.m) && WFData(d) && Shallow(d, h + 1)
    ensures WFMembers(FromMembers(d, keys)) && MembersDepth(FromMembers(d, keys)) <= h
    decreases d, 1, |keys|
  {
    if keys != [] {
      var n := |keys| - 1;
      FromMembersWF(d, keys[..n], h);
      FromDataWF(d.m[keys[n]], h);
      EscapePiecesWF(keys[n]);
    }
  }

  lemma {:induction false} ToFromData(d: Data)
    ensures ToData(FromData(d)) == d
    decreases d, 2
  {
    match d
    case DStr(s) => DecodeEscape(s);
    case DArr(xs) => ToFromItems(d, |xs|);
    case DObj(m) =>
      SortedKeysSpec(m.Keys);
      ToFromMembers(d, SortedKeys(m.Keys));
    case _ =>
  }

  lemma {:induction false} ToFromItems(d: Data, n: nat)
    requires d.DArr? && n <= |d.xs|
    ensures ItemsData(FromItems(d, n)) == d.xs[..n]
    decreases d, 1, n
  {
    if n > 0 {
      ToFromItems(d, n - 1);
      ToFromData(d.xs[n - 1]);
    }
  }

  lemma {:induction false} ToFromMembers(d: Data, keys: seq<string>)
    requires d.DObj? && forall k | k in keys :: k in d.m
    ensures MembersData(FromMembers(d, keys)) == map k | k in keys :: d.m[k]
    decreases d, 1, |keys|
  {
    if keys != [] {
      var n := |keys| - 1;
      ToFromMembers(d, keys[..n]);
      ToFromData(d.m[keys[n]]);
      DecodeEscape(keys[n]);
      assert keys == keys[..n] + [keys[n]];
    }
  }

  /** Marshalled data is JSON and decodes to the same data. */
  lemma MarshalRoundTrip(d: Data)
    requires WFData(d) && Shallow(d, MAX_DEPTH)
    ensures Valid(MarshalText(d)) && ToData(Parse(MarshalText(d)).value.v) == d
  {
    FromDataWF(d, MAX_DEPTH);
    ToFromData(d);
    ParseComplete(Doc("", FromData(d), ""));
  }

  // ---------- How marshalled text looks ----------

  /** The names of an object in the order they are written. */
  function NamesOf(mems: Members): seq<string> {
    match mems
    case NoMembers => []
    case Member(init, _, key, _, _, _, _) => NamesOf(init) + [Decode(key)]
  }

  /** In every object of a value, however deep, the names are strictly ascending. */
  predicate NamesSorted(v: Value) {
    match v
    case Arr(items, _) => ItemsNamesSorted(items)
    case Obj(mems, _) => StrictlySorted(NamesOf(mems)) && MembersNamesSorted(mems)
    case _ => true
  }

  predicate ItemsNamesSorted(items: Items) {
    items.Item? ==> ItemsNamesSorted(items.init) && NamesSorted(items.v)
  }

  predicate MembersNamesSorted(mems: Members) {
    mems.Member? ==> MembersNamesSorted(mems.init) && NamesSorted(mems.v)
  }

  lemma {:induction false} FromDataCanonical(d: Data)
    ensures NamesSorted(FromData(d)) && StripValue(FromData(d)) == FromData(d)
    decreases d, 2
  {
    match d
    case DArr(xs) => FromItemsCanonical(d, |xs|);
    case DObj(m) =>
      SortedKeysSpec(m.Keys);
      FromMembersCanonical(d, SortedKeys(m.Keys));
    case _ =>
  }

  lemma {:induction false} FromItemsCanonical(d: Data, n: nat)
    requires d.DArr? && n <= |d.xs|
    ensures ItemsNamesSorted(FromItems(d, n)) && StripItems(FromItems(d, n)) == FromItems(d, n)
    decreases d, 1, n
  {
    if n > 0 {
      FromItemsCanonical(d, n - 1);
      FromDataCanonical(d.xs[n - 1]);
    }
  }

  lemma {:induction false} FromMembersCanonical(d: Data, keys: seq<string>)
    requires d.DObj? && forall k | k in keys :: k in d.m
    ensures NamesOf(FromMembers(d, keys)) == keys
    ensures MembersNamesSorted(FromMembers(d, keys)) && StripMembers(FromMembers(d, keys)) == FromMembers(d, keys)
    decreases d, 1, |keys|
  {
    if keys != [] {
      var n := |keys| - 1;
      FromMembersCanonical(d, keys[..n]);
      FromDataCanonical(d.m[keys[n]]);
      DecodeEscape(keys[n]);
      hide Decode, EscapePieces, FromData, StripValue, NamesSorted;
      assert keys == keys[..n] + [keys[n]];
    }
  }

  /** The look of a text json.Marshal prints: sorted names in every object, and no whitespace to drop. */
  predicate Canonical(t: string) {
    Parse(t).Some? && NamesSorted(Parse(t).value.v) && Compacted(t) == t
  }

  /** Marshalled text has the names of every object strictly ascending and nothing for compaction to drop. */
  lemma MarshalCanonical(d: Data)
    requires WFData(d) && Shallow(d, MAX_DEPTH)
    ensures Canonical(MarshalText(d))
  {
    FromDataWF(d, MAX_DEPTH);
    FromDataCanonical(d);
    ParseComplete(Doc("", FromData(d), ""));
    CompactedParses(MarshalText(d));
  }

  // ---------- Repeated names ----------

  /** The members of an object in the order they are written, repeated names included. */
  function Entries(mems: Members): seq<(string, Data)> {
    match mems
    case NoMembers => []
    case Member(init, _, key, _, _, v, _) => Entries(init) + [(Decode(key), ToData(v))]
  }

  /** Decoding an object gives every name the value of its last member. */
  lemma {:induction false} LastMemberWins(mems: Members, i: nat)
    requires i < |Entries(mems)|
    requires forall j | i < j < |Entries(mems)| :: Entries(mems)[j].0 != Entries(mems)[i].0
    ensures Entries(mems)[i].0 in MembersData(mems) && MembersData(mems)[Entries(mems)[i].0] == Entries(mems)[i].1
    decreases mems
  {
    var es, init := Entries(mems), Entries(mems.init);
    if i < |es| - 1 {
      assert forall j | 0 <= j < |init| :: es[j] == init[j];
      assert es[|es| - 1].0 != es[i].0;
      LastMemberWins(mems.init, i);
    }
  }

  /** ... and has no other names. */
  lemma {:induction false} DecodedNames(mems: Members, name: string)
    ensures name in MembersData(mems) <==> exists i :: 0 <= i < |Entries(mems)| && Entries(mems)[i].0 == name
    decreases mems
  {
    if mems.Member? {
      var es, init := Entries(mems), Entries(mems.init);
      DecodedNames(mems.init, name);
      assert forall j | 0 <= j < |init| :: es[j] == init[j];
      assert es[|init|] == (Decode(mems.key), ToData(mems.v));
      if name in MembersData(mems.init) {
        var i :| 0 <= i < |init| && init[i].0 == name;
        assert es[i].0 == name;
      }
    }
  }

  /** What a text decodes to, if it is JSON. */
  function Unmarshal(t: string): Option<Data> {
    match Parse(t)
    case None => None
    case Some(d) => Some(ToData(d.v))
  }

  lemma UnmarshalWF(t: string)
    requires Valid(t)
    ensures WFData(Unmarshal(t).value) && Shallow(Unmarshal(t).value, MAX_DEPTH)
  {
    ParseSound(t);
    ToDataWF(Parse(t).value.v, MAX_DEPTH);
  }
}
