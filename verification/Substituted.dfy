/**
  What the strings and names of a substituted template denote: the document
  that comes out is the template's, with the raw values in its strings.
 */
module Substituted {
  import opened Options
  import opened Json
  import opened JsonSound
  import opened Escape
  import opened Placeholders
  import opened Fill
  import opened Templates
  import opened Content

  /** A JSON value with its strings decoded; objects keep all their members, in order. */
  datatype Tree =
    | TWord(w: Word)
    | TNum(text: string)
    | TStr(s: string)
    | TArr(items: seq<Tree>)
    | TObj(mems: seq<(string, Tree)>)

  // ---------- What a value denotes ----------

  function Decoded(v: Value): Tree {
    match v
    case Literal(w) => TWord(w)
    case Num(t) => TNum(t)
    case Str(ps) => TStr(Decode(ps))
    case Arr(items, _) => TArr(DecodedItems(items))
    case Obj(mems, _) => TObj(DecodedMembers(mems))
  }

  function DecodedItems(items: Items): seq<Tree> {
    match items
    case NoItems => []
    case Item(init, _, v, _) => DecodedItems(init) + [Decoded(v)]
  }

  function DecodedMembers(mems: Members): seq<(string, Tree)> {
    match mems
    case NoMembers => []
    case Member(init, _, key, _, _, v, _) => DecodedMembers(init) + [(Decode(key), Decoded(v))]
  }

  // ---------- What a template's value denotes with the raw values spliced in ----------

  /** Every hole in the strings and names of v has a value. */
  predicate ValueCovered(v: Value, values: Values) {
    match v
    case Literal(_) => true
    case Num(_) => true
    case Str(ps) => HolesHaveValues(ps, values)
    case Arr(items, _) => ItemsCovered(items, values)
    case Obj(mems, _) => MembersCovered(mems, values)
  }

  predicate ItemsCovered(items: Items, values: Values) {
    match items
    case NoItems => true
    case Item(init, _, v, _) => ItemsCovered(init, values) && ValueCovered(v, values)
  }

  predicate MembersCovered(mems: Members, values: Values) {
    match mems
    case NoMembers => true
    case Member(init, _, key, _, _, v, _) =>
      MembersCovered(init, values) && HolesHaveValues(key, values) && ValueCovered(v, values)
  }

  function SplicedValue(v: Value, values: Values): Tree
    requires ValueCovered(v, values)
  {
    match v
    case Literal(w) => TWord(w)
    case Num(t) => TNum(t)
    case Str(ps) => TStr(Spliced(ps, values))
    case Arr(items, _) => TArr(SplicedItems(items, values))
    case Obj(mems, _) => TObj(SplicedMembers(mems, values))
  }

  function SplicedItems(items: Items, values: Values): seq<Tree>
    requires ItemsCovered(items, values)
  {
    match items
    case NoItems => []
    case Item(init, _, v, _) => SplicedItems(init, values) + [SplicedValue(v, values)]
  }

  function SplicedMembers(mems: Members, values: Values): seq<(string, Tree)>
    requires MembersCovered(mems, values)
  {
    match mems
    case NoMembers => []
    case Member(init, _, key, _, _, v, _) =>
      SplicedMembers(init, values) + [(Spliced(key, values), SplicedValue(v, values))]
  }

  // ---------- Where surrogate halves meet ----------

  ghost predicate ValueJoint(v: Value, values: Values) {
    match v
    case Literal(_) => false
    case Num(_) => false
    case Str(ps) => Joint(ps, values)
    case Arr(items, _) => ItemsJoint(items, values)
    case Obj(mems, _) => MembersJoint(mems, values)
  }

  ghost predicate ItemsJoint(items: Items, values: Values) {
    match items
    case NoItems => false
    case Item(init, _, v, _) => ItemsJoint(init, values) || ValueJoint(v, values)
  }

  ghost predicate MembersJoint(mems: Members, values: Values) {
    match mems
    case NoMembers => false
    case Member(init, _, key, _, _, v, _) =>
      MembersJoint(init, values) || Joint(key, values) || ValueJoint(v, values)
  }

  // ---------- A tree that fills to a well-formed one has values for its holes ----------

  lemma {:induction false} FilledCovers(ps: seq<Piece>, values: Values)
    requires WFPieces(FillPieces(ps, Escapes(values)))
    ensures HolesHaveValues(ps, values)
  {
    if ps != [] {
      var n, g := |ps| - 1, Escapes(values);
      var init, last := FillPieces(ps[..n], g), if ps[n].Hole? && ps[n].name in g then g[ps[n].name] else [ps[n]];
      WFSplit(init, last);
      FilledCovers(ps[..n], values);
      assert last == [ps[n]] ==> WFPiece(last[0]);
    }
  }

  lemma WFSplit(a: seq<Piece>, b: seq<Piece>)
    requires WFPieces(a + b)
    ensures WFPieces(a) && WFPieces(b)
  {
    forall i | 0 <= i < |a| ensures WFPiece(a[i]) { assert (a + b)[i] == a[i]; }
    forall i | 0 <= i < |b| ensures WFPiece(b[i]) { assert (a + b)[|a| + i] == b[i]; }
  }

  lemma {:induction false} FilledValueCovers(v: Value, values: Values)
    requires WFValue(FillValue(v, Escapes(values)))
    ensures ValueCovered(v, values)
    decreases v
  {
    hide WFPieces, HolesHaveValues, FillPieces;
    match v
    case Str(ps) => FilledCovers(ps, values);
    case Arr(items, _) => FilledItemsCover(items, values);
    case Obj(mems, _) => FilledMembersCover(mems, values);
    case _ =>
  }

  lemma {:induction false} FilledItemsCover(items: Items, values: Values)
    requires WFItems(FillItems(items, Escapes(values)))
    ensures ItemsCovered(items, values)
    decreases items
  {
    if items.Item? {
      FilledItemsCover(items.init, values);
      FilledValueCovers(items.v, values);
    }
  }

  lemma {:induction false} FilledMembersCover(mems: Members, values: Values)
    requires WFMembers(FillMembers(mems, Escapes(values)))
    ensures MembersCovered(mems, values)
    decreases mems
  {
    hide WFPieces, HolesHaveValues, FillPieces;
    if mems.Member? {
      FilledMembersCover(mems.init, values);
      FilledCovers(mems.key, values);
      FilledValueCovers(mems.v, values);
    }
  }

  // ---------- The content of a whole document ----------

  lemma {:induction false} ValuePreserved(v: Value, values: Values)
    requires ValueCovered(v, values)
    ensures Decoded(FillValue(v, Escapes(values))) == SplicedValue(v, values) <==> !ValueJoint(v, values)
    decreases v
  {
    hide HolesHaveValues, FillPieces, Decode, Spliced, Joint;
    match v
    case Str(ps) => ContentPreserved(ps, values);
    case Arr(items, _) => ItemsPreserved(items, values);
    case Obj(mems, _) => MembersPreserved(mems, values);
    case _ =>
  }

  lemma {:induction false} ItemsPreserved(items: Items, values: Values)
    requires ItemsCovered(items, values)
    ensures DecodedItems(FillItems(items, Escapes(values))) == SplicedItems(items, values) <==>
      !ItemsJoint(items, values)
    decreases items
  {
    if items.Item? {
      var g := Escapes(values);
      ItemsPreserved(items.init, values);
      ValuePreserved(items.v, values);
      SnocEqual(DecodedItems(FillItems(items.init, g)), Decoded(FillValue(items.v, g)),
                SplicedItems(items.init, values), SplicedValue(items.v, values));
    }
  }

  lemma {:induction false} MembersPreserved(mems: Members, values: Values)
    requires MembersCovered(mems, values)
    ensures DecodedMembers(FillMembers(mems, Escapes(values))) == SplicedMembers(mems, values) <==>
      !MembersJoint(mems, values)
    decreases mems
  {
    hide HolesHaveValues, FillPieces, Decode, Spliced, Joint;
    if mems.Member? {
      var g := Escapes(values);
      MembersPreserved(mems.init, values);
      ContentPreserved(mems.key, values);
      ValuePreserved(mems.v, values);
      SnocEqual(DecodedMembers(FillMembers(mems.init, g)),
                (Decode(FillPieces(mems.key, g)), Decoded(FillValue(mems.v, g))),
                SplicedMembers(mems.init, values), (Spliced(mems.key, values), SplicedValue(mems.v, values)));
    }
  }

  lemma SnocEqual<T>(a: seq<T>, x: T, b: seq<T>, y: T)
    ensures a + [x] == b + [y] <==> a == b && x == y
  {
    if a + [x] == b + [y] {
      assert (a + [x])[..|a|] == a && (b + [y])[..|b|] == b;
      assert (a + [x])[|a|] == x && (b + [y])[|b|] == y;
    }
  }

  /**
    Substituting values into a template that passes the check yields a document
    with the template's structure whose strings and names denote the template's
    text with the raw values in place of the holes - exactly when no empty values
    bring the two halves of a surrogate pair together.
   */
  lemma SubstitutionContent(template: string, values: Values)
    requires Valid(template) && Names(template) <= values.Keys
    ensures TemplateDoc(template).Some? && ValueCovered(TemplateDoc(template).value.v, values)
    ensures Valid(Subst(template, values))
    ensures Decoded(Parse(Subst(template, values)).value.v) == SplicedValue(TemplateDoc(template).value.v, values) <==>
      !ValueJoint(TemplateDoc(template).value.v, values)
  {
    TemplateIsJson(template);
    SubstitutionParses(template, values);
    ParseSound(Subst(template, values));
    var v := TemplateDoc(template).value.v;
    hide Valid, Parse, TemplateDoc, Subst;
    FilledValueCovers(v, values);
    ValuePreserved(v, values);
  }

  // ---------- Values that are not empty ----------

  predicate NoneEmpty(values: Values) {
    forall n | n in values :: values[n] != ""
  }

  lemma {:induction false} NonemptyNoJoint(v: Value, values: Values)
    requires NoneEmpty(values)
    ensures !ValueJoint(v, values)
    decreases v
  {
    match v
    case Str(ps) => NonemptyHolds(ps, values);
    case Arr(items, _) => NonemptyItems(items, values);
    case Obj(mems, _) => NonemptyMembers(mems, values);
    case _ =>
  }

  lemma {:induction false} NonemptyItems(items: Items, values: Values)
    requires NoneEmpty(values)
    ensures !ItemsJoint(items, values)
    decreases items
  {
    if items.Item? {
      NonemptyItems(items.init, values);
      NonemptyNoJoint(items.v, values);
    }
  }

  lemma {:induction false} NonemptyMembers(mems: Members, values: Values)
    requires NoneEmpty(values)
    ensures !MembersJoint(mems, values)
    decreases mems
  {
    if mems.Member? {
      NonemptyMembers(mems.init, values);
      NonemptyHolds(mems.key, values);
      NonemptyNoJoint(mems.v, values);
    }
  }

  lemma NonemptyHolds(ps: seq<Piece>, values: Values)
    requires NoneEmpty(values)
    ensures !Joint(ps, values)
  {
    forall i: nat, j: nat ensures !JointAt(ps, values, i, j) {
      if i + 1 < j < |ps| { assert !EmptyHole(ps[i + 1], values); }
    }
  }

  /** Values that are not empty always come through as they are. */
  lemma NonemptyContent(template: string, values: Values)
    requires Valid(template) && Names(template) <= values.Keys && NoneEmpty(values)
    ensures TemplateDoc(template).Some? && ValueCovered(TemplateDoc(template).value.v, values)
    ensures Valid(Subst(template, values))
    ensures Decoded(Parse(Subst(template, values)).value.v) == SplicedValue(TemplateDoc(template).value.v, values)
  {
    SubstitutionContent(template, values);
    NonemptyNoJoint(TemplateDoc(template).value.v, values);
  }

  // ---------- The exception ----------

  function Chars(t: string): seq<Token> {
    seq(|t|, i requires 0 <= i < |t| => Ch(t[i]))
  }

  /** Text without an opening brace is cut into its characters. */
  lemma {:induction false} TokensPlain(t: string, rest: string)
    requires '{' !in t
    ensures Tokens(t + rest) == Chars(t) + Tokens(rest)
  {
    hide Tokens;
    if t == "" {
      assert t + rest == rest;
    } else {
      assert (t + rest)[1..] == t[1..] + rest && (t + rest)[0] == t[0];
      TokensPlain(t[1..], rest);
      assert Chars(t) == [Ch(t[0])] + Chars(t[1..]);
      TokensChar(t + rest);
    }
  }

  lemma TokensChar(t: string)
    requires t != "" && t[0] != '{'
    ensures Tokens(t) == [Ch(t[0])] + Tokens(t[1..])
  {
    hide NameRun;
    assert MatchAt(t) == None;
  }

  lemma TokensMark(name: string, rest: string)
    requires IsName(name)
    ensures Tokens(HoleText(name) + rest) == [Mark(name)] + Tokens(rest)
  {
    MatchAtSpec(HoleText(name) + rest, name);
    assert (HoleText(name) + rest)[MatchLength(name)..] == rest;
  }

  /** The scanner on characters given as tokens. */
  lemma {:induction false} RunChars(ts: seq<Token>, t: string)
    ensures RunTokens(ts + Chars(t)) == Run(RunTokens(ts), t)
  {
    if t == "" {
      assert ts + Chars(t) == ts;
    } else {
      var n := |t| - 1;
      RunChars(ts, t[..n]);
      assert (ts + Chars(t))[..|ts| + n] == ts + Chars(t[..n]);
    }
  }

  /** Reading a whole escape, whatever is in the string already. */
  lemma RunHex(k: Stack, pre: string, ps: seq<Piece>, a: char, b: char, c: char, d: char)
    requires IsHexDigit(a) && IsHexDigit(b) && IsHexDigit(c) && IsHexDigit(d)
    ensures Run(St(k, InStr(pre, ps)), ['\\', 'u', a, b, c, d]) == St(k, InStr(pre, ps + [Hex([a, b, c, d])]))
  {
    var s := St(k, InStr(pre, ps));
    hide Run, IsHexDigit;
    RunSteps(s, '\\', 'u', a);
    RunSteps(Run(s, ['\\', 'u', a]), b, c, d);
    RunAppend(s, ['\\', 'u', a], [b, c, d]);
    assert ['\\', 'u', a] + [b, c, d] == ['\\', 'u', a, b, c, d];
    assert "" + [a] + [b] + [c] + [d] == [a, b, c, d];
  }

  lemma RunSteps(s: State, a: char, b: char, c: char)
    ensures Run(s, [a, b, c]) == Step(Step(Step(s, a), b), c)
  {
    hide Step;
    RunSnoc(s, [], a);
    RunSnoc(s, [a], b);
    RunSnoc(s, [a, b], c);
    assert [] + [a] == [a] && [a] + [b] == [a, b] && [a, b] + [c] == [a, b, c];
  }

  const LEFT := "\"\\ud83d"
  const RIGHT := "\\ude00\""
  const HALVES := "\"\\ud83d{{A}}\\ude00\""
  const HALVES_PIECES := [Hex("d83d"), Hole("A"), Hex("de00")]
  const EMPTY_A: Values := map["A" := ""]

  lemma HalvesTokens()
    ensures Tokens(HALVES) == Chars(LEFT) + [Mark("A")] + Chars(RIGHT)
  {
    hide Tokens;
    assert HALVES == LEFT + (HoleText("A") + RIGHT);
    TokensPlain(LEFT, HoleText("A") + RIGHT);
    TokensMark("A", RIGHT);
    TokensPlain(RIGHT, "");
    assert RIGHT + "" == RIGHT;
    NoTokens();
    hide Chars;
    assert Chars(RIGHT) + [] == Chars(RIGHT);
  }

  lemma NoTokens()
    ensures Tokens("") == []
  {
  }

  /** An opening quote and one escape, character by character. */
  lemma QuotedHex(t: string, a: char, b: char, c: char, d: char)
    requires IsHexDigit(a) && IsHexDigit(b) && IsHexDigit(c) && IsHexDigit(d)
    requires t == ['"'] + ['\\', 'u', a, b, c, d]
    ensures RunTokens(Chars(t)) == St(Root, InStr("", [Hex([a, b, c, d])]))
  {
    RunChars([], t);
    assert [] + Chars(t) == Chars(t);
    EmptyRuns();
    hide Run, RunTokens, Chars, IsHexDigit;
    RunAppend(START, ['"'], ['\\', 'u', a, b, c, d]);
    RunSnoc(START, "", '"');
    assert "" + ['"'] == ['"'];
    OpenQuote();
    RunHex(Root, "", [], a, b, c, d);
    assert [] + [Hex([a, b, c, d])] == [Hex([a, b, c, d])];
  }

  lemma OpenQuote()
    ensures Step(START, '"') == St(Root, InStr("", []))
  {
  }

  lemma EmptyRuns()
    ensures RunTokens([]) == START && Run(START, "") == START
  {
  }

  lemma RightHalf(ps: seq<Piece>)
    ensures Run(St(Root, InStr("", ps)), RIGHT) == St(Root, AfterVal("", Str(ps + [Hex("de00")]), ""))
  {
    var s, h := St(Root, InStr("", ps)), ['\\', 'u', 'd', 'e', '0', '0'];
    hide Run;
    assert RIGHT == h + ['"'];
    RunSnoc(s, h, '"');
    RunHex(Root, "", ps, 'd', 'e', '0', '0');
  }

  lemma HalvesRun(l: seq<Token>, r: seq<Token>)
    requires l == Chars(LEFT) && r == Chars(RIGHT)
    ensures RunTokens(l + [Mark("A")] + r) == St(Root, AfterVal("", Str(HALVES_PIECES), ""))
  {
    var m := l + [Mark("A")];
    hide Chars, RunTokens, Run;
    assert LEFT == ['"'] + ['\\', 'u', 'd', '8', '3', 'd'];
    QuotedHex(LEFT, 'd', '8', '3', 'd');
    RunMark(l, "A");
    RunChars(m, RIGHT);
    RightHalf([Hex("d83d"), Hole("A")]);
    assert [Hex("d83d")] + [Hole("A")] == [Hex("d83d"), Hole("A")];
    assert [Hex("d83d"), Hole("A")] + [Hex("de00")] == HALVES_PIECES;
  }

  lemma RunMark(ts: seq<Token>, name: string)
    ensures RunTokens(ts + [Mark(name)]) == StepToken(RunTokens(ts), Mark(name))
  {
    assert (ts + [Mark(name)])[..|ts|] == ts;
  }

  lemma DocOfRun(t: string, ps: seq<Piece>)
    requires RunTokens(Tokens(t)) == St(Root, AfterVal("", Str(ps), ""))
    ensures TemplateDoc(t) == Some(Doc("", Str(ps), ""))
  {
    hide RunTokens, Tokens;
  }

  lemma HalvesDoc()
    ensures TemplateDoc(HALVES) == Some(Doc("", Str(HALVES_PIECES), ""))
  {
    hide Chars, RunTokens, Tokens, TemplateDoc;
    HalvesTokens();
    HalvesRun(Chars(LEFT), Chars(RIGHT));
    DocOfRun(HALVES, HALVES_PIECES);
  }

  lemma HalvesNames()
    ensures Names(HALVES) == {"A"}
  {
    HalvesTokens();
    var ts := Tokens(HALVES);
    hide Tokens;
    assert ts[|LEFT|] == Mark("A");
  }

  lemma HalvesSpliced()
    ensures HolesHaveValues(HALVES_PIECES, EMPTY_A) && Spliced(HALVES_PIECES, EMPTY_A) == "\U{FFFD}\U{FFFD}"
    ensures FillPieces(HALVES_PIECES, Escapes(EMPTY_A)) == [Hex("d83d"), Hex("de00")]
  {
    var ps, rest := HALVES_PIECES, HALVES_PIECES[2..];
    assert rest == [Hex("de00")];
    HexPair();
    assert FirstHole(ps) == 1 by { assert FirstHole(ps[1..]) == 0; }
    FillSplit(ps, EMPTY_A, 1);
    FillWithoutHoles(rest, Escapes(EMPTY_A));
    assert FirstHole(rest) == 1 by { assert FirstHole(rest[1..]) == 0; }
    assert ps[..1] == [Hex("d83d")] && [Hex("d83d")][1..] == [] && rest[1..] == [];
  }

  lemma HexPair()
    ensures HexNumber("d83d") == 0xD83D && HexNumber("de00") == 0xDE00
  {
    HexNumber4('d', '8', '3', 'd');
    HexNumber4('d', 'e', '0', '0');
  }

  /** The exception is real: two halves with an empty hole between them come out as one character. */
  lemma SurrogateHalvesMeet()
    ensures Valid(HALVES) && Names(HALVES) == {"A"}
    ensures TemplateDoc(HALVES).Some? && ValueCovered(TemplateDoc(HALVES).value.v, EMPTY_A)
    ensures SplicedValue(TemplateDoc(HALVES).value.v, EMPTY_A) == TStr("\U{FFFD}\U{FFFD}")
    ensures Valid(Subst(HALVES, EMPTY_A))
    ensures Decoded(Parse(Subst(HALVES, EMPTY_A)).value.v) == TStr("\U{1F600}")
  {
    HalvesDoc();
    HalvesNames();
    HalvesSpliced();
    OtherEscapes();
    TemplateIsJson(HALVES);
    SubstitutionParses(HALVES, EMPTY_A);
    hide Parse, TemplateDoc, Names, Subst, Decode, Spliced, FillPieces, HolesHaveValues, Escapes;
  }
}
