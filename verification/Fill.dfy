/**
  Filling the holes of syntax trees and scanner states, and the simulation
  between scanning a template and scanning the text its substitution yields.
 */
module Fill {
  import opened Options
  import opened Json
  import opened JsonComplete
  import opened Escape
  import opened Placeholders

  /** What to write for each placeholder name. */
  type Filler = map<string, seq<Piece>>

  ghost predicate WFFiller(g: Filler) {
    forall n | n in g :: WFPieces(g[n])
  }

  function FillPieces(ps: seq<Piece>, g: Filler): seq<Piece> {
    if ps == [] then []
    else
      var p := ps[|ps| - 1];
      FillPieces(ps[..|ps| - 1], g) + (if p.Hole? && p.name in g then g[p.name] else [p])
  }

  function FillValue(v: Value, g: Filler): Value {
    match v
    case Literal(_) => v
    case Num(_) => v
    case Str(ps) => Str(FillPieces(ps, g))
    case Arr(items, gap) => Arr(FillItems(items, g), gap)
    case Obj(mems, gap) => Obj(FillMembers(mems, g), gap)
  }

  function FillItems(items: Items, g: Filler): Items {
    match items
    case NoItems => NoItems
    case Item(init, pre, v, post) => Item(FillItems(init, g), pre, FillValue(v, g), post)
  }

  function FillMembers(mems: Members, g: Filler): Members {
    match mems
    case NoMembers => NoMembers
    case Member(init, preK, key, postK, preV, v, postV) =>
      Member(FillMembers(init, g), preK, FillPieces(key, g), postK, preV, FillValue(v, g), postV)
  }

  function FillDoc(d: Doc, g: Filler): Doc {
    Doc(d.pre, FillValue(d.v, g), d.post)
  }

  function FillStack(k: Stack, g: Filler): Stack {
    match k
    case Root => Root
    case InArr(below, pre, items) => InArr(FillStack(below, g), pre, FillItems(items, g))
    case InObj(below, pre, mems) => InObj(FillStack(below, g), pre, FillMembers(mems, g))
    case InMem(below, pre, mems, preK, key, postK) =>
      InMem(FillStack(below, g), pre, FillMembers(mems, g), preK, FillPieces(key, g), postK)
  }

  function FillMode(m: Mode, g: Filler): Mode {
    match m
    case InStr(pre, ps) => InStr(pre, FillPieces(ps, g))
    case InEsc(pre, ps) => InEsc(pre, FillPieces(ps, g))
    case InHex(pre, ps, h) => InHex(pre, FillPieces(ps, g), h)
    case AfterVal(pre, v, post) => AfterVal(pre, FillValue(v, g), post)
    case AfterKey(pre, key, post) => AfterKey(pre, FillPieces(key, g), post)
    case _ => m
  }

  function FillState(s: State, g: Filler): State {
    match s
    case Dead => Dead
    case St(k, m) => St(FillStack(k, g), FillMode(m, g))
  }

  lemma FillPiecesSnoc(ps: seq<Piece>, p: Piece, g: Filler)
    ensures FillPieces(ps + [p], g) == FillPieces(ps, g) + (if p.Hole? && p.name in g then g[p.name] else [p])
  {
    assert (ps + [p])[..|ps|] == ps;
  }

  lemma {:induction false} FillHeight(k: Stack, g: Filler)
    ensures Height(FillStack(k, g)) == Height(k)
  {
    if !k.Root? { FillHeight(k.below, g); }
  }

  // ---------- One character ----------

  /** Reading a character commutes with filling holes, rejection included. */
  lemma StepFill(s: State, c: char, g: Filler)
    ensures Step(FillState(s, g), c) == FillState(Step(s, c), g)
  {
    if s.St? {
      var k := s.k;
      hide FillPieces, FillValue, FillStack, StepBeginVal, StepNum, StepStr, StepEsc, StepHex;
      hide StepAfterVal, StepBeginKey, StepAfterKey;
      match s.m
      case BeginVal(pre) => StepBeginValFill(k, pre, c, g);
      case InWord(pre, w, n) =>
      case InNum(pre, ns, t) => StepNumFill(k, pre, ns, t, c, g);
      case InStr(pre, ps) => StepStrFill(k, pre, ps, c, g);
      case InEsc(pre, ps) => StepEscFill(k, pre, ps, c, g);
      case InHex(pre, ps, h) => StepHexFill(k, pre, ps, h, c, g);
      case AfterVal(pre, v, post) => StepAfterValFill(k, pre, v, post, c, g);
      case BeginKey(pre) => StepBeginKeyFill(k, pre, c, g);
      case AfterKey(pre, key, post) => StepAfterKeyFill(k, pre, key, post, c, g);
    }
  }

  lemma StepBeginValFill(k: Stack, pre: string, c: char, g: Filler)
    ensures StepBeginVal(FillStack(k, g), pre, c) == FillState(StepBeginVal(k, pre, c), g)
  {
    if c == '[' || c == '{' || c == ']' {
      StepBracketFill(k, pre, c, g);
    } else {
      StepScalarFill(k, pre, c, g);
    }
  }

  lemma EmptyFill(g: Filler)
    ensures FillPieces([], g) == []
  {
  }

  lemma StepScalarFill(k: Stack, pre: string, c: char, g: Filler)
    requires c != '[' && c != '{' && c != ']'
    ensures StepBeginVal(FillStack(k, g), pre, c) == FillState(StepBeginVal(k, pre, c), g)
  {
    hide FillStack, FillPieces;
    var m := if StepBeginVal(k, pre, c).St? then StepBeginVal(k, pre, c).m else BeginVal("");
    EmptyFill(g);
    if c != '"' {
      assert m.BeginVal? || m.InNum? || m.InWord?;
    }
    assert FillMode(m, g) == m;
    assert StepBeginVal(FillStack(k, g), pre, c) ==
      if StepBeginVal(k, pre, c).St? then St(FillStack(k, g), m) else Dead;
  }

  lemma StepBracketFill(k: Stack, pre: string, c: char, g: Filler)
    requires c == '[' || c == '{' || c == ']'
    ensures StepBeginVal(FillStack(k, g), pre, c) == FillState(StepBeginVal(k, pre, c), g)
  {
    hide NumStart, FillPieces;
    if c == ']' {
      StepCloseFill(k, pre, g);
    } else {
      FillHeight(k, g);
      OpenFill(k, pre, g);
      hide Height, FillStack, FillState;
    }
  }

  lemma OpenFill(k: Stack, pre: string, g: Filler)
    ensures FillState(St(InArr(k, pre, NoItems), BeginVal("")), g) ==
      St(InArr(FillStack(k, g), pre, NoItems), BeginVal(""))
    ensures FillState(St(InObj(k, pre, NoMembers), BeginKey("")), g) ==
      St(InObj(FillStack(k, g), pre, NoMembers), BeginKey(""))
    ensures FillState(Dead, g) == Dead
  {
  }

  lemma StepCloseFill(k: Stack, pre: string, g: Filler)
    ensures StepBeginVal(FillStack(k, g), pre, ']') == FillState(StepBeginVal(k, pre, ']'), g)
  {
    hide FillPieces;
    if k.InArr? && k.items.NoItems? {
      assert FillValue(Arr(NoItems, pre), g) == Arr(NoItems, pre);
    }
  }

  lemma StepNumFill(k: Stack, pre: string, ns: NumState, t: string, c: char, g: Filler)
    ensures StepNum(FillStack(k, g), pre, ns, t, c) == FillState(StepNum(k, pre, ns, t, c), g)
  {
    StepAfterValFill(k, pre, Num(t), "", c, g);
  }

  lemma StepStrFill(k: Stack, pre: string, ps: seq<Piece>, c: char, g: Filler)
    ensures StepStr(FillStack(k, g), pre, FillPieces(ps, g), c) == FillState(StepStr(k, pre, ps, c), g)
  {
    hide FillPieces;
    FillPiecesSnoc(ps, Raw(c), g);
  }

  lemma StepEscFill(k: Stack, pre: string, ps: seq<Piece>, c: char, g: Filler)
    ensures StepEsc(FillStack(k, g), pre, FillPieces(ps, g), c) == FillState(StepEsc(k, pre, ps, c), g)
  {
    hide FillPieces, FillStack;
    FillPiecesSnoc(ps, Esc(c), g);
  }

  lemma StepHexFill(k: Stack, pre: string, ps: seq<Piece>, h: string, c: char, g: Filler)
    ensures StepHex(FillStack(k, g), pre, FillPieces(ps, g), h, c) == FillState(StepHex(k, pre, ps, h, c), g)
  {
    hide FillPieces, FillStack;
    FillPiecesSnoc(ps, Hex(h + [c]), g);
  }

  lemma StepAfterValFill(k: Stack, pre: string, v: Value, post: string, c: char, g: Filler)
    ensures StepAfterVal(FillStack(k, g), pre, FillValue(v, g), post, c) ==
      FillState(StepAfterVal(k, pre, v, post, c), g)
  {
    match k
    case InArr(below, p, items) =>
      var its := Item(items, pre, v, post);
      assert FillItems(its, g) == Item(FillItems(items, g), pre, FillValue(v, g), post);
      assert FillValue(Arr(its, ""), g) == Arr(FillItems(its, g), "");
    case InMem(below, p, mems, pk, key, qk) =>
      var ms := Member(mems, pk, key, qk, pre, v, post);
      assert FillMembers(ms, g) == Member(FillMembers(mems, g), pk, FillPieces(key, g), qk, pre, FillValue(v, g), post);
      assert FillValue(Obj(ms, ""), g) == Obj(FillMembers(ms, g), "");
    case _ =>
  }

  lemma StepBeginKeyFill(k: Stack, pre: string, c: char, g: Filler)
    ensures StepBeginKey(FillStack(k, g), pre, c) == FillState(StepBeginKey(k, pre, c), g)
  {
    if c == '"' {
      assert FillPieces([], g) == [];
    } else if c == '}' && k.InObj? && k.mems.NoMembers? {
      assert FillValue(Obj(NoMembers, pre), g) == Obj(NoMembers, pre);
    }
  }

  lemma StepAfterKeyFill(k: Stack, pre: string, key: seq<Piece>, post: string, c: char, g: Filler)
    ensures StepAfterKey(FillStack(k, g), pre, FillPieces(key, g), post, c) ==
      FillState(StepAfterKey(k, pre, key, post, c), g)
  {
  }

  // ---------- Scanning tokens ----------

  /** A placeholder may stand only inside a string. */
  function StepToken(s: State, t: Token): State {
    match t
    case Ch(c) => Step(s, c)
    case Mark(name) => if s.St? && s.m.InStr? then St(s.k, InStr(s.m.pre, s.m.ps + [Hole(name)])) else Dead
  }

  function RunTokens(ts: seq<Token>): State {
    if ts == [] then START else StepToken(RunTokens(ts[..|ts| - 1]), ts[|ts| - 1])
  }

  /** Every placeholder among the tokens has something to be replaced by. */
  ghost predicate Covers(g: Filler, ts: seq<Token>) {
    forall i | 0 <= i < |ts| && ts[i].Mark? :: ts[i].name in g
  }

  function PutToken(a: string, t: Token, g: Filler): string {
    match t
    case Ch(c) => a + [c]
    case Mark(name) => if name in g then PutPieces(a, g[name]) else a + HoleText(name)
  }

  /** The tokens with every placeholder replaced; literal characters are copied. */
  function Render(ts: seq<Token>, g: Filler): string {
    if ts == [] then "" else PutToken(Render(ts[..|ts| - 1], g), ts[|ts| - 1], g)
  }

  /** The scanner on the rendered text goes where it goes on the template, with the holes filled. */
  lemma {:induction false} Simulation(ts: seq<Token>, g: Filler)
    requires WFFiller(g) && Covers(g, ts)
    requires RunTokens(ts) != Dead
    ensures Read(Render(ts, g)) == FillState(RunTokens(ts), g)
  {
    if ts != [] {
      var n := |ts| - 1;
      Simulation(ts[..n], g);
      SimulationStep(Render(ts[..n], g), RunTokens(ts[..n]), ts[n], g);
    }
  }

  lemma SimulationStep(a: string, s: State, t: Token, g: Filler)
    requires WFFiller(g) && (t.Mark? ==> t.name in g)
    requires Read(a) == FillState(s, g) && StepToken(s, t) != Dead
    ensures Read(PutToken(a, t, g)) == FillState(StepToken(s, t), g)
  {
    hide Read, FillPieces, FillStack, Step, WFPieces, HoleText;
    match t
    case Ch(c) =>
      ReadSnoc(a, c);
      StepFill(s, c, g);
    case Mark(name) =>
      assert Read(a) == St(FillStack(s.k, g), InStr(s.m.pre, FillPieces(s.m.ps, g)));
      ReadPieces(a, FillStack(s.k, g), s.m.pre, FillPieces(s.m.ps, g), g[name]);
      FillPiecesSnoc(s.m.ps, Hole(name), g);
  }

  /** Outside strings no scanner state survives the letter p. */
  lemma NoP(s: State)
    requires s.St? ==> !s.m.InStr?
    ensures Step(s, 'p') == Dead
  {
    if s.St? {
      match s.m
      case InWord(_, w, n) =>
      case InNum(_, ns, _) =>
      case _ =>
    }
  }

  /** A filler that writes the dummy word everywhere. */
  ghost predicate Dummy(g: Filler) {
    forall n | n in g :: PutPieces("", g[n]) == "placeholder"
  }

  /** The dummy word makes rejection carry over too. */
  lemma {:induction false} RejectionCarriesOver(ts: seq<Token>, g: Filler)
    requires WFFiller(g) && Covers(g, ts) && Dummy(g)
    requires RunTokens(ts) == Dead
    ensures Read(Render(ts, g)) == Dead
  {
    if ts != [] {
      var n := |ts| - 1;
      if RunTokens(ts[..n]) == Dead { RejectionCarriesOver(ts[..n], g); } else { Simulation(ts[..n], g); }
      RejectionStep(Render(ts[..n], g), RunTokens(ts[..n]), ts[n], g);
    }
  }

  lemma RejectionStep(a: string, s: State, t: Token, g: Filler)
    requires Dummy(g) && (t.Mark? ==> t.name in g)
    requires Read(a) == FillState(s, g) && StepToken(s, t) == Dead
    ensures Read(PutToken(a, t, g)) == Dead
  {
    match t
    case Ch(c) =>
      ReadSnoc(a, c);
      StepFill(s, c, g);
    case Mark(name) =>
      PutPiecesCat(a, g[name]);
      DummyRejected(a);
  }

  lemma DummyRejected(a: string)
    requires Read(a).St? ==> !Read(a).m.InStr?
    ensures Read(a + "placeholder") == Dead
  {
    assert a + "placeholder" == (a + ['p']) + "laceholder";
    RunAppend(START, a + ['p'], "laceholder");
    ReadSnoc(a, 'p');
    NoP(Read(a));
    RunDead("laceholder");
  }

  /** Accepting commutes with filling holes. */
  lemma AcceptFill(s: State, g: Filler)
    ensures Accept(s).Some? <==> Accept(FillState(s, g)).Some?
    ensures Accept(s).Some? ==> Accept(FillState(s, g)) == Some(FillDoc(Accept(s).value, g))
  {
  }
}
