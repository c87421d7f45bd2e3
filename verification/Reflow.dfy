/**
  Splitting a JSON text at whitespace and joining it with single spaces, as
  the Slack command does to an override: what that does to the value.
 */
module Reflow {
  import opened Options
  import opened Json
  import opened JsonSound
  import opened JsonComplete
  import opened Layout

  /** unicode.IsSpace */
  predicate IsSpace(c: char) {
    || c == ' ' || '\t' <= c <= '\r' || c == '\U{85}' || c == '\U{A0}' || c == '\U{1680}'
    || '\U{2000}' <= c <= '\U{200A}' || c == '\U{2028}' || c == '\U{2029}' || c == '\U{202F}'
    || c == '\U{205F}' || c == '\U{3000}'
  }

  predicate EndsSpace(t: string) {
    t != "" && IsSpace(t[|t| - 1])
  }

  /** What becomes of a character that follows the text t. */
  function Kept(t: string, c: char): string {
    if !IsSpace(c) then [c] else if EndsSpace(t) then "" else " "
  }

  /** Every run of space characters becomes one ' '. */
  function Collapse(t: string): string {
    if t == "" then "" else Collapse(t[..|t| - 1]) + Kept(t[..|t| - 1], t[|t| - 1])
  }

  lemma CollapseSnoc(t: string, c: char)
    ensures Collapse(t + [c]) == Collapse(t) + Kept(t, c)
  {
    assert (t + [c])[..|t|] == t;
  }

  /** The character c after t is no space inside a string, or the one kind that survives: a single ' '. */
  predicate SpacedWell(t: string, c: char) {
    IsSpace(c) && InString(Read(t)) ==> c == ' ' && !EndsSpace(t)
  }

  /** Inside string literals the text has no two adjacent spaces and no space other than ' '. */
  predicate WellSpaced(t: string) {
    forall i | 0 <= i < |t| :: SpacedWell(t[..i], t[i])
  }

  lemma WellSpacedSnoc(t: string, c: char)
    ensures WellSpaced(t + [c]) <==> WellSpaced(t) && SpacedWell(t, c)
  {
    hide SpacedWell;
    var u := t + [c];
    assert u[..|t|] == t;
    forall i | 0 <= i < |t| ensures u[..i] == t[..i] && u[i] == t[i] {}
    if WellSpaced(u) {
      assert SpacedWell(u[..|t|], u[|t|]);
      forall i | 0 <= i < |t| ensures SpacedWell(t[..i], t[i]) {
        assert SpacedWell(u[..i], u[i]);
      }
    }
  }

  // ---------- Spaces outside strings ----------

  /** Outside strings the scanner survives only JSON whitespace, and leaves no number open. */
  lemma SpaceOutside(s: State, c: char)
    requires IsSpace(c) && !InString(s) && Step(s, c) != Dead
    ensures IsWs(c) && !Step(s, c).m.InNum? && Step(s, ' ') != Dead && !InString(Step(s, c))
  {
    match s.m
    case InWord(_, w, n) =>
    case InNum(_, ns, _) =>
    case _ =>
  }

  lemma SpaceInside(s: State, c: char)
    requires InString(s) && IsSpace(c) && Step(s, c) != Dead
    ensures InString(Step(s, c)) && InString(Step(s, ' '))
  {
  }

  lemma SpaceClosesNumber(t: string)
    requires Read(t) != Dead && EndsSpace(t)
    ensures !Read(t).m.InNum?
  {
    var n := |t| - 1;
    assert t == t[..n] + [t[n]];
    ReadSnoc(t[..n], t[n]);
    StepDead(t[n]);
    if InString(Read(t[..n])) {
      SpaceInside(Read(t[..n]), t[n]);
    } else {
      SpaceOutside(Read(t[..n]), t[n]);
    }
  }

  // ---------- Well-spaced texts keep their value ----------

  /** A character that is no space, after texts that differ only in layout. */
  lemma PlainStep(x: State, s: State, c: char)
    requires Strip(x) == Strip(s) && (!IsSpace(c) || InString(s))
    ensures Strip(Step(x, c)) == Strip(Step(s, c))
  {
    StepStrip(x, c);
    StepStrip(s, c);
  }

  lemma StripSettle(s: State)
    ensures Strip(Settle(s)) == Settle(Strip(s))
  {
    if s.St? && s.m.InNum? {
      assert StripValue(Num(s.m.t)) == Num(s.m.t);
    }
  }

  lemma SameMode(x: State, s: State)
    requires Strip(x) == Strip(s)
    ensures InString(x) <==> InString(s)
    ensures x == Dead <==> s == Dead
  {
  }

  /** Whitespace after texts that differ only in layout: the collapsed text may have it already. */
  lemma SpaceStep(x: State, s: State, c: char)
    requires Strip(x) == Strip(s) && IsSpace(c) && !InString(s) && Step(s, c) != Dead
    ensures Strip(Step(x, ' ')) == Strip(Step(s, c))
    ensures !s.m.InNum? ==> Strip(x) == Strip(Step(s, c))
  {
    SpaceOutside(s, c);
    SameMode(x, s);
    StepWs(s, c);
    SurvivesSpace(x, s);
    StepWs(x, ' ');
    StripSettle(s);
  }

  lemma SurvivesSpace(x: State, s: State)
    requires Strip(x) == Strip(s) && !InString(s) && Step(s, ' ') != Dead
    ensures Step(x, ' ') != Dead
  {
  }

  lemma {:induction false} WellSpacedRuns(t: string)
    requires Read(t) != Dead && WellSpaced(t)
    ensures Strip(Read(Collapse(t))) == Strip(Read(t))
  {
    if t != "" {
      var n := |t| - 1;
      var u, c := t[..n], t[n];
      assert t == u + [c];
      ReadSnoc(u, c);
      StepDead(c);
      WellSpacedSnoc(u, c);
      CollapseSnoc(u, c);
      WellSpacedRuns(u);
      WellSpacedStep(u, c);
    }
  }

  lemma WellSpacedStep(u: string, c: char)
    requires Step(Read(u), c) != Dead && SpacedWell(u, c)
    requires Strip(Read(Collapse(u))) == Strip(Read(u))
    ensures Strip(Read(Collapse(u) + Kept(u, c))) == Strip(Step(Read(u), c))
  {
    var x, s := Read(Collapse(u)), Read(u);
    hide Strip, Step, Read;
    ReadSnoc(Collapse(u), c);
    ReadSnoc(Collapse(u), ' ');
    ReadNil(Collapse(u));
    if !IsSpace(c) || InString(s) {
      PlainStep(x, s, c);
    } else {
      if EndsSpace(u) {
        StepDead(c);
        SpaceClosesNumber(u);
      }
      SpaceStep(x, s, c);
    }
  }

  // ---------- Badly spaced texts lose something ----------

  /** A state without the contents of its strings. */
  function BareMembers(mems: Members): Members {
    match mems
    case NoMembers => NoMembers
    case Member(_, _, _, _, _, _, _) => Member(NoMembers, "", [], "", "", Literal(Null), "")
  }

  function BareItems(items: Items): Items {
    if items.NoItems? then NoItems else Item(NoItems, "", Literal(Null), "")
  }

  function BareStack(k: Stack): Stack {
    match k
    case Root => Root
    case InArr(below, _, items) => InArr(BareStack(below), "", BareItems(items))
    case InObj(below, _, mems) => InObj(BareStack(below), "", BareMembers(mems))
    case InMem(below, _, mems, _, _, _) => InMem(BareStack(below), "", NoMembers, "", [], "")
  }

  function BareMode(m: Mode): Mode {
    match m
    case BeginVal(_) => BeginVal("")
    case InWord(_, w, n) => InWord("", w, n)
    case InNum(_, ns, _) => InNum("", ns, "")
    case InStr(_, _) => InStr("", [])
    case InEsc(_, _) => InEsc("", [])
    case InHex(_, _, h) => InHex("", [], h)
    case AfterVal(_, _, _) => AfterVal("", Literal(Null), "")
    case BeginKey(_) => BeginKey("")
    case AfterKey(_, _, _) => AfterKey("", [], "")
  }

  /** What decides which characters may come next: the nesting and the mode, not the values. */
  function Bare(s: State): State {
    match s
    case Dead => Dead
    case St(k, m) => St(BareStack(k), BareMode(m))
  }

  lemma {:induction false} BareHeight(k: Stack)
    ensures Height(BareStack(k)) == Height(k)
  {
    if !k.Root? { BareHeight(k.below); }
  }

  lemma StepBare(s: State, c: char)
    ensures Bare(Step(s, c)) == Bare(Step(Bare(s), c))
  {
    if s.St? {
      var k := s.k;
      hide BareStack, StepBeginVal, StepNum, StepStr, StepAfterVal, StepBeginKey, StepAfterKey, StepHex, StepEsc;
      match s.m
      case BeginVal(pre) => StepBeginValBare(k, pre, c);
      case InWord(pre, w, n) => StepWordBare(k, pre, w, n, c);
      case InNum(pre, ns, t) => StepNumBare(k, pre, ns, t, c);
      case InStr(pre, ps) => StepStrBare(k, pre, ps, c);
      case InEsc(pre, ps) => StepEscBare(k, pre, ps, c);
      case InHex(pre, ps, h) => StepHexBare(k, pre, ps, h, c);
      case AfterVal(pre, v, post) => StepAfterValBare(k, pre, v, post, c);
      case BeginKey(pre) => StepBeginKeyBare(k, pre, c);
      case AfterKey(pre, key, post) => StepAfterKeyBare(k, pre, key, post, c);
    }
  }

  /** Bare stacks are bare. */
  lemma {:induction false} BareTwice(k: Stack)
    ensures BareStack(BareStack(k)) == BareStack(k)
  {
    if !k.Root? { BareTwice(k.below); }
  }

  lemma StepBeginValBare(k: Stack, pre: string, c: char)
    ensures Bare(StepBeginVal(k, pre, c)) == Bare(StepBeginVal(BareStack(k), "", c))
  {
    if c == '[' || c == '{' || c == ']' {
      StepBracketBare(k, pre, c);
    } else {
      StepScalarBare(k, pre, c);
    }
  }

  lemma StepScalarBare(k: Stack, pre: string, c: char)
    requires c != '[' && c != '{' && c != ']'
    ensures Bare(StepBeginVal(k, pre, c)) == Bare(StepBeginVal(BareStack(k), "", c))
  {
    BareTwice(k);
    hide BareStack;
    var m := if StepBeginVal(k, pre, c).St? then BareMode(StepBeginVal(k, pre, c).m) else BeginVal("");
    assert Bare(StepBeginVal(k, pre, c)) == if StepBeginVal(k, pre, c).St? then St(BareStack(k), m) else Dead;
  }

  lemma StepBracketBare(k: Stack, pre: string, c: char)
    requires c == '[' || c == '{' || c == ']'
    ensures Bare(StepBeginVal(k, pre, c)) == Bare(StepBeginVal(BareStack(k), "", c))
  {
    if c == ']' {
      StepCloseBare(k, pre);
    } else if c == '[' {
      StepArrayBare(k, pre);
    } else {
      StepObjectBare(k, pre);
    }
  }

  lemma StepArrayBare(k: Stack, pre: string)
    ensures Bare(StepBeginVal(k, pre, '[')) == Bare(StepBeginVal(BareStack(k), "", '['))
  {
    BareTwice(k);
    BareHeight(k);
    OpenBare(k, pre);
    OpenBare(BareStack(k), "");
    hide Height, BareStack, Bare;
  }

  lemma StepObjectBare(k: Stack, pre: string)
    ensures Bare(StepBeginVal(k, pre, '{')) == Bare(StepBeginVal(BareStack(k), "", '{'))
  {
    BareTwice(k);
    BareHeight(k);
    OpenBare(k, pre);
    OpenBare(BareStack(k), "");
    hide Height, BareStack, Bare;
  }

  lemma OpenBare(k: Stack, pre: string)
    ensures Bare(St(InArr(k, pre, NoItems), BeginVal(""))) == St(InArr(BareStack(k), "", NoItems), BeginVal(""))
    ensures Bare(St(InObj(k, pre, NoMembers), BeginKey(""))) == St(InObj(BareStack(k), "", NoMembers), BeginKey(""))
    ensures Bare(Dead) == Dead
  {
  }

  lemma StepCloseBare(k: Stack, pre: string)
    ensures Bare(StepBeginVal(k, pre, ']')) == Bare(StepBeginVal(BareStack(k), "", ']'))
  {
    if k.InArr? {
      BareTwice(k.below);
    }
  }

  lemma StepWordBare(k: Stack, pre: string, w: Word, n: nat, c: char)
    ensures Bare(StepWord(k, pre, w, n, c)) == Bare(StepWord(BareStack(k), "", w, n, c))
  {
    BareTwice(k);
    hide BareStack;
  }

  lemma StepNumBare(k: Stack, pre: string, ns: NumState, t: string, c: char)
    ensures Bare(StepNum(k, pre, ns, t, c)) == Bare(StepNum(BareStack(k), "", ns, "", c))
  {
    BareTwice(k);
    StepAfterValBare(k, pre, Num(t), "", c);
    AfterValBareValue(BareStack(k), Num(""), c);
    hide BareStack, StepAfterVal;
  }

  /** The value just read does not matter for what comes next. */
  lemma AfterValBareValue(k: Stack, v: Value, c: char)
    ensures Bare(StepAfterVal(k, "", v, "", c)) == Bare(StepAfterVal(k, "", Literal(Null), "", c))
  {
  }

  lemma StepStrBare(k: Stack, pre: string, ps: seq<Piece>, c: char)
    ensures Bare(StepStr(k, pre, ps, c)) == Bare(StepStr(BareStack(k), "", [], c))
  {
    BareTwice(k);
    assert BareStack(k).InObj? <==> k.InObj?;
    hide BareStack;
  }

  lemma StepEscBare(k: Stack, pre: string, ps: seq<Piece>, c: char)
    ensures Bare(StepEsc(k, pre, ps, c)) == Bare(StepEsc(BareStack(k), "", [], c))
  {
    BareTwice(k);
    hide BareStack;
  }

  lemma StepHexBare(k: Stack, pre: string, ps: seq<Piece>, h: string, c: char)
    ensures Bare(StepHex(k, pre, ps, h, c)) == Bare(StepHex(BareStack(k), "", [], h, c))
  {
    BareTwice(k);
    hide BareStack;
  }

  lemma StepAfterValBare(k: Stack, pre: string, v: Value, post: string, c: char)
    ensures Bare(StepAfterVal(k, pre, v, post, c)) == Bare(StepAfterVal(BareStack(k), "", Literal(Null), "", c))
  {
    BareTwice(k);
    if !k.Root? { BareTwice(k.below); }
  }

  lemma StepBeginKeyBare(k: Stack, pre: string, c: char)
    ensures Bare(StepBeginKey(k, pre, c)) == Bare(StepBeginKey(BareStack(k), "", c))
  {
    BareTwice(k);
    if !k.Root? { BareTwice(k.below); }
  }

  lemma StepAfterKeyBare(k: Stack, pre: string, key: seq<Piece>, post: string, c: char)
    ensures Bare(StepAfterKey(k, pre, key, post, c)) == Bare(StepAfterKey(BareStack(k), "", [], "", c))
  {
    BareTwice(k);
    if !k.Root? { BareTwice(k.below); }
  }

  /** Reading the same character keeps states alike. */
  lemma AlikeStep(x: State, s: State, c: char)
    requires Bare(x) == Bare(s)
    ensures Bare(Step(x, c)) == Bare(Step(s, c))
  {
    StepBare(x, c);
    StepBare(s, c);
  }

  lemma AlikeMode(x: State, s: State)
    requires Bare(x) == Bare(s)
    ensures InString(x) <==> InString(s)
    ensures x == Dead <==> s == Dead
    ensures x.St? && x.m.InNum? <==> s.St? && s.m.InNum?
  {
  }

  /** Whitespace where no number is open changes nothing that matters. */
  lemma SpaceBare(s: State, c: char)
    requires IsSpace(c) && s.St? && !s.m.InNum? && Step(s, c) != Dead
    ensures Bare(s) == Bare(Step(s, c))
  {
    match s.m
    case InStr(_, ps) =>
    case InWord(_, w, n) =>
    case _ =>
  }

  lemma AnySpace(s: State, c: char)
    requires IsSpace(c) && Step(s, c) != Dead
    ensures Bare(Step(s, ' ')) == Bare(Step(s, c))
  {
    if InString(s) {
      SpaceInside(s, c);
    } else {
      SpaceOutside(s, c);
      hide BareStack;
    }
  }

  /** The collapsed text is read into the same nesting and mode. */
  lemma {:induction false} CollapseAlike(t: string)
    requires Read(t) != Dead
    ensures Bare(Read(Collapse(t))) == Bare(Read(t))
  {
    if t != "" {
      hide Bare, Step, Read, Kept;
      var n := |t| - 1;
      var u, c := t[..n], t[n];
      assert t == u + [c];
      ReadSnoc(u, c);
      StepDead(c);
      CollapseSnoc(u, c);
      CollapseAlike(u);
      CollapseAlikeStep(u, c);
    }
  }

  lemma CollapseAlikeStep(u: string, c: char)
    requires Step(Read(u), c) != Dead && Bare(Read(Collapse(u))) == Bare(Read(u))
    ensures Bare(Read(Collapse(u) + Kept(u, c))) == Bare(Step(Read(u), c))
  {
    var x, s := Read(Collapse(u)), Read(u);
    hide Bare, Step, Read;
    ReadSnoc(Collapse(u), c);
    ReadSnoc(Collapse(u), ' ');
    ReadNil(Collapse(u));
    StepDead(c);
    if !IsSpace(c) {
      AlikeStep(x, s, c);
    } else if EndsSpace(u) {
      SpaceClosesNumber(u);
      SpaceBare(s, c);
    } else {
      AlikeStep(x, s, ' ');
      AnySpace(s, c);
    }
  }

  /** Space characters other than ' ' weigh double. */
  function Weight(t: string): nat {
    if t == "" then 0
    else Weight(t[..|t| - 1]) + (if IsSpace(t[|t| - 1]) && t[|t| - 1] != ' ' then 2 else 1)
  }

  lemma WeightSnoc(t: string, c: char)
    ensures Weight(t + [c]) == Weight(t) + (if IsSpace(c) && c != ' ' then 2 else 1)
  {
    assert (t + [c])[..|t|] == t;
  }

  /** How much weight collapsing takes from what the text says. */
  function Loss(t: string): int {
    Weight(Squeeze(t)) - Weight(Squeeze(Collapse(t)))
  }

  /** Collapsing takes weight from what the strings say, unless the text is well spaced. */
  lemma {:induction false} CollapseLoses(t: string)
    requires Read(t) != Dead
    ensures Loss(t) >= 0 && (!WellSpaced(t) ==> Loss(t) > 0)
  {
    hide Step, Loss, SpacedWell, WellSpaced;
    if t == "" {
      EmptyLoss();
    } else {
      var n := |t| - 1;
      var u, c := t[..n], t[n];
      assert t == u + [c];
      ReadSnoc(u, c);
      StepDead(c);
      hide Read;
      WellSpacedSnoc(u, c);
      CollapseLoses(u);
      LossSnoc(u, c);
    }
  }

  lemma EmptyLoss()
    ensures Loss("") == 0 && WellSpaced("")
  {
  }

  lemma LossSnoc(u: string, c: char)
    requires Step(Read(u), c) != Dead
    ensures Loss(u + [c]) >= Loss(u)
    ensures !SpacedWell(u, c) ==> Loss(u + [c]) > Loss(u)
  {
    hide Step, Read, Kept, Weight, Squeeze, SpacedWell;
    CollapseSnoc(u, c);
    CollapseLosesStep(u, c);
  }

  /** How much heavier the squeezed text gets with the character c. */
  function Gain(t: string, c: char): nat {
    if Skipped(Read(t), c) then 0 else if IsSpace(c) && c != ' ' then 2 else 1
  }

  lemma GainCorrect(t: string, c: char)
    ensures Weight(Squeeze(t + [c])) == Weight(Squeeze(t)) + Gain(t, c)
  {
    hide Read, Weight, Squeeze;
    SqueezeSnoc(t, c);
    WeightSnoc(Squeeze(t), c);
  }

  /** What is skipped in the text is skipped in the collapsed text; any other space outside strings is skipped. */
  lemma CollapseSkips(u: string, c: char)
    requires Step(Read(u), c) != Dead
    ensures InString(Read(Collapse(u))) <==> InString(Read(u))
    ensures IsSpace(c) && !InString(Read(u)) ==> IsWs(c)
  {
    StepDead(c);
    CollapseAlike(u);
    AlikeMode(Read(Collapse(u)), Read(u));
    if IsSpace(c) && !InString(Read(u)) {
      SpaceOutside(Read(u), c);
    }
  }

  lemma CollapseLosesStep(u: string, c: char)
    requires Step(Read(u), c) != Dead
    ensures Weight(Squeeze(Collapse(u) + Kept(u, c))) - Weight(Squeeze(Collapse(u))) <=
      Weight(Squeeze(u + [c])) - Weight(Squeeze(u))
    ensures !SpacedWell(u, c) ==>
      Weight(Squeeze(Collapse(u) + Kept(u, c))) - Weight(Squeeze(Collapse(u))) <
      Weight(Squeeze(u + [c])) - Weight(Squeeze(u))
  {
    var x := Collapse(u);
    CollapseSkips(u, c);
    hide Bare, Step, Read, Weight, Squeeze, Collapse, InString;
    GainCorrect(u, c);
    if !IsSpace(c) {
      GainCorrect(x, c);
    } else if EndsSpace(u) {
      ReadNil(x);
    } else {
      GainCorrect(x, ' ');
    }
  }

  // ---------- The theorem ----------

  /** The value of a text without its layout. */
  function Meaning(t: string): Option<Doc> {
    match Parse(t)
    case None => None
    case Some(d) => Some(StripDoc(d))
  }

  /**
    Collapsing a JSON text keeps its value exactly when no string literal in it
    has adjacent spaces or a space other than ' '.
   */
  lemma CollapseKeepsMeaning(t: string)
    requires Valid(t)
    ensures Meaning(Collapse(t)) == Meaning(t) <==> WellSpaced(t)
  {
    if WellSpaced(t) {
      WellSpacedRuns(t);
      AcceptStripIff(Read(Collapse(t)), Read(t));
    } else {
      CollapseLoses(t);
      if Meaning(Collapse(t)) == Meaning(t) {
        CompactedParses(t);
        CompactedParses(Collapse(t));
        assert false;
      }
    }
  }

  /** A space at the end changes no text's meaning, JSON or not. */
  lemma TrailingSpace(t: string)
    ensures Meaning(t + " ") == Meaning(t)
  {
    assert t + " " == t + [' '];
    ReadSnoc(t, ' ');
    SpaceAccepted(Read(t));
    hide Read, Accept, Step;
  }

  lemma SpaceAccepted(s: State)
    ensures Accept(s).Some? <==> Accept(Step(s, ' ')).Some?
    ensures Accept(s).Some? ==> StripDoc(Accept(Step(s, ' ')).value) == StripDoc(Accept(s).value)
  {
    if s.St? {
      match s.m
      case InWord(_, w, n) =>
      case _ =>
    }
  }

  lemma AcceptStripIff(x: State, s: State)
    requires Strip(x) == Strip(s) && Accept(s).Some?
    ensures Accept(x).Some? && StripDoc(Accept(x).value) == StripDoc(Accept(s).value)
  {
    AcceptStrip(s);
    AcceptSettled(x, s);
    AcceptStrip(x);
  }

  lemma AcceptSettled(x: State, s: State)
    requires Strip(x) == Strip(s) && Accept(s).Some?
    ensures Accept(x).Some?
  {
  }
}
