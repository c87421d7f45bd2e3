/**
  Whitespace between tokens carries no meaning: trees without it, and the
  compaction that removes it from a text.
 */
module Layout {
  import opened Options
  import opened Json
  import opened JsonSound
  import opened JsonComplete

  // ---------- Trees without whitespace ----------

  function StripValue(v: Value): Value {
    match v
    case Literal(_) => v
    case Num(_) => v
    case Str(_) => v
    case Arr(items, _) => Arr(StripItems(items), "")
    case Obj(mems, _) => Obj(StripMembers(mems), "")
  }

  function StripItems(items: Items): Items {
    match items
    case NoItems => NoItems
    case Item(init, _, v, _) => Item(StripItems(init), "", StripValue(v), "")
  }

  function StripMembers(mems: Members): Members {
    match mems
    case NoMembers => NoMembers
    case Member(init, _, key, _, _, v, _) => Member(StripMembers(init), "", key, "", "", StripValue(v), "")
  }

  /** The same value without any whitespace between its tokens. */
  function StripDoc(d: Doc): Doc {
    Doc("", StripValue(d.v), "")
  }

  function StripStack(k: Stack): Stack {
    match k
    case Root => Root
    case InArr(below, _, items) => InArr(StripStack(below), "", StripItems(items))
    case InObj(below, _, mems) => InObj(StripStack(below), "", StripMembers(mems))
    case InMem(below, _, mems, _, key, _) => InMem(StripStack(below), "", StripMembers(mems), "", key, "")
  }

  function StripMode(m: Mode): Mode {
    match m
    case BeginVal(_) => BeginVal("")
    case InWord(_, w, n) => InWord("", w, n)
    case InNum(_, ns, t) => InNum("", ns, t)
    case InStr(_, ps) => InStr("", ps)
    case InEsc(_, ps) => InEsc("", ps)
    case InHex(_, ps, h) => InHex("", ps, h)
    case AfterVal(_, v, _) => AfterVal("", StripValue(v), "")
    case BeginKey(_) => BeginKey("")
    case AfterKey(_, key, _) => AfterKey("", key, "")
  }

  function Strip(s: State): State {
    match s
    case Dead => Dead
    case St(k, m) => St(StripStack(k), StripMode(m))
  }

  predicate InString(s: State) {
    s.St? && s.m.InStr?
  }

  lemma {:induction false} StripHeight(k: Stack)
    ensures Height(StripStack(k)) == Height(k)
  {
    if !k.Root? { StripHeight(k.below); }
  }

  // ---------- One character ----------

  /** Outside strings stripping commutes with every character but whitespace, inside strings with every character. */
  lemma StepStrip(s: State, c: char)
    requires !IsWs(c) || InString(s)
    ensures Strip(Step(s, c)) == Step(Strip(s), c)
  {
    if s.St? {
      var k := s.k;
      hide StripStack, StepBeginVal, StepNum, StepStr, StepAfterVal, StepBeginKey, StepAfterKey;
      match s.m
      case BeginVal(pre) => StepBeginValStrip(k, pre, c);
      case InWord(pre, w, n) =>
      case InNum(pre, ns, t) => StepNumStrip(k, pre, ns, t, c);
      case InStr(pre, ps) => StepStrStrip(k, pre, ps, c);
      case InEsc(pre, ps) =>
      case InHex(pre, ps, h) =>
      case AfterVal(pre, v, post) => StepAfterValStrip(k, pre, v, post, c);
      case BeginKey(pre) => StepBeginKeyStrip(k, pre, c);
      case AfterKey(pre, key, post) => StepAfterKeyStrip(k, pre, key, post, c);
    }
  }

  lemma StepBeginValStrip(k: Stack, pre: string, c: char)
    requires !IsWs(c)
    ensures Strip(StepBeginVal(k, pre, c)) == StepBeginVal(StripStack(k), "", c)
  {
    if c == '[' || c == '{' || c == ']' {
      StepBracketStrip(k, pre, c);
    } else {
      hide StripStack, StripValue, Height;
    }
  }

  lemma StepBracketStrip(k: Stack, pre: string, c: char)
    requires c == '[' || c == '{' || c == ']'
    ensures Strip(StepBeginVal(k, pre, c)) == StepBeginVal(StripStack(k), "", c)
  {
    hide NumStart;
    if c == ']' {
      StepCloseStrip(k, pre);
    } else {
      StripHeight(k);
      OpenStrip(k, pre);
      hide Height, StripStack, Strip;
    }
  }

  lemma OpenStrip(k: Stack, pre: string)
    ensures Strip(St(InArr(k, pre, NoItems), BeginVal(""))) == St(InArr(StripStack(k), "", NoItems), BeginVal(""))
    ensures Strip(St(InObj(k, pre, NoMembers), BeginKey(""))) == St(InObj(StripStack(k), "", NoMembers), BeginKey(""))
    ensures Strip(Dead) == Dead
  {
  }

  lemma StepCloseStrip(k: Stack, pre: string)
    ensures Strip(StepBeginVal(k, pre, ']')) == StepBeginVal(StripStack(k), "", ']')
  {
    if k.InArr? && k.items.NoItems? {
      assert StripValue(Arr(NoItems, pre)) == Arr(NoItems, "");
    }
  }

  lemma StepNumStrip(k: Stack, pre: string, ns: NumState, t: string, c: char)
    requires !IsWs(c)
    ensures Strip(StepNum(k, pre, ns, t, c)) == StepNum(StripStack(k), "", ns, t, c)
  {
    StepAfterValStrip(k, pre, Num(t), "", c);
  }

  lemma StepStrStrip(k: Stack, pre: string, ps: seq<Piece>, c: char)
    ensures Strip(StepStr(k, pre, ps, c)) == StepStr(StripStack(k), "", ps, c)
  {
  }

  lemma StepAfterValStrip(k: Stack, pre: string, v: Value, post: string, c: char)
    requires !IsWs(c)
    ensures Strip(StepAfterVal(k, pre, v, post, c)) == StepAfterVal(StripStack(k), "", StripValue(v), "", c)
  {
    match k
    case InArr(below, p, items) =>
      var its := Item(items, pre, v, post);
      assert StripItems(its) == Item(StripItems(items), "", StripValue(v), "");
      assert StripValue(Arr(its, "")) == Arr(StripItems(its), "");
    case InMem(below, p, mems, pk, key, qk) =>
      var ms := Member(mems, pk, key, qk, pre, v, post);
      assert StripMembers(ms) == Member(StripMembers(mems), "", key, "", "", StripValue(v), "");
      assert StripValue(Obj(ms, "")) == Obj(StripMembers(ms), "");
    case _ =>
  }

  lemma StepBeginKeyStrip(k: Stack, pre: string, c: char)
    requires !IsWs(c)
    ensures Strip(StepBeginKey(k, pre, c)) == StepBeginKey(StripStack(k), "", c)
  {
    if c == '}' && k.InObj? && k.mems.NoMembers? {
      assert StripValue(Obj(NoMembers, pre)) == Obj(NoMembers, "");
    }
  }

  lemma StepAfterKeyStrip(k: Stack, pre: string, key: seq<Piece>, post: string, c: char)
    requires !IsWs(c)
    ensures Strip(StepAfterKey(k, pre, key, post, c)) == StepAfterKey(StripStack(k), "", key, "", c)
  {
  }

  /** Whitespace outside strings at most ends a number. */
  lemma StepWs(s: State, c: char)
    requires IsWs(c) && !InString(s) && Step(s, c) != Dead
    ensures Strip(Step(s, c)) == Settle(Strip(s))
    ensures Strip(Step(s, c)) == Strip(Settle(s))
  {
    hide StripStack;
    if s.m.InNum? {
      assert StripValue(Num(s.m.t)) == Num(s.m.t);
    }
  }

  lemma AcceptStrip(s: State)
    requires Accept(s).Some?
    ensures Accept(Strip(s)) == Some(StripDoc(Accept(s).value))
  {
    if s.m.InNum? {
      assert StripValue(Num(s.m.t)) == Num(s.m.t);
    }
  }

  // ---------- Compaction ----------

  /** Compaction skips a character read in state s. */
  predicate Skipped(s: State, c: char) {
    IsWs(c) && !InString(s)
  }

  /** The text without the whitespace outside its strings. */
  function Squeeze(t: string): string {
    if t == "" then ""
    else
      var n := |t| - 1;
      if Skipped(Read(t[..n]), t[n]) then Squeeze(t[..n]) else Squeeze(t[..n]) + [t[n]]
  }

  lemma SqueezeSnoc(t: string, c: char)
    ensures Squeeze(t + [c]) == if Skipped(Read(t), c) then Squeeze(t) else Squeeze(t) + [c]
  {
    assert (t + [c])[..|t|] == t;
  }

  /** compactJSON: compacts JSON and leaves anything else alone. */
  function Compacted(t: string): string {
    if Valid(t) then Squeeze(t) else t
  }

  /** x has read the squeezed text and may still be inside a number that y has left. */
  predicate Lags(x: State, y: State) {
    x == y || (x.St? && x.m.InNum? && Settle(x) == y)
  }

  lemma LagStep(x: State, s: State, c: char)
    requires Lags(x, Strip(s)) && Step(s, c) != Dead
    ensures Lags(if Skipped(s, c) then x else Step(x, c), Strip(Step(s, c)))
  {
    if Skipped(s, c) {
      StepWs(s, c);
      LagSkip(x, s);
    } else {
      StepStrip(s, c);
      if x != Strip(s) { LagCatchUp(x, s, c); }
    }
  }

  lemma LagSkip(x: State, s: State)
    requires Lags(x, Strip(s))
    ensures Lags(x, Settle(Strip(s)))
  {
  }

  lemma LagCatchUp(x: State, s: State, c: char)
    requires Lags(x, Strip(s)) && x != Strip(s) && !Skipped(s, c) && Step(s, c) != Dead
    ensures Step(x, c) == Step(Strip(s), c)
  {
    assert s.m.AfterVal?;
    assert c == ',' || c == ']' || c == '}';
    StepSettle(x, c);
  }

  lemma {:induction false} SqueezeLags(t: string)
    requires Read(t) != Dead
    ensures Lags(Read(Squeeze(t)), Strip(Read(t)))
  {
    if t == "" {
      StartLags();
    } else {
      hide Lags, Strip, Skipped, Step, Run;
      var n := |t| - 1;
      var u, c := t[..n], t[n];
      assert t == u + [c];
      ReadSnoc(u, c);
      StepDead(c);
      SqueezeLags(u);
      LagStep(Read(Squeeze(u)), Read(u), c);
      ReadSnoc(Squeeze(u), c);
    }
  }

  lemma StartLags()
    ensures Lags(Read(Squeeze("")), Strip(Read("")))
  {
  }

  lemma AcceptLags(x: State, y: State)
    requires Lags(x, y)
    ensures Accept(x) == Accept(y)
  {
  }

  /** Compacting JSON yields the same tree without whitespace; the result is that tree's print. */
  lemma CompactedParses(t: string)
    requires Valid(t)
    ensures Parse(Compacted(t)) == Some(StripDoc(Parse(t).value))
    ensures Compacted(t) == DocText(StripDoc(Parse(t).value))
  {
    hide Lags, Strip, Run, Squeeze, StripDoc;
    SqueezeLags(t);
    AcceptLags(Read(Squeeze(t)), Strip(Read(t)));
    AcceptStrip(Read(t));
    ParseSound(Squeeze(t));
  }

  /** json.Compact, then the choice compactJSON makes. */
  method CompactJSON(t: string) returns (r: string)
    ensures r == Compacted(t)
  {
    var s, out := START, "";
    for i := 0 to |t|
      invariant s == Read(t[..i]) && out == Squeeze(t[..i])
    {
      assert t[..i + 1] == t[..i] + [t[i]];
      ReadSnoc(t[..i], t[i]);
      SqueezeSnoc(t[..i], t[i]);
      if !Skipped(s, t[i]) {
        out := out + [t[i]];
      }
      s := Step(s, t[i]);
    }
    assert t[..|t|] == t;
    r := if Accept(s) == None then t else out;
  }
}
