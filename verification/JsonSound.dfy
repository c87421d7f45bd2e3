/**
  Whatever the scanner accepts is well formed, and printing the tree it built
  gives back the text that was read.
 */
module JsonSound {
  import opened Options
  import opened Json

  // ---------- The text a scanner state has consumed ----------

  function StackText(k: Stack): string {
    match k
    case Root => ""
    case InArr(below, pre, items) => PutItemsLead(StackText(below) + pre + ['['], items)
    case InObj(below, pre, mems) => PutMembersLead(StackText(below) + pre + ['{'], mems)
    case InMem(below, pre, mems, preK, key, postK) =>
      PutName(PutMembersLead(StackText(below) + pre + ['{'], mems), preK, key, postK)
  }

  function ModeText(a: string, m: Mode): string {
    match m
    case BeginVal(pre) => a + pre
    case InWord(pre, w, n) => a + pre + (if n <= |WordText(w)| then WordText(w)[..n] else "")
    case InNum(pre, _, t) => a + pre + t
    case InStr(pre, ps) => PutPieces(a + pre + ['"'], ps)
    case InEsc(pre, ps) => PutPieces(a + pre + ['"'], ps) + ['\\']
    case InHex(pre, ps, h) => PutPieces(a + pre + ['"'], ps) + ['\\'] + ['u'] + h
    case AfterVal(pre, v, post) => PutValue(a + pre, v) + post
    case BeginKey(pre) => a + pre
    case AfterKey(pre, key, post) => PutStr(a + pre, key) + post
  }

  function StateText(s: State): string {
    match s
    case Dead => ""
    case St(k, m) => ModeText(StackText(k), m)
  }

  lemma CatSnoc(a: string, b: string, c: char)
    ensures a + (b + [c]) == (a + b) + [c]
  {
  }

  lemma CatNil(a: string)
    ensures a + "" == a
  {
  }

  lemma PutPiecesSnoc(a: string, ps: seq<Piece>, p: Piece)
    ensures PutPieces(a, ps + [p]) == PutPiece(PutPieces(a, ps), p)
  {
    assert (ps + [p])[..|ps|] == ps;
  }

  /** One step of the scanner reads exactly one character more. */
  lemma StepText(s: State, c: char)
    requires Step(s, c) != Dead
    ensures StateText(Step(s, c)) == StateText(s) + [c]
  {
    var St(k, m) := s;
    match m
    case BeginVal(pre) => StepBeginValText(k, pre, c);
    case InWord(pre, w, n) => StepWordText(k, pre, w, n, c);
    case InNum(pre, ns, t) => StepNumText(k, pre, ns, t, c);
    case InStr(pre, ps) => StepStrText(k, pre, ps, c);
    case InEsc(pre, ps) => StepEscText(k, pre, ps, c);
    case InHex(pre, ps, h) => StepHexText(k, pre, ps, h, c);
    case AfterVal(pre, v, post) => StepAfterValText(k, pre, v, post, c);
    case BeginKey(pre) => StepBeginKeyText(k, pre, c);
    case AfterKey(pre, key, post) => StepAfterKeyText(k, pre, key, post, c);
  }

  lemma StepBeginValText(k: Stack, pre: string, c: char)
    requires StepBeginVal(k, pre, c) != Dead
    ensures StateText(StepBeginVal(k, pre, c)) == StackText(k) + pre + [c]
  {
    if c == '[' || c == '{' || c == ']' {
      StepBracketText(k, pre, c);
    } else {
      hide StackText, PutValue;
      CatSnoc(StackText(k), pre, c);
      if c == 't' {
        assert WordText(True)[..1] == [c];
      } else if c == 'f' {
        assert WordText(False)[..1] == [c];
      } else if c == 'n' {
        assert WordText(Null)[..1] == [c];
      }
    }
  }

  lemma StepBracketText(k: Stack, pre: string, c: char)
    requires StepBeginVal(k, pre, c) != Dead && (c == '[' || c == '{' || c == ']')
    ensures StateText(StepBeginVal(k, pre, c)) == StackText(k) + pre + [c]
  {
    if c == ']' {
      CloseArrayText(k, pre);
    } else {
      OpenText(k, pre);
      hide StackText, ModeText;
    }
  }

  lemma OpenText(k: Stack, pre: string)
    ensures StateText(St(InArr(k, pre, NoItems), BeginVal(""))) == StackText(k) + pre + ['[']
    ensures StateText(St(InObj(k, pre, NoMembers), BeginKey(""))) == StackText(k) + pre + ['{']
  {
    OpenStack(k, pre);
    EmptyMode(StackText(k) + pre + ['[']);
    EmptyMode(StackText(k) + pre + ['{']);
    hide StackText, ModeText;
  }

  lemma EmptyMode(a: string)
    ensures ModeText(a, BeginVal("")) == a && ModeText(a, BeginKey("")) == a
  {
    CatNil(a);
  }

  lemma OpenStack(k: Stack, pre: string)
    ensures StackText(InArr(k, pre, NoItems)) == StackText(k) + pre + ['[']
    ensures StackText(InObj(k, pre, NoMembers)) == StackText(k) + pre + ['{']
  {
    hide PutItems, PutMembers;
  }

  lemma CloseArrayText(k: Stack, pre: string)
    requires k.InArr? && k.items.NoItems?
    ensures StateText(St(k.below, AfterVal(k.pre, Arr(NoItems, pre), ""))) == StackText(k) + pre + [']']
  {
    var b := StackText(k.below) + k.pre;
    CatNil(PutValue(b, Arr(NoItems, pre)));
    assert StackText(k) == b + ['['];
    assert PutItems(b + ['['], NoItems) == b + ['['];
  }

  lemma StepWordText(k: Stack, pre: string, w: Word, n: nat, c: char)
    requires StepWord(k, pre, w, n, c) != Dead
    ensures StateText(StepWord(k, pre, w, n, c)) == ModeText(StackText(k), InWord(pre, w, n)) + [c]
  {
    hide StackText;
    var t := WordText(w);
    assert t[..n + 1] == t[..n] + [c];
    CatSnoc(StackText(k) + pre, t[..n], c);
    if n + 1 == |t| {
      assert t[..n + 1] == t;
      CatNil(StackText(k) + pre + t);
    }
  }

  lemma StepNumText(k: Stack, pre: string, ns: NumState, t: string, c: char)
    requires StepNum(k, pre, ns, t, c) != Dead
    ensures StateText(StepNum(k, pre, ns, t, c)) == StackText(k) + pre + t + [c]
  {
    if NumStep(ns, c).Some? {
      CatSnoc(StackText(k) + pre, t, c);
    } else {
      StepAfterValText(k, pre, Num(t), "", c);
      CatNil(StackText(k) + pre + t);
    }
  }

  lemma StepStrText(k: Stack, pre: string, ps: seq<Piece>, c: char)
    requires StepStr(k, pre, ps, c) != Dead
    ensures StateText(StepStr(k, pre, ps, c)) == ModeText(StackText(k), InStr(pre, ps)) + [c]
  {
    hide PutPieces, StackText;
    if c == '"' {
      CatNil(PutStr(StackText(k) + pre, ps));
    } else if c != '\\' {
      PutPiecesSnoc(StackText(k) + pre + ['"'], ps, Raw(c));
    }
  }

  lemma StepEscText(k: Stack, pre: string, ps: seq<Piece>, c: char)
    requires StepEsc(k, pre, ps, c) != Dead
    ensures StateText(StepEsc(k, pre, ps, c)) == ModeText(StackText(k), InEsc(pre, ps)) + [c]
  {
    var a := StackText(k) + pre + ['"'];
    if c == 'u' {
      CatNil(PutPieces(a, ps) + ['\\'] + ['u']);
    } else {
      PutPiecesSnoc(a, ps, Esc(c));
    }
  }

  lemma StepHexText(k: Stack, pre: string, ps: seq<Piece>, h: string, c: char)
    requires StepHex(k, pre, ps, h, c) != Dead
    ensures StateText(StepHex(k, pre, ps, h, c)) == ModeText(StackText(k), InHex(pre, ps, h)) + [c]
  {
    var a := StackText(k) + pre + ['"'];
    CatSnoc(PutPieces(a, ps) + ['\\'] + ['u'], h, c);
    if |h| == 3 {
      PutPiecesSnoc(a, ps, Hex(h + [c]));
    }
  }

  lemma StepAfterValText(k: Stack, pre: string, v: Value, post: string, c: char)
    requires StepAfterVal(k, pre, v, post, c) != Dead
    ensures StateText(StepAfterVal(k, pre, v, post, c)) == PutValue(StackText(k) + pre, v) + post + [c]
  {
    if IsWs(c) {
      CatSnoc(PutValue(StackText(k) + pre, v), post, c);
    } else if k.InArr? {
      StepItemText(k, pre, v, post, c);
    } else {
      StepMemberText(k, pre, v, post, c);
    }
  }

  lemma StepItemText(k: Stack, pre: string, v: Value, post: string, c: char)
    requires StepAfterVal(k, pre, v, post, c) != Dead && !IsWs(c) && k.InArr?
    ensures StateText(StepAfterVal(k, pre, v, post, c)) == PutValue(StackText(k) + pre, v) + post + [c]
  {
    var its := Item(k.items, pre, v, post);
    var a := StackText(k.below) + k.pre + ['['];
    assert PutItems(a, its) == PutValue(StackText(k) + pre, v) + post;
    if c == ',' {
      CatNil(PutItemsLead(a, its));
    } else {
      CatNil(PutItems(a, its));
      CatNil(PutValue(StackText(k.below) + k.pre, Arr(its, "")));
    }
  }

  lemma StepMemberText(k: Stack, pre: string, v: Value, post: string, c: char)
    requires StepAfterVal(k, pre, v, post, c) != Dead && !IsWs(c) && k.InMem?
    ensures StateText(StepAfterVal(k, pre, v, post, c)) == PutValue(StackText(k) + pre, v) + post + [c]
  {
    var ms := Member(k.mems, k.preK, k.key, k.postK, pre, v, post);
    var a := StackText(k.below) + k.pre + ['{'];
    assert PutMembers(a, ms) == PutValue(StackText(k) + pre, v) + post;
    if c == ',' {
      CatNil(PutMembersLead(a, ms));
    } else {
      CatNil(PutMembers(a, ms));
      CatNil(PutValue(StackText(k.below) + k.pre, Obj(ms, "")));
    }
  }

  lemma StepBeginKeyText(k: Stack, pre: string, c: char)
    requires StepBeginKey(k, pre, c) != Dead
    ensures StateText(StepBeginKey(k, pre, c)) == StackText(k) + pre + [c]
  {
    CatSnoc(StackText(k), pre, c);
    if c == '}' {
      var b := StackText(k.below) + k.pre;
      CatNil(PutValue(b, Obj(NoMembers, pre)));
      assert StackText(k) == b + ['{'];
      assert PutMembers(b + ['{'], NoMembers) == b + ['{'];
    }
  }

  lemma StepAfterKeyText(k: Stack, pre: string, key: seq<Piece>, post: string, c: char)
    requires StepAfterKey(k, pre, key, post, c) != Dead
    ensures StateText(StepAfterKey(k, pre, key, post, c)) == PutStr(StackText(k) + pre, key) + post + [c]
  {
    CatSnoc(PutStr(StackText(k) + pre, key), post, c);
    CatNil(PutStr(StackText(k) + pre, key) + post + [c]);
  }

  lemma StartText()
    ensures StateText(START) == ""
  {
  }

  lemma StepDead(c: char)
    ensures Step(Dead, c) == Dead
  {
  }

  lemma {:induction false} RunText(t: string)
    requires Run(START, t) != Dead
    ensures StateText(Run(START, t)) == t
  {
    StartText();
    hide Step, StateText;
    if t != "" {
      var n := |t| - 1;
      StepDead(t[n]);
      RunText(t[..n]);
      StepText(Run(START, t[..n]), t[n]);
      assert t[..n] + [t[n]] == t;
    }
  }

  // ---------- Well-formedness ----------

  predicate WFStack(k: Stack) {
    match k
    case Root => true
    case InArr(below, pre, items) =>
      WFStack(below) && AllWs(pre) && WFItems(items) && ItemsDepth(items) + Height(k) <= MAX_DEPTH
    case InObj(below, pre, mems) =>
      WFStack(below) && AllWs(pre) && WFMembers(mems) && MembersDepth(mems) + Height(k) <= MAX_DEPTH
    case InMem(below, pre, mems, preK, key, postK) =>
      && WFStack(below) && AllWs(pre) && WFMembers(mems) && MembersDepth(mems) + Height(k) <= MAX_DEPTH
      && AllWs(preK) && WFPieces(key) && AllWs(postK)
  }

  predicate WFMode(h: nat, m: Mode) {
    match m
    case BeginVal(pre) => AllWs(pre)
    case InWord(pre, w, n) => AllWs(pre)
    case InNum(pre, ns, t) => AllWs(pre) && NumScan(t) == Some(ns)
    case InStr(pre, ps) => AllWs(pre) && WFPieces(ps)
    case InEsc(pre, ps) => AllWs(pre) && WFPieces(ps)
    case InHex(pre, ps, hs) => AllWs(pre) && WFPieces(ps) && |hs| < 4 && forall i | 0 <= i < |hs| :: IsHexDigit(hs[i])
    case AfterVal(pre, v, post) => AllWs(pre) && WFValue(v) && AllWs(post) && Depth(v) + h <= MAX_DEPTH
    case BeginKey(pre) => AllWs(pre)
    case AfterKey(pre, key, post) => AllWs(pre) && WFPieces(key) && AllWs(post)
  }

  /** Every part of a scanner state is well formed. */
  predicate WFState(s: State) {
    s.St? ==> Height(s.k) <= MAX_DEPTH && WFStack(s.k) && WFMode(Height(s.k), s.m)
  }

  lemma StepWF(s: State, c: char)
    requires WFState(s)
    ensures WFState(Step(s, c))
  {
    if s.St? && Step(s, c) != Dead {
      match s.m
      case InNum(pre, ns, t) => StepNumWF(s.k, pre, ns, t, c);
      case AfterVal(pre, v, post) => StepAfterValWF(s.k, pre, v, post, c);
      case BeginVal(pre) => StepBeginValWF(s.k, pre, c);
      case InWord(_, _, _) => hide WFStack, WFPieces;
      case InStr(_, _) => hide WFStack;
      case InEsc(_, _) => hide WFStack;
      case InHex(_, _, _) => hide WFStack;
      case BeginKey(_) => hide WFPieces;
      case AfterKey(_, _, _) => hide WFPieces;
    }
  }

  lemma StepNumWF(k: Stack, pre: string, ns: NumState, t: string, c: char)
    requires WFState(St(k, InNum(pre, ns, t)))
    ensures WFState(StepNum(k, pre, ns, t, c))
  {
    if NumStep(ns, c).Some? {
      hide WFStack;
      assert (t + [c])[..|t|] == t;
    } else if NumDone(ns) {
      StepAfterValWF(k, pre, Num(t), "", c);
    }
  }

  lemma StepBeginValWF(k: Stack, pre: string, c: char)
    requires WFState(St(k, BeginVal(pre)))
    ensures WFState(StepBeginVal(k, pre, c))
  {
    hide NumStep;
    if c == '[' || c == '{' || c == ']' {
    } else {
      hide WFStack;
    }
  }

  lemma StepWsWF(k: Stack, pre: string, v: Value, post: string, c: char)
    requires WFState(St(k, AfterVal(pre, v, post))) && IsWs(c)
    ensures WFState(St(k, AfterVal(pre, v, post + [c])))
  {
  }

  lemma StepAfterValWF(k: Stack, pre: string, v: Value, post: string, c: char)
    requires WFState(St(k, AfterVal(pre, v, post)))
    ensures WFState(StepAfterVal(k, pre, v, post, c))
  {
    if IsWs(c) {
      StepWsWF(k, pre, v, post, c);
    }
  }

  lemma StartWF()
    ensures WFState(START)
  {
  }

  lemma {:induction false} RunWF(t: string)
    ensures WFState(Run(START, t))
  {
    StartWF();
    hide Step, WFState;
    if t != "" {
      RunWF(t[..|t| - 1]);
      StepWF(Run(START, t[..|t| - 1]), t[|t| - 1]);
    }
  }

  // ---------- Soundness ----------

  /** An accepted text is the print of a well-formed tree, the one the scanner built. */
  lemma ParseSound(t: string)
    requires Valid(t)
    ensures WFDoc(Parse(t).value) && DocText(Parse(t).value) == t
  {
    RunText(t);
    RunWF(t);
    var s := Run(START, t);
    CatNil(StateText(s));
    assert StackText(Root) == "";
    assert "" + s.m.pre == s.m.pre;
  }
}
