/**
  JSON texts (RFC 8259) as a character-by-character pushdown scanner.

  The scanner builds a lossless syntax tree: whitespace, escape spellings and
  number spellings are kept, so that DocText gives back the very text that was
  read.  The same scanner also reads template tokens; a placeholder is a Hole
  piece and is accepted only inside a string.

  Arrays, objects and the scanner's stack are lists that grow at the end,
  because that is how the scanner grows them.
 */
module Json {
  import opened Options

  /** Nesting deeper than this is rejected, as Go's encoding/json does (RFC 8259, section 9 allows a limit). */
  const MAX_DEPTH: nat := 10000

  // ---------- Characters ----------

  predicate IsWs(c: char) {
    c == ' ' || c == '\t' || c == '\n' || c == '\r'
  }

  predicate AllWs(s: string) {
    forall i | 0 <= i < |s| :: IsWs(s[i])
  }

  predicate IsDigit(c: char) {
    '0' <= c <= '9'
  }

  predicate IsHexDigit(c: char) {
    IsDigit(c) || 'a' <= c <= 'f' || 'A' <= c <= 'F'
  }

  predicate IsEscapeLetter(c: char) {
    c == '"' || c == '\\' || c == '/' || c == 'b' || c == 'f' || c == 'n' || c == 'r' || c == 't'
  }

  /** Characters a string may hold unescaped (RFC 8259, section 7). */
  predicate IsPlain(c: char) {
    c != '"' && c != '\\' && c >= ' '
  }

  // ---------- Syntax trees ----------

  /** One unit of a string literal: a raw character, a two-character escape, a \uXXXX escape, or a template hole. */
  datatype Piece = Raw(c: char) | Esc(letter: char) | Hex(digits: string) | Hole(name: string)

  datatype Word = True | False | Null

  datatype Value =
    | Literal(w: Word)
    | Num(text: string)
    | Str(ps: seq<Piece>)
    | Arr(items: Items, gap: string)
    | Obj(mems: Members, gap: string)

  datatype Items = NoItems | Item(init: Items, pre: string, v: Value, post: string)

  datatype Members =
    | NoMembers
    | Member(init: Members, preK: string, key: seq<Piece>, postK: string, preV: string, v: Value, postV: string)

  datatype Doc = Doc(pre: string, v: Value, post: string)

  // ---------- Printing ----------
  // Every Put function appends to the text a, as a writer appends to its buffer.

  function PutPiece(a: string, p: Piece): string {
    match p
    case Raw(c) => a + [c]
    case Esc(l) => a + ['\\'] + [l]
    case Hex(h) => a + ['\\'] + ['u'] + h
    case Hole(name) => a + HoleText(name)
  }

  /** How a placeholder is written in a template. */
  function HoleText(name: string): string {
    "{{" + name + "}}"
  }

  function PutPieces(a: string, ps: seq<Piece>): string {
    if ps == [] then a else PutPiece(PutPieces(a, ps[..|ps| - 1]), ps[|ps| - 1])
  }

  function PutStr(a: string, ps: seq<Piece>): string {
    PutPieces(a + ['"'], ps) + ['"']
  }

  function WordText(w: Word): string {
    match w
    case True => "true"
    case False => "false"
    case Null => "null"
  }

  function PutValue(a: string, v: Value): string
    decreases v, 0
  {
    match v
    case Literal(w) => a + WordText(w)
    case Num(t) => a + t
    case Str(ps) => PutStr(a, ps)
    case Arr(items, gap) => PutItems(a + ['['], items) + gap + [']']
    case Obj(mems, gap) => PutMembers(a + ['{'], mems) + gap + ['}']
  }

  function PutItems(a: string, items: Items): string
    decreases items, 0
  {
    match items
    case NoItems => a
    case Item(init, pre, v, post) => PutValue(PutItemsLead(a, init) + pre, v) + post
  }

  /** The items so far and the comma a further item needs. */
  function PutItemsLead(a: string, items: Items): string
    decreases items, 1
  {
    if items.NoItems? then a else PutItems(a, items) + [',']
  }

  function PutMembers(a: string, mems: Members): string
    decreases mems, 0
  {
    match mems
    case NoMembers => a
    case Member(init, preK, key, postK, preV, v, postV) =>
      PutValue(PutName(PutMembersLead(a, init), preK, key, postK) + preV, v) + postV
  }

  function PutName(a: string, pre: string, key: seq<Piece>, post: string): string {
    PutStr(a + pre, key) + post + [':']
  }

  function PutMembersLead(a: string, mems: Members): string
    decreases mems, 1
  {
    if mems.NoMembers? then a else PutMembers(a, mems) + [',']
  }

  function DocText(d: Doc): string {
    PutValue(d.pre, d.v) + d.post
  }

  // ---------- Well-formed trees ----------

  /** The number automaton of RFC 8259, section 6. */
  datatype NumState = Minus | Zero | Int | Dot | Frac | E | ESign | Exp

  function NumStart(c: char): Option<NumState> {
    if c == '-' then Some(Minus)
    else if c == '0' then Some(Zero)
    else if IsDigit(c) then Some(Int)
    else None
  }

  function NumStep(n: NumState, c: char): Option<NumState> {
    match n
    case Minus => if c == '0' then Some(Zero) else if IsDigit(c) then Some(Int) else None
    case Zero => if c == '.' then Some(Dot) else if c == 'e' || c == 'E' then Some(E) else None
    case Int =>
      if IsDigit(c) then Some(Int)
      else if c == '.' then Some(Dot) else if c == 'e' || c == 'E' then Some(E) else None
    case Dot => if IsDigit(c) then Some(Frac) else None
    case Frac => if IsDigit(c) then Some(Frac) else if c == 'e' || c == 'E' then Some(E) else None
    case E => if IsDigit(c) then Some(Exp) else if c == '+' || c == '-' then Some(ESign) else None
    case ESign => if IsDigit(c) then Some(Exp) else None
    case Exp => if IsDigit(c) then Some(Exp) else None
  }

  predicate NumDone(n: NumState) {
    n.Zero? || n.Int? || n.Frac? || n.Exp?
  }

  /** The automaton's state after all of t, if it survives. */
  function NumScan(t: string): Option<NumState> {
    if t == "" then None
    else if |t| == 1 then NumStart(t[0])
    else
      match NumScan(t[..|t| - 1])
      case None => None
      case Some(n) => NumStep(n, t[|t| - 1])
  }

  predicate WFPiece(p: Piece) {
    match p
    case Raw(c) => IsPlain(c)
    case Esc(l) => IsEscapeLetter(l)
    case Hex(h) => |h| == 4 && forall i | 0 <= i < 4 :: IsHexDigit(h[i])
    case Hole(_) => false
  }

  predicate WFPieces(ps: seq<Piece>) {
    forall i | 0 <= i < |ps| :: WFPiece(ps[i])
  }

  predicate WFValue(v: Value) {
    match v
    case Literal(_) => true
    case Num(t) => NumScan(t).Some? && NumDone(NumScan(t).value)
    case Str(ps) => WFPieces(ps)
    case Arr(items, gap) => WFItems(items) && AllWs(gap) && (items.NoItems? || gap == "")
    case Obj(mems, gap) => WFMembers(mems) && AllWs(gap) && (mems.NoMembers? || gap == "")
  }

  predicate WFItems(items: Items) {
    match items
    case NoItems => true
    case Item(init, pre, v, post) => WFItems(init) && AllWs(pre) && WFValue(v) && AllWs(post)
  }

  predicate WFMembers(mems: Members) {
    match mems
    case NoMembers => true
    case Member(init, preK, key, postK, preV, v, postV) =>
      WFMembers(init) && AllWs(preK) && WFPieces(key) && AllWs(postK) && AllWs(preV) && WFValue(v) && AllWs(postV)
  }

  function Max(a: nat, b: nat): nat {
    if a < b then b else a
  }

  /** How many arrays and objects nest inside each other. */
  function Depth(v: Value): nat {
    match v
    case Literal(_) => 0
    case Num(_) => 0
    case Str(_) => 0
    case Arr(items, _) => 1 + ItemsDepth(items)
    case Obj(mems, _) => 1 + MembersDepth(mems)
  }

  function ItemsDepth(items: Items): nat {
    match items
    case NoItems => 0
    case Item(init, _, v, _) => Max(ItemsDepth(init), Depth(v))
  }

  function MembersDepth(mems: Members): nat {
    match mems
    case NoMembers => 0
    case Member(init, _, _, _, _, v, _) => Max(MembersDepth(init), Depth(v))
  }

  predicate WFDoc(d: Doc) {
    AllWs(d.pre) && WFValue(d.v) && AllWs(d.post) && Depth(d.v) <= MAX_DEPTH
  }

  // ---------- The scanner ----------

  /** The open arrays and objects around the scanner's position, innermost last, with what each holds so far. */
  datatype Stack =
    | Root
    | InArr(below: Stack, pre: string, items: Items)
    | InObj(below: Stack, pre: string, mems: Members)
    | InMem(below: Stack, pre: string, mems: Members, preK: string, key: seq<Piece>, postK: string)

  function Height(k: Stack): nat {
    if k.Root? then 0 else 1 + Height(k.below)
  }

  datatype Mode =
    | BeginVal(pre: string)
    | InWord(pre: string, w: Word, n: nat)
    | InNum(pre: string, ns: NumState, t: string)
    | InStr(pre: string, ps: seq<Piece>)
    | InEsc(pre: string, ps: seq<Piece>)
    | InHex(pre: string, ps: seq<Piece>, h: string)
    | AfterVal(pre: string, v: Value, post: string)
    | BeginKey(pre: string)
    | AfterKey(pre: string, key: seq<Piece>, post: string)

  datatype State = Dead | St(k: Stack, m: Mode)

  const START := St(Root, BeginVal(""))

  function StepBeginVal(k: Stack, pre: string, c: char): State {
    if IsWs(c) then St(k, BeginVal(pre + [c]))
    else if c == '"' then St(k, InStr(pre, []))
    else if NumStart(c).Some? then St(k, InNum(pre, NumStart(c).value, [c]))
    else if c == 't' then St(k, InWord(pre, True, 1))
    else if c == 'f' then St(k, InWord(pre, False, 1))
    else if c == 'n' then St(k, InWord(pre, Null, 1))
    else if c == '[' && Height(k) < MAX_DEPTH then St(InArr(k, pre, NoItems), BeginVal(""))
    else if c == '{' && Height(k) < MAX_DEPTH then St(InObj(k, pre, NoMembers), BeginKey(""))
    else if c == ']' && k.InArr? && k.items.NoItems? then St(k.below, AfterVal(k.pre, Arr(NoItems, pre), ""))
    else Dead
  }

  function StepWord(k: Stack, pre: string, w: Word, n: nat, c: char): State {
    if n < |WordText(w)| && c == WordText(w)[n] then
      if n + 1 == |WordText(w)| then St(k, AfterVal(pre, Literal(w), ""))
      else St(k, InWord(pre, w, n + 1))
    else Dead
  }

  function StepAfterVal(k: Stack, pre: string, v: Value, post: string, c: char): State {
    if IsWs(c) then St(k, AfterVal(pre, v, post + [c]))
    else
      match k
      case InArr(below, p, items) =>
        if c == ',' then St(InArr(below, p, Item(items, pre, v, post)), BeginVal(""))
        else if c == ']' then St(below, AfterVal(p, Arr(Item(items, pre, v, post), ""), ""))
        else Dead
      case InMem(below, p, mems, pk, key, qk) =>
        if c == ',' then St(InObj(below, p, Member(mems, pk, key, qk, pre, v, post)), BeginKey(""))
        else if c == '}' then St(below, AfterVal(p, Obj(Member(mems, pk, key, qk, pre, v, post), ""), ""))
        else Dead
      case _ => Dead
  }

  function StepNum(k: Stack, pre: string, ns: NumState, t: string, c: char): State {
    if NumStep(ns, c).Some? then St(k, InNum(pre, NumStep(ns, c).value, t + [c]))
    else if NumDone(ns) then StepAfterVal(k, pre, Num(t), "", c)
    else Dead
  }

  function StepStr(k: Stack, pre: string, ps: seq<Piece>, c: char): State {
    if c == '"' then St(k, if k.InObj? then AfterKey(pre, ps, "") else AfterVal(pre, Str(ps), ""))
    else if c == '\\' then St(k, InEsc(pre, ps))
    else if IsPlain(c) then St(k, InStr(pre, ps + [Raw(c)]))
    else Dead
  }

  function StepEsc(k: Stack, pre: string, ps: seq<Piece>, c: char): State {
    if c == 'u' then St(k, InHex(pre, ps, ""))
    else if IsEscapeLetter(c) then St(k, InStr(pre, ps + [Esc(c)]))
    else Dead
  }

  function StepHex(k: Stack, pre: string, ps: seq<Piece>, h: string, c: char): State {
    if !IsHexDigit(c) then Dead
    else if |h| == 3 then St(k, InStr(pre, ps + [Hex(h + [c])]))
    else St(k, InHex(pre, ps, h + [c]))
  }

  function StepBeginKey(k: Stack, pre: string, c: char): State {
    if IsWs(c) then St(k, BeginKey(pre + [c]))
    else if c == '"' && k.InObj? then St(k, InStr(pre, []))
    else if c == '}' && k.InObj? && k.mems.NoMembers? then St(k.below, AfterVal(k.pre, Obj(NoMembers, pre), ""))
    else Dead
  }

  function StepAfterKey(k: Stack, pre: string, key: seq<Piece>, post: string, c: char): State {
    if IsWs(c) then St(k, AfterKey(pre, key, post + [c]))
    else if c == ':' && k.InObj? then St(InMem(k.below, k.pre, k.mems, pre, key, post), BeginVal(""))
    else Dead
  }

  function Step(s: State, c: char): State {
    match s
    case Dead => Dead
    case St(k, m) =>
      match m
      case BeginVal(pre) => StepBeginVal(k, pre, c)
      case InWord(pre, w, n) => StepWord(k, pre, w, n, c)
      case InNum(pre, ns, t) => StepNum(k, pre, ns, t, c)
      case InStr(pre, ps) => StepStr(k, pre, ps, c)
      case InEsc(pre, ps) => StepEsc(k, pre, ps, c)
      case InHex(pre, ps, h) => StepHex(k, pre, ps, h, c)
      case AfterVal(pre, v, post) => StepAfterVal(k, pre, v, post, c)
      case BeginKey(pre) => StepBeginKey(k, pre, c)
      case AfterKey(pre, key, post) => StepAfterKey(k, pre, key, post, c)
  }

  function Run(s: State, t: string): State {
    if t == "" then s else Step(Run(s, t[..|t| - 1]), t[|t| - 1])
  }

  /** A number ends only when something else follows; Settle ends it. */
  function Settle(s: State): State {
    if s.St? && s.m.InNum? && NumDone(s.m.ns) then St(s.k, AfterVal(s.m.pre, Num(s.m.t), "")) else s
  }

  function Accept(s: State): Option<Doc> {
    var e := Settle(s);
    if e.St? && e.k.Root? && e.m.AfterVal? then Some(Doc(e.m.pre, e.m.v, e.m.post)) else None
  }

  /** The syntax tree of a JSON text, or None when the text is not JSON. */
  function Parse(t: string): Option<Doc> {
    Accept(Run(START, t))
  }

  predicate Valid(t: string) {
    Parse(t).Some?
  }

  lemma RunSnoc(s: State, t: string, c: char)
    ensures Run(s, t + [c]) == Step(Run(s, t), c)
  {
    assert (t + [c])[..|t|] == t;
  }

  lemma {:induction false} RunAppend(s: State, a: string, b: string)
    ensures Run(s, a + b) == Run(Run(s, a), b)
  {
    if b == "" {
      assert a + b == a;
    } else {
      var n := |b| - 1;
      assert (a + b)[..|a + b| - 1] == a + b[..n];
      RunAppend(s, a, b[..n]);
    }
  }

  lemma {:induction false} RunDead(t: string)
    ensures Run(Dead, t) == Dead
  {
    if t != "" { RunDead(t[..|t| - 1]); }
  }
}
