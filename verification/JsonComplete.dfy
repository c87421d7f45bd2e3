/**
  The scanner accepts the print of every well-formed tree and rebuilds that
  tree.  With JsonSound this makes Parse the inverse of DocText.
 */
module JsonComplete {
  import opened Options
  import opened Json
  import opened JsonSound

  /** The scanner's state after reading t from the start. */
  function Read(t: string): State {
    Run(START, t)
  }

  lemma ReadSnoc(t: string, c: char)
    ensures Read(t + [c]) == Step(Read(t), c)
  {
    RunSnoc(START, t, c);
  }

  lemma ReadNil(t: string)
    ensures t + "" == t
  {
  }

  /** Whitespace, commas and closing brackets end a number. */
  lemma StepSettle(s: State, c: char)
    requires IsWs(c) || c == ',' || c == ']' || c == '}'
    requires s.St? && Settle(s).m.AfterVal?
    ensures Step(s, c) == Step(Settle(s), c)
  {
  }

  lemma {:induction false} ReadWsAfterVal(a: string, k: Stack, pre: string, v: Value, ws: string)
    requires Settle(Read(a)) == St(k, AfterVal(pre, v, "")) && AllWs(ws)
    ensures Settle(Read(a + ws)) == St(k, AfterVal(pre, v, ws))
  {
    hide Run, Read;
    if ws == "" {
      ReadNil(a);
    } else {
      var n := |ws| - 1;
      ReadWsAfterVal(a, k, pre, v, ws[..n]);
      assert ws == ws[..n] + [ws[n]];
      CatSnoc(a, ws[..n], ws[n]);
      ReadSnoc(a + ws[..n], ws[n]);
      StepSettle(Read(a + ws[..n]), ws[n]);
    }
  }

  lemma {:induction false} ReadWsBeginVal(a: string, k: Stack, ws: string)
    requires Read(a) == St(k, BeginVal("")) && AllWs(ws)
    ensures Read(a + ws) == St(k, BeginVal(ws))
  {
    hide Run, Read;
    if ws == "" {
      ReadNil(a);
    } else {
      var n := |ws| - 1;
      ReadWsBeginVal(a, k, ws[..n]);
      assert ws == ws[..n] + [ws[n]];
      CatSnoc(a, ws[..n], ws[n]);
      ReadSnoc(a + ws[..n], ws[n]);
    }
  }

  lemma {:induction false} ReadWsBeginKey(a: string, k: Stack, ws: string)
    requires Read(a) == St(k, BeginKey("")) && AllWs(ws)
    ensures Read(a + ws) == St(k, BeginKey(ws))
  {
    hide Run, Read;
    if ws == "" {
      ReadNil(a);
    } else {
      var n := |ws| - 1;
      ReadWsBeginKey(a, k, ws[..n]);
      assert ws == ws[..n] + [ws[n]];
      CatSnoc(a, ws[..n], ws[n]);
      ReadSnoc(a + ws[..n], ws[n]);
    }
  }

  lemma {:induction false} ReadWsAfterKey(a: string, k: Stack, pre: string, key: seq<Piece>, ws: string)
    requires Read(a) == St(k, AfterKey(pre, key, "")) && AllWs(ws)
    ensures Read(a + ws) == St(k, AfterKey(pre, key, ws))
  {
    hide Run, Read;
    if ws == "" {
      ReadNil(a);
    } else {
      var n := |ws| - 1;
      ReadWsAfterKey(a, k, pre, key, ws[..n]);
      assert ws == ws[..n] + [ws[n]];
      CatSnoc(a, ws[..n], ws[n]);
      ReadSnoc(a + ws[..n], ws[n]);
    }
  }

  // ---------- Literals, numbers, strings ----------

  lemma {:induction false} ReadWord(a: string, k: Stack, pre: string, w: Word, n: nat)
    requires Read(a) == St(k, BeginVal(pre)) && 1 <= n <= |WordText(w)|
    ensures Read(a + WordText(w)[..n]) ==
      St(k, if n == |WordText(w)| then AfterVal(pre, Literal(w), "") else InWord(pre, w, n))
    decreases n
  {
    hide Run, Read;
    var t := WordText(w);
    assert t[..n] == t[..n - 1] + [t[n - 1]];
    CatSnoc(a, t[..n - 1], t[n - 1]);
    ReadSnoc(a + t[..n - 1], t[n - 1]);
    if n == 1 {
      ReadNil(a);
      assert a + t[..0] == a;
    } else {
      ReadWord(a, k, pre, w, n - 1);
    }
  }

  lemma {:induction false} ReadNum(a: string, k: Stack, pre: string, t: string)
    requires Read(a) == St(k, BeginVal(pre)) && NumScan(t).Some?
    ensures Read(a + t) == St(k, InNum(pre, NumScan(t).value, t))
  {
    hide Run, Read;
    var n := |t| - 1;
    assert t == t[..n] + [t[n]];
    CatSnoc(a, t[..n], t[n]);
    ReadSnoc(a + t[..n], t[n]);
    if n == 0 {
      assert a + t[..0] == a && t == [t[0]];
      FirstOfNumber(k, pre, t[0]);
    } else {
      ReadNum(a, k, pre, t[..n]);
    }
  }

  lemma FirstOfNumber(k: Stack, pre: string, c: char)
    requires NumStart(c).Some?
    ensures Step(St(k, BeginVal(pre)), c) == St(k, InNum(pre, NumStart(c).value, [c]))
  {
    assert !IsWs(c) && c != '"';
  }

  lemma {:induction false} ReadHex(a: string, k: Stack, pre: string, ps: seq<Piece>, h: string, n: nat)
    requires Read(a) == St(k, InHex(pre, ps, "")) && WFPiece(Hex(h)) && n <= 4
    ensures Read(a + h[..n]) == St(k, if n == 4 then InStr(pre, ps + [Hex(h)]) else InHex(pre, ps, h[..n]))
    decreases n
  {
    hide Run, Read;
    if n == 0 {
      assert a + h[..0] == a;
    } else {
      ReadHex(a, k, pre, ps, h, n - 1);
      assert h[..n] == h[..n - 1] + [h[n - 1]];
      CatSnoc(a, h[..n - 1], h[n - 1]);
      ReadSnoc(a + h[..n - 1], h[n - 1]);
      assert n == 4 ==> h[..n] == h;
    }
  }

  lemma ReadPiece(a: string, k: Stack, pre: string, ps: seq<Piece>, p: Piece)
    requires Read(a) == St(k, InStr(pre, ps)) && WFPiece(p)
    ensures Read(PutPiece(a, p)) == St(k, InStr(pre, ps + [p]))
  {
    hide Run, Read;
    match p
    case Raw(c) => ReadSnoc(a, c);
    case Esc(l) => ReadSnoc(a, '\\'); ReadSnoc(a + ['\\'], l);
    case Hex(h) =>
      ReadSnoc(a, '\\');
      ReadSnoc(a + ['\\'], 'u');
      ReadHex(a + ['\\'] + ['u'], k, pre, ps, h, 4);
      assert h[..4] == h;
  }

  lemma {:induction false} ReadPieces(a: string, k: Stack, pre: string, ps0: seq<Piece>, ps: seq<Piece>)
    requires Read(a) == St(k, InStr(pre, ps0)) && WFPieces(ps)
    ensures Read(PutPieces(a, ps)) == St(k, InStr(pre, ps0 + ps))
  {
    hide Run, Read;
    if ps == [] {
      assert ps0 + ps == ps0;
    } else {
      var n := |ps| - 1;
      ReadPieces(a, k, pre, ps0, ps[..n]);
      ReadPiece(PutPieces(a, ps[..n]), k, pre, ps0 + ps[..n], ps[n]);
      assert ps0 + ps[..n] + [ps[n]] == ps0 + ps;
    }
  }

  lemma ReadStr(a: string, k: Stack, pre: string, ps: seq<Piece>)
    requires Read(a) == St(k, BeginVal(pre)) || (Read(a) == St(k, BeginKey(pre)) && k.InObj?)
    requires WFPieces(ps)
    ensures Read(PutStr(a, ps)) == St(k, if k.InObj? then AfterKey(pre, ps, "") else AfterVal(pre, Str(ps), ""))
  {
    hide Run, Read;
    ReadSnoc(a, '"');
    ReadPieces(a + ['"'], k, pre, [], ps);
    assert [] + ps == ps;
    ReadSnoc(PutPieces(a + ['"'], ps), '"');
  }

  // ---------- Values ----------

  lemma {:induction false} ReadValue(a: string, k: Stack, pre: string, v: Value)
    requires Read(a) == St(k, BeginVal(pre)) && !k.InObj?
    requires WFValue(v) && Depth(v) + Height(k) <= MAX_DEPTH
    ensures Settle(Read(PutValue(a, v))) == St(k, AfterVal(pre, v, ""))
    decreases v, 0
  {
    hide Run, Read;
    match v
    case Literal(w) =>
      ReadWord(a, k, pre, w, |WordText(w)|);
      assert WordText(w)[..|WordText(w)|] == WordText(w);
    case Num(t) => ReadNum(a, k, pre, t);
    case Str(ps) => ReadStr(a, k, pre, ps);
    case Arr(items, gap) => ReadArr(a, k, pre, items, gap);
    case Obj(mems, gap) => ReadObj(a, k, pre, mems, gap);
  }

  lemma {:induction false} ReadArr(a: string, k: Stack, pre: string, items: Items, gap: string)
    requires Read(a) == St(k, BeginVal(pre)) && !k.InObj?
    requires WFValue(Arr(items, gap)) && Depth(Arr(items, gap)) + Height(k) <= MAX_DEPTH
    ensures Settle(Read(PutValue(a, Arr(items, gap)))) == St(k, AfterVal(pre, Arr(items, gap), ""))
    decreases items, 2
  {
    hide Run, Read;
    ReadSnoc(a, '[');
    var b := a + ['['];
    if items.NoItems? {
      ReadWsBeginVal(b, InArr(k, pre, NoItems), gap);
      ReadSnoc(b + gap, ']');
    } else {
      ReadItems(b, k, pre, items);
      ReadNil(PutItems(b, items));
      StepSettle(Read(PutItems(b, items)), ']');
      ReadSnoc(PutItems(b, items), ']');
    }
  }

  lemma {:induction false} ReadItems(a: string, k: Stack, p: string, items: Items)
    requires Read(a) == St(InArr(k, p, NoItems), BeginVal("")) && items.Item?
    requires WFItems(items) && ItemsDepth(items) + Height(k) + 1 <= MAX_DEPTH
    ensures Settle(Read(PutItems(a, items))) == St(InArr(k, p, items.init), AfterVal(items.pre, items.v, items.post))
    decreases items, 1
  {
    hide Run, Read;
    var Item(init, pre, v, post) := items;
    var b := PutItemsLead(a, init);
    if init.Item? {
      ReadItems(a, k, p, init);
      StepSettle(Read(PutItems(a, init)), ',');
      ReadSnoc(PutItems(a, init), ',');
    }
    ReadWsBeginVal(b, InArr(k, p, init), pre);
    ReadValue(b + pre, InArr(k, p, init), pre, v);
    ReadWsAfterVal(PutValue(b + pre, v), InArr(k, p, init), pre, v, post);
  }

  lemma {:induction false} ReadObj(a: string, k: Stack, pre: string, mems: Members, gap: string)
    requires Read(a) == St(k, BeginVal(pre)) && !k.InObj?
    requires WFValue(Obj(mems, gap)) && Depth(Obj(mems, gap)) + Height(k) <= MAX_DEPTH
    ensures Settle(Read(PutValue(a, Obj(mems, gap)))) == St(k, AfterVal(pre, Obj(mems, gap), ""))
    decreases mems, 2
  {
    hide Run, Read;
    ReadSnoc(a, '{');
    var b := a + ['{'];
    if mems.NoMembers? {
      ReadWsBeginKey(b, InObj(k, pre, NoMembers), gap);
      ReadSnoc(b + gap, '}');
    } else {
      ReadMembers(b, k, pre, mems);
      ReadNil(PutMembers(b, mems));
      StepSettle(Read(PutMembers(b, mems)), '}');
      ReadSnoc(PutMembers(b, mems), '}');
    }
  }

  /** A member's name and colon. */
  lemma ReadName(a: string, k: Stack, preK: string, key: seq<Piece>, postK: string)
    requires Read(a) == St(k, BeginKey("")) && k.InObj?
    requires AllWs(preK) && WFPieces(key) && AllWs(postK)
    ensures Read(PutName(a, preK, key, postK)) == St(InMem(k.below, k.pre, k.mems, preK, key, postK), BeginVal(""))
  {
    hide Run, Read;
    ReadWsBeginKey(a, k, preK);
    ReadStr(a + preK, k, preK, key);
    ReadWsAfterKey(PutStr(a + preK, key), k, preK, key, postK);
    ReadSnoc(PutStr(a + preK, key) + postK, ':');
  }

  lemma {:induction false} ReadMembers(a: string, k: Stack, p: string, mems: Members)
    requires Read(a) == St(InObj(k, p, NoMembers), BeginKey("")) && mems.Member?
    requires WFMembers(mems) && MembersDepth(mems) + Height(k) + 1 <= MAX_DEPTH
    ensures Settle(Read(PutMembers(a, mems))) ==
      St(InMem(k, p, mems.init, mems.preK, mems.key, mems.postK), AfterVal(mems.preV, mems.v, mems.postV))
    decreases mems, 1
  {
    hide Run, Read;
    var Member(init, preK, key, postK, preV, v, postV) := mems;
    var b := PutMembersLead(a, init);
    if init.Member? {
      ReadMembers(a, k, p, init);
      StepSettle(Read(PutMembers(a, init)), ',');
      ReadSnoc(PutMembers(a, init), ',');
    }
    ReadName(b, InObj(k, p, init), preK, key, postK);
    var c := PutName(b, preK, key, postK);
    var kv := InMem(k, p, init, preK, key, postK);
    ReadWsBeginVal(c, kv, preV);
    ReadValue(c + preV, kv, preV, v);
    ReadWsAfterVal(PutValue(c + preV, v), kv, preV, v, postV);
  }

  // ---------- The grammar ----------

  /** Every well-formed tree is what its own print parses to. */
  lemma ParseComplete(d: Doc)
    requires WFDoc(d)
    ensures Parse(DocText(d)) == Some(d)
  {
    assert Read("") == St(Root, BeginVal(""));
    ReadWsBeginVal("", Root, d.pre);
    assert "" + d.pre == d.pre;
    ReadValue(d.pre, Root, d.pre, d.v);
    ReadWsAfterVal(PutValue(d.pre, d.v), Root, d.pre, d.v, d.post);
  }

  /** The scanner accepts exactly the language of the grammar, and the grammar is unambiguous. */
  lemma ValidIffGrammar(t: string)
    ensures Valid(t) <==> exists d :: WFDoc(d) && DocText(d) == t
    ensures forall d, e | WFDoc(d) && DocText(d) == t && WFDoc(e) && DocText(e) == t :: d == e
  {
    if Valid(t) {
      ParseSound(t);
    }
    forall d | WFDoc(d) && DocText(d) == t ensures Parse(t) == Some(d) {
      ParseComplete(d);
    }
  }
}
