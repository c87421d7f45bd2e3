/**
  Config templates: substitution and the one-dummy validity check, and why one
  dummy word is enough for every value.
 */
module Templates {
  import opened Options
  import opened Json
  import opened JsonSound
  import opened JsonComplete
  import opened Order
  import opened Escape
  import opened Placeholders
  import opened Fill

  type Values = map<string, string>

  /** Each value as substitution writes it: escaped, without quotes. */
  function Escapes(values: Values): Filler {
    map n | n in values :: EscapePieces(values[n])
  }

  /** The template with every placeholder replaced by its escaped value. */
  function Subst(template: string, values: Values): string {
    Render(Tokens(template), Escapes(values))
  }

  /** The template's own syntax tree, with a Hole piece for every placeholder. */
  function TemplateDoc(template: string): Option<Doc> {
    Accept(RunTokens(Tokens(template)))
  }

  /** Each placeholder written back as itself. */
  function Verbatim(names: set<string>): Filler {
    map n | n in names :: RawPieces(HoleText(n))
  }

  function RawPieces(t: string): seq<Piece> {
    seq(|t|, i requires 0 <= i < |t| => Raw(t[i]))
  }

  /** The value the check gives every placeholder. */
  const DUMMY := "placeholder"

  function DummyValues(names: set<string>): Values {
    map n | n in names :: DUMMY
  }

  lemma EscapesCover(template: string, values: Values)
    requires Names(template) <= values.Keys
    ensures WFFiller(Escapes(values)) && Covers(Escapes(values), Tokens(template))
  {
    forall n | n in values ensures WFPieces(Escapes(values)[n]) {
      EscapePiecesWF(values[n]);
    }
    var ts := Tokens(template);
    forall i | 0 <= i < |ts| && ts[i].Mark? ensures ts[i].name in values {
      assert ts[i] in ts;
      assert ts[i].name in Names(template);
    }
  }

  // ---------- Every value ----------

  /** Substituting values into a template with a tree yields JSON with the same tree, its holes filled. */
  lemma SubstitutionParses(template: string, values: Values)
    requires TemplateDoc(template).Some? && Names(template) <= values.Keys
    ensures Parse(Subst(template, values)) == Some(FillDoc(TemplateDoc(template).value, Escapes(values)))
  {
    EscapesCover(template, values);
    Simulation(Tokens(template), Escapes(values));
    AcceptFill(RunTokens(Tokens(template)), Escapes(values));
  }

  lemma DummyIsPlain()
    ensures EscapeText(DUMMY) == DUMMY
  {
    EscapeTextPlain(DUMMY);
  }

  /** The dummy word yields JSON only for templates that have a tree. */
  lemma DummyDecides(template: string)
    ensures Valid(Subst(template, DummyValues(Names(template)))) <==> TemplateDoc(template).Some?
  {
    var values := DummyValues(Names(template));
    var g := Escapes(values);
    var ts := Tokens(template);
    EscapesCover(template, values);
    DummyIsPlain();
    if RunTokens(ts) == Dead {
      RejectionCarriesOver(ts, g);
    } else {
      Simulation(ts, g);
      AcceptFill(RunTokens(ts), g);
    }
  }

  /** The dummy check passes exactly when every covering value map yields JSON. */
  lemma OneDummyCoversAllValues(template: string)
    ensures Valid(Subst(template, DummyValues(Names(template)))) <==>
      forall values: Values | Names(template) <= values.Keys :: Valid(Subst(template, values))
  {
    DummyDecides(template);
    if TemplateDoc(template).Some? {
      forall values: Values | Names(template) <= values.Keys ensures Valid(Subst(template, values)) {
        SubstitutionParses(template, values);
      }
    } else {
      assert Names(template) <= DummyValues(Names(template)).Keys;
    }
  }

  // ---------- The template as plain JSON ----------

  lemma {:induction false} PutRawPieces(a: string, t: string)
    ensures PutPieces(a, RawPieces(t)) == a + t
  {
    if t != "" {
      var n := |t| - 1;
      assert RawPieces(t)[..n] == RawPieces(t[..n]);
      PutRawPieces(a, t[..n]);
      assert t == t[..n] + [t[n]];
      CatSnoc(a, t[..n], t[n]);
    } else {
      CatNil(a);
    }
  }

  lemma {:induction false} TokensTextSnoc(ts: seq<Token>, t: Token)
    ensures TokensText(ts + [t]) == TokensText(ts) + TokenText(t)
  {
    if ts == [] {
      assert [t][1..] == [];
    } else {
      assert (ts + [t])[1..] == ts[1..] + [t];
      TokensTextSnoc(ts[1..], t);
    }
  }

  lemma {:induction false} RenderVerbatim(ts: seq<Token>, names: set<string>)
    ensures Render(ts, Verbatim(names)) == TokensText(ts)
  {
    if ts != [] {
      var n := |ts| - 1;
      RenderVerbatim(ts[..n], names);
      TokensTextSnoc(ts[..n], ts[n]);
      assert ts == ts[..n] + [ts[n]];
      if ts[n].Mark? { PutRawPieces(TokensText(ts[..n]), HoleText(ts[n].name)); }
    }
  }

  /** Outside strings no scanner state survives two opening braces. */
  lemma NoBraces(s: State)
    requires s.St? ==> !s.m.InStr?
    ensures Step(Step(s, '{'), '{') == Dead
  {
    if s.St? {
      match s.m
      case InWord(_, w, n) =>
      case InNum(_, ns, _) =>
      case _ =>
    }
  }

  lemma {:induction false} VerbatimRejects(ts: seq<Token>, g: Filler)
    requires g == Verbatim(g.Keys) && WFFiller(g) && Covers(g, ts)
    requires RunTokens(ts) == Dead
    ensures Read(Render(ts, g)) == Dead
  {
    if ts != [] {
      var n := |ts| - 1;
      if RunTokens(ts[..n]) == Dead { VerbatimRejects(ts[..n], g); } else { Simulation(ts[..n], g); }
      VerbatimRejectionStep(Render(ts[..n], g), RunTokens(ts[..n]), ts[n], g);
    }
  }

  lemma VerbatimRejectionStep(a: string, s: State, t: Token, g: Filler)
    requires g == Verbatim(g.Keys) && (t.Mark? ==> t.name in g)
    requires Read(a) == FillState(s, g) && StepToken(s, t) == Dead
    ensures Read(PutToken(a, t, g)) == Dead
  {
    match t
    case Ch(c) =>
      ReadSnoc(a, c);
      StepFill(s, c, g);
    case Mark(name) =>
      PutRawPieces(a, HoleText(name));
      assert a + HoleText(name) == (a + ['{'] + ['{']) + (name + "}}");
      RunAppend(START, a + ['{'] + ['{'], name + "}}");
      ReadSnoc(a, '{');
      ReadSnoc(a + ['{'], '{');
      NoBraces(Read(a));
      RunDead(name + "}}");
  }

  lemma NameIsPlain(name: string)
    requires IsName(name)
    ensures WFPieces(RawPieces(HoleText(name)))
  {
    var h := HoleText(name);
    forall i | 0 <= i < |h| ensures IsPlain(h[i]) {
      assert h[i] == '{' || h[i] == '}' || h[i] in name;
    }
  }

  lemma MarksAreNames(template: string, i: nat)
    requires i < |Tokens(template)| && Tokens(template)[i].Mark?
    ensures IsName(Tokens(template)[i].name) && Tokens(template)[i].name in Names(template)
  {
    TokensIsCut(template);
    assert Tokens(template)[i] in Tokens(template);
  }

  lemma VerbatimCovers(template: string)
    ensures WFFiller(Verbatim(Names(template))) && Covers(Verbatim(Names(template)), Tokens(template))
  {
    var ts := Tokens(template);
    forall n | n in Names(template) ensures WFPieces(RawPieces(HoleText(n))) {
      var i :| 0 <= i < |ts| && ts[i] == Mark(n);
      MarksAreNames(template, i);
      NameIsPlain(n);
    }
    forall i | 0 <= i < |ts| && ts[i].Mark? ensures ts[i].name in Names(template) {
      MarksAreNames(template, i);
    }
  }

  /**
    A template has a tree exactly when it is JSON as it stands, placeholders
    read as ordinary text; its plain tree is the template's tree with every
    hole spelled out.
   */
  lemma TemplateIsJson(template: string)
    ensures TemplateDoc(template).Some? <==> Valid(template)
    ensures Valid(template) ==> Parse(template) == Some(FillDoc(TemplateDoc(template).value, Verbatim(Names(template))))
  {
    var g := Verbatim(Names(template));
    var ts := Tokens(template);
    VerbatimCovers(template);
    RenderVerbatim(ts, Names(template));
    TokensLossless(template);
    if RunTokens(ts) == Dead {
      assert g.Keys == Names(template);
      VerbatimRejects(ts, g);
    } else {
      Simulation(ts, g);
      AcceptFill(RunTokens(ts), g);
    }
  }

  // ---------- The operations ----------

  /** Replaces every placeholder by its escaped value, or lists the names that have no value. */
  method SubstitutePlaceholders(template: string, values: Values) returns (r: Result<string, seq<string>>)
    ensures r.Ok? <==> Names(template) <= values.Keys
    ensures r.Ok? ==> r.value == Subst(template, values)
    ensures r.Err? ==> StrictlySorted(r.error) && forall n :: n in r.error <==> n in Names(template) && n !in values
  {
    var placeholders := ExtractPlaceholders(template);
    var missing := [];
    for i := 0 to |placeholders|
      invariant StrictlySorted(missing)
      invariant forall n :: n in missing <==> n in placeholders[..i] && n !in values
    {
      var name := placeholders[i];
      assert placeholders[..i + 1] == placeholders[..i] + [name];
      if name !in values {
        forall k | 0 <= k < |missing| ensures Less(missing[k], name) {
          assert missing[k] in missing;
        }
        missing := missing + [name];
      }
    }
    assert placeholders[..|placeholders|] == placeholders;
    if |missing| > 0 {
      assert missing[0] in missing;
      return Err(missing);
    }
    EscapesCover(template, values);
    var ts := Tokens(template);
    var result := "";
    for i := 0 to |ts|
      invariant result == Render(ts[..i], Escapes(values))
    {
      assert ts[..i + 1][..i] == ts[..i];
      match ts[i] {
        case Ch(c) => result := result + [c];
        case Mark(name) =>
          PutPiecesCat(result, EscapePieces(values[name]));
          result := result + EscapeText(values[name]);
      }
    }
    assert ts[..|ts|] == ts;
    r := Ok(result);
  }

  datatype TemplateError = SubstitutionFailed(missing: seq<string>) | NotJson

  /** Reports no error exactly for plain texts and for templates that yield JSON for every covering value map. */
  method ValidateTemplate(template: string) returns (err: Option<TemplateError>)
    ensures err == None || err == Some(NotJson)
    ensures err == None <==>
      (Names(template) == {} ||
       forall values: Values | Names(template) <= values.Keys :: Valid(Subst(template, values)))
    ensures err == None <==> (Names(template) == {} || Valid(template))
  {
    var placeholders := ExtractPlaceholders(template);
    if |placeholders| == 0 {
      return None;
    }
    assert placeholders[0] in Names(template);
    var dummy: Values := map[];
    for i := 0 to |placeholders|
      invariant dummy == DummyValues(set n | n in placeholders[..i])
    {
      assert placeholders[..i + 1] == placeholders[..i] + [placeholders[i]];
      dummy := dummy[placeholders[i] := "placeholder"];
    }
    assert placeholders[..|placeholders|] == placeholders;
    assert dummy == DummyValues(Names(template));
    OneDummyCoversAllValues(template);
    DummyDecides(template);
    TemplateIsJson(template);
    var result := SubstitutePlaceholders(template, dummy);
    match result {
      case Err(missing) => return Some(SubstitutionFailed(missing));
      case Ok(text) => return if Valid(text) then None else Some(NotJson);
    }
  }
}
