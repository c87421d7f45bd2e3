/** What a stored config means, and that the Slack command and the JSON interface agree on it. */
module ServerMeaning {
  import opened Options
  import opened Json
  import opened Order
  import opened Placeholders
  import opened Fill
  import opened Templates
  import opened Substituted
  import opened Layout
  import opened CompactNames
  import opened Reflow
  import opened Objects
  import opened MergeHeap
  import opened Args
  import opened Server

  // ---------- Layout carries no meaning ----------

  lemma {:induction false} StripKeepsData(v: Value)
    ensures ToData(StripValue(v)) == ToData(v)
    decreases v
  {
    match v
    case Arr(items, _) => StripKeepsItems(items);
    case Obj(mems, _) => StripKeepsMembers(mems);
    case _ =>
  }

  lemma {:induction false} StripKeepsItems(items: Items)
    ensures ItemsData(StripItems(items)) == ItemsData(items)
    decreases items
  {
    if items.Item? {
      StripKeepsItems(items.init);
      StripKeepsData(items.v);
    }
  }

  lemma {:induction false} StripKeepsMembers(mems: Members)
    ensures MembersData(StripMembers(mems)) == MembersData(mems)
    decreases mems
  {
    if mems.Member? {
      StripKeepsMembers(mems.init);
      StripKeepsData(mems.v);
    }
  }

  /** Texts with the same tree up to layout decode alike. */
  lemma SameMeaningSameData(t: string, u: string)
    requires Meaning(t) == Meaning(u)
    ensures Unmarshal(t) == Unmarshal(u)
  {
    hide Parse;
    if Parse(t).Some? {
      StripKeepsData(Parse(t).value.v);
      StripKeepsData(Parse(u).value.v);
    }
  }

  /** Compaction, as the config save does it, keeps the data. */
  lemma CompactedKeepsData(t: string)
    ensures Unmarshal(Compacted(t)) == Unmarshal(t)
  {
    if Valid(t) {
      CompactedParses(t);
      StripKeepsData(Parse(t).value.v);
    }
  }

  // ---------- What a new instance gets ----------

  lemma {:induction false} RenderNothing(ts: seq<Token>, g: Filler)
    requires forall i | 0 <= i < |ts| :: ts[i].Ch?
    ensures Render(ts, g) == TokensText(ts)
  {
    if ts != [] {
      var n := |ts| - 1;
      RenderNothing(ts[..n], g);
      TokensTextSnoc(ts[..n], ts[n]);
      assert ts == ts[..n] + [ts[n]];
    }
  }

  /** Without placeholders there is nothing to substitute. */
  lemma SubstNothing(text: string, values: Values)
    requires Names(text) == {}
    ensures Subst(text, values) == text
  {
    var ts := Tokens(text);
    hide Tokens, Names;
    forall i | 0 <= i < |ts| ensures ts[i].Ch? {
      if ts[i].Mark? {
        MarksAreNames(text, i);
        assert false;
      }
    }
    RenderNothing(ts, Escapes(values));
    TokensLossless(text);
  }

  /** When creating an instance from good defaults yields a config. */
  predicate Creatable(defaults: string, values: Values, over: string) {
    && Names(defaults) <= values.Keys
    && (over != "" ==>
          && DecodesToMap(Subst(defaults, values)) && DecodesToMap(over)
          && !NothingToMergeInto(Subst(defaults, values), over))
  }

  /** The filled-in default, or a text that decodes to it with the override on top. */
  predicate IsNewConfig(text: string, defaults: string, values: Values, over: string) {
    var filled := Subst(defaults, values);
    if over == "" then text == filled
    else
      && Unmarshal(filled).Some? && Unmarshal(over).Some? && Canonical(text)
      && Unmarshal(text) == Some(OnTop(Unmarshal(filled).value, Unmarshal(over).value))
  }

  lemma FillsDefaults(defaults: string, values: Values)
    requires Passes(defaults) && Names(defaults) <= values.Keys
    ensures FillDefaults(defaults, values) == Config(Subst(defaults, values))
  {
    if Names(defaults) == {} { SubstNothing(defaults, values); }
  }

  /**
    The web form drops empty values, so whatever it substitutes comes through as
    it was typed.
   */
  lemma FormContent(defaults: string, form: map<string, string>)
    requires Passes(defaults) && Names(defaults) <= FormValues(defaults, form).Keys
    ensures var values := FormValues(defaults, form);
      && TemplateDoc(defaults).Some? && ValueCovered(TemplateDoc(defaults).value.v, values)
      && Valid(Subst(defaults, values))
      && Decoded(Parse(Subst(defaults, values)).value.v) == SplicedValue(TemplateDoc(defaults).value.v, values)
  {
    GateIsValidity(defaults);
    hide Passes, Parse, TemplateDoc, Subst, Names;
    NonemptyContent(defaults, FormValues(defaults, form));
  }

  lemma InvalidOverride(over: string)
    ensures !Valid(over) ==> !DecodesToMap(over)
  {
  }

  /**
    An instance gets a config exactly when every placeholder has a value and an
    override, if any, can be merged.  Otherwise the refusal lists the missing
    names in order, or says that the override is no JSON or cannot be merged.
   */
  lemma ResolveMeaning(defaults: string, values: Values, over: string)
    requires Passes(defaults)
    ensures var r := Resolve(defaults, values, over);
      && (r.Config? <==> Creatable(defaults, values, over))
      && (r.Config? ==> IsNewConfig(r.text, defaults, values, over))
      && (r.Refused? ==> IsRefusal(r.reply, defaults, values, over))
  {
    MissingAreSorted(defaults, values);
    if Names(defaults) <= values.Keys {
      FillsDefaults(defaults, values);
      MergeTextCorrect(Subst(defaults, values), over);
      InvalidOverride(over);
    }
    hide Parse, Passes, Subst, Names, MissingNames, MergeText, Canonical, Unmarshal;
  }

  lemma MissingAreSorted(defaults: string, values: Values)
    ensures StrictlySorted(MissingNames(defaults, values))
    ensures forall n :: n in MissingNames(defaults, values) <==> n in Names(defaults) && n !in values
  {
    SortedKeysSpec(Names(defaults) - values.Keys);
  }

  /** Why a config was refused. */
  ghost predicate IsRefusal(reply: Reply, defaults: string, values: Values, over: string) {
    if !(Names(defaults) <= values.Keys) then
      && reply.MissingValues? && StrictlySorted(reply.names)
      && forall n :: n in reply.names <==> n in Names(defaults) && n !in values
    else if !Valid(over) then reply == InvalidOverrideText
    else reply.MergeFailed?
  }

  // ---------- The web form ----------

  lemma {:induction false} RenderAgree(ts: seq<Token>, g: Filler, h: Filler)
    requires forall i | 0 <= i < |ts| && ts[i].Mark? ::
      ts[i].name in g && ts[i].name in h && g[ts[i].name] == h[ts[i].name]
    ensures Render(ts, g) == Render(ts, h)
  {
    if ts != [] {
      var n := |ts| - 1;
      assert ts[..n + 1] == ts;
      RenderAgree(ts[..n], g, h);
    }
  }

  /** Only the values of the template's own names matter. */
  lemma SubstAgree(template: string, a: Values, b: Values)
    requires Names(template) <= a.Keys && Names(template) <= b.Keys
    requires forall n | n in Names(template) :: a[n] == b[n]
    ensures Subst(template, a) == Subst(template, b)
  {
    var ts := Tokens(template);
    forall i | 0 <= i < |ts| && ts[i].Mark?
      ensures ts[i].name in a && ts[i].name in b && a[ts[i].name] == b[ts[i].name]
    {
      MarksAreNames(template, i);
    }
    hide Tokens, Names, Render;
    RenderAgree(ts, Escapes(a), Escapes(b));
  }

  /** A form filled in with the values, empty where there is none, and the override. */
  predicate FormOf(form: map<string, string>, names: set<string>, values: Values, over: string) {
    && FormField(form, "gatewayConfigOverride") == over
    && forall n | n in names :: FormField(form, "var_" + n) == if n in values then values[n] else ""
  }

  /**
    The web form filled in with values that are not empty does exactly what the JSON
    interface does with them.
   */
  lemma FormAgreesWithApi(st: Store, uid: string, form: map<string, string>, values: Values, over: string, fails: bool)
    requires FormOf(form, Names(st.defaults), values, over) && NoneEmpty(values) && uid !in st.instances
    ensures Serve(st, PageCreateInstance(uid, form), fails) == Serve(st, CreateInstance(uid, values, over), fails)
  {
    FormReadsValues(st.defaults, form, values, over);
    FillAgree(st.defaults, FormValues(st.defaults, form), values);
    hide Names, FillDefaults, ApplyOverride, Create, FormValues, FormField;
  }

  /** The defaults are filled in from the values of their own names. */
  lemma FillAgree(config: string, a: Values, b: Values)
    requires forall n | n in Names(config) :: n in a <==> n in b
    requires forall n | n in Names(config) && n in a :: a[n] == b[n]
    ensures FillDefaults(config, a) == FillDefaults(config, b)
  {
    var names := Names(config);
    if names <= a.Keys { SubstAgree(config, a, b); }
    hide Names, Subst, SortedKeys, Parse;
    assert names - a.Keys == names - b.Keys;
    assert names <= a.Keys <==> names <= b.Keys;
  }

  lemma FormReadsValues(config: string, form: map<string, string>, values: Values, over: string)
    requires FormOf(form, Names(config), values, over) && NoneEmpty(values)
    ensures var typed := FormValues(config, form);
      && (forall n | n in Names(config) :: n in typed <==> n in values)
      && forall n | n in typed :: n in values && typed[n] == values[n]
  {
    hide Names;
    forall n | n in Names(config)
      ensures n in FormValues(config, form) <==> n in values
      ensures n in values ==> FormValues(config, form)[n] == values[n]
    {
      assert FormField(form, "var_" + n) == if n in values then values[n] else "";
    }
  }

  // ---------- Requests ----------

  /** Who a create request is for, the values it brings and its override. */
  datatype Wish = Wish(uid: string, values: Values, over: string)

  function WishOf(st: Store, req: Request): Option<Wish> {
    match req
    case CreateInstance(uid, values, over) => Some(Wish(uid, values, over))
    case PageCreateInstance(uid, form) =>
      Some(Wish(uid, FormValues(st.defaults, form), FormField(form, "gatewayConfigOverride")))
    case SlackCreate(uid, text) => Some(Wish(uid, ParsedArgs(text).0, ParsedArgs(text).1))
    case _ => None
  }

  /**
    Through each of the three paths a create request is stored exactly when its
    user has no instance yet, every placeholder has a value, the override can be
    merged and the write succeeds.  Then there is one more instance, at generation
    0, and its config is the filled-in default with the override on top; otherwise
    nothing changes.
   */
  lemma CreateServed(st: Store, req: Request, fails: bool)
    requires Good(st) && WishOf(st, req).Some?
    ensures var (v, reply) := Serve(st, req, fails);
      var Wish(uid, values, over) := WishOf(st, req).value;
      && (reply == Stored <==> uid !in st.instances && Creatable(st.defaults, values, over) && !fails)
      && (reply == Stored ==>
            && uid in v.instances && v.instances[uid].configGeneration == 0
            && v == Store(st.defaults, st.instances[uid := v.instances[uid]])
            && IsNewConfig(v.instances[uid].config, st.defaults, values, over))
      && (reply != Stored ==> v == st)
      && (reply != Stored && uid !in st.instances && !Creatable(st.defaults, values, over) ==>
            IsRefusal(reply, st.defaults, values, over))
  {
    var Wish(uid, values, over) := WishOf(st, req).value;
    ResolveMeaning(st.defaults, values, over);
    hide Passes, Resolve, Creatable, IsNewConfig, ParsedArgs;
  }

  /**
    A save is stored exactly when the instance exists, the caller owns it or is an
    administrator, the text is JSON and the write succeeds.  Then that instance,
    and nothing else, has the next generation and a config that decodes to what
    was sent; otherwise nothing changes.
   */
  lemma SaveServed(st: Store, caller: string, admin: bool, id: string, config: string, fails: bool)
    ensures var (v, reply) := Serve(st, PageUpdateInstanceConfig(caller, admin, id, config), fails);
      && (reply == Stored <==> id in st.instances && (admin || caller == id) && Valid(config) && !fails)
      && (reply == Stored ==>
            && id in v.instances && v.instances[id].configGeneration == st.instances[id].configGeneration + 1
            && v == Store(st.defaults, st.instances[id := v.instances[id]])
            && v.instances[id].config == Compacted(config) && Unmarshal(Compacted(config)) == Unmarshal(config))
      && (reply != Stored ==> v == st)
  {
    CompactedKeepsData(config);
    hide Parse, Compacted, Unmarshal;
  }

  /** A delete is carried out exactly for owners and administrators, and takes only that instance away. */
  lemma DeleteServed(st: Store, caller: string, admin: bool, id: string, fails: bool)
    ensures var (v, reply) := Serve(st, DeleteInstance(caller, admin, id), fails);
      && (reply == Stored <==> id in st.instances && (admin || caller == id) && !fails)
      && v == (if reply == Stored then Store(st.defaults, st.instances - {id}) else st)
  {
  }

  /**
    An update of the defaults is stored exactly when the text is JSON and the write
    succeeds - through the web page, only for an administrator.  Templates are
    stored as they are; without placeholders the page stores a compacted text with
    the same data and still no placeholders.  Otherwise nothing changes.
   */
  lemma DefaultsServed(st: Store, admin: bool, config: string, fails: bool)
    ensures var (v, reply) := Serve(st, UpdateDefaults(config), fails);
      && (reply == Stored <==> Valid(config) && !fails)
      && v == (if reply == Stored then Store(config, st.instances) else st)
      && (!Valid(config) ==> reply == if Names(config) == {} then InvalidConfig else InvalidTemplate)
    ensures var (v, reply) := Serve(st, PageUpdateDefaults(admin, config), fails);
      && (reply == Stored <==> admin && Valid(config) && !fails)
      && (reply == Stored ==>
            && v == Store(v.defaults, st.instances) && Unmarshal(v.defaults) == Unmarshal(config)
            && Names(v.defaults) == Names(config)
            && v.defaults == if Names(config) != {} then config else Compacted(config))
      && (reply != Stored ==> v == st)
  {
    CompactedKeepsData(config);
    if Valid(config) && Names(config) == {} { CompactedHasNoNewNames(config); }
    hide Parse, Compacted, Unmarshal, Names;
  }

  // ---------- Slack and the JSON interface ----------

  lemma ValidNotEmptyText(t: string)
    requires Valid(t)
    ensures t != ""
  {
  }

  /** Overrides that decode alike are merged alike. */
  lemma OverrideByData(config: string, t: string, u: string)
    requires Valid(t) && Valid(u) && Unmarshal(t) == Unmarshal(u)
    ensures ApplyOverride(config, t) == ApplyOverride(config, u)
  {
    ValidNotEmptyText(t);
    ValidNotEmptyText(u);
    hide Unmarshal, Parse;
  }

  /** So they resolve alike. */
  lemma ResolveByOverride(defaults: string, values: Values, t: string, u: string)
    requires Valid(t) && Valid(u) && Unmarshal(t) == Unmarshal(u)
    ensures Resolve(defaults, values, t) == Resolve(defaults, values, u)
  {
    if FillDefaults(defaults, values).Config? {
      OverrideByData(FillDefaults(defaults, values).text, t, u);
    }
    hide FillDefaults, ApplyOverride, Valid, Unmarshal;
  }

  lemma ServeAlike(st: Store, uid: string, text: string, values: Values, parsed: string, over: string, fails: bool)
    requires ParsedArgs(text) == (values, parsed)
    requires Resolve(st.defaults, values, parsed) == Resolve(st.defaults, values, over)
    ensures Serve(st, SlackCreate(uid, text), fails) == Serve(st, CreateInstance(uid, values, over), fails)
  {
    hide ParsedArgs, Resolve, Create;
  }

  /** Splitting an override into words keeps what it resolves to. */
  lemma ResolveCollapsed(defaults: string, values: Values, over: string)
    requires Valid(over) && WellSpaced(over)
    ensures Resolve(defaults, values, Collapse(TrimRight(over))) == Resolve(defaults, values, over)
  {
    hide Resolve, Parse, Unmarshal, Collapse, WellSpaced, TrimRight;
    var word := Collapse(TrimRight(over));
    CollapseKeepsMeaning(over);
    TrimmedMeaning(over);
    SameMeaningSameData(word, over);
    MeaningValid(over, word);
    ResolveByOverride(defaults, values, word, over);
  }

  /**
    The Slack command with pairs and a well-spaced JSON override, keyed or bare,
    does exactly what the JSON interface does with the same values and override.
   */
  lemma SlackAgreesWithApi(st: Store, uid: string, args: seq<Arg>, over: Override, fails: bool)
    requires AreArgs(args) && IsOverride(over)
    requires OverrideText(over) == "" || (Valid(OverrideText(over)) && WellSpaced(OverrideText(over)))
    ensures Serve(st, SlackCreate(uid, CommandText(args, over)), fails) ==
      Serve(st, CreateInstance(uid, LastWins(args, map[]), OverrideText(over)), fails)
  {
    hide Serve, Resolve, Parse, ParsedArgs, CommandText, LastWins, WellSpaced, IsArg, IsOverride;
    ArgsRoundTrip(args, over);
    var values, o := LastWins(args, map[]), OverrideText(over);
    if o == "" {
      assert Collapse(TrimRight(o)) == "";
    } else {
      ResolveCollapsed(st.defaults, values, o);
    }
    ServeAlike(st, uid, CommandText(args, over), values, Collapse(TrimRight(o)), o, fails);
  }

  lemma MeaningValid(t: string, u: string)
    requires Valid(t) && Meaning(t) == Meaning(u)
    ensures Valid(u)
  {
    hide Parse;
  }
}
