/**
  The server's handling of gateway configs: the gate on stored templates, the
  three ways to create an instance, and saving an edited config.
 */
module Server {
  import opened Options
  import opened Json
  import opened Order
  import opened Placeholders
  import opened Templates
  import opened Layout
  import opened Objects
  import opened MergeHeap
  import opened CompactNames
  import opened Args

  // ---------- State and requests ----------

  datatype Instance = Instance(config: string, configGeneration: nat)

  /** The stored default config and the instances by user id. */
  datatype Store = Store(defaults: string, instances: map<string, Instance>)

  datatype Request =
    | UpdateDefaults(config: string)
    | PageUpdateDefaults(admin: bool, config: string)
    | CreateInstance(uid: string, values: Values, over: string)
    | PageCreateInstance(uid: string, form: map<string, string>)
    | SlackCreate(uid: string, text: string)
    | PageUpdateInstanceConfig(caller: string, admin: bool, id: string, config: string)
    | DeleteInstance(caller: string, admin: bool, id: string)

  datatype Reply =
    | Stored
    | Redirected
    | NotFound
    | AlreadyExists
    | InvalidTemplate
    | InvalidConfig
    | MissingValues(names: seq<string>)
    | InvalidAfterSubstitution
    | InvalidOverrideText
    | MergeFailed(why: MergeOutcome)
    | StoreFailed

  // ---------- Resolving a config ----------

  datatype Resolved = Config(text: string) | Refused(reply: Reply)

  function MissingNames(config: string, values: Values): seq<string> {
    SortedKeys(Names(config) - values.Keys)
  }

  /** The stored template with the values filled in. */
  function FillDefaults(config: string, values: Values): Resolved {
    if Names(config) == {} then Config(config)
    else if !(Names(config) <= values.Keys) then Refused(MissingValues(MissingNames(config, values)))
    else if !Valid(Subst(config, values)) then Refused(InvalidAfterSubstitution)
    else Config(Subst(config, values))
  }

  /** An optional override merged on top. */
  function ApplyOverride(config: string, over: string): Resolved {
    if over == "" then Config(config)
    else if !Valid(over) then Refused(InvalidOverrideText)
    else
      match MergeText(config, over)
      case Done(text) => Config(text)
      case why => Refused(MergeFailed(why))
  }

  /** The config a new instance gets, or the refusal. */
  function Resolve(defaults: string, values: Values, over: string): Resolved {
    match FillDefaults(defaults, values)
    case Config(text) => ApplyOverride(text, over)
    case refused => refused
  }

  /** The missing names the source lists, and the stages it goes through in order. */
  method ResolveConfig(defaults: string, values: Values, over: string) returns (r: Resolved)
    ensures r == Resolve(defaults, values, over)
  {
    var gatewayConfig := defaults;
    var placeholders := ExtractPlaceholders(gatewayConfig);
    if |placeholders| > 0 {
      assert placeholders[0] in Names(defaults);
      var substituted := SubstitutePlaceholders(gatewayConfig, values);
      match substituted {
        case Err(missing) =>
          MissingAgree(defaults, values, missing);
          return Refused(MissingValues(missing));
        case Ok(text) =>
          if !Valid(text) {
            return Refused(InvalidAfterSubstitution);
          }
          gatewayConfig := text;
      }
    } else {
      NoPlaceholders(defaults, placeholders);
    }
    if over != "" {
      if !Valid(over) {
        return Refused(InvalidOverrideText);
      }
      var merged := MergeJSON(gatewayConfig, over);
      match merged {
        case Done(text) => gatewayConfig := text;
        case _ => return Refused(MergeFailed(merged));
      }
    }
    r := Config(gatewayConfig);
  }

  lemma MissingAgree(config: string, values: Values, missing: seq<string>)
    requires StrictlySorted(missing) && forall n :: n in missing <==> n in Names(config) && n !in values
    ensures missing == MissingNames(config, values)
  {
    SortedKeysSpec(Names(config) - values.Keys);
    SortedUnique(missing, MissingNames(config, values));
  }

  lemma NoPlaceholders(config: string, placeholders: seq<string>)
    requires placeholders == [] && forall n :: n in placeholders <==> n in Names(config)
    ensures Names(config) == {}
  {
  }

  // ---------- The gate ----------

  /** What an update of the defaults checks. */
  ghost predicate Passes(config: string) {
    if Names(config) == {} then Valid(config)
    else forall values: Values | Names(config) <= values.Keys :: Valid(Subst(config, values))
  }

  /** The gate with its dummy check and all comes to plain JSON validity. */
  lemma GateIsValidity(config: string)
    ensures Passes(config) <==> Valid(config)
  {
    OneDummyCoversAllValues(config);
    DummyDecides(config);
    TemplateIsJson(config);
  }

  /** The refusal the gate gives, if any. */
  function GateReply(config: string): Option<Reply> {
    if Valid(config) then None else if Names(config) == {} then Some(InvalidConfig) else Some(InvalidTemplate)
  }

  method CheckGate(config: string) returns (err: Option<Reply>)
    ensures err == GateReply(config)
  {
    var placeholders := ExtractPlaceholders(config);
    if |placeholders| > 0 {
      assert placeholders[0] in Names(config);
      var invalid := ValidateTemplate(config);
      return if invalid != None then Some(InvalidTemplate) else None;
    } else {
      NoPlaceholders(config, placeholders);
      return if !Valid(config) then Some(InvalidConfig) else None;
    }
  }

  // ---------- One request ----------

  /** The non-empty form fields for the placeholders of the defaults. */
  function FormValues(config: string, form: map<string, string>): Values {
    map n | n in Names(config) && "var_" + n in form && form["var_" + n] != "" :: form["var_" + n]
  }

  function FormField(form: map<string, string>, name: string): string {
    if name in form then form[name] else ""
  }

  /** Creating an instance from a resolved config; fails says that the API server refuses the write. */
  function Create(st: Store, uid: string, resolved: Resolved, fails: bool): (Store, Reply) {
    match resolved
    case Refused(reply) => (st, reply)
    case Config(text) =>
      if fails then (st, StoreFailed)
      else (st.(instances := st.instances[uid := Instance(text, 0)]), Stored)
  }

  /** The server's transition on one request. */
  function Serve(st: Store, req: Request, fails: bool): (Store, Reply) {
    match req
    case UpdateDefaults(config) =>
      if GateReply(config).Some? then (st, GateReply(config).value)
      else if fails then (st, StoreFailed)
      else (st.(defaults := config), Stored)
    case PageUpdateDefaults(admin, config) =>
      if !admin then (st, Redirected)
      else if GateReply(config).Some? then (st, GateReply(config).value)
      else if fails then (st, StoreFailed)
      else (st.(defaults := if Names(config) == {} then Compacted(config) else config), Stored)
    case CreateInstance(uid, values, over) =>
      if uid in st.instances then (st, AlreadyExists)
      else Create(st, uid, Resolve(st.defaults, values, over), fails)
    case PageCreateInstance(uid, form) =>
      if uid in st.instances then (st, Redirected)
      else
        var over := FormField(form, "gatewayConfigOverride");
        Create(st, uid, Resolve(st.defaults, FormValues(st.defaults, form), over), fails)
    case SlackCreate(uid, text) =>
      if uid in st.instances then (st, AlreadyExists)
      else Create(st, uid, Resolve(st.defaults, ParsedArgs(text).0, ParsedArgs(text).1), fails)
    case PageUpdateInstanceConfig(caller, admin, id, config) =>
      if id !in st.instances || (!admin && id != caller) then (st, NotFound)
      else if !Valid(config) then (st, InvalidConfig)
      else if fails then (st, StoreFailed)
      else
        var saved := Instance(Compacted(config), st.instances[id].configGeneration + 1);
        (st.(instances := st.instances[id := saved]), Stored)
    case DeleteInstance(caller, admin, id) =>
      if id !in st.instances || (!admin && id != caller) then (st, NotFound)
      else if fails then (st, StoreFailed)
      else (st.(instances := st.instances - {id}), Stored)
  }

  /** The handlers, working on the stored rows and objects in place. */
  class Handler {
    var defaults: string
    var instances: map<string, Instance>

    function State(): Store
      reads this
    {
      Store(defaults, instances)
    }

    constructor (config: string)
      ensures State() == Store(config, map[])
    {
      defaults, instances := config, map[];
    }

    method UpdateDefaultsJson(config: string, fails: bool) returns (reply: Reply)
      modifies this
      ensures (State(), reply) == Serve(old(State()), UpdateDefaults(config), fails)
    {
      var err := CheckGate(config);
      if err.Some? {
        return err.value;
      }
      if fails {
        return StoreFailed;
      }
      defaults := config;
      return Stored;
    }

    method UpdateDefaultsPage(admin: bool, config: string, fails: bool) returns (reply: Reply)
      modifies this
      ensures (State(), reply) == Serve(old(State()), PageUpdateDefaults(admin, config), fails)
    {
      if !admin {
        return Redirected;
      }
      var gatewayConfig := config;
      var err := CheckGate(gatewayConfig);
      if err.Some? {
        return err.value;
      }
      var placeholders := ExtractPlaceholders(gatewayConfig);
      if |placeholders| == 0 {
        NoPlaceholders(config, placeholders);
        gatewayConfig := CompactJSON(gatewayConfig);
      } else {
        assert placeholders[0] in Names(config);
      }
      if fails {
        return StoreFailed;
      }
      defaults := gatewayConfig;
      return Stored;
    }

    method Put(uid: string, resolved: Resolved, fails: bool) returns (reply: Reply)
      modifies this
      ensures (State(), reply) == Create(old(State()), uid, resolved, fails)
    {
      match resolved {
        case Refused(why) => reply := why;
        case Config(text) =>
          if fails {
            return StoreFailed;
          }
          instances := instances[uid := Instance(text, 0)];
          reply := Stored;
      }
    }

    method CreateJson(uid: string, values: Values, over: string, fails: bool) returns (reply: Reply)
      modifies this
      ensures (State(), reply) == Serve(old(State()), CreateInstance(uid, values, over), fails)
    {
      if uid in instances {
        return AlreadyExists;
      }
      var resolved := ResolveConfig(defaults, values, over);
      reply := Put(uid, resolved, fails);
    }

    method CreatePage(uid: string, form: map<string, string>, fails: bool) returns (reply: Reply)
      modifies this
      ensures (State(), reply) == Serve(old(State()), PageCreateInstance(uid, form), fails)
    {
      if uid in instances {
        return Redirected;
      }
      var values := ReadForm(defaults, form);
      var resolved := ResolveConfig(defaults, values, FormField(form, "gatewayConfigOverride"));
      reply := Put(uid, resolved, fails);
    }

    method CreateSlack(uid: string, text: string, fails: bool) returns (reply: Reply)
      modifies this
      ensures (State(), reply) == Serve(old(State()), SlackCreate(uid, text), fails)
    {
      if uid in instances {
        return AlreadyExists;
      }
      var values, over := ParseCreateArgs(text);
      var resolved := ResolveConfig(defaults, values, over);
      reply := Put(uid, resolved, fails);
    }

    method SaveConfigPage(caller: string, admin: bool, id: string, config: string, fails: bool) returns (reply: Reply)
      modifies this
      ensures (State(), reply) == Serve(old(State()), PageUpdateInstanceConfig(caller, admin, id, config), fails)
    {
      if id !in instances || (!admin && id != caller) {
        return NotFound;
      }
      var instance := instances[id];
      if !Valid(config) {
        return InvalidConfig;
      }
      var compact := CompactJSON(config);
      instance := instance.(config := compact);
      instance := instance.(configGeneration := instance.configGeneration + 1);
      if fails {
        return StoreFailed;
      }
      instances := instances[id := instance];
      return Stored;
    }

    method Delete(caller: string, admin: bool, id: string, fails: bool) returns (reply: Reply)
      modifies this
      ensures (State(), reply) == Serve(old(State()), DeleteInstance(caller, admin, id), fails)
    {
      if id !in instances {
        return NotFound;
      }
      if !admin {
        if id != caller {
          return NotFound;
        }
      }
      if fails {
        return StoreFailed;
      }
      instances := instances - {id};
      return Stored;
    }
  }

  /** The loop over the placeholders that collects the filled-in form fields. */
  method ReadForm(config: string, form: map<string, string>) returns (values: Values)
    ensures values == FormValues(config, form)
  {
    var placeholders := ExtractPlaceholders(config);
    values := map[];
    for i := 0 to |placeholders|
      invariant values ==
        map n | n in placeholders[..i] && "var_" + n in form && form["var_" + n] != "" :: form["var_" + n]
    {
      var name := placeholders[i];
      assert placeholders[..i + 1] == placeholders[..i] + [name];
      var val := FormField(form, "var_" + name);
      if val != "" {
        values := values[name := val];
      }
    }
    assert placeholders[..|placeholders|] == placeholders;
  }

  // ---------- Every run ----------

  /** The defaults pass the gate and every stored config is JSON, hence not empty. */
  ghost predicate Good(st: Store) {
    && Passes(st.defaults)
    && forall id | id in st.instances :: Valid(st.instances[id].config) && st.instances[id].config != ""
  }

  lemma ValidNotEmpty()
    ensures !Valid("")
  {
  }

  /** With defaults that pass the gate, resolving never fails after substitution and yields JSON. */
  lemma ResolveGood(defaults: string, values: Values, over: string)
    requires Passes(defaults)
    ensures Resolve(defaults, values, over) != Refused(InvalidAfterSubstitution)
    ensures Resolve(defaults, values, over).Config? ==> Valid(Resolve(defaults, values, over).text)
  {
    hide Parse;
    if FillDefaults(defaults, values).Config? && over != "" && Valid(over) {
      MergeTextCorrect(FillDefaults(defaults, values).text, over);
    }
  }

  /** One request keeps the store good, and is never refused for what substitution made. */
  lemma ServeGood(st: Store, req: Request, fails: bool)
    requires Good(st)
    ensures Good(Serve(st, req, fails).0)
    ensures Serve(st, req, fails).1 != InvalidAfterSubstitution
  {
    ValidNotEmpty();
    hide Parse, Passes, Resolve;
    match req
    case UpdateDefaults(config) => GateIsValidity(config);
    case PageUpdateDefaults(admin, config) => if Valid(config) { PageUpdateGood(config); }
    case CreateInstance(uid, values, over) => ResolveGood(st.defaults, values, over);
    case PageCreateInstance(uid, form) =>
      ResolveGood(st.defaults, FormValues(st.defaults, form), FormField(form, "gatewayConfigOverride"));
    case SlackCreate(uid, text) => ResolveGood(st.defaults, ParsedArgs(text).0, ParsedArgs(text).1);
    case PageUpdateInstanceConfig(caller, admin, id, config) => CompactedValid(config);
    case DeleteInstance(_, _, _) =>
  }

  lemma CompactedValid(config: string)
    ensures Valid(config) ==> Valid(Compacted(config))
  {
    if Valid(config) { CompactedParses(config); }
  }

  lemma PageUpdateGood(config: string)
    requires Valid(config)
    ensures Passes(if Names(config) == {} then Compacted(config) else config)
    ensures Names(config) == {} ==> Names(Compacted(config)) == {}
  {
    GateIsValidity(config);
    CompactedValid(config);
    GateIsValidity(Compacted(config));
    if Names(config) == {} { CompactedHasNoNewNames(config); }
  }

  /** The store after a sequence of requests, each with the fate of its write. */
  function Run(st: Store, reqs: seq<(Request, bool)>): Store {
    if reqs == [] then st
    else Serve(Run(st, reqs[..|reqs| - 1]), reqs[|reqs| - 1].0, reqs[|reqs| - 1].1).0
  }

  /** From good defaults every run keeps the store good, and no request in it is refused for what substitution made. */
  lemma {:induction false} EveryRunGood(st: Store, reqs: seq<(Request, bool)>)
    requires Good(st)
    ensures Good(Run(st, reqs))
    ensures forall req: Request, fails: bool :: Serve(Run(st, reqs), req, fails).1 != InvalidAfterSubstitution
  {
    hide Good, Serve;
    if reqs != [] {
      EveryRunGood(st, reqs[..|reqs| - 1]);
      ServeGood(Run(st, reqs[..|reqs| - 1]), reqs[|reqs| - 1].0, reqs[|reqs| - 1].1);
    }
    forall req: Request, fails: bool ensures Serve(Run(st, reqs), req, fails).1 != InvalidAfterSubstitution {
      ServeGood(Run(st, reqs), req, fails);
    }
  }
}
