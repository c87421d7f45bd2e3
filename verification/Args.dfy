/** The arguments of the Slack command `create`: KEY=value pairs and a JSON override. */
module Args {
  import opened Json
  import opened Reflow

  // ---------- Go's string helpers ----------

  function TrimLeft(s: string): string {
    if s != "" && IsSpace(s[0]) then TrimLeft(s[1..]) else s
  }

  function TrimRight(s: string): string {
    if EndsSpace(s) then TrimRight(s[..|s| - 1]) else s
  }

  /** strings.TrimSpace */
  function TrimSpace(s: string): string {
    TrimRight(TrimLeft(s))
  }

  /** strings.TrimPrefix */
  function TrimPrefix(s: string, p: string): string {
    if p <= s then s[|p|..] else s
  }

  function WordLength(s: string): (n: nat)
    ensures n <= |s|
    ensures forall i | 0 <= i < n :: !IsSpace(s[i])
    ensures n < |s| ==> IsSpace(s[n])
  {
    if s == "" || IsSpace(s[0]) then 0 else 1 + WordLength(s[1..])
  }

  /** strings.Fields */
  function Fields(s: string): seq<string>
    decreases |s|
  {
    if s == "" then []
    else if IsSpace(s[0]) then Fields(s[1..])
    else [s[..WordLength(s)]] + Fields(s[WordLength(s)..])
  }

  /** strings.Join with a single space */
  function Join(ws: seq<string>): string {
    if ws == [] then "" else if |ws| == 1 then ws[0] else ws[0] + " " + Join(ws[1..])
  }

  /** strings.Index for the character '='; the length of the string when there is none. */
  function IndexEq(s: string): (i: nat)
    ensures i <= |s|
    ensures forall k | 0 <= k < i :: s[k] != '='
    ensures i < |s| ==> s[i] == '='
  {
    if s == "" || s[0] == '=' then 0 else 1 + IndexEq(s[1..])
  }

  // ---------- The parser ----------

  const JSON_KEY := "json="

  /** What the loop over the words yields, given the pairs found so far. */
  function ParseWords(parts: seq<string>, values: map<string, string>): (map<string, string>, string) {
    if parts == [] then (values, "")
    else
      var part := parts[0];
      var i := IndexEq(part);
      if JSON_KEY <= part then
        (values, part[|JSON_KEY|..] + (if |parts| > 1 then " " + Join(parts[1..]) else ""))
      else if 0 < i < |part| then ParseWords(parts[1..], values[part[..i] := part[i + 1..]])
      else if "{" <= part then (values, Join(parts))
      else ParseWords(parts[1..], values)
  }

  /** The pairs and the override of a command text. */
  function ParsedArgs(text: string): (map<string, string>, string) {
    ParseWords(Fields(TrimSpace(TrimPrefix(TrimSpace(text), "create"))), map[])
  }

  /** A nil map and an empty one read the same, so both are the empty map here. */
  method ParseCreateArgs(text: string) returns (placeholderValues: map<string, string>, jsonOverride: string)
    ensures (placeholderValues, jsonOverride) == ParsedArgs(text)
  {
    placeholderValues, jsonOverride := map[], "";
    var args := TrimSpace(TrimPrefix(TrimSpace(text), "create"));
    if args == "" {
      return;
    }
    var parts := Fields(args);
    var i := 0;
    while i < |parts|
      invariant 0 <= i <= |parts|
      invariant jsonOverride == ""
      invariant ParseWords(parts, map[]) == ParseWords(parts[i..], placeholderValues)
      decreases |parts| - i
    {
      var part := parts[i];
      var rest := parts[i + 1..];
      assert parts[i..][1..] == rest;
      if JSON_KEY <= part {
        assert part[|JSON_KEY|..] + "" == part[|JSON_KEY|..];
        jsonOverride := TrimPrefix(part, JSON_KEY);
        if i + 1 < |parts| {
          jsonOverride := jsonOverride + (" " + Join(rest));
        }
        return;
      }
      var idx := IndexEq(part);
      if 0 < idx < |part| {
        placeholderValues := placeholderValues[part[..idx] := part[idx + 1..]];
      } else if "{" <= part {
        assert parts[i..] == [part] + rest;
        jsonOverride := Join([part] + rest);
        return;
      }
      i := i + 1;
    }
  }

  // ---------- Printing commands ----------

  predicate NoSpace(s: string) {
    forall i | 0 <= i < |s| :: !IsSpace(s[i])
  }

  predicate IsKey(k: string) {
    k != "" && NoSpace(k) && '=' !in k && k != "json"
  }

  /** An argument: a pair, or a word that is neither a pair nor an override. */
  datatype Arg = Pair(key: string, value: string) | Other(word: string)

  /** What may come last: nothing, json= and a text, or a bare text. */
  datatype Override = NoOverride | Keyed(text: string) | Bare(text: string)

  predicate IsArg(a: Arg) {
    match a
    case Pair(k, v) => IsKey(k) && NoSpace(v)
    case Other(w) => w != "" && NoSpace(w) && w[0] != '{' && (w[0] == '=' || '=' !in w)
  }

  predicate AreArgs(args: seq<Arg>) {
    forall i | 0 <= i < |args| :: IsArg(args[i])
  }

  /** A bare override starts with a brace and has no equals sign in its first word. */
  predicate IsOverride(over: Override) {
    over.Bare? ==> over.text != "" && over.text[0] == '{' && '=' !in over.text[..WordLength(over.text)]
  }

  function ArgText(a: Arg): string {
    match a
    case Pair(k, v) => k + "=" + v
    case Other(w) => w
  }

  function TailText(over: Override): string {
    match over
    case NoOverride => ""
    case Keyed(text) => JSON_KEY + text
    case Bare(text) => text
  }

  /** The words of a command: the arguments, then the override. */
  function ArgsText(args: seq<Arg>, over: Override): string {
    if args == [] then TailText(over)
    else
      var rest := ArgsText(args[1..], over);
      ArgText(args[0]) + (if rest == "" then "" else " " + rest)
  }

  function CommandText(args: seq<Arg>, over: Override): string {
    var words := ArgsText(args, over);
    if words == "" then "create" else "create " + words
  }

  /** The override itself; none reads like an empty one. */
  function OverrideText(over: Override): string {
    if over == NoOverride then "" else over.text
  }

  /** Later pairs win, and other words do not count. */
  function LastWins(args: seq<Arg>, values: map<string, string>): map<string, string> {
    if args == [] then values
    else LastWins(args[1..], if args[0].Pair? then values[args[0].key := args[0].value] else values)
  }

  // ---------- Splitting and joining is collapsing ----------

  /** Collapse, read from the front; sp says whether a space came before. */
  function Squash(t: string, sp: bool): string {
    if t == "" then ""
    else if IsSpace(t[0]) then (if sp then "" else " ") + Squash(t[1..], true)
    else [t[0]] + Squash(t[1..], false)
  }

  lemma {:induction false} SquashSnoc(t: string, c: char, sp: bool)
    ensures Squash(t + [c], sp) ==
      Squash(t, sp) + (if !IsSpace(c) then [c] else if (if t == "" then sp else EndsSpace(t)) then "" else " ")
  {
    hide IsSpace;
    if t == "" {
      assert [c][1..] == "" && [] + [c] == [c];
    } else {
      var u := t[1..];
      assert (t + [c])[1..] == u + [c] && (t + [c])[0] == t[0];
      SquashSnoc(u, c, IsSpace(t[0]));
      SquashHead(t, sp);
      SquashHead(t + [c], sp);
      EndOfTail(t);
      hide Squash, EndsSpace;
    }
  }

  lemma SquashHead(t: string, sp: bool)
    requires t != ""
    ensures Squash(t, sp) ==
      (if !IsSpace(t[0]) then [t[0]] else if sp then "" else " ") + Squash(t[1..], IsSpace(t[0]))
  {
    hide IsSpace;
  }

  lemma EndOfTail(t: string)
    requires t != ""
    ensures EndsSpace(t) <==> if t[1..] == "" then IsSpace(t[0]) else EndsSpace(t[1..])
  {
    hide IsSpace;
    if t[1..] != "" { assert t[1..][|t| - 2] == t[|t| - 1]; }
  }

  lemma {:induction false} CollapseIsSquash(t: string)
    ensures Collapse(t) == Squash(t, false)
  {
    if t != "" {
      var n := |t| - 1;
      CollapseIsSquash(t[..n]);
      SquashSnoc(t[..n], t[n], false);
      assert t == t[..n] + [t[n]];
    }
  }

  lemma {:induction false} SquashWord(w: string, t: string, sp: bool)
    requires NoSpace(w) && w != ""
    ensures Squash(w + t, sp) == w + Squash(t, false)
  {
    assert (w + t)[1..] == w[1..] + t;
    if |w| == 1 {
      assert w[1..] + t == t;
    } else {
      SquashWord(w[1..], t, false);
      assert w == [w[0]] + w[1..];
    }
  }

  lemma {:induction false} FieldsNonempty(t: string)
    requires t != "" && !EndsSpace(t)
    ensures Fields(t) != []
    decreases |t|
  {
    if IsSpace(t[0]) {
      assert t[1..] != "" ==> t[1..][|t| - 2] == t[|t| - 1];
      FieldsNonempty(t[1..]);
    }
  }

  /**
    Without a trailing space, the fields joined are the text with its runs of
    spaces collapsed and its leading ones gone.
   */
  lemma {:induction false} JoinFields(t: string)
    requires !EndsSpace(t)
    ensures Join(Fields(t)) == Squash(t, true)
    decreases |t|
  {
    if t == "" {
    } else if IsSpace(t[0]) {
      SameEnd(t, 1);
      JoinFields(t[1..]);
    } else {
      var n := WordLength(t);
      FieldsFirst(t, n);
      SquashFirst(t, n);
      if n < |t| {
        SameEnd(t, n + 1);
        FieldsNonempty(t[n + 1..]);
        JoinFields(t[n + 1..]);
        JoinCons(t[..n], Fields(t[n + 1..]));
      }
    }
  }

  lemma JoinCons(w: string, ws: seq<string>)
    requires ws != []
    ensures Join([w] + ws) == w + " " + Join(ws)
  {
    assert ([w] + ws)[1..] == ws;
  }

  /** A text that starts with a word: the word is its first field. */
  lemma FieldsFirst(t: string, n: nat)
    requires t != "" && !IsSpace(t[0]) && n == WordLength(t)
    ensures n == |t| ==> Fields(t) == [t]
    ensures n < |t| ==> Fields(t) == [t[..n]] + Fields(t[n + 1..])
  {
    hide IsSpace;
    var rest := t[n..];
    assert Fields(t) == [t[..n]] + Fields(rest);
    if n < |t| {
      assert rest[1..] == t[n + 1..] && rest[0] == t[n];
    } else {
      assert t[..n] == t && rest == "";
    }
  }

  lemma SquashFirst(t: string, n: nat)
    requires t != "" && !IsSpace(t[0]) && n == WordLength(t)
    ensures n == |t| ==> Squash(t, true) == t
    ensures n < |t| ==> Squash(t, true) == t[..n] + " " + Squash(t[n + 1..], true)
  {
    TakeDrop(t, n);
    SquashWord(t[..n], t[n..], true);
    SquashTail(t, n);
    hide Squash, IsSpace, NoSpace;
    Assoc(t[..n], " ", if n < |t| then Squash(t[n + 1..], true) else "");
  }

  lemma TakeDrop(t: string, n: nat)
    requires n <= |t|
    ensures t == t[..n] + t[n..] && (n == |t| ==> t[..n] == t && t[..n] + "" == t)
  {
  }

  lemma Assoc(a: string, b: string, c: string)
    ensures a + (b + c) == a + b + c
  {
  }

  lemma SquashTail(t: string, n: nat)
    requires n <= |t|
    ensures n == |t| ==> Squash(t[n..], false) == ""
    ensures n < |t| && IsSpace(t[n]) ==> Squash(t[n..], false) == " " + Squash(t[n + 1..], true)
  {
    if n < |t| {
      assert t[n..][1..] == t[n + 1..] && t[n..][0] == t[n];
    }
  }

  lemma SameEnd(t: string, n: nat)
    requires n <= |t| && !EndsSpace(t)
    ensures !EndsSpace(t[n..])
    ensures n > 0 && n <= |t| && IsSpace(t[n - 1]) ==> t[n..] != ""
  {
    if t[n..] != "" {
      assert t[n..][|t| - n - 1] == t[|t| - 1];
    }
  }

  // ---------- Round trip ----------

  lemma FieldsWord(w: string, rest: string)
    requires w != "" && NoSpace(w)
    ensures Fields(w) == [w]
    ensures Fields(w + " " + rest) == [w] + Fields(rest)
  {
    WordIsWord(w, "");
    assert w + "" == w && w[|w|..] == "";
    WordIsWord(w, " " + rest);
    assert w + " " + rest == w + (" " + rest);
    assert (w + (" " + rest))[|w|..] == " " + rest;
    assert (w + (" " + rest))[..|w|] == w;
    assert (" " + rest)[1..] == rest;
  }

  lemma WordIsWord(w: string, t: string)
    requires w != "" && NoSpace(w) && (t != "" ==> IsSpace(t[0]))
    ensures WordLength(w + t) == |w|
  {
    assert forall i | 0 <= i < |w| :: (w + t)[i] == w[i];
    assert t != "" ==> (w + t)[|w|] == t[0];
  }

  /** A pair word parses as its pair, whatever else its value contains. */
  lemma PairWord(k: string, v: string)
    requires IsKey(k) && NoSpace(v)
    ensures var t := ArgText(Pair(k, v));
      && IndexEq(t) == |k| < |t| && !(JSON_KEY <= t) && NoSpace(t) && t[..|k|] == k && t[|k| + 1..] == v
  {
    var t := ArgText(Pair(k, v));
    assert t[|k|] == '=';
    assert forall i | 0 <= i < |k| :: t[i] == k[i] && k[i] in k;
    assert forall i | |k| < i < |t| :: t[i] == v[i - |k| - 1];
    NotJsonKey(k, t);
  }

  lemma KeyHasEq(w: string)
    requires JSON_KEY <= w
    ensures '=' in w && w[0] == 'j'
  {
    KeyChars(w);
    assert w[4] in w;
  }

  lemma OtherWord(w: string)
    requires IsArg(Other(w))
    ensures (IndexEq(w) == 0 || IndexEq(w) == |w|) && !(JSON_KEY <= w) && !("{" <= w)
  {
    if JSON_KEY <= w {
      KeyHasEq(w);
      assert false;
    }
  }

  lemma ArgWord(a: Arg)
    requires IsArg(a)
    ensures ArgText(a) != "" && NoSpace(ArgText(a))
  {
    if a.Pair? { PairWord(a.key, a.value); }
  }

  lemma NotJsonKey(k: string, t: string)
    requires k != "json" && |k| < |t| && t[|k|] == '=' && forall i | 0 <= i < |k| :: t[i] == k[i] && k[i] != '='
    ensures !(JSON_KEY <= t)
  {
    assert |k| == 4 && t[0] == 'j' && t[1] == 's' && t[2] == 'o' && t[3] == 'n' ==> k == "json";
    if JSON_KEY <= t {
      KeyChars(t);
      assert false;
    }
  }

  lemma KeyChars(t: string)
    requires JSON_KEY <= t
    ensures |t| >= 5 && t[0] == 'j' && t[1] == 's' && t[2] == 'o' && t[3] == 'n' && t[4] == '='
  {
    assert forall i | 0 <= i < 5 :: t[i] == JSON_KEY[i];
  }

  /** The override word and all that follow rebuild the override with its runs of spaces collapsed. */
  lemma OverrideWords(over: string, values: map<string, string>)
    requires !EndsSpace(over)
    ensures ParseWords(Fields(JSON_KEY + over), values) == (values, Collapse(over))
  {
    var n := WordLength(over);
    var w, rest := over[..n], over[n..];
    CollapseIsSquash(over);
    KeyedFields(over, n);
    RestJoined(over, n);
    OverrideParses(w, Fields(rest), values);
  }

  lemma OverrideParses(w: string, fs: seq<string>, values: map<string, string>)
    ensures ParseWords([JSON_KEY + w] + fs, values) == (values, w + (if fs != [] then " " + Join(fs) else ""))
  {
    KeyPrefix(w);
    hide Join;
    assert ([JSON_KEY + w] + fs)[1..] == fs;
  }

  lemma KeyPrefix(w: string)
    ensures JSON_KEY <= JSON_KEY + w && (JSON_KEY + w)[|JSON_KEY|..] == w
  {
  }

  /** The rest of the override after its first word, as it is put back. */
  lemma RestJoined(over: string, n: nat)
    requires !EndsSpace(over) && n == WordLength(over)
    ensures Squash(over, false) == over[..n] + (if Fields(over[n..]) != [] then " " + Join(Fields(over[n..])) else "")
  {
    var w, rest := over[..n], over[n..];
    FirstWord(over, n);
    SameEnd(over, n);
    if rest != "" {
      JoinFields(rest);
      FieldsNonempty(rest);
      hide Fields, Join;
      assert Squash(rest, false) == " " + Squash(rest, true);
    }
  }

  lemma FirstWord(over: string, n: nat)
    requires n == WordLength(over)
    ensures Squash(over, false) == over[..n] + Squash(over[n..], false)
  {
    assert over == over[..n] + over[n..];
    if n == 0 {
      assert over[n..] == over;
    } else {
      SquashWord(over[..n], over[n..], false);
    }
  }

  lemma KeyedFields(over: string, n: nat)
    requires n == WordLength(over)
    ensures Fields(JSON_KEY + over) == [JSON_KEY + over[..n]] + Fields(over[n..])
  {
    var t := JSON_KEY + over;
    KeyedWord(over);
    assert over == over[..n] + over[n..];
    assert t[..|JSON_KEY| + n] == JSON_KEY + over[..n] && t[|JSON_KEY| + n..] == over[n..];
    assert t[0] == 'j';
  }

  lemma KeyedWord(over: string)
    ensures WordLength(JSON_KEY + over) == |JSON_KEY| + WordLength(over)
  {
    var w, rest := over[..WordLength(over)], over[WordLength(over)..];
    var k := JSON_KEY + w;
    forall i | 0 <= i < |k| ensures !IsSpace(k[i]) {
      if i >= 5 { assert k[i] == w[i - 5]; }
    }
    WordIsWord(k, rest);
    assert JSON_KEY + over == k + rest;
  }

  /** A bare override and all that follows is the override, whatever came before. */
  lemma BareParses(over: string, values: map<string, string>)
    requires IsOverride(Bare(over)) && !EndsSpace(over)
    ensures ParseWords(Fields(over), values) == (values, Collapse(over))
  {
    BareFields(over);
    FirstEq(Fields(over)[0]);
    hide Fields, Join, Collapse;
    assert "{"[0] == '{' && JSON_KEY[0] == 'j';
  }

  lemma {:induction false} WordsParse(args: seq<Arg>, over: Override, values: map<string, string>)
    requires AreArgs(args) && IsOverride(over) && !EndsSpace(OverrideText(over))
    ensures ParseWords(Fields(ArgsText(args, over)), values) == (LastWins(args, values), Collapse(OverrideText(over)))
    decreases |args|
  {
    if args == [] {
      match over
      case NoOverride =>
      case Keyed(text) => OverrideWords(text, values);
      case Bare(text) => BareParses(text, values);
    } else {
      var a, rest := args[0], ArgsText(args[1..], over);
      WordsParse(args[1..], over, if a.Pair? then values[a.key := a.value] else values);
      ArgFields(a, rest);
      ArgParses(a, Fields(rest), values);
    }
  }

  lemma ArgFields(a: Arg, rest: string)
    requires IsArg(a)
    ensures Fields(ArgText(a) + (if rest == "" then "" else " " + rest)) == [ArgText(a)] + Fields(rest)
  {
    ArgWord(a);
    FieldsWord(ArgText(a), rest);
    assert ArgText(a) + "" == ArgText(a);
    assert ArgText(a) + (" " + rest) == ArgText(a) + " " + rest;
  }

  lemma ArgParses(a: Arg, parts: seq<string>, values: map<string, string>)
    requires IsArg(a)
    ensures ParseWords([ArgText(a)] + parts, values) ==
      ParseWords(parts, if a.Pair? then values[a.key := a.value] else values)
  {
    match a
    case Pair(k, v) =>
      PairWord(k, v);
      hide ArgText, IsArg, IndexEq;
      assert ([ArgText(a)] + parts)[1..] == parts;
    case Other(w) =>
      OtherWord(w);
      hide IsArg, IndexEq;
      assert ([w] + parts)[1..] == parts;
  }

  // ---------- Trimming ----------

  lemma {:induction false} TrimRightCat(a: string, b: string)
    requires TrimRight(b) != "" || !EndsSpace(a)
    ensures TrimRight(a + b) == a + TrimRight(b)
    decreases |b|
  {
    if b == "" {
      assert a + b == a;
    } else {
      var n := |b| - 1;
      assert (a + b)[|a| + n] == b[n];
      if IsSpace(b[n]) {
        assert (a + b)[..|a| + n] == a + b[..n];
        TrimRightCat(a, b[..n]);
      }
    }
  }

  lemma {:induction false} TrimRightEnds(t: string)
    ensures !EndsSpace(TrimRight(t)) && TrimRight(t) <= t
    ensures forall i | |TrimRight(t)| <= i < |t| :: IsSpace(t[i])
    decreases |t|
  {
    if EndsSpace(t) { TrimRightEnds(t[..|t| - 1]); }
  }

  lemma StartStays(t: string)
    requires t != "" && !IsSpace(t[0])
    ensures TrimRight(t) != "" && TrimRight(t)[0] == t[0] && TrimLeft(t) == t
  {
    TrimRightEnds(t);
  }

  lemma TrimmedStays(t: string)
    requires t != "" && !IsSpace(t[0])
    ensures TrimSpace(t) == TrimRight(t) && TrimSpace(" " + TrimRight(t)) == TrimRight(t)
  {
    StartStays(t);
    var u := TrimRight(t);
    TrimRightEnds(t);
    StartStays(u);
    assert (" " + u)[1..] == u && (" " + u)[0] == ' ';
    assert TrimLeft(" " + u) == TrimLeft(u);
    assert TrimRight(u) == u;
  }

  lemma WithoutWord(args: string)
    ensures TrimPrefix("create " + args, "create") == " " + args
  {
    assert "create " + args == "create" + (" " + args);
  }

  /** Trimming a command and dropping its first word leaves the arguments, trimmed at the end. */
  lemma CommandTrimmed(args: string)
    requires args != "" ==> !IsSpace(args[0])
    ensures TrimSpace(TrimPrefix(TrimSpace(if args == "" then "create" else "create " + args), "create")) ==
      TrimRight(args)
  {
    if args == "" {
      NoArgs();
    } else {
      TrimmedStays(args);
      TrimmedStays("create " + args);
      StartStays(args);
      TrimRightCat("create ", args);
      WithoutWord(TrimRight(args));
      hide TrimSpace, TrimRight, TrimPrefix, IsSpace;
    }
  }

  lemma NoArgs()
    ensures TrimSpace(TrimPrefix(TrimSpace("create"), "create")) == TrimRight("")
  {
    assert TrimSpace("create") == "create" && "create"[6..] == "";
  }

  function TrimOverride(over: Override): Override {
    match over
    case NoOverride => NoOverride
    case Keyed(text) => Keyed(TrimRight(text))
    case Bare(text) => Bare(TrimRight(text))
  }

  /** Spaces at the end of the override are trimmed with the command's. */
  lemma {:induction false} ArgsTextTrimmed(args: seq<Arg>, over: Override)
    requires AreArgs(args) && IsOverride(over)
    ensures var t := ArgsText(args, over); t != "" ==> !IsSpace(t[0])
    ensures TrimRight(ArgsText(args, over)) == ArgsText(args, TrimOverride(over))
    decreases |args|
  {
    if args == [] {
      if over.Keyed? { TrimRightCat(JSON_KEY, over.text); }
    } else {
      var a, rest := args[0], ArgsText(args[1..], over);
      ArgsTextTrimmed(args[1..], over);
      ArgTrimmed(a, rest);
      hide ArgText, TrimRight;
      if rest != "" { StartStays(rest); }
    }
  }

  lemma ArgTrimmed(a: Arg, rest: string)
    requires IsArg(a) && (rest != "" ==> !IsSpace(rest[0]))
    ensures TrimRight(ArgText(a) + (if rest == "" then "" else " " + rest)) ==
      ArgText(a) + (if rest == "" then "" else " " + TrimRight(rest))
    ensures ArgText(a) != "" && !IsSpace(ArgText(a)[0])
  {
    ArgWord(a);
    var w := ArgText(a);
    assert !EndsSpace(w) && w != "";
    hide ArgText, IsArg;
    if rest == "" {
      assert w + "" == w;
    } else {
      StartStays(rest);
      TrimRightCat(" ", rest);
      TrimRightCat(w, " " + rest);
    }
  }

  lemma TrimmedIsOverride(over: Override)
    requires IsOverride(over)
    ensures IsOverride(TrimOverride(over)) && OverrideText(TrimOverride(over)) == TrimRight(OverrideText(over))
  {
    if over.Bare? {
      StartStays(over.text);
      SameWord(over.text);
    }
  }

  /**
    Printing any arguments - pairs, with other words in between - and any kind of
    override, and parsing the command, gives the pairs back, later ones winning,
    and the override with its runs of spaces collapsed and none at its end.
   */
  lemma ArgsRoundTrip(args: seq<Arg>, over: Override)
    requires AreArgs(args) && IsOverride(over)
    ensures ParsedArgs(CommandText(args, over)) == (LastWins(args, map[]), Collapse(TrimRight(OverrideText(over))))
    ensures OverrideText(over) == Join(Fields(OverrideText(over))) ==>
      ParsedArgs(CommandText(args, over)) == (LastWins(args, map[]), OverrideText(over))
  {
    ArgsTextTrimmed(args, over);
    CommandTrimmed(ArgsText(args, over));
    TrimRightEnds(OverrideText(over));
    TrimmedIsOverride(over);
    hide IsOverride, AreArgs, TrimOverride;
    WordsParse(args, TrimOverride(over), map[]);
    var o := OverrideText(over);
    if o == Join(Fields(o)) {
      JoinedEnds(o);
      NormalCollapse(o);
    }
  }

  lemma {:induction false} JoinedEnds(t: string)
    ensures !EndsSpace(Join(Fields(t))) && (Fields(t) != [] ==> Join(Fields(t)) != "")
    decreases |t|
  {
    if t == "" {
    } else if IsSpace(t[0]) {
      JoinedEnds(t[1..]);
    } else {
      var n := WordLength(t);
      JoinedEnds(t[n..]);
      WordJoined(t[..n], Fields(t[n..]));
    }
  }

  lemma WordJoined(w: string, ws: seq<string>)
    requires w != "" && NoSpace(w) && !EndsSpace(Join(ws)) && (ws != [] ==> Join(ws) != "")
    ensures !EndsSpace(Join([w] + ws)) && Join([w] + ws) != ""
  {
    if ws != [] { JoinCons(w, ws); }
  }

  lemma NormalCollapse(over: string)
    requires over == Join(Fields(over)) && !EndsSpace(over)
    ensures Collapse(over) == over
  {
    JoinFields(over);
    CollapseIsSquash(over);
    if over != "" { NormalStart(over); }
  }

  lemma NormalStart(over: string)
    requires over != "" && !EndsSpace(over) && over == Squash(over, true)
    ensures !IsSpace(over[0])
  {
    if IsSpace(over[0]) {
      SquashShorter(over[1..], true);
    }
  }

  lemma {:induction false} SquashShorter(t: string, sp: bool)
    ensures |Squash(t, sp)| <= |t|
  {
    if t != "" { SquashShorter(t[1..], IsSpace(t[0])); }
  }

  lemma {:induction false} CollapseTrimmed(t: string)
    ensures Collapse(t) == Collapse(TrimRight(t)) + (if EndsSpace(t) then " " else "")
    decreases |t|
  {
    if EndsSpace(t) { CollapseTrimmed(t[..|t| - 1]); }
  }

  /** Trimming the end does not matter for the meaning. */
  lemma TrimmedMeaning(t: string)
    ensures Meaning(Collapse(TrimRight(t))) == Meaning(Collapse(t))
  {
    CollapseTrimmed(t);
    TrailingSpace(Collapse(TrimRight(t)));
    hide Meaning, Collapse, TrimRight;
    assert Collapse(TrimRight(t)) + "" == Collapse(TrimRight(t));
  }

  /** The override a command carries means what was typed exactly when that text is well spaced. */
  lemma OverrideMeaning(args: seq<Arg>, over: Override)
    requires AreArgs(args) && IsOverride(over) && Valid(OverrideText(over))
    ensures Meaning(ParsedArgs(CommandText(args, over)).1) == Meaning(OverrideText(over)) <==>
      WellSpaced(OverrideText(over))
  {
    ArgsRoundTrip(args, over);
    TrimmedMeaning(OverrideText(over));
    CollapseKeepsMeaning(OverrideText(over));
  }

  // ---------- Spacing ----------

  predicate AreWords(ws: seq<string>) {
    forall i | 0 <= i < |ws| :: ws[i] != "" && NoSpace(ws[i])
  }

  lemma {:induction false} FieldsAreWords(t: string)
    ensures AreWords(Fields(t))
    decreases |t|
  {
    if t == "" {
    } else if IsSpace(t[0]) {
      FieldsAreWords(t[1..]);
    } else {
      FieldsAreWords(t[WordLength(t)..]);
    }
  }

  lemma {:induction false} FieldsJoin(ws: seq<string>)
    requires AreWords(ws)
    ensures Fields(Join(ws)) == ws
  {
    if ws != [] {
      assert ws[0] != "" && NoSpace(ws[0]);
      assert ws == [ws[0]] + ws[1..];
      FieldsJoin(ws[1..]);
      FieldsWord(ws[0], Join(ws[1..]));
    }
  }

  /** A text that starts and ends with a word has the words it has when collapsed. */
  lemma CollapseFields(t: string)
    requires t != "" && !IsSpace(t[0]) && !EndsSpace(t)
    ensures Fields(Collapse(t)) == Fields(t) && !EndsSpace(Collapse(t))
  {
    JoinFields(t);
    CollapseIsSquash(t);
    FieldsAreWords(t);
    FieldsJoin(Fields(t));
    JoinedEnds(t);
    assert Squash(t, true) == Squash(t, false);
  }

  /** However the words of a command are spaced, it means the same with single spaces. */
  lemma AnySpacing(args: string)
    requires args != "" && !IsSpace(args[0])
    ensures ParsedArgs("create " + args) == ParsedArgs("create " + Collapse(args))
  {
    var u, d := TrimRight(args), Collapse(TrimRight(args));
    StartStays(args);
    TrimRightEnds(args);
    CollapseFields(u);
    CollapseTrimmed(args);
    CollapseStart(args);
    CommandTrimmed(args);
    CommandTrimmed(Collapse(args));
    TrimOne(d);
    hide Fields, Collapse, TrimRight, ParseWords, TrimSpace, TrimPrefix;
    assert d + "" == d;
  }

  lemma CollapseStart(t: string)
    requires t != "" && !IsSpace(t[0])
    ensures Collapse(t) != "" && Collapse(t)[0] == t[0]
  {
    CollapseIsSquash(t);
  }

  lemma TrimOne(t: string)
    requires !EndsSpace(t)
    ensures TrimRight(t) == t && TrimRight(t + " ") == t
  {
    assert (t + " ")[..|t|] == t && (t + " ")[|t|] == ' ';
  }

  // ---------- Bare overrides ----------

  lemma {:induction false} LastWinsKeeps(parts: seq<string>, values: map<string, string>)
    ensures values.Keys <= ParseWords(parts, values).0.Keys
    decreases |parts|
  {
    if parts != [] && !(JSON_KEY <= parts[0]) {
      var i := IndexEq(parts[0]);
      if 0 < i < |parts[0]| {
        LastWinsKeeps(parts[1..], values[parts[0][..i] := parts[0][i + 1..]]);
      } else if !("{" <= parts[0]) {
        LastWinsKeeps(parts[1..], values);
      }
    }
  }

  /** The words of a text that starts with an opening brace. */
  lemma BareFields(over: string)
    requires over != "" && over[0] == '{' && !EndsSpace(over)
    ensures Fields(over) != [] && Fields(over)[0] == over[..WordLength(over)] && "{" <= Fields(over)[0]
    ensures Join(Fields(over)) == Collapse(over)
  {
    JoinFields(over);
    CollapseIsSquash(over);
    assert over[..WordLength(over)][0] == '{';
  }

  /**
    A bare {...} is taken as the override exactly when its first word has no
    '='; otherwise that word is read as a KEY=value pair.
   */
  lemma BareOverride(over: string)
    requires over != "" && over[0] == '{'
    ensures ParsedArgs("create " + over) == (map[], Collapse(TrimRight(over))) <==> '=' !in over[..WordLength(over)]
  {
    var o := TrimRight(over);
    StartStays(over);
    TrimRightEnds(over);
    SameWord(over);
    BareFields(o);
    CommandTrimmed(over);
    BareWords(Fields(o));
    FirstEq(Fields(o)[0]);
  }

  lemma SameWord(t: string)
    ensures WordLength(TrimRight(t)) == WordLength(t) && TrimRight(t)[..WordLength(t)] == t[..WordLength(t)]
  {
    TrimRightEnds(t);
    var o := TrimRight(t);
    assert forall i | 0 <= i < |o| :: o[i] == t[i];
    hide TrimRight;
    var n, m := WordLength(t), WordLength(o);
    assert m <= n;
    assert n <= |o|;
  }

  lemma FirstEq(w: string)
    ensures IndexEq(w) < |w| <==> '=' in w
  {
    if '=' in w {
      var i :| 0 <= i < |w| && w[i] == '=';
    }
  }

  lemma BareWords(parts: seq<string>)
    requires parts != [] && "{" <= parts[0]
    ensures IndexEq(parts[0]) == |parts[0]| ==> ParseWords(parts, map[]) == (map[], Join(parts))
    ensures IndexEq(parts[0]) < |parts[0]| ==> ParseWords(parts, map[]).0 != map[]
  {
    var w, i := parts[0], IndexEq(parts[0]);
    assert w[0] == "{"[0] == '{';
    assert !(JSON_KEY <= w) by { assert JSON_KEY[0] == 'j'; }
    if i < |w| {
      LastWinsKeeps(parts[1..], map[w[..i] := w[i + 1..]]);
      assert w[..i] in map[w[..i] := w[i + 1..]];
    }
  }
}
