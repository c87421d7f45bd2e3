/** Inputs at which the code does not do what its comments or its users may expect. */
module Shortfalls {
  import opened Options
  import opened Json
  import opened JsonComplete
  import opened Templates
  import opened Layout
  import opened Reflow
  import opened Escape
  import opened Objects
  import opened Merge
  import opened MergeHeap
  import opened Args

  // ---------- Objects with one member ----------

  function OneMember(key: string, v: Value): Value {
    Obj(Member(NoMembers, "", RawPieces(key), "", "", v, ""), "")
  }

  lemma AllPlain(t: string)
    requires forall i | 0 <= i < |t| :: IsPlain(t[i])
    ensures WFPieces(RawPieces(t))
  {
  }

  /** The text of an object with one member parses to it. */
  lemma OneMemberParses(key: string, v: Value)
    requires (forall i | 0 <= i < |key| :: IsPlain(key[i])) && WFValue(v) && Depth(v) == 0
    ensures Parse(PutValue("{\"" + key + "\":", v) + "}") == Some(Doc("", OneMember(key, v), ""))
  {
    OneMemberWF(key, v);
    OneMemberText(key, v);
    hide OneMember, PutValue, Parse;
    ParseComplete(Doc("", OneMember(key, v), ""));
  }

  lemma OneMemberWF(key: string, v: Value)
    requires (forall i | 0 <= i < |key| :: IsPlain(key[i])) && WFValue(v) && Depth(v) == 0
    ensures WFDoc(Doc("", OneMember(key, v), ""))
  {
    AllPlain(key);
    var mems := OneMember(key, v).mems;
    hide RawPieces, WFPieces, IsPlain;
    assert WFMembers(NoMembers) && MembersDepth(NoMembers) == 0;
    assert WFMembers(mems) && MembersDepth(mems) == 0;
  }

  lemma OneMemberText(key: string, v: Value)
    ensures DocText(Doc("", OneMember(key, v), "")) == PutValue("{\"" + key + "\":", v) + "}"
  {
    PutRawPieces("{\"", key);
    hide PutPieces;
    var mems := OneMember(key, v).mems;
    assert "" + ['{'] == "{" && "{" + "" == "{" && "{" + ['"'] == "{\"";
    assert PutStr("{", RawPieces(key)) == "{\"" + key + ['"'];
    var name := PutName("{", "", RawPieces(key), "");
    assert name == "{\"" + key + "\":";
    assert PutMembers("{", mems) == PutValue(name + "", v) + "";
    assert name + "" == name;
  }

  // ---------- Spaces in a Slack override ----------

  const TWO_SPACES := "{\"a\":\"x  y\"}"
  const ONE_SPACE := "{\"a\":\"x y\"}"

  lemma TextMember(key: string, s: string)
    requires (forall i | 0 <= i < |key| :: IsPlain(key[i])) && (forall i | 0 <= i < |s| :: IsPlain(s[i]))
    ensures Parse("{\"" + key + "\":\"" + s + "\"}") == Some(Doc("", OneMember(key, Str(RawPieces(s))), ""))
  {
    AllPlain(s);
    var a := "{\"" + key + "\":";
    PutRawPieces(a + ['"'], s);
    hide RawPieces, WFPieces, Parse, PutPieces;
    OneMemberParses(key, Str(RawPieces(s)));
    assert PutStr(a, RawPieces(s)) + "}" == "{\"" + key + "\":\"" + s + "\"}";
  }

  /** A double space between two words collapses. */
  lemma DoubleSpace(w: string, end: string)
    requires NoSpace(w) && NoSpace(end) && w != "" && end != ""
    ensures Collapse(w + ("  " + end)) == w + (" " + end)
  {
    var rest := "  " + end;
    hide Squash, Collapse, NoSpace;
    CollapseIsSquash(w + rest);
    SquashWord(w, rest, false);
    TwoSpacesSquash(end);
  }

  lemma TwoSpacesSquash(end: string)
    requires NoSpace(end) && end != ""
    ensures Squash("  " + end, false) == " " + end
  {
    var rest := "  " + end;
    SquashWord(end, "", true);
    assert end + "" == end && Squash("", false) == "";
    hide NoSpace;
    assert rest[1..] == " " + end && rest[1..][1..] == end;
    assert Squash(rest[1..], true) == Squash(end, true);
  }

  /** Reading a command that is nothing but an override. */
  lemma OnlyOverride(over: string)
    requires !EndsSpace(over)
    ensures ParsedArgs(CommandText([], Keyed(over))) == (map[], Collapse(over))
  {
    ArgsRoundTrip([], Keyed(over));
    assert TrimRight(over) == over;
  }

  lemma TwoSpacesCollapse()
    ensures Collapse(TWO_SPACES) == ONE_SPACE && !EndsSpace(TWO_SPACES)
  {
    hide Collapse;
    var w, end := "{\"a\":\"x", "y\"}";
    DoubleSpace(w, end);
    assert TWO_SPACES == w + ("  " + end) && ONE_SPACE == w + (" " + end);
  }

  lemma SpacesParse()
    ensures Parse(TWO_SPACES) == Some(Doc("", OneMember("a", Str(RawPieces("x  y"))), ""))
    ensures Parse(ONE_SPACE) == Some(Doc("", OneMember("a", Str(RawPieces("x y"))), ""))
  {
    hide Parse, RawPieces;
    TextMember("a", "x  y");
    TextMember("a", "x y");
    assert "{\"" + "a" + "\":\"" + "x  y" + "\"}" == TWO_SPACES;
    assert "{\"" + "a" + "\":\"" + "x y" + "\"}" == ONE_SPACE;
  }

  lemma OtherText(d: Doc, e: Doc, key: string, s: string, t: string)
    requires d == Doc("", OneMember(key, Str(RawPieces(s))), "")
    requires e == Doc("", OneMember(key, Str(RawPieces(t))), "")
    requires |s| != |t|
    ensures StripDoc(d) != StripDoc(e)
  {
    assert |RawPieces(s)| != |RawPieces(t)|;
    hide RawPieces;
    var m, n := d.v.mems, e.v.mems;
    assert StripMembers(m).v == Str(RawPieces(s));
    assert StripMembers(n).v == Str(RawPieces(t));
  }

  /** Two spaces in a string of a Slack override arrive as one. */
  lemma SpacesLost()
    ensures Valid(TWO_SPACES) && !WellSpaced(TWO_SPACES)
    ensures ParsedArgs(CommandText([], Keyed(TWO_SPACES))) == (map[], ONE_SPACE)
    ensures Valid(ONE_SPACE) && Meaning(ONE_SPACE) != Meaning(TWO_SPACES)
  {
    SpacesParse();
    hide Parse, RawPieces, OneMember, Collapse, WellSpaced, ParsedArgs, CommandText, StripDoc;
    TwoSpacesCollapse();
    OnlyOverride(TWO_SPACES);
    OtherText(Parse(TWO_SPACES).value, Parse(ONE_SPACE).value, "a", "x  y", "x y");
    CollapseKeepsMeaning(TWO_SPACES);
  }

  // ---------- A bare override with an equals sign ----------

  const BARE := "{\"k\":\"a=b\"}"

  /** A single word with an equals sign is a pair, braces or not. */
  lemma OneWord(w: string, i: nat)
    requires NoSpace(w) && w != "" && !(JSON_KEY <= w) && 0 < i < |w| && i == IndexEq(w)
    ensures ParsedArgs("create " + w) == (map[w[..i] := w[i + 1..]], "")
  {
    CommandTrimmed(w);
    FieldsWord(w, "");
    assert TrimRight(w) == w;
    PairOnly(w, i);
    hide IndexEq, TrimRight, TrimSpace, TrimPrefix, Fields, ParseWords, NoSpace;
  }

  lemma PairOnly(w: string, i: nat)
    requires !(JSON_KEY <= w) && 0 < i < |w| && i == IndexEq(w)
    ensures ParseWords([w], map[]) == (map[w[..i] := w[i + 1..]], "")
  {
    hide IndexEq;
    assert [w][1..] == [];
    assert ParseWords([], map[w[..i] := w[i + 1..]]) == (map[w[..i] := w[i + 1..]], "");
  }

  lemma IndexAt(w: string, i: nat)
    requires i < |w| && w[i] == '=' && forall k | 0 <= k < i :: w[k] != '='
    ensures IndexEq(w) == i
  {
  }

  lemma BareNoSpace()
    ensures NoSpace(BARE)
  {
    forall i | 0 <= i < |BARE| ensures !IsSpace(BARE[i]) {}
  }

  lemma BareIndex()
    ensures IndexEq(BARE) == 7 && !(JSON_KEY <= BARE)
  {
    hide IndexEq;
    assert BARE[0] == '{' && JSON_KEY[0] == 'j';
    IndexAt(BARE, 7);
  }

  lemma BareParts()
    ensures BARE[..7] == "{\"k\":\"a" && BARE[8..] == "b\"}"
  {
  }

  lemma BareParses()
    ensures Valid(BARE)
  {
    hide Parse, RawPieces;
    TextMember("k", "a=b");
    assert "{\"" + "k" + "\":\"" + "a=b" + "\"}" == BARE;
  }

  /** A bare override whose first word has an equals sign is read as a pair. */
  lemma BareReadAsPair()
    ensures Valid(BARE)
    ensures ParsedArgs("create " + BARE) == (map["{\"k\":\"a" := "b\"}"], "")
  {
    BareParses();
    BareNoSpace();
    BareIndex();
    BareParts();
    hide Parse, ParsedArgs, NoSpace, IndexEq;
    OneWord(BARE, 7);
  }

  // ---------- A null base ----------

  const ONE_NAME := "{\"a\":1}"

  lemma NullParses()
    ensures Unmarshal("null") == Some(DNull)
  {
    var d := Doc("", Literal(Null), "");
    assert DocText(d) == "null";
    ParseComplete(d);
  }

  lemma OneNameParses()
    ensures Unmarshal(ONE_NAME).Some? && Unmarshal(ONE_NAME).value.DObj? && Unmarshal(ONE_NAME).value != EMPTY
  {
    hide Parse;
    assert NumScan("1") == Some(Int);
    OneMemberParses("a", Num("1"));
    assert "{\"" + "a" + "\":" + "1" + "}" == ONE_NAME;
    var mems := OneMember("a", Num("1")).mems;
    hide RawPieces, Decode;
    assert Decode(mems.key) in MembersData(mems);
  }

  /** Merging into null writes to a nil map. */
  lemma NullBasePanics()
    ensures MergeText("null", ONE_NAME) == NilMapPanic
  {
    NullParses();
    OneNameParses();
    hide Unmarshal;
  }
}
