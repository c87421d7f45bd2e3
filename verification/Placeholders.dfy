/** The leftmost scan of a template for {{NAME}} placeholders. */
module Placeholders {
  import opened Options
  import opened Json
  import opened Order

  /** A template character, or a whole placeholder. */
  datatype Token = Ch(c: char) | Mark(name: string)

  predicate IsUpper(c: char) {
    'A' <= c <= 'Z'
  }

  predicate IsNameChar(c: char) {
    IsUpper(c) || IsDigit(c) || c == '_'
  }

  /** [A-Z][A-Z0-9_]* */
  predicate IsName(s: string) {
    s != "" && IsUpper(s[0]) && forall i | 0 <= i < |s| :: IsNameChar(s[i])
  }

  function TokenText(t: Token): string {
    match t
    case Ch(c) => [c]
    case Mark(name) => HoleText(name)
  }

  function TokensText(ts: seq<Token>): string {
    if ts == [] then "" else TokenText(ts[0]) + TokensText(ts[1..])
  }

  /** The length of the longest run of name characters that starts s. */
  function NameRun(s: string): nat {
    if s != "" && IsNameChar(s[0]) then 1 + NameRun(s[1..]) else 0
  }

  /** The name of the placeholder that starts s, if one does. */
  function MatchAt(s: string): Option<string> {
    if |s| >= 3 && s[0] == '{' && s[1] == '{' && IsUpper(s[2]) then
      var n := NameRun(s[2..]);
      if 2 + n + 2 <= |s| && s[2 + n] == '}' && s[3 + n] == '}' then Some(s[2..2 + n]) else None
    else None
  }

  lemma {:induction false} NameRunBounds(s: string)
    ensures NameRun(s) <= |s|
    ensures forall i | 0 <= i < NameRun(s) :: IsNameChar(s[i])
    ensures NameRun(s) < |s| ==> !IsNameChar(s[NameRun(s)])
  {
    if s != "" && IsNameChar(s[0]) { NameRunBounds(s[1..]); }
  }

  /** MatchAt finds a placeholder exactly when the text starts with one, and it can be only that one. */
  lemma MatchAtSpec(s: string, name: string)
    ensures MatchAt(s) == Some(name) <==> IsName(name) && HoleText(name) <= s
  {
    if |s| >= 3 { NameRunBounds(s[2..]); }
    var h := HoleText(name);
    assert |h| == |name| + 4 && h[0] == '{' && h[1] == '{' && h[2..2 + |name|] == name;
    assert h[2 + |name|] == '}' && h[3 + |name|] == '}';
    if MatchAt(s) == Some(name) {
      assert h == s[..|name| + 4];
    }
    if IsName(name) && h <= s {
      assert forall i | 0 <= i < |h| :: h[i] == s[i];
      assert forall i | 0 <= i < |name| :: name[i] == s[2..][i];
      assert s[2..][|name|] == '}';
      assert NameRun(s[2..]) == |name|;
      assert s[2..2 + |name|] == name;
    }
  }

  function MatchLength(name: string): nat {
    |name| + 4
  }

  lemma MatchFits(s: string)
    requires MatchAt(s).Some?
    ensures HoleText(MatchAt(s).value) <= s && IsName(MatchAt(s).value)
    ensures s == HoleText(MatchAt(s).value) + s[MatchLength(MatchAt(s).value)..]
  {
    MatchAtSpec(s, MatchAt(s).value);
  }

  /** The leftmost, non-overlapping scan: a placeholder wherever one starts, else one character. */
  function Tokens(s: string): (ts: seq<Token>)
    decreases |s|
  {
    if s == "" then []
    else
      match MatchAt(s)
      case None => [Ch(s[0])] + Tokens(s[1..])
      case Some(name) =>
        MatchFits(s);
        [Mark(name)] + Tokens(s[MatchLength(name)..])
  }

  lemma TokensTextCons(t: Token, ts: seq<Token>)
    ensures TokensText([t] + ts) == TokenText(t) + TokensText(ts)
  {
    assert ([t] + ts)[1..] == ts;
  }

  /** The scan loses nothing. */
  lemma {:induction false} TokensLossless(s: string)
    ensures TokensText(Tokens(s)) == s
    decreases |s|
  {
    if s != "" {
      hide TokensText, NameRun, HoleText;
      match MatchAt(s)
      case None =>
        TokensLossless(s[1..]);
        TokensTextCons(Ch(s[0]), Tokens(s[1..]));
        assert s == [s[0]] + s[1..];
      case Some(name) =>
        MatchFits(s);
        hide MatchAt;
        TokensLossless(s[MatchLength(name)..]);
        TokensTextCons(Mark(name), Tokens(s[MatchLength(name)..]));
    }
  }

  /** ts cuts s into placeholders and single characters, and never reads on past the start of a placeholder. */
  ghost predicate LeftmostCut(s: string, ts: seq<Token>) {
    && TokensText(ts) == s
    && (forall k | 0 <= k < |ts| && ts[k].Mark? :: IsName(ts[k].name))
    && (forall k, name | 0 <= k < |ts| && ts[k].Ch? && IsName(name) :: !(HoleText(name) <= TokensText(ts[k..])))
  }

  /** Tokens is the one and only leftmost cut. */
  lemma TokensUnique(s: string, ts: seq<Token>)
    ensures LeftmostCut(s, ts) <==> ts == Tokens(s)
  {
    if LeftmostCut(s, ts) { CutIsTokens(s, ts); }
    TokensIsCut(s);
  }

  lemma CutTail(s: string, ts: seq<Token>)
    requires LeftmostCut(s, ts) && ts != []
    ensures LeftmostCut(TokensText(ts[1..]), ts[1..])
  {
    hide HoleText, IsName;
    var rest := ts[1..];
    forall k | 0 <= k < |rest| ensures rest[k] == ts[k + 1] && rest[k..] == ts[k + 1..] {}
  }

  lemma {:induction false} CutIsTokens(s: string, ts: seq<Token>)
    requires LeftmostCut(s, ts)
    ensures ts == Tokens(s)
    decreases |ts|
  {
    hide HoleText, NameRun, IsName;
    if ts != [] {
      CutTail(s, ts);
      CutIsTokens(TokensText(ts[1..]), ts[1..]);
      CutHead(s, ts);
    }
  }

  lemma CutHead(s: string, ts: seq<Token>)
    requires LeftmostCut(s, ts) && ts != []
    ensures Tokens(s) == [ts[0]] + Tokens(TokensText(ts[1..]))
  {
    var t, rest := ts[0], TokensText(ts[1..]);
    assert ts[0..] == ts && s == TokenText(t) + rest;
    if t.Mark? {
      MatchAtSpec(s, t.name);
      assert s[MatchLength(t.name)..] == rest;
    } else {
      if MatchAt(s).Some? { MatchFits(s); assert false; }
      assert s[1..] == rest;
    }
  }

  lemma CutCons(t: Token, rest: string, ts: seq<Token>)
    requires LeftmostCut(rest, ts)
    requires t.Mark? ==> IsName(t.name)
    requires t.Ch? ==> forall name | IsName(name) :: !(HoleText(name) <= TokenText(t) + rest)
    ensures LeftmostCut(TokenText(t) + rest, [t] + ts)
  {
    hide HoleText, IsName;
    var all := [t] + ts;
    assert all[1..] == ts && all[0..] == all;
    forall k | 1 <= k < |all| ensures all[k] == ts[k - 1] && all[k..] == ts[k - 1..] {}
  }

  lemma {:induction false} TokensIsCut(s: string)
    ensures LeftmostCut(s, Tokens(s))
    decreases |s|
  {
    hide LeftmostCut, NameRun, IsName;
    if s == "" {
      EmptyCut();
    } else {
      forall name | IsName(name) ensures HoleText(name) <= s <==> MatchAt(s) == Some(name) {
        MatchAtSpec(s, name);
      }
      if MatchAt(s).Some? {
        MatchFits(s);
        var name := MatchAt(s).value;
        TokensIsCut(s[MatchLength(name)..]);
        CutCons(Mark(name), s[MatchLength(name)..], Tokens(s[MatchLength(name)..]));
      } else {
        TokensIsCut(s[1..]);
        assert s == [s[0]] + s[1..];
        CutCons(Ch(s[0]), s[1..], Tokens(s[1..]));
      }
    }
  }

  lemma EmptyCut()
    ensures LeftmostCut("", Tokens(""))
  {
  }

  /** The placeholder names of a template. */
  function Names(s: string): set<string> {
    set t | t in Tokens(s) && t.Mark? :: t.name
  }

  /** regexp.FindAllStringSubmatch: the name of every placeholder, in order of appearance. */
  function AllMatches(ts: seq<Token>): seq<string> {
    if ts == [] then [] else (if ts[0].Mark? then [ts[0].name] else []) + AllMatches(ts[1..])
  }

  lemma {:induction false} AllMatchesNames(ts: seq<Token>)
    ensures forall n :: n in AllMatches(ts) <==> Mark(n) in ts
  {
    if ts != [] {
      AllMatchesNames(ts[1..]);
      assert ts == [ts[0]] + ts[1..];
    }
  }

  /** The distinct placeholder names of a template in ascending order. */
  method ExtractPlaceholders(template: string) returns (names: seq<string>)
    ensures StrictlySorted(names)
    ensures forall n :: n in names <==> n in Names(template)
  {
    var matches := AllMatches(Tokens(template));
    AllMatchesNames(Tokens(template));
    if |matches| == 0 {
      return [];
    }
    var seen: set<string> := {};
    names := [];
    for i := 0 to |matches|
      invariant Distinct(names)
      invariant forall n :: n in names <==> n in seen
      invariant forall n :: n in seen <==> n in matches[..i]
    {
      var name := matches[i];
      if name !in seen {
        seen := seen + {name};
        names := names + [name];
      }
      assert matches[..i + 1] == matches[..i] + [name];
    }
    assert matches[..|matches|] == matches;
    SortStringsSorts(names);
    names := SortStrings(names);
  }
}
