/** Compacting JSON that holds no placeholder does not form one. */
module CompactNames {
  import opened Json
  import opened JsonComplete
  import opened Placeholders
  import opened Fill
  import opened Templates
  import opened Layout

  // ---------- Placeholders and occurrences ----------

  lemma {:induction false} CharsOnly(ts: seq<Token>, n: nat)
    requires n <= |TokensText(ts)| && forall i | 0 <= i < |ts| :: ts[i].Ch?
    ensures |TokensText(ts)| == |ts|
    ensures TokensText(ts[n..]) == TokensText(ts)[n..]
  {
    if ts == [] {
    } else if n == 0 {
      CharsOnly(ts[1..], 0);
      assert ts[0..] == ts;
    } else {
      assert |TokensText(ts)| == 1 + |TokensText(ts[1..])|;
      CharsOnly(ts[1..], n - 1);
      assert ts[n..] == ts[1..][n - 1..];
    }
  }

  /** A text in which a placeholder is written somewhere has a placeholder. */
  lemma OccurrenceCounts(a: string, name: string, b: string)
    requires IsName(name)
    ensures Names(a + HoleText(name) + b) != {}
  {
    var h, ts := HoleText(name), Tokens(a + HoleText(name) + b);
    HoleNonempty(name);
    TokensIsCut(a + h + b);
    hide HoleText, LeftmostCut, IsName, Tokens;
    Middle(a, h, b);
    SomeMark(a + h + b, ts, |a|, name);
    var i :| 0 <= i < |ts| && ts[i].Mark?;
    assert ts[i].name in Names(a + h + b);
  }

  lemma Middle(a: string, h: string, b: string)
    requires h != ""
    ensures |a| < |a + h + b| && h <= (a + h + b)[|a|..]
  {
    assert (a + h + b)[|a|..] == h + b;
  }

  lemma SomeMark(s: string, ts: seq<Token>, k: nat, name: string)
    requires LeftmostCut(s, ts) && IsName(name) && k < |s| && HoleText(name) <= s[k..]
    ensures exists i :: 0 <= i < |ts| && ts[i].Mark?
  {
    hide IsName, HoleText, TokensText;
    if forall i | 0 <= i < |ts| :: ts[i].Ch? {
      CharsOnly(ts, k);
      assert false;
    }
  }

  lemma {:induction false} TokensTextAppend(a: seq<Token>, b: seq<Token>)
    ensures TokensText(a + b) == TokensText(a) + TokensText(b)
  {
    if a == [] {
      assert a + b == b;
    } else {
      assert (a + b)[1..] == a[1..] + b;
      TokensTextAppend(a[1..], b);
    }
  }

  lemma {:induction false} RunTokensPrefix(ts: seq<Token>, n: nat)
    requires n <= |ts| && RunTokens(ts) != Dead
    ensures RunTokens(ts[..n]) != Dead
  {
    if n < |ts| {
      RunTokensPrefix(ts[..|ts| - 1], n);
      assert ts[..|ts| - 1][..n] == ts[..n];
    } else {
      assert ts[..n] == ts;
    }
  }

  /** In JSON every placeholder stands inside a string. */
  lemma PlaceholderInString(s: string) returns (a: string, name: string, b: string)
    requires Valid(s) && Names(s) != {}
    ensures s == a + HoleText(name) + b && IsName(name) && InString(Read(a))
  {
    var ts := Tokens(s);
    var n :| n in Names(s);
    name := n;
    var i :| 0 <= i < |ts| && ts[i] == Mark(name);
    MarksAreNames(s, i);
    TemplateIsJson(s);
    a, b := TokensText(ts[..i]), TokensText(ts[i + 1..]);
    CutAround(ts, i);
    TokensLossless(s);
    hide TokensText, Tokens, HoleText, IsName;
    MarkInString(ts, i);
    ReadVerbatim(s, i);
  }

  /** A scan that survives a placeholder was inside a string. */
  lemma MarkInString(ts: seq<Token>, i: nat)
    requires i < |ts| && ts[i].Mark? && RunTokens(ts) != Dead
    ensures RunTokens(ts[..i]) != Dead && InString(RunTokens(ts[..i]))
  {
    RunTokensPrefix(ts, i + 1);
    assert ts[..i + 1][..i] == ts[..i];
  }

  lemma CutAround(ts: seq<Token>, i: nat)
    requires i < |ts|
    ensures TokensText(ts) == TokensText(ts[..i]) + TokenText(ts[i]) + TokensText(ts[i + 1..])
  {
    hide TokensText, TokenText;
    var a, b := ts[..i], ts[i..];
    SplitTokens(ts, i);
    TokensTextAppend(a, b);
    TokensTextCons(ts[i], ts[i + 1..]);
  }

  lemma SplitTokens(ts: seq<Token>, i: nat)
    requires i < |ts|
    ensures ts == ts[..i] + ts[i..] && ts[i..] == [ts[i]] + ts[i + 1..]
  {
  }

  /** Reading the text before a token is reading its tokens, with holes spelled out. */
  lemma ReadVerbatim(s: string, i: nat)
    requires i <= |Tokens(s)| && RunTokens(Tokens(s)[..i]) != Dead
    ensures InString(Read(TokensText(Tokens(s)[..i]))) <==> InString(RunTokens(Tokens(s)[..i]))
  {
    var g, ts := Verbatim(Names(s)), Tokens(s)[..i];
    VerbatimCovers(s);
    CoversPrefix(g, Tokens(s), i);
    RenderVerbatim(ts, Names(s));
    hide Tokens, Verbatim, Names, Render, RunTokens, Read, WFFiller, Covers, FillState, InString, TokensText;
    Simulation(ts, g);
    FillInString(RunTokens(ts), g);
  }

  lemma FillInString(s: State, g: Filler)
    ensures InString(FillState(s, g)) <==> InString(s)
  {
  }

  lemma CoversPrefix(g: Filler, ts: seq<Token>, i: nat)
    requires i <= |ts| && Covers(g, ts)
    ensures Covers(g, ts[..i])
  {
    forall k | 0 <= k < i && ts[..i][k].Mark? ensures ts[..i][k].name in g {
      assert ts[k].Mark?;
    }
  }

  // ---------- Going back to the text before compaction ----------

  /** Some prefix of t squeezes to any given prefix of what t squeezes to. */
  lemma {:induction false} SqueezePrefix(t: string, z: string)
    requires z <= Squeeze(t)
    ensures exists n: nat :: n <= |t| && Squeeze(t[..n]) == z
  {
    if z == Squeeze(t) {
      assert t[..|t|] == t;
    } else {
      var n := |t| - 1;
      SqueezePrefix(t[..n], z);
      var m: nat :| m <= n && Squeeze(t[..n][..m]) == z;
      assert t[..n][..m] == t[..m];
    }
  }

  predicate PlainWord(h: string) {
    forall i | 0 <= i < |h| :: IsPlain(h[i]) && !IsWs(h[i])
  }

  lemma {:induction false} PlainWordStays(u: string, h: string)
    requires InString(Read(u)) && PlainWord(h)
    ensures InString(Read(u + h))
  {
    if h == "" {
      ReadNil(u);
    } else {
      var n := |h| - 1;
      PlainWordStays(u, h[..n]);
      assert u + h == (u + h[..n]) + [h[n]];
      ReadSnoc(u + h[..n], h[n]);
    }
  }

  lemma {:induction false} ReadPrefix(t: string, n: nat)
    requires n <= |t| && Read(t) != Dead
    ensures Read(t[..n]) != Dead
  {
    assert t == t[..n] + t[n..];
    RunAppend(START, t[..n], t[n..]);
    RunDead(t[n..]);
  }

  predicate EndsWith(t: string, h: string) {
    |h| <= |t| && t[|t| - |h|..] == h
  }

  lemma EndsWithSnoc(t: string, h: string, c: char)
    requires EndsWith(t, h)
    ensures EndsWith(t + [c], h + [c])
  {
  }

  lemma SnocCat(u: string, h: string, c: char, z: string, d: char)
    requires z + [d] == u + (h + [c])
    ensures z == u + h && d == c
  {
    assert (z + [d])[..|z|] == z && (u + (h + [c]))[..|u + h|] == u + h;
    assert (z + [d])[|z|] == d && (u + (h + [c]))[|u + h|] == c;
  }

  /** The last character of a word read inside a string is the last character before compaction. */
  lemma LastWasThere(p: string, d: char, u: string, h: string, c: char)
    requires Read(p) != Dead && Squeeze(p + [d]) == u + (h + [c]) && InString(Read(u)) && PlainWord(h + [c])
    ensures Squeeze(p) == u + h && d == c
  {
    SqueezeLags(p);
    PlainWordStays(u, h + [c]);
    InStringLags(Read(Squeeze(p)), Read(p));
    SqueezeSnoc(p, d);
    hide Read, Squeeze, Lags, PlainWord;
    if !Skipped(Read(p), d) {
      SnocCat(u, h, c, Squeeze(p), d);
    }
  }

  lemma PlainInit(h: string, c: char)
    requires PlainWord(h + [c])
    ensures PlainWord(h)
  {
    forall i | 0 <= i < |h| ensures IsPlain(h[i]) && !IsWs(h[i]) {
      assert (h + [c])[i] == h[i];
    }
  }

  /** A word read inside a string stood there, unbroken, before compaction. */
  lemma {:induction false} WordWasThere(t: string, u: string, h: string)
    requires Read(t) != Dead && Squeeze(t) == u + h && InString(Read(u)) && PlainWord(h)
    ensures EndsWith(t, h)
    decreases |h|
  {
    if h != "" {
      NotEmpty(t, u, h);
      var p, d, g, c := t[..|t| - 1], t[|t| - 1], h[..|h| - 1], h[|h| - 1];
      assert t == p + [d] && h == g + [c];
      ReadPrefix(t, |t| - 1);
      hide Read, Squeeze, PlainWord, InString;
      PlainInit(g, c);
      LastWasThere(p, d, u, g, c);
      WordWasThere(p, u, g);
      EndsWithSnoc(p, g, c);
    }
  }

  lemma NotEmpty(t: string, u: string, h: string)
    requires Squeeze(t) == u + h && h != ""
    ensures t != ""
  {
  }

  lemma InStringLags(x: State, s: State)
    requires Lags(x, Strip(s))
    ensures InString(x) <==> InString(s)
  {
  }

  lemma HoleIsPlainWord(name: string)
    requires IsName(name)
    ensures PlainWord(HoleText(name))
  {
    var h := HoleText(name);
    forall i | 0 <= i < |h| ensures IsPlain(h[i]) && !IsWs(h[i]) {
      assert h[i] == '{' || h[i] == '}' || h[i] in name;
    }
  }

  /** Where a placeholder of the compacted text came from. */
  lemma PlaceholderWasThere(t: string, a: string, name: string, b: string) returns (x: string, y: string)
    requires Read(t) != Dead && Squeeze(t) == a + HoleText(name) + b && IsName(name) && InString(Read(a))
    ensures t == x + HoleText(name) + y
  {
    var h := HoleText(name);
    HoleIsPlainWord(name);
    HoleNonempty(name);
    hide Read, Squeeze, HoleText, IsName, PlainWord;
    SqueezePrefix(t, a + h);
    var n: nat :| n <= |t| && Squeeze(t[..n]) == a + h;
    ReadPrefix(t, n);
    WordWasThere(t[..n], a, h);
    var k := n - |h|;
    x, y := t[..k], t[n..];
    Cut3(t, k, n);
  }

  lemma Cut3(t: string, k: nat, n: nat)
    requires k <= n <= |t|
    ensures t == t[..k] + t[..n][k..] + t[n..]
  {
    assert t[..n] == t[..k] + t[..n][k..];
  }

  lemma HoleNonempty(name: string)
    ensures HoleText(name) != ""
  {
  }

  /** Compaction creates no placeholder. */
  lemma CompactedHasNoNewNames(t: string)
    requires Valid(t) && Names(t) == {}
    ensures Names(Compacted(t)) == {}
  {
    CompactedParses(t);
    hide Names, Squeeze;
    if Names(Squeeze(t)) != {} {
      var a, name, b := PlaceholderInString(Squeeze(t));
      var x, y := PlaceholderWasThere(t, a, name, b);
      OccurrenceCounts(x, name, y);
    }
  }
}
