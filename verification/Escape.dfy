/**
  Writing a string as the body of a JSON string literal, as Go's json.Marshal
  does, and reading a literal's body back (RFC 8259, section 7).
 */
module Escape {
  import opened Json

  // ---------- Hexadecimal ----------

  function HexDigit(n: nat): char
    requires n < 16
  {
    if n < 10 then ('0' as int + n) as char else ('a' as int + n - 10) as char
  }

  function HexValue(c: char): nat {
    if IsDigit(c) then c as int - '0' as int
    else if 'a' <= c <= 'f' then c as int - 'a' as int + 10
    else if 'A' <= c <= 'F' then c as int - 'A' as int + 10
    else 0
  }

  /** Four hexadecimal digits, most significant first. */
  function Hex4(n: nat): string
    requires n < 0x10000
  {
    [HexDigit(n / 16 / 16 / 16), HexDigit(n / 16 / 16 % 16), HexDigit(n / 16 % 16), HexDigit(n % 16)]
  }

  function HexNumber(h: string): nat {
    if h == "" then 0 else 16 * HexNumber(h[..|h| - 1]) + HexValue(h[|h| - 1])
  }

  lemma HexDigitInverse(n: nat)
    requires n < 16
    ensures HexValue(HexDigit(n)) == n && IsHexDigit(HexDigit(n))
  {
  }

  lemma HexNumber4(a: char, b: char, c: char, d: char)
    ensures HexNumber([a, b, c, d]) == 4096 * HexValue(a) + 256 * HexValue(b) + 16 * HexValue(c) + HexValue(d)
  {
    hide HexValue;
    var h := [a, b, c, d];
    assert h[..3] == [a, b, c] && [a, b, c][..2] == [a, b] && [a, b][..1] == [a] && [a][..0] == "";
    assert HexNumber([a]) == HexValue(a);
    assert HexNumber([a, b]) == 16 * HexValue(a) + HexValue(b);
    assert HexNumber([a, b, c]) == 256 * HexValue(a) + 16 * HexValue(b) + HexValue(c);
  }

  lemma Hex4Inverse(n: nat)
    requires n < 0x10000
    ensures HexNumber(Hex4(n)) == n && WFPiece(Hex(Hex4(n)))
  {
    hide HexValue, HexDigit, HexNumber, IsHexDigit;
    var a, b, c, d := n / 16 / 16 / 16, n / 16 / 16 % 16, n / 16 % 16, n % 16;
    HexDigitInverse(a);
    HexDigitInverse(b);
    HexDigitInverse(c);
    HexDigitInverse(d);
    HexNumber4(HexDigit(a), HexDigit(b), HexDigit(c), HexDigit(d));
  }

  // ---------- Escaping ----------

  /** How json.Marshal spells one character: HTML-sensitive characters and line separators are escaped too. */
  function EscapeChar(c: char): Piece {
    if c == '"' || c == '\\' then Esc(c)
    else if c == '\U{8}' then Esc('b')
    else if c == '\U{C}' then Esc('f')
    else if c == '\n' then Esc('n')
    else if c == '\r' then Esc('r')
    else if c == '\t' then Esc('t')
    else if c < ' ' || c == '<' || c == '>' || c == '&' || c == '\U{2028}' || c == '\U{2029}' then Hex(Hex4(c as int))
    else Raw(c)
  }

  function EscapePieces(v: string): seq<Piece> {
    seq(|v|, i requires 0 <= i < |v| => EscapeChar(v[i]))
  }

  /** The output of json.Marshal for a string, without its outer quotes. */
  function EscapeText(v: string): string {
    PutPieces("", EscapePieces(v))
  }

  // ---------- Decoding ----------

  /** The code unit a piece stands for. */
  function Unit(p: Piece): nat {
    match p
    case Raw(c) => c as int
    case Esc(l) =>
      if l == 'b' then 8 else if l == 'f' then 12 else if l == 'n' then 10
      else if l == 'r' then 13 else if l == 't' then 9 else l as int
    case Hex(h) => HexNumber(h)
    case Hole(_) => 0xFFFD
  }

  predicate IsHigh(u: nat) {
    0xD800 <= u < 0xDC00
  }

  predicate IsLow(u: nat) {
    0xDC00 <= u < 0xE000
  }

  function Combine(high: nat, low: nat): char
    requires IsHigh(high) && IsLow(low)
  {
    (0x10000 + (high - 0xD800) * 0x400 + (low - 0xDC00)) as char
  }

  /** A unit on its own; an unpaired surrogate reads as U+FFFD. */
  function Single(u: nat): char {
    if IsHigh(u) || IsLow(u) || u >= 0x110000 then '\U{FFFD}' else u as char
  }

  predicate Pairs(ps: seq<Piece>) {
    |ps| >= 2 && IsHigh(Unit(ps[0])) && IsLow(Unit(ps[1]))
  }

  /** The string a literal's body denotes: a high surrogate directly before a low one forms one character. */
  function Decode(ps: seq<Piece>): string {
    if ps == [] then ""
    else if Pairs(ps) then [Combine(Unit(ps[0]), Unit(ps[1]))] + Decode(ps[2..])
    else [Single(Unit(ps[0]))] + Decode(ps[1..])
  }

  /** Escapes a writer may use although json.Marshal does not. */
  lemma OtherEscapes()
    ensures Decode([Esc('/')]) == "/" && Decode([Hex("00E9")]) == "\U{E9}" && Decode([Hex("00e9")]) == "\U{E9}"
    ensures Decode([Hex("d83d"), Hex("de00")]) == "\U{1F600}" && Decode([Hex("d83d")]) == "\U{FFFD}"
  {
    HexNumber4('0', '0', 'E', '9');
    HexNumber4('0', '0', 'e', '9');
    HexNumber4('d', '8', '3', 'd');
    HexNumber4('d', 'e', '0', '0');
    assert [Hex("d83d"), Hex("de00")][2..] == [];
    assert [Esc('/')][1..] == [] && [Hex("00E9")][1..] == [] && [Hex("00e9")][1..] == [] && [Hex("d83d")][1..] == [];
  }

  lemma EscapeCharCorrect(c: char)
    ensures WFPiece(EscapeChar(c)) && Unit(EscapeChar(c)) == c as int
  {
    if EscapeChar(c).Hex? { Hex4Inverse(c as int); }
  }

  lemma EscapePiecesWF(v: string)
    ensures WFPieces(EscapePieces(v))
  {
    forall i | 0 <= i < |v| ensures WFPiece(EscapePieces(v)[i]) {
      EscapeCharCorrect(v[i]);
    }
  }

  lemma DecodeFirst(p: Piece, rest: seq<Piece>)
    requires !IsHigh(Unit(p))
    ensures Decode([p] + rest) == [Single(Unit(p))] + Decode(rest)
  {
    hide Unit, Single;
    assert ([p] + rest)[1..] == rest;
  }

  lemma EscapePiecesHead(v: string, rest: seq<Piece>)
    requires v != ""
    ensures EscapePieces(v) + rest == [EscapeChar(v[0])] + (EscapePieces(v[1..]) + rest)
  {
    hide EscapeChar;
    assert EscapePieces(v) == [EscapeChar(v[0])] + EscapePieces(v[1..]);
  }

  /** Escaped text in front of anything decodes to the text itself. */
  lemma {:induction false} DecodeEscapePrefix(v: string, rest: seq<Piece>)
    ensures Decode(EscapePieces(v) + rest) == v + Decode(rest)
  {
    hide EscapeChar, Unit, Decode;
    if v == "" {
      assert EscapePieces(v) + rest == rest;
    } else {
      EscapeCharCorrect(v[0]);
      EscapePiecesHead(v, rest);
      DecodeFirst(EscapeChar(v[0]), EscapePieces(v[1..]) + rest);
      DecodeEscapePrefix(v[1..], rest);
      assert v + Decode(rest) == [v[0]] + (v[1..] + Decode(rest));
    }
  }

  /** Decoding inverts escaping. */
  lemma DecodeEscape(v: string)
    ensures Decode(EscapePieces(v)) == v
  {
    DecodeEscapePrefix(v, []);
    assert EscapePieces(v) + [] == EscapePieces(v);
  }

  lemma {:induction false} PutPiecesCat(a: string, ps: seq<Piece>)
    ensures PutPieces(a, ps) == a + PutPieces("", ps)
  {
    if ps != [] {
      var n := |ps| - 1;
      PutPiecesCat(a, ps[..n]);
      PutPieceCat(a, PutPieces("", ps[..n]), ps[n]);
    }
  }

  lemma PutPieceCat(a: string, b: string, p: Piece)
    ensures PutPiece(a + b, p) == a + PutPiece(b, p)
  {
  }

  /** Characters that never appear in escaped text as they are. */
  predicate NeverRaw(c: char) {
    c < ' ' || c == '<' || c == '>' || c == '&' || c == '\U{2028}' || c == '\U{2029}'
  }

  /** A value free of quotes, backslashes and such characters is spelled as itself. */
  lemma {:induction false} EscapeTextPlain(v: string)
    requires forall i | 0 <= i < |v| :: v[i] != '"' && v[i] != '\\' && !NeverRaw(v[i])
    ensures EscapeText(v) == v
  {
    if v != "" {
      var n := |v| - 1;
      EscapeTextPlain(v[..n]);
      assert EscapePieces(v)[..n] == EscapePieces(v[..n]);
      assert v == v[..n] + [v[n]];
    }
  }

  /** Escaping goes character by character. */
  lemma {:induction false} EscapeTextAppend(a: string, b: string)
    ensures EscapeText(a + b) == EscapeText(a) + EscapeText(b)
  {
    if b == "" {
      assert a + b == a;
      assert EscapeText("") == "" && EscapeText(a) + "" == EscapeText(a);
    } else {
      var n := |b| - 1;
      hide EscapeText, EscapeChar, PutPiece;
      EscapeTextAppend(a, b[..n]);
      assert (a + b)[..|a| + n] == a + b[..n] && (a + b)[|a| + n] == b[n];
      EscapeTextSnoc(a + b, |a| + n);
      EscapeTextSnoc(b, n);
      PutPieceCat(EscapeText(a), EscapeText(b[..n]), EscapeChar(b[n]));
    }
  }

  lemma EscapeTextSnoc(v: string, n: nat)
    requires |v| == n + 1
    ensures EscapeText(v) == PutPiece(EscapeText(v[..n]), EscapeChar(v[n]))
  {
    assert EscapePieces(v)[..n] == EscapePieces(v[..n]);
  }

  lemma EscapeOne(c: char)
    ensures EscapeText([c]) == PutPiece("", EscapeChar(c))
  {
    assert [c][..0] == "";
    EscapeTextSnoc([c], 0);
  }

  /** How the special characters are spelled. */
  lemma EscapeSpecials()
    ensures EscapeText("\"") == "\\\"" && EscapeText("\\") == "\\\\"
    ensures EscapeText("\n") == "\\n" && EscapeText("\r") == "\\r" && EscapeText("\t") == "\\t"
    ensures EscapeText("\U{8}") == "\\b" && EscapeText("\U{C}") == "\\f"
    ensures EscapeText("&") == "\\u0026" && EscapeText("<") == "\\u003c" && EscapeText(">") == "\\u003e"
  {
    hide EscapeText;
    EscapeOne('"');
    EscapeOne('\\');
    EscapeOne('\n');
    EscapeOne('\r');
    EscapeOne('\t');
    EscapeOne('\U{8}');
    EscapeOne('\U{C}');
    EscapeOne('&');
    EscapeOne('<');
    EscapeOne('>');
  }

  predicate AllSafe(t: string) {
    forall i | 0 <= i < |t| :: !NeverRaw(t[i])
  }

  lemma PieceSafe(a: string, c: char)
    requires AllSafe(a)
    ensures AllSafe(PutPiece(a, EscapeChar(c)))
  {
    EscapeCharCorrect(c);
    assert EscapeChar(c).Hex? ==> forall i | 0 <= i < 4 :: IsHexDigit(EscapeChar(c).digits[i]);
  }

  /** Escaped text holds no control character, no line separator and nothing that is special in HTML. */
  lemma {:induction false} EscapeTextSafe(v: string)
    ensures AllSafe(EscapeText(v))
  {
    if v != "" {
      var n := |v| - 1;
      EscapeTextSafe(v[..n]);
      assert EscapePieces(v)[..n] == EscapePieces(v[..n]);
      PieceSafe(EscapeText(v[..n]), v[n]);
    }
  }
}
