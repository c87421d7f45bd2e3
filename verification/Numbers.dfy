/** The scanner's number automaton accepts exactly the numbers of RFC 8259, section 6. */
module Numbers {
  import opened Options
  import opened Json

  /** minus, int, frac and exp as section 6 names them. */
  datatype Parts = Parts(minus: string, whole: string, frac: string, exp: string)

  function Text(p: Parts): string {
    p.minus + p.whole + p.frac + p.exp
  }

  predicate Digits(s: string) {
    s != "" && forall i | 0 <= i < |s| :: IsDigit(s[i])
  }

  predicate IsMinus(s: string) {
    s == "" || s == "-"
  }

  predicate IsWhole(s: string) {
    s == "0" || (Digits(s) && s[0] != '0')
  }

  predicate IsFrac(s: string) {
    |s| >= 2 && s[0] == '.' && Digits(s[1..])
  }

  predicate IsE(c: char) {
    c == 'e' || c == 'E'
  }

  predicate IsSign(c: char) {
    c == '+' || c == '-'
  }

  predicate IsExp(s: string) {
    |s| >= 2 && IsE(s[0]) && (Digits(s[1..]) || (|s| >= 3 && IsSign(s[1]) && Digits(s[2..])))
  }

  predicate IsNumber(p: Parts) {
    IsMinus(p.minus) && IsWhole(p.whole) && (p.frac == "" || IsFrac(p.frac)) && (p.exp == "" || IsExp(p.exp))
  }

  /** The parts read so far when the automaton is in a state. */
  predicate ReadSoFar(n: NumState, p: Parts) {
    match n
    case Minus => p == Parts("-", "", "", "")
    case Zero => IsMinus(p.minus) && p.whole == "0" && p.frac == "" && p.exp == ""
    case Int => IsMinus(p.minus) && Digits(p.whole) && p.whole[0] != '0' && p.frac == "" && p.exp == ""
    case Dot => IsMinus(p.minus) && IsWhole(p.whole) && p.frac == "." && p.exp == ""
    case Frac => IsMinus(p.minus) && IsWhole(p.whole) && IsFrac(p.frac) && p.exp == ""
    case E => IsMinus(p.minus) && IsWhole(p.whole) && (p.frac == "" || IsFrac(p.frac)) && |p.exp| == 1 && IsE(p.exp[0])
    case ESign =>
      && IsMinus(p.minus) && IsWhole(p.whole) && (p.frac == "" || IsFrac(p.frac))
      && |p.exp| == 2 && IsE(p.exp[0]) && IsSign(p.exp[1])
    case Exp => IsMinus(p.minus) && IsWhole(p.whole) && (p.frac == "" || IsFrac(p.frac)) && IsExp(p.exp)
  }

  /** The parts after one more character. */
  function More(n: NumState, p: Parts, c: char): Parts {
    match n
    case Minus => p.(whole := [c])
    case Zero => if c == '.' then p.(frac := [c]) else p.(exp := [c])
    case Int => if IsDigit(c) then p.(whole := p.whole + [c]) else if c == '.' then p.(frac := [c]) else p.(exp := [c])
    case Dot => p.(frac := p.frac + [c])
    case Frac => if IsDigit(c) then p.(frac := p.frac + [c]) else p.(exp := [c])
    case _ => p.(exp := p.exp + [c])
  }

  lemma DigitsSnoc(s: string, c: char)
    requires (s == "" || Digits(s)) && IsDigit(c)
    ensures Digits(s + [c])
  {
  }

  lemma MoreReads(n: NumState, p: Parts, c: char)
    requires ReadSoFar(n, p) && NumStep(n, c).Some?
    ensures ReadSoFar(NumStep(n, c).value, More(n, p, c)) && Text(More(n, p, c)) == Text(p) + [c]
  {
    MoreText(n, p, c);
    hide Text;
    if IsDigit(c) {
      DigitsSnoc(p.whole, c);
      match n
      case Dot => assert (p.frac + [c])[1..] == [c];
      case Frac =>
        DigitsSnoc(p.frac[1..], c);
        assert (p.frac + [c])[1..] == p.frac[1..] + [c];
      case E => assert (p.exp + [c])[1..] == [c];
      case ESign => assert (p.exp + [c])[2..] == [c];
      case Exp => ExpSnoc(p.exp, c);
      case _ =>
    }
  }

  lemma ExpSnoc(s: string, c: char)
    requires IsExp(s) && IsDigit(c)
    ensures IsExp(s + [c])
  {
    if Digits(s[1..]) {
      DigitsSnoc(s[1..], c);
      assert (s + [c])[1..] == s[1..] + [c];
    } else {
      DigitsSnoc(s[2..], c);
      assert (s + [c])[2..] == s[2..] + [c];
    }
  }

  lemma MoreText(n: NumState, p: Parts, c: char)
    requires ReadSoFar(n, p) && NumStep(n, c).Some?
    ensures Text(More(n, p, c)) == Text(p) + [c]
  {
  }

  lemma {:induction false} ScanReads(t: string) returns (p: Parts)
    requires NumScan(t).Some?
    ensures ReadSoFar(NumScan(t).value, p) && Text(p) == t
  {
    var k := |t| - 1;
    assert t == t[..k] + [t[k]];
    if k == 0 {
      p := if t == "-" then Parts(t, "", "", "") else Parts("", t, "", "");
    } else {
      var q := ScanReads(t[..k]);
      MoreReads(NumScan(t[..k]).value, q, t[k]);
      p := More(NumScan(t[..k]).value, q, t[k]);
    }
  }

  lemma ScanSnoc(t: string, c: char)
    requires t != ""
    ensures NumScan(t + [c]) == if NumScan(t).None? then None else NumStep(NumScan(t).value, c)
  {
    assert (t + [c])[..|t|] == t;
  }

  /** Reading digits where digits may follow stays in the state they lead to. */
  lemma {:induction false} ScanDigits(t: string, d: string, n: NumState)
    requires t != "" && Digits(d)
    requires NumScan(t).Some? && forall c | IsDigit(c) :: NumStep(NumScan(t).value, c) == Some(n)
    requires forall c | IsDigit(c) :: NumStep(n, c) == Some(n)
    ensures NumScan(t + d) == Some(n)
  {
    var k := |d| - 1;
    assert t + d == (t + d[..k]) + [d[k]];
    ScanSnoc(t + d[..k], d[k]);
    if k == 0 {
      assert t + d[..0] == t;
    } else {
      ScanDigits(t, d[..k], n);
    }
  }

  lemma ScanWhole(minus: string, w: string)
    requires IsMinus(minus) && IsWhole(w)
    ensures NumScan(minus + w) == Some(if w == "0" then Zero else Int)
  {
    var t := minus + [w[0]];
    if minus == "" {
      assert t == [w[0]];
    } else {
      ScanSnoc("-", w[0]);
    }
    assert NumScan(t) == Some(if w == "0" then Zero else Int);
    assert minus + w == t + w[1..];
    if |w| > 1 {
      ScanDigits(t, w[1..], Int);
    } else {
      assert t + w[1..] == t;
    }
  }

  lemma ScanFrac(t: string, f: string)
    requires t != "" && NumScan(t).Some? && (NumScan(t).value.Zero? || NumScan(t).value.Int?) && IsFrac(f)
    ensures NumScan(t + f) == Some(Frac)
  {
    ScanSnoc(t, '.');
    assert t + f == (t + ['.']) + f[1..];
    ScanDigits(t + ['.'], f[1..], Frac);
  }

  lemma ScanExp(t: string, e: string)
    requires t != "" && NumScan(t).Some? && NumDone(NumScan(t).value) && !NumScan(t).value.Exp? && IsExp(e)
    ensures NumScan(t + e) == Some(Exp)
  {
    ScanSnoc(t, e[0]);
    if Digits(e[1..]) {
      assert t + e == (t + [e[0]]) + e[1..];
      ScanDigits(t + [e[0]], e[1..], Exp);
    } else {
      ScanSnoc(t + [e[0]], e[1]);
      assert t + e == (t + [e[0]] + [e[1]]) + e[2..];
      ScanDigits(t + [e[0]] + [e[1]], e[2..], Exp);
    }
  }

  lemma NumberScans(p: Parts)
    requires IsNumber(p)
    ensures NumScan(Text(p)).Some? && NumDone(NumScan(Text(p)).value)
  {
    ScanWhole(p.minus, p.whole);
    var t := p.minus + p.whole;
    hide NumScan, IsWhole, IsFrac, IsExp, Digits;
    if p.frac != "" {
      NotEmptyWhole(p);
      ScanFrac(t, p.frac);
    }
    assert p.frac == "" ==> t + p.frac == t;
    if p.exp != "" {
      NotEmptyWhole(p);
      ScanExp(t + p.frac, p.exp);
    }
    assert p.exp == "" ==> t + p.frac + p.exp == t + p.frac;
  }

  lemma NotEmptyWhole(p: Parts)
    requires IsNumber(p)
    ensures p.minus + p.whole != "" && p.minus + p.whole + p.frac != ""
  {
  }

  /** A number value is well formed exactly when its text is minus, int, frac and exp as the RFC writes them. */
  lemma NumberGrammar(t: string)
    ensures WFValue(Num(t)) <==> exists p :: IsNumber(p) && Text(p) == t
  {
    if WFValue(Num(t)) {
      var p := ScanReads(t);
      assert IsNumber(p);
    }
    forall p | IsNumber(p) && Text(p) == t ensures WFValue(Num(t)) {
      NumberScans(p);
    }
  }
}
