/**
  The text of the write-config command, and why it tells every config and
  generation apart.
 */
module WriteConfig {
  import opened Cluster
  import opened Children

  function Digit(n: nat): char
    requires n < 10
  {
    ('0' as int + n) as char
  }

  /** "%d" */
  function Decimal(n: nat): (s: string)
    ensures s != ""
  {
    if n < 10 then [Digit(n)] else Decimal(n / 10) + [Digit(n % 10)]
  }

  function DecimalValue(s: string): nat {
    if s == "" then 0
    else
      var c := s[|s| - 1];
      10 * DecimalValue(s[..|s| - 1]) + (if '0' <= c <= '9' then c as int - '0' as int else 0)
  }

  predicate AllDigits(s: string) {
    forall i | 0 <= i < |s| :: '0' <= s[i] <= '9'
  }

  lemma {:induction false} DecimalCorrect(n: nat)
    ensures DecimalValue(Decimal(n)) == n && AllDigits(Decimal(n))
  {
    if n >= 10 {
      DecimalCorrect(n / 10);
      assert Decimal(n)[..|Decimal(n)| - 1] == Decimal(n / 10);
    } else {
      assert Decimal(n)[..0] == "";
    }
  }

  const CONFIG_FILE := "/home/node/.openclaw/openclaw.json"
  const MARKER_FILE := "/home/node/.openclaw/.config-gen"

  const HEAD := "if [ ! -f " + CONFIG_FILE + " ]; then\n  echo '"
  const TO_MARKER := "' > " + CONFIG_FILE + "\n  echo \""
  const TO_TEST :=
    "\" > " + MARKER_FILE + "\nelse\n  current=$(cat " + MARKER_FILE + " 2>/dev/null || echo -1)\n" +
    "  if [ \"$current\" != \""
  const TO_REWRITE := "\" ]; then\n    echo '"
  const TO_REMARK := "' > " + CONFIG_FILE + "\n    echo "
  const QUOTE := "\""
  const TAIL := "\" > " + MARKER_FILE + "\n  fi\nfi"

  function Between(s: Script): string {
    var g := Decimal(s.generation);
    TO_MARKER + g + TO_TEST + g + TO_REWRITE + s.config + TO_REMARK
  }

  /** Everything before the last generation number. */
  function Front(s: Script): string {
    HEAD + s.config + Between(s)
  }

  /** The argument of sh -c in the write-config container. */
  function CommandText(s: Script): string {
    Front(s) + QUOTE + Decimal(s.generation) + TAIL
  }

  /** What follows the last quote before a common tail is the same run of digits. */
  lemma LastNumber(u: string, v: string, d: string, e: string, t: string)
    requires u + QUOTE + d + t == v + QUOTE + e + t && AllDigits(d) && AllDigits(e)
    ensures d == e && u == v
  {
    var x, y := u + QUOTE + d, v + QUOTE + e;
    assert x == (x + t)[..|x|] && y == (y + t)[..|y|];
    assert |x| == |y| && x == y;
    NoLonger(u, v, d, e);
    NoLonger(v, u, e, d);
    assert d == x[|u| + 1..] && e == y[|v| + 1..];
    assert u == x[..|u|] && v == y[..|v|];
  }

  lemma NoLonger(u: string, v: string, d: string, e: string)
    requires u + QUOTE + d == v + QUOTE + e && AllDigits(e)
    ensures |d| >= |e|
  {
    var x, y := u + QUOTE + d, v + QUOTE + e;
    assert x[|u|] == '"';
    assert forall i | |v| + 1 <= i < |y| :: y[i] == e[i - |v| - 1];
  }

  lemma FrontLength(s: Script)
    ensures |Front(s)| ==
      |HEAD| + |TO_MARKER| + |TO_TEST| + |TO_REWRITE| + |TO_REMARK| + 2 * |s.config| + 2 * |Decimal(s.generation)|
    ensures Front(s)[|HEAD|..|HEAD| + |s.config|] == s.config
  {
    BetweenLength(s);
    hide Between, Decimal;
    assert Front(s)[..|HEAD| + |s.config|] == HEAD + s.config;
  }

  lemma BetweenLength(s: Script)
    ensures |Between(s)| ==
      |TO_MARKER| + |TO_TEST| + |TO_REWRITE| + |TO_REMARK| + |s.config| + 2 * |Decimal(s.generation)|
  {
    hide Decimal;
  }

  /** Equal commands write the same config at the same generation. */
  lemma CommandInjective(a: Script, b: Script)
    requires CommandText(a) == CommandText(b)
    ensures a == b
  {
    DecimalCorrect(a.generation);
    DecimalCorrect(b.generation);
    FrontLength(a);
    FrontLength(b);
    hide Front, Decimal, DecimalValue;
    LastNumber(Front(a), Front(b), Decimal(a.generation), Decimal(b.generation), TAIL);
  }

  /**
    The command of a spec writes the spec's own config, or the operator's default if
    it has none, at the spec's generation and is the command of nothing else; so
    every save changes it.
   */
  lemma EverySaveChangesCommand(c: Config, a: Spec, b: Spec)
    ensures forall script :: CommandText(DesiredScript(c, a)) == CommandText(script) <==> Carries(c, a, script)
    ensures b.configGeneration == a.configGeneration + 1 ==>
      CommandText(DesiredScript(c, a)) != CommandText(DesiredScript(c, b))
  {
    hide CommandText;
    forall script ensures CommandText(DesiredScript(c, a)) == CommandText(script) <==> Carries(c, a, script) {
      if CommandText(DesiredScript(c, a)) == CommandText(script) {
        CommandInjective(DesiredScript(c, a), script);
      }
    }
  }
}
