/**
  The write-config command as the few shell constructs it is made of: printed, it
  is the command's text; run, it takes the steps of the init container.
 */
module InitShell {
  import opened Options
  import opened Cluster
  import opened Volume
  import opened WriteConfig

  // ---------- Syntax ----------

  datatype Path = ConfigFile | MarkerFile

  datatype Cmd =
    | Echo(quote: char, text: string, to: Path)
    | ReadCurrent(from: Path, fallback: string)
    | IfMissing(path: Path, yes: seq<Cmd>, no: seq<Cmd>)
    | IfCurrentDiffers(text: string, yes: seq<Cmd>)

  function PathText(p: Path): string {
    match p
    case ConfigFile => CONFIG_FILE
    case MarkerFile => MARKER_FILE
  }

  function PrintCmd(c: Cmd, indent: string): string
    decreases c
  {
    match c
    case Echo(q, text, to) => indent + "echo " + [q] + text + [q] + " > " + PathText(to)
    case ReadCurrent(from, fallback) =>
      indent + "current=$(cat " + PathText(from) + " 2>/dev/null || echo " + fallback + ")"
    case IfMissing(path, yes, no) =>
      indent + "if [ ! -f " + PathText(path) + " ]; then\n" + Print(yes, indent + "  ") +
      "\n" + indent + "else\n" + Print(no, indent + "  ") + "\n" + indent + "fi"
    case IfCurrentDiffers(text, yes) =>
      indent + "if [ \"$current\" != \"" + text + "\" ]; then\n" + Print(yes, indent + "  ") + "\n" + indent + "fi"
  }

  /** One command to a line, branches indented. */
  function Print(cs: seq<Cmd>, indent: string): string
    decreases cs
  {
    if cs == [] then "" else if |cs| == 1 then PrintCmd(cs[0], indent)
    else PrintCmd(cs[0], indent) + "\n" + Print(cs[1..], indent)
  }

  // ---------- Running ----------

  /** The two files, each holding what was echoed into it. */
  datatype Files = Files(file: Option<string>, marker: Option<string>)

  function Look(fs: Files, p: Path): Option<string> {
    match p case ConfigFile => fs.file case MarkerFile => fs.marker
  }

  function Redirect(fs: Files, p: Path, text: string): Files {
    match p case ConfigFile => fs.(file := Some(text)) case MarkerFile => fs.(marker := Some(text))
  }

  /** A shell with the commands it still has to run and the variable they use. */
  datatype Shell = Shell(todo: seq<Cmd>, current: string, fs: Files)

  /** Runs one command, or takes one branch. */
  function Exec(sh: Shell): Shell {
    if sh.todo == [] then sh
    else
      var rest := sh.todo[1..];
      match sh.todo[0]
      case Echo(_, text, to) => sh.(todo := rest, fs := Redirect(sh.fs, to, text))
      case ReadCurrent(from, fallback) =>
        sh.(todo := rest, current := if Look(sh.fs, from) == None then fallback else Look(sh.fs, from).value)
      case IfMissing(path, yes, no) => sh.(todo := (if Look(sh.fs, path) == None then yes else no) + rest)
      case IfCurrentDiffers(text, yes) => sh.(todo := (if sh.current != text then yes else []) + rest)
  }

  function Steps(sh: Shell, n: nat): Shell {
    if n == 0 then sh else Exec(Steps(sh, n - 1))
  }

  // ---------- The command ----------

  function Writes(s: Script): seq<Cmd> {
    [Echo('\'', s.config, ConfigFile), Echo('"', Decimal(s.generation), MarkerFile)]
  }

  /** The command of the write-config container. */
  function Program(s: Script): seq<Cmd> {
    [IfMissing(ConfigFile, Writes(s),
               [ReadCurrent(MarkerFile, "-1"), IfCurrentDiffers(Decimal(s.generation), Writes(s))])]
  }

  /** What is left to run at each point of a pod's start-up. */
  function Todo(s: Script, at: Progress): seq<Cmd> {
    match at
    case Check => Program(s)
    case WriteFile => Writes(s)
    case WriteMarker => Writes(s)[1..]
    case Up => []
  }

  /** The files of a volume. */
  function FilesOf(v: Volume): Files {
    Files(if v.file == None then None else Some(v.file.value.text),
          if v.marker == None then None else Some(Decimal(v.marker.value)))
  }

  // ---------- Printed, it is the command's text ----------

  lemma PrintTwo(a: Cmd, b: Cmd, indent: string)
    ensures Print([a, b], indent) == PrintCmd(a, indent) + "\n" + PrintCmd(b, indent)
  {
    hide PrintCmd;
    assert [a, b][1..] == [b];
    assert Print([b], indent) == PrintCmd(b, indent);
  }

  lemma PrintWrites(s: Script, indent: string)
    ensures Print(Writes(s), indent) ==
      (indent + "echo '") + s.config + ("' > " + PathText(ConfigFile) + "\n" + indent + "echo \"") +
      Decimal(s.generation) + ("\" > " + PathText(MarkerFile))
  {
    var a, b := Writes(s)[0], Writes(s)[1];
    PrintTwo(a, b, indent);
    hide Decimal, PathText, Print;
    assert indent + "echo " + ['\''] == indent + "echo '";
    assert indent + "echo " + ['"'] == indent + "echo \"";
    PrintedEcho(indent + "echo '", s.config, PathText(ConfigFile), indent + "echo \"",
                Decimal(s.generation), PathText(MarkerFile));
    assert s.config + ['\''] + " > " == s.config + "' > ";
    assert Decimal(s.generation) + ['"'] + " > " == Decimal(s.generation) + "\" > ";
  }

  lemma PrintedEcho(e: string, config: string, file: string, f: string, g: string, marker: string)
    ensures e + config + ['\''] + " > " + file + "\n" + (f + g + ['"'] + " > " + marker) ==
      e + config + ("' > " + file + "\n" + f) + g + ("\" > " + marker)
  {
    assert ['\''] + " > " == "' > ";
    assert ['"'] + " > " == "\" > ";
    assert e + config + ['\''] + " > " + file + "\n" == e + config + ("' > " + file + "\n");
    assert f + g + ['"'] + " > " + marker == f + g + ("\" > " + marker);
  }

  /** The same text cut in two ways. */
  lemma Assemble(p0: string, c: string, p1: string, g: string, p2: string, q: string, r0: string,
                 r1: string, o0: string, o1: string, o2: string, t: string)
    ensures p0 + c + p1 + g + p2 + q + (r0 + g + r1 + (o0 + c + o1 + g + o2) + t) ==
      p0 + c + (p1 + g + (p2 + q + r0) + g + (r1 + o0) + c + o1) + g + (o2 + t)
  {
    var a := p0 + c + p1 + g;
    assert a + p2 + q + (r0 + g + r1 + (o0 + c + o1 + g + o2) + t) ==
      a + (p2 + q + r0) + (g + r1 + (o0 + c + o1 + g + o2) + t);
    var b := a + (p2 + q + r0) + g;
    assert a + (p2 + q + r0) + (g + r1 + (o0 + c + o1 + g + o2) + t) == b + (r1 + o0) + (c + o1 + g + o2 + t);
    assert b + (r1 + o0) + (c + o1 + g + o2 + t) == b + (r1 + o0) + c + o1 + g + (o2 + t);
    assert p0 + c + (p1 + g + (p2 + q + r0) + g + (r1 + o0) + c + o1) == b + (r1 + o0) + c + o1;
  }

  const READ := "  current=$(cat " + MARKER_FILE + " 2>/dev/null || echo -1)"

  const DIFFERS := "  if [ \"$current\" != \""

  lemma PrintTest(s: Script, w: string)
    requires w == Print(Writes(s), "    ")
    ensures PrintCmd(IfCurrentDiffers(Decimal(s.generation), Writes(s)), "  ") ==
      DIFFERS + Decimal(s.generation) + "\" ]; then\n" + w + "\n  fi"
  {
    hide Decimal, Print, Writes;
    assert "  " + "  " == "    ";
    assert "  " + "if [ \"$current\" != \"" == DIFFERS;
    var t := DIFFERS + Decimal(s.generation) + "\" ]; then\n" + w;
    assert t + "\n" + "  " + "fi" == t + "\n  fi";
  }

  lemma PrintElse(s: Script, w: string)
    requires w == Print(Writes(s), "    ")
    ensures Print([ReadCurrent(MarkerFile, "-1"), IfCurrentDiffers(Decimal(s.generation), Writes(s))], "  ") ==
      READ + "\n" + (DIFFERS + Decimal(s.generation) + "\" ]; then\n" + w + "\n  fi")
  {
    PrintTest(s, w);
    var read, test := ReadCurrent(MarkerFile, "-1"), IfCurrentDiffers(Decimal(s.generation), Writes(s));
    ReadText(MARKER_FILE);
    assert PrintCmd(read, "  ") == READ;
    hide Decimal, PrintCmd;
    assert [read, test][1..] == [test];
    assert Print([test], "  ") == PrintCmd(test, "  ");
  }

  lemma PrintProgram(s: Script, w: string, no: string)
    requires w == Print(Writes(s), "  ")
    requires no == Print([ReadCurrent(MarkerFile, "-1"), IfCurrentDiffers(Decimal(s.generation), Writes(s))], "  ")
    ensures Print(Program(s), "") == TEST_FILE + w + "\nelse\n" + no + "\nfi"
  {
    hide Decimal, Print, Writes;
    assert "" + "  " == "  ";
    TestText(PathText(ConfigFile));
    var t := TEST_FILE + w;
    assert t + "\n" + "" + "else\n" == t + "\nelse\n";
    var u := t + "\nelse\n" + no;
    assert u + "\n" + "" + "fi" == u + "\nfi";
    PrintOne(Program(s)[0]);
  }

  lemma PrintOne(c: Cmd)
    ensures Print([c], "") == PrintCmd(c, "")
  {
  }

  const TEST_FILE := "if [ ! -f " + CONFIG_FILE + " ]; then\n"

  lemma ReadText(m: string)
    ensures "  " + "current=$(cat " + m + " 2>/dev/null || echo " + "-1" + ")" ==
      "  current=$(cat " + m + " 2>/dev/null || echo -1)"
  {
    assert "  " + "current=$(cat " == "  current=$(cat ";
    assert " 2>/dev/null || echo " + "-1" + ")" == " 2>/dev/null || echo -1)";
  }

  lemma TestText(f: string)
    ensures "" + "if [ ! -f " + f + " ]; then\n" == "if [ ! -f " + f + " ]; then\n"
    ensures "if [ ! -f " + f + " ]; then\n" + "  echo '" == "if [ ! -f " + f + " ]; then\n  echo '"
  {
    assert " ]; then\n" + "  echo '" == " ]; then\n  echo '";
  }

  lemma WriteText(f: string)
    ensures "' > " + f + "\n" + "  " + "echo \"" == "' > " + f + "\n  echo \""
    ensures "' > " + f + "\n" + "    " + "echo \"" == "' > " + f + "\n    echo " + "\""
  {
    assert "\n" + "  " + "echo \"" == "\n  echo \"";
    assert "\n" + "    " + "echo \"" == "\n    echo " + "\"";
  }

  lemma ElseText(m: string, differs: string)
    ensures "\" > " + m + "\nelse\n" + ("  current=$(cat " + m + " 2>/dev/null || echo -1)" + "\n" + differs) ==
      "\" > " + m + "\nelse\n  current=$(cat " + m + " 2>/dev/null || echo -1)\n" + differs
  {
    assert "\nelse\n" + "  current=$(cat " == "\nelse\n  current=$(cat ";
    assert " 2>/dev/null || echo -1)" + "\n" == " 2>/dev/null || echo -1)\n";
  }

  lemma EndText(m: string)
    ensures "\" > " + m + ("\n  fi" + "\nfi") == "\" > " + m + "\n  fi\nfi"
  {
    assert "\n  fi" + "\nfi" == "\n  fi\nfi";
  }

  lemma Literals()
    ensures TEST_FILE + "  echo '" == HEAD
    ensures "' > " + PathText(ConfigFile) + "\n" + "  " + "echo \"" == TO_MARKER
    ensures "\" > " + PathText(MarkerFile) + "\nelse\n" + (READ + "\n" + DIFFERS) == TO_TEST
    ensures "\" ]; then\n" + "    echo '" == TO_REWRITE
    ensures "' > " + PathText(ConfigFile) + "\n" + "    " + "echo \"" == TO_REMARK + QUOTE
    ensures "\" > " + PathText(MarkerFile) + ("\n  fi" + "\nfi") == TAIL
    ensures "  " + "echo '" == "  echo '" && "    " + "echo '" == "    echo '"
  {
    TestText(CONFIG_FILE);
    WriteText(CONFIG_FILE);
    ElseText(MARKER_FILE, DIFFERS);
    EndText(MARKER_FILE);
  }

  /** The printed command is the text the operator formats. */
  lemma PrintedCommand(s: Script)
    ensures Print(Program(s), "") == CommandText(s)
  {
    var w, no := Print(Writes(s), "  "),
      Print([ReadCurrent(MarkerFile, "-1"), IfCurrentDiffers(Decimal(s.generation), Writes(s))], "  ");
    PrintProgram(s, w, no);
    PrintElse(s, Print(Writes(s), "    "));
    PrintWrites(s, "  ");
    PrintWrites(s, "    ");
    Literals();
    var to := "\" > " + PathText(MarkerFile);
    Cut(TEST_FILE, "  echo '", s.config, TO_MARKER, Decimal(s.generation), to, "\nelse\n", READ + "\n", DIFFERS,
        "\" ]; then\n", "    echo '", TO_REMARK, QUOTE, "\n  fi", "\nfi");
    hide Print, Writes, Decimal, PathText;
  }

  /** Both cuts of the command, with the parts that the printer puts together kept apart. */
  lemma Cut(h: string, p: string, c: string, p1: string, g: string, p2: string, q: string, r: string, d: string,
            r1: string, o: string, o1: string, x: string, t: string, u: string)
    ensures h + (p + c + p1 + g + p2) + q + (r + (d + g + r1 + (o + c + (o1 + x) + g + p2) + t)) + u ==
      (h + p) + c + (p1 + g + (p2 + q + (r + d)) + g + (r1 + o) + c + o1) + x + g + (p2 + (t + u))
  {
    Assemble(h + p, c, p1, g, p2, q, r + d, r1, o, o1 + x, p2, t + u);
    assert h + (p + c + p1 + g + p2) == (h + p) + c + p1 + g + p2;
    var w := o + c + (o1 + x) + g + p2;
    assert r + (d + g + r1 + w + t) + u == (r + d) + g + r1 + w + (t + u);
    var a, b := h + (p + c + p1 + g + p2) + q, r + (d + g + r1 + w + t);
    assert a + b + u == a + (b + u);
    var y := p1 + g + (p2 + q + (r + d)) + g + (r1 + o) + c;
    assert (h + p) + c + (y + (o1 + x)) == (h + p) + c + (y + o1) + x;
  }

  // ---------- Run, it takes the steps of the init container ----------

  lemma NotDigits()
    ensures !AllDigits("-1")
  {
    assert "-1"[0] == '-';
  }

  lemma GenerationsDiffer(m: nat, g: nat)
    ensures Decimal(m) == Decimal(g) <==> m == g
    ensures Decimal(g) != "-1"
  {
    DecimalCorrect(m);
    DecimalCorrect(g);
    NotDigits();
  }

  /** How many shell steps make up the step of the init container: the tests, or one redirection. */
  function ShellSteps(v: Volume): nat
    requires v.pod.Pod?
  {
    match v.pod.at
    case Check => if v.file == None then 1 else 3
    case Up => 0
    case _ => 1
  }

  /**
    From every point of start-up the shell gets where Init gets, with the files Init
    leaves; before that the files are as they were, so a crash in between is one
    before Init's step.
   */
  lemma CommandTakesInitsSteps(v: Volume, current: string)
    requires v.pod.Pod?
    ensures var s, r, n := v.pod.script, Init(v), ShellSteps(v);
      var sh := Shell(Todo(s, v.pod.at), current, FilesOf(v));
      && Steps(sh, n).todo == Todo(s, r.pod.at) && Steps(sh, n).fs == FilesOf(r)
      && forall k | 0 <= k < n :: Steps(sh, k).fs == FilesOf(v)
  {
    var s := v.pod.script;
    var sh := Shell(Todo(s, v.pod.at), current, FilesOf(v));
    hide Decimal;
    match v.pod.at
    case Check => if v.file == None { WritesFirst(v, current); } else { TestsMarker(v, current); }
    case Up =>
    case _ => assert Steps(sh, 1) == Exec(sh);
  }

  lemma WritesFirst(v: Volume, current: string)
    requires v.pod.Pod? && v.pod.at.Check? && v.file == None
    ensures var s := v.pod.script; var sh := Shell(Program(s), current, FilesOf(v));
      Steps(sh, 1).todo == Writes(s) && Steps(sh, 1).fs == FilesOf(v) && Steps(sh, 0) == sh
  {
    hide Decimal;
    var s := v.pod.script;
    var sh := Shell(Program(s), current, FilesOf(v));
    assert Steps(sh, 1) == Exec(sh);
    assert Writes(s) + Program(s)[1..] == Writes(s);
  }

  lemma TestsMarker(v: Volume, current: string)
    requires v.pod.Pod? && v.pod.at.Check? && v.file.Some?
    ensures var s := v.pod.script; var sh := Shell(Program(s), current, FilesOf(v));
      && Steps(sh, 3).todo == (if v.marker != Some(s.generation) then Writes(s) else [])
      && forall k | 0 <= k <= 3 :: Steps(sh, k).fs == FilesOf(v)
  {
    var s := v.pod.script;
    var g := s.generation;
    GenerationsDiffer(if v.marker == None then g else v.marker.value, g);
    hide Decimal;
    var sh := Shell(Program(s), current, FilesOf(v));
    var read, test := ReadCurrent(MarkerFile, "-1"), IfCurrentDiffers(Decimal(g), Writes(s));
    var content := if v.marker == None then "-1" else Decimal(v.marker.value);
    var b := sh.(todo := [read, test]);
    assert [read, test] + Program(s)[1..] == [read, test];
    assert Steps(sh, 1) == Exec(sh) == b;
    assert [read, test][1..] == [test];
    var d := b.(todo := [test], current := content);
    assert Steps(sh, 2) == Exec(b) == d;
    assert [test][1..] == [];
    assert Steps(sh, 3) == Exec(d);
    assert Steps(sh, 0) == sh;
  }
}
