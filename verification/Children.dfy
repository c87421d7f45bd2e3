/** What the children of an instance are for, said without the operator's own recipes for them. */
module Children {
  import opened Options
  import opened Cluster

  /** The config an instance is to run with: its own, or the operator's default if it has none. */
  predicate Carries(c: Config, s: Spec, script: Script) {
    && script.generation == s.configGeneration
    && (s.gatewayConfig != "" ==> script.config == s.gatewayConfig)
    && (s.gatewayConfig == "" ==> script.config == c.defaultGatewayConfig)
  }

  /** The gateway's port and one for each feature that is on, each once. */
  predicate OpensPorts(c: Config, ports: seq<Port>) {
    && Port("http", 18789) in ports
    && (c.tuiEnabled ==> Port("tui", c.tuiPort) in ports)
    && (c.shellEnabled ==> Port("shell", c.shellPort) in ports)
    && |ports| == 1 + (if c.tuiEnabled then 1 else 0) + (if c.shellEnabled then 1 else 0)
  }

  const EXEC := "exec node /app/openclaw.mjs gateway run --bind lan --allow-unconfigured"

  predicate EndsWith(t: string, end: string) {
    |end| <= |t| && t[|t| - |end|..] == end
  }

  /**
    The gateway runs on its own without features, in a restart loop that outlives
    it exactly with the shell, and in place of the shell process with the terminal
    alone; the features start in the background before it.
   */
  predicate StartsGateway(c: Config, command: seq<string>) {
    if !c.tuiEnabled && !c.shellEnabled then
      command == ["node", "/app/openclaw.mjs", "gateway", "run", "--bind", "lan", "--allow-unconfigured"]
    else
      && |command| == 3 && command[..2] == ["sh", "-c"]
      && (c.tuiEnabled ==> c.tuiCommand + " &\n" <= command[2])
      && (c.shellEnabled <==> EndsWith(command[2], RESTART_LOOP))
      && (c.shellEnabled ==> EndsWith(command[2], c.shellCommand + " &\n" + RESTART_LOOP))
      && (!c.shellEnabled ==>
            EndsWith(command[2], "\n" + EXEC))
  }

  /** The deployment runs the instance as its spec says. */
  predicate RunsSpec(c: Config, s: Spec, d: DeploySpec) {
    && d.instance == c.name && d.image == s.image && d.gatewayToken == s.gatewayToken && d.resources == s.resources
    && Carries(c, s, d.script) && OpensPorts(c, d.ports) && StartsGateway(c, d.command)
    && d.ttydImage == (if c.tuiEnabled || c.shellEnabled then Some(c.ttydImage) else None)
  }

  /** The service offers the deployment's ports, and only the server's namespace gets in. */
  predicate Exposes(c: Config, d: DeploySpec, svc: Option<Service>, np: Option<NetworkPolicy>) {
    && svc.Some? && svc.value.instance == c.name && svc.value.ports == d.ports
    && np.Some? && np.value.instance == c.name && np.value.serverNamespace == c.serverNamespace
  }

  /** The two labels of the operator, and all that were there before. */
  predicate Labelled(c: Config, s: Spec, before: map<string, string>, after: map<string, string>) {
    && after.Keys == before.Keys + {"clawbake.io/instance", "clawbake.io/user-id"}
    && after["clawbake.io/instance"] == c.name && after["clawbake.io/user-id"] == s.userId
    && forall l | l in before && l != "clawbake.io/instance" && l != "clawbake.io/user-id" :: after[l] == before[l]
  }

  lemma SuffixOf(a: string, b: string)
    ensures EndsWith(a + b, b)
  {
  }

  lemma LastOf(t: string, end: string)
    requires EndsWith(t, end) && end != ""
    ensures t != "" && t[|t| - 1] == end[|end| - 1]
  {
    assert t[|t| - |end|..][|end| - 1] == t[|t| - 1];
  }

  lemma LastDiffers(t: string, a: string, b: string)
    requires a != "" && b != "" && a[|a| - 1] != b[|b| - 1] && EndsWith(t, a)
    ensures !EndsWith(t, b)
  {
    LastOf(t, a);
    if EndsWith(t, b) {
      LastOf(t, b);
      assert false;
    }
  }

  lemma TwoLines(a: string, b: string)
    ensures JoinLines([a + " &", b]) == (a + " &\n") + b
    ensures a + " &\n" <= JoinLines([a + " &", b]) && EndsWith(JoinLines([a + " &", b]), "\n" + b)
  {
    var t := JoinLines([a + " &", b]);
    assert t == a + " &" + "\n" + b;
    assert a + " &" + "\n" == a + " &\n";
    assert t == a + " &" + ("\n" + b);
    SuffixOf(a + " &", "\n" + b);
  }

  lemma TerminalOnly(c: Config)
    requires c.tuiEnabled && !c.shellEnabled
    ensures StartsGateway(c, BuildCommand(c))
  {
    var text := JoinLines([c.tuiCommand + " &", EXEC]);
    TwoLines(c.tuiCommand, EXEC);
    LastChars();
    LastDiffers(text, "\n" + EXEC, RESTART_LOOP);
    assert [c.tuiCommand + " &"] + [EXEC] == [c.tuiCommand + " &", EXEC];
    hide JoinLines;
    assert BuildCommand(c) == ["sh", "-c", text];
  }

  lemma LastChars()
    ensures ("\n" + EXEC)[|"\n" + EXEC| - 1] == 'd' && RESTART_LOOP != "" && RESTART_LOOP[|RESTART_LOOP| - 1] == 'e'
  {
  }

  lemma ShellText(shell: string, loop: string)
    ensures var t := JoinLines([shell + " &", loop]); EndsWith(t, loop) && EndsWith(t, shell + " &\n" + loop)
  {
    TwoLines(shell, loop);
    SuffixOf(shell + " &\n", loop);
    SuffixOf("", shell + " &\n" + loop);
    assert "" + (shell + " &\n" + loop) == shell + " &\n" + loop;
  }

  lemma ThreeLines(tui: string, a: string, b: string)
    ensures var t := JoinLines([tui + " &", a, b]); t == (tui + " &\n") + JoinLines([a, b]) && tui + " &\n" <= t
  {
    assert [tui + " &", a, b][1..] == [a, b];
    assert tui + " &" + "\n" == tui + " &\n";
  }

  lemma EndsLater(a: string, t: string, end: string)
    requires EndsWith(t, end)
    ensures EndsWith(a + t, end)
  {
    assert (a + t)[|a + t| - |end|..] == t[|t| - |end|..];
  }

  lemma WithShell(c: Config)
    requires c.shellEnabled
    ensures StartsGateway(c, BuildCommand(c))
  {
    var shell, loop := c.shellCommand + " &", JoinLines([c.shellCommand + " &", RESTART_LOOP]);
    ShellText(c.shellCommand, RESTART_LOOP);
    hide JoinLines, EndsWith;
    if c.tuiEnabled {
      ThreeLines(c.tuiCommand, shell, RESTART_LOOP);
      EndsLater(c.tuiCommand + " &\n", loop, RESTART_LOOP);
      EndsLater(c.tuiCommand + " &\n", loop, c.shellCommand + " &\n" + RESTART_LOOP);
      assert [c.tuiCommand + " &"] + [shell, RESTART_LOOP] == [c.tuiCommand + " &", shell, RESTART_LOOP];
    } else {
      assert [] + [shell, RESTART_LOOP] == [shell, RESTART_LOOP];
    }
  }

  /** The children the operator wants are fit for the spec. */
  lemma DesiredChildrenFit(c: Config, s: Spec)
    ensures RunsSpec(c, s, DesiredDeployment(c, s))
    ensures Exposes(c, DesiredDeployment(c, s), Some(DesiredService(c)), Some(DesiredNetworkPolicy(c)))
    ensures forall labels :: Labelled(c, s, labels, DesiredLabels(c, s, labels))
  {
    CommandFits(c);
    hide BuildCommand, StartsGateway;
  }

  lemma CommandFits(c: Config)
    ensures StartsGateway(c, BuildCommand(c))
  {
    if c.shellEnabled {
      WithShell(c);
    } else if c.tuiEnabled {
      TerminalOnly(c);
    }
  }
}
