/**
 * The command pipeline of revup: run each entry of the command file through `rev2`,
 * pull the new entity addresses out of its output and bind them, in order, to the
 * names the entry declares, one `name=value` line of `.env` per binding.
 */
module Pipeline {
  import opened Common
  import opened Entities
  import opened EnvStore

  /** One entry of the command file: a rev2 subcommand, its arguments, the names to bind. */
  datatype Commando = Commando(command: string, args: seq<string>, envs: seq<string>)

  /** The command file: its entries in execution order. */
  datatype Commandos = Commandos(commands: seq<Commando>)

  /** What one run of `rev2` gives back: nothing when it cannot be started. */
  datatype ToolOutput = CouldNotLaunch | Exited(stdout: string, stderr: string, success: bool)

  /** The `rev2` executable, as the output it gives for an argument vector. */
  type Tool = seq<string> -> ToolOutput

  /** The arguments rev2 is started with: the subcommand, then the entry's arguments. */
  function Argv(cmd: Commando): seq<string> {
    [cmd.command] + cmd.args
  }

  function Min(a: nat, b: nat): nat {
    if a < b then a else b
  }

  /** The lines for `envs` paired positionally with `entities`, as `zip` pairs them. */
  function Bindings(envs: seq<string>, entities: seq<string>): seq<string> {
    if envs == [] || entities == [] then []
    else [BindingLine(envs[0], entities[0])] + Bindings(envs[1..], entities[1..])
  }

  /** append_env once per line, stopping at the first failure. */
  function AppendAll(st: EnvState, lines: seq<string>): (Outcome, EnvState)
    decreases |lines|
  {
    if lines == [] then (Pass, st)
    else
      var step := AppendLine(st, lines[0]);
      if step.0.Fail? then step else AppendAll(step.1, lines[1..])
  }

  /** run_cmd on the store as a value. */
  function CmdStep(st: EnvState, tool: Tool, cmd: Commando): (Outcome, EnvState) {
    match tool(Argv(cmd))
    case CouldNotLaunch => (Fail(LaunchFailed), st)
    case Exited(stdout, _, _) =>
      if cmd.envs == [] then (Pass, st)
      else
        match Walk(stdout)
        case Err(e) => (Fail(e), st)
        case Ok(entities) => AppendAll(st, Bindings(cmd.envs, entities))
  }

  /** The loop of run_file: the commands in order, stopping at the first failure. */
  function RunCmds(st: EnvState, tool: Tool, cmds: seq<Commando>): (Outcome, EnvState)
    decreases |cmds|
  {
    if cmds == [] then (Pass, st)
    else
      var step := CmdStep(st, tool, cmds[0]);
      if step.0.Fail? then step else RunCmds(step.1, tool, cmds[1..])
  }

  /**
   * run_file: empty `.env`, then load the command file (`None` when it cannot be opened
   * or parsed), then run its commands.
   */
  function RunFileSpec(tool: Tool, config: Option<Commandos>): (Outcome, EnvState) {
    var emptied := EnvState(true, []);
    match config
    case None => (Fail(ConfigUnreadable), emptied)
    case Some(c) => RunCmds(emptied, tool, c.commands)
  }

  /** The lines a command writes when it succeeds on an existing store. */
  function Produced(tool: Tool, cmd: Commando): seq<string> {
    match tool(Argv(cmd))
    case CouldNotLaunch => []
    case Exited(stdout, _, _) =>
      if cmd.envs != [] && Walk(stdout).Ok? then Bindings(cmd.envs, Walk(stdout).value) else []
  }

  function AllProduced(tool: Tool, cmds: seq<Commando>): seq<string> {
    if cmds == [] then [] else Produced(tool, cmds[0]) + AllProduced(tool, cmds[1..])
  }

  // ---------------------------------------------------------------------------
  // The methods

  /** run_cmd: start rev2, and when the entry declares names, bind the addresses it printed. */
  method RunCmd(store: EnvFile, tool: Tool, cmd: Commando) returns (r: Outcome)
    requires store.Valid()
    modifies store
    ensures store.Valid()
    ensures (r, store.State()) == CmdStep(old(store.State()), tool, cmd)
  {
    ghost var st0 := store.State();
    var res: ToolOutput;
    if |cmd.args| != 0 {
      res := tool([cmd.command] + cmd.args);
    } else {
      res := tool([cmd.command]);
      assert [cmd.command] == Argv(cmd);
    }
    if res.CouldNotLaunch? {
      return Fail(LaunchFailed);
    }
    if |cmd.envs| != 0 {
      CmdStepNamed(st0, tool, cmd);
      var walked := WalkEntities(res.stdout);
      if walked.Err? {
        return Fail(walked.error);
      }
      var entities := walked.value;
      var envs := cmd.envs;
      ghost var goal := AppendAll(st0, Bindings(envs, entities));
      var i := 0;
      assert envs[0..] == envs && entities[0..] == entities;
      while i < |entities| && i < |envs|
        invariant i <= |entities| && i <= |envs|
        invariant store.Valid()
        invariant goal == AppendAll(store.State(), Bindings(envs[i..], entities[i..]))
      {
        ghost var cur := store.State();
        BindingsStep(envs, entities, i);
        AppendAllCons(cur, BindingLine(envs[i], entities[i]), Bindings(envs[i + 1..], entities[i + 1..]));
        var appended := store.Append(envs[i], entities[i]);
        if appended.Fail? {
          return appended;
        }
        i := i + 1;
      }
      assert envs[i..] == [] || entities[i..] == [];
    }
    return Pass;
  }

  /** run_file: truncate `.env`, then run the loaded commands until one fails. */
  method RunFile(store: EnvFile, tool: Tool, config: Option<Commandos>) returns (r: Outcome)
    modifies store
    ensures store.Valid()
    ensures (r, store.State()) == RunFileSpec(tool, config)
  {
    store.Reset();
    if config.None? {
      return Fail(ConfigUnreadable);
    }
    var commands := config.value.commands;
    var i := 0;
    assert commands[0..] == commands;
    while i < |commands|
      invariant i <= |commands|
      invariant store.Valid()
      invariant RunCmds(EnvState(true, []), tool, commands) == RunCmds(store.State(), tool, commands[i..])
    {
      assert commands[i..][0] == commands[i] && commands[i..][1..] == commands[i + 1..];
      var res := RunCmd(store, tool, commands[i]);
      if res.Fail? {
        return res;
      }
      i := i + 1;
    }
    return Pass;
  }

  // ---------------------------------------------------------------------------
  // Properties

  /** run_cmd once rev2 has run for an entry that declares names: walk, then bind. */
  lemma CmdStepNamed(st: EnvState, tool: Tool, cmd: Commando)
    requires tool(Argv(cmd)).Exited? && cmd.envs != []
    ensures Walk(tool(Argv(cmd)).stdout).Err? ==>
      CmdStep(st, tool, cmd) == (Fail(Walk(tool(Argv(cmd)).stdout).error), st)
    ensures Walk(tool(Argv(cmd)).stdout).Ok? ==>
      CmdStep(st, tool, cmd) == AppendAll(st, Bindings(cmd.envs, Walk(tool(Argv(cmd)).stdout).value))
  {
  }

  /** One more append_env call of the zip loop. */
  lemma AppendAllCons(st: EnvState, line: string, rest: seq<string>)
    ensures AppendAll(st, [line] + rest) ==
      var step := AppendLine(st, line);
      if step.0.Fail? then step else AppendAll(step.1, rest)
  {
    assert ([line] + rest)[0] == line && ([line] + rest)[1..] == rest;
  }

  /** One more pair of the zip. */
  lemma BindingsStep(envs: seq<string>, entities: seq<string>, i: nat)
    requires i < |envs| && i < |entities|
    ensures Bindings(envs[i..], entities[i..])
         == [BindingLine(envs[i], entities[i])] + Bindings(envs[i + 1..], entities[i + 1..])
  {
    assert envs[i..][1..] == envs[i + 1..] && entities[i..][1..] == entities[i + 1..];
  }

  /** Positional pairing: as many lines as the shorter list, line `i` binding `envs[i]` to `entities[i]`. */
  lemma {:induction false} BindingsPairs(envs: seq<string>, entities: seq<string>)
    ensures |Bindings(envs, entities)| == Min(|envs|, |entities|)
    ensures forall i :: 0 <= i < |Bindings(envs, entities)| ==>
      Bindings(envs, entities)[i] == envs[i] + "=" + entities[i] + "\n"
    decreases |envs|
  {
    if envs != [] && entities != [] {
      BindingsPairs(envs[1..], entities[1..]);
    }
  }

  /** Appending lines one by one: nothing to do, a missing file, or all of them at the end. */
  lemma {:induction false} AppendAllAtEnd(st: EnvState, lines: seq<string>)
    ensures AppendAll(st, lines) ==
      if lines == [] then (Pass, st)
      else if !st.present then (Fail(StoreMissing), st)
      else (Pass, EnvState(true, st.lines + lines))
    decreases |lines|
  {
    if lines != [] && st.present {
      assert AppendLine(st, lines[0]) == (Pass, EnvState(true, st.lines + [lines[0]]));
      assert AppendAll(st, lines) == AppendAll(EnvState(true, st.lines + [lines[0]]), lines[1..]);
      AppendAllAtEnd(EnvState(true, st.lines + [lines[0]]), lines[1..]);
      if lines[1..] == [] {
        assert lines == [lines[0]];
      } else {
        assert st.lines + [lines[0]] + lines[1..] == st.lines + lines;
      }
    }
  }

  /** An entry that declares no names writes nothing and fails only when rev2 cannot start. */
  lemma CmdStepWithoutNames(st: EnvState, tool: Tool, cmd: Commando)
    requires cmd.envs == []
    ensures CmdStep(st, tool, cmd).1 == st
    ensures CmdStep(st, tool, cmd).0.Pass? <==> tool(Argv(cmd)).Exited?
  {
  }

  /**
   * An entry that declares names, on an existing store: when extraction fails the error
   * comes back with nothing written; otherwise the zipped lines are appended, in order.
   */
  lemma CmdStepWithNames(st: EnvState, tool: Tool, cmd: Commando)
    requires st.present && cmd.envs != [] && tool(Argv(cmd)).Exited?
    ensures Walk(tool(Argv(cmd)).stdout).Err? ==>
      CmdStep(st, tool, cmd) == (Fail(Walk(tool(Argv(cmd)).stdout).error), st)
    ensures Walk(tool(Argv(cmd)).stdout).Ok? ==>
      var entities := Walk(tool(Argv(cmd)).stdout).value;
      && CmdStep(st, tool, cmd) == (Pass, EnvState(true, st.lines + Bindings(cmd.envs, entities)))
      && |Bindings(cmd.envs, entities)| == Min(|cmd.envs|, |entities|)
  {
    var stdout := tool(Argv(cmd)).stdout;
    if Walk(stdout).Ok? {
      var entities := Walk(stdout).value;
      WalkOutcomes(stdout);
      BindingsPairs(cmd.envs, entities);
      AppendAllAtEnd(st, Bindings(cmd.envs, entities));
    }
  }

  /** On a missing store, the first binding of an entry fails and nothing is written. */
  lemma CmdStepMissingStore(st: EnvState, tool: Tool, cmd: Commando)
    requires !st.present && cmd.envs != [] && tool(Argv(cmd)).Exited?
    requires Walk(tool(Argv(cmd)).stdout).Ok?
    ensures CmdStep(st, tool, cmd) == (Fail(StoreMissing), st)
  {
    var entities := Walk(tool(Argv(cmd)).stdout).value;
    WalkOutcomes(tool(Argv(cmd)).stdout);
    BindingsPairs(cmd.envs, entities);
    AppendAllAtEnd(st, Bindings(cmd.envs, entities));
  }

  /** Only rev2's standard output matters: its standard error and exit status are never read. */
  lemma CmdStepReadsOnlyStdout(st: EnvState, tool1: Tool, tool2: Tool, cmd: Commando)
    requires tool1(Argv(cmd)).Exited? && tool2(Argv(cmd)).Exited?
    requires tool1(Argv(cmd)).stdout == tool2(Argv(cmd)).stdout
    ensures CmdStep(st, tool1, cmd) == CmdStep(st, tool2, cmd)
  {
  }

  /** A command never removes or rewrites a line, and never creates or deletes the file. */
  lemma CmdStepAppendOnly(st: EnvState, tool: Tool, cmd: Commando)
    ensures CmdStep(st, tool, cmd).1.present == st.present
    ensures st.lines <= CmdStep(st, tool, cmd).1.lines
  {
    var out := tool(Argv(cmd));
    if out.Exited? && cmd.envs != [] && Walk(out.stdout).Ok? {
      AppendAllAtEnd(st, Bindings(cmd.envs, Walk(out.stdout).value));
    }
  }

  /** The run of commands only appends to the store. */
  lemma {:induction false} RunCmdsAppendOnly(st: EnvState, tool: Tool, cmds: seq<Commando>)
    ensures RunCmds(st, tool, cmds).1.present == st.present
    ensures st.lines <= RunCmds(st, tool, cmds).1.lines
    decreases |cmds|
  {
    if cmds != [] {
      CmdStepAppendOnly(st, tool, cmds[0]);
      var next := CmdStep(st, tool, cmds[0]).1;
      RunCmdsAppendOnly(next, tool, cmds[1..]);
    }
  }

  /** Running `xs + ys` runs `xs`, then, unless that failed, `ys` from where `xs` left the store. */
  lemma {:induction false} RunCmdsAppend(st: EnvState, tool: Tool, xs: seq<Commando>, ys: seq<Commando>)
    ensures RunCmds(st, tool, xs + ys) ==
      var (o, mid) := RunCmds(st, tool, xs);
      if o.Fail? then (o, mid) else RunCmds(mid, tool, ys)
    decreases |xs|
  {
    if xs == [] {
      assert xs + ys == ys;
    } else {
      assert (xs + ys)[0] == xs[0] && (xs + ys)[1..] == xs[1..] + ys;
      RunCmdsAppend(CmdStep(st, tool, xs[0]).1, tool, xs[1..], ys);
    }
  }

  /**
   * Abort on the first error: when the commands before `k` succeed and command `k` fails,
   * the run ends there, with command `k`'s error and with what the earlier commands wrote.
   */
  lemma RunCmdsStopsAtFirstFailure(st: EnvState, tool: Tool, cmds: seq<Commando>, k: nat)
    requires k < |cmds|
    requires RunCmds(st, tool, cmds[..k]).0.Pass?
    requires CmdStep(RunCmds(st, tool, cmds[..k]).1, tool, cmds[k]).0.Fail?
    ensures RunCmds(st, tool, cmds) == CmdStep(RunCmds(st, tool, cmds[..k]).1, tool, cmds[k])
  {
    assert cmds == cmds[..k] + cmds[k..];
    RunCmdsAppend(st, tool, cmds[..k], cmds[k..]);
    assert cmds[k..][0] == cmds[k];
  }

  /** On an existing store a command cannot meet a missing file; when it succeeds it appends what it produces. */
  lemma CmdStepOnPresentStore(st: EnvState, tool: Tool, cmd: Commando)
    requires st.present
    ensures CmdStep(st, tool, cmd).0 != Fail(StoreMissing)
    ensures CmdStep(st, tool, cmd).0.Pass? ==>
      CmdStep(st, tool, cmd).1 == EnvState(true, st.lines + Produced(tool, cmd))
  {
    var out := tool(Argv(cmd));
    if out.Exited? && cmd.envs != [] {
      WalkOutcomes(out.stdout);
      CmdStepWithNames(st, tool, cmd);
    } else {
      assert st.lines + [] == st.lines;
    }
  }

  /**
   * On an existing store the run never meets a missing file, and when it succeeds the
   * store holds what it held before followed by every command's bindings, in order.
   */
  lemma {:induction false} RunCmdsOnPresentStore(lines: seq<string>, tool: Tool, cmds: seq<Commando>)
    ensures RunCmds(EnvState(true, lines), tool, cmds).0 != Fail(StoreMissing)
    ensures RunCmds(EnvState(true, lines), tool, cmds).0.Pass? ==>
      RunCmds(EnvState(true, lines), tool, cmds).1 == EnvState(true, lines + AllProduced(tool, cmds))
    decreases |cmds|
  {
    var st := EnvState(true, lines);
    if cmds == [] {
      assert lines + [] == lines;
    } else {
      var cmd := cmds[0];
      CmdStepOnPresentStore(st, tool, cmd);
      RunCmdsCons(st, tool, cmds);
      if CmdStep(st, tool, cmd).0.Pass? {
        RunCmdsOnPresentStore(lines + Produced(tool, cmd), tool, cmds[1..]);
        AllProducedCons(tool, cmds);
        ConcatAssoc(lines, Produced(tool, cmd), AllProduced(tool, cmds[1..]), AllProduced(tool, cmds));
      }
    }
  }

  lemma ConcatAssoc(a: seq<string>, b: seq<string>, c: seq<string>, bc: seq<string>)
    requires bc == b + c
    ensures a + b + c == a + bc
  {
  }

  lemma AllProducedCons(tool: Tool, cmds: seq<Commando>)
    requires cmds != []
    ensures AllProduced(tool, cmds) == Produced(tool, cmds[0]) + AllProduced(tool, cmds[1..])
  {
  }

  lemma RunCmdsCons(st: EnvState, tool: Tool, cmds: seq<Commando>)
    requires cmds != []
    ensures RunCmds(st, tool, cmds) ==
      var step := CmdStep(st, tool, cmds[0]);
      if step.0.Fail? then step else RunCmds(step.1, tool, cmds[1..])
  {
  }

  /** An empty command file leaves an empty store behind. */
  lemma RunFileNoCommands(tool: Tool)
    ensures RunFileSpec(tool, Some(Commandos([]))) == (Pass, EnvState(true, []))
  {
  }

  /**
   * A run starts from an emptied store, so afterwards the store holds only this run's
   * bindings, in execution order, whatever it held before; the missing-file error cannot occur.
   */
  lemma RunFileOnlyThisRun(tool: Tool, config: Commandos)
    ensures RunFileSpec(tool, Some(config)).0 != Fail(StoreMissing)
    ensures RunFileSpec(tool, Some(config)).1.present
    ensures RunFileSpec(tool, Some(config)).0.Pass? ==>
      RunFileSpec(tool, Some(config)).1.lines == AllProduced(tool, config.commands)
  {
    RunCmdsOnPresentStore([], tool, config.commands);
    RunCmdsAppendOnly(EnvState(true, []), tool, config.commands);
  }
}
