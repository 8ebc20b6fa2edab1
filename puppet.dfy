/**
 * The puppet execution module: the `puppet` command line a run executes,
 * the `facter` output parser, the agent status decision, the disable lock
 * file and the last-run summary.
 *
 * Commands, files, process signals, YAML documents and local-time
 * conversion are parameters: `runAll` is `cmd.run_all`, `files` maps the
 * path of every existing regular file to its contents, `kill` says what
 * `os.kill(pid, 0)` raises (`None` when the signal is delivered) and
 * `fromTimestamp` is `datetime.fromtimestamp(t).isoformat()`.
 */
module Puppet {
  import opened Wrappers
  import opened Dicts
  import opened PyText
  import opened PyValue

  // ---- facter output ----

  /**
   * One `facter` output line split at its first `" => "`: the fact name as
   * written and the value with surrounding whitespace removed; `None` for a
   * line without the separator.
   */
  function FormatFact(line: string): (r: Option<(string, string)>)
    ensures r.None? <==> !Contains(line, " => ")
    ensures r.Some? ==> |r.value.0| <= |line| && line[..|r.value.0|] == r.value.0 && OccursAt(line, " => ", |r.value.0|)
    ensures r.Some? ==> forall j :: 0 <= j < |r.value.0| ==> !OccursAt(line, " => ", j)
    ensures r.Some? ==> r.value.1 == Strip(line[|r.value.0| + 4..])
  {
    match SplitOnce(line, " => ")
    case None => None
    case Some((fact, value)) =>
      assert line[|fact| + 4..] == value;
      Some((fact, Strip(value)))
  }

  function FactsCommand(puppet: bool): string {
    "facter " + (if puppet then "--puppet" else "")
  }

  /** The fact a `facter` line assigns, if `facts` keeps it: empty lines and empty names are skipped. */
  function LineFact(line: string): Option<(string, string)> {
    if line == "" then None
    else
      match FormatFact(line)
      case None => None
      case Some((fact, value)) => if fact == "" then None else Some((fact, value))
  }

  /**
   * The facts dictionary after reading `lines` in order: empty lines and
   * lines without a fact name are skipped, a later line for the same fact
   * replaces the earlier value in place.
   */
  function FactsOf(lines: seq<string>): Dict<string, string> {
    Collect(lines, LineFact)
  }

  /** `facts(puppet)`: a failed `facter` raises with its stderr. */
  method Facts(puppet: bool, runAll: string -> CmdResult) returns (r: Result<Dict<string, string>, Exc>)
    ensures runAll(FactsCommand(puppet)).retcode != 0 ==>
      r == Err(CommandExecutionError(runAll(FactsCommand(puppet)).stderr))
    ensures runAll(FactsCommand(puppet)).retcode == 0 ==>
      r == Ok(FactsOf(SplitLines(runAll(FactsCommand(puppet)).stdout)))
  {
    var res := runAll(FactsCommand(puppet));
    if res.retcode != 0 {
      return Err(CommandExecutionError(res.stderr));
    }
    var ret := CollectPairs(SplitLines(res.stdout), LineFact);
    return Ok(ret);
  }

  /** A fact some kept line assigns is reported. */
  lemma FactsOfAssigned(lines: seq<string>, k: string, i: nat)
    requires i < |lines| && LineFact(lines[i]).Some? && LineFact(lines[i]).value.0 == k
    ensures Get(FactsOf(lines), k).Some?
  {
    CollectAssigned(lines, LineFact, k, i);
  }

  /** A fact no kept line assigns is not reported. */
  lemma FactsOfUnassigned(lines: seq<string>, k: string)
    requires forall i :: 0 <= i < |lines| ==> LineFact(lines[i]).None? || LineFact(lines[i]).value.0 != k
    ensures Get(FactsOf(lines), k) == None
  {
    CollectUnassigned(lines, LineFact, k);
  }

  /** The reported value comes from the last kept line that assigns the fact. */
  lemma FactsOfLastWins(lines: seq<string>, k: string, i: nat)
    requires i < |lines| && LineFact(lines[i]).Some? && LineFact(lines[i]).value.0 == k
    requires forall l :: l in lines[i + 1..] ==> LineFact(l).None? || LineFact(l).value.0 != k
    ensures Get(FactsOf(lines), k) == Some(LineFact(lines[i]).value.1)
  {
    CollectLastWins(lines, LineFact, k, i);
  }

  /** `fact(name, puppet)`: the command's stdout, or its stderr raised on failure. */
  function Fact(name: string, puppet: bool, runAll: string -> CmdResult): (r: Result<string, Exc>)
    ensures var res := runAll("facter " + (if puppet then "--puppet" else "") + " " + name);
      (r.Err? <==> res.retcode != 0) &&
      (r.Err? ==> r.error == CommandExecutionError(res.stderr)) &&
      (r.Ok? ==> r.value == res.stdout)
  {
    var res := runAll("facter " + (if puppet then "--puppet" else "") + " " + name);
    if res.retcode != 0 then Err(CommandExecutionError(res.stderr))
    else if res.stdout == "" then Ok("")
    else Ok(res.stdout)
  }

  // ---- the puppet command line ----

  datatype Subcommand = Agent | Apply

  function SubcommandName(s: Subcommand): string {
    match s
    case Agent => "agent"
    case Apply => "apply"
  }

  /** The three directories `puppet config print` reports. */
  datatype PuppetConf = PuppetConf(vardir: string, rundir: string, confdir: string)

  /**
   * The directories read from the parsed `puppet config print` output, as
   * the helper's constructor reads them: the three keys are looked up in
   * order, and `vardir` and `rundir` must be text since file paths are
   * appended to them; `confdir` is only ever formatted.
   */
  function ReportedConf(reported: Value): (r: Result<PuppetConf, Exc>)
    ensures !reported.VDict? ==> r == Err(TypeError)
    ensures reported.VDict? && "vardir" !in Keys(reported.items) ==> r == Err(KeyError("vardir"))
    ensures reported.VDict? && "vardir" in Keys(reported.items) && "rundir" !in Keys(reported.items) ==>
              r == Err(KeyError("rundir"))
    ensures (reported.VDict? && "vardir" in Keys(reported.items) && "rundir" in Keys(reported.items) &&
             "confdir" !in Keys(reported.items)) ==> r == Err(KeyError("confdir"))
    ensures r.Ok? <==> (reported.VDict? && "confdir" in Keys(reported.items) &&
                        Get(reported.items, "vardir").Some? && Get(reported.items, "vardir").value.VStr? &&
                        Get(reported.items, "rundir").Some? && Get(reported.items, "rundir").value.VStr?)
    ensures r.Ok? ==> r.value.vardir == Get(reported.items, "vardir").value.s
    ensures r.Ok? ==> r.value.rundir == Get(reported.items, "rundir").value.s
    ensures r.Ok? ==> r.value.confdir == Str(Get(reported.items, "confdir").value)
  {
    match GetItem(reported, "vardir")
    case Err(e) => Err(e)
    case Ok(v) =>
      match GetItem(reported, "rundir")
      case Err(e) => Err(e)
      case Ok(u) =>
        match GetItem(reported, "confdir")
        case Err(e) => Err(e)
        case Ok(c) =>
          if !v.VStr? || !u.VStr? then Err(TypeError)
          else Ok(PuppetConf(v.s, u.s, Str(c)))
  }

  function DisabledLockfile(conf: PuppetConf): string { conf.vardir + "/state/agent_disabled.lock" }
  function RunLockfile(conf: PuppetConf): string { conf.vardir + "/state/agent_catalog_run.lock" }
  function AgentPidfile(conf: PuppetConf): string { conf.rundir + "/agent.pid" }
  function LastRunFile(conf: PuppetConf): string { conf.vardir + "/state/last_run_summary.yaml" }

  /** `" --f"` for every flag, in order. */
  function FlagsText(flags: seq<string>): string {
    if flags == [] then "" else " --" + flags[0] + FlagsText(flags[1..])
  }

  /** `" --k v"` for every option, in dictionary order. */
  function OptionsText(opts: Dict<string, string>): string {
    if opts == [] then "" else " --" + opts[0].0 + " " + opts[0].1 + OptionsText(opts[1..])
  }

  /**
   * The command a puppet invocation renders to. On POSIX the command is
   * wrapped so that exit status 2 (changes applied) counts as success; on
   * Windows the same is asked of `cmd /V:ON`.
   */
  function CommandLine(sub: Subcommand, conf: PuppetConf, subArgs: seq<string>, flags: seq<string>,
                       opts: Dict<string, string>, windows: bool): string
  {
    var cmd := "puppet " + SubcommandName(sub) + " --vardir " + conf.vardir + " --confdir " + conf.confdir;
    var args := Join(" ", subArgs) + FlagsText(flags) + OptionsText(opts);
    if windows then "cmd /V:ON /c " + cmd + " " + args + " ^& if !ERRORLEVEL! EQU 2 (EXIT 0) ELSE (EXIT /B)"
    else "(" + cmd + " " + args + ") || test $? -eq 2"
  }

  /** The POSIX command line is `puppet <subcommand> ...` in parentheses, followed by the exit-status test. */
  lemma PosixWrapped(sub: Subcommand, conf: PuppetConf, subArgs: seq<string>, flags: seq<string>,
                     opts: Dict<string, string>)
    ensures var s := CommandLine(sub, conf, subArgs, flags, opts, false);
      |s| >= 18 && s[|s| - 18..] == ") || test $? -eq 2" && s[..8] == "(puppet " && s[8..13] == SubcommandName(sub)
  {
    var name := SubcommandName(sub);
    var head := "puppet " + name;
    var cmd := head + " --vardir " + conf.vardir + " --confdir " + conf.confdir;
    var args := Join(" ", subArgs) + FlagsText(flags) + OptionsText(opts);
    var line := "(" + cmd + " " + args;
    var tail := ") || test $? -eq 2";
    assert CommandLine(sub, conf, subArgs, flags, opts, false) == line + tail;
    assert (line + tail)[|line|..] == tail;
    assert cmd[..|head|] == head by {
      PrefixOfAppend(head + " --vardir " + conf.vardir + " --confdir ", conf.confdir);
      PrefixOfAppend(head + " --vardir " + conf.vardir, " --confdir ");
      PrefixOfAppend(head + " --vardir ", conf.vardir);
      PrefixOfAppend(head, " --vardir ");
    }
    assert (line + tail)[..1 + |head|] == "(" + head by {
      PrefixOfAppend(line, tail);
      PrefixOfAppend("(" + cmd + " ", args);
      PrefixOfAppend("(" + cmd, " ");
      assert ("(" + cmd)[..1 + |head|] == "(" + cmd[..|head|];
    }
    assert |name| == 5;
    assert ("(" + head)[..8] == "(puppet ";
    assert ("(" + head)[8..] == name;
  }

  /** A prefix of a concatenation's prefix. */
  lemma PrefixOfAppend<T>(a: seq<T>, b: seq<T>)
    ensures forall n :: 0 <= n <= |a| ==> (a + b)[..n] == a[..n]
  {
  }

  /**
   * The exit status of the POSIX wrapper `(c) || test $? -eq 2` when `c`
   * exits with `status`.
   */
  function WrappedExitStatus(status: int): (r: int)
    ensures r == 0 <==> status == 0 || status == 2
    ensures r == 0 || r == 1
  {
    if status == 0 then 0 else if status == 2 then 0 else 1
  }

  /**
   * The shell's reading of what follows a parenthesised command `(c)` that
   * exited with `status`: nothing leaves that status; `|| test $? -eq D`
   * with one digit `D` runs the test only after a failure, and the test
   * exits 0 when `$?` equals `D` and 1 otherwise. Other texts are not read.
   */
  function ShellStatus(rest: string, status: int): Option<int> {
    if rest == "" then Some(status)
    else if |rest| == 17 && rest[..16] == " || test $? -eq " && '0' <= rest[16] <= '9' then
      var d := rest[16] as int - '0' as int;
      Some(if status == 0 then 0 else if status == d then 0 else 1)
    else None
  }

  /**
   * The POSIX command line, read by the shell after its parenthesised
   * command exits with `status`, ends with exactly `WrappedExitStatus(status)`.
   */
  lemma PosixExitStatus(sub: Subcommand, conf: PuppetConf, subArgs: seq<string>, flags: seq<string>,
                        opts: Dict<string, string>, status: int)
    ensures var s := CommandLine(sub, conf, subArgs, flags, opts, false);
      |s| >= 18 && s[|s| - 18] == ')' && ShellStatus(s[|s| - 17..], status) == Some(WrappedExitStatus(status))
  {
    PosixWrapped(sub, conf, subArgs, flags, opts);
    var s := CommandLine(sub, conf, subArgs, flags, opts, false);
    var rest := s[|s| - 17..];
    assert rest == s[|s| - 18..][1..];
    assert rest == " || test $? -eq 2";
    assert rest[..16] == " || test $? -eq ";
  }

  /** The helper object that holds one invocation's subcommand, arguments and options. */
  class Invocation {
    var subcmd: Subcommand
    var subcmdArgs: seq<string>
    var kwargs: Dict<string, string>
    var args: seq<string>
    const conf: PuppetConf
    const disabledLockfile: string
    const runLockfile: string
    const agentPidfile: string
    const lastRunFile: string

    /** `puppet agent --test` with colour off and the reported directories. */
    constructor (conf: PuppetConf)
      ensures subcmd == Agent && subcmdArgs == [] && args == []
      ensures kwargs == [("color", "false")]
      ensures this.conf == conf
      ensures disabledLockfile == DisabledLockfile(conf) && runLockfile == RunLockfile(conf)
      ensures agentPidfile == AgentPidfile(conf) && lastRunFile == LastRunFile(conf)
    {
      subcmd := Agent;
      subcmdArgs := [];
      kwargs := [("color", "false")];
      args := [];
      this.conf := conf;
      disabledLockfile := conf.vardir + "/state/agent_disabled.lock";
      runLockfile := conf.vardir + "/state/agent_catalog_run.lock";
      agentPidfile := conf.rundir + "/agent.pid";
      lastRunFile := conf.vardir + "/state/last_run_summary.yaml";
    }

    /** `repr(puppet)`. */
    function Repr(windows: bool): (s: string)
      reads this
      ensures !windows ==> |s| >= 18 && s[|s| - 18..] == ") || test $? -eq 2"
      ensures !windows ==> |s| >= 14 && s[..8] == "(puppet " && s[8..13] == SubcommandName(subcmd)
    {
      PosixWrapped(subcmd, conf, subcmdArgs, args, kwargs);
      CommandLine(subcmd, conf, subcmdArgs, args, kwargs, windows)
    }

    /**
     * `arguments(given)`: `apply` takes its manifest from the first token
     * (an `IndexError` when there is none); `agent` appends `test`.
     */
    method Arguments(given: seq<string>) returns (r: Result<(), Exc>)
      modifies this
      ensures subcmd == old(subcmd) && kwargs == old(kwargs)
      ensures old(subcmd) == Apply && given == [] ==>
        r == Err(IndexError) && subcmdArgs == old(subcmdArgs) && args == old(args)
      ensures old(subcmd) == Apply && given != [] ==>
        r.Ok? && subcmdArgs == [given[0]] && args == given[1..]
      ensures old(subcmd) == Agent ==> r.Ok? && subcmdArgs == old(subcmdArgs) && args == given + ["test"]
    {
      var rest := given;
      if subcmd == Apply {
        if rest == [] {
          return Err(IndexError);
        }
        subcmdArgs := [rest[0]];
        rest := rest[1..];
      }
      if subcmd == Agent {
        rest := rest + ["test"];
      }
      args := rest;
      return Ok(());
    }
  }

  predicate IsSubcommandToken(a: string) { a == "agent" || a == "apply" }

  /** The subcommand a run selects: the last `agent`/`apply` token, `agent` when there is none. */
  function ChosenSubcommand(given: seq<string>): Subcommand {
    if given == [] then Agent
    else
      var last := given[|given| - 1];
      if last == "agent" then Agent
      else if last == "apply" then Apply
      else ChosenSubcommand(given[..|given| - 1])
  }

  /** The tokens a run passes on: every token except the subcommand names, in order. */
  function PassedArgs(given: seq<string>): (r: seq<string>)
    ensures forall a {:trigger a in r} :: a in r <==> a in given && !IsSubcommandToken(a)
    ensures |r| <= |given|
    ensures (forall j :: 0 <= j < |given| ==> !IsSubcommandToken(given[j])) ==> r == given
  {
    if given == [] then []
    else
      var last := given[|given| - 1];
      PassedArgs(given[..|given| - 1]) + (if IsSubcommandToken(last) then [] else [last])
  }

  /**
   * The tokens passed on from two runs of tokens are those of the first run
   * followed by those of the second: with the single-token cases, nothing is
   * reordered, merged or repeated.
   */
  lemma {:induction false} PassedArgsConcat(a: seq<string>, b: seq<string>)
    ensures PassedArgs(a + b) == PassedArgs(a) + PassedArgs(b)
    decreases |b|
  {
    if b == [] {
      assert a + b == a;
    } else {
      var n := |b| - 1;
      var tail := if IsSubcommandToken(b[n]) then [] else [b[n]];
      assert (a + b)[..|a + b| - 1] == a + b[..n];
      assert (a + b)[|a + b| - 1] == b[n];
      calc {
        PassedArgs(a + b);
        { PassedArgsLast(a + b); }
        PassedArgs(a + b[..n]) + tail;
        { PassedArgsConcat(a, b[..n]); }
        (PassedArgs(a) + PassedArgs(b[..n])) + tail;
        PassedArgs(a) + (PassedArgs(b[..n]) + tail);
        { PassedArgsLast(b); }
        PassedArgs(a) + PassedArgs(b);
      }
    }
  }

  /** The last token, unless a subcommand name, is passed on after the others. */
  lemma PassedArgsLast(given: seq<string>)
    requires given != []
    ensures var n := |given| - 1;
      PassedArgs(given) == PassedArgs(given[..n]) + (if IsSubcommandToken(given[n]) then [] else [given[n]])
  {
  }

  /** A lone subcommand token passes nothing on; any other lone token is passed on as it is. */
  lemma PassedArgsSingle(x: string)
    ensures PassedArgs([x]) == if IsSubcommandToken(x) then [] else [x]
  {
    assert [x][..0] == [];
  }

  /** The options of a run: `color: false` first, then the caller's, which may override it. */
  function Options(kwargs: Dict<string, string>): Dict<string, string> {
    PutAll([("color", "false")], kwargs)
  }

  /**
   * How `run` splits the tokens: the subcommand, its own arguments and the
   * flags. Nothing is dropped or reordered; `agent` adds `test` at the end.
   */
  function Plan(given: seq<string>): (r: Result<(Subcommand, seq<string>, seq<string>), Exc>)
    ensures r.Err? <==> ChosenSubcommand(given) == Apply && PassedArgs(given) == []
    ensures r.Err? ==> r.error == IndexError
    ensures r.Ok? ==> r.value.0 == ChosenSubcommand(given)
    ensures r.Ok? ==> (r.value.1 + r.value.2 ==
      PassedArgs(given) + (if r.value.0 == Agent then ["test"] else []))
    ensures r.Ok? ==> |r.value.1| == (if r.value.0 == Apply then 1 else 0)
  {
    var passed := PassedArgs(given);
    match ChosenSubcommand(given)
    case Apply =>
      if passed == [] then Err(IndexError)
      else
        assert [passed[0]] + passed[1..] == passed;
        Ok((Apply, [passed[0]], passed[1..]))
    case Agent => Ok((Agent, [], passed + ["test"]))
  }

  /** The command `run(*given, **kwargs)` hands to `cmd.run_all`. */
  function RunCommand(conf: PuppetConf, given: seq<string>, kwargs: Dict<string, string>, windows: bool): Result<string, Exc> {
    match Plan(given)
    case Err(e) => Err(e)
    case Ok((sub, subArgs, flags)) => Ok(CommandLine(sub, conf, subArgs, flags, Options(kwargs), windows))
  }

  /** `run(*given, **kwargs)`. */
  method Run(conf: PuppetConf, given: seq<string>, kwargs: Dict<string, string>, windows: bool,
             runAll: string -> CmdResult) returns (r: Result<CmdResult, Exc>)
    ensures RunCommand(conf, given, kwargs, windows).Err? ==> r == Err(RunCommand(conf, given, kwargs, windows).error)
    ensures RunCommand(conf, given, kwargs, windows).Ok? ==> r == Ok(runAll(RunCommand(conf, given, kwargs, windows).value))
  {
    var p := new Invocation(conf);
    var buildargs: seq<string> := [];
    var i := 0;
    while i < |given|
      invariant 0 <= i <= |given|
      invariant p.subcmd == ChosenSubcommand(given[..i])
      invariant buildargs == PassedArgs(given[..i])
      invariant p.subcmdArgs == [] && p.args == [] && p.kwargs == [("color", "false")] && p.conf == conf
    {
      assert given[..i + 1][..i] == given[..i];
      PassedArgsLast(given[..i + 1]);
      var arg := given[i];
      if arg == "agent" {
        p.subcmd := Agent;
      } else if arg == "apply" {
        p.subcmd := Apply;
      } else {
        buildargs := buildargs + [arg];
      }
      i := i + 1;
    }
    assert given[..|given|] == given;
    var ok := p.Arguments(buildargs);
    if ok.Err? {
      assert Plan(given) == Err(IndexError);
      return Err(ok.error);
    }
    assert Plan(given) == Ok((p.subcmd, p.subcmdArgs, p.args));
    p.kwargs := PutAll(p.kwargs, kwargs);
    var cmd := p.Repr(windows);
    assert cmd == RunCommand(conf, given, kwargs, windows).value;
    return Ok(runAll(cmd));
  }

  /** The last `agent`/`apply` token decides the subcommand. */
  lemma {:induction false} LastSubcommandWins(given: seq<string>, i: nat)
    requires i < |given| && IsSubcommandToken(given[i])
    requires forall j :: i < j < |given| ==> !IsSubcommandToken(given[j])
    ensures ChosenSubcommand(given) == if given[i] == "agent" then Agent else Apply
  {
    if i < |given| - 1 {
      var pre := given[..|given| - 1];
      assert forall j :: i < j < |pre| ==> pre[j] == given[j];
      LastSubcommandWins(pre, i);
    }
  }

  /** Without an `agent`/`apply` token the subcommand is `agent`. */
  lemma {:induction false} DefaultSubcommand(given: seq<string>)
    requires forall j :: 0 <= j < |given| ==> !IsSubcommandToken(given[j])
    ensures ChosenSubcommand(given) == Agent
  {
    if given != [] {
      var pre := given[..|given| - 1];
      assert forall j :: 0 <= j < |pre| ==> pre[j] == given[j];
      DefaultSubcommand(pre);
    }
  }

  /** The caller's `color` option replaces the seeded one; `color` stays the first option. */
  lemma ColorOverride(kwargs: Dict<string, string>)
    ensures Get(Options(kwargs), "color") ==
      if "color" in Keys(kwargs) then Some(LastValue(kwargs, "color")) else Some("false")
    ensures Keys(Options(kwargs))[0] == "color"
  {
    GetPutAll([("color", "false")], kwargs, "color");
    PutAllFirstKey([("color", "false")], kwargs);
  }

  lemma {:induction false} PutAllFirstKey(d: Dict<string, string>, kvs: Dict<string, string>)
    requires d != []
    ensures |PutAll(d, kvs)| > 0 && Keys(PutAll(d, kvs))[0] == Keys(d)[0]
  {
    if kvs != [] {
      var n := |kvs| - 1;
      PutAllFirstKey(d, kvs[..n]);
    }
  }

  /** `noop` adds the `noop` token, which a run cannot lose, so a no-op run never fails. */
  lemma NoopPlan(given: seq<string>)
    ensures ChosenSubcommand(given + ["noop"]) == ChosenSubcommand(given)
    ensures PassedArgs(given + ["noop"]) == PassedArgs(given) + ["noop"]
    ensures Plan(given + ["noop"]).Ok?
  {
    assert (given + ["noop"])[..|given|] == given;
  }

  /** `noop(*given, **kwargs)`. */
  method Noop(conf: PuppetConf, given: seq<string>, kwargs: Dict<string, string>, windows: bool,
              runAll: string -> CmdResult) returns (r: Result<CmdResult, Exc>)
    ensures RunCommand(conf, given + ["noop"], kwargs, windows).Ok?
    ensures r == Ok(runAll(RunCommand(conf, given + ["noop"], kwargs, windows).value))
  {
    NoopPlan(given);
    r := Run(conf, given + ["noop"], kwargs, windows, runAll);
  }

  // ---- agent status and the disable lock ----

  datatype AgentStatus =
    | AdministrativelyDisabled
    | ApplyingCatalog
    | StaleLockfile
    | IdleDaemon
    | StalePidfile
    | Stopped

  function StatusText(s: AgentStatus): string {
    match s
    case AdministrativelyDisabled => "Administratively disabled"
    case ApplyingCatalog => "Applying a catalog"
    case StaleLockfile => "Stale lockfile"
    case IdleDaemon => "Idle daemon"
    case StalePidfile => "Stale pidfile"
    case Stopped => "Stopped"
  }

  /**
   * Whether the process whose id the file holds can be signalled: a file
   * that cannot be opened (`None`), unparsable text and an `OSError` from
   * the signal all mean no; any other exception escapes.
   */
  function Signalled(text: Option<string>, kill: int -> Option<Exc>): Result<bool, Exc> {
    match text
    case None => Ok(false)
    case Some(t) =>
      match ParseInt(t)
      case None => Ok(false)
      case Some(pid) =>
        match kill(pid)
        case None => Ok(true)
        case Some(OSError(_)) => Ok(false)
        case Some(e) => Err(e)
  }

  /** The text of an existing file, or `None` when opening it raises `OSError`. */
  function Contents(files: map<string, string>, unreadable: set<string>, path: string): Option<string>
    requires path in files
  {
    if path in unreadable then None else Some(files[path])
  }

  /**
   * `status()`: the first of the disabled lock, run lock and pid file that
   * exists decides. `unreadable` holds the existing files whose opening
   * raises `OSError`.
   */
  function Status(conf: PuppetConf, files: map<string, string>, unreadable: set<string>, kill: int -> Option<Exc>): (r: Result<AgentStatus, Exc>)
    ensures r == Ok(AdministrativelyDisabled) <==> DisabledLockfile(conf) in files
    ensures r.Err? ==> DisabledLockfile(conf) !in files && (RunLockfile(conf) in files || AgentPidfile(conf) in files)
    ensures r.Err? && RunLockfile(conf) in files ==>
              Signalled(Contents(files, unreadable, RunLockfile(conf)), kill) == Err(r.error)
    ensures r.Err? && RunLockfile(conf) !in files && AgentPidfile(conf) in files ==>
              Signalled(Contents(files, unreadable, AgentPidfile(conf)), kill) == Err(r.error)
    ensures r == Ok(Stopped) <==>
      DisabledLockfile(conf) !in files && RunLockfile(conf) !in files && AgentPidfile(conf) !in files
    ensures r == Ok(ApplyingCatalog) <==>
      DisabledLockfile(conf) !in files && RunLockfile(conf) in files &&
      Signalled(Contents(files, unreadable, RunLockfile(conf)), kill) == Ok(true)
    ensures r == Ok(StaleLockfile) <==>
      DisabledLockfile(conf) !in files && RunLockfile(conf) in files &&
      Signalled(Contents(files, unreadable, RunLockfile(conf)), kill) == Ok(false)
    ensures r == Ok(IdleDaemon) <==>
      DisabledLockfile(conf) !in files && RunLockfile(conf) !in files && AgentPidfile(conf) in files
      && Signalled(Contents(files, unreadable, AgentPidfile(conf)), kill) == Ok(true)
    ensures r == Ok(StalePidfile) <==>
      DisabledLockfile(conf) !in files && RunLockfile(conf) !in files && AgentPidfile(conf) in files
      && Signalled(Contents(files, unreadable, AgentPidfile(conf)), kill) == Ok(false)
    ensures DisabledLockfile(conf) !in files && RunLockfile(conf) in files && RunLockfile(conf) in unreadable ==>
      r == Ok(StaleLockfile)
    ensures (DisabledLockfile(conf) !in files && RunLockfile(conf) !in files && AgentPidfile(conf) in files &&
             AgentPidfile(conf) in unreadable) ==> r == Ok(StalePidfile)
  {
    if DisabledLockfile(conf) in files then Ok(AdministrativelyDisabled)
    else if RunLockfile(conf) in files then
      match Signalled(Contents(files, unreadable, RunLockfile(conf)), kill)
      case Ok(alive) => Ok(if alive then ApplyingCatalog else StaleLockfile)
      case Err(e) => Err(e)
    else if AgentPidfile(conf) in files then
      match Signalled(Contents(files, unreadable, AgentPidfile(conf)), kill)
      case Ok(alive) => Ok(if alive then IdleDaemon else StalePidfile)
      case Err(e) => Err(e)
    else Ok(Stopped)
  }

  /** What a file-system operation returned and the files afterwards. */
  datatype FsEffect = FsEffect(ret: Result<bool, Exc>, files: map<string, string>)

  /** The JSON text `disable` writes into the lock file. */
  function DisabledMessage(message: Option<string>): string {
    match message
    case Some(m) => "{\"disabled_message\":\"" + m + "\"}"
    case None => "{}"
  }

  /**
   * `enable()`: removes the disabled lock. `removeError` is the message of
   * the `OSError` the removal raises, if it does.
   */
  function Enable(conf: PuppetConf, files: map<string, string>, removeError: Option<string>): (e: FsEffect)
    ensures e.ret == Ok(true) <==> DisabledLockfile(conf) in files && removeError.None?
    ensures e.ret == Ok(false) <==> DisabledLockfile(conf) !in files
    ensures e.ret.Err? ==> e.ret.error == CommandExecutionError("Failed to enable: " + removeError.value)
    ensures e.ret == Ok(true) ==> e.files == files - {DisabledLockfile(conf)}
    ensures e.ret != Ok(true) ==> e.files == files
  {
    var lock := DisabledLockfile(conf);
    if lock in files then
      match removeError
      case Some(m) => FsEffect(Err(CommandExecutionError("Failed to enable: " + m)), files)
      case None => FsEffect(Ok(true), files - {lock})
    else FsEffect(Ok(false), files)
  }

  /**
   * `disable(message)`: creates the disabled lock unless it exists.
   * `openError` is the message of an `OSError` from opening the file, which
   * escapes as it is; `writeError` one from writing it, which is reported
   * and leaves the created, empty file behind.
   */
  function Disable(conf: PuppetConf, files: map<string, string>, message: Option<string>,
                   openError: Option<string>, writeError: Option<string>): (e: FsEffect)
    ensures e.ret == Ok(false) <==> DisabledLockfile(conf) in files
    ensures e.ret == Ok(true) <==> DisabledLockfile(conf) !in files && openError.None? && writeError.None?
    ensures e.ret == Ok(true) ==> e.files == files[DisabledLockfile(conf) := DisabledMessage(message)]
    ensures e.ret.Err? && openError.Some? ==> e.ret.error == OSError(openError.value) && e.files == files
    ensures e.ret.Err? && openError.None? ==>
      e.ret.error == CommandExecutionError("Failed to disable: " + writeError.value) &&
      e.files == files[DisabledLockfile(conf) := ""]
    ensures DisabledLockfile(conf) in files ==> e.files == files
  {
    var lock := DisabledLockfile(conf);
    if lock in files then FsEffect(Ok(false), files)
    else
      match openError
      case Some(m) => FsEffect(Err(OSError(m)), files)
      case None =>
        match writeError
        case Some(m) => FsEffect(Err(CommandExecutionError("Failed to disable: " + m)), files[lock := ""])
        case None => FsEffect(Ok(true), files[lock := DisabledMessage(message)])
  }

  /** After a successful `disable`, `status` reports the agent administratively disabled. */
  lemma DisableThenStatus(conf: PuppetConf, files: map<string, string>, message: Option<string>,
                          unreadable: set<string>, kill: int -> Option<Exc>)
    requires DisabledLockfile(conf) !in files
    ensures var e := Disable(conf, files, message, None, None);
      e.ret == Ok(true) && Status(conf, e.files, unreadable, kill) == Ok(AdministrativelyDisabled)
  {
  }

  /** A second `disable` reports `False` and leaves the lock as it is. */
  lemma DisableTwice(conf: PuppetConf, files: map<string, string>, m1: Option<string>, m2: Option<string>,
                     o: Option<string>, w: Option<string>)
    requires DisabledLockfile(conf) !in files
    ensures var e1 := Disable(conf, files, m1, None, None);
      Disable(conf, e1.files, m2, o, w) == FsEffect(Ok(false), e1.files)
  {
  }

  /** `enable` undoes a successful `disable`. */
  lemma EnableUndoesDisable(conf: PuppetConf, files: map<string, string>, message: Option<string>)
    requires DisabledLockfile(conf) !in files
    ensures var e1 := Disable(conf, files, message, None, None);
      var e2 := Enable(conf, e1.files, None);
      e2.ret == Ok(true) && e2.files == files
  {
    var lock := DisabledLockfile(conf);
    var e1 := Disable(conf, files, message, None, None);
    assert e1.files - {lock} == files;
  }

  // ---- the last-run summary ----

  /** The exceptions the summary reports under its own messages; others escape. */
  function SummaryError(e: Exc): Exc {
    match e
    case YAMLError(m) => CommandExecutionError("YAML error parsing puppet run summary: " + m)
    case OSError(m) => CommandExecutionError("Unable to read puppet run summary: " + m)
    case _ => e
  }

  /** The ISO time of `report["time"]["last_run"]`, or the exception on the way. */
  function LastRunTime(report: Value, fromTimestamp: int -> Result<string, Exc>): Result<string, Exc> {
    match GetItem(report, "time")
    case Err(e) => Err(e)
    case Ok(t) =>
      match GetItem(t, "last_run")
      case Err(e) => Err(e)
      case Ok(v) =>
        match ToInt(v)
        case Err(e) => Err(e)
        case Ok(n) => fromTimestamp(n)
  }

  /** The text reported for a timestamp that is missing, not a number or out of range. */
  const InvalidTimestamp := "invalid or missing timestamp"

  /** A type, value or key error: the exceptions the `last_run` lookup catches. */
  predicate Caught(e: Exc) { e == TypeError || e == ValueError || e.KeyError? }

  /** The `last_run` text: a type, value or key error on the way yields a fixed text; other errors escape. */
  function LastRunEntry(report: Value, fromTimestamp: int -> Result<string, Exc>): (r: Result<string, Exc>)
    ensures r.Err? ==> !Caught(r.error)
    ensures LastRunTime(report, fromTimestamp).Ok? ==> r == LastRunTime(report, fromTimestamp)
    ensures LastRunTime(report, fromTimestamp).Err? && Caught(LastRunTime(report, fromTimestamp).error) ==>
      r == Ok(InvalidTimestamp)
    ensures LastRunTime(report, fromTimestamp).Err? && !Caught(LastRunTime(report, fromTimestamp).error) ==>
      r == LastRunTime(report, fromTimestamp)
  {
    match LastRunTime(report, fromTimestamp)
    case Ok(s) => Ok(s)
    case Err(e) =>
      if Caught(e) then Ok(InvalidTimestamp) else Err(e)
  }

  /**
   * For a mapping report whose `time` is a mapping: a missing `last_run`, or
   * one that is not a whole number, gives the fixed text; a whole number
   * gives its time when that converts.
   */
  lemma LastRunOfMapping(report: Dict<string, Value>, t: Dict<string, Value>,
                         fromTimestamp: int -> Result<string, Exc>)
    requires Get(report, "time") == Some(VDict(t))
    ensures Get(t, "last_run") == None ==> LastRunEntry(VDict(report), fromTimestamp) == Ok(InvalidTimestamp)
    ensures forall v :: Get(t, "last_run") == Some(v) && ToInt(v).Err? && Caught(ToInt(v).error) ==>
      LastRunEntry(VDict(report), fromTimestamp) == Ok(InvalidTimestamp)
    ensures forall v :: Get(t, "last_run") == Some(v) && ToInt(v).Ok? && fromTimestamp(ToInt(v).value).Ok? ==>
      LastRunEntry(VDict(report), fromTimestamp) == fromTimestamp(ToInt(v).value)
  {
  }

  /** When the time conversion itself raises only type or value errors, `last_run` is always produced. */
  lemma LastRunEntryOk(report: Value, fromTimestamp: int -> Result<string, Exc>)
    requires forall n :: fromTimestamp(n).Err? ==> fromTimestamp(n).error in {TypeError, ValueError}
    ensures LastRunEntry(report, fromTimestamp).Ok?
  {
    match GetItem(report, "time")
    case Err(e) =>
    case Ok(t) =>
      match GetItem(t, "last_run")
      case Err(e) =>
      case Ok(v) =>
        match ToInt(v)
        case Err(e) =>
        case Ok(n) =>
  }

  /** The entries of `time` kept for `keys`, in that order. */
  function TimeProjection(time: Value, keys: seq<string>): Result<Dict<string, Value>, Exc>
    decreases |keys|
  {
    if keys == [] then Ok([])
    else
      var key := keys[|keys| - 1];
      match TimeProjection(time, keys[..|keys| - 1])
      case Err(e) => Err(e)
      case Ok(acc) =>
        match Member(key, time)
        case Err(e) => Err(e)
        case Ok(false) => Ok(acc)
        case Ok(true) =>
          match GetItem(time, key)
          case Err(e) => Err(e)
          case Ok(v) => Ok(Put(acc, key, v))
  }

  /**
   * `last_run` and the `time` projection of a report that has `time`. A
   * timestamp that is missing, not a number or out of range is reported as
   * such; the projection itself can fail on a `time` that is no mapping.
   */
  function TimedSummary(rep: Value, fromTimestamp: int -> Result<string, Exc>): Result<Dict<string, Value>, Exc> {
    match LastRunEntry(rep, fromTimestamp)
    case Err(e) => Err(e)
    case Ok(s) =>
      match GetItem(rep, "time")
      case Err(e) => Err(e)
      case Ok(t) =>
        match TimeProjection(t, ["total", "config_retrieval"])
        case Err(e) => Err(e)
        case Ok(tm) => Ok([("last_run", VStr(s)), ("time", VDict(tm))])
  }

  /** The `resources` entry appended when the report has one. */
  function WithResources(rep: Value, res: Dict<string, Value>): Result<Dict<string, Value>, Exc> {
    match Member("resources", rep)
    case Err(e) => Err(e)
    case Ok(false) => Ok(res)
    case Ok(true) =>
      match GetItem(rep, "resources")
      case Err(e) => Err(e)
      case Ok(v) => Ok(res + [("resources", v)])
  }

  /**
   * `summary()` given the outcome of reading and parsing the last-run file:
   * `last_run` and a `time` projection when the report has `time`, and
   * `resources` copied when it has one. Parse and read errors are reported
   * under their own messages.
   */
  function Summary(report: Result<Value, Exc>, fromTimestamp: int -> Result<string, Exc>): (r: Result<Dict<string, Value>, Exc>)
    ensures report.Err? ==> r == Err(SummaryError(report.error))
    ensures r.Ok? ==> forall k :: k in Keys(r.value) ==> k in ["last_run", "time", "resources"]
  {
    match report
    case Err(e) => Err(SummaryError(e))
    case Ok(rep) =>
      match Member("time", rep)
      case Err(e) => Err(SummaryError(e))
      case Ok(hasTime) =>
        match (if hasTime then TimedSummary(rep, fromTimestamp) else Ok([]))
        case Err(e) => Err(SummaryError(e))
        case Ok(res) =>
          match WithResources(rep, res)
          case Err(e) => Err(SummaryError(e))
          case Ok(out) => Ok(out)
  }

  lemma {:induction false} TimeProjectionOfDict(time: Dict<string, Value>, keys: seq<string>)
    ensures TimeProjection(VDict(time), keys).Ok?
    ensures forall k :: (Get(TimeProjection(VDict(time), keys).value, k) ==
      if k in keys then Get(time, k) else None)
    decreases |keys|
  {
    if keys != [] {
      var n := |keys| - 1;
      TimeProjectionOfDict(time, keys[..n]);
      var acc := TimeProjection(VDict(time), keys[..n]).value;
      forall k ensures Get(TimeProjection(VDict(time), keys).value, k) == if k in keys then Get(time, k) else None {
        assert keys == keys[..n] + [keys[n]];
        if keys[n] in Keys(time) {
          GetPut(acc, keys[n], Get(time, keys[n]).value, k);
        }
      }
    }
  }

  /** The `time` part of a mapping report whose `time` entry is a mapping. */
  lemma TimedSummaryOfMapping(report: Dict<string, Value>, t: Dict<string, Value>, fromTimestamp: int -> Result<string, Exc>)
    requires Get(report, "time") == Some(VDict(t))
    requires LastRunEntry(VDict(report), fromTimestamp).Ok?
    ensures var r := TimedSummary(VDict(report), fromTimestamp);
      r.Ok? && Keys(r.value) == ["last_run", "time"] && r.value[1].1.VDict? &&
      r.value[0].1 == VStr(LastRunEntry(VDict(report), fromTimestamp).value) &&
      forall k :: (Get(r.value[1].1.items, k) == if k in ["total", "config_retrieval"] then Get(t, k) else None)
  {
    TimeProjectionOfDict(t, ["total", "config_retrieval"]);
  }

  lemma WithResourcesOfMapping(report: Dict<string, Value>, res: Dict<string, Value>)
    requires "resources" !in Keys(res)
    ensures WithResources(VDict(report), res) ==
      Ok(if "resources" in Keys(report) then Put(res, "resources", Get(report, "resources").value) else res)
  {
    if "resources" in Keys(report) {
      PutNew(res, "resources", Get(report, "resources").value);
    }
  }

  /**
   * For a report that is a mapping whose `time` entry, if any, is a mapping:
   * the summary succeeds, has `last_run` and `time` exactly when the report
   * has `time`, and copies `resources` exactly when present.
   */
  lemma SummaryOfMapping(report: Dict<string, Value>, fromTimestamp: int -> Result<string, Exc>)
    requires forall t :: Get(report, "time") == Some(t) ==> t.VDict?
    requires forall n :: fromTimestamp(n).Err? ==> fromTimestamp(n).error in {TypeError, ValueError}
    ensures var r := Summary(Ok(VDict(report)), fromTimestamp);
      r.Ok? &&
      ("last_run" in Keys(r.value) <==> "time" in Keys(report)) &&
      ("time" in Keys(r.value) <==> "time" in Keys(report)) &&
      ("time" in Keys(report) ==> Get(r.value, "last_run") == Some(VStr(LastRunEntry(VDict(report), fromTimestamp).value))) &&
      ("time" in Keys(report) ==>
         Get(r.value, "time").Some? && Get(r.value, "time").value.VDict? &&
         forall k :: Get(Get(r.value, "time").value.items, k) ==
           if k in ["total", "config_retrieval"] then Get(Get(report, "time").value.items, k) else None) &&
      Get(r.value, "resources") == Get(report, "resources")
  {
    var rep := VDict(report);
    var timed: Dict<string, Value> := [];
    if "time" in Keys(report) {
      var t := Get(report, "time").value;
      LastRunEntryOk(rep, fromTimestamp);
      TimedSummaryOfMapping(report, t.items, fromTimestamp);
      timed := TimedSummary(rep, fromTimestamp).value;
    }
    assert Keys(timed) == [] || Keys(timed) == ["last_run", "time"];
    WithResourcesOfMapping(report, timed);
    var out := WithResources(rep, timed).value;
    assert Summary(Ok(rep), fromTimestamp) == Ok(out);
    var res := if "resources" in Keys(report) then Get(report, "resources").value else VNone;
    GetPut(timed, "resources", res, "resources");
    GetPut(timed, "resources", res, "last_run");
    assert Get(timed, "resources") == None;
    if "time" in Keys(report) {
      SummaryTimeOfMapping(report, fromTimestamp);
    }
  }

  /** The `time` entry of a mapping report's summary holds exactly the report's `total` and `config_retrieval`. */
  lemma SummaryTimeOfMapping(report: Dict<string, Value>, fromTimestamp: int -> Result<string, Exc>)
    requires "time" in Keys(report) && Get(report, "time").value.VDict?
    requires forall n :: fromTimestamp(n).Err? ==> fromTimestamp(n).error in {TypeError, ValueError}
    ensures var r := Summary(Ok(VDict(report)), fromTimestamp);
      r.Ok? && Get(r.value, "time").Some? && Get(r.value, "time").value.VDict? &&
      forall k :: Get(Get(r.value, "time").value.items, k) ==
        if k in ["total", "config_retrieval"] then Get(Get(report, "time").value.items, k) else None
  {
    var rep := VDict(report);
    var t := Get(report, "time").value;
    LastRunEntryOk(rep, fromTimestamp);
    TimedSummaryOfMapping(report, t.items, fromTimestamp);
    var timed := TimedSummary(rep, fromTimestamp).value;
    assert Get(timed, "time") == Some(timed[1].1) by {
      assert timed[1..][0] == timed[1];
    }
    WithResourcesOfMapping(report, timed);
    var res := if "resources" in Keys(report) then Get(report, "resources").value else VNone;
    var out := WithResources(rep, timed).value;
    assert Summary(Ok(rep), fromTimestamp) == Ok(out);
    GetPut(timed, "resources", res, "time");
    assert Get(out, "time") == Some(timed[1].1);
  }
}
