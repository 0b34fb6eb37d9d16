/** What the two Yandex-Cloud modules exchange with the `yc` command-line
    tool: the command vectors they issue, the replies they read, the
    outcomes a run can end in, and the `check_rc=True` discipline under
    which the first failing command aborts the run. */
module YcCli {
  import opened Wrappers
  import opened YcArgs

  /** One `yc` invocation, as the list handed to `module.run_command`. */
  type Argv = seq<string>

  /** The part of `run_command`'s `(rc, stdout, stderr)` the modules read. */
  datatype Reply = Reply(rc: int, stdout: string)

  /** The parsed `yc compute instance get` output the modules read:
      `status` and `resources{memory (bytes), cores, core_fraction}`. */
  datatype Instance = Instance(status: string, memory: int, cores: int, coreFraction: int)

  /** Why a run ended through `module.fail_json`. */
  datatype Failure =
    | CommandFailed(argv: Argv, rc: int)  // `run_command(..., check_rc=True)` saw a non-zero exit code
    | NoVm(msg: string)                   // an explicit `fail_json(msg=...)` of a state guard

  /** An uncaught Python exception that ends the run. */
  datatype Crash =
    | NoBootDisk        // `module.params['boot_disk']` is `None`: subscripting it raises TypeError
    | YcJoinedUnbound   // `result['yc_joined'] = yc_joined` read before assignment

  /** How a run ends. `vm` and `ycJoined` are the `result` keys of those names, when set. */
  datatype Outcome =
    | Exited(changed: bool, vm: Option<string>, ycJoined: Option<string>)
    | Failed(failure: Failure)
    | Crashed(error: Crash)

  /** A run: every `yc` command issued, in order, and how the run ended. */
  datatype Run = Run(issued: seq<Argv>, outcome: Outcome)

  /** The reconciliation's decision: what the state branches go on to do. */
  datatype Action =
    | Create(argv: Argv)         // the create command
    | Mutate(cmds: seq<Argv>)    // mutating commands, in order, each with `check_rc=True`
    | Keep                       // no command; `changed` stays as it was
    | Refuse(msg: string)        // `fail_json(msg=...)` without issuing anything

  /** 2^30: the control plane reports memory in bytes, the module takes gigabytes. */
  const BytesPerGiB: int := 1073741824

  /** The configuration check run before anything else. */
  const ConfigList: Argv := ["yc", "config", "list"]

  /** The existence probe. */
  function GetArgv(name: string): Argv
  {
    ["yc", "compute", "instance", "get", name, "--format", "json"]
  }

  /** `yc compute instance <verb> <name> --format json` (delete, stop, start, restart). */
  function VerbArgv(verb: string, name: string): Argv
  {
    ["yc", "compute", "instance", verb, name, "--format", "json"]
  }

  /** The stop issued before an update: it carries no `--format`. */
  function StopForUpdateArgv(name: string): Argv
  {
    ["yc", "compute", "instance", "stop", name]
  }

  /** The create command: `yc compute instance create` + `yc_args` + `--format json-rest --format json`. */
  function CreateArgv(p: ModuleParams, disk: BootDisk): Argv
  {
    ["yc", "compute", "instance", "create"] + ArgsOf(YcParams(p, disk))
    + ["--format", "json-rest"] + ["--format", "json"]
  }

  /** The update decision's test: memory (GB against bytes), cores or core
      fraction differ between the parameters and the probed instance. */
  predicate Drift(p: ModuleParams, inst: Instance)
  {
    || p.memory * BytesPerGiB != inst.memory
    || p.cores != inst.cores
    || p.coreFraction != inst.coreFraction
  }

  /** The integer memory test is exactly the comparison of the requested
      gigabytes with the byte count divided by 2^30. */
  lemma DriftIsExactDivision(p: ModuleParams, inst: Instance)
    ensures Drift(p, inst)
        <==> || p.memory as real != inst.memory as real / BytesPerGiB as real
             || p.cores != inst.cores
             || p.coreFraction != inst.coreFraction
  {
    var k := BytesPerGiB as real;
    assert p.memory as real * k == (p.memory * BytesPerGiB) as real;
    if p.memory as real == inst.memory as real / k {
      assert p.memory as real * k == inst.memory as real;
    }
  }

  /** Every command of `cmds` exits with code 0. */
  predicate AllSucceed(cmds: seq<Argv>, cli: Argv -> Reply)
  {
    forall k :: 0 <= k < |cmds| ==> cli(cmds[k]).rc == 0
  }

  /** What a run of `check_rc=True` commands issued, and the failure that stopped it. */
  datatype Issued = Issued(issued: seq<Argv>, failure: Option<Failure>)

  /** Issues `cmds` in order; the first non-zero exit code aborts the rest. */
  function IssueChecked(cmds: seq<Argv>, cli: Argv -> Reply): (r: Issued)
    ensures |r.issued| <= |cmds| && r.issued == cmds[..|r.issued|]
    ensures r.failure.None? <==> AllSucceed(cmds, cli)
    ensures r.failure.None? ==> r.issued == cmds
    ensures r.failure.Some? ==>
              && |r.issued| > 0
              && AllSucceed(r.issued[..|r.issued| - 1], cli)
              && cli(r.issued[|r.issued| - 1]).rc != 0
              && r.failure.value == CommandFailed(r.issued[|r.issued| - 1], cli(r.issued[|r.issued| - 1]).rc)
  {
    if cmds == [] then Issued([], None)
    else if cli(cmds[0]).rc != 0 then Issued([cmds[0]], Some(CommandFailed(cmds[0], cli(cmds[0]).rc)))
    else
      var rest := IssueChecked(cmds[1..], cli);
      assert AllSucceed(cmds, cli) <==> AllSucceed(cmds[1..], cli) by {
        forall k | 1 <= k < |cmds| ensures cmds[k] == cmds[1..][k - 1] {}
      }
      Issued([cmds[0]] + rest.issued, rest.failure)
  }

  /** When the first failing command is the k-th, exactly the first k+1
      commands are issued and the run fails with the k-th command's code. */
  lemma {:induction false} IssueCheckedStopsAt(cmds: seq<Argv>, cli: Argv -> Reply, k: nat)
    requires k < |cmds| && AllSucceed(cmds[..k], cli) && cli(cmds[k]).rc != 0
    ensures IssueChecked(cmds, cli) == Issued(cmds[..k + 1], Some(CommandFailed(cmds[k], cli(cmds[k]).rc)))
  {
    if k > 0 {
      assert cli(cmds[0]).rc == 0 by { assert cmds[..k][0] == cmds[0]; }
      var tail := cmds[1..];
      assert AllSucceed(tail[..k - 1], cli) by {
        forall j | 1 <= j < k ensures tail[..k - 1][j - 1] == cmds[..k][j] {}
      }
      IssueCheckedStopsAt(tail, cli, k - 1);
      assert [cmds[0]] + tail[..k] == cmds[..k + 1];
    }
  }
}
