/** The reconciliation of `plugins/modules/yc.py`: check mode, the
    configuration check, the existence probe, and the state branches that
    create, update, delete, stop, start or restart one named instance. */
module Yc {
  import opened Wrappers
  import opened PyText
  import opened YcArgs
  import opened YcCli

  /** The `state` choices; the module defaults it to `present`. */
  datatype State = Present | Terminated | Running | Started | Stopped | Restarted | Rebooted | Absent

  /** The update command: `--memory/--cores/--core-fraction` and `--format json`. */
  function UpdateArgv(p: ModuleParams): Argv
  {
    ["yc", "compute", "instance", "update", p.name,
     "--memory", IntToString(p.memory),
     "--cores", IntToString(p.cores),
     "--core-fraction", IntToString(p.coreFraction),
     "--format", "json"]
  }

  /** The stop → update → start sequence of the update path. */
  function UpdateSequence(p: ModuleParams): seq<Argv>
  {
    [StopForUpdateArgv(p.name), UpdateArgv(p), VerbArgv("start", p.name)]
  }

  /** The update command determines the instance name and the requested
      memory, cores and core fraction: different requests give different commands. */
  lemma UpdateArgvDetermines(p: ModuleParams, q: ModuleParams)
    requires UpdateArgv(p) == UpdateArgv(q)
    ensures p.name == q.name && p.memory == q.memory && p.cores == q.cores && p.coreFraction == q.coreFraction
  {
    assert UpdateArgv(p)[4] == UpdateArgv(q)[4];
    assert UpdateArgv(p)[6] == UpdateArgv(q)[6];
    IntToStringInjective(p.memory, q.memory);
    assert UpdateArgv(p)[8] == UpdateArgv(q)[8];
    IntToStringInjective(p.cores, q.cores);
    assert UpdateArgv(p)[10] == UpdateArgv(q)[10];
    IntToStringInjective(p.coreFraction, q.coreFraction);
  }

  /** The state branches: what happens for the requested state and the probe result. */
  function Decide(p: ModuleParams, disk: BootDisk, state: State, probe: Option<Instance>): (a: Action)
    ensures a.Mutate? ==> |a.cmds| > 0
    ensures a.Create? ==> state == Present && probe.None?
  {
    match state
    case Present =>
      if probe.None? then Create(CreateArgv(p, disk))
      else if p.update && Drift(p, probe.value) then Mutate(UpdateSequence(p))
      else Keep
    case Absent | Terminated =>
      if probe.Some? then Mutate([VerbArgv("delete", p.name)])
      else Refuse("No VM exists with name: " + p.name)
    case Stopped =>
      if probe.Some? && probe.value.status == "RUNNING" then Mutate([VerbArgv("stop", p.name)])
      else Refuse("No VM exists with name: " + p.name)
    case Started =>
      if probe.Some? && probe.value.status == "STOPPED" then Mutate([VerbArgv("start", p.name)])
      else Refuse("No VM exists with state STOPPED and name: " + p.name)
    case Restarted =>
      if probe.Some? && probe.value.status == "RUNNING" then Mutate([VerbArgv("restart", p.name)])
      else Refuse("No VM exists in state RUNNING with name: " + p.name)
    case Running | Rebooted => Keep
  }

  /** Carrying out a decision: the commands issued after the probe and the outcome.
      A successful create sets `changed` and `vm` (the create output); a
      completed mutation sets `changed`; a failing command aborts. */
  function Perform(a: Action, cli: Argv -> Reply): (r: Run)
    ensures a.Keep? ==> r == Run([], Exited(false, None, None))
    ensures a.Refuse? ==> r == Run([], Failed(NoVm(a.msg)))
    ensures a.Mutate? ==> r.issued == IssueChecked(a.cmds, cli).issued
    ensures a.Mutate? && AllSucceed(a.cmds, cli) ==> r == Run(a.cmds, Exited(true, None, None))
    ensures a.Mutate? && IssueChecked(a.cmds, cli).failure.Some? ==>
              r.outcome == Failed(IssueChecked(a.cmds, cli).failure.value)
    ensures a.Create? ==> r.issued == [a.argv] && (r.outcome.Failed? <==> cli(a.argv).rc != 0)
    ensures a.Create? ==> r.outcome == if cli(a.argv).rc == 0 then Exited(true, Some(cli(a.argv).stdout), None)
                                       else Failed(CommandFailed(a.argv, cli(a.argv).rc))
    ensures r.outcome.Exited? ==> (r.outcome.changed <==> a.Create? || a.Mutate?)
  {
    match a
    case Keep => Run([], Exited(false, None, None))
    case Refuse(msg) => Run([], Failed(NoVm(msg)))
    case Create(argv) =>
      var reply := cli(argv);
      if reply.rc != 0 then Run([argv], Failed(CommandFailed(argv, reply.rc)))
      else Run([argv], Exited(true, Some(reply.stdout), None))
    case Mutate(cmds) =>
      var done := IssueChecked(cmds, cli);
      match done.failure
      case Some(f) => Run(done.issued, Failed(f))
      case None => Run(done.issued, Exited(true, None, None))
  }

  /** One run of the module. `probe` is the parsed `get` output when that
      command exits with 0 and `None` otherwise; `cli` gives the reply of
      every command issued with `check_rc=True`. */
  function Reconcile(p: ModuleParams, state: State, checkMode: bool, probe: Option<Instance>,
                     cli: Argv -> Reply): (run: Run)
    ensures checkMode ==> run == Run([], Exited(false, None, None))
    ensures !checkMode && p.bootDisk.None? ==> run == Run([], Crashed(NoBootDisk))
    ensures !checkMode && p.bootDisk.Some? ==>
              && |run.issued| >= 1 && run.issued[0] == ConfigList
              && ((cli(ConfigList).rc != 0)
                  <==> (run == Run([ConfigList], Failed(CommandFailed(ConfigList, cli(ConfigList).rc)))))
              && (cli(ConfigList).rc == 0 ==> |run.issued| >= 2 && run.issued[1] == GetArgv(p.name))
    ensures run.outcome.Exited? && !checkMode ==> (run.outcome.changed <==> |run.issued| > 2)
    ensures run.outcome.Exited? ==> run.outcome.ycJoined.None?
    ensures run.outcome.Exited? && run.outcome.vm.Some? ==>
              |run.issued| == 3 && state == Present && probe.None?
    ensures |run.issued| <= 5
  {
    if checkMode then Run([], Exited(false, None, None))
    else
      match p.bootDisk
      case None => Run([], Crashed(NoBootDisk))
      case Some(disk) =>
        var rc := cli(ConfigList).rc;
        if rc != 0 then Run([ConfigList], Failed(CommandFailed(ConfigList, rc)))
        else
          var rest := Perform(Decide(p, disk, state, probe), cli);
          Run([ConfigList, GetArgv(p.name)] + rest.issued, rest.outcome)
  }

  /** The mutating commands of a run: those after the configuration check and the probe. */
  function Mutations(run: Run): seq<Argv>
  {
    if |run.issued| <= 2 then [] else run.issued[2..]
  }

  /** `state=present` against an absent instance issues exactly one create
      command; on success it reports `changed` and the create output as `vm`. */
  lemma PresentCreatesWhenAbsent(p: ModuleParams, disk: BootDisk, cli: Argv -> Reply)
    requires p.bootDisk == Some(disk) && cli(ConfigList).rc == 0
    ensures var run := Reconcile(p, Present, false, None, cli);
            var create := CreateArgv(p, disk);
            && run.issued == [ConfigList, GetArgv(p.name), create]
            && run.outcome == if cli(create).rc == 0 then Exited(true, Some(cli(create).stdout), None)
                              else Failed(CommandFailed(create, cli(create).rc))
  {
  }

  /** `state=present` against an existing instance issues stop, update, start
      (in that order, with `changed`) exactly when updates are allowed and
      memory, cores or core fraction differ; otherwise nothing, unchanged. */
  lemma PresentUpdatesIffDrift(p: ModuleParams, disk: BootDisk, inst: Instance, cli: Argv -> Reply)
    requires p.bootDisk == Some(disk) && cli(ConfigList).rc == 0
    requires AllSucceed(UpdateSequence(p), cli)
    ensures var run := Reconcile(p, Present, false, Some(inst), cli);
            if p.update && Drift(p, inst)
            then run == Run([ConfigList, GetArgv(p.name)] + UpdateSequence(p), Exited(true, None, None))
            else run == Run([ConfigList, GetArgv(p.name)], Exited(false, None, None))
  {
  }

  /** A failing step of stop → update → start aborts the rest: the run issues
      the steps up to the failing one and fails with that command's exit code. */
  lemma UpdateAbortsAtFirstFailure(p: ModuleParams, disk: BootDisk, inst: Instance, cli: Argv -> Reply, k: nat)
    requires p.bootDisk == Some(disk) && cli(ConfigList).rc == 0
    requires p.update && Drift(p, inst)
    requires k < 3 && AllSucceed(UpdateSequence(p)[..k], cli) && cli(UpdateSequence(p)[k]).rc != 0
    ensures var run := Reconcile(p, Present, false, Some(inst), cli);
            var failing := UpdateSequence(p)[k];
            && run.issued == [ConfigList, GetArgv(p.name)] + UpdateSequence(p)[..k + 1]
            && run.outcome == Failed(CommandFailed(failing, cli(failing).rc))
  {
    IssueCheckedStopsAt(UpdateSequence(p), cli, k);
  }

  /** With updates not allowed, an existing instance is never touched: a
      second run after a create reports no change. */
  lemma PresentIdempotentWithoutUpdate(p: ModuleParams, disk: BootDisk, inst: Instance, cli: Argv -> Reply)
    requires p.bootDisk == Some(disk) && cli(ConfigList).rc == 0 && !p.update
    ensures Reconcile(p, Present, false, Some(inst), cli)
         == Run([ConfigList, GetArgv(p.name)], Exited(false, None, None))
  {
  }

  /** Once the instance has the requested resources, `state=present` reports
      no change even with updates allowed: the update path converges. */
  lemma PresentConverges(p: ModuleParams, disk: BootDisk, status: string, cli: Argv -> Reply)
    requires p.bootDisk == Some(disk) && cli(ConfigList).rc == 0
    ensures var inst := Instance(status, p.memory * BytesPerGiB, p.cores, p.coreFraction);
            (Reconcile(p, Present, false, Some(inst), cli)
             == Run([ConfigList, GetArgv(p.name)], Exited(false, None, None)))
  {
  }

  /** `state=absent` or `terminated`: an existing instance gets exactly one
      delete and `changed`; an absent one fails with "No VM exists with name". */
  lemma AbsentDeletesIffExists(p: ModuleParams, disk: BootDisk, state: State, probe: Option<Instance>,
                               cli: Argv -> Reply)
    requires p.bootDisk == Some(disk) && cli(ConfigList).rc == 0
    requires state == Absent || state == Terminated
    ensures var run := Reconcile(p, state, false, probe, cli);
            var delete := VerbArgv("delete", p.name);
            if probe.Some? then
              && run.issued == [ConfigList, GetArgv(p.name), delete]
              && run.outcome == if cli(delete).rc == 0 then Exited(true, None, None)
                                else Failed(CommandFailed(delete, cli(delete).rc))
            else run == Run([ConfigList, GetArgv(p.name)], Failed(NoVm("No VM exists with name: " + p.name)))
  {
  }

  /** The status a target state requires of an existing instance, the command
      that moves it there, and the message when the requirement fails. */
  function Guard(state: State): (g: (string, string, string))
    requires state == Stopped || state == Started || state == Restarted
  {
    match state
    case Stopped => ("RUNNING", "stop", "No VM exists with name: ")
    case Started => ("STOPPED", "start", "No VM exists with state STOPPED and name: ")
    case Restarted => ("RUNNING", "restart", "No VM exists in state RUNNING with name: ")
  }

  /** `stopped` needs a RUNNING instance, `started` a STOPPED one, `restarted`
      a RUNNING one; each then issues its one command with `changed`, and any
      other observation (including absence) fails without issuing anything. */
  lemma TargetStateGuards(p: ModuleParams, disk: BootDisk, state: State, probe: Option<Instance>,
                          cli: Argv -> Reply)
    requires p.bootDisk == Some(disk) && cli(ConfigList).rc == 0
    requires state == Stopped || state == Started || state == Restarted
    ensures var (status, verb, msg) := Guard(state);
            var run := Reconcile(p, state, false, probe, cli);
            var cmd := VerbArgv(verb, p.name);
            if probe.Some? && probe.value.status == status then
              && run.issued == [ConfigList, GetArgv(p.name), cmd]
              && run.outcome == if cli(cmd).rc == 0 then Exited(true, None, None)
                                else Failed(CommandFailed(cmd, cli(cmd).rc))
            else run == Run([ConfigList, GetArgv(p.name)], Failed(NoVm(msg + p.name)))
  {
  }

  /** `running` and `rebooted` match no branch: nothing is issued after the probe and nothing changes. */
  lemma UnhandledStatesDoNothing(p: ModuleParams, disk: BootDisk, state: State, probe: Option<Instance>,
                                 cli: Argv -> Reply)
    requires p.bootDisk == Some(disk) && cli(ConfigList).rc == 0
    requires state == Running || state == Rebooted
    ensures Reconcile(p, state, false, probe, cli)
         == Run([ConfigList, GetArgv(p.name)], Exited(false, None, None))
  {
  }

  /** The commands the state branches may issue against the named instance. */
  predicate Targets(p: ModuleParams, disk: BootDisk, cmd: Argv)
  {
    || cmd == CreateArgv(p, disk)
    || cmd == UpdateArgv(p)
    || cmd == StopForUpdateArgv(p.name)
    || (exists verb :: verb in ["delete", "stop", "start", "restart"] && cmd == VerbArgv(verb, p.name))
  }

  /** Every command after the probe is one of the operations on the named
      instance, and a create is issued only for `present` with the instance absent. */
  lemma MutationsTargetTheInstance(p: ModuleParams, disk: BootDisk, state: State, probe: Option<Instance>,
                                   cli: Argv -> Reply)
    requires p.bootDisk == Some(disk)
    ensures var ms := Mutations(Reconcile(p, state, false, probe, cli));
            forall k :: 0 <= k < |ms| ==> Targets(p, disk, ms[k])
    ensures var ms := Mutations(Reconcile(p, state, false, probe, cli));
            CreateArgv(p, disk) in ms ==> state == Present && probe.None?
  {
    var a := Decide(p, disk, state, probe);
    var ms := Mutations(Reconcile(p, state, false, probe, cli));
    MutationsOf(p, disk, state, probe, cli);
    if ms != [] {
      assert ms == Perform(a, cli).issued;
      match a
      case Create(argv) =>
        assert ms == [argv];
      case Mutate(cmds) =>
        DecideTargets(p, disk, state, probe);
        assert ms == cmds[..|ms|];
        forall k | 0 <= k < |ms| ensures Targets(p, disk, ms[k]) && ms[k] != CreateArgv(p, disk) {
          assert ms[k] == cmds[k];
        }
    }
  }

  /** The commands after the probe are those the decision issues, when the configuration check passes. */
  lemma MutationsOf(p: ModuleParams, disk: BootDisk, state: State, probe: Option<Instance>, cli: Argv -> Reply)
    requires p.bootDisk == Some(disk)
    ensures Mutations(Reconcile(p, state, false, probe, cli))
         == if cli(ConfigList).rc == 0 then Perform(Decide(p, disk, state, probe), cli).issued else []
  {
    var run := Reconcile(p, state, false, probe, cli);
    if cli(ConfigList).rc == 0 {
      var rest := Perform(Decide(p, disk, state, probe), cli);
      assert run.issued == [ConfigList, GetArgv(p.name)] + rest.issued;
      assert run.issued[2..] == rest.issued;
    }
  }

  /** The mutations a decision lists all target the named instance. */
  lemma DecideTargets(p: ModuleParams, disk: BootDisk, state: State, probe: Option<Instance>)
    requires Decide(p, disk, state, probe).Mutate?
    ensures var cmds := Decide(p, disk, state, probe).cmds;
            forall k :: 0 <= k < |cmds| ==> Targets(p, disk, cmds[k]) && cmds[k] != CreateArgv(p, disk)
  {
    CreateIsNoOtherCommand(p, disk);
    var cmds := Decide(p, disk, state, probe).cmds;
    forall k | 0 <= k < |cmds| ensures Targets(p, disk, cmds[k]) {
      if cmds[k] == UpdateArgv(p) || cmds[k] == StopForUpdateArgv(p.name) {
      } else {
        assert cmds[k] == VerbArgv(cmds[k][3], p.name);
      }
    }
  }

  /** The create command differs from every other command: its fourth word is `create`. */
  lemma CreateIsNoOtherCommand(p: ModuleParams, disk: BootDisk)
    ensures CreateArgv(p, disk)[3] == "create"
    ensures forall verb :: verb != "create" ==> CreateArgv(p, disk) != VerbArgv(verb, p.name)
    ensures CreateArgv(p, disk) != UpdateArgv(p) && CreateArgv(p, disk) != StopForUpdateArgv(p.name)
  {
    var c := CreateArgv(p, disk);
    assert c[3] == "create";
    assert UpdateArgv(p)[3] == "update";
    assert StopForUpdateArgv(p.name)[3] == "stop";
  }
}
