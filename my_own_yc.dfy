/** The reconciliation of `plugins/modules/my_own_yc_module.py`, the older
    variant of the module. It builds the same create command and probes the
    same way, but `state` has no default, the update command carries no
    `--format json`, a create leaves `changed` false, and every path that
    reaches the final `result['yc_joined'] = yc_joined` without having
    created an instance reads that variable before assignment. */
module MyOwnYc {
  import opened Wrappers
  import opened PyText
  import opened YcArgs
  import opened YcCli
  import Yc

  /** The update command of this variant: no `--format` option. */
  function UpdateArgv(p: ModuleParams): Argv
  {
    ["yc", "compute", "instance", "update", p.name,
     "--memory", IntToString(p.memory),
     "--cores", IntToString(p.cores),
     "--core-fraction", IntToString(p.coreFraction)]
  }

  /** The stop → update → start sequence of the update path. */
  function UpdateSequence(p: ModuleParams): seq<Argv>
  {
    [StopForUpdateArgv(p.name), UpdateArgv(p), VerbArgv("start", p.name)]
  }

  /** The state branches. An omitted `state` (`None`) matches none of them. */
  function Decide(p: ModuleParams, disk: BootDisk, state: Option<Yc.State>, probe: Option<Instance>): (a: Action)
    ensures a.Mutate? ==> |a.cmds| > 0
    ensures a.Create? ==> state == Some(Yc.Present) && probe.None?
    ensures state.None? ==> a == Keep
  {
    match state
    case None => Keep
    case Some(s) =>
      match s
      case Present =>
        if probe.None? then Create(CreateArgv(p, disk))
        else if p.update && Drift(p, probe.value) then Mutate(UpdateSequence(p))
        else Keep
      case Absent | Terminated =>
        if probe.Some? then Mutate([VerbArgv("delete", p.name)])
        else Refuse("No VM exists with name: " + p.name)
      case Stopped =>
        if probe.Some? && probe.value.status == "RUNNING" then Mutate([VerbArgv("stop", p.name)])
        else Refuse("No VM exists with name: " + p.name)
      case Started =>
        if probe.Some? && probe.value.status == "STOPPED" then Mutate([VerbArgv("start", p.name)])
        else Refuse("No VM exists with state STOPPED and name: " + p.name)
      case Restarted =>
        if probe.Some? && probe.value.status == "RUNNING" then Mutate([VerbArgv("restart", p.name)])
        else Refuse("No VM exists in state RUNNING with name: " + p.name)
      case Running | Rebooted => Keep
  }

  /** Carrying out a decision in this variant: only a successful create binds
      `yc_joined` (the create command joined with spaces) and exits, with
      `changed` still false; every other non-failing path crashes on it. */
  function Perform(a: Action, cli: Argv -> Reply): (r: Run)
    ensures a.Keep? ==> r == Run([], Crashed(YcJoinedUnbound))
    ensures a.Refuse? ==> r == Run([], Failed(NoVm(a.msg)))
    ensures a.Mutate? ==> r.issued == IssueChecked(a.cmds, cli).issued
    ensures a.Mutate? && IssueChecked(a.cmds, cli).failure.Some? ==>
              r.outcome == Failed(IssueChecked(a.cmds, cli).failure.value)
    ensures a.Create? ==> r.issued == [a.argv] && (r.outcome.Failed? <==> cli(a.argv).rc != 0)
    ensures a.Create? ==>
              r.outcome == if cli(a.argv).rc == 0 then Exited(false, Some(cli(a.argv).stdout), Some(JoinWith(" ", a.argv)))
                           else Failed(CommandFailed(a.argv, cli(a.argv).rc))
    ensures r.outcome.Exited? ==> a.Create? && r.issued == [a.argv]
    ensures (r.outcome.Crashed? && a.Mutate?) <==> (a.Mutate? && AllSucceed(a.cmds, cli))
  {
    match a
    case Keep => Run([], Crashed(YcJoinedUnbound))
    case Refuse(msg) => Run([], Failed(NoVm(msg)))
    case Create(argv) =>
      var reply := cli(argv);
      if reply.rc != 0 then Run([argv], Failed(CommandFailed(argv, reply.rc)))
      else Run([argv], Exited(false, Some(reply.stdout), Some(JoinWith(" ", argv))))
    case Mutate(cmds) =>
      var done := IssueChecked(cmds, cli);
      match done.failure
      case Some(f) => Run(done.issued, Failed(f))
      case None => Run(done.issued, Crashed(YcJoinedUnbound))
  }

  /** One run of the older module; the parameters are as for the newer one. */
  function Reconcile(p: ModuleParams, state: Option<Yc.State>, checkMode: bool, probe: Option<Instance>,
                     cli: Argv -> Reply): (run: Run)
    ensures checkMode ==> run == Run([], Exited(false, None, None))
    ensures !checkMode && p.bootDisk.None? ==> run == Run([], Crashed(NoBootDisk))
    ensures !checkMode && p.bootDisk.Some? ==> |run.issued| >= 1 && run.issued[0] == ConfigList
    ensures run.outcome.Exited? ==> !run.outcome.changed
    ensures run.outcome.Exited? && !checkMode ==>
              && state == Some(Yc.Present) && probe.None? && p.bootDisk.Some?
              && |run.issued| == 3 && run.issued[2] == CreateArgv(p, p.bootDisk.value)
              && run.outcome.ycJoined == Some(JoinWith(" ", run.issued[2]))
  {
    if checkMode then Run([], Exited(false, None, None))
    else
      match p.bootDisk
      case None => Run([], Crashed(NoBootDisk))
      case Some(disk) =>
        var rc := cli(ConfigList).rc;
        if rc != 0 then Run([ConfigList], Failed(CommandFailed(ConfigList, rc)))
        else
          var rest := Perform(Decide(p, disk, state, probe), cli);
          Run([ConfigList, GetArgv(p.name)] + rest.issued, rest.outcome)
  }

  /** The newer module's update command is this one with `--format json` appended. */
  lemma UpdateGainedFormat(p: ModuleParams)
    ensures Yc.UpdateArgv(p) == UpdateArgv(p) + ["--format", "json"]
    ensures Yc.UpdateSequence(p)[0] == UpdateSequence(p)[0] && Yc.UpdateSequence(p)[2] == UpdateSequence(p)[2]
  {
  }

  /** Without `state`, a run issues the configuration check and the probe and
      then crashes on `yc_joined`, whatever the instance's condition. */
  lemma StateOmittedCrashes(p: ModuleParams, probe: Option<Instance>, cli: Argv -> Reply)
    requires p.bootDisk.Some? && cli(ConfigList).rc == 0
    ensures Reconcile(p, None, false, probe, cli) == Run([ConfigList, GetArgv(p.name)], Crashed(YcJoinedUnbound))
  {
  }

  /** A successful create exits with the create output as `vm` and the joined
      command as `yc_joined`, but with `changed` false. */
  lemma CreateLeavesChangedFalse(p: ModuleParams, disk: BootDisk, cli: Argv -> Reply)
    requires p.bootDisk == Some(disk) && cli(ConfigList).rc == 0
    requires cli(CreateArgv(p, disk)).rc == 0
    ensures var create := CreateArgv(p, disk);
            (Reconcile(p, Some(Yc.Present), false, None, cli)
             == Run([ConfigList, GetArgv(p.name), create],
                    Exited(false, Some(cli(create).stdout), Some(JoinWith(" ", create)))))
  {
  }

  /** Off the update path the two variants issue the same commands and fail
      the same way; where the newer one exits without creating, the older one
      crashes, and where the newer one creates, the older one reports the
      same `vm` without `changed`. */
  lemma VariantsAgreeOffUpdatePath(p: ModuleParams, state: Yc.State, probe: Option<Instance>, cli: Argv -> Reply)
    requires p.bootDisk.Some?
    requires !(state == Yc.Present && probe.Some? && p.update && Drift(p, probe.value))
    ensures var older := Reconcile(p, Some(state), false, probe, cli);
            var newer := Yc.Reconcile(p, state, false, probe, cli);
            && older.issued == newer.issued
            && (older.outcome.Failed? <==> newer.outcome.Failed?)
            && (newer.outcome.Failed? ==> older.outcome == newer.outcome)
            && (newer.outcome.Exited? && newer.outcome.vm.None? ==> older.outcome == Crashed(YcJoinedUnbound))
            && (newer.outcome.Exited? && newer.outcome.vm.Some? ==>
                  older.outcome.Exited? && older.outcome.vm == newer.outcome.vm && !older.outcome.changed)
  {
    var disk := p.bootDisk.value;
    if cli(ConfigList).rc == 0 {
      var a := Decide(p, disk, Some(state), probe);
      assert a == Yc.Decide(p, disk, state, probe);
      PerformVariants(a, cli);
    }
  }

  /** The same decision carried out by both variants: the same commands, the
      same failures, and the older variant's exits only after a create. */
  lemma PerformVariants(a: Action, cli: Argv -> Reply)
    ensures var older, newer := Perform(a, cli), Yc.Perform(a, cli);
            && older.issued == newer.issued
            && (older.outcome.Failed? <==> newer.outcome.Failed?)
            && (newer.outcome.Failed? ==> older.outcome == newer.outcome)
            && (newer.outcome.Exited? && newer.outcome.vm.None? ==> older.outcome == Crashed(YcJoinedUnbound))
            && (newer.outcome.Exited? && newer.outcome.vm.Some? ==>
                  older.outcome.Exited? && older.outcome.vm == newer.outcome.vm && !older.outcome.changed)
  {
  }

  /** On the update path both variants stop, update and start; the older one
      sends its own update command and, when all three succeed, crashes on
      `yc_joined` where the newer one reports `changed`. */
  lemma UpdatePathDiverges(p: ModuleParams, disk: BootDisk, inst: Instance, cli: Argv -> Reply)
    requires p.bootDisk == Some(disk) && cli(ConfigList).rc == 0
    requires p.update && Drift(p, inst)
    requires AllSucceed(UpdateSequence(p), cli) && AllSucceed(Yc.UpdateSequence(p), cli)
    ensures Reconcile(p, Some(Yc.Present), false, Some(inst), cli)
         == Run([ConfigList, GetArgv(p.name)] + UpdateSequence(p), Crashed(YcJoinedUnbound))
    ensures Yc.Reconcile(p, Yc.Present, false, Some(inst), cli)
         == Run([ConfigList, GetArgv(p.name)] + Yc.UpdateSequence(p), Exited(true, None, None))
  {
  }
}
