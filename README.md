# Yandex-Cloud instance modules, modelled in Dafny

Two Ansible modules manage one Yandex-Cloud compute instance by calling the
`yc` command-line tool:

- `plugins/modules/yc.py` is the current module.
- `plugins/modules/my_own_yc_module.py` is an older variant of it.

Each run of either module does the following:

1. It turns its parameters into an ordered `yc_params` map.
2. It serialises that map into the `yc_args` token list.
3. It runs `yc config list`, which must succeed.
4. It probes the instance with `yc compute instance get <name> --format json`.
5. Depending on the requested `state` and what the probe saw, it creates, updates (stop → update → start), deletes, stops, starts or restarts the instance, or it fails with a message.

This project models both pieces of logic.

**The argument-vector builder** (`yc_args.dfy`, module `YcArgs`) is shared by both modules.
- It is an imperative method, `BuildArgs`, proved equal to the specification function `ArgsOf`. Its inner loop, the method `AccumulateGroup`, is proved equal to `Accumulated`: every nested entry rendered and followed by a comma.
- Lemmas about `ArgsOf` state the serialisation rules:
  - a bool gives a bare `--key` whatever its value;
  - `None` gives nothing;
  - a str or int gives `--key str(value)`;
  - a nested dict gives `--key k1=v1,...,kn=vn`.
- The lemmas also give the exact token list for the modules' own parameters (`CreateArgsShape`).
- `PyText` models the Python text operations the builder uses:
  - `str()` of an integer, with its round trip through `int()`;
  - `sep.join`;
  - `s[:-1]`.

**The reconciliation** (`yc.dfy`, module `Yc`, and `my_own_yc.dfy`, module `MyOwnYc`) is a pure function from the inputs to a `Run`.
- The inputs are:
  - the parameters and the requested state;
  - the check-mode flag;
  - the probe result (`Option<Instance>`, holding `status` and `resources`);
  - the reply of the `yc` tool to each command (`cli: Argv -> Reply`).
- A `Run` holds every command issued, in order, and an `Outcome`. The outcome is one of:
  - a normal exit with `changed`, `vm` and `yc_joined`;
  - a `fail_json` failure;
  - an uncaught Python error.
- `YcCli` holds the pieces shared by both modules:
  - the command vectors;
  - the memory/cores/core-fraction drift test;
  - the `check_rc=True` discipline (`IssueChecked`), under which the first non-zero exit code aborts the run.

The older variant is a separate, parallel function, so that its differences stay explicit:
- `state` has no default.
- Its update command has no `--format json`.
- A create leaves `changed` false.
- Every non-failing, non-check-mode path other than a successful create ends reading the unbound local `yc_joined`. Check mode, a missing `boot_disk`, a failing `check_rc=True` command and every `fail_json` guard end the run before that line.

`MyOwnYc.VariantsAgreeOffUpdatePath` and `MyOwnYc.UpdatePathDiverges` relate the two variants.

Modelling decisions:
- **Memory drift.** The source divides the byte count by 2^30 with true division (the module imports `division` from `__future__`). The model compares `memory * 2^30` with the byte count as integers. This is exact while the byte count is below 2^53, where the float quotient is exact. `YcCli.DriftIsExactDivision` proves that the integer test equals the comparison against the exact (real) quotient.
- **`vm` on create** is the create command's standard output. The source stores `json.loads` of that text.
- **An omitted `boot_disk`** leaves the parameter `None`, and both modules then subscript it. The model ends such a run as `Crashed(NoBootDisk)` before any command is issued, right after the check-mode exit.
- **`running` and `rebooted`** match no branch in either module. The documentation says `running` ensures a running instance, but the code issues nothing after the probe. The model follows the code: `Yc.UnhandledStatesDoNothing`.
- **The stop before an update** carries no `--format` option, while the stop of `state=stopped` carries `--format json`. The model keeps both spellings.

## Model

| member | source | states |
|---|---|---|
| YcArgs.BuildArgs | plugins/modules/yc.py:255-269 | The builder loop produces exactly `ArgsOf(params)`: each entry's tokens, concatenated in `yc_params` insertion order. The same loop is at my_own_yc_module.py:156-170. |
| YcArgs.AccumulateGroup | plugins/modules/yc.py:259-263 | The inner loop's `output` is every nested entry rendered as `key=str(value)` and followed by a comma, in insertion order. |
| YcArgs.SingleEntry | plugins/modules/yc.py:256-269 | An entry contributes its own tokens at its own position, whatever comes before or after it. |
| YcArgs.ArgsOfAppend | plugins/modules/yc.py:256-269 | Serialising a concatenation of parameter maps concatenates their serialisations. |
| YcArgs.BoolEmitsBareFlag | plugins/modules/yc.py:265-266 | A bool entry emits exactly the bare `--key`, and the token list is the same whether the bool is true or false. |
| YcArgs.NoneEmitsNothing | plugins/modules/yc.py:256-269 | An entry whose value is `None` matches no `isinstance` branch and emits no token; removing it changes nothing. |
| YcArgs.ScalarEmitsPair | plugins/modules/yc.py:267-269 | A str or int entry emits exactly `--key` followed by `str(value)`. |
| YcArgs.GroupEmitsJoinedToken | plugins/modules/yc.py:257-264 | A nested-dict entry emits `--key` then one token: the comma-join of its `k=str(v)` renderings, with no trailing comma. |
| YcArgs.CreateArgsShape | plugins/modules/yc.py:237-269 | The full `yc_args` for the module parameters: name, then description if set, zone, ssh-key if set, hostname if set, the boot-disk token, memory, cores, core-fraction, and bare `--public-ip` and `--preemptible` even when false. |
| YcArgs.DiskTokenIsGroupToken | plugins/modules/yc.py:243-248 | The boot-disk token is `image-family=…,image-folder-id=…,size=…,type=…` in that order; an unset image value renders as `None`. |
| PyText.TerminatedIsCommaJoin | plugins/modules/yc.py:262-263 | Appending `x + ","` for every item and then taking `[:-1]` gives `",".join(items)`. |
| PyText.DropLastAppend | plugins/modules/yc.py:263 | `[:-1]` removes exactly the last appended character. |
| PyText.IntToStringRoundTrip | plugins/modules/yc.py:269 | `int(str(i)) == i`: the decimal rendering of an integer argument loses nothing. |
| PyText.IntToStringInjective | plugins/modules/yc.py:306-310 | Distinct integers render as distinct `str()` texts. |
| Yc.UpdateArgvDetermines | plugins/modules/yc.py:300-312 | Equal update commands carry the same instance name, memory, cores and core fraction: different requests give different update commands. |
| YcCli.DriftIsExactDivision | plugins/modules/yc.py:293-296 | The integer drift test holds iff memory differs from bytes / 2^30 (exact division), or cores or core fraction differ. |
| YcCli.IssueChecked | plugins/modules/yc.py:298-320 | Commands run with `check_rc=True` are issued in order. The issued list is a prefix of them. There is no failure iff every command succeeds. Otherwise the last issued command is the first one with a non-zero code, and the run fails with that command and code. |
| YcCli.IssueCheckedStopsAt | plugins/modules/yc.py:298-320 | When the k-th command is the first failure, exactly the first k+1 commands are issued and the run fails with the k-th command's code. |
| Yc.Decide | plugins/modules/yc.py:280-359 | The state dispatch. A create is chosen only for `present` with the instance absent. Every mutation list is non-empty. |
| Yc.Perform | plugins/modules/yc.py:280-359 | No-op branches exit unchanged. Refusals fail without issuing anything. A create issues exactly its command; it fails iff that command's code is non-zero, and otherwise exits with `changed` and the create output as `vm`. Mutations issue what `IssueChecked` issues, fail with its failure when there is one, and exit with `changed` when all succeed. |
| Yc.Reconcile | plugins/modules/yc.py:229-278 | Check mode exits unchanged with no command. A missing boot disk crashes before any command. Otherwise `yc config list` comes first, a non-zero code fails the run there, and the `get` probe comes second. A normal exit reports `changed` iff a command was issued after the probe. `vm` is set only after a create. `yc_joined` is never set. |
| Yc.PresentCreatesWhenAbsent | plugins/modules/yc.py:280-291 | `present` against an absent instance issues exactly the create command, `create` + built args + `--format json-rest --format json`. On success it exits with `changed` and the create output as `vm`; otherwise it fails with that command's code. |
| Yc.PresentUpdatesIffDrift | plugins/modules/yc.py:292-325 | `present` against an existing instance issues stop, update, start in that order, with `changed`, iff `update` is set and memory, cores or core fraction differ. Otherwise it issues nothing more and exits unchanged. |
| Yc.UpdateAbortsAtFirstFailure | plugins/modules/yc.py:298-320 | A failing stop, update or start aborts the rest: the run issues the steps up to and including the failing one and fails with its code. |
| Yc.PresentIdempotentWithoutUpdate | plugins/modules/yc.py:292-325 | Without `update`, an existing instance is never touched and the run reports no change. |
| Yc.PresentConverges | plugins/modules/yc.py:293-296 | Once the instance has the requested memory, cores and core fraction, `present` reports no change even with `update` set. |
| Yc.AbsentDeletesIffExists | plugins/modules/yc.py:329-335 | `absent`/`terminated`: an existing instance gets exactly one delete and `changed`. An absent one fails with "No VM exists with name: <name>". |
| Yc.TargetStateGuards | plugins/modules/yc.py:337-359 | `stopped` needs a RUNNING instance and issues one stop. `started` needs STOPPED and issues one start. `restarted` needs RUNNING and issues one restart. Each reports `changed`. Any other observation, absence included, fails with that state's message and issues nothing. |
| Yc.UnhandledStatesDoNothing | plugins/modules/yc.py:280-359 | `running` and `rebooted` issue nothing after the probe and exit unchanged. |
| Yc.MutationsTargetTheInstance | plugins/modules/yc.py:280-359 | Every command after the probe is a create, update, stop, start, restart or delete of the named instance. A create appears only for `present` with the instance absent. |
| MyOwnYc.Decide | plugins/modules/my_own_yc_module.py:188-264 | The older dispatch. An omitted state decides nothing. A create only for `present` with the instance absent. Mutation lists are non-empty. |
| MyOwnYc.Perform | plugins/modules/my_own_yc_module.py:188-287 | A no-op issues nothing and crashes on `yc_joined`. A refusal issues nothing and fails with its message. A create issues exactly its command and fails iff that command's code is non-zero. Mutations issue what `IssueChecked` issues, fail with its failure when there is one, and crash on `yc_joined` iff all succeed. Only a create exits normally. |
| MyOwnYc.Reconcile | plugins/modules/my_own_yc_module.py:130-287 | Check mode exits unchanged. Otherwise the configuration check comes first. A normal exit never reports `changed`, and happens only after exactly one create, for `present` with the instance absent, with `yc_joined` the space-joined create command. |
| MyOwnYc.UpdateGainedFormat | plugins/modules/my_own_yc_module.py:206-217 | The older update command is the newer one without the trailing `--format json`; the stop and start around it are the same. |
| MyOwnYc.StateOmittedCrashes | plugins/modules/my_own_yc_module.py:188-286 | Without `state`, a run issues only the configuration check and the probe, then crashes on the unbound `yc_joined`, whatever the instance's condition. |
| MyOwnYc.CreateLeavesChangedFalse | plugins/modules/my_own_yc_module.py:188-197 | A successful create exits with `vm` and `yc_joined` set to the space-joined create command, but with `changed` false. |
| MyOwnYc.PerformVariants | plugins/modules/my_own_yc_module.py:188-287 | The same decision carried out by both variants issues the same commands and fails the same way. Where the newer variant exits without creating, the older one crashes. Where it creates, the older one reports the same `vm` without `changed`. |
| MyOwnYc.VariantsAgreeOffUpdatePath | plugins/modules/my_own_yc_module.py:234-264 | Off the update path, both modules issue the same commands, fail with the same messages and codes, and differ only in how they exit. |
| MyOwnYc.UpdatePathDiverges | plugins/modules/my_own_yc_module.py:199-227 | On the update path both modules issue stop, update, start. When all succeed, the older one crashes on `yc_joined`, where the newer one exits with `changed`. |

## Findings

| source | as written | input that shows it | evidently intended | confidence | as-written member | corrected member |
|---|---|---|---|---|---|---|
| plugins/modules/my_own_yc_module.py:286 | `result['yc_joined'] = yc_joined` runs on every non-failing, non-check-mode path, but only the create branch binds `yc_joined` | `state=absent` with the instance present and a successful delete: the run raises UnboundLocalError instead of exiting with `changed` | exit normally with `changed=True`, as the newer module does | high (not executed) | MyOwnYc.PerformVariants | Yc.AbsentDeletesIffExists |
| plugins/modules/my_own_yc_module.py:194-197 | the create branch never sets `result['changed']`, which stays False from its seed | `state=present` with the instance absent and a successful create: the run exits with `changed=False` | report `changed=True` after a create, as the newer module does | high (not executed) | MyOwnYc.CreateLeavesChangedFalse | Yc.PresentCreatesWhenAbsent |

## Left out

- `AnsibleModule` argument parsing, type coercion of the string defaults, `choices` validation, and the `exit_json`/`fail_json` mechanics are not modelled. Parameters arrive already typed, and a run ends in an `Outcome` value.
- `module.run_command` is not modelled as process execution. Each command's exit code and standard output come from the `cli` parameter, and the probe result is the `probe` parameter. Standard error is not modelled.
- `json.loads` is not modelled. The model does not capture a malformed `get` or `create` output, or a probe output without `status` or `resources`, raising an error.
- The `int()` conversions of the probed resources cannot raise here: the probed values arrive as integers.
- Keys of `result` that only echo command replies are not modelled: `yc_check_installed_rc`, `yc_update`, `yc_delete`, `yc_stop`, `yc_start`, `yc_restart`, `params`, and in the older variant `yc_check_installed`, `yc_compute_instance_get`, `create` and `message`. Only `changed`, `vm` and `yc_joined` are kept.
- YcCli.Drift: the float quotient is replaced by the integer test. This agrees with Python only for byte counts below 2^53.
- MyOwnYc.Perform: on every mutating path (update, delete, stop, start, restart) the older module sets `changed=True` before it crashes on `yc_joined`; the `Crashed` outcome does not record that value.
- Dict order: the model takes `yc_params` and the boot-disk dict in insertion order, as Python 3.7 and later guarantee. Under Python 2 or before 3.7, `items()` iterates in hash order, so the order of the `yc_args` entries and of the boot-disk `k=v` pieces is not modelled for those versions.
- Concurrent runs against the same instance name are not modelled.
- plugins/modules/my_own_module.py is not part of this model. It writes a file and holds no instance logic.
- The DOCUMENTATION, EXAMPLES and RETURN blocks are not modelled.
