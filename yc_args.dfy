/** The `yc_params` → `yc_args` builder shared, line for line, by both
    Yandex-Cloud modules: an ordered parameter map becomes a flat list of
    `yc` command-line tokens, serialised according to each value's kind. */
module YcArgs {
  import opened Wrappers
  import opened PyText

  /** A plain Python value as it can sit in `yc_params`. */
  datatype Scalar = NoneVal | BoolVal(b: bool) | StrVal(s: string) | IntVal(i: int)

  /** A top-level `yc_params` value: a plain value, or a nested dict of plain values. */
  datatype Value = Plain(v: Scalar) | Group(items: seq<SubParam>)

  /** One entry of a nested dict, in insertion order. */
  datatype SubParam = SubParam(key: string, value: Scalar)

  /** One entry of `yc_params`, in insertion order. */
  datatype Param = Param(key: string, value: Value)

  /** `str(v)` for a plain Python value. */
  function PyStr(v: Scalar): string
  {
    match v
    case NoneVal => "None"
    case BoolVal(b) => if b then "True" else "False"
    case StrVal(s) => s
    case IntVal(i) => IntToString(i)
  }

  /** `key2 + "=" + str(value2)`: the rendering of one nested entry. */
  function Rendered(item: SubParam): string
  {
    item.key + "=" + PyStr(item.value)
  }

  /** The rendered nested entries, in order. */
  function RenderedAll(items: seq<SubParam>): seq<string>
  {
    seq(|items|, k requires 0 <= k < |items| => Rendered(items[k]))
  }

  /** The `output` string after the inner loop: every entry rendered and followed by a comma. */
  function Accumulated(items: seq<SubParam>): string
  {
    Terminated(RenderedAll(items))
  }

  /** `output[:-1]`: the accumulated string without its trailing comma. */
  function GroupToken(items: seq<SubParam>): string
  {
    DropLast(Accumulated(items))
  }

  /** The tokens one `yc_params` entry contributes, by the kind of its value. */
  function TokensOf(param: Param): seq<string>
  {
    match param.value
    case Group(items) => ["--" + param.key, GroupToken(items)]
    case Plain(BoolVal(_)) => ["--" + param.key]
    case Plain(StrVal(s)) => ["--" + param.key, s]
    case Plain(IntVal(i)) => ["--" + param.key, IntToString(i)]
    case Plain(NoneVal) => []
  }

  /** Each entry's tokens, in `yc_params` order. */
  function TokenLists(params: seq<Param>): seq<seq<string>>
  {
    seq(|params|, k requires 0 <= k < |params| => TokensOf(params[k]))
  }

  /** The whole `yc_args` list: the entries' tokens, concatenated in `yc_params` order. */
  function ArgsOf(params: seq<Param>): seq<string>
  {
    Concat(TokenLists(params))
  }

  /** The builder loop: appends to `yc_args` entry by entry; for the nested
      dict it accumulates the `output` string and trims its last character. */
  method BuildArgs(params: seq<Param>) returns (args: seq<string>)
    ensures args == ArgsOf(params)
  {
    args := [];
    var n := 0;
    while n < |params|
      invariant 0 <= n <= |params|
      invariant args == ArgsOf(params[..n])
    {
      var key, value := params[n].key, params[n].value;
      ArgsOfPrefix(params, n);
      match value {
        case Group(items) =>
          args := args + ["--" + key];
          var output := AccumulateGroup(items);
          output := DropLast(output);
          args := args + [output];
          assert TokensOf(params[n]) == ["--" + key, output];
        case Plain(BoolVal(_)) =>
          args := args + ["--" + key];
          assert TokensOf(params[n]) == ["--" + key];
        case Plain(StrVal(s)) =>
          args := args + ["--" + key];
          args := args + [s];
          assert TokensOf(params[n]) == ["--" + key, s];
        case Plain(IntVal(i)) =>
          args := args + ["--" + key];
          args := args + [IntToString(i)];
          assert TokensOf(params[n]) == ["--" + key, IntToString(i)];
        case Plain(NoneVal) =>
          assert TokensOf(params[n]) == [];
      }
      n := n + 1;
    }
    assert params[..n] == params;
  }

  /** The inner loop over a nested dict: `output += key2 + "=" + str(value2) + ","`. */
  method AccumulateGroup(items: seq<SubParam>) returns (output: string)
    ensures output == Accumulated(items)
  {
    output := "";
    var m := 0;
    while m < |items|
      invariant 0 <= m <= |items|
      invariant output == Accumulated(items[..m])
    {
      AccumulatedPrefix(items, m);
      output := output + items[m].key + "=" + PyStr(items[m].value) + ",";
      m := m + 1;
    }
    assert items[..m] == items;
  }

  /** One more entry of `yc_params` appends its tokens to `yc_args`. */
  lemma ArgsOfPrefix(params: seq<Param>, n: nat)
    requires n < |params|
    ensures ArgsOf(params[..n + 1]) == ArgsOf(params[..n]) + TokensOf(params[n])
  {
    assert TokenLists(params[..n + 1]) == TokenLists(params[..n]) + [TokensOf(params[n])];
    ConcatAppend(TokenLists(params[..n]), [TokensOf(params[n])]);
    assert Concat([TokensOf(params[n])]) == TokensOf(params[n]);
  }

  /** One more nested entry appends its rendering and a comma to `output`. */
  lemma AccumulatedPrefix(items: seq<SubParam>, m: nat)
    requires m < |items|
    ensures Accumulated(items[..m + 1]) == Accumulated(items[..m]) + Rendered(items[m]) + ","
  {
    var rs := RenderedAll(items[..m + 1]);
    assert rs[..|rs| - 1] == RenderedAll(items[..m]);
  }

  /** One entry between others contributes its own tokens at its own place. */
  lemma SingleEntry(before: seq<Param>, param: Param, after: seq<Param>)
    ensures ArgsOf(before + [param] + after) == ArgsOf(before) + TokensOf(param) + ArgsOf(after)
  {
    assert TokenLists(before + [param] + after)
        == TokenLists(before) + [TokensOf(param)] + TokenLists(after);
    ConcatAppend(TokenLists(before) + [TokensOf(param)], TokenLists(after));
    ConcatAppend(TokenLists(before), [TokensOf(param)]);
    assert Concat([TokensOf(param)]) == TokensOf(param);
  }

  /** Serialising a concatenation serialises each part: entries never interact. */
  lemma ArgsOfAppend(a: seq<Param>, b: seq<Param>)
    ensures ArgsOf(a + b) == ArgsOf(a) + ArgsOf(b)
  {
    assert TokenLists(a + b) == TokenLists(a) + TokenLists(b);
    ConcatAppend(TokenLists(a), TokenLists(b));
  }

  /** A bool-valued entry emits exactly the bare flag `--key`, and the same
      flag whether it is true or false. */
  lemma BoolEmitsBareFlag(before: seq<Param>, key: string, b: bool, after: seq<Param>)
    ensures ArgsOf(before + [Param(key, Plain(BoolVal(b)))] + after)
         == ArgsOf(before) + ["--" + key] + ArgsOf(after)
    ensures ArgsOf(before + [Param(key, Plain(BoolVal(b)))] + after)
         == ArgsOf(before + [Param(key, Plain(BoolVal(!b)))] + after)
  {
    SingleEntry(before, Param(key, Plain(BoolVal(b))), after);
    SingleEntry(before, Param(key, Plain(BoolVal(!b))), after);
  }

  /** An entry whose value is `None` emits nothing at all. */
  lemma NoneEmitsNothing(before: seq<Param>, key: string, after: seq<Param>)
    ensures ArgsOf(before + [Param(key, Plain(NoneVal))] + after) == ArgsOf(before + after)
  {
    SingleEntry(before, Param(key, Plain(NoneVal)), after);
    ArgsOfAppend(before, after);
  }

  /** A str- or int-valued entry emits exactly `--key` followed by `str(value)`. */
  lemma ScalarEmitsPair(before: seq<Param>, key: string, v: Scalar, after: seq<Param>)
    requires v.StrVal? || v.IntVal?
    ensures ArgsOf(before + [Param(key, Plain(v))] + after)
         == ArgsOf(before) + ["--" + key, PyStr(v)] + ArgsOf(after)
  {
    SingleEntry(before, Param(key, Plain(v)), after);
  }

  /** A nested-dict entry emits `--key` and then the one token `k1=v1,...,kn=vn`:
      the comma-join of its rendered entries, with no trailing comma. */
  lemma GroupEmitsJoinedToken(before: seq<Param>, key: string, items: seq<SubParam>, after: seq<Param>)
    ensures ArgsOf(before + [Param(key, Group(items))] + after)
         == ArgsOf(before) + ["--" + key, JoinWith(",", RenderedAll(items))] + ArgsOf(after)
  {
    SingleEntry(before, Param(key, Group(items)), after);
    TerminatedIsCommaJoin(RenderedAll(items));
  }

  // ---------------------------------------------------------------------
  // The module parameters and the `yc_params` map built from them.

  /** The `boot_disk` sub-options after Ansible applied their defaults. */
  datatype BootDisk = BootDisk(
    imageFamily: Option<string>,
    imageFolderId: Option<string>,
    size: int,
    diskType: string)

  /** The module parameters the builder and the reconciliation read. `bootDisk`
      is `None` when the task gives no `boot_disk` (Ansible then applies no
      sub-option defaults and leaves the parameter `None`). */
  datatype ModuleParams = ModuleParams(
    name: string,
    description: Option<string>,
    zone: string,
    sshKey: Option<string>,
    hostname: Option<string>,
    bootDisk: Option<BootDisk>,
    memory: int,
    cores: int,
    coreFraction: int,
    publicIp: bool,
    preemptible: bool,
    update: bool)

  /** A `str`-typed parameter that may be unset. */
  function OptStr(o: Option<string>): Scalar
  {
    match o
    case None => NoneVal
    case Some(s) => StrVal(s)
  }

  /** The `yc_params` dict, in its insertion order. */
  function YcParams(p: ModuleParams, disk: BootDisk): seq<Param>
  {
    [ Param("name", Plain(StrVal(p.name))),
      Param("description", Plain(OptStr(p.description))),
      Param("zone", Plain(StrVal(p.zone))),
      Param("ssh-key", Plain(OptStr(p.sshKey))),
      Param("hostname", Plain(OptStr(p.hostname))),
      Param("create-boot-disk", Group(DiskItems(disk))),
      Param("memory", Plain(IntVal(p.memory))),
      Param("cores", Plain(IntVal(p.cores))),
      Param("core-fraction", Plain(IntVal(p.coreFraction))),
      Param("public-ip", Plain(BoolVal(p.publicIp))),
      Param("preemptible", Plain(BoolVal(p.preemptible))) ]
  }

  /** The nested `create-boot-disk` dict, in its insertion order. */
  function DiskItems(disk: BootDisk): seq<SubParam>
  {
    [ SubParam("image-family", OptStr(disk.imageFamily)),
      SubParam("image-folder-id", OptStr(disk.imageFolderId)),
      SubParam("size", IntVal(disk.size)),
      SubParam("type", StrVal(disk.diskType)) ]
  }

  /** An optional `--flag value` pair: nothing when the parameter is unset. */
  function OptPair(flag: string, o: Option<string>): seq<string>
  {
    match o
    case None => []
    case Some(s) => [flag, s]
  }

  /** `str()` of a parameter that may be unset. */
  function OptText(o: Option<string>): string
  {
    match o
    case None => "None"
    case Some(s) => s
  }

  /** The exact `yc_args` the modules build from their parameters: every
      field in `yc_params` order, unset optional strings dropped, the boot
      disk as one comma-joined token, and both booleans as bare flags. */
  lemma CreateArgsShape(p: ModuleParams, disk: BootDisk)
    ensures ArgsOf(YcParams(p, disk))
         == ["--name", p.name] + OptPair("--description", p.description)
          + ["--zone", p.zone] + OptPair("--ssh-key", p.sshKey) + OptPair("--hostname", p.hostname)
          + ["--create-boot-disk", DiskToken(disk)]
          + ["--memory", IntToString(p.memory)] + ["--cores", IntToString(p.cores)]
          + ["--core-fraction", IntToString(p.coreFraction)]
          + ["--public-ip"] + ["--preemptible"]
  {
    IdentityTokens(p, disk);
    ResourceTokens(p, disk);
    ConcatEleven(TokenLists(YcParams(p, disk)));
  }

  /** The tokens of the identity fields: name, description, zone, ssh-key, hostname. */
  lemma IdentityTokens(p: ModuleParams, disk: BootDisk)
    ensures |TokenLists(YcParams(p, disk))| == 11
    ensures TokenLists(YcParams(p, disk))[0] == ["--name", p.name]
    ensures TokenLists(YcParams(p, disk))[1] == OptPair("--description", p.description)
    ensures TokenLists(YcParams(p, disk))[2] == ["--zone", p.zone]
    ensures TokenLists(YcParams(p, disk))[3] == OptPair("--ssh-key", p.sshKey)
    ensures TokenLists(YcParams(p, disk))[4] == OptPair("--hostname", p.hostname)
  {
    FlagSpellings();
    OptTokens("description", p.description);
    OptTokens("ssh-key", p.sshKey);
    OptTokens("hostname", p.hostname);
  }

  /** The tokens of the boot disk, the resources and the two boolean fields. */
  lemma ResourceTokens(p: ModuleParams, disk: BootDisk)
    ensures |TokenLists(YcParams(p, disk))| == 11
    ensures TokenLists(YcParams(p, disk))[5] == ["--create-boot-disk", DiskToken(disk)]
    ensures TokenLists(YcParams(p, disk))[6] == ["--memory", IntToString(p.memory)]
    ensures TokenLists(YcParams(p, disk))[7] == ["--cores", IntToString(p.cores)]
    ensures TokenLists(YcParams(p, disk))[8] == ["--core-fraction", IntToString(p.coreFraction)]
    ensures TokenLists(YcParams(p, disk))[9] == ["--public-ip"]
    ensures TokenLists(YcParams(p, disk))[10] == ["--preemptible"]
  {
    FlagSpellings();
    DiskTokenIsGroupToken(disk);
  }

  /** The `--key` flags of the `yc_params` keys. */
  lemma FlagSpellings()
    ensures "--" + "name" == "--name" && "--" + "description" == "--description"
    ensures "--" + "zone" == "--zone" && "--" + "ssh-key" == "--ssh-key"
    ensures "--" + "hostname" == "--hostname" && "--" + "create-boot-disk" == "--create-boot-disk"
    ensures "--" + "memory" == "--memory" && "--" + "cores" == "--cores"
    ensures "--" + "core-fraction" == "--core-fraction"
    ensures "--" + "public-ip" == "--public-ip" && "--" + "preemptible" == "--preemptible"
  {
  }

  /** An optional `str` entry emits its pair when set and nothing when unset. */
  lemma OptTokens(key: string, o: Option<string>)
    ensures TokensOf(Param(key, Plain(OptStr(o)))) == OptPair("--" + key, o)
  {
  }

  /** Concatenating eleven chunks, spelled out. */
  lemma ConcatEleven(ts: seq<seq<string>>)
    requires |ts| == 11
    ensures Concat(ts) == ts[0] + ts[1] + ts[2] + ts[3] + ts[4] + ts[5] + ts[6] + ts[7] + ts[8] + ts[9] + ts[10]
  {
    assert Concat(ts[..1]) == ts[0] by { assert ts[..1][..0] == []; }
    assert Concat(ts[..2]) == Concat(ts[..1]) + ts[1] by { assert ts[..2][..1] == ts[..1]; }
    assert Concat(ts[..3]) == Concat(ts[..2]) + ts[2] by { assert ts[..3][..2] == ts[..2]; }
    assert Concat(ts[..4]) == Concat(ts[..3]) + ts[3] by { assert ts[..4][..3] == ts[..3]; }
    assert Concat(ts[..5]) == Concat(ts[..4]) + ts[4] by { assert ts[..5][..4] == ts[..4]; }
    assert Concat(ts[..6]) == Concat(ts[..5]) + ts[5] by { assert ts[..6][..5] == ts[..5]; }
    assert Concat(ts[..7]) == Concat(ts[..6]) + ts[6] by { assert ts[..7][..6] == ts[..6]; }
    assert Concat(ts[..8]) == Concat(ts[..7]) + ts[7] by { assert ts[..8][..7] == ts[..7]; }
    assert Concat(ts[..9]) == Concat(ts[..8]) + ts[8] by { assert ts[..9][..8] == ts[..8]; }
    assert Concat(ts[..10]) == Concat(ts[..9]) + ts[9] by { assert ts[..10][..9] == ts[..9]; }
    assert Concat(ts) == Concat(ts[..10]) + ts[10];
  }

  /** The `--create-boot-disk` token, `image-family=...,image-folder-id=...,size=...,type=...`. */
  function DiskToken(disk: BootDisk): string
  {
    JoinWith(",", ["image-family=" + OptText(disk.imageFamily),
                   "image-folder-id=" + OptText(disk.imageFolderId),
                   "size=" + IntToString(disk.size),
                   "type=" + disk.diskType])
  }

  lemma DiskTokenIsGroupToken(disk: BootDisk)
    ensures GroupToken(DiskItems(disk)) == DiskToken(disk)
  {
    var rs := RenderedAll(DiskItems(disk));
    assert rs == ["image-family=" + OptText(disk.imageFamily),
                  "image-folder-id=" + OptText(disk.imageFolderId),
                  "size=" + IntToString(disk.size),
                  "type=" + disk.diskType] by {
      assert "image-family" + "=" == "image-family=";
      assert "image-folder-id" + "=" == "image-folder-id=";
      assert "size" + "=" == "size=";
      assert "type" + "=" == "type=";
      assert PyStr(OptStr(disk.imageFamily)) == OptText(disk.imageFamily);
      assert PyStr(OptStr(disk.imageFolderId)) == OptText(disk.imageFolderId);
    }
    TerminatedIsCommaJoin(rs);
  }
}
