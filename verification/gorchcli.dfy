/** The older `gorch` entry point (gorch.go): a `node` command building the
    older node record and an `orch` command building the orchestrator. */
module GorchCli {
  import opened Wrappers
  import opened CliFlags
  import NodeCli
  import opened Orchs

  const DefaultNodePort: int := 8321
  const DefaultOrchPort: int := 8322
  const DefaultName: string := "Anon"
  const NamePattern: string := "^[a-zA-Z][a-zA-Z0-9_.-]+$"
  const MissingData: string := "Required flag \"data\" not set"

  /** The flags of the `node` command; `None` is a flag not given. */
  datatype GorchNodeFlags = GorchNodeFlags(
    port: Option<int>, data: Option<string>, actions: Option<string>, orch: Option<string>, name: Option<string>)

  /** The node record the older entry point fills in before running it. */
  datatype GorchNode = GorchNode(name: string, port: int, dataDir: string, actionsPath: string, orchAddr: string)

  /** `^[a-zA-Z][a-zA-Z0-9_.-]+$`: a leading letter and at least one more
      name character. */
  predicate GorchNameOk(v: string)
  {
    |v| >= 2 && IsLetter(v[0]) && forall i :: 1 <= i < |v| ==> IsNameChar(v[i])
  }

  /** The two entry points differ on names only in length: here a name
      needs two characters, so a one-letter name the node package accepts
      is refused. */
  lemma NamePatternsDiffer(v: string)
    ensures GorchNameOk(v) <==> NodeCli.NodeNameOk(v) && |v| >= 2
    ensures |v| == 1 && IsLetter(v[0]) ==> NodeCli.NodeNameOk(v) && !GorchNameOk(v)
  {
  }

  function NameError(v: string): (err: Option<string>)
    ensures err.None? <==> GorchNameOk(v)
  {
    if GorchNameOk(v) then None
    else Some("the string " + v + " cannot be used as a node name. Ensure it matches " + NamePattern)
  }

  /** The checks before the `node` action: the required data flag, then the
      given flags' checks in declaration order. `present` is what os.Stat
      says of a path. */
  function NodeFlagsError(f: GorchNodeFlags, present: string -> bool): (err: Option<string>)
    ensures err.None? <==>
      f.data.Some?
      && (f.port.Some? ==> f.port.value < 65536)
      && present(f.data.value)
      && (f.actions.Some? ==> present(f.actions.value))
      && (f.name.Some? ==> GorchNameOk(f.name.value))
    ensures f.data.None? ==> err == Some(MissingData)
  {
    if f.data.None? then Some(MissingData)
    else if f.port.Some? && PortFlagError(f.port.value).Some? then PortFlagError(f.port.value)
    else if !present(f.data.value) then Some("data directory " + f.data.value + " does not exist")
    else if f.actions.Some? && !present(f.actions.value) then Some("actions file " + f.actions.value + " does not exist")
    else if f.name.Some? then NameError(f.name.value)
    else None
  }

  /** The string flags the `node` command declares, each with what it
      reads: the given value or the flag's default. */
  function NodeStringFlags(f: GorchNodeFlags): (values: map<string, string>)
    ensures values.Keys == {"data", "actions", "orch", "name"}
  {
    map["data" := ValueOr(f.data, ""), "actions" := ValueOr(f.actions, ""),
        "orch" := ValueOr(f.orch, ""), "name" := ValueOr(f.name, DefaultName)]
  }

  /** The orchestrator address the `node` action reads: as written it looks
      up a flag named "server", which the command does not declare; the
      declared flag is "orch". */
  function OrchAddrOf(f: GorchNodeFlags, asWritten: bool): (addr: string)
    ensures asWritten ==> addr == ""
    ensures !asWritten ==> addr == ValueOr(f.orch, "")
  {
    FlagString(NodeStringFlags(f), if asWritten then "server" else "orch")
  }

  /** The `node` command: checks, then the node record. The data path is
      always made absolute (it is required); the actions path only when it
      is given and non-empty. `abs` is what filepath.Abs returns. */
  function NodeCommand(f: GorchNodeFlags, present: string -> bool, abs: string -> string, asWritten: bool)
    : (r: Result<GorchNode, string>)
    ensures r.Err? <==> NodeFlagsError(f, present).Some?
    ensures r.Ok? ==> r.value.dataDir == abs(f.data.value)
    ensures r.Ok? ==> r.value.actionsPath == NodeCli.AbsOrEmpty(ValueOr(f.actions, ""), abs)
    ensures r.Ok? ==> r.value.port == ValueOr(f.port, DefaultNodePort) && r.value.name == ValueOr(f.name, DefaultName)
    ensures r.Ok? ==> r.value.orchAddr == OrchAddrOf(f, asWritten)
  {
    var err := NodeFlagsError(f, present);
    if err.Some? then Err(err.value)
    else
      Ok(GorchNode(ValueOr(f.name, DefaultName), ValueOr(f.port, DefaultNodePort), abs(f.data.value),
                   NodeCli.AbsOrEmpty(ValueOr(f.actions, ""), abs), OrchAddrOf(f, asWritten)))
  }

  /** As written, the orch flag has no effect: two command lines that differ
      only in it give the same node, one with no orchestrator. */
  lemma OrchFlagIgnored(f: GorchNodeFlags, orch: string, present: string -> bool, abs: string -> string)
    requires NodeFlagsError(f, present).None?
    ensures NodeCommand(f.(orch := Some(orch)), present, abs, true) == NodeCommand(f.(orch := None), present, abs, true)
    ensures NodeCommand(f.(orch := Some(orch)), present, abs, true).value.orchAddr == ""
  {
  }

  /** Corrected, the node connects to the orchestrator the flag names. */
  lemma OrchFlagUsed(f: GorchNodeFlags, orch: string, present: string -> bool, abs: string -> string)
    requires NodeFlagsError(f, present).None?
    ensures NodeCommand(f.(orch := Some(orch)), present, abs, false).Ok?
    ensures NodeCommand(f.(orch := Some(orch)), present, abs, false).value.orchAddr == orch
  {
  }

  /** The `orch` command: the port check, then an orchestrator with an
      empty node registry on the given or default port. */
  method OrchCommand(port: Option<int>) returns (r: Result<Orch, string>)
    ensures r.Err? <==> port.Some? && port.value >= 65536
    ensures r.Err? ==> r.error == PortFlagError(port.value).value
    ensures r.Ok? ==> fresh(r.value) && r.value.port == ValueOr(port, DefaultOrchPort) && r.value.nodes == map[]
  {
    if port.Some? && PortFlagError(port.value).Some? {
      return Err(PortFlagError(port.value).value);
    }
    var orch := new Orch(ValueOr(port, DefaultOrchPort));
    r := Ok(orch);
  }
}
