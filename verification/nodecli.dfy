/** The `node` command of the node package (node/cli.go): its flags, their
    checks and the Node built from them. */
module NodeCli {
  import opened Wrappers
  import opened CliFlags
  import opened NodeCore

  const DefaultPort: int := 443
  const DefaultName: string := "Anon"
  const DefaultMaxActions: int := 100
  const NamePattern: string := "^[a-zA-Z][a-zA-Z0-9_.-]*$"
  const MissingCertPath: string := "Required flag \"cert-path\" not set"

  /** The flags of the command as given on the command line: `None` is a
      flag that was not given. The `host` flag is declared but never read. */
  datatype NodeFlags = NodeFlags(
    port: Option<int>, host: Option<string>, data: Option<string>, actions: Option<string>,
    orchestrator: Option<string>, name: Option<string>, arbitraryActions: bool,
    log: Option<string>, maxActions: Option<int>, certPath: Option<string>)

  /** `^[a-zA-Z][a-zA-Z0-9_.-]*$`: a leading letter, then name characters. */
  predicate NodeNameOk(v: string)
  {
    |v| >= 1 && IsLetter(v[0]) && forall i :: 1 <= i < |v| ==> IsNameChar(v[i])
  }

  /** The name flag's check. */
  function NameError(v: string): (err: Option<string>)
    ensures err.None? <==> NodeNameOk(v)
  {
    if NodeNameOk(v) then None
    else Some("the string " + v + " cannot be used as a node name. Ensure it matches this pattern: " + NamePattern)
  }

  /** A one-letter name is a valid node name; so is the default. */
  lemma ShortNamesAllowed(c: char)
    requires IsLetter(c)
    ensures NodeNameOk([c])
    ensures NodeNameOk(DefaultName)
  {
  }

  /** The checks the command line runs before the action: the required
      cert-path flag first, then each given flag's own check in declaration
      order. `present` is what os.Stat says of a path (false when the path
      does not exist). */
  function FlagsError(f: NodeFlags, present: string -> bool): (err: Option<string>)
    ensures err.None? <==>
      f.certPath.Some?
      && (f.port.Some? ==> f.port.value < 65536)
      && (f.data.Some? ==> present(f.data.value))
      && (f.actions.Some? ==> present(f.actions.value))
      && (f.name.Some? ==> NodeNameOk(f.name.value))
    ensures f.certPath.None? ==> err == Some(MissingCertPath)
    ensures f.certPath.Some? && f.port.Some? && f.port.value >= 65536 ==> err == PortFlagError(f.port.value)
  {
    if f.certPath.None? then Some(MissingCertPath)
    else if f.port.Some? && PortFlagError(f.port.value).Some? then PortFlagError(f.port.value)
    else if f.data.Some? && !present(f.data.value) then Some("data directory " + f.data.value + " does not exist")
    else if f.actions.Some? && !present(f.actions.value) then Some("actions file " + f.actions.value + " does not exist")
    else if f.name.Some? then NameError(f.name.value)
    else None
  }

  /** Only cert-path is required: with every other flag left out the
      command line is accepted, a negative port too. */
  lemma OnlyCertPathRequired(cert: string, port: Option<int>, present: string -> bool)
    requires port.None? || port.value < 0
    ensures FlagsError(NodeFlags(port, None, None, None, None, None, false, None, None, Some(cert)), present) == None
  {
  }

  /** A path as the action passes it on: made absolute by `abs` (what
      filepath.Abs returns), except that an empty path stays empty. */
  function AbsOrEmpty(p: string, abs: string -> string): (r: string)
    ensures p == "" ==> r == ""
    ensures p != "" ==> r == abs(p)
  {
    if p == "" then "" else abs(p)
  }

  /** The command: the flag checks, then the Node the action builds. Flags
      left out take their defaults; the log flag is never read, so the log
      file is empty and the node logs to standard output. */
  method NodeCommand(f: NodeFlags, present: string -> bool, abs: string -> string) returns (r: Result<Node, string>)
    ensures r.Err? <==> FlagsError(f, present).Some?
    ensures r.Err? ==> r.error == FlagsError(f, present).value
    ensures r.Ok? ==> fresh(r.value) && r.value.Valid()
    ensures r.Ok? ==> r.value.name == ValueOr(f.name, DefaultName) && r.value.serverPort == ValueOr(f.port, DefaultPort)
    ensures r.Ok? ==> r.value.dataDir == AbsOrEmpty(ValueOr(f.data, ""), abs)
    ensures r.Ok? ==> r.value.actionsPath == AbsOrEmpty(ValueOr(f.actions, ""), abs)
    ensures r.Ok? ==> r.value.orchAddr == ValueOr(f.orchestrator, "") && r.value.arbitraryActions == f.arbitraryActions
    ensures r.Ok? ==> r.value.maxNumActions == ValueOr(f.maxActions, DefaultMaxActions)
    ensures r.Ok? ==> r.value.certPath == f.certPath.value && r.value.logFile == ""
    ensures r.Ok? ==> r.value.data == map[] && r.value.actions == map[]
  {
    var err := FlagsError(f, present);
    if err.Some? {
      return Err(err.value);
    }
    var dataDir := ValueOr(f.data, "");
    var absDataPath := "";
    if dataDir != "" {
      absDataPath := abs(dataDir);
    }
    var actionsPath := ValueOr(f.actions, "");
    var absActionPath := "";
    if actionsPath != "" {
      absActionPath := abs(actionsPath);
    }
    var node := new Node(ValueOr(f.name, DefaultName), ValueOr(f.port, DefaultPort), absDataPath, absActionPath,
                         ValueOr(f.orchestrator, ""), f.arbitraryActions, "", ValueOr(f.maxActions, DefaultMaxActions),
                         f.certPath.value);
    r := Ok(node);
  }
}
