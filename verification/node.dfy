/** The node (node/node.go): its configuration and state, the admission
    and release of resources around running an action, reloading the action
    table, and the data defaulting done when the node starts. */
module NodeCore {
  import opened Wrappers
  import opened Json
  import opened GoStrings

  /** An action as listed in the node's action file. */
  datatype Action = Action(name: string, params: seq<string>, command: string, description: string)

  /** The data files of a node, keyed by simple file name. */
  type Data = map<string, map<string, Json>>

  /** What the resource manager's request admission answered: a handle to
      release later, or an error. */
  datatype Admission = Admitted(handle: nat) | Refused(err: string)

  /** The three results of RunAction: output, whether admission succeeded,
      and the error. */
  datatype ActionResult = ActionResult(out: string, semOk: bool, err: Option<string>)

  /** The answer RunAction gives. `run` is what running the action
      synchronously yields (its command outputs or an error); it matters only
      on the synchronous path. */
  function Respond(admission: Admission, streamDest: string, run: Result<seq<string>, string>): (r: ActionResult)
    ensures r.semOk <==> admission.Admitted?
    ensures r.err.Some? <==> admission.Refused? || (streamDest == "" && run.Err?)
    ensures admission.Refused? ==> r.err == Some(admission.err)
    ensures admission.Admitted? && streamDest == "" && run.Err? ==> r.err == Some(run.error)
    ensures r.err.Some? ==> r.out == ""
    ensures admission.Admitted? && streamDest != "" ==> r.out == "Streaming action output to " + streamDest
    ensures admission.Admitted? && streamDest == "" && run.Ok? ==> r.out == Join(run.value, "\n")
  {
    match admission
    case Refused(e) => ActionResult("", false, Some(e))
    case Admitted(_) =>
      if streamDest != "" then ActionResult("Streaming action output to " + streamDest, true, None)
      else match run
        case Err(e) => ActionResult("", true, Some(e))
        case Ok(outputs) => ActionResult(Join(outputs, "\n"), true, None)
  }

  predicate Distinct(s: seq<nat>)
  {
    forall i, j :: 0 <= i < j < |s| ==> s[i] != s[j]
  }

  /** Every admitted handle has been released or is still held by a
      streaming run, and nothing else has been released. */
  predicate Balanced(acquired: seq<nat>, released: seq<nat>, streaming: seq<nat>)
  {
    multiset(acquired) == multiset(released) + multiset(streaming)
  }

  /** With distinct handles, a balanced ledger releases each admitted handle
      exactly once or keeps it in exactly one streaming run; once no stream is
      running, what was released is exactly what was admitted. */
  lemma ReleasedExactlyOnce(acquired: seq<nat>, released: seq<nat>, streaming: seq<nat>, h: nat)
    requires Distinct(acquired) && Balanced(acquired, released, streaming)
    ensures h in acquired ==> multiset(released)[h] + multiset(streaming)[h] == 1
    ensures h !in acquired ==> h !in released && h !in streaming
    ensures streaming == [] ==> multiset(released) == multiset(acquired)
  {
    if h in acquired {
      var i :| 0 <= i < |acquired| && acquired[i] == h;
      assert acquired == acquired[..i] + [h] + acquired[i + 1..];
      assert h !in acquired[..i] && h !in acquired[i + 1..];
      assert multiset(acquired)[h] == 1;
    } else {
      assert multiset(acquired)[h] == 0;
    }
  }

  class Node {
    var name: string
    var serverPort: int
    var dataDir: string
    var data: Data
    var actionsPath: string
    var actions: map<string, Action>
    var orchAddr: string
    var arbitraryActions: bool
    var logFile: string
    var maxNumActions: int
    var certPath: string
    /** Handles admitted by the resource manager, in order. */
    var acquired: seq<nat>
    /** Handles given back to the resource manager, in order. */
    var released: seq<nat>
    /** Handles held by streaming runs that have not finished. */
    var streaming: seq<nat>

    ghost predicate Valid()
      reads this
    {
      Distinct(acquired) && Balanced(acquired, released, streaming)
    }

    constructor (name: string, serverPort: int, dataDir: string, actionsPath: string, orchAddr: string,
                 arbitraryActions: bool, logFile: string, maxNumActions: int, certPath: string)
      ensures Valid()
      ensures this.name == name && this.serverPort == serverPort && this.dataDir == dataDir
      ensures this.actionsPath == actionsPath && this.orchAddr == orchAddr
      ensures this.arbitraryActions == arbitraryActions && this.logFile == logFile
      ensures this.maxNumActions == maxNumActions && this.certPath == certPath
      ensures data == map[] && actions == map[]
      ensures acquired == [] && released == [] && streaming == []
    {
      this.name := name;
      this.serverPort := serverPort;
      this.dataDir := dataDir;
      this.data := map[];
      this.actionsPath := actionsPath;
      this.actions := map[];
      this.orchAddr := orchAddr;
      this.arbitraryActions := arbitraryActions;
      this.logFile := logFile;
      this.maxNumActions := maxNumActions;
      this.certPath := certPath;
      this.acquired := [];
      this.released := [];
      this.streaming := [];
    }

    /** RunAction: admission first. A refused request runs nothing and
        releases nothing. A synchronous run releases its handle when it
        returns, whether it failed or not; a streamed run answers at once and
        keeps its handle until the stream finishes. */
    method RunAction(streamDest: string, admission: Admission, run: Result<seq<string>, string>)
      returns (out: string, semOk: bool, err: Option<string>)
      requires Valid()
      requires admission.Admitted? ==> admission.handle !in acquired
      modifies this`acquired, this`released, this`streaming
      ensures Valid()
      ensures ActionResult(out, semOk, err) == Respond(admission, streamDest, run)
      ensures admission.Refused? ==>
        acquired == old(acquired) && released == old(released) && streaming == old(streaming)
      ensures admission.Admitted? ==> acquired == old(acquired) + [admission.handle]
      ensures admission.Admitted? && streamDest == "" ==>
        released == old(released) + [admission.handle] && streaming == old(streaming)
      ensures admission.Admitted? && streamDest != "" ==>
        released == old(released) && streaming == old(streaming) + [admission.handle]
    {
      out := "";
      if admission.Refused? {
        return out, false, Some(admission.err);
      }
      var hid := admission.handle;
      acquired := acquired + [hid];
      if streamDest == "" {
        // the deferred release runs on both returns below
        released := released + [hid];
        if run.Err? {
          return out, true, Some(run.error);
        }
        out := Join(run.value, "\n");
      } else {
        streaming := streaming + [hid];
        out := "Streaming action output to " + streamDest;
      }
      err := None;
      semOk := true;
    }

    /** The streaming goroutine of run i finishes and releases its handle. */
    method FinishStream(i: nat)
      requires Valid() && i < |streaming|
      modifies this`released, this`streaming
      ensures Valid()
      ensures released == old(released) + [old(streaming)[i]]
      ensures streaming == old(streaming)[..i] + old(streaming)[i + 1..]
    {
      var hid := streaming[i];
      assert streaming == streaming[..i] + [hid] + streaming[i + 1..];
      released := released + [hid];
      streaming := streaming[..i] + streaming[i + 1..];
    }

    /** ReloadActions(path): an empty path does nothing. Otherwise the action
        file is loaded from the CURRENT actions path (not `path`); a load
        error ends the process through log.Fatal, reported here as the
        returned error with nothing changed; a successful load replaces the
        whole action table and records `path`. */
    method ReloadActions(path: string, loadActions: string -> Result<map<string, Action>, string>)
      returns (fatal: Option<string>)
      modifies this`actions, this`actionsPath
      ensures path == "" ==> fatal.None? && actions == old(actions) && actionsPath == old(actionsPath)
      ensures path != "" && loadActions(old(actionsPath)).Err? ==>
        fatal == Some(loadActions(old(actionsPath)).error)
        && actions == old(actions) && actionsPath == old(actionsPath)
      ensures path != "" && loadActions(old(actionsPath)).Ok? ==>
        fatal.None? && actions == loadActions(old(actionsPath)).value && actionsPath == path
    {
      if path == "" {
        return None;
      }
      var loaded := loadActions(actionsPath);
      if loaded.Err? {
        return Some(loaded.error);
      }
      actions := loaded.value;
      actionsPath := path;
      fatal := None;
    }

    /** The start of Run before the services are launched: data is loaded
        from DataDir (an empty DataDir gives an empty data set, a load error
        stops Run), then the actions are loaded when an actions path is set. */
    method Initialise(loadData: string -> Result<Data, string>,
                      loadActions: string -> Result<map<string, Action>, string>)
      returns (err: Option<string>)
      modifies this`data, this`actions, this`actionsPath
      ensures dataDir == "" ==> data == map[]
      ensures dataDir != "" && loadData(dataDir).Err? ==>
        err == Some(loadData(dataDir).error) && data == old(data) && actions == old(actions)
      ensures dataDir != "" && loadData(dataDir).Ok? ==> data == loadData(dataDir).value
      ensures (dataDir == "" || loadData(dataDir).Ok?) && old(actionsPath) != "" && loadActions(old(actionsPath)).Ok? ==>
        err.None? && actions == loadActions(old(actionsPath)).value && actionsPath == old(actionsPath)
      ensures (dataDir == "" || loadData(dataDir).Ok?) && old(actionsPath) != "" && loadActions(old(actionsPath)).Err? ==>
        err == Some(loadActions(old(actionsPath)).error) && actions == old(actions) && actionsPath == old(actionsPath)
      ensures (dataDir == "" || loadData(dataDir).Ok?) && old(actionsPath) == "" ==> err.None?
      ensures old(actionsPath) == "" ==> actions == old(actions)
    {
      if dataDir != "" {
        var loaded := loadData(dataDir);
        if loaded.Err? {
          return Some(loaded.error);
        }
        data := loaded.value;
      } else {
        data := map[];
      }
      if actionsPath != "" {
        err := ReloadActions(actionsPath, loadActions);
      } else {
        err := None;
      }
    }
  }
}
