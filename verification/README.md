# gorch in Dafny

gorch runs shell-defined *actions* on remote *nodes*. There are four roles:

- **Node.** A node serves its JSON data files and runs actions over HTTP. It can stream an action's output to a hook listener. A resource manager caps how many actions run at once.
- **Node state thread.** This keeps the node registered with an orchestrator. It polls and re-registers, switching to quick polling when a ping fails.
- **Orchestrator.** The orchestrator (packages `orchestrator` and the older `orch`) keeps a registry of nodes by name. It refreshes entries on registration and ping, drops them after ten seconds of silence, and redirects requests to a node's own address.
- **User CLI.** This validates `key=value` data flags and `key: value` header flags and builds the request it sends.

The model covers the logic of these parts:

- **Node state:** the node record, `RunAction` and the semaphore bookkeeping around it, action reloading and start-up data loading.
- **Node server:** the node server's body parser and the status each action endpoint answers with.
- **Data loading:** the data directory loader (which files count, their keys, the first error, last writer wins).
- **Connection state machines:** those of the node and of the older client.
- **Resources:** resource groups and the resource manager, plus the YAML/JSON decoders of a resource base.
- **Orchestrators:** the orchestrator registries of both orchestrator packages, their handlers and their disconnect sweeps.
- **Hooks and auth:** the hook client's buffered delivery loop and the bearer-token middleware.
- **CLI commands:** the flag validation and command actions of `node`, `gorch node`, `gorch orch`, `action`, `data` and `list`.

Go's stateful objects are Dafny classes whose methods update their fields: `Node`, `NodeStateThread`, `ClientThread`, `ResourceBase`, `ResourceGroup`, `ResourceManager`, `Orchestrator`, `Orch`, `HookClient` and `TokenStore`. Go loops are `while`/`for` loops with invariants. Each loop is proved against a specification function, and the properties of that function are proved as lemmas.

Several things are not modelled directly; they become parameters instead:

- **I/O:** file reads, `os.Stat`, `filepath.Abs`, JSON decoding results, HTTP outcomes and the clock.
- **Flag state:** whether a CLI flag was given on the command line.
- **Go map iteration:** its order is unspecified, so a loop over a map picks its next key with `:|`, and its contract holds for every order.
- **Panics:** a Go panic is either a precondition (when a caller can avoid it) or an explicit `Panicked` outcome (when a request body can cause it).

Integers are unbounded. The int64 range appears only where `strconv.Atoi` checks it.

## Model

| member | source | states |
|---|---|---|
| Strconv.Atoi | node/nserver.go:205 | Ok exactly for an optional sign followed by at least one digit whose signed value lies in the int64 range, and then that value; otherwise a SyntaxError exactly when the text is not a signed digit string, else a RangeError, both carrying the input |
| Strconv.DecimalRoundTrip | node/nserver.go:205-209 | parsing the decimal text of any int64 gives the number back, so the `%d` of a parsed port is the port |
| Strconv.LeadingZeroIgnored | node/nserver.go:205-209 | a leading zero does not change what Atoi parses |
| GoStrings.ReplaceFirstAt | auth/insecure.go:22 | `strings.Replace(s, p, "", 1)` removes exactly the first occurrence of p |
| CliFlags.PortFlagError | node/cli.go:23-28 | the port validator refuses exactly the values >= 65536, with its message |
| NodeCore.Respond | node/node.go:88-115 | semOk iff admitted; an error iff refused or a synchronous run failed; the output is the run's lines joined by newlines, the streaming notice, or empty on error |
| NodeCore.ReleasedExactlyOnce | node/node.go:96-111 | every admitted handle is released exactly once, either already or by its streaming goroutine; nothing else is released; with no stream in flight the released handles are exactly the acquired ones |
| NodeCore.Node.constructor | node/node.go:14-29 | a node record with the given fields, no data, no actions and no handles |
| NodeCore.Node.RunAction | node/node.go:88-115 | returns Respond's result; a refusal changes nothing; a synchronous run releases its handle before returning; a streaming run leaves its handle in flight |
| NodeCore.Node.FinishStream | node/node.go:105-109 | the streaming goroutine's deferred release: the handle moves from in flight to released |
| NodeCore.Node.ReloadActions | node/node.go:72-86 | an empty path changes nothing; otherwise the actions are loaded from the OLD actions path, a load error is fatal and leaves the state, success replaces the actions and then the path |
| NodeCore.Node.Initialise | node/node.go:35-50 | no data directory gives empty data; a load error stops start-up; otherwise the data is what was loaded; with no actions path the error is none, and with one the actions are reloaded, a reload error being returned with the actions and their path unchanged |
| NodeServer.StringFields | node/nserver.go:192-197 | the body holds every field but "action", each the string it held in the JSON |
| NodeServer.StreamDest | node/nserver.go:199-210 | a destination only when both stream_addr and stream_port are non-empty; an error exactly then when the port does not parse |
| NodeServer.ParseSpec | node/nserver.go:184-213 | a non-string field panics; a JSON error is returned; an absent body parses to no fields and no destination |
| NodeServer.DecimalPortDest | node/nserver.go:199-210 | a decimal stream port gives "addr:port", with "loopback" replaced by the caller's address |
| NodeServer.LeadingZeroPortDest | node/nserver.go:204-209 | "0"+digits and digits give the same destination |
| NodeServer.ParseActionBody | node/nserver.go:184-213 | the range loop over the decoded body yields ParseSpec's outcome in every map order |
| NodeServer.ActionStatusMeaning | node/nserver.go:106-115 | 503 iff admission refused, 400 iff a synchronous run failed, 200 otherwise |
| NodeServer.AdhocOkNeedsAll | node/nserver.go:81-116 | with remote actions disabled the answer is 403 whatever the body; 200 needs remote actions enabled, a parsed body, a decoded definition and admission |
| NodeServer.NamedReplyMeaning | node/nserver.go:118-148 | an unknown name answers with the lookup error; a known one is 503 iff refused |
| NodeServer.HandleAdhoc | node/nserver.go:81-116 | replies as AdhocReply; runs the action, and changes the node, only when the request gets that far |
| NodeServer.HandleNamed | node/nserver.go:118-148 | replies as NamedReply; runs only a known action of a parsed request |
| NodeServer.ListKeys | node/nserver.go:44-54 | the keys of the map, each exactly once |
| NodeServer.ListFile | node/nserver.go:55-66 | the keys of the named file's data; no keys for an unknown file |
| NodeServer.DefaultPort | node/nserver.go:151-153 | port 0 becomes 3000, any other port is kept |
| NodeUtils.LastSlashIsLast | node/utils.go:13 | the slash found is the last one before the end |
| NodeUtils.ExtStartIsLast | node/utils.go:14 | the dot found is the last one of the final element |
| NodeUtils.BaseShape | node/utils.go:13 | filepath.Base is never empty, and is "/" or free of slashes |
| NodeUtils.BaseOfName | node/utils.go:13 | a plain file name is its own base |
| NodeUtils.ExtShape | node/utils.go:14 | the extension is a suffix starting with its only dot and holding no slash; no dot means no extension |
| NodeUtils.TrimSuffixSplits | node/utils.go:15 | trimming a suffix that is present and putting it back gives the string |
| NodeUtils.SimpleFileNameSplits | node/utils.go:12-16 | the simple name followed by the extension is the base name |
| NodeUtils.JsonFileKey | node/utils.go:12-16 | "name.json" is stored under "name" |
| NodeUtils.NoDotKeepsBase | node/utils.go:12-16 | a base without a dot is the key itself |
| NodeUtils.SlotOf | node/utils.go:34-45 | skipped iff a directory or not ".json"; failed iff eligible and unreadable; stored with what was read otherwise |
| NodeUtils.Slots | node/utils.go:31-47 | the fate of every directory entry, by index |
| NodeUtils.ErrorOf | node/utils.go:42 | an entry records an error exactly when its read failed |
| NodeUtils.FirstFailed | node/utils.go:50-55 | the first failed entry, none before it |
| NodeUtils.ErrorsAt | node/utils.go:29-42 | the error slice holds each entry's error at its own index |
| NodeUtils.LoadedDataNext | node/utils.go:45 | one more entry stores at most its own key |
| NodeUtils.LoadedDataHasStored | node/utils.go:45 | every stored file's key is in the data |
| NodeUtils.LoadedDataOnlyStored | node/utils.go:45 | every key in the data comes from a stored file |
| NodeUtils.LoadedDataLastWins | node/utils.go:45 | under a shared key the last stored file wins |
| NodeUtils.JsonFileSlot | node/utils.go:34-45 | a readable "name.json" file is stored under "name" |
| NodeUtils.StoreEntry | node/utils.go:32-46 | one entry's error slot and data update |
| NodeUtils.StoreFiles | node/utils.go:26-48 | the errors by index and the data of all entries |
| NodeUtils.FirstError | node/utils.go:50-55 | the first error in index order, none before it |
| NodeUtils.ReadFiles | node/utils.go:26-56 | fails with the first failed entry's error in index order; otherwise the data of every stored file |
| NodeStates.Startup | node/nstate.go:49-57 | idle without an orchestrator; registered or polling by the start-up registration |
| NodeStates.Step | node/nstate.go:63-93 | each state's tick: quick polling counts and gives up past 25 then falls through to register, registration, ping failure to quick polling at the quick period, idle to quick polling, disconnecting, unknown states |
| NodeStates.StartupReachable | node/nstate.go:49-57 | start-up lands in a live state |
| NodeStates.StepKeepsReachable | node/nstate.go:63-93 | from a live state a tick never exits and stays live |
| NodeStates.QuickPollingGivesUp | node/nstate.go:64-75 | failing ticks in quick polling count up to 25, then return to polling at the normal period with the count reset |
| NodeStates.QuickPollCountCarriesOver | node/nstate.go:64-75 | registering from quick polling keeps the poll count |
| NodeStates.PeriodArithmetic | node/nstate.go:17-19 | the poll period is 5s, the quick period 200ms, 25 quick polls span one poll period, the stale period is two poll periods |
| NodeStates.NodeStateThread.constructor | node/nstate.go:49-57 | the thread starts in Startup's state |
| NodeStates.NodeStateThread.Tick | node/nstate.go:62-93 | the new state is Step's, and the loop ends exactly when Step exits |
| NodeStates.NodeStateThread.Cancel | node/nstate.go:95-96 | cancellation ends the loop |
| NodeClients.RequestError | node/client.go:90-93 | a request succeeds exactly on status 200 |
| NodeClients.ClientStep | node/client.go:34-56 | polling registers; a failed ping returns to polling; disconnecting ends disconnected; unknown states go to disconnecting |
| NodeClients.ClientNeverDisconnects | node/client.go:34-56 | from polling or registered, no outcomes ever lead out of those two states |
| NodeClients.ClientThread.constructor | node/client.go:29 | the thread starts polling |
| NodeClients.ClientThread.Tick | node/client.go:33-56 | the new state is ClientStep's, and the loop ends exactly when it exits |
| ResourceBases.DecodeYaml | node/resources/base.go:16-31 | a non-mapping node is refused and leaves the fields |
| ResourceBases.LastPairWins | node/resources/base.go:20-29 | when every count parses, the last pair's name and count stay |
| ResourceBases.FirstBadPairStops | node/resources/base.go:24-27 | the first unparsable count is returned, with the fields of the pair before it |
| ResourceBases.DecodeFailsIffBadCount | node/resources/base.go:20-30 | decoding fails iff some count does not parse |
| ResourceBases.ResourceBase.constructor | node/resources/base.go:11-14 | a base with the given name and count |
| ResourceBases.ResourceBase.UnmarshalYAML | node/resources/base.go:16-31 | the loop leaves the fields and the error DecodeYaml gives |
| ResourceBases.ResourceBase.UnmarshalJSON | node/resources/base.go:33-44 | a decode error is returned untouched; an empty object changes nothing; otherwise some entry of the object stays |
| ResourceGroups.TryStep | node/resources/group.go:58-64 | success iff n permits are free; held grows by n exactly on success; the capacity is fixed |
| ResourceGroups.ReleaseStep | node/resources/group.go:50-56 | held drops by n, clamped at zero |
| ResourceGroups.ReplayStaysWithin | node/resources/group.go:42-64 | any call sequence that never over-releases keeps 0 <= held, held <= count for a non-negative count, and held == 0 for a negative one |
| ResourceGroups.NegativeCountNeverGrants | node/resources/group.go:15-64 | a group created with a negative count never grants a permit: every call sequence leaves its holding as it was |
| ResourceGroups.ReplayHeldIsNet | node/resources/group.go:42-64 | held equals the permits granted minus those released |
| ResourceGroups.ResourceGroup.constructor | node/resources/group.go:15-24 | for any int64 count, negative included: nothing held, the semaphore sized to the count |
| ResourceGroups.ResourceGroup.GetCount | node/resources/group.go:34-36 | the capacity; when non-negative, never below what is held, and when negative, nothing is held |
| ResourceGroups.ResourceGroup.GetHeld | node/resources/group.go:38-40 | what is held: at least zero, at most a non-negative capacity, and zero under a negative one |
| ResourceGroups.ResourceGroup.Acquire | node/resources/group.go:42-48 | free permits are granted and counted as TryStep; otherwise the context error with nothing changed |
| ResourceGroups.ResourceGroup.Release | node/resources/group.go:50-56 | the state becomes ReleaseStep's; held drops by exactly n |
| ResourceGroups.ResourceGroup.TryAcquire | node/resources/group.go:58-64 | the result and new state are TryStep's |
| ResourceGroups.NewResourceGroupMap | node/resources/group.go:26-32 | for any counts, negative included: one distinct fresh group per configured name, with its count and nothing held |
| ResourceManagers.ResourceManager.constructor | node/resources/manager.go:16-21 | for any counts, negative included: a group for exactly the configured names, nothing held |
| ResourceManagers.ResourceManager.GetCount | node/resources/manager.go:23-25 | the named group's capacity; when non-negative, never below its held count, and when negative, nothing is held |
| ResourceManagers.ResourceManager.GetHeld | node/resources/manager.go:27-29 | the named group's held count: at least zero, at most a non-negative capacity, zero under a negative one |
| ResourceManagers.ResourceManager.Acquire | node/resources/manager.go:31-33 | only the named group's holding changes, as its Acquire says |
| ResourceManagers.ResourceManager.Release | node/resources/manager.go:35-37 | only the named group's holding changes, by ReleaseStep |
| ResourceManagers.ResourceManager.TryAcquire | node/resources/manager.go:39-41 | the named group changes by TryStep and no other group changes |
| NodeConnections.Survivors | orchestrator/connection-mgmt.go:99-107 | a sweep keeps exactly the nodes heard from at or after now minus the period, unchanged |
| NodeConnections.BoundarySurvives | orchestrator/connection-mgmt.go:100 | the strict Before keeps a node exactly one period old |
| NodeConnections.SweepIdempotent | orchestrator/connection-mgmt.go:99-107 | a second sweep at the same time removes nothing |
| NodeConnections.SweepMonotone | orchestrator/connection-mgmt.go:99-107 | a later sweep removes at least what an earlier one did |
| Orchestrators.Orchestrator.constructor | orchestrator/orch.go:21-24 | Run starts from an empty registry |
| Orchestrators.Orchestrator.Sweep | orchestrator/connection-mgmt.go:99-107 | deleting during the range leaves Survivors of the old registry in every map order |
| OrchestratorConnectionMgmt.DisconnectThreadStep | orchestrator/connection-mgmt.go:93-113 | a tick sweeps with the 10s period and goes on; cancellation returns with the registry untouched |
| OrchestratorConnection.DisconnectThreadStep | orchestrator/connection.go:96-113 | the same for the older thread with its DisconnectionPeriod |
| OrchestratorServer.Registered | orchestrator/oserver.go:49-54 | the entry carries the registration's name, address, port and the current time |
| OrchestratorServer.Register | orchestrator/oserver.go:33-63 | a parse error is returned; a known name is left as it was; a new one is added |
| OrchestratorServer.Ping | orchestrator/oserver.go:64-76 | a known node's last interaction becomes now and nothing else changes; an unknown one gets 404 |
| OrchestratorServer.Nodes | orchestrator/oserver.go:77-85 | the whole registry |
| OrchestratorServer.NodeUrl | orchestrator/oserver.go:96 | an http URL ending with the forwarded path |
| OrchestratorServer.ForwardReply | orchestrator/oserver.go:87-111 | 404 for an unknown node, otherwise a 307 redirect to the node's URL |
| OrchestratorServer.NodeUrlTarget | orchestrator/oserver.go:96 | the URL is "http://", the node's address, ":", a port text that parses back to the node's port and holds no "/" or ":", then "/" and the forwarded path |
| OrchestratorServer.RedirectReachesNode | orchestrator/oserver.go:87-111 | a request for a registered node is redirected to that node's own address and port, followed by the forwarded path |
| OrchestratorServer.ContactedNodeSurvives | orchestrator/oserver.go:64-68 | a node pinged within the period survives the sweep |
| Orchs.Orch.constructor | orch/orch.go:13-16 | an orchestrator on the port with an empty registry |
| Orchs.Orch.Sweep | orch/connection.go:69-74 | leaves Survivors of the old registry in every map order |
| OrchConnection.DisconnectThreadStep | orch/connection.go:63-80 | a tick sweeps with the 10s period; cancellation returns |
| OrchServer.Registered | orch/oserver.go:32-36 | the address is the path parameter when it is present and non-empty, and the caller's IP otherwise; the port stays zero |
| OrchServer.Register | orch/oserver.go:25-41 | the first registration of a name wins |
| OrchServer.Nodes | orch/oserver.go:42-50 | the whole registry |
| OrchServer.RegisteredNodeExpires | orch/oserver.go:25-41 | with no ping route, a node survives a sweep iff it registered within one period |
| Hook.UpdatesAppend | hook/hook-client.go:56-58 | only an /update post adds a body to the updates |
| Hook.HookClient.constructor | hook/hook-client.go:25-35 | stopped, nothing buffered, logged or posted |
| Hook.HookClient.Send | hook/hook-client.go:37-44 | a running client queues the body at the back; a stopped one refuses with its message |
| Hook.HookClient.Start | hook/hook-client.go:46-53 | running with a live, uncancelled loop |
| Hook.HookClient.Stop | hook/hook-client.go:77-82 | cancels only when running; afterwards not running |
| Hook.HookClient.DeliverOne | hook/hook-client.go:54-71 | a body leaves the buffer front, is logged, then posted; a tick posts a keepalive; cancellation posts /finish and ends the loop; the log stays the sent prefix |
| Hook.LogIsSentPrefix | hook/hook-client.go:56-58 | the log is the oldest part of what was sent, in order, and the buffer the rest |
| Auth.Authorize | auth/insecure.go:12-31 | passes iff the header is non-empty and its token is stored; otherwise 401 with the missing or invalid message |
| Auth.BearerHeaderToken | auth/insecure.go:22 | "Bearer "+t carries the token t |
| Auth.InnerBearerRemoved | auth/insecure.go:22 | the first "Bearer " is removed wherever it is |
| Auth.PlainHeaderToken | auth/insecure.go:22 | a header without the prefix is its own token |
| Auth.TokenStore.constructor | auth/insecure.go:10 | an empty store |
| Auth.TokenStore.AddToken | auth/insecure.go:33-35 | the store gains the token, and its bearer header then passes |
| NodeCli.NameError | node/cli.go:66-74 | refuses exactly the names outside `^[a-zA-Z][a-zA-Z0-9_.-]*$` |
| NodeCli.ShortNamesAllowed | node/cli.go:61-75 | a single letter and the default "Anon" are valid node names |
| NodeCli.FlagsError | node/cli.go:19-96 | the command fails iff cert-path is missing or a given port, data, actions or name flag is refused; the missing cert-path is reported first |
| NodeCli.OnlyCertPathRequired | node/cli.go:92-96 | cert-path alone is enough to start a node |
| NodeCli.AbsOrEmpty | node/cli.go:100-108 | an empty path stays empty, others are made absolute |
| NodeCli.NodeCommand | node/cli.go:98-119 | fails iff FlagsError; otherwise a fresh node with every field from its flag or default |
| GorchCli.NamePatternsDiffer | gorch.go:76 | gorch's name pattern is the node's plus a length of at least two; one letter passes one and fails the other |
| GorchCli.NameError | gorch.go:75-83 | refuses exactly the names outside `^[a-zA-Z][a-zA-Z0-9_.-]+$` |
| GorchCli.NodeFlagsError | gorch.go:26-84 | fails iff data is missing or a given port, data, actions or name flag is refused |
| GorchCli.OrchAddrOf | gorch.go:63-99 | as written the lookup of the undeclared "server" flag always reads empty; corrected it is the orch flag |
| GorchCli.NodeStringFlags | gorch.go:39-84 | the `node` command declares exactly the string flags data, actions, orch and name |
| GorchCli.NodeCommand | gorch.go:86-105 | fails iff NodeFlagsError; otherwise the absolute data path, the actions path, the port, the name and the orchestrator address |
| GorchCli.OrchFlagIgnored | gorch.go:63-68 | as written the orch flag has no effect on the node |
| GorchCli.OrchFlagUsed | gorch.go:63-68 | corrected, the orch flag becomes the node's orchestrator address |
| GorchCli.OrchCommand | gorch.go:111-130 | fails iff the port is >= 65536; otherwise a fresh orchestrator on the port (8322 by default) with no nodes |
| ActionCmd.MatchedEntryParts | user/action-cmd.go:46-51 | an entry matching the pattern has a key before its first "=" and a value up to the next "=" |
| ActionCmd.KeyHasNoEquals | user/action-cmd.go:14 | a key holds no "=" |
| ActionCmd.SecondEqualsCuts | user/action-cmd.go:83 | "k=v=rest" carries the value v: what follows a second "=" is lost |
| ActionCmd.FirstUnmatched | user/action-cmd.go:45-50 | the first entry the pattern rejects, all before it matching |
| ActionCmd.ValidateData | user/action-cmd.go:41-55 | no error iff every entry matches; otherwise the first unmatched entry's message |
| ActionCmd.StreamPortError | user/action-cmd.go:66-71 | refuses exactly the ports >= 65536 |
| ActionCmd.FlagDataKeys | user/action-cmd.go:81-84 | the flag data's keys are exactly the entries' keys |
| ActionCmd.FlagDataLastWins | user/action-cmd.go:81-84 | under a shared key the last entry wins |
| ActionCmd.BuildFlagData | user/action-cmd.go:81-84 | the loop builds FlagData |
| ActionCmd.CopyInto | user/action-cmd.go:100-102 | maps.Copy: the source's entries overwrite, the rest of the destination stays |
| ActionCmd.CommandError | user/action-cmd.go:27-98 | no error iff the required node flag is given, every data entry matches, the stream port is below 65536 and a named data file reads; otherwise the first failure in that order, with its message |
| ActionCmd.ActionCommand | user/action-cmd.go:16-115 | fails iff CommandError reports, with its message; otherwise the request for the given node and action, with the file's data over the flags' data, streamed iff the stream port is non-zero |
| DataCmd.CheckHeader | user/data-cmd.go:41-54 | the corrected check: accepts iff one colon with a non-empty key and value |
| DataCmd.OneColonParts | user/data-cmd.go:43-48 | "k:v" splits into k and v, trimmed |
| DataCmd.WellFormedHeaderRefused | user/data-cmd.go:49-51 | as written, every well-formed header is refused, and the corrected check accepts it |
| DataCmd.AcceptHeaderRefused | user/data-cmd.go:49-51 | "Accept: text/plain" is refused as written and accepted when corrected |
| DataCmd.AcceptedHeaderParts | user/data-cmd.go:41-54 | an accepted header gives a trimmed, non-empty key and value |
| DataCmd.Verdicts | user/data-cmd.go:42-52 | each header's verdict, by index |
| DataCmd.FirstRefused | user/data-cmd.go:42-52 | the first refused header, none before it |
| DataCmd.ValidateHeaders | user/data-cmd.go:41-54 | no error iff every header passes; otherwise the first refusal |
| DataCmd.Pairs | user/data-cmd.go:59-64 | each header's trimmed key and value |
| DataCmd.HeadersKeys | user/data-cmd.go:59-64 | the header map's keys are the pairs' keys |
| DataCmd.HeadersLastWins | user/data-cmd.go:59-64 | under a shared key the last header wins |
| DataCmd.HeadersNonEmpty | user/data-cmd.go:59-64 | no empty key or value reaches the map when none was given |
| DataCmd.BuildHeaders | user/data-cmd.go:150-156 | the loop builds Headers |
| DataCmd.AcceptedPairs | user/data-cmd.go:41-64 | accepted headers all split and give non-empty pairs |
| DataCmd.RequestHeaders | user/data-cmd.go:133-156 | with the corrected check: fails iff some header is refused; otherwise the header map, with no empty key or value |

## Left out

- The HTTP, TLS and fiber plumbing is not modelled: listening, certificates, JSON encoding of replies, `GET /` and `GET /data`. Only the handlers' decisions are.
- `register`, `ping` and `disconnect` (node/request code), `RequestAction`, `RunAction`/`StreamAction` of the user client, and all HTTP posts are inputs: their outcome is a parameter.
- Actions themselves are not modelled: `Action.Run`, `RunStreamed`, `loadActions` and ad hoc action decoding. Their results are parameters.
- node/monitor.go, hook/hook-listener.go, node/resources/request.go and `ResourceManager.UnmarshalYAML`/`UnmarshalJSON` are not part of this model. The manager's decoders assign to fields the manager does not have.
- `TryAcquireRequest` and `ReleaseHandle`, which node/node.go:90-107 calls, are not defined in the modelled files. The admission they give is a parameter, and each handle's release is tracked.
- Reading files, `os.ReadDir`, `os.Stat`, `filepath.Abs` and JSON decoding are parameters. The data-loading goroutines are modelled one after another: the data map is written without a lock in Go, and the model takes the entries in index order.
- Logging and `SetupLogging` are not modelled. The log file stays "".
- `node.Run`'s goroutines (monitor, server, state thread) and the wait group are not modelled. Each thread is a class whose `Tick` is one wake-up, and cancellation is a method.
- Timers are not modelled; `NodeStateThread` keeps the ticker period as a field.
- user/client-ops.go, user/cli.go, user/info-cmd.go and orchestrator/cli.go are not part of this model. Neither is the printing of responses in the `data` and `list` commands.
- The node command's `host` flag is read by nothing and is not modelled.
- The urfave/cli ordering is an assumption of the model: the required-flag check comes first, then the flag actions of the flags actually given, in declaration order.
- `Orchestrator`: orchestrator/orch.go:15-19 declares no `CertPath`, but orchestrator/oserver.go:113 reads one. The class carries it as the server reads it.
- `GorchCli.NodeCommand` returns a record of the fields `gorch node` sets (its node type has a `Port` field), not a `Node` of the current node package.
- `Hook.HookClient.Start` requires that no delivery loop is running. A second Start in Go starts a second goroutine that competes for the same channel.
- `Hook.HookClient.Send` requires room in the buffer when running. A full channel blocks the caller in Go.
- `Hook.HookClient.DeliverOne`: failed posts are only printed in Go and are not modelled.
- `ResourceGroups.ResourceGroup.Acquire` requires free permits or a cancelled context. A blocked caller waiting for another goroutine's release cannot be expressed sequentially.
- `ResourceGroups.ResourceGroup.Release` requires n not to exceed what is held, because the semaphore panics otherwise. Within this bound, the clamp at zero never fires.
- `ResourceManagers.ResourceManager`: every operation requires a configured name, because an unknown name dereferences a nil group.
- `ResourceBases.ResourceBase.UnmarshalJSON` states only that some entry of the object stays, because Go's map order picks which.
- `NodeServer.ParseSpec`: the text of an invalid-stream-port error leaves out the `%+v` rendering of the body, because Go's map formatting is not modelled.
- A 32-bit `int` is not modelled: `strconv.Atoi` is taken at 64 bits.
- Strconv.Atoi: a digit prefix that already overflows int64 and is followed by a non-digit is a RangeError in Go (which stops at the overflow) but a SyntaxError in the model.
- ResourceGroups.ResourceGroup.Acquire, Release and TryAcquire (and the manager's): the permit count n is a `nat`; a negative int64 n, which the semaphore accepts and which moves its count the other way, is not modelled.

## Findings

| source | as written | input that shows it | evidently intended | confidence | as-written member | corrected member |
|---|---|---|---|---|---|---|
| user/data-cmd.go:49-51 (and 141-143) | the header validator refuses a header when its key AND value are both non-empty | `--header "Accept: text/plain"` is refused with "header keys and values should not be empty" | refuse a header when its key OR value is empty | not executed | DataCmd.AcceptHeaderRefused | DataCmd.RequestHeaders |
| gorch.go:99 | the node's orchestrator address is read from a flag named "server", which the command does not declare | `gorch node --data d --orch host:8322` starts a node with an empty orchestrator address | read the declared "orch" flag | not executed | GorchCli.OrchFlagIgnored | GorchCli.OrchFlagUsed |
