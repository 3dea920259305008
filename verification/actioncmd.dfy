/** The `action` command of the user CLI (user/action-cmd.go): validation of
    the `key=value` data flags and of the stream port, the data map built
    from the flags and an optional JSON data file, and the choice between a
    streamed and a plain run. */
module ActionCmd {
  import opened Wrappers
  import opened Json
  import opened Strconv
  import opened GoStrings
  import opened CliFlags

  /** The character class of a value in dataRegexPattern: letters, digits
      and the punctuation it lists; no white space, backquote or tilde. */
  predicate InValueClass(c: char)
  {
    IsAlnum(c) || c in "\"'!@#$%^&*()_+-=[]{};:\\|,.<>/?"
  }

  /** `[a-zA-Z][a-zA-Z0-9]*` */
  predicate KeyText(s: string)
  {
    |s| > 0 && IsLetter(s[0]) && forall i :: 1 <= i < |s| ==> IsAlnum(s[i])
  }

  /** `[...]*` over the value class. */
  predicate ValueText(s: string)
  {
    forall i :: 0 <= i < |s| ==> InValueClass(s[i])
  }

  /** dataRegexPattern: the whole entry is a key, "=" and a value. */
  predicate MatchesDataPattern(d: string)
  {
    exists i :: 0 < i < |d| && d[i] == '=' && KeyText(d[..i]) && ValueText(d[i + 1..])
  }

  /** The key of a data entry: the text before its first "=". */
  function EntryKey(d: string): string
  {
    Split(d, '=')[0]
  }

  /** The value of a data entry: the text between its first and second "=".
      Go indexes the second piece, which panics when there is no "=". */
  function EntryValue(d: string): string
    requires |Split(d, '=')| >= 2
  {
    Split(d, '=')[1]
  }

  /** An entry the pattern accepts has a key, the key is its text before the
      first "=", and its value is the text after it up to the next "=". */
  lemma MatchedEntryParts(d: string)
    requires MatchesDataPattern(d)
    ensures |Split(d, '=')| >= 2
    ensures KeyText(EntryKey(d))
    ensures |EntryKey(d)| < |d| && d[|EntryKey(d)|] == '='
    ensures d == EntryKey(d) + "=" + d[|EntryKey(d)| + 1..]
    ensures EntryValue(d) == Split(d[|EntryKey(d)| + 1..], '=')[0]
  {
    var i :| 0 < i < |d| && d[i] == '=' && KeyText(d[..i]) && ValueText(d[i + 1..]);
    KeyHasNoEquals(d[..i]);
    SplitAtIndex(d, '=', i);
    assert EntryKey(d) == d[..i];
    CutAt(d, i);
    assert [d[i]] == "=";
  }

  /** A key is letters and digits only. */
  lemma KeyHasNoEquals(k: string)
    requires KeyText(k)
    ensures '=' !in k
  {
    forall j | 0 <= j < |k|
      ensures k[j] != '='
    {
      if j > 0 {
        assert IsAlnum(k[j]);
      }
    }
  }

  /** "a=b=c" carries the value "b": whatever follows a second "=" is lost. */
  lemma SecondEqualsCuts(k: string, v: string, rest: string)
    requires '=' !in k && '=' !in v
    ensures EntryKey(k + "=" + v + "=" + rest) == k
    ensures |Split(k + "=" + v + "=" + rest, '=')| >= 2
    ensures EntryValue(k + "=" + v + "=" + rest) == v
  {
    SplitAt(v, '=', rest);
    assert k + "=" + v + "=" + rest == k + ['='] + (v + ['='] + rest);
    SplitAt(k, '=', v + "=" + rest);
  }

  /** The error the data flag's validator gives for an entry. */
  function FormatError(d: string): string
  {
    "data " + d + " is not in key=value format"
  }

  /** The first entry from `k` on that the pattern rejects, or -1. */
  function FirstUnmatched(v: seq<string>, k: nat): (r: int)
    requires k <= |v|
    ensures r == -1 || (k <= r < |v| && !MatchesDataPattern(v[r]))
    ensures forall i :: k <= i < |v| && (r == -1 || i < r) ==> MatchesDataPattern(v[i])
    decreases |v| - k
  {
    if k == |v| then -1
    else if !MatchesDataPattern(v[k]) then k
    else FirstUnmatched(v, k + 1)
  }

  /** The data flag's validator: the first entry that does not match is
      reported; the map it builds on the way is discarded. */
  method ValidateData(v: seq<string>) returns (err: Option<string>)
    ensures err.None? <==> forall i :: 0 <= i < |v| ==> MatchesDataPattern(v[i])
    ensures err.Some? ==> FirstUnmatched(v, 0) != -1 && err == Some(FormatError(v[FirstUnmatched(v, 0)]))
  {
    var i := 0;
    while i < |v|
      invariant 0 <= i <= |v|
      invariant forall j :: 0 <= j < i ==> MatchesDataPattern(v[j])
    {
      if !MatchesDataPattern(v[i]) {
        assert FirstUnmatched(v, 0) == i;
        return Some(FormatError(v[i]));
      }
      i := i + 1;
    }
    err := None;
  }

  /** The stream-port flag's check. */
  function StreamPortError(port: int): (err: Option<string>)
    ensures err.None? <==> port < 65536
  {
    if port >= 65536 then Some("flag stream-port value " + Decimal(port) + " out of range [0-65535]") else None
  }

  /** Every entry has a value to index. */
  predicate AllSplit(v: seq<string>)
  {
    forall i :: 0 <= i < |v| ==> |Split(v[i], '=')| >= 2
  }

  /** The map the command builds from the first n data entries: each entry
      sets its key, a later entry overwriting an earlier one. */
  function FlagData(v: seq<string>, n: nat): map<string, Json>
    requires n <= |v| && AllSplit(v)
  {
    if n == 0 then map[]
    else FlagData(v, n - 1)[EntryKey(v[n - 1]) := JString(EntryValue(v[n - 1]))]
  }

  /** No entry after k and before n has k's key. */
  predicate LastWithKey(v: seq<string>, k: nat, n: nat)
    requires k < n <= |v|
  {
    forall j :: k < j < n ==> EntryKey(v[j]) != EntryKey(v[k])
  }

  /** The keys of the flag data are exactly the entries' keys. */
  lemma {:induction false} FlagDataKeys(v: seq<string>, n: nat)
    requires n <= |v| && AllSplit(v)
    ensures forall key :: key in FlagData(v, n) <==> exists k :: 0 <= k < n && EntryKey(v[k]) == key
  {
    if n > 0 {
      FlagDataKeys(v, n - 1);
      forall key | key in FlagData(v, n)
        ensures exists k :: 0 <= k < n && EntryKey(v[k]) == key
      {
        if key !in FlagData(v, n - 1) {
          assert EntryKey(v[n - 1]) == key;
        }
      }
    }
  }

  /** Under each key the flag data holds the value of the last entry with
      that key. */
  lemma {:induction false} FlagDataLastWins(v: seq<string>, n: nat, k: nat)
    requires k < n <= |v| && AllSplit(v) && LastWithKey(v, k, n)
    ensures EntryKey(v[k]) in FlagData(v, n)
    ensures FlagData(v, n)[EntryKey(v[k])] == JString(EntryValue(v[k]))
  {
    if k < n - 1 {
      assert LastWithKey(v, k, n - 1);
      FlagDataLastWins(v, n - 1, k);
    }
  }

  /** The loop building flagData. */
  method BuildFlagData(v: seq<string>) returns (flagData: map<string, Json>)
    requires AllSplit(v)
    ensures flagData == FlagData(v, |v|)
  {
    flagData := map[];
    for i := 0 to |v|
      invariant flagData == FlagData(v, i)
    {
      flagData := flagData[EntryKey(v[i]) := JString(EntryValue(v[i]))];
    }
  }

  /** maps.Copy(dst, src): every entry of src is written into dst, in Go's
      map order. */
  method CopyInto(dst: map<string, Json>, src: map<string, Json>) returns (r: map<string, Json>)
    ensures r.Keys == dst.Keys + src.Keys
    ensures forall k :: k in src ==> r[k] == src[k]
    ensures forall k :: k in dst && k !in src ==> r[k] == dst[k]
  {
    r := dst;
    var rest := src.Keys;
    while rest != {}
      invariant rest <= src.Keys
      invariant r.Keys == dst.Keys + (src.Keys - rest)
      invariant forall k :: k in src.Keys - rest ==> r[k] == src[k]
      invariant forall k :: k in dst && k !in src.Keys - rest ==> r[k] == dst[k]
      decreases rest
    {
      var k :| k in rest;
      r := r[k := src[k]];
      rest := rest - {k};
    }
  }

  /** What the command asks the orchestrator for: a streamed or a plain run
      of an action on a node, with its data. */
  datatype ActionRequest =
    | StreamRequest(orchAddr: string, node: string, port: int, action: string, data: map<string, Json>)
    | RunRequest(orchAddr: string, node: string, action: string, data: map<string, Json>)

  const MissingNode: string := "Required flag \"node\" not set"

  /** Why the action command stops before sending anything, in the order
      the CLI meets it: the required node flag, then the data flag's and
      the stream-port flag's checks in declaration order, then opening and
      decoding the data file. */
  function CommandError(node: Option<string>, dataFlags: seq<string>, streamPort: int,
                        dataFile: string, readDataFile: Result<map<string, Json>, string>): (err: Option<string>)
    ensures err.None? <==>
      node.Some? && (forall i :: 0 <= i < |dataFlags| ==> MatchesDataPattern(dataFlags[i]))
      && streamPort < 65536 && (dataFile == "" || readDataFile.Ok?)
    ensures node.None? ==> err == Some(MissingNode)
    ensures node.Some? && FirstUnmatched(dataFlags, 0) != -1 ==>
      err == Some(FormatError(dataFlags[FirstUnmatched(dataFlags, 0)]))
    ensures node.Some? && FirstUnmatched(dataFlags, 0) == -1 && streamPort >= 65536 ==>
      err == StreamPortError(streamPort)
    ensures node.Some? && FirstUnmatched(dataFlags, 0) == -1 && streamPort < 65536 && dataFile != "" && readDataFile.Err? ==>
      err == Some(readDataFile.error)
  {
    if node.None? then Some(MissingNode)
    else if FirstUnmatched(dataFlags, 0) != -1 then Some(FormatError(dataFlags[FirstUnmatched(dataFlags, 0)]))
    else if streamPort >= 65536 then StreamPortError(streamPort)
    else if dataFile != "" && readDataFile.Err? then Some(readDataFile.error)
    else None
  }

  /** The action command: the required node flag and the flag validation
      first, then the data (the file's entries overriding the flags'), then
      the mode: any non-zero stream port streams. `node` is None when the
      flag is not given; `readDataFile` is what opening and decoding the
      data file yields. */
  method ActionCommand(orchAddr: string, node: Option<string>, streamPort: int, action: string, dataFlags: seq<string>,
                       dataFile: string, readDataFile: Result<map<string, Json>, string>)
    returns (r: Result<ActionRequest, string>)
    ensures r.Err? <==> CommandError(node, dataFlags, streamPort, dataFile, readDataFile).Some?
    ensures r.Err? ==> r.error == CommandError(node, dataFlags, streamPort, dataFile, readDataFile).value
    ensures r.Ok? ==> AllSplit(dataFlags)
    ensures r.Ok? ==> (r.value.StreamRequest? <==> streamPort != 0)
    ensures r.Ok? && r.value.StreamRequest? ==> r.value.port == streamPort
    ensures r.Ok? ==> r.value.orchAddr == orchAddr && r.value.node == node.value && r.value.action == action
    ensures r.Ok? ==> r.value.data == FlagData(dataFlags, |dataFlags|) + (if dataFile == "" then map[] else readDataFile.value)
  {
    if node.None? {
      return Err(MissingNode);
    }
    var err := ValidateData(dataFlags);
    if err.Some? {
      return Err(err.value);
    }
    err := StreamPortError(streamPort);
    if err.Some? {
      return Err(err.value);
    }
    forall i | 0 <= i < |dataFlags|
      ensures |Split(dataFlags[i], '=')| >= 2
    {
      MatchedEntryParts(dataFlags[i]);
    }
    var flagData := BuildFlagData(dataFlags);
    var fileData: map<string, Json> := map[];
    if dataFile != "" {
      if readDataFile.Err? {
        return Err(readDataFile.error);
      }
      fileData := readDataFile.value;
    }
    var data := CopyInto(map[], flagData);
    data := CopyInto(data, fileData);
    assert data == flagData + fileData;
    if streamPort != 0 {
      r := Ok(StreamRequest(orchAddr, node.value, streamPort, action, data));
    } else {
      r := Ok(RunRequest(orchAddr, node.value, action, data));
    }
  }
}
