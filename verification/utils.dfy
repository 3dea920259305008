/** File naming and data loading helpers of node/utils.go, with Go's
    path/filepath functions on slash-separated paths. */
module NodeUtils {
  import opened Wrappers
  import opened Json

  /** The length of p[..n] once its trailing slashes are dropped. */
  function TrimmedEnd(p: string, n: nat): (e: nat)
    requires n <= |p|
    ensures e <= n
    ensures e > 0 ==> p[e - 1] != '/'
  {
    if n > 0 && p[n - 1] == '/' then TrimmedEnd(p, n - 1) else n
  }

  /** The index of the last slash in p[..n], or -1. */
  function LastSlash(p: string, n: nat): (i: int)
    requires n <= |p|
    ensures -1 <= i < n
    ensures i >= 0 ==> p[i] == '/'
  {
    if n == 0 then -1 else if p[n - 1] == '/' then n - 1 else LastSlash(p, n - 1)
  }

  lemma {:induction false} LastSlashIsLast(p: string, n: nat)
    requires n <= |p|
    ensures forall k :: LastSlash(p, n) < k < n ==> p[k] != '/'
  {
    if n > 0 && p[n - 1] != '/' {
      LastSlashIsLast(p, n - 1);
    }
  }

  /** filepath.Base: the last element of the path, trailing slashes
      dropped; "." for the empty path and "/" for a path of slashes. */
  function Base(p: string): string
  {
    if p == "" then "."
    else
      var e := TrimmedEnd(p, |p|);
      if e == 0 then "/" else p[LastSlash(p, e) + 1..e]
  }

  /** The index of the dot that starts the extension of p[..n]: the last
      dot after the last slash, or -1. */
  function ExtStart(path: string, n: nat): (i: int)
    requires n <= |path|
    ensures -1 <= i < n
    ensures i >= 0 ==> path[i] == '.'
  {
    if n == 0 || path[n - 1] == '/' then -1
    else if path[n - 1] == '.' then n - 1
    else ExtStart(path, n - 1)
  }

  lemma {:induction false} ExtStartIsLast(path: string, n: nat)
    requires n <= |path|
    ensures ExtStart(path, n) >= 0 ==> forall k :: ExtStart(path, n) < k < n ==> path[k] != '.' && path[k] != '/'
    ensures ExtStart(path, n) == -1 ==> forall k :: LastSlash(path, n) < k < n ==> path[k] != '.'
  {
    if n > 0 && path[n - 1] != '/' && path[n - 1] != '.' {
      ExtStartIsLast(path, n - 1);
    }
  }

  /** filepath.Ext: the suffix from the last dot of the final element, or
      "" when that element has no dot. */
  function Ext(path: string): string
  {
    var i := ExtStart(path, |path|);
    if i < 0 then "" else path[i..]
  }

  /** Base yields one element: "/" or a non-empty name without slashes. */
  lemma BaseShape(p: string)
    ensures |Base(p)| > 0
    ensures Base(p) == "/" || '/' !in Base(p)
  {
    if p != "" {
      var e := TrimmedEnd(p, |p|);
      if e > 0 {
        var i := LastSlash(p, e);
        assert i < e - 1;
        LastSlashIsLast(p, e);
        var b := p[i + 1..e];
        assert forall k :: 0 <= k < |b| ==> b[k] == p[i + 1 + k];
      }
    }
  }

  /** A non-empty name without slashes is its own base. */
  lemma BaseOfName(p: string)
    requires '/' !in p && p != ""
    ensures Base(p) == p
  {
    assert p[|p| - 1] != '/';
    assert TrimmedEnd(p, |p|) == |p|;
    assert LastSlash(p, |p|) == -1;
    assert p[0..|p|] == p;
  }

  /** The extension holds its dot only at the front and never a slash;
      a path with no dot has no extension. */
  lemma ExtShape(path: string)
    ensures |Ext(path)| <= |path| && Ext(path) == path[|path| - |Ext(path)|..]
    ensures Ext(path) != "" ==> Ext(path)[0] == '.' && '.' !in Ext(path)[1..]
    ensures '/' !in Ext(path)
    ensures '.' !in path ==> Ext(path) == ""
  {
    ExtStartIsLast(path, |path|);
    var i := ExtStart(path, |path|);
    if i >= 0 {
      var e := path[i..];
      assert forall k :: 1 <= k < |e| ==> e[k] == path[i + k];
    }
  }

  /** strings.TrimSuffix. */
  function TrimSuffix(s: string, suffix: string): string
  {
    if |suffix| <= |s| && s[|s| - |suffix|..] == suffix then s[..|s| - |suffix|] else s
  }

  /** TrimSuffix removes the suffix when it is there, and nothing otherwise. */
  lemma TrimSuffixSplits(s: string, suffix: string)
    ensures |suffix| <= |s| && s[|s| - |suffix|..] == suffix ==> TrimSuffix(s, suffix) + suffix == s
    ensures !(|suffix| <= |s| && s[|s| - |suffix|..] == suffix) ==> TrimSuffix(s, suffix) == s
  {
  }

  /** simpleFileName: the last path element without its extension. */
  function SimpleFileName(fpath: string): string
  {
    var fn := Base(fpath);
    TrimSuffix(fn, Ext(fn))
  }

  /** The simple name followed by the extension is the last path element. */
  lemma SimpleFileNameSplits(fpath: string)
    ensures SimpleFileName(fpath) + Ext(Base(fpath)) == Base(fpath)
  {
    ExtShape(Base(fpath));
    TrimSuffixSplits(Base(fpath), Ext(Base(fpath)));
  }

  /** A data file `s.json` is keyed by `s`, whatever dots `s` holds. */
  lemma JsonFileKey(s: string)
    requires '/' !in s
    ensures Ext(s + ".json") == ".json"
    ensures SimpleFileName(s + ".json") == s
  {
    var p := s + ".json";
    assert '/' !in p by {
      assert forall i :: 0 <= i < |p| ==> p[i] == (if i < |s| then s[i] else ".json"[i - |s|]);
    }
    BaseOfName(p);
    assert p[|s|] == '.' && p[|s| + 1] == 'j' && p[|s| + 2] == 's' && p[|s| + 3] == 'o' && p[|s| + 4] == 'n';
    assert ExtStart(p, |s| + 1) == |s|;
    assert ExtStart(p, |s| + 2) == |s|;
    assert ExtStart(p, |s| + 3) == |s|;
    assert ExtStart(p, |s| + 4) == |s|;
    assert ExtStart(p, |p|) == |s|;
    assert Ext(p) == ".json";
    assert p[..|s|] == s;
  }

  /** A name with no dot in its last element is its own key. */
  lemma NoDotKeepsBase(fpath: string)
    requires '.' !in Base(fpath)
    ensures SimpleFileName(fpath) == Base(fpath)
  {
    ExtShape(Base(fpath));
  }

  /** What os.ReadDir lists. */
  datatype DirEntry = DirEntry(name: string, isDir: bool)

  /** readFiles reads only regular entries whose extension is exactly ".json". */
  predicate Eligible(e: DirEntry)
  {
    !e.isDir && Ext(e.name) == ".json"
  }

  /** What readFiles makes of one entry: skipped, stored under a key, or a
      failed read. */
  datatype Slot = Skipped | Stored(key: string, value: map<string, Json>) | Failed(error: string)

  /** The slot of an entry, given what reading and decoding it yields. */
  function SlotOf(e: DirEntry, read: Result<map<string, Json>, string>): (s: Slot)
    ensures s.Skipped? <==> !Eligible(e)
    ensures s.Failed? <==> Eligible(e) && read.Err?
    ensures s.Stored? ==> read.Ok? && s.value == read.value
  {
    if !Eligible(e) then Skipped
    else match read
      case Err(msg) => Failed(msg)
      case Ok(v) => Stored(SimpleFileName(e.name), v)
  }

  /** The slots of a listing; `loaded[i]` is what reading entry i yields. */
  function Slots(entries: seq<DirEntry>, loaded: seq<Result<map<string, Json>, string>>): (slots: seq<Slot>)
    requires |loaded| == |entries|
    ensures |slots| == |entries|
    ensures forall i :: 0 <= i < |entries| ==> slots[i] == SlotOf(entries[i], loaded[i])
  {
    seq(|entries|, i requires 0 <= i < |entries| => SlotOf(entries[i], loaded[i]))
  }

  /** The error readFiles notes for a slot. */
  function ErrorOf(s: Slot): (e: Option<string>)
    ensures e.Some? <==> s.Failed?
  {
    if s.Failed? then Some(s.error) else None
  }

  /** The lowest index from `k` on whose read failed, or -1. */
  function FirstFailed(slots: seq<Slot>, k: nat): (r: int)
    requires k <= |slots|
    ensures r == -1 || (k <= r < |slots| && slots[r].Failed?)
    ensures forall i :: k <= i < |slots| && (r == -1 || i < r) ==> !slots[i].Failed?
    decreases |slots| - k
  {
    if k == |slots| then -1
    else if slots[k].Failed? then k
    else FirstFailed(slots, k + 1)
  }

  /** The data map after the first n slots: each stored value is put under
      its key, a later one replacing an earlier. */
  function LoadedData(slots: seq<Slot>, n: nat): map<string, map<string, Json>>
    requires n <= |slots|
  {
    if n == 0 then map[] else Store(LoadedData(slots, n - 1), slots[n - 1])
  }

  /** The error noted for each of the first n slots. */
  function Errors(slots: seq<Slot>, n: nat): seq<Option<string>>
    requires n <= |slots|
  {
    if n == 0 then [] else Errors(slots, n - 1) + [ErrorOf(slots[n - 1])]
  }

  /** The error at index k is the error of slot k. */
  lemma {:induction false} ErrorsAt(slots: seq<Slot>, n: nat)
    requires n <= |slots|
    ensures |Errors(slots, n)| == n
    ensures forall k :: 0 <= k < n ==> Errors(slots, n)[k] == ErrorOf(slots[k])
  {
    if n > 0 {
      ErrorsAt(slots, n - 1);
    }
  }

  /** One step of the fold, as an equation the loop of StoreFiles uses. */
  lemma LoadedDataNext(slots: seq<Slot>, i: nat)
    requires i < |slots|
    ensures LoadedData(slots, i + 1) == Store(LoadedData(slots, i), slots[i])
  {
  }

  /** The data after one more slot: a stored file is put under its key. */
  function Store(data: map<string, map<string, Json>>, s: Slot): map<string, map<string, Json>>
  {
    if s.Stored? then data[s.key := s.value] else data
  }

  /** No stored slot after k and before n has k's key. */
  predicate LastWithKey(slots: seq<Slot>, k: nat, n: nat)
    requires k < n <= |slots| && slots[k].Stored?
  {
    forall j :: k < j < n ==> !slots[j].Stored? || slots[j].key != slots[k].key
  }

  /** Every stored slot's key is in the data map. */
  lemma {:induction false} LoadedDataHasStored(slots: seq<Slot>, n: nat)
    requires n <= |slots|
    ensures forall k :: 0 <= k < n && slots[k].Stored? ==> slots[k].key in LoadedData(slots, n)
  {
    if n > 0 {
      LoadedDataHasStored(slots, n - 1);
    }
  }

  /** Every key of the data map is the key of a stored slot. */
  lemma {:induction false} LoadedDataOnlyStored(slots: seq<Slot>, n: nat)
    requires n <= |slots|
    ensures forall key :: key in LoadedData(slots, n) ==>
      exists k :: 0 <= k < n && slots[k].Stored? && slots[k].key == key
  {
    if n > 0 {
      LoadedDataOnlyStored(slots, n - 1);
      forall key | key in LoadedData(slots, n)
        ensures exists k :: 0 <= k < n && slots[k].Stored? && slots[k].key == key
      {
        if key !in LoadedData(slots, n - 1) {
          assert slots[n - 1].Stored? && slots[n - 1].key == key;
        }
      }
    }
  }

  /** Under a key the data map holds the value of the last slot stored
      under that key. */
  lemma {:induction false} LoadedDataLastWins(slots: seq<Slot>, n: nat, k: nat)
    requires k < n <= |slots| && slots[k].Stored? && LastWithKey(slots, k, n)
    ensures slots[k].key in LoadedData(slots, n)
    ensures LoadedData(slots, n)[slots[k].key] == slots[k].value
  {
    if k < n - 1 {
      assert LastWithKey(slots, k, n - 1);
      LoadedDataLastWins(slots, n - 1, k);
    }
  }

  /** A data file `s.json` that is read is stored under `s`. */
  lemma JsonFileSlot(s: string, isDir: bool, read: Result<map<string, Json>, string>)
    requires '/' !in s && !isDir && read.Ok?
    ensures SlotOf(DirEntry(s + ".json", isDir), read) == Stored(s, read.value)
  {
    var e := DirEntry(s + ".json", isDir);
    JsonFileKey(s);
    assert Eligible(e);
  }

  /** What readFiles does with one entry: an entry that is not a JSON file
      is skipped; a failed read is noted; a loaded file is stored under its
      simple name. */
  method StoreEntry(data: map<string, map<string, Json>>, file: DirEntry, read: Result<map<string, Json>, string>,
                    ghost slot: Slot)
    returns (data': map<string, map<string, Json>>, error: Option<string>)
    requires slot == SlotOf(file, read)
    ensures error == ErrorOf(slot)
    ensures data' == Store(data, slot)
  {
    if !Eligible(file) {
      return data, None;
    } else if read.Err? {
      return data, Some(read.error);
    }
    data' := data[SimpleFileName(file.name) := read.value];
    error := None;
  }

  /** The loop of readFiles, one entry after another, with the error of
      each entry kept at its index. */
  method StoreFiles(entries: seq<DirEntry>, loaded: seq<Result<map<string, Json>, string>>)
    returns (data: map<string, map<string, Json>>, errors: seq<Option<string>>)
    requires |loaded| == |entries|
    ensures |errors| == |entries|
    ensures forall k :: 0 <= k < |entries| ==> errors[k] == ErrorOf(Slots(entries, loaded)[k])
    ensures data == LoadedData(Slots(entries, loaded), |entries|)
  {
    ghost var slots := Slots(entries, loaded);
    data := map[];
    errors := [];
    var i := 0;
    while i < |entries|
      invariant 0 <= i <= |entries| && |errors| == i
      invariant errors == Errors(slots, i)
      invariant data == LoadedData(slots, i)
    {
      var error;
      data, error := StoreEntry(data, entries[i], loaded[i], slots[i]);
      LoadedDataNext(slots, i);
      errors := errors + [error];
      i := i + 1;
    }
    ErrorsAt(slots, i);
  }

  /** The scan over the error slot of every entry: the first error, if any. */
  method FirstError(errors: seq<Option<string>>) returns (first: Option<nat>)
    ensures first.None? ==> forall k :: 0 <= k < |errors| ==> errors[k].None?
    ensures first.Some? ==> first.value < |errors| && errors[first.value].Some?
    ensures first.Some? ==> forall k :: 0 <= k < first.value ==> errors[k].None?
  {
    var j := 0;
    while j < |errors|
      invariant 0 <= j <= |errors|
      invariant forall k :: 0 <= k < j ==> errors[k].None?
    {
      if errors[j].Some? {
        return Some(j);
      }
      j := j + 1;
    }
    first := None;
  }

  /** readFiles over the listed entries; `loaded[i]` is what reading and
      decoding entry i yields. All reads finish before the errors are
      looked at, so the error returned is that of the lowest failing index,
      whichever read finished first. */
  method ReadFiles(entries: seq<DirEntry>, loaded: seq<Result<map<string, Json>, string>>)
    returns (r: Result<map<string, map<string, Json>>, string>)
    requires |loaded| == |entries|
    ensures FirstFailed(Slots(entries, loaded), 0) != -1 ==>
      r == Err(Slots(entries, loaded)[FirstFailed(Slots(entries, loaded), 0)].error)
    ensures FirstFailed(Slots(entries, loaded), 0) == -1 ==>
      r == Ok(LoadedData(Slots(entries, loaded), |entries|))
  {
    ghost var slots := Slots(entries, loaded);
    var data, errors := StoreFiles(entries, loaded);
    var first := FirstError(errors);
    if first.Some? {
      ghost var f := FirstFailed(slots, 0);
      assert errors[first.value] == ErrorOf(slots[first.value]);
      assert f != -1 && f <= first.value;
      assert errors[f] == ErrorOf(slots[f]);
      assert f == first.value;
      return Err(errors[first.value].value);
    }
    assert forall k :: 0 <= k < |entries| ==> !slots[k].Failed? by {
      forall k | 0 <= k < |entries|
        ensures !slots[k].Failed?
      {
        assert errors[k] == ErrorOf(slots[k]);
      }
    }
    r := Ok(data);
  }
}
