/** The `data` and `list` commands of the user CLI (user/data-cmd.go): the
    validator of the `header` flag and the header map sent along with the
    request. Both commands share the same code for these. */
module DataCmd {
  import opened Wrappers
  import opened GoStrings

  const MalformedPrefix: string := "expected header to be formatted like 'key: value'. Got: "
  const EmptyPartMessage: string := "header keys and values should not be empty"

  /** The key and the value of a header: its two pieces around ':', trimmed. */
  function HeaderKey(h: string): string
  {
    TrimSpace(Split(h, ':')[0])
  }

  function HeaderValue(h: string): string
    requires |Split(h, ':')| >= 2
  {
    TrimSpace(Split(h, ':')[1])
  }

  /** The check the header flag's validator makes on one header, as written:
      it refuses a header whose key and value are BOTH non-empty. */
  function CheckHeaderAsWritten(h: string): Option<string>
  {
    if |Split(h, ':')| != 2 then Some(MalformedPrefix + h)
    else if HeaderKey(h) != "" && HeaderValue(h) != "" then Some(EmptyPartMessage)
    else None
  }

  /** The check its message describes: a header needs a non-empty key and a
      non-empty value. */
  function CheckHeader(h: string): (err: Option<string>)
    ensures err.None? <==> |Split(h, ':')| == 2 && HeaderKey(h) != "" && HeaderValue(h) != ""
  {
    if |Split(h, ':')| != 2 then Some(MalformedPrefix + h)
    else if HeaderKey(h) == "" || HeaderValue(h) == "" then Some(EmptyPartMessage)
    else None
  }

  /** A header "k:v" with one colon has key and value k and v, trimmed. */
  lemma OneColonParts(k: string, v: string)
    requires ':' !in k && ':' !in v
    ensures Split(k + ":" + v, ':') == [k, v]
    ensures HeaderKey(k + ":" + v) == TrimSpace(k) && HeaderValue(k + ":" + v) == TrimSpace(v)
  {
    SplitAt(k, ':', v);
    SplitNone(v, ':');
  }

  /** As written, the validator refuses every well-formed header: one colon,
      a key and a value that are not blank. The corrected check accepts it. */
  lemma WellFormedHeaderRefused(k: string, v: string)
    requires ':' !in k && ':' !in v && TrimSpace(k) != "" && TrimSpace(v) != ""
    ensures CheckHeaderAsWritten(k + ":" + v) == Some(EmptyPartMessage)
    ensures CheckHeader(k + ":" + v) == None
  {
    OneColonParts(k, v);
  }

  /** The header "Accept: text/plain" shows it. */
  lemma AcceptHeaderRefused()
    ensures CheckHeaderAsWritten("Accept: text/plain") == Some(EmptyPartMessage)
    ensures CheckHeader("Accept: text/plain") == None
  {
    var k, v := "Accept", " text/plain";
    assert k + ":" + v == "Accept: text/plain";
    assert !IsSpace(k[0]) && !IsSpace(v[1]);
    WellFormedHeaderRefused(k, v);
  }

  /** A header the corrected check accepts contributes a non-empty key and a
      non-empty value, each free of surrounding white space. */
  lemma AcceptedHeaderParts(h: string)
    requires CheckHeader(h).None?
    ensures |Split(h, ':')| == 2
    ensures HeaderKey(h) != "" && !IsSpace(HeaderKey(h)[0]) && !IsSpace(HeaderKey(h)[|HeaderKey(h)| - 1])
    ensures HeaderValue(h) != "" && !IsSpace(HeaderValue(h)[0]) && !IsSpace(HeaderValue(h)[|HeaderValue(h)| - 1])
  {
  }

  /** The verdict of the check as written, or of the corrected one. */
  function Verdict(h: string, asWritten: bool): Option<string>
  {
    if asWritten then CheckHeaderAsWritten(h) else CheckHeader(h)
  }

  /** The check's verdict on each header. */
  function Verdicts(v: seq<string>, asWritten: bool): (r: seq<Option<string>>)
    ensures |r| == |v|
    ensures forall i :: 0 <= i < |v| ==> r[i] == Verdict(v[i], asWritten)
  {
    seq(|v|, i requires 0 <= i < |v| => Verdict(v[i], asWritten))
  }

  /** The first refusal from k on, or -1. */
  function FirstRefused(verdicts: seq<Option<string>>, k: nat): (r: int)
    requires k <= |verdicts|
    ensures r == -1 || (k <= r < |verdicts| && verdicts[r].Some?)
    ensures forall i :: k <= i < |verdicts| && (r == -1 || i < r) ==> verdicts[i].None?
    decreases |verdicts| - k
  {
    if k == |verdicts| then -1
    else if verdicts[k].Some? then k
    else FirstRefused(verdicts, k + 1)
  }

  /** The header flag's validator: the first refused header ends the loop
      with its error. `asWritten` picks the check as written or the
      corrected one. */
  method ValidateHeaders(v: seq<string>, asWritten: bool) returns (err: Option<string>)
    ensures err.None? <==> forall i :: 0 <= i < |v| ==> Verdicts(v, asWritten)[i].None?
    ensures err.Some? ==> err == Verdicts(v, asWritten)[FirstRefused(Verdicts(v, asWritten), 0)]
  {
    ghost var verdicts := Verdicts(v, asWritten);
    for i := 0 to |v|
      invariant FirstRefused(verdicts, 0) == -1 || FirstRefused(verdicts, 0) >= i
    {
      var e := Verdict(v[i], asWritten);
      assert verdicts[i] == e;
      if e.Some? {
        return e;
      }
      assert FirstRefused(verdicts, 0) != i;
    }
    err := None;
  }

  /** Every header has a second piece to index. */
  predicate AllSplit(v: seq<string>)
  {
    forall i :: 0 <= i < |v| ==> |Split(v[i], ':')| >= 2
  }

  /** The trimmed key and value of each header. */
  function Pairs(v: seq<string>): (r: seq<(string, string)>)
    requires AllSplit(v)
    ensures |r| == |v|
    ensures forall i :: 0 <= i < |v| ==> r[i] == (HeaderKey(v[i]), HeaderValue(v[i]))
  {
    seq(|v|, i requires 0 <= i < |v| => (HeaderKey(v[i]), HeaderValue(v[i])))
  }

  /** The header map after the first n pairs: a later pair replaces an
      earlier one with the same key. */
  function Headers(pairs: seq<(string, string)>, n: nat): map<string, string>
    requires n <= |pairs|
  {
    if n == 0 then map[] else Headers(pairs, n - 1)[pairs[n - 1].0 := pairs[n - 1].1]
  }

  /** No pair after k and before n has k's key. */
  predicate LastWithKey(pairs: seq<(string, string)>, k: nat, n: nat)
    requires k < n <= |pairs|
  {
    forall j :: k < j < n ==> pairs[j].0 != pairs[k].0
  }

  /** The keys of the header map are the keys of the pairs. */
  lemma {:induction false} HeadersKeys(pairs: seq<(string, string)>, n: nat)
    requires n <= |pairs|
    ensures forall key :: key in Headers(pairs, n) <==> exists k :: 0 <= k < n && pairs[k].0 == key
  {
    if n > 0 {
      HeadersKeys(pairs, n - 1);
      forall key | key in Headers(pairs, n)
        ensures exists k :: 0 <= k < n && pairs[k].0 == key
      {
        if key !in Headers(pairs, n - 1) {
          assert pairs[n - 1].0 == key;
        }
      }
    }
  }

  /** Under each key the map holds the value of the last pair with it. */
  lemma {:induction false} HeadersLastWins(pairs: seq<(string, string)>, n: nat, k: nat)
    requires k < n <= |pairs| && LastWithKey(pairs, k, n)
    ensures pairs[k].0 in Headers(pairs, n)
    ensures Headers(pairs, n)[pairs[k].0] == pairs[k].1
  {
    if k < n - 1 {
      assert LastWithKey(pairs, k, n - 1);
      HeadersLastWins(pairs, n - 1, k);
    }
  }

  /** When no pair has an empty key or value, neither has the map. */
  lemma {:induction false} HeadersNonEmpty(pairs: seq<(string, string)>, n: nat)
    requires n <= |pairs| && forall i :: 0 <= i < |pairs| ==> pairs[i].0 != "" && pairs[i].1 != ""
    ensures forall key :: key in Headers(pairs, n) ==> key != "" && Headers(pairs, n)[key] != ""
  {
    if n > 0 {
      HeadersNonEmpty(pairs, n - 1);
    }
  }

  /** The loop of the commands' actions that builds the header map. */
  method BuildHeaders(v: seq<string>) returns (headers: map<string, string>)
    requires AllSplit(v)
    ensures headers == Headers(Pairs(v), |v|)
  {
    ghost var pairs := Pairs(v);
    headers := map[];
    for i := 0 to |v|
      invariant headers == Headers(pairs, i)
    {
      var key := HeaderKey(v[i]);
      var value := HeaderValue(v[i]);
      assert pairs[i] == (key, value);
      headers := headers[key := value];
    }
  }

  /** Headers the corrected check accepts all split, and give pairs with
      non-empty keys and values. */
  lemma AcceptedPairs(v: seq<string>)
    requires forall i :: 0 <= i < |v| ==> Verdicts(v, false)[i].None?
    ensures forall i :: 0 <= i < |v| ==> CheckHeader(v[i]).None?
    ensures AllSplit(v)
    ensures forall i :: 0 <= i < |v| ==> Pairs(v)[i].0 != "" && Pairs(v)[i].1 != ""
  {
    forall i | 0 <= i < |v|
      ensures CheckHeader(v[i]).None?
    {
      assert Verdicts(v, false)[i] == CheckHeader(v[i]);
    }
  }

  /** The header flag handling of both commands, with the corrected check:
      validation first, then the map of trimmed keys and values, none of
      them empty. */
  method RequestHeaders(v: seq<string>) returns (r: Result<map<string, string>, string>)
    ensures r.Err? <==> exists i :: 0 <= i < |v| && CheckHeader(v[i]).Some?
    ensures r.Ok? ==> AllSplit(v) && r.value == Headers(Pairs(v), |v|)
    ensures r.Ok? ==> forall key :: key in r.value ==> key != "" && r.value[key] != ""
  {
    var err := ValidateHeaders(v, false);
    if err.Some? {
      var i :| 0 <= i < |v| && Verdicts(v, false)[i].Some?;
      assert Verdicts(v, false)[i] == CheckHeader(v[i]);
      return Err(err.value);
    }
    AcceptedPairs(v);
    var headers := BuildHeaders(v);
    HeadersNonEmpty(Pairs(v), |v|);
    r := Ok(headers);
  }
}
