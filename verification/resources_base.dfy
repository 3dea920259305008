/** The YAML and JSON decoders of a single resource (node/resources/base.go):
    both walk a mapping and overwrite (Name, count) once per entry. */
module ResourceBases {
  import opened Wrappers
  import opened Strconv

  /** The kinds of a yaml.v3 node. */
  datatype Kind = DocumentNode | SequenceNode | MappingNode | ScalarNode | AliasNode

  /** A parsed YAML node: a mapping's content alternates key and value nodes. */
  datatype YamlNode = YamlNode(kind: Kind, value: string, content: seq<YamlNode>)

  /** The two fields of a ResourceBase. */
  datatype Fields = Fields(name: string, count: int)

  datatype DecodeError =
    | NotMapping(got: Kind)   // "Expected a map of names to counts, got %v"
    | BadCount(err: NumError) // the error strconv.Atoi returned

  /** The key of pair k of a mapping's content. */
  function Key(content: seq<YamlNode>, k: nat): string
    requires 2 * k + 1 < |content|
  {
    content[2 * k].value
  }

  /** The count text of pair k. */
  function CountText(content: seq<YamlNode>, k: nat): string
    requires 2 * k + 1 < |content|
  {
    content[2 * k + 1].value
  }

  predicate CountParses(content: seq<YamlNode>, k: nat)
    requires 2 * k + 1 < |content|
  {
    Atoi(CountText(content, k)).Ok?
  }

  /** The loop of UnmarshalYAML from some pair on: each pair first sets the
      name, then the count if the count text parses; the first count that
      does not parse stops the loop with its error. */
  function DecodePairs(f: Fields, content: seq<YamlNode>): (r: (Fields, Option<NumError>))
    requires |content| % 2 == 0
    decreases |content|
  {
    if |content| == 0 then (f, None)
    else
      var named := f.(name := content[0].value);
      match Atoi(content[1].value)
      case Err(e) => (named, Some(e))
      case Ok(c) => DecodePairs(named.(count := c), content[2..])
  }

  /** Dropping the first pair of an even tail leaves an even tail. */
  lemma PairsStep(content: seq<YamlNode>, i: nat)
    requires i + 2 <= |content| && |content[i..]| % 2 == 0
    ensures |content[i + 2..]| % 2 == 0 && content[i..][2..] == content[i + 2..]
  {
  }

  /** What UnmarshalYAML leaves in the fields, and the error it returns. */
  function DecodeYaml(f: Fields, node: YamlNode): (r: (Fields, Option<DecodeError>))
    requires node.kind == MappingNode ==> |node.content| % 2 == 0
    ensures node.kind != MappingNode ==> r.0 == f && r.1 == Some(NotMapping(node.kind))
    ensures node.kind == MappingNode && |node.content| == 0 ==> r == (f, None)
  {
    if node.kind != MappingNode then (f, Some(NotMapping(node.kind)))
    else
      var d := DecodePairs(f, node.content);
      (d.0, if d.1.None? then None else Some(BadCount(d.1.value)))
  }

  /** When every count of the n pairs parses, decoding succeeds and the
      fields hold the last pair: its key and its count. */
  lemma {:induction false} LastPairWins(f: Fields, content: seq<YamlNode>, n: nat)
    requires |content| == 2 * n && n > 0
    requires forall k :: 0 <= k < n ==> CountParses(content, k)
    ensures DecodePairs(f, content).1.None?
    ensures CountParses(content, n - 1)
    ensures DecodePairs(f, content).0 == Fields(Key(content, n - 1), Atoi(CountText(content, n - 1)).value)
    decreases n
  {
    assert CountParses(content, 0);
    var c := Atoi(content[1].value).value;
    var rest := content[2..];
    if n > 1 {
      forall k | 0 <= k < n - 1
        ensures CountParses(rest, k)
      {
        assert CountParses(content, k + 1);
      }
      LastPairWins(Fields(content[0].value, c), rest, n - 1);
      assert Key(rest, n - 2) == Key(content, n - 1);
      assert CountText(rest, n - 2) == CountText(content, n - 1);
    }
  }

  /** When pair j is the first whose count does not parse, decoding stops
      there with that error: the name has already been set to pair j's key,
      while the count is the one before it (pair j-1's, or the old one). */
  lemma {:induction false} FirstBadPairStops(f: Fields, content: seq<YamlNode>, j: nat)
    requires |content| % 2 == 0 && 2 * j + 1 < |content|
    requires forall k :: 0 <= k < j ==> CountParses(content, k)
    requires !CountParses(content, j)
    ensures j > 0 ==> CountParses(content, j - 1)
    ensures DecodePairs(f, content) ==
      (Fields(Key(content, j), if j == 0 then f.count else Atoi(CountText(content, j - 1)).value),
       Some(Atoi(CountText(content, j)).error))
    decreases j
  {
    if j > 0 {
      assert CountParses(content, 0);
      var c := Atoi(content[1].value).value;
      var rest := content[2..];
      forall k | 0 <= k < j - 1
        ensures CountParses(rest, k)
      {
        assert CountParses(content, k + 1);
      }
      assert Key(rest, j - 1) == Key(content, j);
      assert CountText(rest, j - 1) == CountText(content, j);
      FirstBadPairStops(Fields(content[0].value, c), rest, j - 1);
      if j > 1 {
        assert CountText(rest, j - 2) == CountText(content, j - 1);
      }
    }
  }

  /** Decoding n pairs fails exactly when some count does not parse. */
  lemma {:induction false} DecodeFailsIffBadCount(f: Fields, content: seq<YamlNode>, n: nat)
    requires |content| == 2 * n
    ensures DecodePairs(f, content).1.None? <==> forall k :: 0 <= k < n ==> CountParses(content, k)
    decreases n
  {
    if n > 0 {
      var rest := content[2..];
      var named := f.(name := content[0].value);
      if CountParses(content, 0) {
        var c := Atoi(content[1].value).value;
        DecodeFailsIffBadCount(named.(count := c), rest, n - 1);
        forall k | 1 <= k < n
          ensures CountParses(content, k) == CountParses(rest, k - 1)
        {
        }
        if forall k :: 0 <= k < n - 1 ==> CountParses(rest, k) {
          forall k | 0 <= k < n
            ensures CountParses(content, k)
          {
            if k > 0 {
              assert CountParses(rest, k - 1);
            }
          }
        } else {
          var k :| 0 <= k < n - 1 && !CountParses(rest, k);
          assert !CountParses(content, k + 1);
        }
      }
    }
  }

  /** The decoded resource: a public name and an unexported count. */
  class ResourceBase {
    var name: string
    var count: int

    function Current(): Fields
      reads this
    {
      Fields(name, count)
    }

    constructor (name: string, count: int)
      ensures Current() == Fields(name, count)
    {
      this.name := name;
      this.count := count;
    }

    /** UnmarshalYAML: a non-mapping node is refused untouched; a mapping is
        walked pair by pair. yaml.v3 gives every mapping an even content. */
    method UnmarshalYAML(node: YamlNode) returns (err: Option<DecodeError>)
      requires node.kind == MappingNode ==> |node.content| % 2 == 0
      modifies this
      ensures (Current(), err) == DecodeYaml(old(Current()), node)
    {
      if node.kind != MappingNode {
        return Some(NotMapping(node.kind));
      }
      var content := node.content;
      var i := 0;
      while i < |content|
        invariant 0 <= i <= |content| && |content[i..]| % 2 == 0
        invariant DecodePairs(old(Current()), content) == DecodePairs(Current(), content[i..])
        decreases |content| - i
      {
        var keyNode := content[i];
        var valueNode := content[i + 1];
        name := keyNode.value;
        var parsed := Atoi(valueNode.value);
        if parsed.Err? {
          return Some(BadCount(parsed.error));
        }
        count := parsed.value;
        PairsStep(content, i);
        i := i + 2;
      }
      err := None;
    }

    /** UnmarshalJSON on what json.Unmarshal made of the bytes: an error is
        returned as is; otherwise the object's entries are visited in Go's
        unspecified map order, each overwriting (Name, count), so the last
        one visited stays. */
    method UnmarshalJSON(parsed: Result<map<string, int>, string>) returns (err: Option<string>)
      modifies this
      ensures parsed.Err? ==> err == Some(parsed.error) && Current() == old(Current())
      ensures parsed.Ok? ==> err.None?
      ensures parsed.Ok? && parsed.value == map[] ==> Current() == old(Current())
      ensures parsed.Ok? && parsed.value != map[] ==> name in parsed.value && count == parsed.value[name]
    {
      if parsed.Err? {
        return Some(parsed.error);
      }
      var m := parsed.value;
      var rest := m.Keys;
      while rest != {}
        invariant rest <= m.Keys
        invariant rest == m.Keys ==> Current() == old(Current())
        invariant rest != m.Keys ==> name in m && count == m[name]
        decreases rest
      {
        var key :| key in rest;
        name := key;
        count := m[key];
        rest := rest - {key};
      }
      err := None;
    }
  }
}
