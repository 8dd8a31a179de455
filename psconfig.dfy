/**
 * `PSConfigParameterInfo`: the `AHCONFIGTYPE`, `AHCONFIGKEY`,
 * `AHDESIREDVALUE`, `AHCURRENTVALUE` and `AHVALUEDRIFTED` blocks of a
 * PowerShell comment-based help section, grouped by position: group `i`
 * holds the `i`-th block of each of the five keys.
 */
module PSConfigParameterInfo {
  import opened Common

  /** A documentation block `.NAME param` with its (non-null) content. */
  datatype DocBlock = DocBlock(name: string, param: Option<string>, content: string)

  /** One configuration group: the dictionary the accessors read. */
  datatype ConfigParameter = ConfigParameter(dic: seq<(string, string)>)

  const Names: seq<string> := ["AHCONFIGTYPE", "AHCONFIGKEY", "AHDESIREDVALUE", "AHCURRENTVALUE", "AHVALUEDRIFTED"]

  /** `val(key)`: the stored value, or null when the key is absent. */
  function Val(p: ConfigParameter, key: string): (r: Option<string>)
    ensures r.None? <==> !HasKey(false, p.dic, key)
    ensures r.Some? ==> r.value == p.dic[FindKey(false, p.dic, key)].1
  {
    Get(false, p.dic, key)
  }

  function ConfigType(p: ConfigParameter): Option<string> { Val(p, "AHCONFIGTYPE") }
  function ConfigKey(p: ConfigParameter): Option<string> { Val(p, "AHCONFIGKEY") }
  function DesiredValue(p: ConfigParameter): Option<string> { Val(p, "AHDESIREDVALUE") }
  function CurrentValue(p: ConfigParameter): Option<string> { Val(p, "AHCURRENTVALUE") }
  function ValueDrifted(p: ConfigParameter): Option<string> { Val(p, "AHVALUEDRIFTED") }

  /** The lookup's `docBlocks[name]`: the blocks named `name` (ignoring case), in order. */
  function Named(blocks: seq<DocBlock>, name: string): (r: seq<DocBlock>)
    ensures |r| <= |blocks|
    ensures forall b :: b in r ==> b in blocks && EqIC(b.name, name)
    decreases |blocks|
  {
    if blocks == [] then []
    else (if EqIC(blocks[0].name, name) then [blocks[0]] else []) + Named(blocks[1..], name)
  }

  /** The largest count among the keys in `names` that occur at all; none when none occurs. */
  function MaxCount(blocks: seq<DocBlock>, names: seq<string>): Option<nat>
    decreases |names|
  {
    if names == [] then None
    else
      var c := |Named(blocks, names[0])|;
      match MaxCount(blocks, names[1..])
      case None => if c == 0 then None else Some(c)
      case Some(m) => Some(if c > m then c else m)
  }

  lemma {:induction false} MaxCountIsMax(blocks: seq<DocBlock>, names: seq<string>)
    ensures MaxCount(blocks, names).None? <==> forall k :: 0 <= k < |names| ==> |Named(blocks, names[k])| == 0
    ensures MaxCount(blocks, names).Some? ==> forall k :: 0 <= k < |names| ==> |Named(blocks, names[k])| <= MaxCount(blocks, names).value
    ensures MaxCount(blocks, names).Some? ==> exists k :: 0 <= k < |names| && |Named(blocks, names[k])| == MaxCount(blocks, names).value
    decreases |names|
  {
    if names != [] {
      MaxCountIsMax(blocks, names[1..]);
      assert forall k :: 1 <= k < |names| ==> names[k] == names[1..][k - 1];
      var m := MaxCount(blocks, names[1..]);
      if m.Some? {
        var k :| 0 <= k < |names[1..]| && |Named(blocks, names[1..][k])| == m.value;
        assert names[k + 1] == names[1..][k];
      }
    }
  }

  /**
   * `numParams` as written: `Max` over the keys that occur, which throws
   * `InvalidOperationException` when none of the five keys occurs.
   */
  function GroupCountAsWritten(blocks: seq<DocBlock>): (r: Result<nat>)
    ensures r.Err? <==> MaxCount(blocks, Names).None?
  {
    match MaxCount(blocks, Names)
    case None => Err("InvalidOperationException")
    case Some(n) => Ok(n)
  }

  /** `numParams` as intended: no groups when none of the five keys occurs. */
  function GroupCount(blocks: seq<DocBlock>): (r: nat)
    ensures GroupCountAsWritten(blocks).Ok? ==> r == GroupCountAsWritten(blocks).value
    ensures GroupCountAsWritten(blocks).Err? ==> r == 0
  {
    match MaxCount(blocks, Names)
    case None => 0
    case Some(n) => n
  }

  /** The number of groups is the largest number of blocks any of the five keys has. */
  lemma GroupCountIsMax(blocks: seq<DocBlock>)
    ensures forall k :: 0 <= k < |Names| ==> |Named(blocks, Names[k])| <= GroupCount(blocks)
    ensures GroupCount(blocks) == 0 || exists k :: 0 <= k < |Names| && |Named(blocks, Names[k])| == GroupCount(blocks)
  {
    MaxCountIsMax(blocks, Names);
  }

  /** The `i`-th block's content for `name`, when there is one and it is not empty. */
  function Entry(blocks: seq<DocBlock>, name: string, i: nat): (r: Option<string>)
    ensures r.Some? <==> i < |Named(blocks, name)| && Named(blocks, name)[i].content != ""
    ensures r.Some? ==> r.value == Named(blocks, name)[i].content
  {
    var named := Named(blocks, name);
    if i < |named| && named[i].content != "" then Some(named[i].content) else None
  }

  /** The `(name, content)` pairs of group `i`, over `names` in order. */
  function Entries(blocks: seq<DocBlock>, names: seq<string>, i: nat): (r: seq<(string, string)>)
    ensures |r| <= |names|
    ensures forall j :: 0 <= j < |r| ==> r[j].0 in names
    decreases |names|
  {
    if names == [] then []
    else
      var e := Entry(blocks, names[0], i);
      (if e.Some? then [(names[0], e.value)] else []) + Entries(blocks, names[1..], i)
  }

  /** Group `i`: a dictionary of the five keys' `i`-th non-empty contents. */
  function Group(blocks: seq<DocBlock>, i: nat): ConfigParameter
  {
    ConfigParameter(Entries(blocks, Names, i))
  }

  /** The groups `FromDocumentationBlocks` yields, with the intended count. */
  function Groups(blocks: seq<DocBlock>): (r: seq<ConfigParameter>)
    ensures |r| == GroupCount(blocks)
    ensures forall i :: 0 <= i < |r| ==> r[i] == Group(blocks, i)
  {
    seq(GroupCount(blocks), i requires 0 <= i < GroupCount(blocks) => Group(blocks, i))
  }

  /**
   * `FromDocumentationBlocks` as written: the count throws when none of the
   * five keys occurs, and otherwise the loop over the group index yields
   * one group per index below it.
   */
  method FromDocumentationBlocks(blocks: seq<DocBlock>) returns (groups: Result<seq<ConfigParameter>>)
    ensures groups.Err? <==> MaxCount(blocks, Names).None?
    ensures groups.Err? ==> groups == Err("InvalidOperationException")
    ensures groups.Ok? ==> groups.value == Groups(blocks)
  {
    var numParams := GroupCountAsWritten(blocks);
    if numParams.Err? {
      return Err(numParams.error);
    }
    var gs := GroupsUpTo(blocks, numParams.value);
    groups := Ok(gs);
  }

  /** Groups `0` to `numParams - 1`, in order. */
  method GroupsUpTo(blocks: seq<DocBlock>, numParams: nat) returns (groups: seq<ConfigParameter>)
    ensures |groups| == numParams
    ensures forall k :: 0 <= k < numParams ==> groups[k] == Group(blocks, k)
  {
    groups := [];
    for i := 0 to numParams
      invariant |groups| == i
      invariant forall k :: 0 <= k < i ==> groups[k] == Group(blocks, k)
    {
      groups := groups + [Group(blocks, i)];
    }
  }

  /** A key missing from the list of names is not among the entries. */
  lemma {:induction false} EntriesFind(blocks: seq<DocBlock>, names: seq<string>, i: nat, key: string)
    requires forall a, b :: 0 <= a < b < |names| ==> names[a] != names[b]
    ensures Get(false, Entries(blocks, names, i), key) == (if key in names then Entry(blocks, key, i) else None)
    decreases |names|
  {
    if names != [] {
      var rest := Entries(blocks, names[1..], i);
      assert forall a, b :: 0 <= a < b < |names[1..]| ==> names[1..][a] != names[1..][b] by {
        forall a, b | 0 <= a < b < |names[1..]| ensures names[1..][a] != names[1..][b] {
          assert names[1..][a] == names[a + 1] && names[1..][b] == names[b + 1];
        }
      }
      EntriesFind(blocks, names[1..], i, key);
      var e := Entry(blocks, names[0], i);
      assert forall x :: x in names <==> x == names[0] || x in names[1..];
      if e.Some? {
        var d := [(names[0], e.value)] + rest;
        assert d[0].0 == names[0];
        if key != names[0] {
          assert d[1..] == rest;
          assert FindKey(false, d, key) == (if FindKey(false, rest, key) < 0 then -1 else FindKey(false, rest, key) + 1);
        }
      } else {
        assert [] + rest == rest;
      }
    }
  }

  /** Each accessor of group `i` reads the `i`-th non-empty block of its key; an absent one reads null. */
  lemma GroupAccessors(blocks: seq<DocBlock>, i: nat)
    ensures ConfigType(Group(blocks, i)) == Entry(blocks, "AHCONFIGTYPE", i)
    ensures ConfigKey(Group(blocks, i)) == Entry(blocks, "AHCONFIGKEY", i)
    ensures DesiredValue(Group(blocks, i)) == Entry(blocks, "AHDESIREDVALUE", i)
    ensures CurrentValue(Group(blocks, i)) == Entry(blocks, "AHCURRENTVALUE", i)
    ensures ValueDrifted(Group(blocks, i)) == Entry(blocks, "AHVALUEDRIFTED", i)
  {
    assert forall a, b :: 0 <= a < b < |Names| ==> Names[a] != Names[b];
    EntriesFind(blocks, Names, i, "AHCONFIGTYPE");
    EntriesFind(blocks, Names, i, "AHCONFIGKEY");
    EntriesFind(blocks, Names, i, "AHDESIREDVALUE");
    EntriesFind(blocks, Names, i, "AHCURRENTVALUE");
    EntriesFind(blocks, Names, i, "AHVALUEDRIFTED");
  }

  /** A help section with only a synopsis: as written the count throws; as intended there is no group. */
  lemma NoConfigKeysThrows()
    ensures GroupCountAsWritten([DocBlock("SYNOPSIS", None, "Deploys the site.")]).Err?
    ensures MaxCount([DocBlock("SYNOPSIS", None, "Deploys the site.")], Names).None?
    ensures Groups([DocBlock("SYNOPSIS", None, "Deploys the site.")]) == []
  {
    var blocks := [DocBlock("SYNOPSIS", None, "Deploys the site.")];
    assert !EqIC("SYNOPSIS", "AHCONFIGTYPE") by { assert UpperStr("SYNOPSIS")[0] != UpperStr("AHCONFIGTYPE")[0]; }
    assert !EqIC("SYNOPSIS", "AHCONFIGKEY") by { assert UpperStr("SYNOPSIS")[0] != UpperStr("AHCONFIGKEY")[0]; }
    assert !EqIC("SYNOPSIS", "AHDESIREDVALUE") by { assert UpperStr("SYNOPSIS")[0] != UpperStr("AHDESIREDVALUE")[0]; }
    assert !EqIC("SYNOPSIS", "AHCURRENTVALUE") by { assert UpperStr("SYNOPSIS")[0] != UpperStr("AHCURRENTVALUE")[0]; }
    assert !EqIC("SYNOPSIS", "AHVALUEDRIFTED") by { assert UpperStr("SYNOPSIS")[0] != UpperStr("AHVALUEDRIFTED")[0]; }
    forall k | 0 <= k < |Names| ensures |Named(blocks, Names[k])| == 0 {
      assert blocks[1..] == [];
    }
    MaxCountIsMax(blocks, Names);
  }
}
