/**
 * The node-registry filter of the station-lite service: the registry's
 * nodes, in the registry's key order, with the excluded ones skipped.
 */
module StationliteMisc {
  import opened Settings

  /**
   * The pairs a generator over `names` yields: each name that is not
   * excluded, together with its entry, in the order of `names`.
   */
  function Generate(names: seq<string>, entries: map<string, NodeConfig>, exclude: seq<string>)
    : (r: seq<(string, NodeConfig)>)
    requires forall i :: 0 <= i < |names| ==> names[i] in entries
    ensures |r| <= |names|
    ensures forall i :: 0 <= i < |r| ==> r[i].0 in names && r[i].0 !in exclude
    ensures forall i :: 0 <= i < |r| ==> r[i].0 in entries && r[i].1 == entries[r[i].0]
  {
    if names == [] then []
    else
      var rest := Generate(names[1..], entries, exclude);
      if names[0] in exclude then rest else [(names[0], entries[names[0]])] + rest
  }

  /** `node_generator(exclude)` over the registry. */
  function NodeGenerator(registry: Registry, exclude: seq<string>): (r: seq<(string, NodeConfig)>)
    requires registry.Valid()
    ensures forall i :: 0 <= i < |r| ==> r[i].0 !in exclude
    ensures forall i :: 0 <= i < |r| ==> r[i].0 in registry.entries && r[i].1 == registry.entries[r[i].0]
  {
    Generate(registry.names, registry.entries, exclude)
  }

  /** Every name that is not excluded is yielded. */
  lemma {:induction false} GenerateComplete(names: seq<string>, entries: map<string, NodeConfig>,
                                            exclude: seq<string>, n: string)
    requires forall i :: 0 <= i < |names| ==> names[i] in entries
    requires n in names && n !in exclude
    ensures exists i :: 0 <= i < |Generate(names, entries, exclude)| && Generate(names, entries, exclude)[i].0 == n
  {
    var r := Generate(names, entries, exclude);
    if names[0] == n {
      assert r[0].0 == n;
    } else {
      assert n in names[1..];
      GenerateComplete(names[1..], entries, exclude, n);
      var rest := Generate(names[1..], entries, exclude);
      var i :| 0 <= i < |rest| && rest[i].0 == n;
      if names[0] in exclude {
        assert r[i].0 == n;
      } else {
        assert r[i + 1].0 == n;
      }
    }
  }

  /** `a` occurs in `names` at an earlier position than `b`. */
  predicate Before(names: seq<string>, a: string, b: string)
  {
    exists p, q :: 0 <= p < q < |names| && names[p] == a && names[q] == b
  }

  lemma BeforeTail(names: seq<string>, a: string, b: string)
    requires |names| > 0 && Before(names[1..], a, b)
    ensures Before(names, a, b)
  {
    var p, q :| 0 <= p < q < |names[1..]| && names[1..][p] == a && names[1..][q] == b;
    assert names[p + 1] == a && names[q + 1] == b;
  }

  lemma BeforeHead(names: seq<string>, b: string)
    requires |names| > 0 && b in names[1..]
    ensures Before(names, names[0], b)
  {
    var q :| 0 <= q < |names[1..]| && names[1..][q] == b;
    assert names[q + 1] == b;
  }

  /**
   * The yield order is the order of `names`: the i-th pair yielded comes
   * from an earlier position of `names` than the j-th, for i < j.
   */
  lemma {:induction false} GenerateOrdered(names: seq<string>, entries: map<string, NodeConfig>,
                                           exclude: seq<string>, i: nat, j: nat)
    requires forall k :: 0 <= k < |names| ==> names[k] in entries
    requires i < j < |Generate(names, entries, exclude)|
    ensures Before(names, Generate(names, entries, exclude)[i].0, Generate(names, entries, exclude)[j].0)
  {
    var tail := names[1..];
    var rest := Generate(tail, entries, exclude);
    if names[0] in exclude {
      assert Generate(names, entries, exclude)[i] == rest[i] && Generate(names, entries, exclude)[j] == rest[j];
      GenerateOrdered(tail, entries, exclude, i, j);
      BeforeTail(names, rest[i].0, rest[j].0);
    } else {
      assert Generate(names, entries, exclude)[j] == rest[j - 1];
      if i == 0 {
        assert Generate(names, entries, exclude)[0].0 == names[0];
        BeforeHead(names, rest[j - 1].0);
      } else {
        assert Generate(names, entries, exclude)[i] == rest[i - 1];
        GenerateOrdered(tail, entries, exclude, i - 1, j - 1);
        BeforeTail(names, rest[i - 1].0, rest[j - 1].0);
      }
    }
  }

  /**
   * Every registry node outside `exclude` is yielded, in the registry's key
   * order, and no node is yielded twice.
   */
  lemma NodeGeneratorFilters(registry: Registry, exclude: seq<string>)
    requires registry.Valid()
    ensures forall n :: n in registry.entries && n !in exclude ==>
              exists i :: 0 <= i < |NodeGenerator(registry, exclude)| && NodeGenerator(registry, exclude)[i].0 == n
    ensures forall i, j :: 0 <= i < j < |NodeGenerator(registry, exclude)| ==>
              Before(registry.names, NodeGenerator(registry, exclude)[i].0, NodeGenerator(registry, exclude)[j].0)
    ensures forall i, j :: 0 <= i < j < |NodeGenerator(registry, exclude)| ==>
              NodeGenerator(registry, exclude)[i].0 != NodeGenerator(registry, exclude)[j].0
  {
    var r := NodeGenerator(registry, exclude);
    forall n | n in registry.entries && n !in exclude
      ensures exists i :: 0 <= i < |r| && r[i].0 == n
    {
      GenerateComplete(registry.names, registry.entries, exclude, n);
    }
    forall i, j | 0 <= i < j < |r|
      ensures Before(registry.names, r[i].0, r[j].0)
      ensures r[i].0 != r[j].0
    {
      GenerateOrdered(registry.names, registry.entries, exclude, i, j);
    }
  }

  /** With the default empty `exclude`, the whole registry is yielded in key order. */
  lemma {:induction false} GenerateAll(names: seq<string>, entries: map<string, NodeConfig>)
    requires forall i :: 0 <= i < |names| ==> names[i] in entries
    ensures |Generate(names, entries, [])| == |names|
    ensures forall i :: 0 <= i < |names| ==> Generate(names, entries, [])[i] == (names[i], entries[names[i]])
  {
    if names != [] {
      GenerateAll(names[1..], entries);
    }
  }

  lemma NodeGeneratorDefault(registry: Registry)
    requires registry.Valid()
    ensures |NodeGenerator(registry, [])| == |registry.names|
    ensures forall i :: 0 <= i < |registry.names| ==>
              NodeGenerator(registry, [])[i] == (registry.names[i], registry.entries[registry.names[i]])
  {
    GenerateAll(registry.names, registry.entries);
  }
}
