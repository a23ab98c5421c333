/**
 The boot-time check of the subagent mount graph: it terminates on every graph and fails
 exactly when the graph has a directed cycle.
 */
module SubagentRegistry {
  import opened Options

  /** Declared agent codes and the codes each one mounts. */
  type Specs = map<string, seq<string>>

  datatype GraphError = SelfMount(code: string) | CircularMount(chain: seq<string>)

  function Elements(path: seq<string>): set<string> {
    set code | code in path
  }

  /** Declared codes not yet on the path. */
  function Unvisited(specs: Specs, path: seq<string>): set<string> {
    specs.Keys - Elements(path)
  }

  /** `_check_subagent_chain`: `path` ends in `code`. */
  function CheckChain(specs: Specs, code: string, path: seq<string>): Option<GraphError>
    requires code in path
    decreases |Unvisited(specs, path)|, if code in specs then 1 else 0, if code in specs then |specs[code]| + 1 else 0
  {
    if code !in specs then None else CheckMounts(specs, code, path, 0)
  }

  /** The mounts of `code` from position `i` on; the first error wins. */
  function CheckMounts(specs: Specs, code: string, path: seq<string>, i: nat): Option<GraphError>
    requires code in path && code in specs && i <= |specs[code]|
    decreases |Unvisited(specs, path)|, 1, |specs[code]| - i
  {
    if i == |specs[code]| then None
    else
      var mount := specs[code][i];
      if mount == code then Some(SelfMount(code))
      else if mount in path then Some(CircularMount(path + [mount]))
      else
        assert mount in specs ==> Unvisited(specs, path + [mount]) == Unvisited(specs, path) - {mount};
        assert mount !in specs ==> Unvisited(specs, path + [mount]) == Unvisited(specs, path);
        var nested := CheckChain(specs, mount, path + [mount]);
        if nested.Some? then nested else CheckMounts(specs, code, path, i + 1)
  }

  /** `_validate_subagent_graph` over the declared codes in declaration order. */
  function ValidateGraph(specs: Specs, codes: seq<string>): Option<GraphError> {
    if codes == [] then None
    else
      var first := CheckChain(specs, codes[0], [codes[0]]);
      if first.Some? then first else ValidateGraph(specs, codes[1..])
  }

  // ----- Cycles -----

  predicate Mounts(specs: Specs, code: string, mount: string) {
    code in specs && mount in specs[code]
  }

  /** Consecutive codes are mounted one in the other. */
  predicate Walk(specs: Specs, walk: seq<string>) {
    walk != [] && forall i :: 0 < i < |walk| ==> Mounts(specs, walk[i - 1], walk[i])
  }

  /** A walk of at least one step back to where it started. */
  predicate Cycle(specs: Specs, walk: seq<string>) {
    Walk(specs, walk) && |walk| >= 2 && walk[0] == walk[|walk| - 1]
  }

  ghost predicate HasCycle(specs: Specs) {
    exists walk :: Cycle(specs, walk)
  }

  // ----- An error means a cycle -----

  /** What an error reports really is in the graph. */
  predicate Witnessed(specs: Specs, error: GraphError) {
    match error
    case SelfMount(code) => Mounts(specs, code, code)
    case CircularMount(chain) =>
      && Walk(specs, chain) && |chain| >= 2
      && chain[|chain| - 1] in chain[..|chain| - 1] && chain[|chain| - 1] != chain[|chain| - 2]
  }

  lemma LongerWalk(specs: Specs, path: seq<string>, mount: string)
    requires Walk(specs, path) && Mounts(specs, path[|path| - 1], mount)
    ensures Walk(specs, path + [mount])
    ensures mount in path && mount != path[|path| - 1] ==> Witnessed(specs, CircularMount(path + [mount]))
  {
    assert (path + [mount])[..|path|] == path;
  }

  lemma {:induction false} ChainErrorIsWitnessed(specs: Specs, code: string, path: seq<string>)
    requires Walk(specs, path) && path[|path| - 1] == code
    ensures CheckChain(specs, code, path).Some? ==> Witnessed(specs, CheckChain(specs, code, path).value)
    decreases |Unvisited(specs, path)|, if code in specs then 1 else 0, if code in specs then |specs[code]| + 1 else 0
  {
    if code in specs { MountErrorIsWitnessed(specs, code, path, 0); }
  }

  lemma {:induction false} MountErrorIsWitnessed(specs: Specs, code: string, path: seq<string>, i: nat)
    requires Walk(specs, path) && path[|path| - 1] == code && code in specs && i <= |specs[code]|
    ensures CheckMounts(specs, code, path, i).Some? ==> Witnessed(specs, CheckMounts(specs, code, path, i).value)
    decreases |Unvisited(specs, path)|, 1, |specs[code]| - i
  {
    if i < |specs[code]| {
      var mount := specs[code][i];
      var longer := path + [mount];
      LongerWalk(specs, path, mount);
      if mount != code && mount !in path {
        assert mount in specs ==> Unvisited(specs, longer) == Unvisited(specs, path) - {mount};
        assert mount !in specs ==> Unvisited(specs, longer) == Unvisited(specs, path);
        ChainErrorIsWitnessed(specs, mount, longer);
        MountErrorIsWitnessed(specs, code, path, i + 1);
      }
    }
  }

  lemma WitnessIsCycle(specs: Specs, error: GraphError)
    requires Witnessed(specs, error)
    ensures HasCycle(specs)
  {
    match error
    case SelfMount(code) => assert Cycle(specs, [code, code]);
    case CircularMount(chain) =>
      var n := |chain| - 1;
      var i :| 0 <= i < n && chain[..n][i] == chain[n];
      var walk := chain[i..];
      forall k | 0 < k < |walk| ensures Mounts(specs, walk[k - 1], walk[k]) {
        assert Mounts(specs, chain[i + k - 1], chain[i + k]);
      }
      assert Cycle(specs, walk);
  }

  // ----- A cycle means an error -----

  /** When a chain passes, so does every chain one mount longer, and nothing repeats. */
  lemma {:induction false} PassedMount(specs: Specs, code: string, path: seq<string>, i: nat, k: nat)
    requires code in path && code in specs && i <= k < |specs[code]|
    requires CheckMounts(specs, code, path, i).None?
    ensures specs[code][k] !in path && CheckChain(specs, specs[code][k], path + [specs[code][k]]).None?
    decreases k - i
  {
    if i < k { PassedMount(specs, code, path, i + 1, k); }
  }

  lemma {:induction false} PassedWalk(specs: Specs, walk: seq<string>, n: nat)
    requires Walk(specs, walk) && 0 < n <= |walk|
    requires CheckChain(specs, walk[0], [walk[0]]).None?
    ensures CheckChain(specs, walk[n - 1], walk[..n]).None?
    ensures forall i :: 0 < i < n ==> walk[i] != walk[0]
  {
    if n == 1 {
      assert walk[..1] == [walk[0]];
    } else {
      PassedWalk(specs, walk, n - 1);
      var code, mount := walk[n - 2], walk[n - 1];
      assert Mounts(specs, code, mount);
      var k :| 0 <= k < |specs[code]| && specs[code][k] == mount;
      assert walk[..n - 1][n - 2] == code;
      PassedMount(specs, code, walk[..n - 1], 0, k);
      assert walk[..n - 1] + [mount] == walk[..n];
      assert walk[..n - 1][0] == walk[0];
    }
  }

  lemma {:induction false} ValidatedCode(specs: Specs, codes: seq<string>, code: string)
    requires ValidateGraph(specs, codes).None? && code in codes
    ensures CheckChain(specs, code, [code]).None?
  {
    if code != codes[0] { ValidatedCode(specs, codes[1..], code); }
  }

  lemma {:induction false} ValidationErrorIsWitnessed(specs: Specs, codes: seq<string>)
    ensures ValidateGraph(specs, codes).Some? ==> Witnessed(specs, ValidateGraph(specs, codes).value)
  {
    if codes != [] {
      ChainErrorIsWitnessed(specs, codes[0], [codes[0]]);
      ValidationErrorIsWitnessed(specs, codes[1..]);
    }
  }

  /** The check raises exactly when some declared code reaches itself through mounts, and
      then the chain it reports is one that repeats. */
  lemma RaisesIffCyclic(specs: Specs, codes: seq<string>)
    requires Elements(codes) == specs.Keys
    ensures ValidateGraph(specs, codes).Some? <==> HasCycle(specs)
    ensures ValidateGraph(specs, codes).Some? ==> Witnessed(specs, ValidateGraph(specs, codes).value)
  {
    ValidationErrorIsWitnessed(specs, codes);
    if ValidateGraph(specs, codes).Some? {
      WitnessIsCycle(specs, ValidateGraph(specs, codes).value);
    } else if HasCycle(specs) {
      var walk :| Cycle(specs, walk);
      assert Mounts(specs, walk[0], walk[1]);
      assert walk[0] in Elements(codes);
      ValidatedCode(specs, codes, walk[0]);
      PassedWalk(specs, walk, |walk|);
      assert false;
    }
  }
}
