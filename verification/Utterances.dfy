/**
 Short acknowledgements: the reachability loop over a canonical key agrees with
 segmentation into listed components.
 */
module Utterances {
  const NON_TOPIC_MAX_KEY_CHARS := 96

  function Concat(parts: seq<string>): string {
    if parts == [] then "" else Concat(parts[..|parts| - 1]) + parts[|parts| - 1]
  }

  predicate AllListed(parts: seq<string>, components: seq<string>) {
    forall i :: 0 <= i < |parts| ==> parts[i] in components
  }

  /** `key` is a concatenation of listed components. */
  ghost predicate Segmentable(key: string, components: seq<string>) {
    exists parts :: AllListed(parts, components) && Concat(parts) == key
  }

  /** `key[start..]` starts with `component`. */
  predicate StartsWith(key: string, component: string, start: nat) {
    start + |component| <= |key| && key[start..start + |component|] == component
  }

  lemma SegmentableExtends(key: string, components: seq<string>, start: nat, component: string)
    requires start <= |key| && Segmentable(key[..start], components)
    requires component in components && StartsWith(key, component, start)
    ensures Segmentable(key[..start + |component|], components)
  {
    var parts :| AllListed(parts, components) && Concat(parts) == key[..start];
    assert (parts + [component])[..|parts|] == parts;
    assert AllListed(parts + [component], components);
    assert Concat(parts + [component]) == key[..start + |component|];
  }

  /** A non-empty segmentable prefix ends in a non-empty component after a segmentable prefix. */
  lemma {:induction false} LastComponent(key: string, components: seq<string>, end: nat, parts: seq<string>)
      returns (start: nat, component: string)
    requires 0 < end <= |key|
    requires AllListed(parts, components) && Concat(parts) == key[..end]
    ensures start < end && Segmentable(key[..start], components)
    ensures component in components && StartsWith(key, component, start) && start + |component| == end
    decreases |parts|
  {
    var before, last := parts[..|parts| - 1], parts[|parts| - 1];
    if last == "" {
      start, component := LastComponent(key, components, end, before);
    } else {
      start, component := end - |last|, last;
      assert Concat(before) + last == key[..end];
      assert key[..start] == Concat(before);
      assert key[start..end] == last;
      assert AllListed(before, components);
    }
  }

  /** The positions known to be reachable once every start below `done` was expanded. */
  ghost predicate Expanded(key: string, components: seq<string>, reachable: set<int>, done: nat) {
    forall start: nat, c :: start < done && start in reachable && 0 <= c < |components|
      ==> Followed(key, components[c], start, reachable)
  }

  /** If `component` matches at `start`, its end is reachable. */
  predicate Followed(key: string, component: string, start: nat, reachable: set<int>) {
    StartsWith(key, component, start) ==> start + |component| in reachable
  }

  ghost predicate Sound(key: string, components: seq<string>, reachable: set<int>) {
    forall p :: p in reachable ==> 0 <= p <= |key| && Segmentable(key[..p], components)
  }

  lemma {:induction false} Complete(key: string, components: seq<string>, reachable: set<int>, p: nat)
    requires 0 in reachable && p <= |key|
    requires Expanded(key, components, reachable, |key|)
    requires Segmentable(key[..p], components)
    ensures p in reachable
    decreases p
  {
    if p > 0 {
      var parts :| AllListed(parts, components) && Concat(parts) == key[..p];
      var start, component := LastComponent(key, components, p, parts);
      Complete(key, components, reachable, start);
      var c :| 0 <= c < |components| && components[c] == component;
      assert Followed(key, components[c], start, reachable);
    }
  }

  lemma EmptyIsSegmentable(components: seq<string>)
    ensures Segmentable("", components)
  {
    assert AllListed([], components) && Concat([]) == "";
  }

  /** The inner loop: every component that matches at `start` makes its end reachable. */
  method ExpandStart(key: string, components: seq<string>, start: nat, reachable: set<int>) returns (result: set<int>)
    requires start < |key| && start in reachable && Sound(key, components, reachable)
    ensures reachable <= result && Sound(key, components, result)
    ensures forall p :: p in result && p !in reachable ==> start <= p
    ensures forall i :: 0 <= i < |components| ==> Followed(key, components[i], start, result)
  {
    result := reachable;
    for c := 0 to |components|
      invariant reachable <= result && Sound(key, components, result)
      invariant forall p :: p in result && p !in reachable ==> start <= p
      invariant forall i :: 0 <= i < c ==> Followed(key, components[i], start, result)
    {
      if StartsWith(key, components[c], start) {
        SegmentableExtends(key, components, start, components[c]);
        result := result + {start + |components[c]|};
      }
    }
  }

  /** True exactly when the canonical key is neither empty nor longer than 96 characters and
      is made of listed components only. */
  method IsNonTopicUtterance(key: string, components: seq<string>) returns (nonTopic: bool)
    ensures nonTopic <==> 0 < |key| <= NON_TOPIC_MAX_KEY_CHARS && Segmentable(key, components)
  {
    if key == "" || |key| > NON_TOPIC_MAX_KEY_CHARS {
      return false;
    }
    var reachable: set<int> := {0};
    EmptyIsSegmentable(components);
    assert key[..0] == "";
    for start := 0 to |key|
      invariant 0 in reachable && Sound(key, components, reachable)
      invariant Expanded(key, components, reachable, start)
    {
      if start in reachable {
        reachable := ExpandStart(key, components, start, reachable);
      }
    }
    assert key[..|key|] == key;
    if Segmentable(key, components) { Complete(key, components, reachable, |key|); }
    nonTopic := |key| in reachable;
  }
}
