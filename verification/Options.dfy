/** Optional values, error-carrying results and other small things shared by the models. */
module Options {
  datatype Option<+T> = None | Some(value: T) {
    function GetOr(default: T): T {
      match this
      case Some(v) => v
      case None => default
    }
  }

  datatype Result<+T, +E> = Success(value: T) | Failure(error: E)

  type pos = n: nat | n > 0 witness 1

  function Max(a: int, b: int): int {
    if a < b then b else a
  }
}

/** Sequences in the opposite order. */
module Sequences {
  function Reversed<T>(items: seq<T>): (r: seq<T>)
    ensures |r| == |items|
    ensures forall i :: 0 <= i < |r| ==> r[i] == items[|items| - 1 - i]
  {
    seq(|items|, i requires 0 <= i < |items| => items[|items| - 1 - i])
  }

  lemma ReversedTwice<T>(items: seq<T>)
    ensures Reversed(Reversed(items)) == items
  {
    var twice := Reversed(Reversed(items));
    forall i | 0 <= i < |items| ensures twice[i] == items[i] {
      assert twice[i] == Reversed(items)[|items| - 1 - i];
    }
  }

  lemma ReversedPrefix<T>(items: seq<T>, k: nat)
    requires k <= |items|
    ensures Reversed(items[..k]) == Reversed(items)[|items| - k..]
  {
    var left, right := Reversed(items[..k]), Reversed(items)[|items| - k..];
    forall i | 0 <= i < k ensures left[i] == right[i] {
      assert left[i] == items[..k][k - 1 - i];
      assert right[i] == Reversed(items)[|items| - k + i];
    }
  }

  lemma PrefixOfLonger<T>(items: seq<T>, last: T)
    ensures (items + [last])[..|items|] == items
  {}

  lemma AddLast<T>(left: seq<T>, right: seq<T>)
    requires right != []
    ensures left + right == (left + right[..|right| - 1]) + [right[|right| - 1]]
  {}

  lemma SuffixWithLast<T>(items: seq<T>, k: nat)
    requires k < |items|
    ensures items[k..] == items[..|items| - 1][k..] + [items[|items| - 1]]
  {}
}
