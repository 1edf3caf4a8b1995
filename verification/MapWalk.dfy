/** Walking a map with string keys, in whatever order it stores them */
module MapWalk {

  /** The order visits every key, each once. */
  ghost predicate Enumerates(order: seq<string>, keys: set<string>) {
    && (forall k :: k in order <==> k in keys)
    && (forall i, j :: 0 <= i < j < |order| ==> order[i] != order[j])
  }

  lemma NotYetVisited(order: seq<string>, i: nat)
    requires i < |order| && forall i, j :: 0 <= i < j < |order| ==> order[i] != order[j]
    ensures order[i] !in order[..i] && order[..i + 1][..i] == order[..i]
    ensures
      var before, after := order[..i], order[..i + 1];
      (set k | k in after) == (set k | k in before) + {order[i]}
  {
    assert order[..i + 1] == order[..i] + [order[i]];
  }
}
