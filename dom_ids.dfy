/** The DOM ids the renderer gives to node circles and link lines. */
module DomIds {

  function Sanitize(c: char): char {
    if c == '(' || c == ')' then '_' else c
  }

  /** `nodeId`: the node id with every parenthesis replaced by an underscore. */
  function NodeId(id: string): (r: string)
    ensures |r| == |id|
    ensures forall i :: 0 <= i < |id| ==> r[i] == Sanitize(id[i])
    ensures '(' !in r && ')' !in r
  {
    if id == [] then [] else [Sanitize(id[0])] + NodeId(id[1..])
  }

  /** An id without parentheses is its own DOM id. */
  lemma NodeIdKeepsPlainIds(id: string)
    requires '(' !in id && ')' !in id
    ensures NodeId(id) == id
  {
    assert forall i :: 0 <= i < |id| ==> NodeId(id)[i] == id[i];
  }

  /** Sanitizing twice is sanitizing once. */
  lemma NodeIdIdempotent(id: string)
    ensures NodeId(NodeId(id)) == NodeId(id)
  {
    NodeIdKeepsPlainIds(NodeId(id));
  }

  /** Distinct node ids can share a DOM id: the replacement is not injective. */
  lemma NodeIdMerges()
    ensures "a(" != "a)" && NodeId("a(") == NodeId("a)")
  {
    assert NodeId("a(") == "a_";
    assert NodeId("a)") == "a_";
  }

  /** The DOM id of the line from `source` to `target` (the string ids). */
  function LinkIdOf(source: string, target: string): (r: string)
    ensures '(' !in r && ')' !in r
    ensures |r| == |source| + 2 + |target|
  {
    NodeId(source) + "--" + NodeId(target)
  }
}
