/**
  Layer descriptors: what `nn.Sequential` is given by the constructor of
  ActorCriticTeacher, with the numeric contents of each layer left out.
 */
module Layers {
  import opened Wrappers
  import opened Activation

  /**
    A fully connected layer from `inFeatures` to `outFeatures`, or an activation
    entry. An activation entry carries what the name lookup returned, so its
    kind is `None` when the configured name was not recognised.
   */
  datatype Layer = Linear(inFeatures: nat, outFeatures: nat) | Act(kind: Option<ActKind>)

  /** The Linear entries of a stack, in stack order. */
  function Linears(s: seq<Layer>): (r: seq<Layer>)
    ensures |r| <= |s|
    ensures forall k :: 0 <= k < |r| ==> r[k].Linear?
  {
    if s == [] then []
    else (if s[0].Linear? then [s[0]] else []) + Linears(s[1..])
  }

  /** The number of activation entries of a stack; the rest are Linear. */
  function ActCount(s: seq<Layer>): (n: nat)
    ensures n + |Linears(s)| == |s|
  {
    if s == [] then 0
    else (if s[0].Act? then 1 else 0) + ActCount(s[1..])
  }

  /** Filtering distributes over concatenation. */
  lemma {:induction false} LinearsAppend(a: seq<Layer>, b: seq<Layer>)
    ensures Linears(a + b) == Linears(a) + Linears(b)
  {
    if a == [] {
      assert a + b == b;
    } else {
      assert (a + b)[0] == a[0];
      assert (a + b)[1..] == a[1..] + b;
      LinearsAppend(a[1..], b);
    }
  }

  /** Extending a prefix by one entry adds that entry to the filter when it is Linear. */
  lemma LinearsSnoc(s: seq<Layer>, p: nat)
    requires p < |s|
    ensures Linears(s[..p + 1]) == Linears(s[..p]) + (if s[p].Linear? then [s[p]] else [])
  {
    assert s[..p + 1] == s[..p] + [s[p]];
    LinearsAppend(s[..p], [s[p]]);
  }

  /** A prefix never holds more Linear entries than the whole stack. */
  lemma LinearsPrefix(s: seq<Layer>, p: nat)
    requires p <= |s|
    ensures |Linears(s[..p])| <= |Linears(s)|
  {
    assert s == s[..p] + s[p..];
    LinearsAppend(s[..p], s[p..]);
  }

  /**
    The stack starts and ends with a Linear, and Linear and activation entries
    alternate: an activation follows every Linear but the last, and every
    activation is followed by a Linear.
   */
  predicate Alternating(s: seq<Layer>)
  {
    |s| > 0 && s[0].Linear? && s[|s| - 1].Linear? &&
    forall i :: 0 <= i < |s| - 1 ==> (s[i].Linear? <==> s[i + 1].Act?)
  }

  /** The output width of each Linear is the input width of the next Linear. */
  predicate WidthsChain(s: seq<Layer>)
  {
    var ls := Linears(s);
    forall k :: 0 <= k < |ls| - 1 ==> ls[k].outFeatures == ls[k + 1].inFeatures
  }

  /** Position `p` of the stack holds its `k`-th Linear entry, counting from 0. */
  predicate IsKthLinear(s: seq<Layer>, p: nat, k: nat)
  {
    p < |s| && s[p].Linear? && |Linears(s[..p])| == k
  }
}
