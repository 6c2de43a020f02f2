/**
  The layer-stack builders of `ActorCriticTeacher.__init__` and the scale pairing
  of `init_weights` (rsl_rl/modules/actor_critic_teacher.py).

  The actor and the critic are built by the same loop: a Linear from the input
  width to the first hidden width, an activation, then for each hidden width a
  Linear to the next width (or to the output width for the last one), followed
  by an activation except after the last. The encoder's loop is the same except
  that no activation follows its first Linear.
 */
module Stacks {
  import opened Wrappers
  import opened Activation
  import opened Layers

  /** The widths a stack passes through: input, each hidden width, output. */
  function Widths(inDim: nat, hidden: seq<nat>, outDim: nat): seq<nat>
  {
    [inDim] + hidden + [outDim]
  }

  /** One Linear per consecutive pair of widths. */
  function Chain(d: seq<nat>): (r: seq<Layer>)
    requires |d| > 0
    ensures |r| == |d| - 1
    ensures forall i {:trigger r[i]} :: 0 <= i < |r| ==> r[i].Linear? && r[i] == Linear(d[i], d[i + 1])
  {
    if |d| == 1 then [] else [Linear(d[0], d[1])] + Chain(d[1..])
  }

  /** `xs` with `sep` placed between each two neighbours. */
  function Interleave(xs: seq<Layer>, sep: Layer): (r: seq<Layer>)
    ensures |r| == if xs == [] then 0 else 2 * |xs| - 1
    ensures forall i :: 0 <= i < |r| ==> r[i] == if i % 2 == 0 then xs[i / 2] else sep
  {
    if |xs| <= 1 then xs else [xs[0], sep] + Interleave(xs[1..], sep)
  }

  /** The actor and critic wiring: the Linear chain with an activation between each two Linears. */
  function ActivatedStack(inDim: nat, hidden: seq<nat>, outDim: nat, act: Option<ActKind>): seq<Layer>
    requires hidden != []
  {
    Interleave(Chain(Widths(inDim, hidden, outDim)), Act(act))
  }

  /** The encoder wiring: as the actor's, but with no activation after the first Linear. */
  function EncoderStack(inDim: nat, hidden: seq<nat>, outDim: nat, act: Option<ActKind>): seq<Layer>
    requires hidden != []
  {
    [Linear(inDim, hidden[0])] + Interleave(Chain(hidden + [outDim]), Act(act))
  }

  /** The actor/critic builder loop (actor_layers, critic_layers). */
  method BuildActivatedStack(inDim: nat, hidden: seq<nat>, outDim: nat, act: Option<ActKind>)
    returns (layers: seq<Layer>)
    requires hidden != []
    ensures layers == ActivatedStack(inDim, hidden, outDim, act)
  {
    ghost var d := Widths(inDim, hidden, outDim);
    layers := [Linear(inDim, hidden[0]), Act(act)];
    for l := 0 to |hidden|
      invariant |layers| == if l == |hidden| then 2 * l + 1 else 2 * l + 2
      invariant forall i :: 0 <= i < |layers| ==>
                  layers[i] == if i % 2 == 0 then Linear(d[i / 2], d[i / 2 + 1]) else Act(act)
    {
      if l == |hidden| - 1 {
        layers := layers + [Linear(hidden[l], outDim)];
      } else {
        layers := layers + [Linear(hidden[l], hidden[l + 1]), Act(act)];
      }
    }
    ghost var spec := ActivatedStack(inDim, hidden, outDim, act);
    assert |spec| == |layers|;
    assert forall i :: 0 <= i < |layers| ==> layers[i] == spec[i];
  }

  /** The encoder builder loop (encoder_layers). */
  method BuildEncoderStack(inDim: nat, hidden: seq<nat>, outDim: nat, act: Option<ActKind>)
    returns (layers: seq<Layer>)
    requires hidden != []
    ensures layers == EncoderStack(inDim, hidden, outDim, act)
  {
    ghost var e := hidden + [outDim];
    layers := [Linear(inDim, hidden[0])];
    for l := 0 to |hidden|
      invariant |layers| == if l == |hidden| then 2 * l else 2 * l + 1
      invariant layers[0] == Linear(inDim, hidden[0])
      invariant forall i :: 1 <= i < |layers| ==>
                  layers[i] == if (i - 1) % 2 == 0 then Linear(e[(i - 1) / 2], e[(i - 1) / 2 + 1]) else Act(act)
    {
      if l == |hidden| - 1 {
        layers := layers + [Linear(hidden[l], outDim)];
      } else {
        layers := layers + [Linear(hidden[l], hidden[l + 1]), Act(act)];
      }
    }
    ghost var spec := EncoderStack(inDim, hidden, outDim, act);
    assert |spec| == |layers|;
    assert forall i :: 0 <= i < |layers| ==> layers[i] == spec[i];
  }

  /** Separating Linear entries by activations keeps exactly those Linears, in order. */
  lemma {:induction false} LinearsOfInterleave(xs: seq<Layer>, a: Option<ActKind>)
    requires forall k :: 0 <= k < |xs| ==> xs[k].Linear?
    ensures Linears(Interleave(xs, Act(a))) == xs
  {
    if |xs| > 1 {
      var rest := Interleave(xs[1..], Act(a));
      LinearsOfInterleave(xs[1..], a);
      LinearsAppend([xs[0], Act(a)], rest);
      assert Linears([xs[0], Act(a)]) == [xs[0]];
      assert [xs[0]] + xs[1..] == xs;
    }
  }

  /**
    A stack whose Linear entries are the chain over widths `d` has |d| - 1 of
    them, starting at `d`'s first width and ending at its last, each feeding
    the next.
   */
  lemma ChainedStack(s: seq<Layer>, d: seq<nat>)
    requires |d| >= 2 && Linears(s) == Chain(d)
    ensures |Linears(s)| == |d| - 1
    ensures Linears(s)[0].inFeatures == d[0]
    ensures Linears(s)[|d| - 2].outFeatures == d[|d| - 1]
    ensures WidthsChain(s)
  {
  }

  /**
    Separating at least one Linear by activations of one kind gives a stack
    that alternates and holds no other activation.
   */
  lemma {:induction false} InterleaveAlternates(xs: seq<Layer>, a: Option<ActKind>)
    requires |xs| >= 1
    requires forall k :: 0 <= k < |xs| ==> xs[k].Linear?
    ensures Alternating(Interleave(xs, Act(a)))
    ensures forall e :: e in Interleave(xs, Act(a)) && e.Act? ==> e == Act(a)
  {
    if |xs| > 1 {
      var rest := Interleave(xs[1..], Act(a));
      InterleaveAlternates(xs[1..], a);
      var s := [xs[0], Act(a)] + rest;
      assert Interleave(xs, Act(a)) == s;
      assert forall i :: 2 <= i < |s| ==> s[i] == rest[i - 2];
    }
  }

  /**
    The actor and critic stacks: |hidden| + 1 Linears following the widths from
    `inDim` through `hidden` to `outDim`, each feeding the next; an activation of
    the configured kind after every Linear but the last, |hidden| of them; and a
    Linear at both ends.
   */
  lemma ActivatedStackShape(inDim: nat, hidden: seq<nat>, outDim: nat, act: Option<ActKind>)
    requires hidden != []
    ensures Linears(ActivatedStack(inDim, hidden, outDim, act)) == Chain(Widths(inDim, hidden, outDim))
    ensures |Linears(ActivatedStack(inDim, hidden, outDim, act))| == |hidden| + 1
    ensures Linears(ActivatedStack(inDim, hidden, outDim, act))[0].inFeatures == inDim
    ensures Linears(ActivatedStack(inDim, hidden, outDim, act))[|hidden|].outFeatures == outDim
    ensures WidthsChain(ActivatedStack(inDim, hidden, outDim, act))
    ensures ActCount(ActivatedStack(inDim, hidden, outDim, act)) == |hidden|
    ensures Alternating(ActivatedStack(inDim, hidden, outDim, act))
    ensures forall e :: e in ActivatedStack(inDim, hidden, outDim, act) && e.Act? ==> e == Act(act)
  {
    var d := Widths(inDim, hidden, outDim);
    var s := ActivatedStack(inDim, hidden, outDim, act);
    LinearsOfInterleave(Chain(d), act);
    ChainedStack(s, d);
    InterleaveAlternates(Chain(d), act);
  }

  /**
    The encoder stack: the same |hidden| + 1 chained Linears from `inDim` to
    `outDim`, but only |hidden| - 1 activations, because its first two entries
    are both Linear; from the second entry on it alternates like the actor's,
    and so it ends with a Linear.
   */
  lemma EncoderStackShape(inDim: nat, hidden: seq<nat>, outDim: nat, act: Option<ActKind>)
    requires hidden != []
    ensures Linears(EncoderStack(inDim, hidden, outDim, act)) == Chain(Widths(inDim, hidden, outDim))
    ensures |Linears(EncoderStack(inDim, hidden, outDim, act))| == |hidden| + 1
    ensures Linears(EncoderStack(inDim, hidden, outDim, act))[0].inFeatures == inDim
    ensures Linears(EncoderStack(inDim, hidden, outDim, act))[|hidden|].outFeatures == outDim
    ensures WidthsChain(EncoderStack(inDim, hidden, outDim, act))
    ensures ActCount(EncoderStack(inDim, hidden, outDim, act)) == |hidden| - 1
    ensures EncoderStack(inDim, hidden, outDim, act)[0].Linear?
    ensures EncoderStack(inDim, hidden, outDim, act)[1].Linear?
    ensures Alternating(EncoderStack(inDim, hidden, outDim, act)[1..])
    ensures forall e :: e in EncoderStack(inDim, hidden, outDim, act) && e.Act? ==> e == Act(act)
  {
    var d := Widths(inDim, hidden, outDim);
    var e := hidden + [outDim];
    var tail := Interleave(Chain(e), Act(act));
    var s := EncoderStack(inDim, hidden, outDim, act);
    LinearsOfInterleave(Chain(e), act);
    LinearsAppend([Linear(inDim, hidden[0])], tail);
    assert d[1..] == e;
    assert Chain(d) == [Linear(inDim, hidden[0])] + Chain(e);
    ChainedStack(s, d);
    assert s[1..] == tail;
    InterleaveAlternates(Chain(e), act);
  }

  /** The encoder is the actor/critic wiring with the activation at position 1 removed. */
  lemma EncoderOmitsFirstActivation(inDim: nat, hidden: seq<nat>, outDim: nat, act: Option<ActKind>)
    requires hidden != []
    ensures ActivatedStack(inDim, hidden, outDim, act)[1] == Act(act)
    ensures EncoderStack(inDim, hidden, outDim, act) ==
            ActivatedStack(inDim, hidden, outDim, act)[..1] + ActivatedStack(inDim, hidden, outDim, act)[2..]
  {
    var d := Widths(inDim, hidden, outDim);
    var e := hidden + [outDim];
    var a := ActivatedStack(inDim, hidden, outDim, act);
    assert d[1..] == e;
    assert Chain(d) == [Linear(inDim, hidden[0])] + Chain(e);
    assert a == [Linear(inDim, hidden[0]), Act(act)] + Interleave(Chain(e), Act(act));
  }

  /** The gain given to the Linear entry at `position` of a stack. */
  datatype Gain<S> = Gain(position: nat, scale: S)

  /**
    The scale pairing of `init_weights`: walking the stack in order, the idx-th
    Linear entry (activations skipped) receives `scales[idx]`. When `scales`
    runs out before the Linears do, the lookup raises an IndexError and the
    Linears already visited keep their gains.
   */
  method InitWeights<S>(layers: seq<Layer>, scales: seq<S>) returns (gains: seq<Gain<S>>, indexError: bool)
    ensures indexError <==> |scales| < |Linears(layers)|
    ensures |gains| == if indexError then |scales| else |Linears(layers)|
    ensures forall k :: 0 <= k < |gains| ==> IsKthLinear(layers, gains[k].position, k) && gains[k].scale == scales[k]
    ensures forall j, k :: 0 <= j < k < |gains| ==> gains[j].position < gains[k].position
  {
    gains := [];
    indexError := false;
    var pos := 0;
    var idx := 0;
    while pos < |layers|
      invariant pos <= |layers|
      invariant idx == |Linears(layers[..pos])| == |gains|
      invariant idx <= |scales|
      invariant forall k :: 0 <= k < |gains| ==>
                  gains[k].position < pos && IsKthLinear(layers, gains[k].position, k) && gains[k].scale == scales[k]
      invariant forall j, k :: 0 <= j < k < |gains| ==> gains[j].position < gains[k].position
    {
      LinearsSnoc(layers, pos);
      if layers[pos].Linear? {
        if idx == |scales| {
          LinearsPrefix(layers, pos + 1);
          indexError := true;
          return;
        }
        gains := gains + [Gain(pos, scales[idx])];
        idx := idx + 1;
      }
      pos := pos + 1;
    }
    assert layers[..pos] == layers;
  }
}
