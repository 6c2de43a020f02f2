/**
  The teacher policy module (`ActorCriticTeacher` in
  rsl_rl/modules/actor_critic_teacher.py): its construction-time layer stacks
  and the lifecycle of the action distribution it stores between calls.

  Tensors are a type parameter `T` and observations a type parameter `Obs`.
  The forward passes of the networks, the sampling of the Gaussian and its
  entropy and log-density are numeric code outside this model; they enter as
  functions: `actorNet` (encoder on the privileged observations, concatenated
  with the observations, through the actor stack) and `criticNet` (the critic
  stack on the concatenated observations) are given at construction, and the
  sampler and the Gaussian formulas are arguments of the calls that use them.
 */
module Teacher {
  import opened Wrappers
  import opened Activation
  import opened Layers
  import opened Stacks

  /** The construction parameters of the module. */
  datatype Config = Config(
    numActorObs: nat,
    numCriticObs: nat,
    numActions: nat,
    numLatentEmbeddings: nat,
    numEncoderInfo: nat,
    encoderHiddenDims: seq<nat>,
    actorHiddenDims: seq<nat>,
    criticHiddenDims: seq<nat>,
    activation: string)

  /** The configuration when only the three required parameters are given. */
  function DefaultConfig(numActorObs: nat, numCriticObs: nat, numActions: nat): Config
  {
    Config(numActorObs, numCriticObs, numActions, 16, 69,
           [256, 256, 256], [256, 256, 256], [256, 256, 256], "elu")
  }

  /** The actor stack: observations plus latent embedding in, one mean per action out. */
  function ActorLayers(cfg: Config): seq<Layer>
    requires cfg.actorHiddenDims != []
  {
    ActivatedStack(cfg.numActorObs + cfg.numLatentEmbeddings, cfg.actorHiddenDims,
                   cfg.numActions, GetActivation(cfg.activation))
  }

  /** The critic stack: critic observations in, one value out. */
  function CriticLayers(cfg: Config): seq<Layer>
    requires cfg.criticHiddenDims != []
  {
    ActivatedStack(cfg.numCriticObs, cfg.criticHiddenDims, 1, GetActivation(cfg.activation))
  }

  /** The encoder stack: privileged information in, latent embedding out. */
  function EncoderLayers(cfg: Config): seq<Layer>
    requires cfg.encoderHiddenDims != []
  {
    EncoderStack(cfg.numEncoderInfo, cfg.encoderHiddenDims, cfg.numLatentEmbeddings,
                 GetActivation(cfg.activation))
  }

  /**
    The actor has one Linear more than it has hidden widths, reads
    numActorObs + numLatentEmbeddings features, produces numActions outputs,
    and has an activation after every Linear but the last.
   */
  lemma ActorLayersShape(cfg: Config)
    requires cfg.actorHiddenDims != []
    ensures |Linears(ActorLayers(cfg))| == |cfg.actorHiddenDims| + 1
    ensures Linears(ActorLayers(cfg))[0].inFeatures == cfg.numActorObs + cfg.numLatentEmbeddings
    ensures Linears(ActorLayers(cfg))[|cfg.actorHiddenDims|].outFeatures == cfg.numActions
    ensures WidthsChain(ActorLayers(cfg))
    ensures ActCount(ActorLayers(cfg)) == |cfg.actorHiddenDims|
    ensures Alternating(ActorLayers(cfg))
  {
    var inDim: nat := cfg.numActorObs + cfg.numLatentEmbeddings;
    var act := GetActivation(cfg.activation);
    assert ActorLayers(cfg) == ActivatedStack(inDim, cfg.actorHiddenDims, cfg.numActions, act);
    ActivatedStackShape(inDim, cfg.actorHiddenDims, cfg.numActions, act);
  }

  /** The critic: the same wiring, from numCriticObs features to a single value. */
  lemma CriticLayersShape(cfg: Config)
    requires cfg.criticHiddenDims != []
    ensures |Linears(CriticLayers(cfg))| == |cfg.criticHiddenDims| + 1
    ensures Linears(CriticLayers(cfg))[0].inFeatures == cfg.numCriticObs
    ensures Linears(CriticLayers(cfg))[|cfg.criticHiddenDims|].outFeatures == 1
    ensures WidthsChain(CriticLayers(cfg))
    ensures ActCount(CriticLayers(cfg)) == |cfg.criticHiddenDims|
    ensures Alternating(CriticLayers(cfg))
  {
    var act := GetActivation(cfg.activation);
    assert CriticLayers(cfg) == ActivatedStack(cfg.numCriticObs, cfg.criticHiddenDims, 1, act);
    ActivatedStackShape(cfg.numCriticObs, cfg.criticHiddenDims, 1, act);
  }

  /**
    The encoder: |encoderHiddenDims| + 1 chained Linears from numEncoderInfo to
    numLatentEmbeddings, which is exactly the latent part of the actor's input;
    one activation fewer than hidden widths, and two Linears in front.
   */
  lemma EncoderLayersShape(cfg: Config)
    requires cfg.encoderHiddenDims != [] && cfg.actorHiddenDims != []
    ensures |Linears(EncoderLayers(cfg))| == |cfg.encoderHiddenDims| + 1
    ensures Linears(EncoderLayers(cfg))[0].inFeatures == cfg.numEncoderInfo
    ensures Linears(EncoderLayers(cfg))[|cfg.encoderHiddenDims|].outFeatures == cfg.numLatentEmbeddings
    ensures Linears(ActorLayers(cfg))[0].inFeatures ==
            cfg.numActorObs + Linears(EncoderLayers(cfg))[|cfg.encoderHiddenDims|].outFeatures
    ensures WidthsChain(EncoderLayers(cfg))
    ensures ActCount(EncoderLayers(cfg)) == |cfg.encoderHiddenDims| - 1
    ensures EncoderLayers(cfg)[0].Linear? && EncoderLayers(cfg)[1].Linear?
  {
    var act := GetActivation(cfg.activation);
    assert EncoderLayers(cfg) == EncoderStack(cfg.numEncoderInfo, cfg.encoderHiddenDims, cfg.numLatentEmbeddings, act);
    EncoderStackShape(cfg.numEncoderInfo, cfg.encoderHiddenDims, cfg.numLatentEmbeddings, act);
    ActorLayersShape(cfg);
  }

  /** With the defaults, the encoder maps 69 features to 16 through six entries. */
  lemma DefaultEncoderLayers(numActorObs: nat, numCriticObs: nat, numActions: nat)
    ensures EncoderLayers(DefaultConfig(numActorObs, numCriticObs, numActions)) ==
            [Linear(69, 256), Linear(256, 256), Act(Some(Elu)),
             Linear(256, 256), Act(Some(Elu)), Linear(256, 16)]
  {
  }

  /** With the defaults, the actor maps its input to numActions through seven entries. */
  lemma DefaultActorLayers(numActorObs: nat, numCriticObs: nat, numActions: nat)
    ensures ActorLayers(DefaultConfig(numActorObs, numCriticObs, numActions)) ==
            [Linear(numActorObs + 16, 256), Act(Some(Elu)), Linear(256, 256), Act(Some(Elu)),
             Linear(256, 256), Act(Some(Elu)), Linear(256, numActions)]
  {
  }

  /** An unrecognised activation name still builds every stack; its activation entries are empty. */
  lemma UnknownActivationDegrades(cfg: Config)
    requires cfg.actorHiddenDims != [] && cfg.criticHiddenDims != [] && cfg.encoderHiddenDims != []
    requires GetActivation(cfg.activation) == None
    ensures forall e :: e in ActorLayers(cfg) && e.Act? ==> e.kind == None
    ensures forall e :: e in CriticLayers(cfg) && e.Act? ==> e.kind == None
    ensures forall e :: e in EncoderLayers(cfg) && e.Act? ==> e.kind == None
  {
  }

  /** The Gaussian the module stores: a mean and a standard deviation, kept abstract. */
  datatype Normal<T> = Normal(mean: T, stddev: T)

  class ActorCriticTeacher<Obs, T> {
    const isRecurrent: bool := false
    const isTeacher: bool := true

    const actorMlp: seq<Layer>
    const criticMlp: seq<Layer>
    const encoder: seq<Layer>

    /** The deterministic action: encoder, concatenation, actor stack. */
    const actorNet: (Obs, Obs) -> T
    /** The value estimate: concatenation, critic stack. */
    const criticNet: (Obs, Obs) -> T

    /** The learned per-action noise scale. */
    var std: T
    /** The distribution stored by the last update; `None` before the first one. */
    var distribution: Option<Normal<T>>

    constructor (cfg: Config, actorNet: (Obs, Obs) -> T, criticNet: (Obs, Obs) -> T, initStd: T)
      requires cfg.actorHiddenDims != [] && cfg.criticHiddenDims != [] && cfg.encoderHiddenDims != []
      ensures actorMlp == ActorLayers(cfg)
      ensures criticMlp == CriticLayers(cfg)
      ensures encoder == EncoderLayers(cfg)
      ensures this.actorNet == actorNet && this.criticNet == criticNet
      ensures std == initStd
      ensures !HasDistribution()
    {
      var activation := GetActivation(cfg.activation);
      var a := BuildActivatedStack(cfg.numActorObs + cfg.numLatentEmbeddings, cfg.actorHiddenDims,
                                   cfg.numActions, activation);
      var c := BuildActivatedStack(cfg.numCriticObs, cfg.criticHiddenDims, 1, activation);
      var e := BuildEncoderStack(cfg.numEncoderInfo, cfg.encoderHiddenDims, cfg.numLatentEmbeddings,
                                 activation);
      actorMlp, criticMlp, encoder := a, c, e;
      this.actorNet, this.criticNet := actorNet, criticNet;
      std := initStd;
      distribution := None;
    }

    /** Whether some update has stored a distribution. */
    predicate HasDistribution()
      reads this`distribution
    {
      distribution.Some?
    }

    /**
      Builds the Gaussian at the actor's output with the current noise and, when
      the distribution's argument check `valid` accepts it, stores it in place of
      the previous one. When the check rejects it (a non-positive scale, a NaN
      mean) the construction raises and the previous distribution, or none,
      stays; `ok` is false then.
     */
    method UpdateDistribution(obs: Obs, priv: Obs, valid: Normal<T> -> bool) returns (ok: bool)
      modifies this`distribution
      ensures ok == valid(Normal(ActInference(obs, priv), std))
      ensures distribution == if ok then Some(Normal(actorNet(obs, priv), std)) else old(distribution)
      ensures ok ==> HasDistribution() && ActionMean() == ActInference(obs, priv) && ActionStd() == std
    {
      var d := Normal(actorNet(obs, priv), std);
      ok := valid(d);
      if ok {
        distribution := Some(d);
      }
    }

    /**
      Updates the distribution, then returns a draw from it (`sample` stands for
      the random source); `None` when the update raised and nothing was drawn.
     */
    method Act(obs: Obs, priv: Obs, valid: Normal<T> -> bool, sample: Normal<T> -> T) returns (action: Option<T>)
      modifies this`distribution
      ensures action.Some? == valid(Normal(ActInference(obs, priv), std))
      ensures distribution == if action.Some? then Some(Normal(actorNet(obs, priv), std)) else old(distribution)
      ensures action.Some? ==> HasDistribution() && ActionMean() == ActInference(obs, priv) && ActionStd() == std
      ensures action.Some? ==> action.value == sample(Normal(ActInference(obs, priv), std))
    {
      var ok := UpdateDistribution(obs, priv, valid);
      if ok {
        action := Some(sample(distribution.value));
      } else {
        action := None;
      }
    }

    /**
      The deterministic action. It reads no mutable field, so it neither
      depends on nor changes the stored distribution or the noise scale.
     */
    function ActInference(obs: Obs, priv: Obs): (m: T)
      ensures m == actorNet(obs, priv)
    {
      actorNet(obs, priv)
    }

    /**
      The value estimate. It reads no mutable field, so it neither depends on
      nor changes the stored distribution or the noise scale.
     */
    function Evaluate(obs: Obs, priv: Obs): (v: T)
      ensures v == criticNet(obs, priv)
    {
      criticNet(obs, priv)
    }

    /** The mean of the stored distribution; it reads that field only. */
    function ActionMean(): (m: T)
      reads this`distribution
      requires HasDistribution()
      ensures distribution == Some(Normal(m, distribution.value.stddev))
    {
      distribution.value.mean
    }

    /** The standard deviation of the stored distribution; it reads that field only. */
    function ActionStd(): (sd: T)
      reads this`distribution
      requires HasDistribution()
      ensures distribution == Some(Normal(ActionMean(), sd))
    {
      distribution.value.stddev
    }

    /**
      The entropy of the stored distribution summed over the action dimension
      (`summedEntropy` stands for the Gaussian formula); it depends on the
      stored mean and standard deviation only.
     */
    function Entropy(summedEntropy: Normal<T> -> T): (h: T)
      reads this`distribution
      requires HasDistribution()
      ensures h == summedEntropy(Normal(ActionMean(), ActionStd()))
    {
      summedEntropy(distribution.value)
    }

    /**
      The log-density of `actions` under the stored distribution, summed over the
      action dimension (`summedLogProb` stands for the Gaussian formula); it
      depends on the stored mean and standard deviation only.
     */
    function GetActionsLogProb(actions: T, summedLogProb: (Normal<T>, T) -> T): (lp: T)
      reads this`distribution
      requires HasDistribution()
      ensures lp == summedLogProb(Normal(ActionMean(), ActionStd()), actions)
    {
      summedLogProb(distribution.value, actions)
    }

    /** The per-episode reset hook: this module keeps no recurrent state, so nothing changes. */
    method Reset()
      ensures distribution == old(distribution) && std == old(std)
    {
    }
  }
}
