/**
  Resolution of the configured activation name (`get_activation` in
  rsl_rl/modules/actor_critic_teacher.py). Every recognised name yields a
  nonlinearity; any other name yields no activation at all instead of an error.
 */
module Activation {
  import opened Wrappers

  /** The elementwise nonlinearities the constructor can place between layers. */
  datatype ActKind = Elu | Selu | Relu | LeakyRelu | Tanh | Sigmoid

  /** The canonical configuration name of each nonlinearity. */
  function NameOf(k: ActKind): string
  {
    match k
    case Elu => "elu"
    case Selu => "selu"
    case Relu => "relu"
    case LeakyRelu => "lrelu"
    case Tanh => "tanh"
    case Sigmoid => "sigmoid"
  }

  /** The one extra spelling accepted: "crelu" is served by the plain ReLU. */
  const CReluName: string := "crelu"

  /**
    A name resolves to kind `k` exactly when it is `k`'s canonical name, or it is
    "crelu" and `k` is ReLU; every other name resolves to nothing.
   */
  function GetActivation(name: string): (r: Option<ActKind>)
    ensures forall k :: r == Some(k) <==> (name == NameOf(k) || (name == CReluName && k == Relu))
    ensures r == None <==> (forall k :: name != NameOf(k)) && name != CReluName
  {
    if name == "elu" then Some(Elu)
    else if name == "selu" then Some(Selu)
    else if name == "relu" then Some(Relu)
    else if name == CReluName then Some(Relu)
    else if name == "lrelu" then Some(LeakyRelu)
    else if name == "tanh" then Some(Tanh)
    else if name == "sigmoid" then Some(Sigmoid)
    else None
  }

  /** Looking up a kind's canonical name gives that kind back. */
  lemma NameRoundTrip(k: ActKind)
    ensures GetActivation(NameOf(k)) == Some(k)
  {
  }

  /** "crelu" and "relu" resolve to the same nonlinearity. */
  lemma CReluIsRelu()
    ensures GetActivation(CReluName) == GetActivation(NameOf(Relu)) == Some(Relu)
  {
  }
}
