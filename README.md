# ActorCriticTeacher: layer stacks and stored distribution

This project models the teacher policy module of an actor-critic
reinforcement-learning agent, `ActorCriticTeacher` in
`rsl_rl/rsl_rl/modules/actor_critic_teacher.py`. The module has three
fully connected networks:

- the **actor** maps the observations plus a latent embedding to the mean of
  a Gaussian over actions;
- the **critic** maps the critic observations to one value;
- the **encoder** compresses privileged information into the latent embedding.

The model covers:

- how the constructor turns each list of hidden widths into a list of layer
  descriptors, `Linear(in, out)` or `Act(kind)`;
- how the activation name is resolved;
- how `init_weights` pairs gains with Linear layers;
- when the stored action distribution is replaced and when it is only read.

Modules:

- `Wrappers` (wrappers.dfy): `Option`.
- `Activation` (activation.dfy): `get_activation`. "crelu" is served by the
  plain ReLU, and an unknown name gives `None` instead of an error.
- `Layers` (layers.dfy): the layer descriptor, the filter of Linear entries,
  and the predicates `Alternating`, `WidthsChain` and `IsKthLinear`.
- `Stacks` (stacks.dfy): the reference definitions of the two wirings
  (`ActivatedStack`, `EncoderStack`), the builder loops proved equal to them,
  the lemmas about their shape, and the `init_weights` pairing.
- `Teacher` (teacher.dfy): the configuration with its defaults, the three
  stacks per configuration, and the class `ActorCriticTeacher`.

The class is modelled as follows:

- Its stacks are `const` fields. The constructor sets them once.
- Its `distribution` is `None` until the first update.
- `ActionMean`, `ActionStd`, `Entropy` and `GetActionsLogProb` require a stored
  distribution and read only that distribution.
- `ActInference` and `Evaluate` are functions, so they cannot change the
  stored distribution.

Tensors and observations are type parameters. The forward passes of the
networks are the function fields `actorNet` and `criticNet`, given to the
constructor. Sampling, entropy and log-density are functions passed to the
calls that use them.

The actor and the critic are built by the same loop in the source (lines
72-81 and 84-93). The model uses one method, `BuildActivatedStack`, for both.

Unlike the actor and critic loops, the encoder loop appends no activation
after its first Linear (line 97). Its first two entries are therefore both
Linear, and it has one activation fewer than the actor.
`EncoderOmitsFirstActivation` states the difference exactly.

Constructing the Gaussian checks its arguments and raises on a non-positive
scale or a NaN mean; the assignment at line 124 then does not happen. The
model passes that check in as the predicate `valid`: `UpdateDistribution`
reports whether it passed and keeps the old distribution when it did not,
and `Act` then returns `None`.

## Model

| member | source | states |
|---|---|---|
| `Activation.GetActivation` | rsl_rl/rsl_rl/modules/actor_critic_teacher.py:169-186 | a name gives kind k exactly when it is k's canonical name, or it is "crelu" and k is ReLU; every other name gives None |
| `Activation.NameRoundTrip` | rsl_rl/rsl_rl/modules/actor_critic_teacher.py:170-183 | looking up each kind's canonical name ("elu", "selu", "relu", "lrelu", "tanh", "sigmoid") gives that kind back |
| `Activation.CReluIsRelu` | rsl_rl/rsl_rl/modules/actor_critic_teacher.py:174-177 | "crelu" and "relu" give the same kind, ReLU |
| `Layers.Linears` | rsl_rl/rsl_rl/modules/actor_critic_teacher.py:134 | the filtered Linear entries are all Linear and are no more than the whole stack |
| `Layers.ActCount` | rsl_rl/rsl_rl/modules/actor_critic_teacher.py:74-80 | activations plus Linears make up the whole stack |
| `Stacks.Chain` | rsl_rl/rsl_rl/modules/actor_critic_teacher.py:73-79 | one Linear per consecutive pair of widths; the i-th goes from width i to width i+1 |
| `Stacks.Interleave` | rsl_rl/rsl_rl/modules/actor_critic_teacher.py:74-80 | the even positions hold the Linears in order and the odd positions hold the separator; the length is 2n-1 |
| `Stacks.BuildActivatedStack` | rsl_rl/rsl_rl/modules/actor_critic_teacher.py:72-93 | the actor/critic append loop yields exactly the Linear chain over input, hidden and output widths, with the activation between each two Linears |
| `Stacks.BuildEncoderStack` | rsl_rl/rsl_rl/modules/actor_critic_teacher.py:96-104 | the encoder append loop yields a first Linear from the input width, then the chain over the hidden and output widths interleaved with the activation |
| `Stacks.LinearsOfInterleave` | rsl_rl/rsl_rl/modules/actor_critic_teacher.py:74-80 | placing activations between Linears keeps exactly those Linears, in order |
| `Stacks.ChainedStack` | rsl_rl/rsl_rl/modules/actor_critic_teacher.py:73-80 | a stack whose Linears are the chain over widths d has len(d)-1 of them; the first starts at d's first width, the last ends at its last width, and each output width is the next Linear's input width |
| `Stacks.InterleaveAlternates` | rsl_rl/rsl_rl/modules/actor_critic_teacher.py:74-80 | the interleaved stack starts and ends with a Linear, alternates Linear and activation, and holds only the one activation kind |
| `Stacks.ActivatedStackShape` | rsl_rl/rsl_rl/modules/actor_critic_teacher.py:72-93 | actor/critic: len(hidden)+1 chained Linears from the input width to the output width; len(hidden) activations, one after every Linear but the last; a Linear at both ends |
| `Stacks.EncoderStackShape` | rsl_rl/rsl_rl/modules/actor_critic_teacher.py:96-104 | encoder: the same len(hidden)+1 chained Linears; only len(hidden)-1 activations; the first two entries are both Linear; alternating from the second entry, so it ends with a Linear |
| `Stacks.EncoderOmitsFirstActivation` | rsl_rl/rsl_rl/modules/actor_critic_teacher.py:96-98 | the encoder stack is the actor/critic wiring of the same widths with the activation at position 1 removed |
| `Stacks.InitWeights` | rsl_rl/rsl_rl/modules/actor_critic_teacher.py:132-134 | the k-th Linear entry, counting only Linears in stack order, gets scales[k]; activations are skipped; an IndexError happens exactly when there are fewer scales than Linears, and then the first len(scales) Linears keep their gains |
| `Teacher.ActorLayersShape` | rsl_rl/rsl_rl/modules/actor_critic_teacher.py:63-81 | the actor has len(actor_hidden_dims)+1 chained Linears from num_actor_obs + num_latent_embeddings to num_actions, and an activation after every Linear but the last |
| `Teacher.CriticLayersShape` | rsl_rl/rsl_rl/modules/actor_critic_teacher.py:65-93 | the critic has len(critic_hidden_dims)+1 chained Linears from num_critic_obs to 1, and an activation after every Linear but the last |
| `Teacher.EncoderLayersShape` | rsl_rl/rsl_rl/modules/actor_critic_teacher.py:63-104 | the encoder has len(encoder_hidden_dims)+1 chained Linears from num_encoder_info to num_latent_embeddings, which is the latent part of the actor's input; it has len(encoder_hidden_dims)-1 activations and two Linears in front |
| `Teacher.DefaultEncoderLayers` | rsl_rl/rsl_rl/modules/actor_critic_teacher.py:42-104 | with the default arguments the encoder is Linear(69,256), Linear(256,256), ELU, Linear(256,256), ELU, Linear(256,16) |
| `Teacher.DefaultActorLayers` | rsl_rl/rsl_rl/modules/actor_critic_teacher.py:42-81 | with the default arguments the actor is Linear(num_actor_obs+16,256), then ELU and Linear(256,256) twice, then ELU and Linear(256,num_actions) |
| `Teacher.UnknownActivationDegrades` | rsl_rl/rsl_rl/modules/actor_critic_teacher.py:61-104 | with an unrecognised activation name all three stacks are still built, and every activation entry in them is None |
| `Teacher.ActorCriticTeacher.constructor` | rsl_rl/rsl_rl/modules/actor_critic_teacher.py:39-106 | the three stacks are the reference wirings for the configuration; the noise scale is the initial one; no distribution is stored yet |
| `Teacher.ActorCriticTeacher.UpdateDistribution` | rsl_rl/rsl_rl/modules/actor_critic_teacher.py:117-124 | when the Gaussian at the actor's output with the current noise scale passes its argument check, it replaces the stored distribution, and afterwards action_mean is the deterministic action for the same inputs and action_std is the noise scale; when the check fails the previous distribution (or none) stays |
| `Teacher.ActorCriticTeacher.Act` | rsl_rl/rsl_rl/modules/actor_critic_teacher.py:126-128 | updates the distribution in the same way; when the update succeeded it returns a draw from the newly stored distribution, otherwise nothing and the old distribution stays |
| `Teacher.ActorCriticTeacher.Reset` | rsl_rl/rsl_rl/modules/actor_critic_teacher.py:137-138 | changes neither the stored distribution nor the noise scale |
| `Teacher.ActorCriticTeacher.ActionMean` | rsl_rl/rsl_rl/modules/actor_critic_teacher.py:143-145 | needs a stored distribution, reads only that field, and returns its mean |
| `Teacher.ActorCriticTeacher.ActionStd` | rsl_rl/rsl_rl/modules/actor_critic_teacher.py:147-149 | needs a stored distribution, reads only that field, and returns its standard deviation |
| `Teacher.ActorCriticTeacher.Entropy` | rsl_rl/rsl_rl/modules/actor_critic_teacher.py:151-153 | needs a stored distribution, reads only that field, and is the summed entropy of the Gaussian with the stored mean and standard deviation |
| `Teacher.ActorCriticTeacher.GetActionsLogProb` | rsl_rl/rsl_rl/modules/actor_critic_teacher.py:155-156 | needs a stored distribution, reads only that field, and is the summed log-density of the given actions under the Gaussian with the stored mean and standard deviation |
| `Teacher.ActorCriticTeacher.ActInference` | rsl_rl/rsl_rl/modules/actor_critic_teacher.py:158-161 | the actor's output for the inputs; it reads no mutable field, so it depends on neither the stored distribution nor the noise scale |
| `Teacher.ActorCriticTeacher.Evaluate` | rsl_rl/rsl_rl/modules/actor_critic_teacher.py:163-166 | the critic's output for the inputs; it reads no mutable field, so it depends on neither the stored distribution nor the noise scale |

## Left out

- Tensor arithmetic is left out. This covers the forward passes of `nn.Linear`, `torch.cat` and the activation functions. The networks appear only as the opaque functions `actorNet` and `criticNet`.
- The Gaussian's sampling, `log_prob`, `entropy`, `mean` and `stddev` and its argument check are left out, because they are floating-point library code; the check is the caller's predicate `valid`. `Entropy` and `GetActionsLogProb` apply a formula that the caller passes in. The stored distribution is an abstract (mean, stddev) record.
- The broadcast `mean*0. + self.std` is left out: the stored standard deviation is the noise field itself.
- The value of `init_noise_std * torch.ones(num_actions)` is left out: the constructor takes the initial noise value as given.
- Orthogonal initialisation itself is left out. `InitWeights` models only which gain goes to which Linear layer.
- The diagnostic prints are left out (lines 51, 106 and 185), and so is the message listing ignored keyword arguments. Both are console output.
- `forward`, which always raises `NotImplementedError`, is left out: there is nothing to model about it.
- How a stack behaves at run time when the activation is `None` is left out, because it depends on `nn.Sequential` internals. The model keeps `None` entries in the stack.
- Negative layer widths, which torch rejects, are left out: widths are `nat`.
- Empty hidden-width lists make the source fail with an IndexError at `[0]`. In the model this is a precondition of the stack functions, the builders, their shape lemmas and the constructor.
- The critic's input is the concatenation of both observation vectors (lines 113-115). The model does not check that their total width equals `num_critic_obs`, because tensor shapes are not part of the model.
- The learned parameters change only under an external optimiser, which is not part of this model. The noise field `std` is therefore never updated after construction.
