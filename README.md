# PPO and policy-gradient bookkeeping, in Dafny

This project models the discrete bookkeeping and the piecewise-linear formulas
around two reinforcement-learning agents, and proves properties of them.

- **Pendulum PPO agent** (`pendulum_ppo.dfy`, module `PendulumPPO`; the bounded
  list shared with the score window is in `fifo.dfy`, module `Fifo`). This part covers:
  - the bounded FIFO experience memory (`Agent.Store`);
  - the cadence gate of a training call: the minimum-data check and the `update` counter;
  - the one-step bootstrapped targets `q = r + GAMMA * V(s2)` and advantages
    `adv = q - V(s)`, computed before the epochs;
  - the clipped surrogate `min(ratio * adv, clip(ratio) * adv)` of each epoch;
  - the clamp of the sampled action to the action range;
  - the training driver's bookkeeping: reward shaping, the 100-entry window of
    episode totals, the score, the stop threshold and the checkpoint every 20 episodes.
- **Acrobot policy-gradient agent** (`acrobot.dfy`, module `Acrobot`). This part covers:
  - the in-place `relu`;
  - the episode list: `__call__` appends one record per step and walks back
    over the list;
  - `reset`;
  - the end of `update`.

  The class invariant `PolicyGradient.Valid()` carries the property that every
  stored reward is the discounted return from its step on.

All numbers are mathematical reals; the source's floats are not modelled.
The critic network, the per-epoch probability ratio
(`exp(log_prob - old_log_prob)`), the Gaussian draw and log-density, `softmax`,
`np.random.choice` and `random.sample` are all parameters of the operations
that use them.

Points of the code that the model keeps as written:
- Pendulum_PPO.py:216 maps the worst raw reward `-16.2736044` to `-0.5` and
  the best, `0`, to `0.5`.
- Pendulum_PPO.py:232 stops training on `score >= -300`.
- Pendulum_PPO.py:230 divides the window sum by the literal `100`, not by the
  window's length.
- `MEMORY_SIZE` is the float `10000.0` (Pendulum_PPO.py:67). Comparing an
  integer length against it is the same as comparing against the integer
  `10000`, which the model uses.
- `PolicyGradient.__init__` never creates the attribute `r`; only `reset` sets it,
  to `None`. The model's constructor starts it as `None` too. The attribute `pi`
  is only ever set to `None`; `__call__` keeps its policy in a local variable.
- The memory is a class-level list (Pendulum_PPO.py:73) that `append` and
  `pop(0)` change in place, so every agent shares it. The model gives each
  agent its own memory. The counter `update` is per agent in the code too:
  its first `+= 1` binds an attribute on the instance.

## Model

| member | source | states |
|---|---|---|
| `Fifo.Push` | Pendulum_PPO.py:96-102 | append then drop the oldest: stays within capacity; below capacity it only appends; at capacity it is the old list minus its first element plus the new one; it equals the last `capacity` elements of old list + new element |
| `Fifo.PushAllKeepsLast` | Pendulum_PPO.py:96-102 | after any run of pushes into a list within capacity, the list is exactly the last `capacity` elements pushed, in insertion order |
| `Fifo.PushAllLength` | Pendulum_PPO.py:96-102 | a run of pushes never exceeds capacity, is full once `capacity` elements went in, and evicts nothing before that |
| `Fifo.EvictionExample` | Pendulum_PPO.py:98-102 | capacity 3 with A, B, C, D pushed keeps B, C, D |
| `PendulumPPO.MemoryKeepsLast` | Pendulum_PPO.py:96-102 | the capacity case of `Fifo.PushAllKeepsLast` and `Fifo.PushAllLength`: a run of stores keeps memory at most MEMORY_SIZE long, and it holds the last MEMORY_SIZE experiences in order |
| `PendulumPPO.Agent.Store` | Pendulum_PPO.py:96-102 | the new memory is `Push(old memory, e, MEMORY_SIZE)` and the capacity invariant is kept |
| `PendulumPPO.Agent.Train` | Pendulum_PPO.py:104-169 | too little data: nothing changes (counter, memory, optimiser steps); otherwise the counter grows by exactly one, and optimisation runs iff the new counter is a multiple of the period (so on every eligible call with period 1); an optimising call uses the sampled experiences, fixes `q` and `adv` from them once, forms the surrogate of every element in each of the EPOCH epochs, and takes one critic and one actor step per epoch |
| `PendulumPPO.Agent.constructor` | Pendulum_PPO.py:73-78 | a fresh agent has empty memory, counter 0, the given action range and update period UPDATE |
| `PendulumPPO.Agent.Action` | Pendulum_PPO.py:86-94 | the returned action lies in `[low, high]` for any sample (when `low <= high`), a sample already in range is kept, and the log-probability is that of the unclamped sample |
| `PendulumPPO.Clamp` | Pendulum_PPO.py:94 | the result is never above `hi`; it is at least `lo` when `lo <= hi`; inside the range it is the input; below it is `lo`; above it is `hi` |
| `PendulumPPO.Clip` | Pendulum_PPO.py:152 | the clipped ratio lies in `[1 - EPSILON, 1 + EPSILON]` and equals the ratio when that is already inside |
| `PendulumPPO.Surrogate` | Pendulum_PPO.py:153 | the surrogate is one of `ratio * adv` and `clip * adv` and at most both; with the ratio inside the interval it is `ratio * adv` |
| `PendulumPPO.SurrogateExample` | Pendulum_PPO.py:151-153 | ratio 2 and advantage 1 give clip 1.2 and surrogate 1.2 |
| `PendulumPPO.SurrogateAtRatioOne` | Pendulum_PPO.py:151-153 | an unchanged policy (ratio 1) gives clip 1 and the advantage itself |
| `PendulumPPO.SurrogateCapsGain` | Pendulum_PPO.py:152-153 | with a positive advantage and a ratio above `1 + EPSILON` the surrogate is `(1 + EPSILON) * adv`, strictly below `ratio * adv` |
| `PendulumPPO.SurrogateCapsLoss` | Pendulum_PPO.py:152-153 | with a negative advantage and a ratio below `1 - EPSILON` the surrogate is `(1 - EPSILON) * adv`, strictly below `ratio * adv` |
| `PendulumPPO.BatchTargets` | Pendulum_PPO.py:126-136 | for every batch element, `q[i] = r[i] + GAMMA * V(s2[i])` and `adv[i] = q[i] - V(s[i])` |
| `PendulumPPO.TargetIgnoresDone` | Pendulum_PPO.py:131-134 | the target is the same whatever the `done` flag is: terminal steps are not masked |
| `PendulumPPO.TargetExample` | Pendulum_PPO.py:133-136 | r = 1, V(s2) = 2, V(s) = 2 give q = 2.8 and adv = 0.8 |
| `PendulumPPO.Surrogates` | Pendulum_PPO.py:146-153 | one epoch's surrogate vector has, at every position, `Surrogate(ratio[y], adv[y])` |
| `PendulumPPO.Shape` | Pendulum_PPO.py:215-216 | raw rewards in `[-16.2736044, 0]` are shaped into `[-0.5, 0.5]` |
| `PendulumPPO.ShapeMonotone` | Pendulum_PPO.py:216 | the shaping is monotone |
| `PendulumPPO.ShapeEndpoints` | Pendulum_PPO.py:215-216 | the shaping maps `-16.2736044` to `-0.5` and `0` to `0.5` |
| `PendulumPPO.EpisodeReward` | Pendulum_PPO.py:205-213 | the accumulated reward of an episode is the sum of its raw step rewards |
| `PendulumPPO.RecordResult` | Pendulum_PPO.py:226-230 | the window gets the episode total appended and, when it was full, loses its oldest entry; a window of 100 stays 100 long; the score is the window sum over 100 |
| `PendulumPPO.SumBounds` | Pendulum_PPO.py:230 | the window sum is at least `c` per entry when every entry is, below that when every entry of a non-empty list is below `c`, and exactly `c` per entry when every entry equals `c` |
| `PendulumPPO.ScoreBetweenExtremes` | Pendulum_PPO.py:230-232 | on a window of 100 totals the score is an average: it reaches -300 when every total does, and stays below -300 when every total does |
| `PendulumPPO.InitialScore` | Pendulum_PPO.py:201 | the initial window of 100 entries of -2000 scores -2000, below the stop threshold |
| `PendulumPPO.PlayEpisode` | Pendulum_PPO.py:205-230 | one episode's total is recorded: the window after episode `k` is the window after the first `k + 1` episodes, and the score is its average |
| `PendulumPPO.SaveIfDue` | Pendulum_PPO.py:237-245 | after completing episode `n`, the saved episodes are exactly `Checkpoints(n)`: a save happens iff `n % 20 == 0` |
| `PendulumPPO.WindowIsLastHundred` | Pendulum_PPO.py:201 | starting from 100 entries of -2000, the window always holds exactly 100 entries: the last 100 of the initial entries followed by the episode totals |
| `PendulumPPO.Checkpoints` | Pendulum_PPO.py:237-245 | the checkpoint episodes among the first `n` are exactly 20, 40, ..., in order, `n / 20` of them |
| `PendulumPPO.TrainLoop` | Pendulum_PPO.py:198-247 | over a trace of episodes: the window is the window after the episodes played; training stops at the first episode whose score reaches -300 and not before, otherwise every episode is played; a checkpoint is taken after every 20th completed episode (the save on stopping is the one `stopped` reports) |
| `Acrobot.Relu` | Gym/Acrobot.py:15-17 | in place: every entry ends non-negative, non-negative entries are unchanged, negative ones become 0, and the same array is returned |
| `Acrobot.ReturnAppend` | Gym/Acrobot.py:91-94 | a reward arriving `k` steps after the start adds `reward * gamma^k` to the return |
| `Acrobot.ReturnIsWeightedSum` | Gym/Acrobot.py:88-94 | the recursive discounted return equals the sum over `j` of `gamma^j * r_j` |
| `Acrobot.RecordStep` | Gym/Acrobot.py:86-94 | appending a step and walking back over the list gives `Record`: each earlier entry's reward grows by `r * gamma^(n-1-i)`, the rest stays |
| `Acrobot.RecordAt` | Gym/Acrobot.py:88-94 | after recording, the list is one longer; its last entry is the new step with reward `r`; every earlier entry keeps its state, action and logits, and its reward grows by `r * gamma^(n-1-i)` |
| `Acrobot.RecordKeepsDiscounted` | Gym/Acrobot.py:88-94 | if every stored reward is the discounted return of the rewards recorded from its step on, this stays true after recording one more step |
| `Acrobot.PolicyGradient.constructor` | Gym/Acrobot.py:28-46 | a fresh agent has no previous state, action or logits, zero biases, the given weights and an empty episode |
| `Acrobot.PolicyGradient.Reset` | Gym/Acrobot.py:48-56 | `s`, `a`, `r`, `l` and `pi` become `None` and the episode list becomes empty; the weights stay |
| `Acrobot.PolicyGradient.Update` | Gym/Acrobot.py:58-76 | the weights and biases grow by the supplied gradient and the episode list ends empty |
| `Acrobot.PolicyGradient.Call` | Gym/Acrobot.py:78-104 | the first call after a reset records nothing; otherwise the episode list is `Record(old list, (r, previous s, previous a, previous l))`; the discounted-return invariant is kept; afterwards `s` is `ns`, `a` is the returned action and `l` is the new `(logits, pi)` pair |

## Left out

- The actor and critic networks (`Actor.forward`, `Critic.forward`) are not modelled. They enter as the
  `critic` function and the per-epoch `ratio` function of `Agent.Train`.
- The Gaussian pieces are not modelled: `Normal.sample`, `log_prob`, `entropy`, the `torch.exp` inside
  the ratio and the `1e-10` added to the old log-probability. All are floating-point or
  transcendental numerics.
- `PendulumPPO.Agent.Train`: does not model the MSE critic loss, the actor loss (mean surrogate,
  VALUE and ENTROPY terms), `backward()` or Adam. Each network's parameters are abstracted
  as a count of optimiser steps.
- `random.sample` is a parameter of `Agent.Train`: a sequence of BATCH_SIZE distinct memory positions.
  `np.random.choice` is a parameter of `PolicyGradient.Call`: a function from the policy to an action.
- `softmax`, `sigmoid` and `np.exp` in the Acrobot agent are not modelled. `softmax` is a parameter
  of `Call`.
- The gradient accumulation of `PolicyGradient.update` (the `dw`/`db` loop) is not modelled.
  `Update` takes the accumulated gradient as a parameter.
- `PendulumPPO.TrainLoop`: runs over a finite trace of per-episode raw rewards. It does not drive
  the agent's `store`/`train` calls, because those need the environment and the networks. The
  environment (`reset`, `step`, `render`) is the trace. The `exit()` on success ends the loop.
- The torch checkpoint files (`torch.save`, `torch.load`), `os.remove`, the `click` command line,
  `play_agent`, the prints and both `__main__` drivers are not modelled. This includes the Acrobot
  driver's reward heuristic. All of these are I/O or plumbing. `TrainLoop` reports when a
  checkpoint is saved.
- `MLP.py` is not part of this model. It is a perceptron demonstration over float weights and
  plotting.
- The sharing of the memory between agents is not modelled: the memory is a field of one
  `Agent` object, so the model says nothing about two agents writing into the same list.
- Small details of `PolicyGradient` are not modelled: the default arguments `alpha=0.9` and
  `gamma=0.9` (the constructor takes both explicitly); the range `[-0.1, 0.1)` of the random initial
  weights (they are the parameter `w0`); that `np.random.choice` always returns an index below the
  policy's length (`choose` is an unconstrained parameter, and `Valid()` does not bound the action);
  and numpy's error on a state of the wrong length, which the precondition `|ns| == inputs` rules out.
