/**
 * The bookkeeping of the PPO agent that learns the Pendulum task:
 * the bounded experience memory, the cadence gate of a training call,
 * the one-step bootstrapped targets and advantages, the clipped surrogate,
 * the action clamp, and the episode bookkeeping of the training driver
 * (reward shaping, the 100-episode score window, stop and checkpoints).
 *
 * Reals stand for the source's floats. The networks, the Gaussian and the
 * random sources are parameters: `critic` maps a state to its value,
 * `ratio(k, y)` is the probability ratio of batch element `y` in epoch `k`,
 * `sample` and `logDensity` are the Gaussian's draw and log-density.
 */
module PendulumPPO {
  import Fifo

  const GAMMA: real := 0.9
  const EPSILON: real := 0.2
  const EPOCH: nat := 10
  const MEMORY_SIZE: nat := 10000
  const BATCH_SIZE: nat := 32
  const UPDATE: nat := 1

  /** One environment step; `oldLogProb` is frozen when the step is stored. */
  datatype Experience = Experience(
    s: seq<real>, s2: seq<real>, r: real, a: real, done: bool, oldLogProb: real)

  /** What one call of `Agent.Train` did. */
  datatype TrainStep =
    | Skipped                 // fewer than BATCH_SIZE experiences stored
    | Waiting                 // counter advanced, not a multiple of the period
    | Optimised(batch: seq<Experience>, q: seq<real>, adv: seq<real>, surr: seq<seq<real>>)

  // ---------------------------------------------------------------------
  // Piecewise-linear formulas

  /** torch's `clamp(lo, hi)`: raise to `lo`, then lower to `hi`. */
  function Clamp(x: real, lo: real, hi: real): (c: real)
    ensures c <= hi
    ensures lo <= hi ==> lo <= c
    ensures lo <= x <= hi ==> c == x
    ensures x < lo <= hi ==> c == lo
    ensures hi < x ==> c == hi
  {
    var raised := if x < lo then lo else x;
    if raised > hi then hi else raised
  }

  /** The probability ratio clipped to [1 - EPSILON, 1 + EPSILON]. */
  function Clip(ratio: real): (c: real)
    ensures 1.0 - EPSILON <= c <= 1.0 + EPSILON
    ensures 1.0 - EPSILON <= ratio <= 1.0 + EPSILON ==> c == ratio
  {
    Clamp(ratio, 1.0 - EPSILON, 1.0 + EPSILON)
  }

  /** The pessimistic surrogate term of one batch element. */
  function Surrogate(ratio: real, adv: real): (surr: real)
    ensures surr <= ratio * adv && surr <= Clip(ratio) * adv
    ensures surr == ratio * adv || surr == Clip(ratio) * adv
    ensures 1.0 - EPSILON <= ratio <= 1.0 + EPSILON ==> surr == ratio * adv
  {
    var unclipped := ratio * adv;
    var clipped := Clip(ratio) * adv;
    if unclipped <= clipped then unclipped else clipped
  }

  /** The bootstrapped target `r + GAMMA * V(s2)`; `done` is not consulted. */
  function Target(e: Experience, critic: seq<real> -> real): real
  {
    e.r + GAMMA * critic(e.s2)
  }

  /** The advantage `q - V(s)`. */
  function Advantage(e: Experience, critic: seq<real> -> real): real
  {
    Target(e, critic) - critic(e.s)
  }

  lemma TargetIgnoresDone(e: Experience, critic: seq<real> -> real)
    ensures Target(e.(done := true), critic) == Target(e.(done := false), critic) == Target(e, critic)
  {
  }

  lemma TargetExample(e: Experience, critic: seq<real> -> real)
    requires e.r == 1.0 && critic(e.s2) == 2.0 && critic(e.s) == 2.0
    ensures Target(e, critic) == 2.8 && Advantage(e, critic) == 0.8
  {
  }

  lemma SurrogateExample()
    ensures Clip(2.0) == 1.2 && Surrogate(2.0, 1.0) == 1.2
  {
  }

  /** An unchanged policy (ratio 1) gives the advantage itself. */
  lemma SurrogateAtRatioOne(adv: real)
    ensures Clip(1.0) == 1.0 && Surrogate(1.0, adv) == adv
  {
  }

  /** A positive advantage earns at most (1 + EPSILON) times itself. */
  lemma SurrogateCapsGain(ratio: real, adv: real)
    requires adv > 0.0 && ratio > 1.0 + EPSILON
    ensures Surrogate(ratio, adv) == (1.0 + EPSILON) * adv < ratio * adv
  {
  }

  /** A negative advantage is charged at least (1 - EPSILON) times itself. */
  lemma SurrogateCapsLoss(ratio: real, adv: real)
    requires adv < 0.0 && ratio < 1.0 - EPSILON
    ensures Surrogate(ratio, adv) == (1.0 - EPSILON) * adv < ratio * adv
  {
  }

  // ---------------------------------------------------------------------
  // Batch computations (the `for` loops of `train`)

  ghost predicate IsBatch(idx: seq<nat>, n: nat)
  {
    && |idx| == BATCH_SIZE
    && (forall i :: 0 <= i < |idx| ==> idx[i] < n)
    && (forall i, j :: 0 <= i < j < |idx| ==> idx[i] != idx[j])
  }

  /** Fills `q` element by element, then forms `adv = q - v`. */
  method BatchTargets(batch: seq<Experience>, critic: seq<real> -> real)
    returns (q: seq<real>, adv: seq<real>)
    ensures |q| == |batch| && |adv| == |batch|
    ensures forall i :: 0 <= i < |batch| ==> q[i] == Target(batch[i], critic)
    ensures forall i :: 0 <= i < |batch| ==> adv[i] == Advantage(batch[i], critic)
  {
    var n := |batch|;
    var v2 := seq(n, i requires 0 <= i < n => critic(batch[i].s2));
    var v := seq(n, i requires 0 <= i < n => critic(batch[i].s));
    q := seq(n, _ => 0.0);
    for i := 0 to n
      invariant |q| == n
      invariant forall j :: 0 <= j < i ==> q[j] == batch[j].r + GAMMA * v2[j]
    {
      q := q[i := batch[i].r + GAMMA * v2[i]];
    }
    adv := seq(n, i requires 0 <= i < n => q[i] - v[i]);
  }

  /** Fills `surr` element by element for one epoch. */
  method Surrogates(ratios: seq<real>, adv: seq<real>) returns (surr: seq<real>)
    requires |ratios| == |adv|
    ensures |surr| == |adv|
    ensures forall y :: 0 <= y < |adv| ==> surr[y] == Surrogate(ratios[y], adv[y])
  {
    surr := seq(|adv|, _ => 0.0);
    for y := 0 to |adv|
      invariant |surr| == |adv|
      invariant forall j :: 0 <= j < y ==> surr[j] == Surrogate(ratios[j], adv[j])
    {
      surr := surr[y := Surrogate(ratios[y], adv[y])];
    }
  }

  // ---------------------------------------------------------------------
  // The agent

  class Agent {
    const low: real
    const high: real
    const updatePeriod: nat
    var memory: seq<Experience>
    var update: nat
    /** Abstraction of the network parameters: how many optimiser steps each took. */
    var criticSteps: nat
    var actorSteps: nat

    ghost predicate Valid()
      reads this
    {
      |memory| <= MEMORY_SIZE && updatePeriod > 0
    }

    constructor (low: real, high: real)
      ensures Valid()
      ensures this.low == low && this.high == high && updatePeriod == UPDATE
      ensures memory == [] && update == 0 && criticSteps == 0 && actorSteps == 0
    {
      this.low := low;
      this.high := high;
      updatePeriod := UPDATE;
      memory := [];
      update := 0;
      criticSteps := 0;
      actorSteps := 0;
    }

    /** The sampled action clamped to the action range, with the
        log-probability of the unclamped sample. */
    method Action(sample: real, logDensity: real -> real) returns (a: real, logProb: real)
      ensures low <= high ==> low <= a <= high
      ensures low <= sample <= high ==> a == sample
      ensures a == Clamp(sample, low, high)
      ensures logProb == logDensity(sample)
    {
      a := Clamp(sample, low, high);
      logProb := logDensity(sample);
    }

    method Store(e: Experience)
      requires Valid()
      modifies this`memory
      ensures Valid()
      ensures memory == Fifo.Push(old(memory), e, MEMORY_SIZE)
    {
      memory := memory + [e];
      if |memory| > MEMORY_SIZE {
        memory := memory[1..];
      }
    }

    /** One training call. `idx` is the random sample of distinct memory
        positions; it is only looked at once the memory holds a batch. */
    method Train(idx: seq<nat>, critic: seq<real> -> real, ratio: (nat, nat) -> real)
      returns (step: TrainStep)
      requires Valid()
      requires |memory| >= BATCH_SIZE ==> IsBatch(idx, |memory|)
      modifies this`update, this`criticSteps, this`actorSteps
      ensures Valid() && memory == old(memory)
      ensures old(|memory|) < BATCH_SIZE ==>
        step == Skipped && update == old(update)
        && criticSteps == old(criticSteps) && actorSteps == old(actorSteps)
      ensures old(|memory|) >= BATCH_SIZE ==> update == old(update) + 1
      ensures step.Optimised? <==> old(|memory|) >= BATCH_SIZE && update % updatePeriod == 0
      ensures updatePeriod == 1 && old(|memory|) >= BATCH_SIZE ==> step.Optimised?
      ensures !step.Optimised? ==> criticSteps == old(criticSteps) && actorSteps == old(actorSteps)
      ensures step.Optimised? ==>
        && criticSteps == old(criticSteps) + EPOCH && actorSteps == old(actorSteps) + EPOCH
        && |step.batch| == BATCH_SIZE
        && (forall i :: 0 <= i < BATCH_SIZE ==> step.batch[i] == memory[idx[i]])
        && |step.q| == BATCH_SIZE && |step.adv| == BATCH_SIZE
        && (forall i :: 0 <= i < BATCH_SIZE ==>
              step.q[i] == Target(step.batch[i], critic)
              && step.adv[i] == Advantage(step.batch[i], critic))
        && |step.surr| == EPOCH
        && (forall k :: 0 <= k < EPOCH ==> |step.surr[k]| == BATCH_SIZE)
        && (forall k, y :: 0 <= k < EPOCH && 0 <= y < BATCH_SIZE ==>
              step.surr[k][y] == Surrogate(ratio(k, y), step.adv[y]))
    {
      if |memory| < BATCH_SIZE {
        return Skipped;
      }
      update := update + 1;
      if update % updatePeriod != 0 {
        return Waiting;
      }
      var mem := memory;
      var batch := seq(BATCH_SIZE, i requires 0 <= i < BATCH_SIZE => mem[idx[i]]);
      var q, adv := BatchTargets(batch, critic);
      var surr: seq<seq<real>> := [];
      ghost var counter := update;
      for k := 0 to EPOCH
        invariant |surr| == k && update == counter
        invariant criticSteps == old(criticSteps) + k && actorSteps == old(actorSteps) + k
        invariant forall j :: 0 <= j < k ==> |surr[j]| == BATCH_SIZE
        invariant forall j, y :: 0 <= j < k && 0 <= y < BATCH_SIZE ==> surr[j][y] == Surrogate(ratio(j, y), adv[y])
      {
        var ratios := seq(BATCH_SIZE, y requires 0 <= y < BATCH_SIZE => ratio(k, y));
        var epochSurr := Surrogates(ratios, adv);
        assert forall j :: 0 <= j < k ==> (surr + [epochSurr])[j] == surr[j];
        surr := surr + [epochSurr];
        criticSteps := criticSteps + 1;
        actorSteps := actorSteps + 1;
      }
      step := Optimised(batch, q, adv, surr);
    }
  }

  /** A run of stores holds the last MEMORY_SIZE experiences, oldest first:
      `Fifo.PushAllKeepsLast` and `Fifo.PushAllLength` at the memory's capacity. */
  lemma MemoryKeepsLast(memory: seq<Experience>, es: seq<Experience>)
    requires |memory| <= MEMORY_SIZE
    ensures |Fifo.PushAll(memory, es, MEMORY_SIZE)| <= MEMORY_SIZE
    ensures Fifo.PushAll(memory, es, MEMORY_SIZE) == Fifo.LastN(memory + es, MEMORY_SIZE)
  {
    Fifo.PushAllLength(memory, es, MEMORY_SIZE);
    Fifo.PushAllKeepsLast(memory, es, MEMORY_SIZE);
  }

  // ---------------------------------------------------------------------
  // The training driver

  /** The magnitude of the worst raw Pendulum reward. */
  const REWARD_SPAN: real := 16.2736044
  const WINDOW: nat := 100
  const INITIAL_RESULT: real := -2000.0
  const STOP_SCORE: real := -300.0
  const CHECKPOINT_EVERY: nat := 20

  /** The affine shaping of a raw reward before it is stored. */
  function Shape(raw: real): (shaped: real)
    ensures -REWARD_SPAN <= raw <= 0.0 ==> -0.5 <= shaped <= 0.5
  {
    raw / REWARD_SPAN + 0.5
  }

  lemma ShapeMonotone(x: real, y: real)
    requires x <= y
    ensures Shape(x) <= Shape(y)
  {
  }

  lemma ShapeEndpoints()
    ensures Shape(-REWARD_SPAN) == -0.5 && Shape(0.0) == 0.5
  {
  }

  function Sum(s: seq<real>): real
  {
    if |s| == 0 then 0.0 else Sum(s[..|s| - 1]) + s[|s| - 1]
  }

  function InitialWindow(): seq<real>
  {
    seq(WINDOW, _ => INITIAL_RESULT)
  }

  /** The score divides the window sum by the literal 100. */
  function Score(window: seq<real>): real
  {
    Sum(window) / 100.0
  }

  /** Entries all at least `c` sum to at least `c` per entry; entries all
      below `c` sum to less than that (for a non-empty list); entries all
      equal to `c` sum to exactly that. */
  lemma {:induction false} SumBounds(s: seq<real>, c: real)
    ensures (forall k :: 0 <= k < |s| ==> s[k] >= c) ==> Sum(s) >= c * |s| as real
    ensures 0 < |s| && (forall k :: 0 <= k < |s| ==> s[k] < c) ==> Sum(s) < c * |s| as real
    ensures (forall k :: 0 <= k < |s| ==> s[k] == c) ==> Sum(s) == c * |s| as real
    decreases |s|
  {
    if |s| > 0 {
      var front := s[..|s| - 1];
      assert forall k :: 0 <= k < |front| ==> front[k] == s[k];
      SumBounds(front, c);
    }
  }

  /** On a full window the score is an average: it reaches the stop threshold
      when every total does, and stays below it when every total does. */
  lemma ScoreBetweenExtremes(window: seq<real>)
    requires |window| == WINDOW
    ensures (forall k :: 0 <= k < |window| ==> window[k] >= STOP_SCORE) ==> Score(window) >= STOP_SCORE
    ensures (forall k :: 0 <= k < |window| ==> window[k] < STOP_SCORE) ==> Score(window) < STOP_SCORE
  {
    SumBounds(window, STOP_SCORE);
  }

  /** The initial window scores -2000, far below the stop threshold. */
  lemma InitialScore()
    ensures Score(InitialWindow()) == INITIAL_RESULT < STOP_SCORE
  {
    SumBounds(InitialWindow(), INITIAL_RESULT);
  }

  /** The raw-reward total of every episode. */
  function Totals(episodes: seq<seq<real>>): (t: seq<real>)
    ensures |t| == |episodes|
  {
    seq(|episodes|, k requires 0 <= k < |episodes| => Sum(episodes[k]))
  }

  /** The score window after the given episodes. */
  function WindowAfter(episodes: seq<seq<real>>): seq<real>
  {
    Fifo.PushAll(InitialWindow(), Totals(episodes), WINDOW)
  }

  /** The window always holds exactly 100 totals: the last 100 of the
      initial entries followed by the episode totals. */
  lemma WindowIsLastHundred(episodes: seq<seq<real>>)
    ensures |WindowAfter(episodes)| == WINDOW
    ensures WindowAfter(episodes) == Fifo.LastN(InitialWindow() + Totals(episodes), WINDOW)
  {
    Fifo.PushAllLength(InitialWindow(), Totals(episodes), WINDOW);
    Fifo.PushAllKeepsLast(InitialWindow(), Totals(episodes), WINDOW);
  }

  lemma WindowAfterNext(episodes: seq<seq<real>>, k: nat)
    requires k < |episodes|
    ensures WindowAfter(episodes[..k + 1]) == Fifo.Push(WindowAfter(episodes[..k]), Sum(episodes[k]), WINDOW)
  {
    assert Totals(episodes[..k + 1]) == Totals(episodes[..k]) + [Sum(episodes[k])];
    Fifo.PushAllSnoc(InitialWindow(), Totals(episodes[..k]), Sum(episodes[k]), WINDOW);
  }

  /** None of the first `n` episodes brought the score to the stop threshold. */
  ghost predicate BelowStopThrough(episodes: seq<seq<real>>, n: nat)
  {
    forall k :: 1 <= k <= n && k <= |episodes| ==> Score(WindowAfter(episodes[..k])) < STOP_SCORE
  }

  lemma BelowStopNext(episodes: seq<seq<real>>, n: nat)
    requires n < |episodes| && BelowStopThrough(episodes, n)
    requires Score(WindowAfter(episodes[..n + 1])) < STOP_SCORE
    ensures BelowStopThrough(episodes, n + 1)
  {
  }

  /** The episodes, among the first `n` completed ones, after which a
      checkpoint is saved: every multiple of CHECKPOINT_EVERY, in order. */
  function Checkpoints(n: nat): (saved: seq<nat>)
    ensures |saved| == n / CHECKPOINT_EVERY
    ensures forall j :: 0 <= j < |saved| ==> saved[j] == CHECKPOINT_EVERY * (j + 1)
  {
    if n == 0 then []
    else Checkpoints(n - 1) + if n % CHECKPOINT_EVERY == 0 then [n] else []
  }

  /** Records a checkpoint after the episode when its number is a multiple
      of CHECKPOINT_EVERY. */
  method SaveIfDue(saved: seq<nat>, episode: nat) returns (saved': seq<nat>)
    requires episode > 0 && saved == Checkpoints(episode - 1)
    ensures saved' == Checkpoints(episode)
  {
    saved' := saved;
    if episode % CHECKPOINT_EVERY == 0 {
      saved' := saved' + [episode];
    }
  }

  /** Accumulates the raw step rewards of one episode. */
  method EpisodeReward(steps: seq<real>) returns (rewards: real)
    ensures rewards == Sum(steps)
  {
    rewards := 0.0;
    for j := 0 to |steps|
      invariant rewards == Sum(steps[..j])
    {
      assert steps[..j + 1][..j] == steps[..j];
      rewards := rewards + steps[j];
    }
    assert steps[..|steps|] == steps;
  }

  /** The end of an episode: append the episode's total to the window,
      drop the oldest entry beyond 100, and average. */
  method RecordResult(results: seq<real>, rewards: real) returns (window: seq<real>, score: real)
    ensures window == Fifo.Push(results, rewards, WINDOW)
    ensures |results| == WINDOW ==> |window| == WINDOW && window == results[1..] + [rewards]
    ensures score == Score(window)
  {
    window := results + [rewards];
    if |window| > WINDOW {
      window := window[1..];
    }
    score := Sum(window) / 100.0;
  }

  /** One pass of the outer loop up to the stop test: sum the episode's
      rewards and record the total in the window. */
  method PlayEpisode(episodes: seq<seq<real>>, k: nat, results: seq<real>)
    returns (window: seq<real>, score: real)
    requires k < |episodes| && results == WindowAfter(episodes[..k])
    ensures window == WindowAfter(episodes[..k + 1])
    ensures |window| == WINDOW
    ensures score == Score(window)
  {
    var rewards := EpisodeReward(episodes[k]);
    WindowAfterNext(episodes, k);
    WindowIsLastHundred(episodes[..k + 1]);
    window, score := RecordResult(results, rewards);
  }

  /** `train_agent` over a finite trace: `episodes[k]` holds the raw rewards
      of the steps of episode k. Returns the final window, the number of
      completed episodes, whether the score stopped training, and the
      episodes after which a checkpoint was saved. */
  method TrainLoop(episodes: seq<seq<real>>)
    returns (window: seq<real>, episode: nat, stopped: bool, checkpoints: seq<nat>)
    ensures !stopped ==> episode == |episodes| && window == WindowAfter(episodes)
    ensures stopped ==>
      episode < |episodes| && window == WindowAfter(episodes[..episode + 1])
      && Score(window) >= STOP_SCORE
    ensures |window| == WINDOW
    ensures BelowStopThrough(episodes, episode)
    ensures checkpoints == Checkpoints(episode)
  {
    episode := 0;
    window := InitialWindow();
    stopped := false;
    checkpoints := [];
    assert episodes[..0] == [];
    while episode < |episodes|
      invariant episode <= |episodes| && !stopped
      invariant window == WindowAfter(episodes[..episode]) && |window| == WINDOW
      invariant BelowStopThrough(episodes, episode)
      invariant checkpoints == Checkpoints(episode)
    {
      var results, score := PlayEpisode(episodes, episode, window);
      window := results;
      if score >= STOP_SCORE {
        stopped := true;
        return;
      }
      BelowStopNext(episodes, episode);
      episode := episode + 1;
      checkpoints := SaveIfDue(checkpoints, episode);
    }
    assert episodes[..episode] == episodes;
  }
}
