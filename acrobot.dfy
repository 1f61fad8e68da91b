/**
 * The episode bookkeeping of the tabular policy-gradient agent for the
 * Acrobot task: the in-place `relu`, the step records of an episode and the
 * backward loop that turns every stored reward into the discounted return
 * from that step on, `reset`, and the end of `update`.
 *
 * Reals stand for the source's floats. `softmax` and the random draw of the
 * next action (`np.random.choice`) are parameters of `PolicyGradient.Call`;
 * the gradient that `update` accumulates is a parameter of `Update`.
 */
module Acrobot {

  datatype Option<T> = None | Some(value: T)

  /** The `(l, pi)` pair: logits and the softmax policy over actions. */
  datatype Policy = Policy(logits: seq<real>, pi: seq<real>)

  /** One entry of the episode list: `(r, s, a, l)`. */
  datatype Step = Step(r: real, s: seq<real>, a: nat, l: Policy)

  /** Sets every negative entry to zero, in place; the same array is returned. */
  method Relu(x: array<real>) returns (y: array<real>)
    modifies x
    ensures y == x
    ensures forall i :: 0 <= i < x.Length ==> x[i] >= 0.0
    ensures forall i :: 0 <= i < x.Length && old(x[i]) >= 0.0 ==> x[i] == old(x[i])
    ensures forall i :: 0 <= i < x.Length && old(x[i]) < 0.0 ==> x[i] == 0.0
  {
    for i := 0 to x.Length
      invariant forall j :: 0 <= j < i ==> x[j] == if old(x[j]) < 0.0 then 0.0 else old(x[j])
      invariant forall j :: i <= j < x.Length ==> x[j] == old(x[j])
    {
      if x[i] < 0.0 {
        x[i] := 0.0;
      }
    }
    y := x;
  }

  function Pow(x: real, k: nat): real
  {
    if k == 0 then 1.0 else x * Pow(x, k - 1)
  }

  function Dot(u: seq<real>, v: seq<real>): real
    requires |u| == |v|
  {
    if |u| == 0 then 0.0 else u[0] * v[0] + Dot(u[1..], v[1..])
  }

  /** Elementwise sum of two vectors. */
  function VecAdd(u: seq<real>, v: seq<real>): seq<real>
    requires |u| == |v|
  {
    seq(|u|, k requires 0 <= k < |u| => u[k] + v[k])
  }

  ghost predicate IsMatrix(m: seq<seq<real>>, rows: nat, cols: nat)
  {
    |m| == rows && forall k :: 0 <= k < |m| ==> |m[k]| == cols
  }

  /** Row-wise sum of two matrices of the same shape. */
  function MatAdd(m: seq<seq<real>>, d: seq<seq<real>>): seq<seq<real>>
    requires |m| == |d| && forall k :: 0 <= k < |m| ==> |m[k]| == |d[k]|
  {
    seq(|m|, k requires 0 <= k < |m| => VecAdd(m[k], d[k]))
  }

  /** One logit per action: the weight row's dot product with the state, plus the bias. */
  function Logits(w: seq<seq<real>>, b: seq<real>, ns: seq<real>): (l: seq<real>)
    requires |b| == |w| && forall k :: 0 <= k < |w| ==> |w[k]| == |ns|
    ensures |l| == |w|
  {
    seq(|w|, k requires 0 <= k < |w| => Dot(w[k], ns) + b[k])
  }

  /** The discounted return of a reward sequence: rs[0] + gamma * rs[1] + ... */
  function Return(rs: seq<real>, gamma: real): real
  {
    if |rs| == 0 then 0.0 else rs[0] + gamma * Return(rs[1..], gamma)
  }

  /** A reward that arrives `|rs|` steps later is discounted by gamma^|rs|. */
  lemma {:induction false} ReturnAppend(rs: seq<real>, x: real, gamma: real)
    ensures Return(rs + [x], gamma) == Return(rs, gamma) + x * Pow(gamma, |rs|)
    decreases |rs|
  {
    if |rs| == 0 {
      assert rs + [x] == [x];
      assert [x][1..] == [];
    } else {
      assert (rs + [x])[1..] == rs[1..] + [x];
      ReturnAppend(rs[1..], x, gamma);
      calc {
        Return(rs + [x], gamma);
        rs[0] + gamma * Return(rs[1..] + [x], gamma);
        rs[0] + gamma * (Return(rs[1..], gamma) + x * Pow(gamma, |rs| - 1));
        rs[0] + gamma * Return(rs[1..], gamma) + x * (gamma * Pow(gamma, |rs| - 1));
        Return(rs, gamma) + x * Pow(gamma, |rs|);
      }
    }
  }

  /** The same return written as a sum: rs[j] weighted by gamma^j, summed. */
  function WeightedSum(rs: seq<real>, gamma: real): real
  {
    if |rs| == 0 then 0.0
    else WeightedSum(rs[..|rs| - 1], gamma) + rs[|rs| - 1] * Pow(gamma, |rs| - 1)
  }

  /** The recursive return equals the sum over j of gamma^j * rs[j]. */
  lemma {:induction false} ReturnIsWeightedSum(rs: seq<real>, gamma: real)
    ensures Return(rs, gamma) == WeightedSum(rs, gamma)
    decreases |rs|
  {
    if |rs| > 0 {
      var front := rs[..|rs| - 1];
      assert front + [rs[|rs| - 1]] == rs;
      ReturnIsWeightedSum(front, gamma);
      ReturnAppend(front, rs[|rs| - 1], gamma);
    }
  }

  /** The episode list after one recorded step: the step is appended and
      every earlier reward gains `step.r * gamma^(distance)`. */
  function Record(epi: seq<Step>, step: Step, gamma: real): seq<Step>
  {
    seq(|epi| + 1, i requires 0 <= i <= |epi| =>
      if i < |epi| then AddDiscounted(epi[i], step.r, gamma, |epi| - i) else step)
  }

  /** One entry's reward grows by `reward` discounted over `k` steps. */
  function AddDiscounted(e: Step, reward: real, gamma: real, k: nat): Step
  {
    e.(r := e.r + reward * Pow(gamma, k))
  }

  /** What a recording does to each entry. */
  lemma RecordAt(epi: seq<Step>, step: Step, gamma: real, i: nat)
    requires i <= |epi|
    ensures |Record(epi, step, gamma)| == |epi| + 1
    ensures i == |epi| ==> Record(epi, step, gamma)[i] == step
    ensures i < |epi| ==>
      var e := Record(epi, step, gamma)[i];
      e.s == epi[i].s && e.a == epi[i].a && e.l == epi[i].l
      && e.r == epi[i].r + step.r * Pow(gamma, |epi| - i)
  {
  }

  /** Appends `step` to the episode list, then walks back over the earlier
      entries adding `step.r * gamma^(distance)` to each reward. */
  method RecordStep(epi: seq<Step>, step: Step, gamma: real) returns (out: seq<Step>)
    ensures out == Record(epi, step, gamma)
  {
    out := epi + [step];
    var n := |out|;
    var i := n - 2;
    while i >= 0
      invariant -1 <= i <= n - 2 && |out| == n
      invariant forall j :: 0 <= j <= i ==> out[j] == epi[j]
      invariant forall j :: i < j < n - 1 ==> out[j] == AddDiscounted(epi[j], step.r, gamma, n - 1 - j)
      invariant out[n - 1] == step
      decreases i
    {
      var e := out[i];
      out := out[i := AddDiscounted(e, step.r, gamma, n - 1 - i)];
      i := i - 1;
    }
    ghost var recorded := Record(epi, step, gamma);
    assert |recorded| == n;
    forall j | 0 <= j < n
      ensures out[j] == recorded[j]
    {
      if j < n - 1 {
        assert n - 1 - j == |epi| - j;
      } else {
        assert recorded[j] == step;
      }
    }
  }

  /** Every stored reward is the discounted return, from its step on, of the
      rewards passed when the steps were recorded. */
  ghost predicate Discounted(epi: seq<Step>, rs: seq<real>, gamma: real)
  {
    |epi| == |rs| && forall i :: 0 <= i < |epi| ==> epi[i].r == Return(rs[i..], gamma)
  }

  /** One entry of a recording keeps the discounted-return property. */
  lemma RecordKeepsDiscountedAt(epi: seq<Step>, rs: seq<real>, step: Step, gamma: real, i: nat)
    requires Discounted(epi, rs, gamma) && i <= |epi|
    ensures Record(epi, step, gamma)[i].r == Return((rs + [step.r])[i..], gamma)
  {
    if i < |epi| {
      var tail := rs[i..];
      assert epi[i].r == Return(tail, gamma);
      assert (rs + [step.r])[i..] == tail + [step.r];
      ReturnAppend(tail, step.r, gamma);
      assert Record(epi, step, gamma)[i] == AddDiscounted(epi[i], step.r, gamma, |tail|);
    } else {
      assert (rs + [step.r])[i..] == [step.r];
      assert [step.r][1..] == [];
      assert Record(epi, step, gamma)[i] == step;
    }
  }

  /** Recording a step keeps the discounted-return invariant. */
  lemma RecordKeepsDiscounted(epi: seq<Step>, rs: seq<real>, step: Step, gamma: real)
    requires Discounted(epi, rs, gamma)
    ensures Discounted(Record(epi, step, gamma), rs + [step.r], gamma)
  {
    forall i | 0 <= i <= |epi|
      ensures Record(epi, step, gamma)[i].r == Return((rs + [step.r])[i..], gamma)
    {
      RecordKeepsDiscountedAt(epi, rs, step, gamma, i);
    }
  }

  class PolicyGradient {
    const gamma: real
    const alpha: real
    const outputs: nat
    const inputs: nat
    var s: Option<seq<real>>
    var a: Option<nat>
    var r: Option<real>
    var l: Option<Policy>
    var pi: Option<seq<real>>
    var w: seq<seq<real>>
    var b: seq<real>
    var epi: seq<Step>
    /** The reward passed with each recorded step, oldest first. */
    ghost var rewards: seq<real>

    ghost predicate Valid()
      reads this
    {
      && IsMatrix(w, outputs, inputs) && |b| == outputs
      && (s.Some? <==> a.Some?) && (s.Some? <==> l.Some?)
      && Discounted(epi, rewards, gamma)
    }

    /** `w0` is the random initial weight matrix. */
    constructor (outputs: nat, inputs: nat, w0: seq<seq<real>>, alpha: real, gamma: real)
      requires IsMatrix(w0, outputs, inputs)
      ensures Valid()
      ensures this.outputs == outputs && this.inputs == inputs
      ensures this.alpha == alpha && this.gamma == gamma
      ensures w == w0 && b == seq(outputs, _ => 0.0)
      ensures s == None && a == None && r == None && l == None && pi == None
      ensures epi == [] && rewards == []
    {
      this.outputs := outputs;
      this.inputs := inputs;
      this.alpha := alpha;
      this.gamma := gamma;
      s, a, r, l, pi := None, None, None, None, None;
      w := w0;
      b := seq(outputs, _ => 0.0);
      epi := [];
      rewards := [];
    }

    method Reset()
      requires Valid()
      modifies this
      ensures Valid()
      ensures s == None && a == None && r == None && l == None && pi == None
      ensures epi == [] && rewards == []
      ensures w == old(w) && b == old(b)
    {
      s, a, r, l, pi := None, None, None, None, None;
      epi := [];
      rewards := [];
    }

    /** The end of `update`: apply the accumulated gradient `(dw, db)` and
        empty the episode list. */
    method Update(dw: seq<seq<real>>, db: seq<real>)
      requires Valid()
      requires IsMatrix(dw, outputs, inputs) && |db| == outputs
      modifies this
      ensures Valid()
      ensures w == MatAdd(old(w), dw) && b == VecAdd(old(b), db)
      ensures epi == [] && rewards == []
      ensures s == old(s) && a == old(a) && r == old(r) && l == old(l) && pi == old(pi)
    {
      w := MatAdd(w, dw);
      b := VecAdd(b, db);
      epi := [];
      rewards := [];
    }

    /** `__call__(ns, r)`: record the previous step with reward `reward`,
        discount it back over the episode, then choose the next action. */
    method Call(ns: seq<real>, reward: real, softmax: seq<real> -> seq<real>, choose: seq<real> -> nat)
      returns (action: nat)
      requires Valid()
      requires |ns| == inputs
      modifies this
      ensures Valid()
      ensures old(s).None? ==> epi == old(epi) && rewards == old(rewards)
      ensures old(s).Some? ==>
        epi == Record(old(epi), Step(reward, old(s).value, old(a).value, old(l).value), gamma)
        && rewards == old(rewards) + [reward]
      ensures action == choose(softmax(Logits(w, b, ns)))
      ensures s == Some(ns) && a == Some(action)
      ensures l == Some(Policy(Logits(w, b, ns), softmax(Logits(w, b, ns))))
      ensures w == old(w) && b == old(b) && r == old(r) && pi == old(pi)
    {
      if s.Some? {
        var step := Step(reward, s.value, a.value, l.value);
        RecordKeepsDiscounted(epi, rewards, step, gamma);
        epi := RecordStep(epi, step, gamma);
        rewards := rewards + [reward];
      }
      var logits := Logits(w, b, ns);
      var p := softmax(logits);
      action := choose(p);
      a := Some(action);
      s := Some(ns);
      l := Some(Policy(logits, p));
    }
  }
}
