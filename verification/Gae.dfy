/** Generalized advantage estimation, over the reals. */
module Gae {
  import opened Algebra

  /** The value of the state after step `t`. */
  function NextValue(steps: nat, values: seq<real>, next: real, t: nat): real
    requires t < steps <= |values|
  {
    if t == steps - 1 then next else values[t + 1]
  }

  /** The temporal-difference error of step `t`. */
  function Delta(rewards: seq<real>, values: seq<real>, next: real, gamma: real, t: nat): real
    requires |rewards| <= |values| && t < |rewards|
  {
    rewards[t] + Product(gamma, NextValue(|rewards|, values, next, t)) - values[t]
  }

  function Power(x: real, n: nat): real {
    if n == 0 then 1.0 else Product(x, Power(x, n - 1))
  }

  /** The sum of decay^l * delta[t + l] for all l below `n`. */
  function Discounted(rewards: seq<real>, values: seq<real>, next: real, gamma: real, decay: real, t: nat, n: nat): real
    requires |rewards| <= |values| && t + n <= |rewards|
  {
    if n == 0 then 0.0
    else Discounted(rewards, values, next, gamma, decay, t, n - 1)
         + Product(Power(decay, n - 1), Delta(rewards, values, next, gamma, t + n - 1))
  }

  /** The advantage of step `t`, as the paper defines it. */
  function Advantage(rewards: seq<real>, values: seq<real>, next: real, gamma: real, lam: real, t: nat): real
    requires |rewards| <= |values| && t <= |rewards|
  {
    Discounted(rewards, values, next, gamma, Product(gamma, lam), t, |rewards| - t)
  }

  lemma Factor(c: real, p: real, d: real, rest: real)
    ensures Product(Product(c, p), d) + Product(c, rest) == Product(c, rest + Product(p, d))
  {
    ProductAssociates(c, p, d);
    ProductSum(c, rest, Product(p, d), rest + Product(p, d));
  }

  /** Taking the first term out of the sum. */
  lemma {:induction false} TakeFirst(rewards: seq<real>, values: seq<real>, next: real, gamma: real, decay: real, t: nat, n: nat)
    requires |rewards| <= |values| && t + n + 1 <= |rewards|
    ensures Discounted(rewards, values, next, gamma, decay, t, n + 1)
         == Delta(rewards, values, next, gamma, t) + Product(decay, Discounted(rewards, values, next, gamma, decay, t + 1, n))
  {
    if n > 0 {
      TakeFirst(rewards, values, next, gamma, decay, t, n - 1);
      Factor(decay, Power(decay, n - 1), Delta(rewards, values, next, gamma, t + n),
             Discounted(rewards, values, next, gamma, decay, t + 1, n - 1));
    } else {
      ProductUnits(decay);
      ProductUnits(Delta(rewards, values, next, gamma, t));
    }
  }

  lemma AdvantageStep(rewards: seq<real>, values: seq<real>, next: real, gamma: real, lam: real, t: nat)
    requires |rewards| <= |values| && t < |rewards|
    ensures Advantage(rewards, values, next, gamma, lam, t)
         == Delta(rewards, values, next, gamma, t)
            + Product(Product(gamma, lam), Advantage(rewards, values, next, gamma, lam, t + 1))
  {
    TakeFirst(rewards, values, next, gamma, Product(gamma, lam), t, |rewards| - t - 1);
  }

  /** One step of the pass, in terms of the numbers it computes. */
  lemma Accumulated(reward: real, gamma: real, nextVal: real, value: real, lam: real, gae: real)
    ensures reward + gamma * nextVal - value + gamma * lam * gae
         == reward + Product(gamma, nextVal) - value + Product(Product(gamma, lam), gae)
  {
    ProductIs(gamma, nextVal);
    ProductIs(gamma, lam);
    ProductIs(gamma * lam, gae);
  }

  /** The backward pass: one running value fills the whole array with the sums of the definition. */
  method ComputeGae(rewards: seq<real>, values: seq<real>, next: real, gamma: real, lam: real)
    returns (advantages: array<real>)
    requires |rewards| <= |values|
    ensures advantages.Length == |rewards|
    ensures forall t :: 0 <= t < |rewards| ==> advantages[t] == Advantage(rewards, values, next, gamma, lam, t)
  {
    var n := |rewards|;
    advantages := new real[n](_ => 0.0);
    if n == 0 {
      return;
    }
    var gae := 0.0;
    for t := n downto 0
      invariant gae == Advantage(rewards, values, next, gamma, lam, t)
      invariant forall u :: t <= u < n ==> advantages[u] == Advantage(rewards, values, next, gamma, lam, u)
    {
      var nextVal := if t == n - 1 then next else values[t + 1];
      var delta := rewards[t] + gamma * nextVal - values[t];
      AdvantageStep(rewards, values, next, gamma, lam, t);
      Accumulated(rewards[t], gamma, nextVal, values[t], lam, gae);
      gae := delta + gamma * lam * gae;
      advantages[t] := gae;
    }
  }

  /** Advantage plus value, step by step, as far as both lists go. */
  function ComputeReturns(advantages: seq<real>, values: seq<real>): (returned: seq<real>)
    ensures |returned| == if |advantages| <= |values| then |advantages| else |values|
  {
    if advantages == [] || values == [] then []
    else [advantages[0] + values[0]] + ComputeReturns(advantages[1..], values[1..])
  }

  lemma {:induction false} ReturnAt(advantages: seq<real>, values: seq<real>, t: nat)
    requires t < |advantages| && t < |values|
    ensures ComputeReturns(advantages, values)[t] == advantages[t] + values[t]
  {
    if t > 0 {
      ReturnAt(advantages[1..], values[1..], t - 1);
    }
  }

  /** The discounted sum of the rewards from step `t` on, ending with the value of the final state. */
  function DiscountedReturn(rewards: seq<real>, next: real, gamma: real, t: nat): real
    requires t <= |rewards|
    decreases |rewards| - t
  {
    if t == |rewards| then next else rewards[t] + Product(gamma, DiscountedReturn(rewards, next, gamma, t + 1))
  }

  /** With lambda = 1 the values cancel out of the sum. */
  lemma {:induction false} Telescopes(rewards: seq<real>, values: seq<real>, next: real, gamma: real, t: nat)
    requires |rewards| <= |values| && t < |rewards|
    ensures Advantage(rewards, values, next, gamma, 1.0, t) + values[t] == DiscountedReturn(rewards, next, gamma, t)
    decreases |rewards| - t
  {
    var rest := Advantage(rewards, values, next, gamma, 1.0, t + 1);
    AdvantageStep(rewards, values, next, gamma, 1.0, t);
    ProductUnits(gamma);
    if t + 1 < |rewards| {
      Telescopes(rewards, values, next, gamma, t + 1);
      ProductSum(gamma, rest, values[t + 1], rest + values[t + 1]);
    }
  }

  /** The closed form of the discounted return. */
  function RewardSum(rewards: seq<real>, gamma: real, t: nat, n: nat): real
    requires t + n <= |rewards|
  {
    if n == 0 then 0.0 else RewardSum(rewards, gamma, t, n - 1) + Product(Power(gamma, n - 1), rewards[t + n - 1])
  }

  lemma {:induction false} RewardSumTakeFirst(rewards: seq<real>, gamma: real, t: nat, n: nat)
    requires t + n + 1 <= |rewards|
    ensures RewardSum(rewards, gamma, t, n + 1) == rewards[t] + Product(gamma, RewardSum(rewards, gamma, t + 1, n))
  {
    if n > 0 {
      RewardSumTakeFirst(rewards, gamma, t, n - 1);
      Factor(gamma, Power(gamma, n - 1), rewards[t + n], RewardSum(rewards, gamma, t + 1, n - 1));
    } else {
      ProductUnits(gamma);
      ProductUnits(rewards[t]);
    }
  }

  lemma {:induction false} DiscountedReturnIsSum(rewards: seq<real>, next: real, gamma: real, t: nat)
    requires t <= |rewards|
    ensures DiscountedReturn(rewards, next, gamma, t)
         == RewardSum(rewards, gamma, t, |rewards| - t) + Product(Power(gamma, |rewards| - t), next)
    decreases |rewards| - t
  {
    var n := |rewards| - t;
    if n > 0 {
      DiscountedReturnIsSum(rewards, next, gamma, t + 1);
      RewardSumTakeFirst(rewards, gamma, t, n - 1);
      Factor(gamma, Power(gamma, n - 1), next, RewardSum(rewards, gamma, t + 1, n - 1));
    } else {
      ProductUnits(next);
    }
  }

  /** The two ends of lambda. With 1, the returns computed from the advantages are the discounted rewards plus the
      discounted final value, whatever the value estimates; with 0, an advantage is the error of its own step. */
  lemma EndsOfLambda(rewards: seq<real>, values: seq<real>, next: real, gamma: real, advantages: seq<real>, t: nat)
    requires |rewards| == |advantages| <= |values| && t < |rewards|
    ensures advantages[t] == Advantage(rewards, values, next, gamma, 1.0, t) ==>
              ComputeReturns(advantages, values)[t]
              == RewardSum(rewards, gamma, t, |rewards| - t) + Product(Power(gamma, |rewards| - t), next)
    ensures Advantage(rewards, values, next, gamma, 0.0, t) == Delta(rewards, values, next, gamma, t)
  {
    ReturnAt(advantages, values, t);
    Telescopes(rewards, values, next, gamma, t);
    DiscountedReturnIsSum(rewards, next, gamma, t);
    AdvantageStep(rewards, values, next, gamma, 0.0, t);
    ProductUnits(gamma);
    ProductUnits(Advantage(rewards, values, next, gamma, 0.0, t + 1));
  }
}
