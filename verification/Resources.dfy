/** Admission of trials to a bounded set of resources. */
module Resources {
  import opened Wrappers

  /** What a trial needs, in the order in which it lists it. Resource names do not repeat. */
  type Cost = seq<(string, int)>

  predicate Distinct(cost: Cost) {
    forall i, j :: 0 <= i < j < |cost| ==> cost[i].0 != cost[j].0
  }

  function Amount(cost: Cost, k: string): int {
    if cost == [] then 0
    else Amount(cost[..|cost| - 1], k) + (if cost[|cost| - 1].0 == k then cost[|cost| - 1].1 else 0)
  }

  datatype Pool = Pool(capacity: map<string, int>, inUse: map<string, int>, reservations: map<int, Cost>)

  function Get(m: map<string, int>, k: string): int {
    if k in m then m[k] else 0
  }

  /** How much of `k` is free. A resource that the pool does not have is never free. */
  function Available(p: Pool, k: string): int {
    if k in p.capacity then p.capacity[k] - Get(p.inUse, k) else 0
  }

  datatype Answer = Granted | Refused | NegativeCost | AlreadyReserved

  /** The verdict on the first item that is negative or does not fit. */
  function Check(p: Pool, cost: Cost): Answer {
    if cost == [] then Granted
    else
      var before := Check(p, cost[..|cost| - 1]);
      var item := cost[|cost| - 1];
      if before != Granted then before
      else if item.1 < 0 then NegativeCost
      else if Available(p, item.0) < item.1 then Refused
      else Granted
  }

  function Charge(inUse: map<string, int>, cost: Cost): map<string, int> {
    if cost == [] then inUse
    else
      var m := Charge(inUse, cost[..|cost| - 1]);
      var item := cost[|cost| - 1];
      m[item.0 := Get(m, item.0) + item.1]
  }

  function Discharge(inUse: map<string, int>, cost: Cost): map<string, int> {
    if cost == [] then inUse
    else
      var m := Discharge(inUse, cost[..|cost| - 1]);
      var item := cost[|cost| - 1];
      m[item.0 := Max(0, Get(m, item.0) - item.1)]
  }

  function Acquired(p: Pool, iter: int, cost: Cost): (r: (Pool, Answer)) {
    if iter in p.reservations then (p, AlreadyReserved)
    else
      var answer := Check(p, cost);
      if answer == Granted then
        (p.(inUse := Charge(p.inUse, cost), reservations := p.reservations[iter := cost]), Granted)
      else (p, answer)
  }

  function Released(p: Pool, iter: int): Pool {
    if iter !in p.reservations then p
    else p.(inUse := Discharge(p.inUse, p.reservations[iter]), reservations := p.reservations - {iter})
  }

  /** The pool as it runs. The lock makes each method atomic. */
  class ResourcePool {
    const capacity: map<string, int>
    var inUse: map<string, int>
    var reservations: map<int, Cost>

    function View(): Pool
      reads this
    {
      Pool(capacity, inUse, reservations)
    }

    constructor (capacity: map<string, int>)
      requires capacity != map[] && forall k :: k in capacity ==> capacity[k] >= 0
      ensures View() == Pool(capacity, map[], map[])
    {
      this.capacity := capacity;
      inUse, reservations := map[], map[];
    }

    method TryAcquire(iter: int, cost: Cost) returns (answer: Answer)
      modifies this
      ensures (View(), answer) == Acquired(old(View()), iter, cost)
    {
      if iter in reservations {
        return AlreadyReserved;
      }
      assert cost[..|cost|] == cost;
      for i := 0 to |cost|
        invariant View() == old(View())
        invariant Check(View(), cost[..i]) == Granted
      {
        var (k, v) := cost[i];
        assert cost[..i + 1][..i] == cost[..i];
        if v < 0 {
          CheckStops(View(), cost, i + 1);
          return NegativeCost;
        }
        if (if k in capacity then capacity[k] - Get(inUse, k) else 0) < v {
          CheckStops(View(), cost, i + 1);
          return Refused;
        }
      }
      for i := 0 to |cost|
        invariant reservations == old(reservations)
        invariant inUse == Charge(old(inUse), cost[..i])
      {
        var (k, v) := cost[i];
        assert cost[..i + 1][..i] == cost[..i];
        inUse := inUse[k := Get(inUse, k) + v];
      }
      reservations := reservations[iter := cost];
      answer := Granted;
    }

    method Release(iter: int)
      modifies this
      ensures View() == Released(old(View()), iter)
    {
      if iter !in reservations {
        return;
      }
      var cost := reservations[iter];
      reservations := reservations - {iter};
      assert cost[..|cost|] == cost;
      for i := 0 to |cost|
        invariant reservations == old(reservations) - {iter}
        invariant inUse == Discharge(old(inUse), cost[..i])
      {
        var (k, v) := cost[i];
        assert cost[..i + 1][..i] == cost[..i];
        inUse := inUse[k := Max(0, Get(inUse, k) - v)];
      }
    }
  }

  lemma {:induction false} CheckStops(p: Pool, cost: Cost, n: nat)
    requires n <= |cost| && Check(p, cost[..n]) != Granted
    ensures Check(p, cost) == Check(p, cost[..n])
    decreases |cost|
  {
    if n < |cost| {
      var init := cost[..|cost| - 1];
      assert init[..n] == cost[..n];
      CheckStops(p, init, n);
    } else {
      assert cost[..n] == cost;
    }
  }

  // ---------------------------------------------------------------- conservation

  ghost function Pick<T>(s: set<T>): (x: T)
    requires s != {}
    ensures x in s
  {
    var x :| x in s;
    x
  }

  /** The amount of `k` that all reservations hold together. */
  ghost function Total(res: map<int, Cost>, k: string): int
    decreases |res|
  {
    if res.Keys == {} then 0
    else
      var i := Pick(res.Keys);
      assert res.Keys == (res - {i}).Keys + {i};
      Amount(res[i], k) + Total(res - {i}, k)
  }

  lemma {:induction false} TotalWithout(res: map<int, Cost>, i: int, k: string)
    requires i in res
    ensures Total(res, k) == Amount(res[i], k) + Total(res - {i}, k)
    decreases |res|
  {
    var j := Pick(res.Keys);
    WithoutKeys(res, i);
    WithoutKeys(res, j);
    if i != j {
      TotalWithout(res - {j}, i, k);
      TotalWithout(res - {i}, j, k);
      assert res - {j} - {i} == res - {i} - {j};
    }
  }

  lemma WithoutKeys(res: map<int, Cost>, i: int)
    requires i in res
    ensures res.Keys == (res - {i}).Keys + {i} && |res - {i}| < |res|
  {
    assert res.Keys == (res - {i}).Keys + {i};
  }

  predicate NonNegative(cost: Cost) {
    forall i :: 0 <= i < |cost| ==> cost[i].1 >= 0
  }

  /** What every operation keeps: the amount in use is the sum of the reserved costs, within capacity. */
  ghost predicate Conserved(p: Pool) {
    && (forall k :: k in p.capacity ==> p.capacity[k] >= 0)
    && (forall i :: i in p.reservations ==> Distinct(p.reservations[i]) && NonNegative(p.reservations[i]))
    && (forall k :: Get(p.inUse, k) == Total(p.reservations, k))
    && (forall k :: 0 <= Get(p.inUse, k) <= Get(p.capacity, k))
  }

  lemma {:induction false} AmountIn(cost: Cost, k: string)
    requires Distinct(cost)
    ensures forall i :: 0 <= i < |cost| && cost[i].0 == k ==> Amount(cost, k) == cost[i].1
    ensures (forall i :: 0 <= i < |cost| ==> cost[i].0 != k) ==> Amount(cost, k) == 0
    decreases |cost|
  {
    if cost != [] {
      var init := cost[..|cost| - 1];
      AmountIn(init, k);
      assert forall i :: 0 <= i < |init| ==> init[i] == cost[i];
    }
  }

  /** A request is granted exactly when every item is non-negative and fits. */
  lemma {:induction false} CheckMeaning(p: Pool, cost: Cost)
    ensures Check(p, cost) == Granted <==>
              forall i :: 0 <= i < |cost| ==> 0 <= cost[i].1 <= Available(p, cost[i].0)
    ensures Check(p, cost) != AlreadyReserved
    decreases |cost|
  {
    if cost != [] {
      var init := cost[..|cost| - 1];
      CheckMeaning(p, init);
      assert forall i :: 0 <= i < |init| ==> init[i] == cost[i];
    }
  }

  lemma {:induction false} ChargeAdds(inUse: map<string, int>, cost: Cost, k: string)
    ensures Get(Charge(inUse, cost), k) == Get(inUse, k) + Amount(cost, k)
    decreases |cost|
  {
    if cost != [] {
      ChargeAdds(inUse, cost[..|cost| - 1], k);
    }
  }

  /** As long as the amounts in use cover the cost, the clamp at zero changes nothing. */
  lemma {:induction false} DischargeSubtracts(inUse: map<string, int>, cost: Cost, k: string)
    requires NonNegative(cost) && Amount(cost, k) <= Get(inUse, k)
    ensures Get(Discharge(inUse, cost), k) == Get(inUse, k) - Amount(cost, k)
    decreases |cost|
  {
    if cost != [] {
      var init := cost[..|cost| - 1];
      assert forall i :: 0 <= i < |init| ==> init[i] == cost[i];
      assert NonNegative(init);
      assert cost[|cost| - 1].1 >= 0;
      DischargeSubtracts(inUse, init, k);
    }
  }

  lemma {:induction false} TotalNonNegative(res: map<int, Cost>, k: string)
    requires forall i :: i in res ==> Distinct(res[i]) && NonNegative(res[i])
    ensures Total(res, k) >= 0
    ensures forall i :: i in res ==> 0 <= Amount(res[i], k) <= Total(res, k)
    decreases |res|
  {
    if res.Keys != {} {
      var j := Pick(res.Keys);
      assert res.Keys == (res - {j}).Keys + {j};
      AmountIn(res[j], k);
      TotalNonNegative(res - {j}, k);
    }
  }

  /** Acquiring conserves. A request that is not granted changes nothing, and it is granted exactly when the
      id is free and every item fits; then precisely its cost is added. */
  lemma AcquireConserves(p: Pool, iter: int, cost: Cost)
    requires Conserved(p) && Distinct(cost)
    ensures var (p', answer) := Acquired(p, iter, cost);
            && Conserved(p')
            && (answer == Granted <==>
                  iter !in p.reservations
                  && forall i :: 0 <= i < |cost| ==> 0 <= cost[i].1 <= Available(p, cost[i].0))
            && (answer != Granted ==> p' == p)
            && (answer == Granted ==> p'.reservations == p.reservations[iter := cost]
                                      && forall k :: Get(p'.inUse, k) == Get(p.inUse, k) + Amount(cost, k))
  {
    CheckMeaning(p, cost);
    var (p', answer) := Acquired(p, iter, cost);
    if answer == Granted {
      forall k
        ensures Get(p'.inUse, k) == Get(p.inUse, k) + Amount(cost, k)
        ensures Get(p'.inUse, k) == Total(p'.reservations, k)
        ensures 0 <= Get(p'.inUse, k) <= Get(p'.capacity, k)
      {
        AcquiredAmount(p, iter, cost, k);
      }
    }
  }

  /** A granted request adds its amount of `k`, which fits. */
  lemma AcquiredAmount(p: Pool, iter: int, cost: Cost, k: string)
    requires Conserved(p) && Distinct(cost) && Acquired(p, iter, cost).1 == Granted
    ensures var p' := Acquired(p, iter, cost).0;
            && Get(p'.inUse, k) == Get(p.inUse, k) + Amount(cost, k)
            && Get(p'.inUse, k) == Total(p'.reservations, k)
            && 0 <= Get(p'.inUse, k) <= Get(p'.capacity, k)
  {
    var p' := Acquired(p, iter, cost).0;
    CheckMeaning(p, cost);
    ChargeAdds(p.inUse, cost, k);
    TotalWithout(p'.reservations, iter, k);
    assert p'.reservations - {iter} == p.reservations;
    AmountFits(p, cost, k);
  }

  lemma AmountFits(p: Pool, cost: Cost, k: string)
    requires Conserved(p) && Distinct(cost)
    requires forall i :: 0 <= i < |cost| ==> 0 <= cost[i].1 <= Available(p, cost[i].0)
    ensures 0 <= Amount(cost, k) && Get(p.inUse, k) + Amount(cost, k) <= Get(p.capacity, k)
  {
    AmountIn(cost, k);
    assert 0 <= Get(p.inUse, k) <= Get(p.capacity, k);
    if i :| 0 <= i < |cost| && cost[i].0 == k {
      assert 0 <= cost[i].1 <= Available(p, cost[i].0);
    }
  }

  /** The answer in terms of what the pool has and what is reserved: a request is granted exactly if its id is free and
      each of its amounts is non-negative and at most what the capacity leaves after all reservations. */
  lemma GrantedIff(p: Pool, iter: int, cost: Cost)
    requires Conserved(p)
    ensures Acquired(p, iter, cost).1 == Granted <==>
              && iter !in p.reservations
              && forall i :: 0 <= i < |cost| ==>
                   0 <= cost[i].1 <= Get(p.capacity, cost[i].0) - Total(p.reservations, cost[i].0)
    ensures Acquired(p, iter, cost).1 == AlreadyReserved <==> iter in p.reservations
  {
    CheckMeaning(p, cost);
    forall k
      ensures Available(p, k) == Get(p.capacity, k) - Total(p.reservations, k)
    {
      assert 0 <= Get(p.inUse, k) <= Get(p.capacity, k);
    }
  }

  /** Of the items that cannot be granted the first one decides: an error if it is negative, a refusal if it does not fit. */
  lemma {:induction false} FirstBadItem(p: Pool, cost: Cost, i: nat)
    requires Conserved(p) && i < |cost|
    requires forall j :: 0 <= j < i ==> 0 <= cost[j].1 <= Available(p, cost[j].0)
    requires !(0 <= cost[i].1 <= Available(p, cost[i].0))
    ensures Check(p, cost) == if cost[i].1 < 0 then NegativeCost else Refused
    decreases |cost|
  {
    var init := cost[..|cost| - 1];
    assert forall j :: 0 <= j < |init| ==> init[j] == cost[j];
    if i < |init| {
      FirstBadItem(p, init, i);
    } else {
      CheckMeaning(p, init);
    }
  }

  /** Releasing conserves, frees exactly the reserved cost, and never meets the clamp at zero. */
  lemma ReleaseConserves(p: Pool, iter: int)
    requires Conserved(p)
    ensures Conserved(Released(p, iter))
    ensures Released(p, iter).reservations == p.reservations - {iter}
    ensures iter in p.reservations ==>
              forall k :: Get(Released(p, iter).inUse, k) == Get(p.inUse, k) - Amount(p.reservations[iter], k)
    ensures iter !in p.reservations ==> Released(p, iter) == p
  {
    var p' := Released(p, iter);
    if iter in p.reservations {
      var cost := p.reservations[iter];
      forall k
        ensures Get(p'.inUse, k) == Get(p.inUse, k) - Amount(cost, k)
        ensures Get(p'.inUse, k) == Total(p'.reservations, k)
        ensures 0 <= Get(p'.inUse, k) <= Get(p'.capacity, k)
      {
        TotalNonNegative(p.reservations, k);
        TotalWithout(p.reservations, iter, k);
        assert Get(p.inUse, k) == Total(p.reservations, k);
        DischargeSubtracts(p.inUse, cost, k);
        TotalNonNegative(p'.reservations, k);
        assert 0 <= Get(p.inUse, k) <= Get(p.capacity, k);
      }
    } else {
      assert p.reservations - {iter} == p.reservations;
    }
  }

  /** A granted request that is released leaves every availability and every reservation as it found them. */
  lemma AcquireThenReleased(p: Pool, iter: int, cost: Cost)
    requires Conserved(p) && Distinct(cost) && Acquired(p, iter, cost).1 == Granted
    ensures var p' := Released(Acquired(p, iter, cost).0, iter);
            && p'.reservations == p.reservations
            && p'.capacity == p.capacity
            && forall k :: Available(p', k) == Available(p, k)
  {
    AcquireConserves(p, iter, cost);
    var q := Acquired(p, iter, cost).0;
    ReleaseConserves(q, iter);
    assert q.reservations - {iter} == p.reservations;
    var p' := Released(q, iter);
    forall k
      ensures Available(p', k) == Available(p, k)
    {
      assert Get(p'.inUse, k) == Get(q.inUse, k) - Amount(cost, k);
      assert Get(q.inUse, k) == Get(p.inUse, k) + Amount(cost, k);
    }
  }

  // ---------------------------------------------------------------- any sequence of calls

  datatype Call = Acquire(iter: int, cost: Cost) | Free(iter: int)

  function Perform(p: Pool, calls: seq<Call>): Pool {
    if calls == [] then p
    else
      var q := Perform(p, calls[..|calls| - 1]);
      match calls[|calls| - 1]
      case Acquire(iter, cost) => Acquired(q, iter, cost).0
      case Free(iter) => Released(q, iter)
  }

  lemma {:induction false} AlwaysConserved(capacity: map<string, int>, calls: seq<Call>)
    requires forall k :: k in capacity ==> capacity[k] >= 0
    requires forall i :: 0 <= i < |calls| && calls[i].Acquire? ==> Distinct(calls[i].cost)
    ensures Conserved(Perform(Pool(capacity, map[], map[]), calls))
    ensures Perform(Pool(capacity, map[], map[]), calls).capacity == capacity
  {
    if calls != [] {
      var init := calls[..|calls| - 1];
      assert forall i :: 0 <= i < |init| ==> init[i] == calls[i];
      AlwaysConserved(capacity, init);
      var q := Perform(Pool(capacity, map[], map[]), init);
      match calls[|calls| - 1]
      case Acquire(iter, cost) =>
        AcquireConserves(q, iter, cost);
      case Free(iter) =>
        ReleaseConserves(q, iter);
    }
  }
}
