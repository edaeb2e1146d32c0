/** The gas a block has to give and the gas its transactions used. */
module GasPools {
  import opened Worlds

  datatype PoolError = LimitReached | PoolOverflow

  datatype PoolResult = Done | Error(err: PoolError)

  /** Gas is added up in 64 bits. */
  ghost predicate Tallied(before: nat, gas: nat, after: nat) {
    after == (before + gas) % U64
  }

  class GasPool {
    var remaining: nat
    var initial: nat
    var cumulativeUsed: nat

    /** Nothing was returned that was not taken. */
    ghost predicate Bounded()
      reads this
    {
      remaining <= initial < U64
    }

    /** And no more was used than is missing. */
    ghost predicate Valid()
      reads this
    {
      Bounded() && cumulativeUsed <= initial - remaining
    }

    /** Before Amsterdam what is missing is exactly what was used. */
    ghost predicate Exact()
      reads this
    {
      remaining + cumulativeUsed == initial
    }

    constructor (amount: nat)
      requires amount < U64
      ensures Valid() && Exact() && initial == remaining == amount && cumulativeUsed == 0
    {
      remaining, initial, cumulativeUsed := amount, amount, 0;
    }

    method SubGas(amount: nat) returns (r: PoolResult)
      modifies this`remaining
      ensures r == if old(remaining) < amount then Error(LimitReached) else Done
      ensures remaining == if r.Done? then old(remaining) - amount else old(remaining)
    {
      if remaining < amount {
        return Error(LimitReached);
      }
      remaining := remaining - amount;
      return Done;
    }

    method ReturnGas(returned: nat, gasUsed: nat) returns (r: PoolResult)
      requires returned < U64 && remaining < U64
      modifies this`remaining, this`cumulativeUsed
      ensures r == if old(remaining) + returned >= U64 then Error(PoolOverflow) else Done
      ensures r.Done? ==> remaining == old(remaining) + returned && Tallied(old(cumulativeUsed), gasUsed, cumulativeUsed)
      ensures r.Error? ==> remaining == old(remaining) && cumulativeUsed == old(cumulativeUsed)
    {
      if remaining > U64 - 1 - returned {
        return Error(PoolOverflow);
      }
      remaining := remaining + returned;
      cumulativeUsed := (cumulativeUsed + gasUsed) % U64;
      return Done;
    }

    /** The consumed gas; the source panics where this requires. */
    method Used() returns (gas: nat)
      requires remaining <= initial
      ensures gas + remaining == initial
    {
      return initial - remaining;
    }
  }
}
