/** The gas a message pays before anything runs, in 64-bit arithmetic. */
module IntrinsicGases {
  import opened Worlds

  const TX_GAS := 21000
  const TX_GAS_CREATE := 53000
  const ZERO_GAS := 4
  const NONZERO_GAS_FRONTIER := 68
  const NONZERO_GAS_EIP2028 := 16
  const INIT_CODE_WORD_GAS := 2
  const ACCESS_ADDRESS_GAS := 2400
  const ACCESS_KEY_GAS := 1900
  const NEW_ACCOUNT_GAS := 25000
  const AUTH_TUPLE_GAS := 12500
  const TOKENS_PER_NONZERO := 4
  const FLOOR_PER_TOKEN := 10
  const MAX64: nat := U64 - 1

  type Byte = x: int | 0 <= x < 256

  datatype Gas = Gas(amount: nat) | Overflow

  /** What of a message the intrinsic gas depends on. `keys` lists the storage-key count of each
      access-list address, `auths` is the length of the authorization list. */
  datatype Charge = Charge(data: seq<Byte>, keys: seq<nat>, auths: nat, create: bool, homestead: bool, eip2028: bool, eip3860: bool)

  function Zeroes(data: seq<Byte>): (z: nat)
    ensures z <= |data|
  {
    if data == [] then 0 else Zeroes(data[..|data| - 1]) + if data[|data| - 1] == 0 then 1 else 0
  }

  function Sum(ns: seq<nat>): nat {
    if ns == [] then 0 else Sum(ns[..|ns| - 1]) + ns[|ns| - 1]
  }

  /** The number of 32-byte words, rounded up, without leaving 64 bits. */
  function WordSize(size: nat): (words: nat)
    requires size < U64
    ensures 32 * words >= size && (words > 0 ==> 32 * (words - 1) < size)
  {
    if size > MAX64 - 31 then MAX64 / 32 + 1 else (size + 31) / 32
  }

  function NonzeroGas(c: Charge): nat {
    if c.eip2028 then NONZERO_GAS_EIP2028 else NONZERO_GAS_FRONTIER
  }

  function BaseGas(c: Charge): nat {
    if c.create && c.homestead then TX_GAS_CREATE else TX_GAS
  }

  // ---- The formulas over unbounded integers ------------------------------------------------

  ghost function DataGas(c: Charge): nat {
    var z := Zeroes(c.data);
    BaseGas(c) + (|c.data| - z) * NonzeroGas(c) + z * ZERO_GAS
    + if c.create && c.eip3860 then (|c.data| + 31) / 32 * INIT_CODE_WORD_GAS else 0
  }

  ghost function ListGas(c: Charge): nat {
    |c.keys| * ACCESS_ADDRESS_GAS + Sum(c.keys) * ACCESS_KEY_GAS + c.auths * NEW_ACCOUNT_GAS
  }

  ghost function Tokens(data: seq<Byte>): nat {
    (|data| - Zeroes(data)) * TOKENS_PER_NONZERO + Zeroes(data)
  }

  /** What a message without data and lists costs. */
  lemma {:induction false} BareCost(c: Charge)
    requires c.data == [] && c.keys == [] && c.auths == 0
    ensures DataGas(c) == (if c.create && c.homestead then 53000 else 21000) && ListGas(c) == 0
  {
  }

  lemma {:induction false} ZeroesNext(data: seq<Byte>, b: Byte)
    ensures Zeroes(data + [b]) == Zeroes(data) + if b == 0 then 1 else 0
  {
    assert (data + [b])[..|data|] == data;
  }

  lemma {:induction false} NextWord(n: nat)
    ensures (n + 32) / 32 == (n + 31) / 32 + if n % 32 == 0 then 1 else 0
  {
  }

  lemma {:induction false} Distribute(n: int, price: nat)
    ensures (n + 1) * price == n * price + price
  {
  }

  /** What one more byte adds: 4 for a zero; 16 for another from Istanbul on and 68 before; and from Shanghai
      on 2 for every word of init code begun. */
  lemma {:induction false} NextByte(c: Charge, b: Byte)
    ensures DataGas(c.(data := c.data + [b]))
            == DataGas(c) + (if b == 0 then 4 else if c.eip2028 then 16 else 68) + if c.create && c.eip3860 && |c.data| % 32 == 0 then 2 else 0
    ensures Tokens(c.data + [b]) == Tokens(c.data) + if b == 0 then 1 else 4
  {
    ZeroesNext(c.data, b);
    NextWord(|c.data|);
    Distribute(|c.data| - Zeroes(c.data), NonzeroGas(c));
  }

  /** What one more entry of a list adds: 2400 for an address and 1900 for each of its keys; 25000 for an
      authorization. */
  lemma {:induction false} NextEntry(c: Charge, keys: nat)
    ensures ListGas(c.(keys := c.keys + [keys])) == ListGas(c) + 2400 + 1900 * keys
    ensures ListGas(c.(auths := c.auths + 1)) == ListGas(c) + 25000
  {
    assert (c.keys + [keys])[..|c.keys|] == c.keys;
  }

  lemma {:induction false} Division(room: nat, price: nat, n: nat)
    requires price > 0
    ensures room / price < n <==> room < n * price
  {
    var q := room / price;
    assert room == q * price + room % price;
    if q < n {
      assert n * price >= (q + 1) * price;
    } else {
      assert n * price <= q * price;
    }
  }

  // ---- The computations -----------------------------------------------------------------------

  /** Adds `n` items at `price` each, or fails when that leaves 64 bits. */
  method AddData(gas: nat, n: nat, price: nat) returns (r: Gas)
    requires gas <= MAX64 && price > 0
    ensures r == if gas + n * price <= MAX64 then Gas(gas + n * price) else Overflow
  {
    Division(MAX64 - gas, price, n);
    if (MAX64 - gas) / price < n {
      return Overflow;
    }
    return Gas(gas + n * price);
  }

  method CountZeroes(data: seq<Byte>) returns (z: nat)
    ensures z == Zeroes(data)
  {
    z := 0;
    for i := 0 to |data|
      invariant z == Zeroes(data[..i])
    {
      assert data[..i + 1][..i] == data[..i];
      if data[i] == 0 { z := z + 1; }
    }
    assert data[..|data|] == data;
  }

  /** The base, data and init-code part. */
  method DataPart(c: Charge) returns (r: Gas)
    requires |c.data| < U64
    ensures r == if DataGas(c) <= MAX64 then Gas(DataGas(c)) else Overflow
  {
    r := Gas(BaseGas(c));
    if |c.data| > 0 {
      var z := CountZeroes(c.data);
      r := AddData(r.amount, |c.data| - z, NonzeroGas(c));
      if r.Overflow? { return; }
      r := AddData(r.amount, z, ZERO_GAS);
      if r.Overflow? { return; }
      if c.create && c.eip3860 {
        assert WordSize(|c.data|) == (|c.data| + 31) / 32;
        r := AddData(r.amount, WordSize(|c.data|), INIT_CODE_WORD_GAS);
      }
    }
  }

  lemma {:induction false} WrapOnce(gas: nat, a: nat, b: nat, c: nat)
    ensures (((gas + a) % U64 + b) % U64 + c) % U64 == (gas + a + b + c) % U64
  {
  }

  method CountKeys(keys: seq<nat>) returns (n: nat)
    ensures n == Sum(keys)
  {
    n := 0;
    for i := 0 to |keys|
      invariant n == Sum(keys[..i])
    {
      assert keys[..i + 1][..i] == keys[..i];
      n := n + keys[i];
    }
    assert keys[..|keys|] == keys;
  }

  /** Fails exactly when the base, data and init-code part leaves 64 bits; the list part is added
      without a check, so the result is the formula modulo 2^64. */
  method IntrinsicGas(c: Charge) returns (r: Gas)
    requires |c.data| < U64
    ensures r == if DataGas(c) <= MAX64 then Gas((DataGas(c) + ListGas(c)) % U64) else Overflow
  {
    r := DataPart(c);
    if r.Overflow? { return; }
    var keys := CountKeys(c.keys);
    WrapOnce(r.amount, |c.keys| * ACCESS_ADDRESS_GAS, keys * ACCESS_KEY_GAS, c.auths * NEW_ACCOUNT_GAS);
    var gas := (r.amount + |c.keys| * ACCESS_ADDRESS_GAS) % U64;
    gas := (gas + keys * ACCESS_KEY_GAS) % U64;
    gas := (gas + c.auths * NEW_ACCOUNT_GAS) % U64;
    return Gas(gas);
  }

  /** The token count is computed modulo 2^64; below 2^62 bytes that changes nothing, and the result
      is the floor, or an overflow exactly when the floor leaves 64 bits. */
  method FloorDataGas(data: seq<Byte>) returns (r: Gas)
    ensures r == if TX_GAS + Tokens(data) % U64 * FLOOR_PER_TOKEN <= MAX64
                 then Gas(TX_GAS + Tokens(data) % U64 * FLOOR_PER_TOKEN) else Overflow
    ensures |data| < U64 / 4 ==> r == if TX_GAS + Tokens(data) * FLOOR_PER_TOKEN <= MAX64
                                      then Gas(TX_GAS + Tokens(data) * FLOOR_PER_TOKEN) else Overflow
  {
    var z := CountZeroes(data);
    var tokens := ((|data| - z) * TOKENS_PER_NONZERO + z) % U64;
    if (MAX64 - TX_GAS) / FLOOR_PER_TOKEN < tokens {
      return Overflow;
    }
    return Gas(TX_GAS + tokens * FLOOR_PER_TOKEN);
  }
}
