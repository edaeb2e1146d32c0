/** Messages, the rules they run under, and what they cost. */
module Fees {
  import opened Common
  import opened Worlds
  import opened IntrinsicGases
  import opened Authorizations

  const BLOB_GAS: nat := 0x2_0000
  const MAX_BLOBS: nat := 6
  const MAX_TX_GAS: nat := 0x100_0000
  const MAX_INIT_CODE: nat := 49152
  const MAX_INIT_CODE_AMSTERDAM: nat := 65536
  const REFUND_QUOTIENT: nat := 2
  const REFUND_QUOTIENT_EIP3529: nat := 5
  const BASE_FEE_VAULT := Address(0x4200000000000000000000000000000000000019)
  const L1_FEE_VAULT := Address(0x420000000000000000000000000000000000001A)
  const OPERATOR_VAULT := Address(0x420000000000000000000000000000000000001B)

  /** Which forks are active. `optimism` says the chain is an OP chain, `regolith` is the fork alone. */
  datatype Rules = Rules(homestead: bool, istanbul: bool, london: bool, shanghai: bool, cancun: bool, prague: bool, osaka: bool,
                         amsterdam: bool, optimism: bool, bedrock: bool, regolith: bool, isthmus: bool)

  /** The operator fee parameters an Isthmus block reads from the state. */
  datatype Operator = Operator(scalar: nat, constant: nat, jovian: bool)

  /** The block a message runs in. `operator` is there when Isthmus is active and the fee is set. */
  datatype Env = Env(rules: Rules, baseFee: nat, blobBaseFee: nat, coinbase: Address, chainId: nat, operator: Option<Operator>)

  /** OP forks come in order, and on an OP chain London is active by Bedrock. */
  ghost predicate Consistent(env: Env) {
    && (env.rules.isthmus ==> env.rules.bedrock)
    && (env.rules.bedrock ==> env.rules.optimism && env.rules.london)
    && (env.operator.Some? ==> env.rules.isthmus && env.operator.value.scalar < 0x1_0000_0000 && env.operator.value.constant < U64)
  }

  /** `l1Cost` is what the L1 cost function says of the message, `blobsValid` that every blob hash
      has the right version. */
  datatype Message = Message(from: Address, to: Option<Address>, nonce: nat, value: nat, gasLimit: nat,
                             gasPrice: nat, feeCap: nat, tipCap: nat, data: seq<Byte>, keys: seq<nat>,
                             auths: Option<seq<Authorization>>, blobs: Option<nat>, blobsValid: bool, blobFeeCap: nat,
                             deposit: bool, system: bool, mint: nat, l1Cost: Option<nat>)

  /** The fee fields of the transaction kinds. */
  datatype Pricing = Legacy(price: nat) | Dynamic(tip: nat, cap: nat) | Free

  function TipCap(p: Pricing): nat {
    match p case Legacy(price) => price case Dynamic(tip, _) => tip case Free => 0
  }

  function FeeCap(p: Pricing): nat {
    match p case Legacy(price) => price case Dynamic(_, cap) => cap case Free => 0
  }

  /** Gives a message the fee fields of its transaction and the price it pays per gas. */
  function Priced(msg: Message, p: Pricing, env: Env): Message {
    var sum := TipCap(p) + env.baseFee;
    msg.(tipCap := TipCap(p), feeCap := FeeCap(p),
         gasPrice := if env.rules.london && sum <= FeeCap(p) then sum else FeeCap(p))
  }

  /** The message comes from a transaction: words fit, the price is the effective one, and deposits
      carry no fees, blobs, lists or rollup data. */
  ghost predicate Built(msg: Message, env: Env) {
    && msg.gasLimit < U64 && msg.nonce < U64 && |msg.data| < U64 / 4 && msg.gasPrice < U256
    && (exists p :: msg == Priced(msg, p, env) && msg.deposit == p.Free?)
    && (msg.deposit ==> msg.blobs.None? && msg.auths.None? && msg.keys == [] && msg.l1Cost.None?)
    && (msg.system ==> msg.deposit) && (!msg.deposit ==> msg.mint == 0)
    && (msg.l1Cost.Some? ==> env.rules.optimism)
  }

  /** The price is within the cap. From London on it is the base fee and the tip cap, or as much of that as
      the fee cap leaves; before, and with a fee cap below the base fee, it is the cap. */
  lemma {:induction false} EffectivePrice(msg: Message, env: Env)
    requires Built(msg, env)
    ensures msg.gasPrice <= msg.feeCap && (msg.deposit ==> msg.gasPrice == 0)
    ensures env.rules.london && env.baseFee <= msg.feeCap ==> msg.gasPrice - env.baseFee == Min(msg.tipCap, msg.feeCap - env.baseFee)
    ensures !(env.rules.london && env.baseFee <= msg.feeCap) ==> msg.gasPrice == msg.feeCap
  {
    var p :| msg == Priced(msg, p, env) && msg.deposit == p.Free?;
  }

  /** What each kind of transaction pays per gas. */
  lemma {:induction false} KindsPay(msg: Message, env: Env, a: nat, b: nat)
    ensures Priced(msg, Legacy(a), env).gasPrice == a && Priced(msg, Free, env).gasPrice == 0
    ensures Priced(msg, Dynamic(a, b), env).gasPrice
            == if env.rules.london && env.baseFee <= b then env.baseFee + Min(a, b - env.baseFee) else b
    ensures Priced(msg, Dynamic(a, b), env) == msg.(tipCap := a, feeCap := b, gasPrice := Priced(msg, Dynamic(a, b), env).gasPrice)
    ensures Priced(msg, Legacy(a), env) == msg.(tipCap := a, feeCap := a, gasPrice := a)
  {
  }

  // ---- Amounts -----------------------------------------------------------------------------------

  function Or0(n: Option<nat>): nat {
    if n.Some? then n.value else 0
  }

  function OperatorCost(op: Option<Operator>, gas: nat): nat {
    if op.None? then 0
    else if op.value.jovian then gas * op.value.scalar * 100 + op.value.constant
    else gas * op.value.scalar / 1_000_000 + op.value.constant
  }

  lemma {:induction false} Distributes(x: int, y: int, z: int)
    ensures (x - y) * z == x * z - y * z && z * (x - y) == z * x - z * y
  {
  }

  /** The operator fee: none without parameters; the constant and a scalar per million gas, rounded down, in
      Isthmus; the constant and a hundred times the scalar per gas from Jovian on. */
  lemma {:induction false} OperatorCostIs(op: Option<Operator>, gas: nat)
    ensures op.None? ==> OperatorCost(op, gas) == 0
    ensures op.Some? && !op.value.jovian ==>
              var variable := OperatorCost(op, gas) - op.value.constant;
              1_000_000 * variable <= gas * op.value.scalar < 1_000_000 * variable + 1_000_000
    ensures op.Some? && op.value.jovian ==>
              && OperatorCost(op, 0) == op.value.constant
              && OperatorCost(op, gas + 1) == OperatorCost(op, gas) + 100 * op.value.scalar
  {
    if op.Some? && op.value.jovian {
      Distributes(gas + 1, gas, op.value.scalar);
    }
  }

  /** The operator fee grows with the gas, so refunding the difference never panics. */
  lemma {:induction false} OperatorCostGrows(op: Option<Operator>, less: nat, more: nat)
    requires less <= more
    ensures OperatorCost(op, less) <= OperatorCost(op, more)
  {
    if op.Some? {
      TimesGrows(less, more, op.value.scalar);
    }
  }

  /** The conversion of the operator fee to 256 bits never panics. */
  lemma {:induction false} OperatorCostFits(env: Env, gas: nat)
    requires Consistent(env) && gas < U64
    ensures OperatorCost(env.operator, gas) < U256
  {
    if env.operator.Some? {
      TimesGrows(gas, U64, env.operator.value.scalar);
    }
  }

  function BlobGas(msg: Message): nat {
    Or0(msg.blobs) * BLOB_GAS
  }

  function BlobFee(msg: Message, env: Env): nat {
    if env.rules.cancun then BlobGas(msg) * env.blobBaseFee else 0
  }

  /** What the sender pays up front. */
  function Charged(msg: Message, env: Env): nat {
    msg.gasLimit * msg.gasPrice + Or0(msg.l1Cost) + OperatorCost(env.operator, msg.gasLimit) + BlobFee(msg, env)
  }

  /** What the sender must own. */
  function Checked(msg: Message, env: Env): nat {
    msg.gasLimit * msg.feeCap + Or0(msg.l1Cost) + OperatorCost(env.operator, msg.gasLimit) + msg.value
    + if env.rules.cancun then BlobGas(msg) * msg.blobFeeCap else 0
  }

  /** The sender of an accepted message owns what is charged and, after that, what is sent. */
  lemma {:induction false} ChargeCovered(msg: Message, env: Env)
    requires Built(msg, env) && (env.rules.cancun && BlobGas(msg) > 0 ==> env.blobBaseFee <= msg.blobFeeCap)
    ensures Charged(msg, env) + msg.value <= Checked(msg, env)
  {
    EffectivePrice(msg, env);
    TimesGrows(msg.gasPrice, msg.feeCap, msg.gasLimit);
    if env.rules.cancun && BlobGas(msg) > 0 {
      TimesGrows(env.blobBaseFee, msg.blobFeeCap, BlobGas(msg));
    }
  }

  /** What must be owned is the charge at the highest prices the message allows, and what is sent. */
  lemma {:induction false} CheckedIsWorstCase(msg: Message, env: Env)
    ensures Checked(msg, env) == Charged(msg.(gasPrice := msg.feeCap), env.(blobBaseFee := msg.blobFeeCap)) + msg.value
  {
  }

  /** The tip per gas that the coinbase gets. */
  function Tip(msg: Message, env: Env): int {
    if env.rules.london then msg.gasPrice - env.baseFee else msg.gasPrice
  }

  /** The wei a message takes out of existence. */
  function Burnt(msg: Message, env: Env, used: nat): nat {
    BlobFee(msg, env)
    + (if env.rules.bedrock then 0 else Or0(msg.l1Cost) + if env.rules.london then used * env.baseFee else 0)
  }

  /** What the coinbase and the three vaults get. */
  function Rewards(msg: Message, env: Env, used: nat): int {
    used * Tip(msg, env)
    + if env.rules.bedrock then used * env.baseFee + Or0(msg.l1Cost) + OperatorCost(env.operator, used) else 0
  }

  /** What the sender paid up front, less what they get back. */
  function Paid(msg: Message, env: Env, used: nat): int {
    Charged(msg, env) - (msg.gasLimit - used) * msg.gasPrice
    - (OperatorCost(env.operator, msg.gasLimit) - OperatorCost(env.operator, used))
  }

  /** Everything the sender pays goes to the coinbase, to the vaults or out of existence. */
  lemma {:induction false} PaymentSplits(msg: Message, env: Env, used: nat)
    requires Consistent(env)
    ensures Paid(msg, env, used) == Rewards(msg, env, used) + Burnt(msg, env, used)
  {
    Distributes(msg.gasLimit, used, msg.gasPrice);
    Distributes(msg.gasPrice, env.baseFee, used);
  }

  /** From Cancun on every blob burns 131072 gas at the blob base fee; on an OP chain nothing else burns, and
      elsewhere from London on the base fee of the gas used does. */
  lemma {:induction false} BurntIs(msg: Message, env: Env, used: nat)
    requires Consistent(env) && (msg.l1Cost.Some? ==> env.rules.optimism)
    ensures var blobs := if env.rules.cancun && msg.blobs.Some? then msg.blobs.value * 131072 * env.blobBaseFee else 0;
            && (env.rules.bedrock ==> Burnt(msg, env, used) == blobs)
            && (!env.rules.optimism && env.rules.london ==> Burnt(msg, env, used) == blobs + used * env.baseFee)
            && (!env.rules.optimism && !env.rules.london ==> Burnt(msg, env, used) == blobs)
  {
  }

  // ---- Gas used -----------------------------------------------------------------------------------

  /** A refund is at most this share of the gas used so far. */
  function RefundCap(peak: nat, rules: Rules): (cap: nat)
    ensures cap <= peak
  {
    if rules.london then peak / REFUND_QUOTIENT_EIP3529 else peak / REFUND_QUOTIENT
  }

  /** The gas a message is charged for: its peak less the capped refund, but at least the floor. */
  function UsedGas(peak: nat, refund: nat, rules: Rules, floor: nat): nat {
    Max(peak - Min(refund, RefundCap(peak, rules)), floor)
  }

  /** The refund granted is the largest one within the counter that is at most a fifth of the peak from
      London on, and half of it before; the floor is all that can raise the gas again. */
  lemma {:induction false} RefundIsLargest(peak: nat, counter: nat, rules: Rules, floor: nat)
    ensures var granted := peak - UsedGas(peak, counter, rules, 0);
            var quotient := if rules.london then 5 else 2;
            && 0 <= granted <= counter && quotient * granted <= peak
            && (forall x: nat | x <= counter && quotient * x <= peak :: x <= granted)
            && UsedGas(peak, counter, rules, floor) == if peak - granted < floor then floor else peak - granted
  {
  }
}
