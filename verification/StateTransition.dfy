/** Applying one message to the state. */
module StateTransitions {
  import opened Common
  import opened Worlds
  import opened IntrinsicGases
  import opened Authorizations
  import opened GasPools
  import opened Fees

  datatype Fault =
    | NonceTooHigh | NonceTooLow | NonceMax | GasLimitTooHigh | SenderNoEoa
    | FeeCapVeryHigh | TipVeryHigh | TipAboveFeeCap | FeeCapTooLow
    | BlobCreate | MissingBlobHashes | TooManyBlobs | BlobVersion | BlobFeeCapTooLow
    | SetCodeCreate | EmptyAuthList
    | InsufficientFunds | InsufficientForTransfer | GasLimitReached | SystemTx
    | GasOverflow | IntrinsicTooLow | FloorTooLow | InitCodeTooLarge
    | PoolOverflows | FeeOverflows | MintOverflows

  datatype Status = Completed | Reverted | FailedDeposit(fault: Fault)

  datatype Result = Executed(used: nat, maxUsed: nat, status: Status) | Rejected(fault: Fault)

  /** What a run of the EVM leaves behind. `burnt` is the wei of self-destructed accounts. */
  datatype Outcome = Outcome(world: World, gasLeft: nat, refund: nat, burnt: nat, failed: bool)

  /** The EVM: given the state, the refund counter and the gas, it runs the message's call or
      creation. */
  type Evm = (World, nat, nat) -> Outcome

  /** All that is assumed of the EVM: as long as all wei fit 256 bits, it makes neither gas nor wei. */
  ghost predicate Behaves(evm: Evm) {
    forall w: World, refund: nat, gas: nat | Fits(w) && Total(w) < U256 ::
      var o := evm(w, refund, gas);
      Fits(o.world) && o.gasLeft <= gas && o.refund < U64 && Total(o.world) + o.burnt == Total(w)
  }

  /** Between two states an account gained that much and is otherwise the same. */
  ghost predicate Gains(w: World, v: World, a: Address, x: int) {
    Get(v, a).balance == Get(w, a).balance + x && Get(v, a).nonce == Get(w, a).nonce && Get(v, a).code == Get(w, a).code
  }

  /** The amount if the account is the given one. */
  ghost function At(a: Address, to: Address, x: int): int {
    if a == to then x else 0
  }

  class StateDb {
    var world: World
    var refund: nat

    constructor (w: World)
      ensures world == w && refund == 0
    {
      world, refund := w, 0;
    }

    /** The amount is computed in 256 bits, which it fits. */
    method Credit(a: Address, amount: nat)
      requires Fits(world) && Total(world) + amount < U256
      modifies this`world
      ensures Fits(world) && Total(world) == old(Total(world)) + amount && world == AddBalance(old(world), a, amount)
      ensures forall b :: Gains(old(world), world, b, At(b, a, amount))
    {
      Credits(world, a, amount);
      var word := amount % U256;
      assert word == amount;
      world := AddBalance(world, a, word);
    }
  }

  /** Every rule that a message that is not a deposit has to satisfy before it may buy gas. */
  ghost predicate Obeys(msg: Message, env: Env, sender: Account) {
    && sender.nonce == msg.nonce && msg.nonce + 1 < U64
    && (env.rules.osaka ==> msg.gasLimit <= MAX_TX_GAS)
    && !sender.code.Contract?
    && (env.rules.london ==> msg.feeCap < U256 && msg.tipCap <= msg.feeCap && env.baseFee <= msg.feeCap)
    && (msg.blobs.Some? ==> msg.to.Some? && 0 < msg.blobs.value && (env.rules.osaka ==> msg.blobs.value <= MAX_BLOBS) && msg.blobsValid)
    && (env.rules.cancun && BlobGas(msg) > 0 ==> env.blobBaseFee <= msg.blobFeeCap)
    && (msg.auths.Some? ==> msg.to.Some? && msg.auths.value != [])
  }

  /** The rule that a fault names is broken. */
  ghost predicate Breaks(fault: Fault, msg: Message, env: Env, sender: Account) {
    match fault
    case NonceTooHigh => sender.nonce < msg.nonce
    case NonceTooLow => sender.nonce > msg.nonce
    case NonceMax => sender.nonce == msg.nonce == U64 - 1
    case GasLimitTooHigh => env.rules.osaka && msg.gasLimit > MAX_TX_GAS
    case SenderNoEoa => sender.code.Contract?
    case FeeCapVeryHigh => env.rules.london && msg.feeCap >= U256
    case TipVeryHigh => env.rules.london && msg.tipCap >= U256
    case TipAboveFeeCap => env.rules.london && msg.tipCap > msg.feeCap
    case FeeCapTooLow => env.rules.london && msg.feeCap < env.baseFee
    case BlobCreate => msg.blobs.Some? && msg.to.None?
    case MissingBlobHashes => msg.blobs == Some(0)
    case TooManyBlobs => env.rules.osaka && Or0(msg.blobs) > MAX_BLOBS
    case BlobVersion => msg.blobs.Some? && !msg.blobsValid
    case BlobFeeCapTooLow => env.rules.cancun && BlobGas(msg) > 0 && msg.blobFeeCap < env.blobBaseFee
    case SetCodeCreate => msg.auths.Some? && msg.to.None?
    case EmptyAuthList => msg.auths == Some([])
    case _ => false
  }

  /** A message obeys the rules if and only if it breaks none. */
  lemma {:induction false} RulesComplete(msg: Message, env: Env, sender: Account)
    requires msg.nonce < U64
    ensures Obeys(msg, env, sender) <==> forall fault :: !Breaks(fault, msg, env, sender)
  {
    if forall fault :: !Breaks(fault, msg, env, sender) {
      assert !Breaks(NonceTooHigh, msg, env, sender) && !Breaks(NonceTooLow, msg, env, sender) && !Breaks(NonceMax, msg, env, sender);
      assert !Breaks(GasLimitTooHigh, msg, env, sender) && !Breaks(SenderNoEoa, msg, env, sender);
      assert !Breaks(FeeCapVeryHigh, msg, env, sender) && !Breaks(TipAboveFeeCap, msg, env, sender) && !Breaks(FeeCapTooLow, msg, env, sender);
      assert !Breaks(BlobCreate, msg, env, sender) && !Breaks(MissingBlobHashes, msg, env, sender) && !Breaks(TooManyBlobs, msg, env, sender);
      assert !Breaks(BlobVersion, msg, env, sender) && !Breaks(BlobFeeCapTooLow, msg, env, sender);
      assert !Breaks(SetCodeCreate, msg, env, sender) && !Breaks(EmptyAuthList, msg, env, sender);
    }
  }

  function ChargeOf(msg: Message, env: Env): Charge {
    Charge(msg.data, msg.keys, if msg.auths.Some? then |msg.auths.value| else 0, msg.to.None?,
           env.rules.homestead, env.rules.istanbul, env.rules.shanghai)
  }

  function InitCodeLimit(rules: Rules): nat {
    if rules.amsterdam then MAX_INIT_CODE_AMSTERDAM else if rules.shanghai then MAX_INIT_CODE else U64
  }

  /** The state a call starts from. A creation starts from the state as it is. */
  ghost function Prepared(msg: Message, env: Env, w: World): World {
    if msg.to.None? then w else
      var v := SetNonce(w, msg.from, (Get(w, msg.from).nonce + 1) % U64);
      if msg.auths.None? then v else After(v, env.chainId, msg.auths.value, |msg.auths.value|)
  }

  /** Before a call the sender's nonce rises by one, in 64 bits, and nothing else changes but for the
      authorizations; before a creation nothing does. */
  lemma {:induction false} PreparedIs(msg: Message, env: Env, w: World, a: Address)
    ensures msg.to.None? ==> Prepared(msg, env, w) == w
    ensures msg.to.Some? && msg.auths.None? ==>
              var v := Get(Prepared(msg, env, w), a);
              v.balance == Get(w, a).balance && v.code == Get(w, a).code
              && v.nonce == if a == msg.from then (Get(w, a).nonce + 1) % 0x1_0000_0000_0000_0000 else Get(w, a).nonce
    ensures msg.to.Some? && msg.auths.Some? ==>
              Prepared(msg, env, w) == After(Prepared(msg.(auths := None), env, w), env.chainId, msg.auths.value, |msg.auths.value|)
  {
  }

  ghost function AuthRefund(msg: Message, env: Env, w: World): nat {
    if msg.to.None? || msg.auths.None? then 0 else
      Refund(SetNonce(w, msg.from, (Get(w, msg.from).nonce + 1) % U64), env.chainId, msg.auths.value, |msg.auths.value|)
  }

  ghost function Intrinsic(msg: Message, env: Env): nat {
    (DataGas(ChargeOf(msg, env)) + ListGas(ChargeOf(msg, env))) % U64
  }

  ghost function FloorOf(msg: Message, env: Env): nat {
    if env.rules.prague then TX_GAS + Tokens(msg.data) * FLOOR_PER_TOKEN else 0
  }

  /** The intrinsic gas by fork: what a message without data and lists pays, and what one more byte adds. */
  lemma {:induction false} GasByFork(msg: Message, env: Env, b: Byte)
    ensures msg.data == [] && msg.keys == [] && msg.auths.None? ==>
              Intrinsic(msg, env) == if msg.to.None? && env.rules.homestead then 53000 else 21000
    ensures DataGas(ChargeOf(msg.(data := msg.data + [b]), env))
            == DataGas(ChargeOf(msg, env)) + (if b == 0 then 4 else if env.rules.istanbul then 16 else 68)
               + if msg.to.None? && env.rules.shanghai && |msg.data| % 32 == 0 then 2 else 0
  {
    var c := ChargeOf(msg, env);
    if msg.data == [] && msg.keys == [] && msg.auths.None? {
      BareCost(c);
    }
    NextByte(c, b);
    assert ChargeOf(msg.(data := msg.data + [b]), env) == c.(data := c.data + [b]);
  }

  lemma {:induction false} AuthorizationGas(msg: Message, env: Env, auth: Authorization)
    requires msg.auths.Some?
    ensures ListGas(ChargeOf(msg.(auths := Some(msg.auths.value + [auth])), env)) == ListGas(ChargeOf(msg, env)) + 25000
  {
    NextEntry(ChargeOf(msg, env), 0);
  }

  /** The floor from Prague on: 21000, and 10 for a zero byte or 40 for another. */
  lemma {:induction false} FloorByFork(msg: Message, env: Env, b: Byte)
    ensures msg.data == [] ==> FloorOf(msg, env) == if env.rules.prague then 21000 else 0
    ensures FloorOf(msg.(data := msg.data + [b]), env) == FloorOf(msg, env) + if !env.rules.prague then 0 else if b == 0 then 10 else 40
  {
    NextByte(ChargeOf(msg, env), b);
  }

  /** A fault found before anything changed. */
  ghost predicate Early(fault: Fault) {
    !(fault.GasOverflow? || fault.IntrinsicTooLow? || fault.FloorTooLow? || fault.InitCodeTooLarge?
      || fault.InsufficientForTransfer? || fault.PoolOverflows? || fault.FeeOverflows? || fault.MintOverflows?)
  }

  /** The sender owns what the message may cost, and the block has the gas. */
  ghost predicate Affords(msg: Message, env: Env, sender: Account, pool: nat) {
    Checked(msg, env) < U256 && Checked(msg, env) <= sender.balance && msg.gasLimit <= pool
  }

  /** The charge left the sender and nothing else changed; what is to be sent is still there. */
  ghost predicate Bought(msg: Message, env: Env, w: World, v: World) {
    && v == SubBalance(w, msg.from, Charged(msg, env)) && Fits(v)
    && Total(v) + Charged(msg, env) == Total(w)
    && Get(v, msg.from).balance + Charged(msg, env) == Get(w, msg.from).balance
    && msg.value <= Get(v, msg.from).balance
  }

  /** The charge fits 256 bits, so the ignored overflow flag is never set, and does not underflow. */
  lemma {:induction false} Buys(msg: Message, env: Env, w: World)
    requires Built(msg, env) && Fits(w) && Obeys(msg, env, Get(w, msg.from))
    requires Checked(msg, env) < U256 && Checked(msg, env) <= Get(w, msg.from).balance
    ensures Charged(msg, env) % U256 == Charged(msg, env) && Bought(msg, env, w, SubBalance(w, msg.from, Charged(msg, env)))
  {
    ChargeCovered(msg, env);
    Debits(w, msg.from, Charged(msg, env));
  }

  // ---- Who gets what when a message is settled ---------------------------------------------

  ghost function VaultShare(msg: Message, env: Env, used: nat, a: Address): int {
    At(a, BASE_FEE_VAULT, used * env.baseFee) + At(a, L1_FEE_VAULT, Or0(msg.l1Cost))
  }

  ghost function OperatorShare(msg: Message, env: Env, used: nat, a: Address): int {
    At(a, msg.from, OperatorCost(env.operator, msg.gasLimit) - OperatorCost(env.operator, used))
    + At(a, OPERATOR_VAULT, OperatorCost(env.operator, used))
  }

  ghost function FeeShare(msg: Message, env: Env, used: nat, a: Address): int {
    At(a, env.coinbase, used * Tip(msg, env))
    + if env.rules.bedrock then VaultShare(msg, env, used, a) + OperatorShare(msg, env, used, a) else 0
  }

  /** The sender gets the price of the gas left, the coinbase the tip; on Bedrock the vaults get the
      base fee, the L1 fee and the operator fee of the gas used, and the sender the rest of that. */
  ghost function Share(msg: Message, env: Env, used: nat, a: Address): int {
    if msg.deposit then 0 else At(a, msg.from, (msg.gasLimit - used) * msg.gasPrice) + FeeShare(msg, env, used, a)
  }

  /** Who gets what, account by account, when they are all different. */
  lemma {:induction false} Recipients(msg: Message, env: Env, used: nat, a: Address)
    requires Consistent(env) && !msg.deposit
    requires msg.from != env.coinbase && msg.from.id < 0x4200000000000000000000000000000000000019
             && env.coinbase.id < 0x4200000000000000000000000000000000000019
    ensures a == env.coinbase ==> Share(msg, env, used, a) == used * if env.rules.london then msg.gasPrice - env.baseFee else msg.gasPrice
    ensures a == msg.from ==>
              Share(msg, env, used, a) == (msg.gasLimit - used) * msg.gasPrice
                                          + if env.rules.bedrock then OperatorCost(env.operator, msg.gasLimit) - OperatorCost(env.operator, used) else 0
    ensures env.rules.bedrock ==>
              && Share(msg, env, used, Address(0x4200000000000000000000000000000000000019)) == used * env.baseFee
              && Share(msg, env, used, Address(0x420000000000000000000000000000000000001A)) == (if msg.l1Cost.Some? then msg.l1Cost.value else 0)
              && Share(msg, env, used, Address(0x420000000000000000000000000000000000001B)) == OperatorCost(env.operator, used)
    ensures a !in {env.coinbase, msg.from}
            && (!env.rules.bedrock || a.id < 0x4200000000000000000000000000000000000019 || a.id > 0x420000000000000000000000000000000000001B) ==>
              Share(msg, env, used, a) == 0
  {
  }

  /** What is paid out after the gas left was returned, the operator refund included. */
  ghost function Due(msg: Message, env: Env, used: nat): int {
    used * Tip(msg, env)
    + if env.rules.bedrock then used * env.baseFee + Or0(msg.l1Cost) + OperatorCost(env.operator, msg.gasLimit) else 0
  }

  /** The fee rules that the settlement relies on. */
  ghost predicate Obeyed(msg: Message, env: Env) {
    env.rules.london ==> env.baseFee <= msg.feeCap
  }

  lemma {:induction false} TipFits(msg: Message, env: Env)
    requires Built(msg, env) && Obeyed(msg, env)
    ensures 0 <= Tip(msg, env) < U256
  {
    EffectivePrice(msg, env);
  }

  /** The gas returned and the fees paid make up the charge, less what burns. */
  lemma {:induction false} SettlementAdds(msg: Message, env: Env, used: nat)
    requires Consistent(env)
    ensures (msg.gasLimit - used) * msg.gasPrice + Due(msg, env, used) + Burnt(msg, env, used) == Charged(msg, env)
  {
    PaymentSplits(msg, env, used);
  }

  lemma {:induction false} DuePositive(msg: Message, env: Env, used: nat)
    requires 0 <= Tip(msg, env)
    ensures Due(msg, env, used) >= 0
  {
    TimesGrows(0, Tip(msg, env), used);
  }

  /** The message gets gas refunds: every message but a deposit before Regolith. */
  ghost predicate Refunds(msg: Message, env: Env) {
    msg.deposit ==> env.rules.optimism && env.rules.regolith
  }

  /** A fault found after the gas was bought. */
  ghost predicate Late(fault: Fault) {
    fault.GasOverflow? || fault.IntrinsicTooLow? || fault.FloorTooLow? || fault.InitCodeTooLarge? || fault.InsufficientForTransfer?
  }

  /** The gas limit pays for the intrinsic gas and for the data floor, and neither overflows. */
  ghost predicate Covers(msg: Message, env: Env) {
    && DataGas(ChargeOf(msg, env)) <= MAX64 && Intrinsic(msg, env) <= msg.gasLimit
    && FloorOf(msg, env) <= msg.gasLimit
  }

  /** What a fault in taking the intrinsic gas names. */
  ghost predicate FallsShort(fault: Fault, msg: Message, env: Env) {
    match fault
    case GasOverflow => DataGas(ChargeOf(msg, env)) > MAX64 || FloorOf(msg, env) > MAX64
    case IntrinsicTooLow => Intrinsic(msg, env) > msg.gasLimit
    case FloorTooLow => FloorOf(msg, env) > msg.gasLimit
    case _ => false
  }

  /** What is sent is there, and a creation's init code is not too large. */
  ghost predicate Runnable(msg: Message, env: Env, sender: Account) {
    && msg.value <= sender.balance
    && (msg.to.None? && env.rules.amsterdam ==> |msg.data| <= 65536)
    && (msg.to.None? && env.rules.shanghai && !env.rules.amsterdam ==> |msg.data| <= 49152)
  }

  /** The block takes the message: a deposit needs its gas, and a system transaction a time before
      Regolith; any other message must obey every rule and be paid for. */
  ghost predicate TakenIn(msg: Message, env: Env, sender: Account, pool: nat) {
    if msg.deposit then if msg.system then !(env.rules.optimism && env.rules.regolith) else msg.gasLimit <= pool
    else Obeys(msg, env, sender) && Affords(msg, env, sender, pool)
  }

  /** The EVM gets to run the message. */
  ghost predicate Admissible(msg: Message, env: Env, sender: Account, pool: nat) {
    TakenIn(msg, env, sender, pool) && Covers(msg, env) && Runnable(msg, env, sender)
  }

  /** The block includes the message: a deposit if it takes it, any other message if it can run. */
  ghost predicate Includable(msg: Message, env: Env, w: World, pool: nat) {
    && msg.mint < U256
    && var sender := Get(AddBalance(w, msg.from, msg.mint), msg.from);
    if msg.deposit then TakenIn(msg, env, sender, pool) else Admissible(msg, env, sender, pool)
  }

  /** The EVM gets to run the message after its mint. */
  ghost predicate Executable(msg: Message, env: Env, w: World, pool: nat) {
    Admissible(msg, env, Get(AddBalance(w, msg.from, msg.mint), msg.from), pool)
  }

  /** What is left after the gas is bought still covers what is sent. */
  lemma {:induction false} StillRunnable(msg: Message, env: Env, w: World, v: World)
    requires !msg.deposit && Bought(msg, env, w, v)
    ensures Runnable(msg, env, Get(v, msg.from)) <==> Runnable(msg, env, Get(w, msg.from))
  {
  }

  /** The gas reported: the peak less the capped refund, but at least the data floor; a deposit
      before Regolith reports all its gas, or none as a system transaction. */
  ghost predicate Metered(msg: Message, env: Env, r: Result, o: Outcome)
    requires r.Executed?
  {
    if !Refunds(msg, env) then r.used == if msg.system then 0 else msg.gasLimit else
      && o.gasLeft <= msg.gasLimit
      && r.used == UsedGas(msg.gasLimit - o.gasLeft, o.refund, env.rules, FloorOf(msg, env))
      && r.maxUsed == Max(msg.gasLimit - o.gasLeft, FloorOf(msg, env))
      && FloorOf(msg, env) <= r.used <= r.maxUsed <= msg.gasLimit
  }

  /** What the message paid before it ran, and what of that does not come back into existence. */
  ghost function Prepaid(msg: Message, env: Env): nat {
    if msg.deposit then 0 else Charged(msg, env)
  }

  ghost function Gone(msg: Message, env: Env, used: nat): nat {
    if msg.deposit then 0 else Burnt(msg, env, used)
  }

  /** The gas a message takes from the block when it is admitted. */
  ghost function Drawn(msg: Message): nat {
    if msg.system then 0 else msg.gasLimit
  }

  /** The gas reported for a deposit that failed. */
  ghost function FailedGas(msg: Message, env: Env): nat {
    if msg.system && !env.rules.regolith then 0 else msg.gasLimit
  }

  /** The two tests for a system transaction read different forks: one asks for Regolith on an OP
      chain, the other for Regolith alone. */
  ghost predicate Torn(msg: Message, env: Env) {
    msg.system && env.rules.regolith && !env.rules.optimism && msg.gasLimit > 0
  }

  /** Then, and only then, the gas that a failed deposit reports is not the gas it drew from the block. */
  lemma {:induction false} FailedGasIsDrawn(msg: Message, env: Env)
    requires !(msg.system && env.rules.optimism && env.rules.regolith)
    ensures FailedGas(msg, env) == Drawn(msg) <==> !Torn(msg, env)
    ensures Drawn(msg) <= FailedGas(msg, env)
  {
  }

  /** Giving the gas back stays within 64 bits. */
  ghost predicate Room(msg: Message, env: Env, remaining: nat) {
    remaining + Drawn(msg) < U64 && (msg.system ==> !(env.rules.optimism && env.rules.regolith))
  }

  /** The EVM ran on the prepared state, with the refunds of the authorizations and the gas that the
      intrinsic gas left. */
  ghost predicate Ran(msg: Message, env: Env, evm: Evm, refund: nat, w: World, o: Outcome) {
    Intrinsic(msg, env) <= msg.gasLimit
    && o == evm(Prepared(msg, env, w), refund + AuthRefund(msg, env, w), msg.gasLimit - Intrinsic(msg, env))
  }

  /** The state after the gas is bought; deposits buy none. */
  ghost function Debited(msg: Message, env: Env, w: World): World {
    if msg.deposit then w else SubBalance(w, msg.from, Charged(msg, env))
  }

  /** The gas given back to the block; from Amsterdam on refunds do not count for the block. */
  ghost function Given(msg: Message, env: Env, r: Result): int
    requires r.Executed?
  {
    if !Refunds(msg, env) then 0 else msg.gasLimit - if env.rules.amsterdam then r.maxUsed else r.used
  }

  /** The gas the block is left without. Before Amsterdam it is the gas reported; from then on the
      peak, which refunds do not lower. */
  ghost function Kept(msg: Message, env: Env, r: Result): nat
    requires r.Executed?
  {
    if r.status.FailedDeposit? then Drawn(msg) else if !env.rules.amsterdam || !Refunds(msg, env) then r.used else r.maxUsed
  }

  /** A deposit that failed changed the sender's nonce and nothing else, and reports the gas of a
      failed deposit. */
  ghost predicate Undone(msg: Message, env: Env, r: Result, w: World, v: World)
    requires r.Executed?
  {
    && msg.deposit && r.used == FailedGas(msg, env) && Total(v) == Total(w)
    && v == SetNonce(w, msg.from, (Get(w, msg.from).nonce + 1) % U64)
  }

  /** From state `w` the message led to `v`. Unless a deposit failed, the EVM ran after the charge, then
      everyone got their share, and exactly the wei that self-destructs and fees burn is gone. */
  ghost predicate Settled(msg: Message, env: Env, evm: Evm, refund: nat, r: Result, o: Outcome, w: World, v: World)
    requires r.Executed?
  {
    if r.status.FailedDeposit? then Undone(msg, env, r, w, v)
    else
      && Ran(msg, env, evm, refund, Debited(msg, env, w), o)
      && Metered(msg, env, r, o) && r.status == (if o.failed then Reverted else Completed)
      && (forall a :: Gains(o.world, v, a, Share(msg, env, r.used, a)))
      && Total(v) + o.burnt + Gone(msg, env, r.used) == Total(w)
  }

  /** The faults that keep a message out of a block. A deposit is only kept out for lack of block
      gas, as a system transaction from Regolith on, or for a mint that is no 256-bit number; any
      other message never for lack of funds at the transfer. */
  ghost predicate Refused(msg: Message, fault: Fault) {
    if msg.deposit then fault in {SystemTx, GasLimitReached, MintOverflows}
    else (Early(fault) || Late(fault) || fault.MintOverflows?) && !fault.InsufficientForTransfer?
  }

  class StateTransition {
    const gp: GasPool
    const state: StateDb
    const msg: Message
    const env: Env
    var gasRemaining: nat
    var initialGas: nat

    constructor (gp: GasPool, state: StateDb, msg: Message, env: Env)
      ensures this.gp == gp && this.state == state && this.msg == msg && this.env == env
    {
      this.gp, this.state, this.msg, this.env := gp, state, msg, env;
      gasRemaining, initialGas := 0, 0;
    }

    /** The fees to charge and the balance to ask for. */
    method Amounts() returns (mgval: nat, check: nat)
      ensures mgval == Charged(msg, env) && check == Checked(msg, env)
    {
      mgval := msg.gasLimit * msg.gasPrice;
      mgval := mgval + Or0(msg.l1Cost);
      mgval := mgval + OperatorCost(env.operator, msg.gasLimit);
      check := msg.gasLimit * msg.feeCap;
      check := check + Or0(msg.l1Cost);
      check := check + OperatorCost(env.operator, msg.gasLimit);
      check := check + msg.value;
      if env.rules.cancun && BlobGas(msg) > 0 {
        check := check + BlobGas(msg) * msg.blobFeeCap;
        mgval := mgval + BlobGas(msg) * env.blobBaseFee;
      }
    }

    /** Checks the balance against the fee caps, then charges the actual fees. */
    method BuyGas() returns (fault: Option<Fault>)
      requires Built(msg, env) && Fits(state.world) && Obeys(msg, env, Get(state.world, msg.from))
      modifies this`gasRemaining, this`initialGas, gp`remaining, state`world
      ensures fault == if Affords(msg, env, Get(old(state.world), msg.from), old(gp.remaining)) then None
                       else if Checked(msg, env) < U256 && Checked(msg, env) <= Get(old(state.world), msg.from).balance then Some(GasLimitReached)
                       else Some(InsufficientFunds)
      ensures fault.Some? ==> state.world == old(state.world) && gp.remaining == old(gp.remaining)
      ensures fault.None? ==> gasRemaining == initialGas == msg.gasLimit && gp.remaining == old(gp.remaining) - msg.gasLimit
      ensures fault.None? ==> Bought(msg, env, old(state.world), state.world)
    {
      var mgval, check := Amounts();
      if check >= U256 {
        return Some(InsufficientFunds);
      }
      if Get(state.world, msg.from).balance < check {
        return Some(InsufficientFunds);
      }
      var r := gp.SubGas(msg.gasLimit);
      if r.Error? {
        return Some(GasLimitReached);
      }
      gasRemaining, initialGas := msg.gasLimit, msg.gasLimit;
      Buys(msg, env, state.world);
      state.world := SubBalance(state.world, msg.from, mgval % U256);
      return None;
    }

    /** Checks the rules in order; the fault names the first broken one. */
    method CheckRules() returns (fault: Option<Fault>)
      requires Fits(state.world) && msg.nonce < U64
      ensures fault.None? <==> Obeys(msg, env, Get(state.world, msg.from))
      ensures fault.Some? ==> Breaks(fault.value, msg, env, Get(state.world, msg.from))
    {
      var sender := Get(state.world, msg.from);
      if sender.nonce < msg.nonce { return Some(NonceTooHigh); }
      if sender.nonce > msg.nonce { return Some(NonceTooLow); }
      if (sender.nonce + 1) % U64 < sender.nonce { return Some(NonceMax); }
      if env.rules.osaka && msg.gasLimit > MAX_TX_GAS { return Some(GasLimitTooHigh); }
      if sender.code.Contract? { return Some(SenderNoEoa); }
      if env.rules.london {
        if msg.feeCap >= U256 { return Some(FeeCapVeryHigh); }
        if msg.tipCap >= U256 { return Some(TipVeryHigh); }
        if msg.feeCap < msg.tipCap { return Some(TipAboveFeeCap); }
        if msg.feeCap < env.baseFee { return Some(FeeCapTooLow); }
      }
      if msg.blobs.Some? {
        if msg.to.None? { return Some(BlobCreate); }
        if msg.blobs.value == 0 { return Some(MissingBlobHashes); }
        if env.rules.osaka && msg.blobs.value > MAX_BLOBS { return Some(TooManyBlobs); }
        if !msg.blobsValid { return Some(BlobVersion); }
      }
      if env.rules.cancun && BlobGas(msg) > 0 && msg.blobFeeCap < env.blobBaseFee { return Some(BlobFeeCapTooLow); }
      if msg.auths.Some? {
        if msg.to.None? { return Some(SetCodeCreate); }
        if msg.auths.value == [] { return Some(EmptyAuthList); }
      }
      return None;
    }

    /** Consensus checks. A deposit only takes its gas from the pool, and a system deposit not even
        that; any other message must obey every rule and buys its gas. */
    method PreCheck() returns (fault: Option<Fault>)
      requires Built(msg, env) && Fits(state.world)
      modifies this`gasRemaining, this`initialGas, gp`remaining, state`world
      ensures msg.deposit ==> state.world == old(state.world)
      ensures msg.deposit ==> fault == if msg.system then (if env.rules.optimism && env.rules.regolith then Some(SystemTx) else None)
                                       else if msg.gasLimit <= old(gp.remaining) then None else Some(GasLimitReached)
      ensures !msg.deposit ==> (fault.None? <==> var sender := Get(old(state.world), msg.from);
                                                 Obeys(msg, env, sender) && Affords(msg, env, sender, old(gp.remaining)))
      ensures fault.Some? ==> state.world == old(state.world) && gp.remaining == old(gp.remaining) && Early(fault.value)
      ensures fault.None? ==> gasRemaining == initialGas == msg.gasLimit
                              && gp.remaining == old(gp.remaining) - (if msg.system then 0 else msg.gasLimit)
      ensures fault.None? && !msg.deposit ==> Bought(msg, env, old(state.world), state.world)
    {
      if msg.deposit {
        initialGas, gasRemaining := msg.gasLimit, msg.gasLimit;
        if msg.system {
          if env.rules.optimism && env.rules.regolith { return Some(SystemTx); }
          return None;
        }
        var r := gp.SubGas(msg.gasLimit);
        return if r.Done? then None else Some(GasLimitReached);
      }
      fault := CheckRules();
      if fault.None? {
        fault := BuyGas();
      }
    }

    /** Takes the intrinsic gas and finds the data floor, which the gas limit must cover. */
    method TakeIntrinsic() returns (fault: Option<Fault>, floor: nat)
      requires Built(msg, env) && gasRemaining == initialGas == msg.gasLimit
      modifies this`gasRemaining
      ensures fault.None? <==> Covers(msg, env)
      ensures fault.Some? ==> FallsShort(fault.value, msg, env)
      ensures fault.None? ==> floor <= msg.gasLimit && (!env.rules.prague ==> floor == 0)
      ensures fault.None? && env.rules.prague ==> floor == TX_GAS + Tokens(msg.data) * FLOOR_PER_TOKEN
      ensures fault.None? ==> DataGas(ChargeOf(msg, env)) < U64 && gasRemaining == msg.gasLimit - Intrinsic(msg, env)
    {
      floor := 0;
      var gas := IntrinsicGas(ChargeOf(msg, env));
      if gas.Overflow? { return Some(GasOverflow), floor; }
      if gasRemaining < gas.amount { return Some(IntrinsicTooLow), floor; }
      if env.rules.prague {
        var f := FloorDataGas(msg.data);
        if f.Overflow? { return Some(GasOverflow), floor; }
        floor := f.amount;
        if msg.gasLimit < floor { return Some(FloorTooLow), floor; }
      }
      gasRemaining := gasRemaining - gas.amount;
      return None, floor;
    }

    /** Applies one authorization; a tuple that fails a check is skipped. */
    method ApplyAuthorization(auth: Authorization)
      modifies state
      ensures Accepts(old(state.world), env.chainId, auth) ==>
                var a := auth.authority.value;
                && state.world == SetCode(SetNonce(old(state.world), a, auth.nonce + 1), a, Installed(auth))
                && state.refund == old(state.refund) + if a in old(state.world) then AUTH_REFUND else 0
      ensures !Accepts(old(state.world), env.chainId, auth) ==> state.world == old(state.world) && state.refund == old(state.refund)
    {
      if auth.chainId != 0 && auth.chainId != env.chainId { return; }
      if (auth.nonce + 1) % U64 != auth.nonce + 1 { return; }
      if auth.authority.None? { return; }
      var a := auth.authority.value;
      if Get(state.world, a).code.Contract? { return; }
      if Get(state.world, a).nonce != auth.nonce { return; }
      if a in state.world {
        state.refund := state.refund + AUTH_REFUND;
      }
      state.world := SetNonce(state.world, a, auth.nonce + 1);
      if auth.address == ZERO_ADDRESS {
        state.world := SetCode(state.world, a, NoCode);
        return;
      }
      state.world := SetCode(state.world, a, Delegation(auth.address));
    }

    /** The loop over the list means what the tuple-by-tuple definition says. */
    method ApplyAuthorizations(auths: seq<Authorization>)
      modifies state
      ensures state.world == After(old(state.world), env.chainId, auths, |auths|)
      ensures state.refund == old(state.refund) + Refund(old(state.world), env.chainId, auths, |auths|)
    {
      for i := 0 to |auths|
        invariant state.world == After(old(state.world), env.chainId, auths, i)
        invariant state.refund == old(state.refund) + Refund(old(state.world), env.chainId, auths, i)
      {
        ApplyAuthorization(auths[i]);
      }
    }

    /** Raises the sender's nonce and applies the authorizations, before a call. */
    method Prepare()
      requires Fits(state.world)
      modifies state
      ensures Fits(state.world) && Total(state.world) == old(Total(state.world))
      ensures state.world == Prepared(msg, env, old(state.world))
      ensures state.refund == old(state.refund) + AuthRefund(msg, env, old(state.world))
    {
      if msg.to.Some? {
        var nonce := (Get(state.world, msg.from).nonce + 1) % U64;
        NonceIsFree(state.world, msg.from, nonce);
        state.world := SetNonce(state.world, msg.from, nonce);
        if msg.auths.Some? {
          NoWeiMoves(state.world, env.chainId, msg.auths.value, |msg.auths.value|);
          ApplyAuthorizations(msg.auths.value);
        }
      }
    }

    /** Checks the transfer and the init code. */
    method CheckTransfer() returns (fault: Option<Fault>)
      requires Fits(state.world)
      ensures fault == if msg.value > Get(state.world, msg.from).balance then Some(InsufficientForTransfer)
                       else if msg.to.None? && |msg.data| > InitCodeLimit(env.rules) then Some(InitCodeTooLarge) else None
    {
      if msg.value >= U256 { return Some(InsufficientForTransfer); }
      if msg.value != 0 && Get(state.world, msg.from).balance < msg.value { return Some(InsufficientForTransfer); }
      if msg.to.None? && |msg.data| > InitCodeLimit(env.rules) { return Some(InitCodeTooLarge); }
      return None;
    }

    /** Prepares the state and runs the EVM on the gas that is left. */
    method RunEvm(evm: Evm) returns (o: Outcome)
      requires Fits(state.world) && Total(state.world) < U256 && Behaves(evm) && Intrinsic(msg, env) <= msg.gasLimit && gasRemaining == msg.gasLimit - Intrinsic(msg, env)
      modifies this`gasRemaining, state
      ensures Fits(state.world) && Total(state.world) + o.burnt == old(Total(state.world))
      ensures state.world == o.world && state.refund == o.refund && gasRemaining == o.gasLeft <= old(gasRemaining)
      ensures Ran(msg, env, evm, old(state.refund), old(state.world), o)
    {
      Prepare();
      o := evm(state.world, state.refund, gasRemaining);
      state.world, state.refund, gasRemaining := o.world, o.refund, o.gasLeft;
    }

    /** Grants the capped refund and raises the gas used to the floor. */
    method GrantRefund(floor: nat) returns (peak: nat)
      requires gasRemaining <= initialGas < U64 && floor <= initialGas && (!env.rules.prague ==> floor == 0)
      modifies this`gasRemaining
      ensures gasRemaining <= initialGas
      ensures initialGas - gasRemaining == UsedGas(initialGas - old(gasRemaining), state.refund, env.rules, floor)
      ensures peak == Max(initialGas - old(gasRemaining), floor)
      ensures floor <= initialGas - gasRemaining <= peak <= initialGas
    {
      peak := initialGas - gasRemaining;
      var refund := RefundCap(peak, env.rules);
      if refund > state.refund { refund := state.refund; }
      gasRemaining := gasRemaining + refund;
      if env.rules.prague {
        if initialGas - gasRemaining < floor { gasRemaining := initialGas - floor; }
        if peak < floor { peak := floor; }
      }
    }

    /** Gives the sender back the price of the gas that is left. */
    method ReturnGas()
      requires Fits(state.world) && Total(state.world) + gasRemaining * msg.gasPrice < U256
      modifies state`world
      ensures Fits(state.world) && Total(state.world) == old(Total(state.world)) + gasRemaining * msg.gasPrice
      ensures forall a :: Gains(old(state.world), state.world, a, At(a, msg.from, gasRemaining * msg.gasPrice))
    {
      var back := gasRemaining * msg.gasPrice;
      state.Credit(msg.from, back);
    }

    /** Pays the base fee and the L1 fee into their vaults. */
    method PayVaults(used: nat) returns (fault: Option<Fault>)
      requires Fits(state.world) && Total(state.world) + used * env.baseFee + Or0(msg.l1Cost) < U256
      modifies state`world
      ensures fault.None? && Fits(state.world)
      ensures Total(state.world) == old(Total(state.world)) + used * env.baseFee + Or0(msg.l1Cost)
      ensures forall a :: Gains(old(state.world), state.world, a, VaultShare(msg, env, used, a))
    {
      var gasCost := used * env.baseFee;
      if gasCost >= U256 { return Some(FeeOverflows); }
      state.Credit(BASE_FEE_VAULT, gasCost);
      if msg.l1Cost.Some? {
        if msg.l1Cost.value >= U256 { return Some(FeeOverflows); }
        state.Credit(L1_FEE_VAULT, msg.l1Cost.value);
      }
      return None;
    }

    /** Refunds the operator fee of the gas not used and pays the rest into its vault. */
    method PayOperator(used: nat)
      requires Fits(state.world) && used <= msg.gasLimit
      requires Total(state.world) + OperatorCost(env.operator, msg.gasLimit) < U256
      modifies state`world
      ensures Fits(state.world) && Total(state.world) == old(Total(state.world)) + OperatorCost(env.operator, msg.gasLimit)
      ensures forall a :: Gains(old(state.world), state.world, a, OperatorShare(msg, env, used, a))
    {
      var limit, cost := OperatorCost(env.operator, msg.gasLimit), OperatorCost(env.operator, used);
      OperatorCostGrows(env.operator, used, msg.gasLimit);
      assert cost <= limit;
      state.Credit(msg.from, limit - cost);
      state.Credit(OPERATOR_VAULT, cost);
    }

    /** Pays the vaults and the operator of an OP chain. */
    method PayRollup(used: nat) returns (fault: Option<Fault>)
      requires Consistent(env) && Fits(state.world) && used <= msg.gasLimit
      requires Total(state.world) + used * env.baseFee + Or0(msg.l1Cost) + OperatorCost(env.operator, msg.gasLimit) < U256
      modifies state`world
      ensures fault.None? && Fits(state.world)
      ensures Total(state.world) == old(Total(state.world)) + used * env.baseFee + Or0(msg.l1Cost) + OperatorCost(env.operator, msg.gasLimit)
      ensures forall a :: Gains(old(state.world), state.world, a, VaultShare(msg, env, used, a) + OperatorShare(msg, env, used, a))
    {
      fault := PayVaults(used);
      if fault.Some? { return; }
      if env.rules.isthmus {
        PayOperator(used);
      }
    }

    /** Pays the coinbase, the vaults and the operator. None of the overflow checks can fail. */
    method PayFees(used: nat) returns (fault: Option<Fault>)
      requires Consistent(env) && Fits(state.world) && used <= msg.gasLimit && 0 <= Tip(msg, env) < U256
      requires Total(state.world) + Due(msg, env, used) < U256
      modifies state`world
      ensures fault.None? && Fits(state.world) && Total(state.world) == old(Total(state.world)) + Due(msg, env, used)
      ensures forall a :: Gains(old(state.world), state.world, a, FeeShare(msg, env, used, a))
    {
      var tip := Tip(msg, env) % U256;
      assert tip == Tip(msg, env);
      var fee := used * tip;
      assert used * env.baseFee >= 0;
      state.Credit(env.coinbase, fee);
      fault := None;
      if env.rules.optimism && env.rules.bedrock {
        fault := PayRollup(used);
      }
    }

    /** Gives back the price of the gas left, gives the block `returned` gas back and pays the fees;
        only the burnt part of the charge does not come back into existence. */
    method PayOut(used: nat, returned: nat) returns (fault: Option<Fault>)
      requires Built(msg, env) && Consistent(env) && !msg.deposit && Obeyed(msg, env) && Fits(state.world)
      requires used + gasRemaining == msg.gasLimit && Total(state.world) + Charged(msg, env) < U256
      requires gp.remaining + returned < U64
      modifies state`world, gp`remaining, gp`cumulativeUsed
      ensures fault.None? && Fits(state.world)
      ensures gp.remaining == old(gp.remaining) + returned && Tallied(old(gp.cumulativeUsed), used, gp.cumulativeUsed)
      ensures Total(state.world) + Burnt(msg, env, used) == old(Total(state.world)) + Charged(msg, env)
      ensures forall a :: Gains(old(state.world), state.world, a, Share(msg, env, used, a))
    {
      SettlementAdds(msg, env, used);
      TipFits(msg, env);
      DuePositive(msg, env, used);
      ReturnGas();
      var back := gp.ReturnGas(returned, used);
      if back.Error? { return Some(PoolOverflows); }
      fault := PayFees(used);
    }

    /** Settles a message that is not a deposit: the sender gets the gas left back, the block gets
        its gas back, and the fees are paid. */
    method Settle(floor: nat, failed: bool) returns (r: Result)
      requires Built(msg, env) && Consistent(env) && !msg.deposit && Obeyed(msg, env) && Fits(state.world)
      requires initialGas == msg.gasLimit >= gasRemaining && floor <= initialGas && (!env.rules.prague ==> floor == 0)
      requires Total(state.world) + Charged(msg, env) < U256
      requires gp.remaining + msg.gasLimit < U64
      modifies this`gasRemaining, gp`remaining, gp`cumulativeUsed, state`world
      ensures r.Executed? && r.status == (if failed then Reverted else Completed)
      ensures r.used == UsedGas(msg.gasLimit - old(gasRemaining), state.refund, env.rules, floor)
      ensures r.maxUsed == Max(msg.gasLimit - old(gasRemaining), floor) && floor <= r.used <= r.maxUsed <= msg.gasLimit
      ensures gp.remaining == old(gp.remaining) + msg.gasLimit - (if env.rules.amsterdam then r.maxUsed else r.used)
      ensures Tallied(old(gp.cumulativeUsed), r.used, gp.cumulativeUsed)
      ensures Fits(state.world) && Total(state.world) + Burnt(msg, env, r.used) == old(Total(state.world)) + Charged(msg, env)
      ensures forall a :: Gains(old(state.world), state.world, a, Share(msg, env, r.used, a))
    {
      var peak := GrantRefund(floor);
      var used := initialGas - gasRemaining;
      var fault := PayOut(used, if env.rules.amsterdam then initialGas - peak else gasRemaining);
      if fault.Some? { return Rejected(FeeOverflows); }
      return Executed(used, peak, if failed then Reverted else Completed);
    }

    /** Settles a deposit from Regolith on: its gas is free, so nobody's balance changes. */
    method MeterDeposit(floor: nat, failed: bool) returns (r: Result)
      requires msg.deposit && Built(msg, env) && Fits(state.world) && Total(state.world) < U256
      requires initialGas == msg.gasLimit >= gasRemaining && floor <= initialGas && (!env.rules.prague ==> floor == 0)
      requires gp.remaining + msg.gasLimit < U64
      modifies this`gasRemaining, gp`remaining, gp`cumulativeUsed, state`world
      ensures r.Executed? && r.status == (if failed then Reverted else Completed)
      ensures r.used == UsedGas(msg.gasLimit - old(gasRemaining), state.refund, env.rules, floor)
      ensures r.maxUsed == Max(msg.gasLimit - old(gasRemaining), floor) && floor <= r.used <= r.maxUsed <= msg.gasLimit
      ensures gp.remaining == old(gp.remaining) + msg.gasLimit - (if env.rules.amsterdam then r.maxUsed else r.used)
      ensures Tallied(old(gp.cumulativeUsed), r.used, gp.cumulativeUsed)
      ensures Fits(state.world) && Total(state.world) == old(Total(state.world))
      ensures forall a :: Gains(old(state.world), state.world, a, 0)
    {
      var peak := GrantRefund(floor);
      assert gasRemaining * msg.gasPrice == 0 by { EffectivePrice(msg, env); }
      ReturnGas();
      forall a ensures Gains(old(state.world), state.world, a, 0) {
        assert Gains(old(state.world), state.world, a, At(a, msg.from, gasRemaining * msg.gasPrice));
      }
      var back := gp.ReturnGas(if env.rules.amsterdam then initialGas - peak else gasRemaining, initialGas - gasRemaining);
      if back.Error? { return Rejected(PoolOverflows); }
      return Executed(initialGas - gasRemaining, peak, if failed then Reverted else Completed);
    }

    /** Settles a deposit. Before Regolith it reports all its gas, or none as a system transaction. */
    method SettleDeposit(floor: nat, failed: bool) returns (r: Result)
      requires msg.deposit && Built(msg, env) && Fits(state.world) && Total(state.world) < U256
      requires initialGas == msg.gasLimit >= gasRemaining && floor <= initialGas && (!env.rules.prague ==> floor == 0)
      requires Room(msg, env, gp.remaining)
      modifies this`gasRemaining, gp`remaining, gp`cumulativeUsed, state`world
      ensures r.Executed? && r.status == (if failed then Reverted else Completed)
      ensures Refunds(msg, env) ==> r.used == UsedGas(msg.gasLimit - old(gasRemaining), state.refund, env.rules, floor)
                                    && r.maxUsed == Max(msg.gasLimit - old(gasRemaining), floor) && floor <= r.used <= r.maxUsed <= msg.gasLimit
      ensures !Refunds(msg, env) ==> r.used == Drawn(msg)
      ensures gp.remaining == old(gp.remaining) + Given(msg, env, r) && Tallied(old(gp.cumulativeUsed), r.used, gp.cumulativeUsed)
      ensures Fits(state.world) && Total(state.world) == old(Total(state.world))
      ensures forall a :: Gains(old(state.world), state.world, a, 0)
    {
      if env.rules.optimism && env.rules.regolith {
        r := MeterDeposit(floor, failed);
      } else {
        var gasUsed := if msg.system then 0 else msg.gasLimit;
        var kept := gp.ReturnGas(0, gasUsed);
        if kept.Error? { return Rejected(PoolOverflows); }
        return Executed(gasUsed, 0, if failed then Reverted else Completed);
      }
    }

    /** Settles the message after the EVM ran. */
    method Conclude(floor: nat, o: Outcome) returns (r: Result)
      requires Built(msg, env) && Consistent(env) && Fits(state.world) && (!msg.deposit ==> Obeyed(msg, env))
      requires initialGas == msg.gasLimit && gasRemaining == o.gasLeft <= msg.gasLimit && state.refund == o.refund
      requires floor == FloorOf(msg, env) <= msg.gasLimit
      requires Total(state.world) + Prepaid(msg, env) < U256
      requires Room(msg, env, gp.remaining)
      modifies this`gasRemaining, gp`remaining, gp`cumulativeUsed, state`world
      ensures r.Executed? && Metered(msg, env, r, o) && r.status == (if o.failed then Reverted else Completed)
      ensures Tallied(old(gp.cumulativeUsed), r.used, gp.cumulativeUsed) && gp.remaining == old(gp.remaining) + Given(msg, env, r)
      ensures Fits(state.world) && Total(state.world) + Gone(msg, env, r.used) == old(Total(state.world)) + Prepaid(msg, env)
      ensures forall a :: Gains(old(state.world), state.world, a, Share(msg, env, r.used, a))
    {
      if msg.deposit {
        r := SettleDeposit(floor, o.failed);
      } else {
        r := Settle(floor, o.failed);
      }
    }

    /** The checks between the purchase of gas and the EVM. */
    method Admit() returns (fault: Option<Fault>, floor: nat)
      requires Built(msg, env) && Fits(state.world) && initialGas == gasRemaining == msg.gasLimit
      requires !msg.deposit ==> msg.value <= Get(state.world, msg.from).balance
      modifies this`gasRemaining
      ensures fault.None? <==> Covers(msg, env) && Runnable(msg, env, Get(state.world, msg.from))
      ensures fault.Some? ==> Late(fault.value) && (fault.value.InsufficientForTransfer? ==> msg.deposit)
      ensures fault.None? ==> floor == FloorOf(msg, env) <= msg.gasLimit && gasRemaining == msg.gasLimit - Intrinsic(msg, env)
    {
      fault, floor := TakeIntrinsic();
      if fault.None? {
        fault := CheckTransfer();
      }
    }

    /** What follows the consensus checks: intrinsic gas, the EVM, and the settlement. */
    method Perform(evm: Evm) returns (r: Result, ghost o: Outcome)
      requires Built(msg, env) && Consistent(env) && Behaves(evm) && Fits(state.world)
      requires initialGas == gasRemaining == msg.gasLimit && Total(state.world) + Prepaid(msg, env) < U256
      requires !msg.deposit ==> Obeyed(msg, env) && msg.value <= Get(state.world, msg.from).balance
      requires Room(msg, env, gp.remaining)
      modifies this`gasRemaining, gp`remaining, gp`cumulativeUsed, state
      ensures r.Executed? <==> Covers(msg, env) && Runnable(msg, env, Get(old(state.world), msg.from))
      ensures r.Rejected? ==> gp.remaining == old(gp.remaining) && gp.cumulativeUsed == old(gp.cumulativeUsed)
      ensures r.Rejected? ==> Late(r.fault) && (r.fault.InsufficientForTransfer? ==> msg.deposit)
      ensures r.Executed? ==> Metered(msg, env, r, o) && r.status == (if o.failed then Reverted else Completed)
      ensures r.Executed? ==> Tallied(old(gp.cumulativeUsed), r.used, gp.cumulativeUsed) && gp.remaining == old(gp.remaining) + Given(msg, env, r)
      ensures r.Executed? ==> Ran(msg, env, evm, old(state.refund), old(state.world), o)
      ensures r.Executed? ==> forall a :: Gains(o.world, state.world, a, Share(msg, env, r.used, a))
      ensures r.Executed? ==> Fits(state.world)
                              && Total(state.world) + o.burnt + Gone(msg, env, r.used) == old(Total(state.world)) + Prepaid(msg, env)
    {
      o := Outcome(state.world, 0, 0, 0, false);
      var fault, floor := Admit();
      if fault.Some? { return Rejected(fault.value), o; }
      var outcome := RunEvm(evm);
      o := outcome;
      r := Conclude(floor, outcome);
    }

    method InnerExecute(evm: Evm) returns (r: Result, ghost o: Outcome)
      requires Built(msg, env) && Consistent(env) && Behaves(evm) && Fits(state.world) && Total(state.world) < U256 && gp.Bounded()
      modifies this`gasRemaining, this`initialGas, gp`remaining, gp`cumulativeUsed, state
      ensures r.Executed? <==> Admissible(msg, env, Get(old(state.world), msg.from), old(gp.remaining))
      ensures r.Executed? || Late(r.fault) <==> TakenIn(msg, env, Get(old(state.world), msg.from), old(gp.remaining))
      ensures r.Rejected? ==> gp.cumulativeUsed == old(gp.cumulativeUsed)
                              && gp.remaining == old(gp.remaining) - (if Early(r.fault) then 0 else Drawn(msg))
      ensures r.Rejected? ==> (Early(r.fault) || Late(r.fault)) && (r.fault.InsufficientForTransfer? ==> msg.deposit)
      ensures r.Rejected? && Early(r.fault) && msg.deposit ==> r.fault == if msg.system then SystemTx else GasLimitReached
      ensures r.Executed? ==> Metered(msg, env, r, o) && r.status == (if o.failed then Reverted else Completed)
      ensures r.Executed? ==> Ran(msg, env, evm, old(state.refund), Debited(msg, env, old(state.world)), o)
      ensures r.Executed? ==> forall a :: Gains(o.world, state.world, a, Share(msg, env, r.used, a))
      ensures r.Executed? ==> Tallied(old(gp.cumulativeUsed), r.used, gp.cumulativeUsed)
                              && gp.remaining == old(gp.remaining) - Drawn(msg) + Given(msg, env, r)
      ensures r.Executed? ==> Fits(state.world) && Total(state.world) + o.burnt + Gone(msg, env, r.used) == old(Total(state.world))
    {
      o := Outcome(state.world, 0, 0, 0, false);
      var fault := PreCheck();
      if fault.Some? { return Rejected(fault.value), o; }
      if !msg.deposit { StillRunnable(msg, env, old(state.world), state.world); }
      r, o := Perform(evm);
    }

    /** The same, said as the settlement of the message and of the block's gas. */
    method Attempt(evm: Evm) returns (r: Result, ghost o: Outcome)
      requires Built(msg, env) && Consistent(env) && Behaves(evm) && Fits(state.world) && Total(state.world) < U256 && gp.Bounded()
      modifies this`gasRemaining, this`initialGas, gp`remaining, gp`cumulativeUsed, state
      ensures r.Executed? <==> Admissible(msg, env, Get(old(state.world), msg.from), old(gp.remaining))
      ensures r.Executed? ==> !r.status.FailedDeposit? && Fits(state.world)
                              && Settled(msg, env, evm, old(state.refund), r, o, old(state.world), state.world)
      ensures r.Executed? ==> Tallied(old(gp.cumulativeUsed), r.used, gp.cumulativeUsed) && gp.remaining == old(gp.remaining) - Kept(msg, env, r)
      ensures r.Executed? ==> r.used <= Kept(msg, env, r) <= old(gp.remaining)
      ensures r.Rejected? ==> gp.cumulativeUsed == old(gp.cumulativeUsed)
                              && gp.remaining == old(gp.remaining) - (if Early(r.fault) then 0 else Drawn(msg))
      ensures r.Rejected? ==> (Early(r.fault) || Late(r.fault)) && (r.fault.InsufficientForTransfer? ==> msg.deposit)
      ensures r.Rejected? ==> (Late(r.fault) <==> TakenIn(msg, env, Get(old(state.world), msg.from), old(gp.remaining)))
      ensures r.Rejected? && Early(r.fault) && msg.deposit ==> r.fault == if msg.system then SystemTx else GasLimitReached
    {
      r, o := InnerExecute(evm);
    }

    /** Includes a deposit that failed: everything but the mint is undone and the nonce rises. */
    method Include(fault: Fault, snap: World) returns (r: Result)
      requires msg.deposit && Built(msg, env) && Fits(snap) && gp.remaining < U64
      modifies gp`remaining, gp`cumulativeUsed, state
      ensures r == Executed(FailedGas(msg, env), 0, FailedDeposit(fault))
      ensures Fits(state.world) && Undone(msg, env, r, snap, state.world)
      ensures gp.remaining == old(gp.remaining) && Tallied(old(gp.cumulativeUsed), r.used, gp.cumulativeUsed)
    {
      var nonce := (Get(snap, msg.from).nonce + 1) % U64;
      NonceIsFree(snap, msg.from, nonce);
      state.world, state.refund := SetNonce(snap, msg.from, nonce), 0;
      var gasUsed := if msg.system && !env.rules.regolith then 0 else msg.gasLimit;
      var kept := gp.ReturnGas(0, gasUsed);
      if kept.Error? { return Rejected(PoolOverflows); }
      return Executed(gasUsed, 0, FailedDeposit(fault));
    }

    /** Runs the message after its mint; a deposit that fails is included all the same. */
    method RunMinted(evm: Evm) returns (r: Result, ghost o: Outcome)
      requires Built(msg, env) && Consistent(env) && Behaves(evm) && Fits(state.world) && Total(state.world) < U256 && gp.Bounded()
      modifies this`gasRemaining, this`initialGas, gp`remaining, gp`cumulativeUsed, state
      ensures var sender := Get(old(state.world), msg.from);
              && (r.Executed? <==> if msg.deposit then TakenIn(msg, env, sender, old(gp.remaining)) else Admissible(msg, env, sender, old(gp.remaining)))
              && (r.Executed? ==> (r.status.FailedDeposit? <==> !Admissible(msg, env, sender, old(gp.remaining))))
      ensures r.Executed? ==> Fits(state.world) && Settled(msg, env, evm, old(state.refund), r, o, old(state.world), state.world)
      ensures r.Executed? ==> Tallied(old(gp.cumulativeUsed), r.used, gp.cumulativeUsed) && gp.remaining == old(gp.remaining) - Kept(msg, env, r)
      ensures r.Executed? ==> Kept(msg, env, r) <= old(gp.remaining)
      ensures r.Executed? ==> (r.used <= Kept(msg, env, r) <==> !(r.status.FailedDeposit? && Torn(msg, env)))
      ensures r.Rejected? ==> Refused(msg, r.fault)
    {
      var snap := state.world;
      r, o := Attempt(evm);
      if r.Rejected? && r.fault != SystemTx && r.fault != GasLimitReached && msg.deposit {
        FailedGasIsDrawn(msg, env);
        r := Include(r.fault, snap);
      }
    }

    /** Applies the message. Every included deposit adds exactly its mint to the wei in existence; a
        failed one changes nothing else but the sender's nonce. Any other message burns exactly the
        blob fee and, off Bedrock, the base fee. The gas reported is at most the gas that the block is
        left without, except for a failed system deposit on a chain that has Regolith without being an
        OP chain. */
    method Execute(evm: Evm) returns (r: Result, ghost o: Outcome)
      requires Built(msg, env) && Consistent(env) && Behaves(evm) && Fits(state.world) && gp.Bounded()
      requires Total(state.world) < U256 && (msg.mint < U256 ==> Total(state.world) + msg.mint < U256)
      modifies this`gasRemaining, this`initialGas, gp`remaining, gp`cumulativeUsed, state
      ensures r.Executed? <==> Includable(msg, env, old(state.world), old(gp.remaining))
      ensures r.Executed? ==> (r.status.FailedDeposit? <==> !Executable(msg, env, old(state.world), old(gp.remaining)))
      ensures r.Executed? ==> msg.mint < U256 && Fits(state.world)
      ensures r.Executed? ==> Total(AddBalance(old(state.world), msg.from, msg.mint)) == old(Total(state.world)) + msg.mint
      ensures r.Executed? ==> Settled(msg, env, evm, old(state.refund), r, o, AddBalance(old(state.world), msg.from, msg.mint), state.world)
      ensures r.Executed? ==> Tallied(old(gp.cumulativeUsed), r.used, gp.cumulativeUsed) && gp.remaining == old(gp.remaining) - Kept(msg, env, r)
      ensures r.Executed? ==> Kept(msg, env, r) <= old(gp.remaining)
      ensures r.Executed? ==> (r.used <= Kept(msg, env, r) <==> !(r.status.FailedDeposit? && Torn(msg, env)))
      ensures r.Executed? && r.status.FailedDeposit? ==>
                && old(gp.remaining) - gp.remaining == (if msg.system then 0 else msg.gasLimit)
                && r.used == if msg.system && !env.rules.regolith then 0 else msg.gasLimit
      ensures r.Executed? && !r.status.FailedDeposit? && msg.deposit && !(env.rules.optimism && env.rules.regolith) ==>
                old(gp.remaining) - gp.remaining == r.used == if msg.system then 0 else msg.gasLimit
      ensures r.Executed? && !r.status.FailedDeposit? && (!msg.deposit || (env.rules.optimism && env.rules.regolith)) ==>
                old(gp.remaining) - gp.remaining == if env.rules.amsterdam then Max(msg.gasLimit - o.gasLeft, FloorOf(msg, env)) else r.used
      ensures r.Rejected? ==> Refused(msg, r.fault)
    {
      o := Outcome(state.world, 0, 0, 0, false);
      if msg.mint >= U256 { return Rejected(MintOverflows), o; }
      state.Credit(msg.from, msg.mint);
      r, o := RunMinted(evm);
    }
  }

  /** A system deposit that cannot pay for what it sends, on a chain that has Regolith without being an
      OP chain: it is included, draws no gas from the block, and is recorded with all its gas. */
  method FailedSystemDeposit(st: StateTransition, evm: Evm) returns (r: Result)
    requires Built(st.msg, st.env) && Consistent(st.env) && Behaves(evm) && Fits(st.state.world) && st.gp.Valid() && st.gp.Exact()
    requires st.msg.mint < U256 && Total(st.state.world) + st.msg.mint < U256
    requires Torn(st.msg, st.env) && st.msg.value > Get(st.state.world, st.msg.from).balance + st.msg.mint
    requires st.gp.cumulativeUsed + st.msg.gasLimit < U64
    modifies st, st.gp, st.state
    ensures r.Executed? && r.status.FailedDeposit? && r.used == st.msg.gasLimit
    ensures st.gp.remaining == old(st.gp.remaining) && !st.gp.Valid()
  {
    Credits(st.state.world, st.msg.from, st.msg.mint);
    ghost var o;
    r, o := st.Execute(evm);
  }
}
