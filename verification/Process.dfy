/** Processing the transactions of a block. */
module Processing {
  import opened Common
  import opened Worlds
  import opened Authorizations
  import opened GasPools
  import opened Fees
  import opened StateTransitions

  datatype Receipt = Receipt(used: nat, cumulative: nat, status: Status)

  datatype BlockResult = Processed(receipts: seq<Receipt>, gasUsed: nat) | Invalid(index: nat, fault: Fault)

  // ---- The way through the block ---------------------------------------------------------------

  /** What a message finds: the state, the refund counter and the gas the block has left. */
  datatype Stage = Stage(world: World, refund: nat, pool: nat)

  /** The message was includable at stage `a`, was settled with this result, and led to stage `b`. */
  ghost predicate Led(msg: Message, env: Env, evm: Evm, a: Stage, r: Result, o: Outcome, b: Stage) {
    && Includable(msg, env, a.world, a.pool) && r.Executed?
    && (r.status.FailedDeposit? <==> !Executable(msg, env, a.world, a.pool))
    && Settled(msg, env, evm, a.refund, r, o, AddBalance(a.world, msg.from, msg.mint), b.world)
    && b.refund == 0 && b.pool + Kept(msg, env, r) == a.pool
  }

  ghost predicate AllExecuted(rs: seq<Result>) {
    forall i | 0 <= i < |rs| :: rs[i].Executed?
  }

  ghost predicate LedAt(msgs: seq<Message>, env: Env, evms: seq<Evm>, stages: seq<Stage>, rs: seq<Result>, os: seq<Outcome>, i: nat)
    requires |rs| == |os| == |stages| - 1 && |rs| <= |msgs| == |evms|
  {
    i < |rs| ==> Led(msgs[i], env, evms[i], stages[i], rs[i], os[i], stages[i + 1])
  }

  /** The first messages of a block, one stage after the other. */
  ghost predicate Trail(msgs: seq<Message>, env: Env, evms: seq<Evm>, stages: seq<Stage>, rs: seq<Result>, os: seq<Outcome>) {
    && |rs| == |os| == |stages| - 1 && |rs| <= |msgs| == |evms| && AllExecuted(rs)
    && forall i: nat :: LedAt(msgs, env, evms, stages, rs, os, i)
  }

  lemma {:induction false} TrailExtends(msgs: seq<Message>, env: Env, evms: seq<Evm>, stages: seq<Stage>, rs: seq<Result>, os: seq<Outcome>,
                                        r: Result, o: Outcome, next: Stage)
    requires Trail(msgs, env, evms, stages, rs, os) && |rs| < |msgs|
    requires Led(msgs[|rs|], env, evms[|rs|], stages[|rs|], r, o, next)
    ensures Trail(msgs, env, evms, stages + [next], rs + [r], os + [o])
  {
    var stages', rs', os' := stages + [next], rs + [r], os + [o];
    forall i: nat ensures LedAt(msgs, env, evms, stages', rs', os', i) {
      assert LedAt(msgs, env, evms, stages, rs, os, i);
    }
  }

  // ---- Sums --------------------------------------------------------------------------------------

  /** The gas that the first `n` messages report. */
  ghost function GasSum(rs: seq<Result>, n: nat): nat
    requires n <= |rs| && AllExecuted(rs)
  {
    if n == 0 then 0 else GasSum(rs, n - 1) + rs[n - 1].used
  }

  /** The gas that the first `n` messages take from the block. */
  ghost function KeptSum(msgs: seq<Message>, env: Env, rs: seq<Result>, n: nat): nat
    requires n <= |rs| <= |msgs| && AllExecuted(rs)
  {
    if n == 0 then 0 else KeptSum(msgs, env, rs, n - 1) + Kept(msgs[n - 1], env, rs[n - 1])
  }

  /** A system deposit that failed on a chain with Regolith that is not an OP chain. */
  ghost predicate TornAt(msgs: seq<Message>, env: Env, rs: seq<Result>, i: nat)
    requires i < |rs| <= |msgs|
  {
    rs[i].Executed? && rs[i].status.FailedDeposit? && Torn(msgs[i], env)
  }

  ghost predicate NoneTorn(msgs: seq<Message>, env: Env, rs: seq<Result>, n: nat)
    requires n <= |rs| <= |msgs|
  {
    forall i | 0 <= i < n :: !TornAt(msgs, env, rs, i)
  }

  /** The wei the first `n` messages mint; a mint that is no 256-bit number invalidates the block. */
  ghost function Minted(msgs: seq<Message>, n: nat): nat
    requires n <= |msgs|
  {
    if n == 0 then 0 else Minted(msgs, n - 1) + if msgs[n - 1].mint < U256 then msgs[n - 1].mint else 0
  }

  /** The wei a message takes out of existence: the fees burnt and what self-destructs. */
  ghost function LostBy(msg: Message, env: Env, r: Result, o: Outcome): nat
    requires r.Executed?
  {
    if r.status.FailedDeposit? then 0 else o.burnt + Gone(msg, env, r.used)
  }

  ghost function Lost(msgs: seq<Message>, env: Env, rs: seq<Result>, os: seq<Outcome>, n: nat): nat
    requires n <= |rs| == |os| <= |msgs| && AllExecuted(rs)
  {
    if n == 0 then 0 else Lost(msgs, env, rs, os, n - 1) + LostBy(msgs[n - 1], env, rs[n - 1], os[n - 1])
  }

  lemma {:induction false} MintedGrows(msgs: seq<Message>, m: nat, n: nat)
    requires m <= n <= |msgs|
    ensures Minted(msgs, m) <= Minted(msgs, n)
  {
    if m < n {
      MintedGrows(msgs, m, n - 1);
    }
  }

  lemma {:induction false} GasSumPrefix(rs: seq<Result>, r: Result, n: nat)
    requires n <= |rs| && r.Executed? && AllExecuted(rs)
    ensures GasSum(rs + [r], n) == GasSum(rs, n)
  {
    if n > 0 {
      GasSumPrefix(rs, r, n - 1);
    }
  }

  // ---- What follows along the way ------------------------------------------------------------------

  /** A message takes from the block at least the gas it reports, unless it is torn; before Amsterdam
      exactly that; a torn one takes none. */
  lemma {:induction false} KeptCovers(msg: Message, env: Env, evm: Evm, a: Stage, r: Result, o: Outcome, b: Stage)
    requires Led(msg, env, evm, a, r, o, b)
    ensures r.status.FailedDeposit? && Torn(msg, env) ==> Kept(msg, env, r) < r.used
    ensures !(r.status.FailedDeposit? && Torn(msg, env)) ==> r.used <= Kept(msg, env, r) && (!env.rules.amsterdam ==> r.used == Kept(msg, env, r))
  {
    if r.status.FailedDeposit? {
      FailedGasIsDrawn(msg, env);
    }
  }

  lemma {:induction false} PoolAt(msgs: seq<Message>, env: Env, evms: seq<Evm>, stages: seq<Stage>, rs: seq<Result>, os: seq<Outcome>, i: nat)
    requires Trail(msgs, env, evms, stages, rs, os) && i < |rs|
    ensures stages[i + 1].pool + Kept(msgs[i], env, rs[i]) == stages[i].pool
  {
    assert LedAt(msgs, env, evms, stages, rs, os, i);
  }

  /** What the messages took is what the block lacks. */
  lemma {:induction false} PoolSum(msgs: seq<Message>, env: Env, evms: seq<Evm>, stages: seq<Stage>, rs: seq<Result>, os: seq<Outcome>, n: nat)
    requires Trail(msgs, env, evms, stages, rs, os) && n <= |rs|
    ensures stages[n].pool + KeptSum(msgs, env, rs, n) == stages[0].pool
  {
    if n > 0 {
      PoolSum(msgs, env, evms, stages, rs, os, n - 1);
      PoolAt(msgs, env, evms, stages, rs, os, n - 1);
    }
  }

  lemma {:induction false} KeptCoversAt(msgs: seq<Message>, env: Env, evms: seq<Evm>, stages: seq<Stage>, rs: seq<Result>, os: seq<Outcome>, i: nat)
    requires Trail(msgs, env, evms, stages, rs, os) && i < |rs|
    ensures if TornAt(msgs, env, rs, i) then Kept(msgs[i], env, rs[i]) < rs[i].used
            else rs[i].used <= Kept(msgs[i], env, rs[i]) && (!env.rules.amsterdam ==> rs[i].used == Kept(msgs[i], env, rs[i]))
  {
    assert LedAt(msgs, env, evms, stages, rs, os, i);
    KeptCovers(msgs[i], env, evms[i], stages[i], rs[i], os[i], stages[i + 1]);
  }

  lemma {:induction false} NoneTornNext(msgs: seq<Message>, env: Env, rs: seq<Result>, n: nat)
    requires n < |rs| <= |msgs|
    ensures NoneTorn(msgs, env, rs, n + 1) <==> NoneTorn(msgs, env, rs, n) && !TornAt(msgs, env, rs, n)
  {
  }

  /** The gas of the block and the gas of the receipts: the latter is within the former unless a torn
      deposit failed; before Amsterdam they are equal if and only if none did. */
  lemma {:induction false} SumsAgree(msgs: seq<Message>, env: Env, evms: seq<Evm>, stages: seq<Stage>, rs: seq<Result>, os: seq<Outcome>, n: nat)
    requires Trail(msgs, env, evms, stages, rs, os) && n <= |rs|
    ensures NoneTorn(msgs, env, rs, n) ==> GasSum(rs, n) <= KeptSum(msgs, env, rs, n)
    ensures !env.rules.amsterdam ==>
              && KeptSum(msgs, env, rs, n) <= GasSum(rs, n)
              && (KeptSum(msgs, env, rs, n) == GasSum(rs, n) <==> NoneTorn(msgs, env, rs, n))
  {
    if n > 0 {
      SumsAgree(msgs, env, evms, stages, rs, os, n - 1);
      KeptCoversAt(msgs, env, evms, stages, rs, os, n - 1);
      NoneTornNext(msgs, env, rs, n - 1);
    }
  }

  /** A settled message changes the wei in existence by its mint and by what it loses. */
  lemma {:induction false} LedConserves(msg: Message, env: Env, evm: Evm, a: Stage, r: Result, o: Outcome, b: Stage)
    requires Led(msg, env, evm, a, r, o, b) && Total(a.world) + msg.mint < U256
    ensures Total(b.world) + LostBy(msg, env, r, o) == Total(a.world) + msg.mint
  {
    Credits(a.world, msg.from, msg.mint);
  }

  lemma {:induction false} ConservesAt(msgs: seq<Message>, env: Env, evms: seq<Evm>, stages: seq<Stage>, rs: seq<Result>, os: seq<Outcome>, i: nat)
    requires Trail(msgs, env, evms, stages, rs, os) && i < |rs| && (msgs[i].mint < U256 ==> Total(stages[i].world) + msgs[i].mint < U256)
    ensures msgs[i].mint < U256 && Total(stages[i + 1].world) + LostBy(msgs[i], env, rs[i], os[i]) == Total(stages[i].world) + msgs[i].mint
  {
    assert LedAt(msgs, env, evms, stages, rs, os, i);
    LedConserves(msgs[i], env, evms[i], stages[i], rs[i], os[i], stages[i + 1]);
  }

  lemma {:induction false} TrailConserves(msgs: seq<Message>, env: Env, evms: seq<Evm>, stages: seq<Stage>, rs: seq<Result>, os: seq<Outcome>, n: nat)
    requires Trail(msgs, env, evms, stages, rs, os) && n <= |rs| && Total(stages[0].world) + Minted(msgs, |msgs|) < U256
    ensures Total(stages[n].world) + Lost(msgs, env, rs, os, n) == Total(stages[0].world) + Minted(msgs, n)
  {
    if n > 0 {
      TrailConserves(msgs, env, evms, stages, rs, os, n - 1);
      MintedGrows(msgs, n, |msgs|);
      ConservesAt(msgs, env, evms, stages, rs, os, n - 1);
    }
  }

  /** A receipt shows the gas and the status of its message and the running sum in 64 bits. */
  ghost predicate Reports(receipts: seq<Receipt>, rs: seq<Result>) {
    && |receipts| == |rs| && AllExecuted(rs)
    && forall i | 0 <= i < |rs| ::
         receipts[i].used == rs[i].used && receipts[i].status == rs[i].status && receipts[i].cumulative == GasSum(rs, i + 1) % U64
  }

  /** The pool has added the gas up in 64 bits. */
  ghost predicate AddedUp(rs: seq<Result>, cumulative: nat) {
    AllExecuted(rs) && cumulative == GasSum(rs, |rs|) % U64
  }

  lemma {:induction false} WrapTwice(a: nat, b: nat)
    ensures (a % U64 + b) % U64 == (a + b) % U64
  {
  }

  lemma {:induction false} ReportsExtend(receipts: seq<Receipt>, rs: seq<Result>, before: nat, r: Result, cumulative: nat)
    requires Reports(receipts, rs) && AddedUp(rs, before) && r.Executed? && Tallied(before, r.used, cumulative)
    ensures Reports(receipts + [Receipt(r.used, cumulative, r.status)], rs + [r])
    ensures AddedUp(rs + [r], cumulative)
  {
    GasSumPrefix(rs, r, |rs|);
    var rest := receipts + [Receipt(r.used, cumulative, r.status)];
    WrapTwice(GasSum(rs, |rs|), r.used);
    forall i | 0 <= i < |rs| ensures rest[i].cumulative == GasSum(rs + [r], i + 1) % U64 {
      GasSumPrefix(rs, r, i + 1);
    }
  }

  /** All wei, with the next mint, still fit 256 bits. */
  lemma {:induction false} RoomForMint(msgs: seq<Message>, env: Env, evms: seq<Evm>, stages: seq<Stage>, rs: seq<Result>, os: seq<Outcome>)
    requires Trail(msgs, env, evms, stages, rs, os) && |rs| < |msgs| && Total(stages[0].world) + Minted(msgs, |msgs|) < U256
    ensures Total(stages[|rs|].world) < U256 && (msgs[|rs|].mint < U256 ==> Total(stages[|rs|].world) + msgs[|rs|].mint < U256)
  {
    MintedGrows(msgs, |rs| + 1, |msgs|);
    TrailConserves(msgs, env, evms, stages, rs, os, |rs|);
  }

  // ---- The loop ------------------------------------------------------------------------------------

  /** Applies one message of a block. */
  method Apply(gp: GasPool, state: StateDb, msg: Message, env: Env, evm: Evm, ghost a: Stage) returns (r: Result, ghost o: Outcome)
    requires Built(msg, env) && Consistent(env) && Behaves(evm) && Fits(state.world) && gp.Bounded()
    requires Total(state.world) < U256 && (msg.mint < U256 ==> Total(state.world) + msg.mint < U256)
    requires a == Stage(state.world, state.refund, gp.remaining)
    modifies gp`remaining, gp`cumulativeUsed, state
    ensures r.Executed? <==> Includable(msg, env, a.world, a.pool)
    ensures r.Executed? ==> Led(msg, env, evm, a, r, o, Stage(state.world, state.refund, gp.remaining))
    ensures r.Executed? ==> gp.Bounded() && Fits(state.world) && Tallied(old(gp.cumulativeUsed), r.used, gp.cumulativeUsed)
    ensures r.Rejected? ==> Refused(msg, r.fault)
  {
    var st := new StateTransition(gp, state, msg, env);
    r, o := st.Execute(evm);
    state.refund := 0;
  }

  /** Applies the messages in order until one is refused; yields its fault and the receipts so far. */
  method RunAll(gp: GasPool, state: StateDb, env: Env, msgs: seq<Message>, evms: seq<Evm>)
    returns (fault: Option<Fault>, receipts: seq<Receipt>, ghost stages: seq<Stage>, ghost rs: seq<Result>, ghost os: seq<Outcome>)
    requires |evms| == |msgs| && Consistent(env) && gp.Bounded() && gp.cumulativeUsed == 0
    requires forall i | 0 <= i < |msgs| :: Built(msgs[i], env)
    requires forall i | 0 <= i < |evms| :: Behaves(evms[i])
    requires Fits(state.world) && Total(state.world) + Minted(msgs, |msgs|) < U256
    modifies gp`remaining, gp`cumulativeUsed, state
    ensures Trail(msgs, env, evms, stages, rs, os) && stages[0] == Stage(old(state.world), old(state.refund), old(gp.remaining))
    ensures Reports(receipts, rs) && (fault.None? <==> |rs| == |msgs|)
    ensures fault.None? ==> stages[|rs|] == Stage(state.world, state.refund, gp.remaining) && gp.Bounded() && Fits(state.world)
    ensures fault.Some? ==> !Includable(msgs[|rs|], env, stages[|rs|].world, stages[|rs|].pool) && Refused(msgs[|rs|], fault.value)
  {
    receipts := [];
    stages, rs, os := [Stage(state.world, state.refund, gp.remaining)], [], [];
    for i := 0 to |msgs|
      invariant |rs| == i && Trail(msgs, env, evms, stages, rs, os)
      invariant stages[0] == Stage(old(state.world), old(state.refund), old(gp.remaining))
      invariant stages[i] == Stage(state.world, state.refund, gp.remaining) && gp.Bounded() && Fits(state.world)
      invariant Reports(receipts, rs) && AddedUp(rs, gp.cumulativeUsed)
    {
      RoomForMint(msgs, env, evms, stages, rs, os);
      ghost var used := gp.cumulativeUsed;
      var result, o := Apply(gp, state, msgs[i], env, evms[i], stages[i]);
      if result.Rejected? {
        return Some(result.fault), receipts, stages, rs, os;
      }
      ghost var next := Stage(state.world, state.refund, gp.remaining);
      TrailExtends(msgs, env, evms, stages, rs, os, result, o, next);
      ReportsExtend(receipts, rs, used, result, gp.cumulativeUsed);
      receipts := receipts + [Receipt(result.used, gp.cumulativeUsed, result.status)];
      stages, rs, os := stages + [next], rs + [result], os + [o];
    }
    fault := None;
  }

  /** Runs the messages of a block in order; `evms` are the runs of the EVM. The block is accepted if and
      only if every message is includable where its turn comes; otherwise the first that is not
      invalidates it. The block's gas is what the messages took from it. Receipts add their gas up, which
      is within the block's gas unless a torn deposit failed. The wei in existence change by the mints and
      by what burns. */
  method Process(limit: nat, state: StateDb, env: Env, msgs: seq<Message>, evms: seq<Evm>)
    returns (r: BlockResult, ghost stages: seq<Stage>, ghost rs: seq<Result>, ghost os: seq<Outcome>)
    requires limit < U64 && |evms| == |msgs| && Consistent(env)
    requires forall i | 0 <= i < |msgs| :: Built(msgs[i], env)
    requires forall i | 0 <= i < |evms| :: Behaves(evms[i])
    requires Fits(state.world) && Total(state.world) + Minted(msgs, |msgs|) < U256
    modifies state
    ensures Trail(msgs, env, evms, stages, rs, os) && stages[0] == Stage(old(state.world), old(state.refund), limit)
    ensures r.Processed? <==> |rs| == |msgs|
    ensures r.Invalid? ==> r.index == |rs| && !Includable(msgs[|rs|], env, stages[|rs|].world, stages[|rs|].pool) && Refused(msgs[|rs|], r.fault)
    ensures r.Processed? ==> state.world == stages[|rs|].world && Fits(state.world) && Reports(r.receipts, rs)
    ensures r.Processed? ==> r.gasUsed == KeptSum(msgs, env, rs, |rs|) <= limit
    ensures r.Processed? && NoneTorn(msgs, env, rs, |rs|) ==> GasSum(rs, |rs|) <= r.gasUsed
    ensures r.Processed? && !env.rules.amsterdam ==> (r.gasUsed == GasSum(rs, |rs|) <==> NoneTorn(msgs, env, rs, |rs|))
    ensures r.Processed? ==> Total(state.world) + Lost(msgs, env, rs, os, |rs|) == old(Total(state.world)) + Minted(msgs, |msgs|)
  {
    var gp := new GasPool(limit);
    var fault, receipts;
    fault, receipts, stages, rs, os := RunAll(gp, state, env, msgs, evms);
    if fault.Some? {
      return Invalid(|receipts|, fault.value), stages, rs, os;
    }
    PoolSum(msgs, env, evms, stages, rs, os, |rs|);
    SumsAgree(msgs, env, evms, stages, rs, os, |rs|);
    TrailConserves(msgs, env, evms, stages, rs, os, |rs|);
    var gas := gp.Used();
    return Processed(receipts, gas), stages, rs, os;
  }
}
