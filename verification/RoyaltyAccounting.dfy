/**
 Distributions over whole runs: every voucher is paid exactly once per drop, whatever the batches, and the
 lamports of the state account are accounted for to the last one.
 */
module RoyaltyAccounting {
  import opened MachineInts
  import opened Sequences
  import opened Sums
  import opened RoyaltyState
  import opened RoyaltySteps
  import opened RoyaltyInvariant

  // ---------------------------------------------------------------- one batch

  /** What the voucher of `u` is worth in the running distribution. */
  ghost function PayoutTo(s: System, u: Pubkey): nat
    requires s.state.distribution.Some? && u in s.vouchers
  {
    Payout(s.vouchers[u].balance, s.state.tokensHeld, s.state.distribution.value.distributeAmount)
  }

  /** A successful batch names distinct unpaid vouchers. */
  ghost predicate Payees(s: System, batch: seq<Pubkey>) {
    && AllDistinct(batch)
    && (forall u :: u in batch ==> u in s.vouchers && s.vouchers[u].dropIdx == s.state.dropIdx)
  }

  /** Each payee moves one drop ahead and receives its payout; everybody else keeps both. */
  ghost predicate PaidOut(s: System, batch: seq<Pubkey>, t: System)
    requires s.state.distribution.Some? && t.vouchers.Keys == s.vouchers.Keys
  {
    forall u :: u in s.vouchers.Keys ==>
      && t.vouchers[u].dropIdx == s.vouchers[u].dropIdx + (if u in batch then 1 else 0)
      && Balance(t.lamports, VoucherAccount(u))
         == Balance(s.lamports, VoucherAccount(u)) + (if u in batch then PayoutTo(s, u) else 0)
  }

  lemma SameStakes(s: System, t: System, u: Pubkey)
    requires s.state.distribution.Some? && t.state.distribution.Some? && Frozen(s, t) && u in s.vouchers.Keys
    ensures t.vouchers[u].balance == s.vouchers[u].balance
    ensures PayoutTo(t, u) == PayoutTo(s, u)
  {
    assert Balances(t.vouchers)[u] == Balances(s.vouchers)[u];
  }

  /** One more payee: `m` is the state before its turn, `t` the state after. */
  lemma OneMorePayee(s: System, m: System, t: System, batch: seq<Pubkey>, user: Pubkey)
    requires s.state.distribution.Some? && m.state.distribution.Some? && t.state.distribution.Some?
    requires Frozen(s, m) && Frozen(m, t) && Payees(s, batch) && PaidOut(s, batch, m)
    requires user in m.vouchers && m.vouchers[user].dropIdx == m.state.dropIdx
    requires t.vouchers.Keys == m.vouchers.Keys
    requires forall u :: u in m.vouchers.Keys ==>
               && t.vouchers[u].dropIdx == m.vouchers[u].dropIdx + (if u == user then 1 else 0)
               && Balance(t.lamports, VoucherAccount(u))
                  == Balance(m.lamports, VoucherAccount(u)) + (if u == user then PayoutTo(m, user) else 0)
    ensures Payees(s, batch + [user]) && PaidOut(s, batch + [user], t)
  {
    SameStakes(s, m, user);
    assert user !in batch;
  }

  /** The effect of one payment, voucher by voucher. */
  lemma PayOnePerVoucher(m: System, user: Pubkey, now: i64)
    requires m.state.distribution.Some? && PayOne(m, user, now).Success?
    ensures var t := PayOne(m, user, now).value;
            && Frozen(m, t)
            && user in m.vouchers && m.vouchers[user].dropIdx == m.state.dropIdx
            && (forall u :: u in m.vouchers.Keys ==>
                  && t.vouchers[u].dropIdx == m.vouchers[u].dropIdx + (if u == user then 1 else 0)
                  && Balance(t.lamports, VoucherAccount(u))
                     == Balance(m.lamports, VoucherAccount(u)) + (if u == user then PayoutTo(m, user) else 0))
  {
    PayOneEffect(m, user, now);
  }

  lemma NextPayee(s: System, m: System, batch: seq<Pubkey>, user: Pubkey, now: i64)
    requires s.state.distribution.Some? && m.state.distribution.Some? && Frozen(s, m)
    requires Payees(s, batch) && PaidOut(s, batch, m) && PayOne(m, user, now).Success?
    ensures var t := PayOne(m, user, now).value;
            && t.vouchers.Keys == s.vouchers.Keys
            && Payees(s, batch + [user]) && PaidOut(s, batch + [user], t)
  {
    PayOnePerVoucher(m, user, now);
    OneMorePayee(s, m, PayOne(m, user, now).value, batch, user);
  }

  lemma {:induction false} BatchEffect(s: System, batch: seq<Pubkey>, now: i64)
    requires s.state.distribution.Some? && PayBatch(s, batch, now).Success?
    ensures var t := PayBatch(s, batch, now).value;
            && t.vouchers.Keys == s.vouchers.Keys
            && Payees(s, batch) && PaidOut(s, batch, t)
  {
    if batch != [] {
      var last := |batch| - 1;
      BatchEffect(s, batch[..last], now);
      PayBatchFrozen(s, batch[..last], now);
      NextPayee(s, PayBatch(s, batch[..last], now).value, batch[..last], batch[last], now);
      assert batch[..last] + [batch[last]] == batch;
    }
  }

  // ---------------------------------------------------------------- exactly once

  /** One payment as seen from outside: by how much a voucher account grew during a step. */
  datatype Payment = Payment(drop: nat, user: Pubkey, amount: int)

  ghost function Payments(s: System, t: System, batch: seq<Pubkey>): seq<Payment> {
    seq(|batch|, i requires 0 <= i < |batch| =>
      Payment(s.state.dropIdx, batch[i],
              Balance(t.lamports, VoucherAccount(batch[i])) - Balance(s.lamports, VoucherAccount(batch[i]))))
  }

  /**
   A run with its history: every payment in order, the drop at which each voucher was opened, and what
   outsiders sent to the state account since the current distribution started.
   */
  datatype Trace = Trace(sys: System, log: seq<Payment>, born: map<Pubkey, nat>, donated: nat)

  ghost function TraceStep(t: Trace, op: Op): Trace {
    if Apply(t.sys, op).Failure? then t
    else
      var after := Apply(t.sys, op).value;
      match op
      case DistributeTo(batch, now) =>
        t.(sys := after,
           log := t.log + Payments(t.sys, after, batch),
           donated := if t.sys.state.distribution.Some? then t.donated else 0)
      case DepositTokens(user, funder, amount) =>
        t.(sys := after, born := if user in t.sys.vouchers then t.born else t.born[user := t.sys.state.dropIdx])
      case SendLamports(from, to, amount) =>
        t.(sys := after, donated := if to == StateAccount then t.donated + amount else t.donated)
      case _ => t.(sys := after)
  }

  ghost function RunTrace(s: System, ops: seq<Op>): Trace {
    if ops == [] then Trace(s, [], map[], 0)
    else TraceStep(RunTrace(s, ops[..|ops| - 1]), ops[|ops| - 1])
  }

  /** The drops for which `u` was paid, in order. */
  ghost function PaidDrops(log: seq<Payment>, u: Pubkey): seq<nat> {
    if log == [] then []
    else
      var last := |log| - 1;
      PaidDrops(log[..last], u) + (if log[last].user == u then [log[last].drop] else [])
  }

  /** The consecutive drops from `first` up to but not including `next`. */
  ghost function Drops(first: nat, next: nat): seq<nat> {
    if next <= first then [] else Drops(first, next - 1) + [next - 1]
  }

  ghost function Due(vouchers: map<Pubkey, Voucher>, born: map<Pubkey, nat>, u: Pubkey): seq<nat>
    requires born.Keys == vouchers.Keys
  {
    if u in vouchers then Drops(born[u], vouchers[u].dropIdx) else []
  }

  /** Every voucher was paid for every drop since it was opened, once each and in order. */
  ghost predicate PaidOnce(vouchers: map<Pubkey, Voucher>, born: map<Pubkey, nat>, log: seq<Payment>) {
    && born.Keys == vouchers.Keys
    && (forall u :: u in vouchers.Keys ==> born[u] <= vouchers[u].dropIdx)
    && (forall u :: PaidDrops(log, u) == Due(vouchers, born, u))
  }

  lemma {:induction false} PaidDropsConcat(log: seq<Payment>, more: seq<Payment>, u: Pubkey)
    ensures PaidDrops(log + more, u) == PaidDrops(log, u) + PaidDrops(more, u)
  {
    if more == [] {
      assert log + more == log;
    } else {
      var last := |more| - 1;
      PaidDropsConcat(log, more[..last], u);
      assert (log + more)[..|log + more| - 1] == log + more[..last];
    }
  }

  /** The payments of one batch contain `u` once if it is a payee, and not at all otherwise. */
  lemma {:induction false} BatchPaysOnce(log: seq<Payment>, batch: seq<Pubkey>, drop: nat, u: Pubkey)
    requires |log| == |batch| && AllDistinct(batch)
    requires forall i :: 0 <= i < |log| ==> log[i].drop == drop && log[i].user == batch[i]
    ensures PaidDrops(log, u) == if u in batch then [drop] else []
  {
    if log != [] {
      var last := |log| - 1;
      BatchPaysOnce(log[..last], batch[..last], drop, u);
      assert batch == batch[..last] + [batch[last]];
    }
  }

  /** A batch extends the history of its payees by the current drop. */
  lemma BatchKeepsPaidOnce(s: System, t: System, born: map<Pubkey, nat>, log: seq<Payment>,
                            more: seq<Payment>, batch: seq<Pubkey>)
    requires PaidOnce(s.vouchers, born, log) && Payees(s, batch)
    requires |more| == |batch|
    requires forall i :: 0 <= i < |more| ==> more[i].drop == s.state.dropIdx && more[i].user == batch[i]
    requires t.vouchers.Keys == s.vouchers.Keys
    requires forall u :: u in s.vouchers.Keys ==>
               t.vouchers[u].dropIdx == s.vouchers[u].dropIdx + (if u in batch then 1 else 0)
    ensures PaidOnce(t.vouchers, born, log + more)
  {
    forall u
      ensures PaidDrops(log + more, u) == Due(t.vouchers, born, u)
    {
      PaidDropsConcat(log, more, u);
      BatchPaysOnce(more, batch, s.state.dropIdx, u);
    }
  }

  /** What a successful distribute step does to vouchers and to the log. */
  lemma DistributePays(s: System, batch: seq<Pubkey>, now: i64)
    requires Distribute(s, batch, now).Success?
    ensures var t := Distribute(s, batch, now).value;
            && t.vouchers.Keys == s.vouchers.Keys
            && Payees(s, batch)
            && (forall u :: u in s.vouchers.Keys ==>
                  t.vouchers[u].dropIdx == s.vouchers[u].dropIdx + (if u in batch then 1 else 0))
    ensures var t, d := Distribute(s, batch, now).value, Started(s).value.state.distribution.value;
            forall u :: u in batch ==>
              Balance(t.lamports, VoucherAccount(u)) - Balance(s.lamports, VoucherAccount(u))
              == Payout(s.vouchers[u].balance, s.state.tokensHeld, d.distributeAmount)
  {
    var started := Started(s).value;
    StartedShape(s);
    StartedVoucherLamports(s);
    BatchEffect(started, batch, now);
  }

  lemma StartedVoucherLamports(s: System)
    requires Started(s).Success?
    ensures forall u :: Balance(Started(s).value.lamports, VoucherAccount(u)) == Balance(s.lamports, VoucherAccount(u))
  {
    if s.state.distribution.None? {
      StartShape(WithOverride(s));
    }
  }

  /** A deposit or withdrawal rewrites one voucher, keeping its drop index; a new one starts at the current drop. */
  lemma DepositVouchers(s: System, user: Pubkey, funder: Pubkey, amount: u64)
    requires Deposit(s, user, funder, amount).Success?
    ensures var t := Deposit(s, user, funder, amount).value;
            && user in t.vouchers
            && t.vouchers == s.vouchers[user := t.vouchers[user]]
            && t.vouchers[user].dropIdx == (if user in s.vouchers then s.vouchers[user].dropIdx else s.state.dropIdx)
            && t.state.dropIdx == s.state.dropIdx
            && s.state.distribution.None? && t.state.distribution.None?
  {
    var m := OpenVoucher(WithOverride(s), user, funder, amount).value;
    assert user in m.vouchers && m.vouchers == s.vouchers[user := m.vouchers[user]];
    StakeEffect(m, user, amount);
    RecordMaxWeightEffect(Stake(m, user, amount).value, s.tokens, funder);
  }

  lemma WithdrawVouchers(s: System, op: Op)
    requires op.WithdrawTokens? && Apply(s, op).Success?
    ensures var t := Apply(s, op).value;
            && SameDrops(s.vouchers, t.vouchers) && t.state.dropIdx == s.state.dropIdx
            && s.state.distribution.None? && t.state.distribution.None?
  {
    WithdrawSteps(s, op.user, op.amount, op.openVotes, op.funder, op.voucher);
    WithdrawEffect(s, op.user, op.amount, op.openVotes, op.funder, op.voucher);
  }

  lemma SameDropsKeepPaidOnce(vouchers: map<Pubkey, Voucher>, later: map<Pubkey, Voucher>, born: map<Pubkey, nat>,
                              log: seq<Payment>)
    requires PaidOnce(vouchers, born, log) && SameDrops(vouchers, later)
    ensures PaidOnce(later, born, log)
  {
    assert forall w :: Due(later, born, w) == Due(vouchers, born, w);
  }

  lemma OpeningKeepsPaidOnce(vouchers: map<Pubkey, Voucher>, u: Pubkey, v: Voucher, born: map<Pubkey, nat>,
                             log: seq<Payment>)
    requires PaidOnce(vouchers, born, log) && u !in vouchers
    ensures PaidOnce(vouchers[u := v], born[u := v.dropIdx], log)
  {
    assert vouchers[u := v].Keys == vouchers.Keys + {u};
    assert forall w :: Due(vouchers[u := v], born[u := v.dropIdx], w) == Due(vouchers, born, w);
  }

  lemma DistributeKeepsPaidOnce(t: Trace, batch: seq<Pubkey>, now: i64)
    requires PaidOnce(t.sys.vouchers, t.born, t.log) && Distribute(t.sys, batch, now).Success?
    ensures var after := Distribute(t.sys, batch, now).value;
            PaidOnce(after.vouchers, t.born, t.log + Payments(t.sys, after, batch))
  {
    var after := Distribute(t.sys, batch, now).value;
    DistributePays(t.sys, batch, now);
    BatchKeepsPaidOnce(t.sys, after, t.born, t.log, Payments(t.sys, after, batch), batch);
  }

  lemma OtherStepsKeepVouchers(s: System, op: Op)
    requires Apply(s, op).Success? && !op.DistributeTo? && !op.DepositTokens? && !op.WithdrawTokens?
    ensures Apply(s, op).value.vouchers == s.vouchers
    ensures Apply(s, op).value.state == s.state
    ensures Apply(s, op).value.owner == s.owner
  {
    if op.SyncWeight? {
      SyncEffect(s, op.user, op.funder, op.voucher);
    }
  }

  lemma StepKeepsPaidOnce(t: Trace, op: Op)
    requires PaidOnce(t.sys.vouchers, t.born, t.log)
    ensures var after := TraceStep(t, op);
            PaidOnce(after.sys.vouchers, after.born, after.log)
  {
    if Apply(t.sys, op).Success? {
      match op
      case DistributeTo(batch, now) =>
        DistributeKeepsPaidOnce(t, batch, now);
      case DepositTokens(user, funder, amount) =>
        DepositVouchers(t.sys, user, funder, amount);
        var later := Deposit(t.sys, user, funder, amount).value.vouchers;
        if user in t.sys.vouchers {
          SameDropsKeepPaidOnce(t.sys.vouchers, later, t.born, t.log);
        } else {
          OpeningKeepsPaidOnce(t.sys.vouchers, user, later[user], t.born, t.log);
        }
      case WithdrawTokens(_, _, _, _, _) =>
        WithdrawVouchers(t.sys, op);
        SameDropsKeepPaidOnce(t.sys.vouchers, Apply(t.sys, op).value.vouchers, t.born, t.log);
      case _ =>
        OtherStepsKeepVouchers(t.sys, op);
    }
  }

  lemma {:induction false} TraceFollowsRun(s: System, ops: seq<Op>)
    ensures RunTrace(s, ops).sys == Run(s, ops)
  {
    if ops != [] {
      TraceFollowsRun(s, ops[..|ops| - 1]);
      TraceStepFollows(RunTrace(s, ops[..|ops| - 1]), ops[|ops| - 1]);
    }
  }

  lemma TraceStepFollows(t: Trace, op: Op)
    ensures TraceStep(t, op).sys == Step(t.sys, op)
  {
  }

  lemma {:induction false} TraceKeepsPaidOnce(s: System, ops: seq<Op>)
    requires Initial(s)
    ensures var t := RunTrace(s, ops);
            PaidOnce(t.sys.vouchers, t.born, t.log)
  {
    if ops != [] {
      var before := ops[..|ops| - 1];
      TraceKeepsPaidOnce(s, before);
      StepKeepsPaidOnce(RunTrace(s, before), ops[|ops| - 1]);
    }
  }

  /**
   Exactly once: over every run from initialisation, each voucher has been paid for exactly the drops from
   the one at which it was opened up to its own index, once each and in order, however the
   batches were chosen. Between distributions that index is the state's.
   */
  lemma EveryVoucherPaidOncePerDrop(s: System, ops: seq<Op>)
    requires Initial(s)
    ensures var t := RunTrace(s, ops);
            && t.sys == Run(s, ops)
            && PaidOnce(t.sys.vouchers, t.born, t.log)
            && (t.sys.state.distribution.None? ==>
                  forall u :: u in t.sys.vouchers ==>
                    PaidDrops(t.log, u) == Drops(t.born[u], t.sys.state.dropIdx))
  {
    TraceFollowsRun(s, ops);
    TraceKeepsPaidOnce(s, ops);
    RunKeepsOrder(s, ops);
    IdleVouchers(RunTrace(s, ops));
  }

  lemma IdleVouchers(t: Trace)
    requires Tidy(t.sys) && PaidOnce(t.sys.vouchers, t.born, t.log)
    ensures t.sys.state.distribution.None? ==>
              forall u :: u in t.sys.vouchers ==> PaidDrops(t.log, u) == Drops(t.born[u], t.sys.state.dropIdx)
  {
    if t.sys.state.distribution.None? {
      forall u | u in t.sys.vouchers
        ensures PaidDrops(t.log, u) == Drops(t.born[u], t.sys.state.dropIdx)
      {
        assert u in Unpaid(t.sys.vouchers, t.sys.state.dropIdx);
        assert PaidDrops(t.log, u) == Due(t.sys.vouchers, t.born, u);
      }
    }
  }
}
