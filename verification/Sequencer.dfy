/** The settlement sequencer: one build, prove, submit pass, and the drain that repeats it. */
module Sequencers {
  import opened Wrappers
  import opened Text
  import opened LedgerLaws
  import opened SettlementBuilders
  import opened Commitments
  import opened SettlementModel
  import opened SettlementServices
  import opened ChainInvariant
  import opened PendingBatches
  import opened DrainPlan
  import opened BatchServices
  import opened SequencerModel
  import opened BusyDrains

  class SettlementSequencer {
    const batch: BatchService
    const settlement: OffchainSettlementService

    ghost predicate Valid()
      reads batch, batch.stateRollback, if batch.stateRollback != null then {batch.stateRollback.ls} else {}
      reads settlement.manager, settlement.manager.ls
    {
      batch.settlement == settlement && batch.pendingSource && batch.Valid() && batch.stateRollback == null
    }

    /** One settlement service is batch source and recovery driver, and no rollback is wired, as in main. */
    constructor (batch: BatchService, settlement: OffchainSettlementService)
      requires batch.settlement == settlement && batch.pendingSource && batch.Valid() && batch.stateRollback == null
      ensures Valid() && this.batch == batch && this.settlement == settlement
    {
      this.batch := batch;
      this.settlement := settlement;
    }

    /** Reopens the batch; a failure to reopen is logged, not raised. */
    method Reopen(batchId: string, reason: string)
      requires Valid()
      modifies settlement.repository
      ensures Valid() && settlement.manager.ls == old(settlement.manager.ls)
      ensures settlement.View() == CancelIncludedBatch(old(settlement.View()), batchId, reason).0
    {
      var _ := settlement.CancelIncludedBatch(batchId, reason);
    }

    /** Prove and submit what was built, and reopen it unless it was accepted. */
    method Conclude(output: BuildOutput, oracle: PassOracle) returns (r: Result<bool>)
      requires Valid()
      modifies batch`baseline, batch.relayer, batch.batchRepository, settlement.repository
      ensures Valid() && settlement.manager.ls == old(settlement.manager.ls)
      ensures (settlement.View(), r) ==
              Concluded(old(settlement.View()), output.update,
                        EndOf(output, batch.verifying, batch.expectedKey, oracle))
    {
      hide CancelIncludedBatch, GuardAccepts, CommitBatch, FailBatch, AnswerReport, Relayed, Saved, Rebased;
      var proof := oracle.prove(output);
      if proof.None? {
        Reopen(output.update.batchId, "prove failed");
        return Failure(ProveFailed);
      }
      var submitted := batch.SubmitBatch(output.update, output.commitments, proof.value, oracle.verified,
        oracle.answer);
      if submitted.Failure? {
        Reopen(output.update.batchId, "submit failed");
        return Failure(submitted.error);
      }
      ReportAccepted(output.update, output.commitments, oracle.answer);
      if !submitted.value.accepted {
        Reopen(output.update.batchId, "submit not accepted");
        return Failure(BatchNotAccepted);
      }
      return Success(true);
    }

    /** One pass; also tells which update it settled, as the log line does. */
    method SettleOnce(oracle: PassOracle) returns (r: Result<bool>, update: Option<SettlementUpdate>)
      requires Valid()
      modifies batch`baseline, batch.relayer, batch.batchRepository, settlement.Repr()
      ensures Valid() && settlement.manager.ls == old(settlement.manager.ls)
      ensures (settlement.View(), r) ==
                SequencerModel.SettleOnce(old(settlement.View()), batch.verifying, batch.expectedKey, oracle)
      ensures update == if r == Success(true)
                        then Some(BuildPendingBatch(old(settlement.View()), []).1.value.update) else None
    {
      hide BuildPendingBatch, Concluded, EndOf;
      update := None;
      var built := batch.BuildPendingBatch();
      if built.Failure? {
        if built.error == NoPendingSettlementOperations {
          return Success(false), None;
        }
        return Failure(built.error), None;
      }
      ConcludedSettles(settlement.View(), built.value.update,
                       EndOf(built.value, batch.verifying, batch.expectedKey, oracle));
      r := Conclude(built.value, oracle);
      if r.Success? {
        update := Some(built.value.update);
      }
    }

    /** Calls that reach the settlement service between two passes. */
    method Serve(calls: seq<Arrival>)
      requires Valid()
      modifies settlement.Repr()
      ensures Valid() && settlement.manager.ls == old(settlement.manager.ls)
      ensures settlement.View() == Served(old(settlement.View()), calls)
    {
      hide ApplyIndexedDeposit, ApplyWithdrawRequest;
      ghost var s := settlement.View();
      for i := 0 to |calls|
        invariant Valid() && settlement.manager.ls == old(settlement.manager.ls)
        invariant settlement.View() == Served(s, calls[..i])
      {
        assert calls[..i + 1][..i] == calls[..i];
        match calls[i] {
          case DepositArrives(d) =>
            var _ := settlement.ApplyIndexedDeposit(d);
          case WithdrawalArrives(w, userSecret) =>
            var _ := settlement.ApplyWithdrawRequest(w, userSecret);
        }
      }
      assert calls[..|calls|] == calls;
    }

    /** One round of a drain: the calls that get in, then a pass. */
    method Round(calls: seq<Arrival>, oracle: PassOracle, ghost g: string, ghost first: State, ghost p: nat,
                 ghost q: nat, ghost settled: seq<SettlementUpdate>, ghost rest: seq<Arrival>,
                 ghost quiet: bool, ghost ordinary: bool, ghost denom: string)
      returns (r: Result<bool>, update: Option<SettlementUpdate>, ghost q': nat)
      requires Valid() && GenesisApart(g)
      requires Underway(g, first, p, settlement.View(), q, settled, calls + rest, quiet, ordinary, denom)
      modifies batch`baseline, batch.relayer, batch.batchRepository, settlement.Repr()
      ensures Valid() && settlement.manager.ls == old(settlement.manager.ls)
      ensures r == Success(true) <==> update.Some?
      ensures r == Success(true) ==>
                && Underway(g, first, p, settlement.View(), q', settled + [update.value], rest, quiet, ordinary, denom)
                && q < q' <= |settlement.View().rows| <= |old(settlement.View().rows)| + |calls|
      ensures r != Success(true) ==> Ended(g, first, p, settlement.View(), q, settled, quiet, r == Success(false))
      ensures ordinary && Honest(batch.expectedKey, oracle) && ValidHex(g) ==> r.Success?
    {
      hide Chained, GenesisApart, SequencerModel.SettleOnce, BuildPendingBatch, NextBatch, Underway, Ended, Served,
           Honest, ValidHex;
      UnderwayServes(g, first, p, settlement.View(), q, settled, calls, rest, quiet, ordinary, denom);
      Serve(calls);
      ghost var before := settlement.View();
      r, update := SettleOnce(oracle);
      q' := q;
      if ordinary && Honest(batch.expectedKey, oracle) && ValidHex(g) {
        OrdinaryPassNeverFails(g, first, p, before, q, settled, rest, quiet, denom, batch.verifying,
          batch.expectedKey, oracle);
      }
      if r == Success(true) {
        UnderwaySettles(g, first, p, before, q, settled, rest, quiet, ordinary, denom, batch.verifying,
          batch.expectedKey, oracle);
        q' := q + |NextBatch(before.rows, q)|;
      } else {
        UnderwayEnds(g, first, p, before, q, settled, rest, quiet, ordinary, denom, batch.verifying,
          batch.expectedKey, oracle);
      }
    }

    /**
     * Settles batches until the queue is idle or a pass fails, while the calls of `arrivals[i]` get
     * in before pass `i`, and always stops: every pass that settles uses up calls to come or rows
     * not yet settled. What it settled are the operations of the grown log up to some row, in order;
     * all of them when it ends idle. With ordinary rows and calls and an honest prover and chain it
     * ends idle. When no call gets in, it settles the batches of the log it started with.
     */
    method Drain(ghost g: string, ghost p: nat, ghost denom: string, arrivals: seq<seq<Arrival>>,
                 oracles: nat -> PassOracle)
      returns (settled: seq<SettlementUpdate>, last: Result<bool>, ghost q: nat)
      requires Valid() && GenesisApart(g) && Inv(g, settlement.View(), p, p)
      requires Fresh(settlement.View().rows, Flat(arrivals))
      modifies batch`baseline, batch.relayer, batch.batchRepository, settlement.Repr()
      ensures Valid() && last != Success(true)
      ensures Ended(g, old(settlement.View()), p, settlement.View(), q, settled, arrivals == [], last == Success(false))
      ensures AllOrdinary(g, old(settlement.View()), p, denom, Flat(arrivals), batch.expectedKey, oracles) ==>
                last == Success(false)
    {
      hide Chained, GenesisApart, Underway, Ended, AllOrdinary, Flat, Fresh, OrdinaryCalls, OrdinaryFrom, Trimmed,
           Honest, ValidHex, BusyDrains.Round, From;
      ghost var first, quiet := settlement.View(), arrivals == [];
      ghost var ordinary := AllOrdinary(g, first, p, denom, Flat(arrivals), batch.expectedKey, oracles);
      RoundsGoOn(arrivals, 0);
      if ordinary { AllOrdinaryParts(g, first, p, denom, Flat(arrivals), batch.expectedKey, oracles); }
      UnderwayStarts(g, first, p, Flat(arrivals), quiet, ordinary, denom);
      UnderwayParts(g, first, p, first, p, [], Flat(arrivals), quiet, ordinary, denom);
      q := p;
      settled := [];
      while true
        invariant Valid() && settlement.manager.ls == old(settlement.manager.ls) && q <= |settlement.View().rows|
        invariant Underway(g, first, p, settlement.View(), q, settled, From(arrivals, |settled|), quiet, ordinary,
                  denom)
        decreases |From(arrivals, |settled|)| + (|settlement.View().rows| - q)
      {
        RoundsGoOn(arrivals, |settled|);
        var r, update, next := Round(BusyDrains.Round(arrivals, |settled|), oracles(|settled|), g, first, p, q, settled,
                                     From(arrivals, |settled| + 1), quiet, ordinary, denom);
        if r != Success(true) {
          assert r.Success? ==> !r.value;
          last := r;
          break;
        }
        settled, q := settled + [update.value], next;
      }
    }
  }

  lemma ReportAccepted(u: SettlementUpdate, c: BatchCommitments, answer: RelayAnswer)
    requires answer.Answered?
    ensures AnswerReport(u, c, answer).accepted == answer.accepted
  {
  }

  /** What is concluded without an error is settled. */
  lemma ConcludedSettles(s: State, u: SettlementUpdate, end: PassEnd)
    ensures Concluded(s, u, end).1.Success? ==> Concluded(s, u, end).1 == Success(true)
  {
    hide CancelIncludedBatch, CommitBatch, FailBatch;
  }
}
