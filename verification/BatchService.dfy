/** Submitting a batch: proof guard, verifier, relayer, rollback baseline, settlement commit. */
module BatchServices {
  import opened Wrappers
  import opened Text
  import opened Ledgers
  import opened LedgerLaws
  import opened OffchainManagers
  import opened SettlementLogs
  import opened SettlementBuilders
  import opened Commitments
  import opened SettlementModel
  import opened SettlementServices

  datatype ProofBundle = ProofBundle(proof: string, publicInputs: seq<string>, verificationKeyId: string)

  datatype WithdrawRecord = WithdrawRecord(
    withdrawId: string, owner: string, denom: string, amount: string,
    destination: string, nullifier: string, claimed: bool)

  /** What the chain answered, if it could be asked at all. */
  datatype RelayAnswer =
    | Unreachable
    | Answered(accepted: bool, txHash: string, proofStatus: string, records: seq<WithdrawRecord>)

  datatype PartialState = PartialState(
    currentStateRoot: string, depositStatus: string, proofStatus: string, withdrawStatus: string, batchStatus: string)

  datatype SubmitResponse = SubmitResponse(
    txHash: string, accepted: bool, proofStatus: string,
    update: SettlementUpdate, commitments: BatchCommitments, records: seq<WithdrawRecord>, state: PartialState)

  /** One saved submit: what was submitted, and the answer. */
  datatype SubmitResult = SubmitResult(update: SettlementUpdate, commitments: BatchCommitments, answer: RelayAnswer)

  /** Keeps every submit the chain answered, in order. */
  class BatchRepository {
    var results: seq<SubmitResult>

    constructor ()
      ensures results == []
    {
      results := [];
    }

    method SaveBatchSubmitResult(result: SubmitResult)
      modifies this
      ensures results == old(results) + [result]
    {
      results := results + [result];
    }
  }

  /** The relayer, known by what it was asked to submit. */
  class RelayerClient {
    var submitted: seq<SettlementUpdate>

    constructor ()
      ensures submitted == []
    {
      submitted := [];
    }

    method SubmitBatch(u: SettlementUpdate)
      modifies this
      ensures submitted == old(submitted) + [u]
    {
      submitted := submitted + [u];
    }
  }

  /** guardProofContract: the pinned circuit, and public inputs that are this settlement's. */
  predicate GuardAccepts(expectedKey: string, u: SettlementUpdate, c: BatchCommitments, b: ProofBundle) {
    && (expectedKey == "" || Trim(b.verificationKeyId) == expectedKey)
    && PublicInputs(u, c) == Success(b.publicInputs)
  }

  datatype Verdict = BadProof | NoAnswer | Accepted(txHash: string) | TurnedDown(proofStatus: string)

  function VerdictOf(verifying: bool, guarded: bool, verified: bool, answer: RelayAnswer): Verdict {
    if verifying && !(guarded && verified) then BadProof
    else match answer
         case Unreachable => NoAnswer
         case Answered(accepted, txHash, proofStatus, _) =>
           if accepted then Accepted(txHash) else TurnedDown(proofStatus)
  }

  /** What a submit does to the settlement state in pending mode. */
  function Submitted(s: State, u: SettlementUpdate, v: Verdict): State {
    match v
    case Accepted(txHash) => CommitBatch(s, u.batchId, txHash, u.newStateRoot)
    case TurnedDown(proofStatus) => FailBatch(s, u.batchId, proofStatus)
    case _ => s
  }

  /** The response to an answered submit; its state part is the same whether accepted or not. */
  function AnswerReport(u: SettlementUpdate, c: BatchCommitments, answer: RelayAnswer): SubmitResponse
    requires answer.Answered?
  {
    SubmitResponse(answer.txHash, answer.accepted, answer.proofStatus, u, c, answer.records,
                   PartialState(u.newStateRoot, "processed", answer.proofStatus, "readyToClaim", "accepted"))
  }

  function ResponseOf(v: Verdict, u: SettlementUpdate, c: BatchCommitments,
                      answer: RelayAnswer): Result<SubmitResponse> {
    match v
    case BadProof => Failure(ProofVerificationFailed)
    case NoAnswer => Failure(RelayerFailed)
    case _ => if answer.Answered? then Success(AnswerReport(u, c, answer)) else Failure(RelayerFailed)
  }

  /**
   * The root that the response calls current is the committed root after the submit if and only if
   * the batch was accepted, or the cursor already stood there.
   */
  lemma ReportedRootIsCommittedExactly(s: State, u: SettlementUpdate, c: BatchCommitments, answer: RelayAnswer)
    requires s.cursor.Some? && answer.Answered?
    ensures var s' := Submitted(s, u, VerdictOf(false, true, true, answer));
            AnswerReport(u, c, answer).state.currentStateRoot == CursorOf(s').committedRoot <==>
            answer.accepted || s.cursor.value.committedRoot == u.newStateRoot
  {
  }

  lemma SubmittedNothing(u: SettlementUpdate, v: Verdict)
    ensures v == BadProof || v == NoAnswer ==> forall s :: Submitted(s, u, v) == s
  {
  }

  datatype Books = Books(ledger: Ledger, baseline: Ledger)

  /** An accepted batch moves the baseline to the ledger; any other end moves the ledger to the baseline. */
  function Rebased(books: Option<Books>, accepted: bool): Option<Books> {
    match books
    case None => None
    case Some(b) => Some(if accepted then Books(b.ledger, b.ledger) else Books(b.baseline, b.baseline))
  }

  /** The relayer is asked only past the guard and the verifier. */
  function Relayed(submitted: seq<SettlementUpdate>, u: SettlementUpdate, v: Verdict): seq<SettlementUpdate> {
    if v == BadProof then submitted else submitted + [u]
  }

  /** Every answer is saved. */
  function Saved(results: seq<SubmitResult>, result: SubmitResult, v: Verdict): seq<SubmitResult> {
    if v == BadProof || v == NoAnswer then results else results + [result]
  }

  /** A response is given exactly when the chain answered past the guard, and then its answer is the verdict. */
  lemma AnsweredExactly(verifying: bool, guarded: bool, verified: bool, u: SettlementUpdate, c: BatchCommitments,
                        answer: RelayAnswer)
    ensures var v := VerdictOf(verifying, guarded, verified, answer);
            && (ResponseOf(v, u, c, answer).Success? ==> answer.Answered? && v == VerdictOf(false, true, true, answer))
            && (ResponseOf(v, u, c, answer).Failure? ==> v == BadProof || v == NoAnswer)
  {
  }

  /** The proof stands: no verifier is wired, or guard and verifier both accept. */
  predicate Proven(verifying: bool, guarded: bool, verified: bool) { verifying ==> guarded && verified }

  /** The parts of the response, one by one. */
  predicate Reports(r: SubmitResponse, u: SettlementUpdate, c: BatchCommitments, answer: RelayAnswer)
    requires answer.Answered?
  {
    && r.accepted == answer.accepted && r.txHash == answer.txHash && r.proofStatus == answer.proofStatus
    && r.records == answer.records && r.update == u && r.commitments == c
    && r.state.currentStateRoot == u.newStateRoot && r.state.proofStatus == answer.proofStatus
    && r.state.batchStatus == "accepted" && r.state.depositStatus == "processed"
    && r.state.withdrawStatus == "readyToClaim"
  }

  /** What the verdict means for the caller, the relayer and the record of submits. */
  lemma VerdictMeans(verifying: bool, guarded: bool, verified: bool, u: SettlementUpdate, c: BatchCommitments,
                     answer: RelayAnswer, submitted: seq<SettlementUpdate>, results: seq<SubmitResult>)
    ensures var v, proven := VerdictOf(verifying, guarded, verified, answer), Proven(verifying, guarded, verified);
            var r := ResponseOf(v, u, c, answer);
            && Relayed(submitted, u, v) == (if proven then submitted + [u] else submitted)
            && Saved(results, SubmitResult(u, c, answer), v) ==
               (if proven && answer.Answered? then results + [SubmitResult(u, c, answer)] else results)
            && (!proven ==> r == Failure(ProofVerificationFailed))
            && (proven && answer.Unreachable? ==> r == Failure(RelayerFailed))
            && (proven && answer.Answered? ==> r.Success? && Reports(r.value, u, c, answer))
            && (v.Accepted? <==> proven && answer.Answered? && answer.accepted)
  {
  }

  /** What the verdict means for the log. */
  lemma VerdictSettles(verifying: bool, guarded: bool, verified: bool,
                       answer: RelayAnswer, u: SettlementUpdate, s: State)
    ensures var s' := Submitted(s, u, VerdictOf(verifying, guarded, verified, answer));
            if !Proven(verifying, guarded, verified) || answer.Unreachable?
            then s'.rows == s.rows && s'.cursor == s.cursor
            else if answer.accepted then
              && s'.rows == WithStatus(s.rows, u.batchId, Committed, answer.txHash, "")
              && s'.cursor == Some(Cursor(u.newStateRoot, u.newStateRoot, u.batchId))
            else s'.rows == WithStatus(s.rows, u.batchId, Failed, "", answer.proofStatus) && s'.cursor == s.cursor
  {
    hide WithStatus;
  }

  class BatchService {
    const batchRepository: BatchRepository
    const relayer: RelayerClient
    const settlement: OffchainSettlementService?
    const pendingSource: bool
    const verifying: bool
    const expectedKey: string
    var stateRollback: OffchainStateManager?
    var baseline: Option<Snapshot>

    /** With rollback wired a baseline exists and shares nothing with the manager. */
    ghost predicate Valid()
      reads this, stateRollback, if stateRollback != null then {stateRollback.ls} else {}
      reads if settlement != null then {settlement.manager, settlement.manager.ls} else {}
    {
      && (stateRollback != null ==>
            && stateRollback.Valid()
            && baseline.Some? && baseline.value.Valid() && baseline.value.Footprint() !! stateRollback.Repr())
      && (settlement != null ==> settlement.Valid())
    }

    constructor (relayer: RelayerClient, settlement: OffchainSettlementService?, pendingSource: bool,
                 verifying: bool, expectedKey: string)
      requires settlement != null ==> settlement.Valid()
      ensures Valid() && fresh(this)
      ensures this.relayer == relayer && this.settlement == settlement && this.pendingSource == pendingSource
      ensures this.verifying == verifying && this.expectedKey == Trim(expectedKey) && stateRollback == null
      ensures fresh(batchRepository) && batchRepository.results == []
    {
      batchRepository := new BatchRepository();
      this.relayer := relayer;
      this.settlement := settlement;
      this.pendingSource := pendingSource;
      this.verifying := verifying;
      this.expectedKey := Trim(expectedKey);
      stateRollback := null;
      baseline := None;
    }

    /** Wires a manager, whose state becomes the baseline, or unwires the one there was. */
    method SetStateRollback(m: OffchainStateManager?)
      requires Valid() && (m != null ==> m.Valid())
      modifies `stateRollback, `baseline
      ensures Valid() && stateRollback == m
      ensures m != null ==> baseline.value.Model() == m.Model() == old(m.Model()) && fresh(baseline.value.Footprint())
      ensures m == null ==> baseline == old(baseline)
    {
      stateRollback := m;
      if m != null {
        var snap := m.Snapshot();
        baseline := Some(snap);
      }
    }

    method GuardProofContract(u: SettlementUpdate, c: BatchCommitments, b: ProofBundle) returns (ok: bool)
      ensures ok <==> GuardAccepts(expectedKey, u, c, b)
    {
      hide Trim, PublicInputs;
      if expectedKey != "" && Trim(b.verificationKeyId) != expectedKey {
        return false;
      }
      var expected := PublicInputs(u, c);
      if expected.Failure? {
        return false;
      }
      if |b.publicInputs| != |expected.value| {
        return false;
      }
      for i := 0 to |expected.value|
        invariant forall j :: 0 <= j < i ==> b.publicInputs[j] == expected.value[j]
      {
        if b.publicInputs[i] != expected.value[i] {
          return false;
        }
      }
      assert b.publicInputs == expected.value;
      return true;
    }

    method CommitStateBaseline()
      requires Valid()
      modifies `baseline
      ensures Valid()
      ensures stateRollback != null ==>
                && baseline.value.Model() == stateRollback.Model() == old(stateRollback.Model())
                && fresh(baseline.value.Footprint())
      ensures stateRollback == null ==> baseline == old(baseline)
    {
      if stateRollback == null {
        return;
      }
      var snap := stateRollback.Snapshot();
      baseline := Some(snap);
    }

    method RollbackStateToBaseline()
      requires Valid()
      modifies stateRollback
      ensures Valid() && baseline == old(baseline)
      ensures stateRollback != null ==>
                && stateRollback.Model() == baseline.value.Model() == old(baseline.value.Model())
                && fresh(stateRollback.ls.Repr)
    {
      if stateRollback == null || baseline == None {
        return;
      }
      stateRollback.Rollback(baseline.value);
    }

    /** The manager wired for rollback and its baseline, as they stand. */
    ghost function RollbackBooks(): Option<Books>
      reads this, stateRollback, if stateRollback != null then {stateRollback.ls} else {}
      reads if stateRollback != null then stateRollback.Repr() else {}
      reads if baseline.Some? then baseline.value.Footprint() else {}
    {
      if stateRollback == null || baseline.None? then None
      else Some(Books(stateRollback.Model(), baseline.value.Model()))
    }

    /** The state behind the settlement service, if there is one. */
    ghost function PendingState(): Option<State>
      reads if settlement != null then settlement.Repr() else {}
      reads if settlement != null then {settlement.manager} else {}
    {
      if settlement != null then Some(settlement.View()) else None
    }

    /** `s` with the ledger replaced, unless rollback is unwired: then with the same ledger. */
    ghost predicate OnlyLedgerMoved(s: Option<State>, s': Option<State>)
      reads this
    {
      && s.Some? == s'.Some?
      && (s.Some? ==> s'.value == s.value.(ledger := s'.value.ledger))
      && (s.Some? && stateRollback == null ==> s' == s)
    }

    /** Moves the baseline to the manager after an accepted batch, the manager to the baseline otherwise. */
    method Rebase(accepted: bool)
      requires Valid()
      modifies `baseline, stateRollback
      ensures Valid() && RollbackBooks() == Rebased(old(RollbackBooks()), accepted)
      ensures OnlyLedgerMoved(old(PendingState()), PendingState())
      ensures stateRollback != null ==> stateRollback.ls == old(stateRollback.ls) || fresh(stateRollback.ls.Repr)
    {
      if accepted {
        CommitStateBaseline();
      } else {
        RollbackStateToBaseline();
      }
    }

    /** Asks the chain; the manager and the log are not touched. */
    method Ask(u: SettlementUpdate)
      requires Valid()
      modifies relayer
      ensures relayer.submitted == old(relayer.submitted) + [u]
      ensures Valid() && RollbackBooks() == old(RollbackBooks()) && PendingState() == old(PendingState())
    {
      relayer.SubmitBatch(u);
    }

    /** Saves the answer; the manager and the log are not touched. */
    method Save(result: SubmitResult)
      requires Valid()
      modifies batchRepository
      ensures batchRepository.results == old(batchRepository.results) + [result]
      ensures Valid() && RollbackBooks() == old(RollbackBooks()) && PendingState() == old(PendingState())
    {
      batchRepository.SaveBatchSubmitResult(result);
    }

    /** Guard, verifier, relayer and baseline: the part of SubmitBatch before the store. */
    method Relay(u: SettlementUpdate, c: BatchCommitments, b: ProofBundle, verified: bool, answer: RelayAnswer)
      returns (r: Result<SubmitResponse>)
      requires Valid()
      modifies `baseline, relayer, stateRollback, batchRepository
      ensures Valid()
      ensures var v := VerdictOf(verifying, GuardAccepts(expectedKey, u, c, b), verified, answer);
              && r == ResponseOf(v, u, c, answer)
              && relayer.submitted == Relayed(old(relayer.submitted), u, v)
              && batchRepository.results == Saved(old(batchRepository.results), SubmitResult(u, c, answer), v)
              && RollbackBooks() == Rebased(old(RollbackBooks()), v.Accepted?)
      ensures OnlyLedgerMoved(old(PendingState()), PendingState())
      ensures stateRollback != null ==> stateRollback.ls == old(stateRollback.ls) || fresh(stateRollback.ls.Repr)
    {
      hide GuardAccepts, Rebased, AnswerReport, RollbackBooks, PendingState;
      var passed := CheckProof(u, c, b, verified);
      if !passed {
        Rebase(false);
        return Failure(ProofVerificationFailed);
      }
      Ask(u);
      if answer.Unreachable? {
        Rebase(false);
        return Failure(RelayerFailed);
      }
      Rebase(answer.accepted);
      Save(SubmitResult(u, c, answer));
      return Success(AnswerReport(u, c, answer));
    }

    /** SubmitBatch against the value-level verdict. */
    method Submit(u: SettlementUpdate, c: BatchCommitments, b: ProofBundle, verified: bool, answer: RelayAnswer)
      returns (r: Result<SubmitResponse>)
      requires Valid()
      modifies `baseline, relayer, stateRollback, batchRepository
      modifies if settlement != null && pendingSource then {settlement.repository} else {}
      ensures Valid()
      ensures var v := VerdictOf(verifying, GuardAccepts(expectedKey, u, c, b), verified, answer);
              && r == ResponseOf(v, u, c, answer)
              && relayer.submitted == Relayed(old(relayer.submitted), u, v)
              && batchRepository.results == Saved(old(batchRepository.results), SubmitResult(u, c, answer), v)
              && RollbackBooks() == Rebased(old(RollbackBooks()), v.Accepted?)
              && (settlement != null && pendingSource ==>
                    settlement.View() == Submitted(old(settlement.View()).(ledger := settlement.manager.Model()), u, v))
      ensures stateRollback != null ==> stateRollback.ls == old(stateRollback.ls) || fresh(stateRollback.ls.Repr)
      ensures stateRollback == null && settlement != null ==>
                settlement.manager.Model() == old(settlement.manager.Model())
    {
      hide GuardAccepts, Submitted, VerdictOf, ResponseOf, Rebased, Relayed, Saved, RollbackBooks;
      ghost var v := VerdictOf(verifying, GuardAccepts(expectedKey, u, c, b), verified, answer);
      r := Relay(u, c, b, verified, answer);
      AnsweredExactly(verifying, GuardAccepts(expectedKey, u, c, b), verified, u, c, answer);
      if r.Success? {
        SettlePending(u, answer);
      } else {
        SubmittedNothing(u, v);
      }
    }

    /**
     * Without a proof that stands the submit fails, the relayer is not reached and nothing is saved
     * or settled. Otherwise the relayer is asked, every answer is saved, reported and, in pending
     * mode, settled. An accepted batch moves the baseline to the manager's state; any other end
     * moves the manager back to the baseline.
     */
    method SubmitBatch(u: SettlementUpdate, c: BatchCommitments, b: ProofBundle, verified: bool, answer: RelayAnswer)
      returns (r: Result<SubmitResponse>)
      requires Valid()
      modifies `baseline, relayer, stateRollback, batchRepository
      modifies if settlement != null && pendingSource then {settlement.repository} else {}
      ensures Valid()
      ensures var proven := verifying ==> GuardAccepts(expectedKey, u, c, b) && verified;
              && (!proven ==> r == Failure(ProofVerificationFailed) && relayer.submitted == old(relayer.submitted))
              && (proven ==> relayer.submitted == old(relayer.submitted) + [u] && (r.Success? <==> answer.Answered?))
              && (proven && answer.Unreachable? ==> r == Failure(RelayerFailed))
              && (proven && answer.Answered? ==> Reports(r.value, u, c, answer))
              && batchRepository.results == old(batchRepository.results) +
                 (if proven && answer.Answered? then [SubmitResult(u, c, answer)] else [])
      ensures var proven := verifying ==> GuardAccepts(expectedKey, u, c, b) && verified;
              settlement != null ==>
                if !pendingSource || !proven || answer.Unreachable? then
                  && settlement.repository.rows == old(settlement.repository.rows)
                  && settlement.repository.cursor == old(settlement.repository.cursor)
                else if answer.accepted then
                  && settlement.repository.rows ==
                     WithStatus(old(settlement.repository.rows), u.batchId, Committed, answer.txHash, "")
                  && settlement.repository.cursor == Some(Cursor(u.newStateRoot, u.newStateRoot, u.batchId))
                else
                  && settlement.repository.rows ==
                     WithStatus(old(settlement.repository.rows), u.batchId, Failed, "", answer.proofStatus)
                  && settlement.repository.cursor == old(settlement.repository.cursor)
      ensures var proven := verifying ==> GuardAccepts(expectedKey, u, c, b) && verified;
              match old(RollbackBooks())
              case None => RollbackBooks() == None
              case Some(was) =>
                if proven && answer.Answered? && answer.accepted then
                  RollbackBooks() == Some(Books(was.ledger, was.ledger))
                else
                  RollbackBooks() == Some(Books(was.baseline, was.baseline))
      ensures settlement != null && pendingSource ==>
                settlement.View() ==
                Submitted(old(settlement.View()).(ledger := settlement.manager.Model()), u,
                          VerdictOf(verifying, GuardAccepts(expectedKey, u, c, b), verified, answer))
      ensures r == ResponseOf(VerdictOf(verifying, GuardAccepts(expectedKey, u, c, b), verified, answer), u, c, answer)
      ensures stateRollback != null ==> stateRollback.ls == old(stateRollback.ls) || fresh(stateRollback.ls.Repr)
      ensures stateRollback == null && settlement != null ==>
                settlement.manager.Model() == old(settlement.manager.Model())
    {
      hide GuardAccepts, Submitted, VerdictOf, ResponseOf, Relayed, Saved, Reports, RollbackBooks;
      ghost var guarded := GuardAccepts(expectedKey, u, c, b);
      VerdictMeans(verifying, guarded, verified, u, c, answer, relayer.submitted, batchRepository.results);
      r := Submit(u, c, b, verified, answer);
      if settlement != null {
        ghost var before := old(settlement.View()).(ledger := settlement.manager.Model());
        VerdictSettles(verifying, guarded, verified, answer, u, before);
      }
    }

    /** The guard first, then the verifier, whose answer is `verified`; neither without a verifier. */
    method CheckProof(u: SettlementUpdate, c: BatchCommitments, b: ProofBundle, verified: bool) returns (ok: bool)
      requires Valid()
      ensures ok <==> !verifying || (GuardAccepts(expectedKey, u, c, b) && verified)
      ensures Valid() && RollbackBooks() == old(RollbackBooks()) && PendingState() == old(PendingState())
    {
      if !verifying {
        return true;
      }
      var guarded := GuardProofContract(u, c, b);
      if !guarded {
        return false;
      }
      return verified;
    }

    /** In pending mode the settlement service learns the chain's answer. */
    method SettlePending(u: SettlementUpdate, answer: RelayAnswer)
      requires Valid() && answer.Answered?
      modifies if settlement != null && pendingSource then {settlement.repository} else {}
      ensures Valid() && RollbackBooks() == old(RollbackBooks())
      ensures settlement != null ==> settlement.manager.Model() == old(settlement.manager.Model())
      ensures settlement != null && pendingSource ==>
                settlement.View() == Submitted(old(settlement.View()), u, VerdictOf(false, true, true, answer))
    {
      hide CommitBatch, FailBatch;
      if pendingSource && settlement != null {
        if answer.accepted {
          settlement.CommitBatch(u.batchId, answer.txHash, u.newStateRoot);
        } else {
          settlement.FailBatch(u.batchId, answer.proofStatus);
        }
      }
    }

    /** BuildBatch in pending mode: the request is ignored and the queue is collected. */
    method BuildPendingBatch() returns (r: Result<BuildOutput>)
      requires Valid() && pendingSource && settlement != null
      modifies settlement.Repr()
      ensures Valid() && settlement.manager.ls == old(settlement.manager.ls)
      ensures (settlement.View(), r) == SettlementModel.BuildPendingBatch(old(settlement.View()), [])
    {
      r := settlement.BuildPendingBatch([]);
    }
  }

  // --------------------------------------------------------------- the baseline over runs

  /** What happens to a manager with rollback wired: calls, and submits with their ends. */
  datatype ManualEvent =
    | Call(op: Operation)
    | Submit(u: SettlementUpdate, c: BatchCommitments, b: ProofBundle, verified: bool, answer: RelayAnswer)

  predicate Accepts(verifying: bool, expectedKey: string, e: ManualEvent)
    requires e.Submit?
  {
    VerdictOf(verifying, GuardAccepts(expectedKey, e.u, e.c, e.b), e.verified, e.answer).Accepted?
  }

  ghost function Booked(before: Books, verifying: bool, expectedKey: string, e: ManualEvent): Books {
    if e.Call? then before.(ledger := Step(before.ledger, e.op))
    else Rebased(Some(before), Accepts(verifying, expectedKey, e)).value
  }

  ghost function BooksAfter(books: Books, verifying: bool, expectedKey: string, es: seq<ManualEvent>): Books {
    if es == [] then books else
      Booked(BooksAfter(books, verifying, expectedKey, es[..|es| - 1]), verifying, expectedKey, es[|es| - 1])
  }

  /** One event on the heap objects. */
  method ManualStep(service: BatchService, m: OffchainStateManager, e: ManualEvent)
    requires service.Valid() && service.stateRollback == m && !service.pendingSource
    modifies service`baseline, service.relayer, service.batchRepository, m, m.ls.Repr
    ensures service.Valid() && service.stateRollback == m
    ensures m.ls == old(m.ls) || fresh(m.ls.Repr)
    ensures Books(m.Model(), service.baseline.value.Model()) ==
            Booked(old(Books(m.Model(), service.baseline.value.Model())), service.verifying, service.expectedKey, e)
  {
    hide Apply, VerdictOf, GuardAccepts;
    ghost var before := m.Model();
    match e {
      case Call(op) =>
        match op {
          case DepositOp(d) =>
            var r := m.ApplyDeposit(d);
          case WithdrawOp(w, nullifier) =>
            var r := m.ApplyWithdrawRequest(w, nullifier);
        }
        assert m.Model() == Step(before, op);
      case Submit(u, c, b, verified, answer) =>
        VerdictMeans(service.verifying, GuardAccepts(service.expectedKey, u, c, b), verified, u, c, answer, [], []);
        var r := service.SubmitBatch(u, c, b, verified, answer);
    }
  }

  /** The ledger and the baseline of the heap objects follow the books through any run. */
  method ManualRun(service: BatchService, m: OffchainStateManager, es: seq<ManualEvent>)
    requires service.Valid() && service.stateRollback == m && !service.pendingSource
    modifies service`baseline, service.relayer, service.batchRepository, m, m.ls.Repr
    ensures service.Valid() && service.stateRollback == m
    ensures Books(m.Model(), service.baseline.value.Model()) ==
            BooksAfter(old(Books(m.Model(), service.baseline.value.Model())), service.verifying,
              service.expectedKey, es)
  {
    hide Booked;
    ghost var books := Books(m.Model(), service.baseline.value.Model());
    for i := 0 to |es|
      invariant service.Valid() && service.stateRollback == m
      invariant m.ls == old(m.ls) || fresh(m.ls.Repr)
      invariant Books(m.Model(), service.baseline.value.Model()) ==
                BooksAfter(books, service.verifying, service.expectedKey, es[..i])
    {
      assert es[..i + 1][..i] == es[..i];
      ManualStep(service, m, es[i]);
    }
    assert es[..|es|] == es;
  }

  /**
   * At any time the baseline is the ledger as it was right after the last accepted submit, or at
   * wiring if none was accepted; and right after a rejected submit the ledger is that baseline.
   */
  lemma {:induction false} BaselineIsLastAccepted(books: Books, verifying: bool, expectedKey: string,
                                                  es: seq<ManualEvent>, n: nat)
    requires n <= |es|
    requires n == 0 || (es[n - 1].Submit? && Accepts(verifying, expectedKey, es[n - 1]))
    requires forall i :: n <= i < |es| && es[i].Submit? ==> !Accepts(verifying, expectedKey, es[i])
    ensures var end := BooksAfter(books, verifying, expectedKey, es);
            && end.baseline ==
               (if n == 0 then books.baseline else BooksAfter(books, verifying, expectedKey, es[..n]).ledger)
            && (n < |es| && es[|es| - 1].Submit? ==> end.ledger == end.baseline)
    decreases |es|
  {
    hide Accepts;
    if n < |es| {
      var front := es[..|es| - 1];
      assert front[..n] == es[..n];
      assert forall i :: 0 <= i < |front| ==> front[i] == es[i];
      BaselineIsLastAccepted(books, verifying, expectedKey, front, n);
    } else if es != [] {
      assert es[..n] == es;
    }
  }

  /**
   * What the guard binds, and all it binds: a bundle that passed for one update and its commitments
   * passes for another pair if and only if the two state roots and the four commitments are the same.
   */
  lemma GuardBindsExactly(expectedKey: string, u: SettlementUpdate, c: BatchCommitments, v: SettlementUpdate,
                          d: BatchCommitments, b: ProofBundle)
    requires GuardAccepts(expectedKey, u, c, b)
    ensures GuardAccepts(expectedKey, v, d, b) <==>
            v.oldStateRoot == u.oldStateRoot && v.newStateRoot == u.newStateRoot && d == c
  {
    hide ValidHex, Trim;
    if GuardAccepts(expectedKey, v, d, b) {
      var p, q := PublicInputs(u, c).value, PublicInputs(v, d).value;
      assert p[0] == q[0] && p[1] == q[1] && p[2] == q[2] && p[3] == q[3] && p[4] == q[4] && p[5] == q[5];
    }
  }

  /** Operations and batch id are free: the commitments come with the request and are not recomputed. */
  lemma GuardIgnoresOperations(expectedKey: string, u: SettlementUpdate, c: BatchCommitments, b: ProofBundle,
                               batchId: string, ds: seq<SettlementDeposit>, ws: seq<SettlementWithdrawal>)
    requires GuardAccepts(expectedKey, u, c, b)
    ensures GuardAccepts(expectedKey, u.(batchId := batchId, deposits := ds, withdrawals := ws), c, b)
  {
    GuardBindsExactly(expectedKey, u, c, u.(batchId := batchId, deposits := ds, withdrawals := ws), c, b);
  }

  /**
   * Next to an update submitted with its own commitments, a second separator-free update that the
   * same bundle passes for carries the same operations if and only if it came with its own
   * commitments too.
   */
  lemma GuardPinsOperationsExactly(expectedKey: string, u: SettlementUpdate, v: SettlementUpdate,
                                   d: BatchCommitments, b: ProofBundle)
    requires Separable(u) && Separable(v)
    requires GuardAccepts(expectedKey, u, CommitmentsFor(u), b) && GuardAccepts(expectedKey, v, d, b)
    ensures u.(batchId := v.batchId) == v <==> d == CommitmentsFor(v)
  {
    hide PublicInputs, Separable, Preimage;
    GuardBindsExactly(expectedKey, u, CommitmentsFor(u), v, d, b);
    if d == CommitmentsFor(v) { PublicInputsBind(u, v); }
  }

  /** If every submit carries the commitments of its own update, one bundle passes for one batch only. */
  lemma GuardBindsOneBatch(expectedKey: string, u: SettlementUpdate, v: SettlementUpdate, b: ProofBundle)
    requires Separable(u) && Separable(v)
    requires GuardAccepts(expectedKey, u, CommitmentsFor(u), b) && GuardAccepts(expectedKey, v, CommitmentsFor(v), b)
    ensures u.(batchId := v.batchId) == v
  {
    GuardPinsOperationsExactly(expectedKey, u, v, CommitmentsFor(v), b);
  }
}
