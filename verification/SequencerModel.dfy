/** One settlement pass on values, what each way of ending leaves behind, and the stall it can cause. */
module SequencerModel {
  import opened Wrappers
  import opened Text
  import opened Hashing
  import opened LedgerLaws
  import opened SettlementLogs
  import opened TransitionOrder
  import opened SettlementBuilders
  import opened Witnesses
  import opened Commitments
  import opened SettlementModel
  import opened ChainInvariant
  import opened PendingBatches
  import opened SettlementRuns
  import opened Draining
  import opened DrainPlan
  import opened BatchServices

  /** What the prover, the verifier and the chain answer during one pass. */
  datatype PassOracle = PassOracle(prove: BuildOutput -> Option<ProofBundle>, verified: bool, answer: RelayAnswer)

  /** How a pass ends once a batch was built. */
  datatype PassEnd = ProverFailed | SubmitEnded(verdict: Verdict)

  function EndOf(output: BuildOutput, verifying: bool, expectedKey: string, oracle: PassOracle): PassEnd {
    match oracle.prove(output)
    case None => ProverFailed
    case Some(b) =>
      var guarded := GuardAccepts(expectedKey, output.update, output.commitments, b);
      SubmitEnded(VerdictOf(verifying, guarded, oracle.verified, oracle.answer))
  }

  /** SettleOnce after the build: submit, and reopen unless accepted. */
  function Concluded(s: State, u: SettlementUpdate, end: PassEnd): (State, Result<bool>) {
    match end
    case ProverFailed => (CancelIncludedBatch(s, u.batchId, "prove failed").0, Failure(ProveFailed))
    case SubmitEnded(Accepted(txHash)) => (Submitted(s, u, end.verdict), Success(true))
    case SubmitEnded(TurnedDown(_)) =>
      (CancelIncludedBatch(Submitted(s, u, end.verdict), u.batchId, "submit not accepted").0, Failure(BatchNotAccepted))
    case SubmitEnded(BadProof) =>
      (CancelIncludedBatch(s, u.batchId, "submit failed").0, Failure(ProofVerificationFailed))
    case SubmitEnded(NoAnswer) => (CancelIncludedBatch(s, u.batchId, "submit failed").0, Failure(RelayerFailed))
  }

  ghost function SettleOnce(s: State, verifying: bool, expectedKey: string, oracle: PassOracle): (State, Result<bool>) {
    var (s1, r) := BuildPendingBatch(s, []);
    match r
    case Failure(e) => (s1, if e == NoPendingSettlementOperations then Success(false) else Failure(e))
    case Success(output) => Concluded(s1, output.update, EndOf(output, verifying, expectedKey, oracle))
  }

  /** How a pass ends, from what prover, guard, verifier and chain said. */
  lemma EndMeans(output: BuildOutput, verifying: bool, expectedKey: string, oracle: PassOracle)
    ensures var end, proof := EndOf(output, verifying, expectedKey, oracle), oracle.prove(output);
            && (end == ProverFailed <==> proof.None?)
            && (proof.Some? ==>
                  var stands := verifying ==>
                    GuardAccepts(expectedKey, output.update, output.commitments, proof.value) && oracle.verified;
                  && (end == SubmitEnded(BadProof) <==> !stands)
                  && (end == SubmitEnded(NoAnswer) <==> stands && oracle.answer.Unreachable?)
                  && (stands && oracle.answer.Answered? ==>
                        end == SubmitEnded(if oracle.answer.accepted then Accepted(oracle.answer.txHash)
                                           else TurnedDown(oracle.answer.proofStatus))))
  {
    hide GuardAccepts;
  }

  /** What a pass reports: success exactly for an accepted batch, and otherwise which stage failed. */
  lemma ConcludedMeans(s: State, u: SettlementUpdate, end: PassEnd)
    ensures var r := Concluded(s, u, end).1;
            && (r == Success(true) <==> end.SubmitEnded? && end.verdict.Accepted?)
            && (r == Failure(ProveFailed) <==> end.ProverFailed?)
            && (r == Failure(ProofVerificationFailed) <==> end == SubmitEnded(BadProof))
            && (r == Failure(RelayerFailed) <==> end == SubmitEnded(NoAnswer))
            && (r == Failure(BatchNotAccepted) <==> end.SubmitEnded? && end.verdict.TurnedDown?)
  {
    hide CommitBatch, CancelIncludedBatch, FailBatch;
  }

  /** The reason that a failed pass leaves on a row it reopened. */
  lemma ReopenReason(s: State, u: SettlementUpdate, end: PassEnd, i: nat)
    requires i < |s.rows| && IsIncludedIn(s.rows[i], u.batchId)
    ensures var rows := Concluded(s, u, end).0.rows;
            && |rows| == |s.rows|
            && (end.ProverFailed? ==> rows[i].mark == Mark(Pending, None, None, Some("prove failed")))
            && (end == SubmitEnded(BadProof) || end == SubmitEnded(NoAnswer) ==>
                  rows[i].mark == Mark(Pending, None, None, Some("submit failed")))
  {
  }

  // ----------------------------------------------------- what a failed pass leaves behind

  lemma TurnedDownRows(rows: seq<Row>, batchId: string, reason: string)
    ensures forall r <- WithStatus(rows, batchId, Failed, "", reason) :: !IsIncludedIn(r, batchId)
  {
    var rows' := WithStatus(rows, batchId, Failed, "", reason);
    forall r | r in rows' ensures !IsIncludedIn(r, batchId) {
      var i :| 0 <= i < |rows'| && rows'[i] == r;
    }
  }

  /** Reopening a batch the service has already failed finds nothing included. */
  lemma ReopenAfterFailFindsNothing(s: State, batchId: string, reason: string, why: string)
    ensures var failed := FailBatch(s, batchId, reason);
            CancelIncludedBatch(failed, batchId, why) == (failed, Failure(RecordNotFound))
  {
    TurnedDownRows(s.rows, batchId, reason);
    var rows' := FailBatch(s, batchId, reason).rows;
    forall i | 0 <= i < |rows'| ensures !IsIncludedIn(rows'[i], batchId) { assert rows'[i] in rows'; }
    assert WithReopened(rows', batchId, why) == rows';
  }

  /** What a build that succeeded has set aside. */
  lemma BuiltStretch(g: string, s: State, p: nat)
    requires GenesisApart(g) && Inv(g, s, p, p) && BuildPendingBatch(s, []).1.Success?
    ensures p < p + |NextBatch(s.rows, p)| <= |s.rows|
    ensures var (s1, built) := BuildPendingBatch(s, []);
            && Inv(g, s1, p, p + |NextBatch(s.rows, p)|) && s1.ledger == s.ledger && s1.counter == s.counter + 1
            && built.value.update.batchId == BatchId(s1.counter)
  {
    hide *;
    InvFrontier(g, s, p, p);
    BuildEmitsNextBatch(g, s, p, p, []);
    BuildKeeps(g, s, p, p, []);
    SplitAtNextBatch(s.rows, p);
    EmitsNumber(s, NextBatch(s.rows, p), BuildPendingBatch(s, []));
  }

  /** The pass that ends with a batch turned down leaves that batch between the frontiers as failed. */
  lemma TurnedDownHalts(g: string, s: State, p: nat, end: PassEnd)
    requires GenesisApart(g) && Inv(g, s, p, p) && BuildPendingBatch(s, []).1.Success?
    requires end.SubmitEnded? && end.verdict.TurnedDown?
    ensures p < p + |NextBatch(s.rows, p)| <= |s.rows|
    ensures var (s1, built) := BuildPendingBatch(s, []);
            Halted(g, Concluded(s1, built.value.update, end).0, p, p + |NextBatch(s.rows, p)|)
  {
    hide Chained, GenesisApart, BuildPendingBatch, NextBatch, BatchId, CancelIncludedBatch, FailBatch, CommitBatch;
    var (s1, built) := BuildPendingBatch(s, []);
    BuiltStretch(g, s, p);
    FailHalts(g, s1, p, p + |NextBatch(s.rows, p)|, Included, end.verdict.proofStatus);
    ReopenAfterFailFindsNothing(s1, built.value.update.batchId, end.verdict.proofStatus, "submit not accepted");
  }

  /**
   * A pass that built a batch and then failed restores every row's status, batch id and order
   * exactly when the chain did not turn the batch down: prover, guard, verifier and relayer
   * failures are undone, a rejected batch is not.
   */
  lemma FailedPassRestoresExactly(g: string, s: State, p: nat, end: PassEnd)
    requires GenesisApart(g) && Inv(g, s, p, p) && BuildPendingBatch(s, []).1.Success?
    requires !(end.SubmitEnded? && end.verdict.Accepted?)
    ensures var (s1, built) := BuildPendingBatch(s, []);
            RestoredRows(s.rows, Concluded(s1, built.value.update, end).0.rows) <==>
            !(end.SubmitEnded? && end.verdict.TurnedDown?)
  {
    hide Chained, GenesisApart, BuildPendingBatch, CancelIncludedBatch, RestoredRows, BatchId, FailBatch,
         CommitBatch, NextBatch, Consecutive;
    var (s1, built) := BuildPendingBatch(s, []);
    if end.SubmitEnded? && end.verdict.TurnedDown? {
      TurnedDownHalts(g, s, p, end);
      var s2 := Concluded(s1, built.value.update, end).0;
      ChainShape(g, s2, p, p + |NextBatch(s.rows, p)|, Failed);
      ChainShape(g, s, p, p, Included);
      if RestoredRows(s.rows, s2.rows) { SameStatuses(s.rows, s2.rows, p); }
    } else {
      ReopenUndoesBuild(g, s, p, p, [], "prove failed");
      ReopenUndoesBuild(g, s, p, p, [], "submit failed");
    }
  }

  lemma SameStatuses(a: seq<Row>, b: seq<Row>, i: nat)
    requires RestoredRows(a, b) && i < |a|
    ensures |a| == |b| && a[i].mark.status == b[i].mark.status
  {
    assert b[i].mark == a[i].mark.(errorMessage := b[i].mark.errorMessage);
  }

  // ------------------------------------------------------------------ one pass of a drain

  lemma {:induction false} WalkErrors(m: map<string, Row>, root: string, n: nat)
    ensures Walk(m, root, n).Failure? ==> Walk(m, root, n) == Failure(InvalidPendingSettlement)
    decreases n
  {
    if n > 0 && root in m { WalkErrors(m, m[root].rootAfter, n - 1); }
  }

  lemma {:induction false} GroupErrors(ts: seq<Row>)
    ensures GroupByOwner(ts).Failure? ==> GroupByOwner(ts) == Failure(InvalidPendingSettlement)
  {
    hide Trim;
    if ts != [] { GroupErrors(ts[..|ts| - 1]); }
  }

  /** The ways a build can fail; an empty queue is reported only when nothing is listed. */
  lemma BuildErrors(s: State)
    ensures BuildPendingBatch(s, []).1.Failure? ==>
              var e := BuildPendingBatch(s, []).1.error;
              || e == InvalidPendingSettlement || e == InvalidSettlementInputs || e == InvalidWitnessInputs
              || (e == NoPendingSettlementOperations &&
                  Select(s.rows, IsPendingDeposit) == [] && Select(s.rows, IsPendingWithdrawal) == [])
  {
    hide Select, Acceptable, WitnessAcceptable, UpdateFor, CommitmentsFor, WitnessFor, WithIncluded, BoundLength,
         GroupByOwner, Walk, IndexAll;
    var ds, ws := Select(s.rows, IsPendingDeposit), Select(s.rows, IsPendingWithdrawal);
    if ds != [] || ws != [] {
      var root := CursorOf(s).committedRoot;
      IndexAllExactly(ds + ws);
      if IndexAll(ds + ws).Success? { WalkErrors(IndexAll(ds + ws).value, root, |IndexAll(ds + ws).value|); }
      if PlanFor(root, ds, ws).Success? { GroupErrors(PlanFor(root, ds, ws).value.bounded); }
    }
  }

  /** A build reports an empty queue only when nothing is pending. */
  lemma IdleMeansNothingPending(s: State, p: nat)
    requires PendingFrom(s.rows, p) && BuildPendingBatch(s, []).1 == Failure(NoPendingSettlementOperations)
    ensures p == |s.rows|
  {
    hide Select, BuildPendingBatch;
    BuildErrors(s);
    if p < |s.rows| { ListedWhenPending(s.rows, p); }
  }

  /** Committing the batch built at `p` leaves the rest of the log to be cut as before. */
  lemma SettledPass(g: string, s: State, p: nat, txHash: string)
    requires GenesisApart(g) && Inv(g, s, p, p) && BuildPendingBatch(s, []).1.Success?
    ensures var (s1, built) := BuildPendingBatch(s, []);
            var u := built.value.update;
            var s2 := CommitBatch(s1, u.batchId, txHash, u.newStateRoot);
            && p < |s.rows|
            && var q := p + |NextBatch(s.rows, p)|;
               && p < q <= |s.rows| && Inv(g, s2, q, q) && Remarked(s.rows, s2.rows) && s2.counter == s.counter + 1
               && BatchesOf(s.rows, p, s.counter) == [u] + BatchesOf(s2.rows, q, s2.counter)
  {
    hide Chained, GenesisApart, BuildPendingBatch, NextBatch, InputOf, UpdateFor, BatchId, Remarked, CommitBatch;
    CommittedPass(g, s, p, [], txHash);
    SplitAtNextBatch(s.rows, p);
    var (s1, built) := BuildPendingBatch(s, []);
    var s2 := CommitBatch(s1, built.value.update.batchId, txHash, built.value.update.newStateRoot);
    var q := p + |NextBatch(s.rows, p)|;
    RemarkedBatches(s.rows, s2.rows, q, s2.counter);
  }

  lemma ConcludedAccepted(s: State, u: SettlementUpdate, end: PassEnd)
    ensures Concluded(s, u, end).1 != Success(false)
    ensures Concluded(s, u, end).1 == Success(true) ==>
              && end.SubmitEnded? && end.verdict.Accepted?
              && Concluded(s, u, end).0 == CommitBatch(s, u.batchId, end.verdict.txHash, u.newStateRoot)
  {
    hide CommitBatch, CancelIncludedBatch, FailBatch;
  }

  lemma IdlePass(g: string, s: State, p: nat)
    requires GenesisApart(g) && Inv(g, s, p, p) && BuildPendingBatch(s, []).1 == Failure(NoPendingSettlementOperations)
    ensures var s' := BuildPendingBatch(s, []).0;
            p == |s.rows| && s'.rows == s.rows && s'.counter == s.counter && Inv(g, s', p, p)
  {
    hide *;
    InvParts(g, s, p, p);
    IdleMeansNothingPending(s, p);
    BuildEmitsNextBatch(g, s, p, p, []);
    BuildKeeps(g, s, p, p, []);
  }

  /** What a pass does to a drain: it settles the next batch of the log, or it stops. */
  lemma PassProgress(g: string, s: State, p: nat, verifying: bool, expectedKey: string, oracle: PassOracle)
    requires GenesisApart(g) && Inv(g, s, p, p)
    ensures var (s', r) := SettleOnce(s, verifying, expectedKey, oracle);
            && s'.ledger == s.ledger
            && (r == Success(false) ==>
                  p == |s.rows| && s'.rows == s.rows && s'.counter == s.counter && Inv(g, s', p, p))
            && (r == Success(true) ==>
                  p < |s.rows| && BuildPendingBatch(s, []).1.Success? &&
                  var u, q := BuildPendingBatch(s, []).1.value.update, p + |NextBatch(s.rows, p)|;
                  && p < q <= |s.rows| && Inv(g, s', q, q) && Remarked(s.rows, s'.rows) && s'.counter == s.counter + 1
                  && BatchesOf(s.rows, p, s.counter) == [u] + BatchesOf(s'.rows, q, s'.counter))
  {
    hide Chained, GenesisApart, BuildPendingBatch, NextBatch, EndOf, Remarked, Concluded, CommitBatch, BatchesOf;
    LedgerKept(s, verifying, expectedKey, oracle);
    var (s1, built) := BuildPendingBatch(s, []);
    if built.Failure? {
      if built.error == NoPendingSettlementOperations { IdlePass(g, s, p); }
    } else {
      var end := EndOf(built.value, verifying, expectedKey, oracle);
      ConcludedAccepted(s1, built.value.update, end);
      if Concluded(s1, built.value.update, end).1 == Success(true) { SettledPass(g, s, p, end.verdict.txHash); }
    }
  }

  /** A drain from `first`, frontier `p`, has settled `settled` and now stands at `s`, frontier `q`. */
  ghost predicate Drained(g: string, first: State, p: nat, s: State, q: nat, settled: seq<SettlementUpdate>) {
    && s.ledger == first.ledger && p <= q <= |first.rows| && |first.rows| == |s.rows|
    && Inv(g, s, q, q) && Remarked(first.rows, s.rows)
    && settled + BatchesOf(s.rows, q, s.counter) == BatchesOf(first.rows, p, first.counter)
  }

  /** What a finished drain has done. */
  ghost predicate Emptied(g: string, first: State, p: nat, s: State, settled: seq<SettlementUpdate>) {
    && p <= |first.rows| && settled == BatchesOf(first.rows, p, first.counter)
    && Remarked(first.rows, s.rows) && Inv(g, s, |s.rows|, |s.rows|)
  }

  lemma DrainStarts(g: string, s: State, p: nat)
    requires Inv(g, s, p, p)
    ensures Drained(g, s, p, s, p, [])
  {
    hide Chained;
    InvParts(g, s, p, p);
  }

  lemma DrainedPrefix(g: string, first: State, p: nat, s: State, q: nat, settled: seq<SettlementUpdate>)
    requires Drained(g, first, p, s, q, settled)
    ensures settled <= BatchesOf(first.rows, p, first.counter)
  {
    hide Chained, Remarked, BatchesOf;
  }

  lemma DrainStep(g: string, first: State, p: nat, s: State, q: nat, settled: seq<SettlementUpdate>,
                  verifying: bool, expectedKey: string, oracle: PassOracle)
    requires GenesisApart(g) && Drained(g, first, p, s, q, settled)
    ensures var (s', r) := SettleOnce(s, verifying, expectedKey, oracle);
            && s'.ledger == first.ledger
            && (r == Success(false) ==> Emptied(g, first, p, s', settled))
            && (r == Success(true) ==>
                  BuildPendingBatch(s, []).1.Success? && q < |s.rows| &&
                  var u, q' := BuildPendingBatch(s, []).1.value.update, q + |NextBatch(s.rows, q)|;
                  q < q' <= |first.rows| && Drained(g, first, p, s', q', settled + [u]))
  {
    hide Chained, GenesisApart, BuildPendingBatch, NextBatch, EndOf, Remarked, SettleOnce, BatchesOf;
    PassProgress(g, s, q, verifying, expectedKey, oracle);
    var (s', r) := SettleOnce(s, verifying, expectedKey, oracle);
    if r == Success(false) {
      NoBatchesLeft(s.rows, s.counter);
    } else if r == Success(true) {
      var u, q' := BuildPendingBatch(s, []).1.value.update, q + |NextBatch(s.rows, q)|;
      RemarkedTransitive(first.rows, s.rows, s'.rows);
      RemarkedLength(first.rows, s'.rows);
      var rest := BatchesOf(s'.rows, q', s'.counter);
      assert (settled + [u]) + rest == settled + ([u] + rest);
    }
  }

  lemma NoBatchesLeft(rows: seq<Row>, n: nat)
    ensures BatchesOf(rows, |rows|, n) == []
  {
  }

  lemma LedgerKept(s: State, verifying: bool, expectedKey: string, oracle: PassOracle)
    ensures SettleOnce(s, verifying, expectedKey, oracle).0.ledger == s.ledger
  {
    hide Select, PlanFor, Acceptable, WitnessAccounts, WitnessAcceptable, UpdateFor, CommitmentsFor, WitnessFor,
         EndOf, WithIncluded, WithStatus, WithReopened;
  }

  /** A prover that proves every well-formed batch under the pinned key, and a verifier that agrees. */
  ghost predicate HonestProver(expectedKey: string, oracle: PassOracle) {
    && oracle.verified
    && forall output: BuildOutput :: PublicInputs(output.update, output.commitments).Success? ==>
         oracle.prove(output).Some? &&
           GuardAccepts(expectedKey, output.update, output.commitments, oracle.prove(output).value)
  }

  /** An honest prover, and a chain that answers and accepts. */
  ghost predicate Honest(expectedKey: string, oracle: PassOracle) {
    HonestProver(expectedKey, oracle) && oracle.answer.Answered? && oracle.answer.accepted
  }

  ghost predicate AlwaysHonest(expectedKey: string, oracles: nat -> PassOracle) {
    forall i: nat :: Honest(expectedKey, oracles(i))
  }

  /** An honest prover exists for every key the service can be configured with, whatever the chain answers. */
  lemma HonestProverExists(expectedKey: string, answer: RelayAnswer) returns (oracle: PassOracle)
    requires Trimmed(expectedKey)
    ensures HonestProver(expectedKey, oracle) && oracle.answer == answer
  {
    hide PublicInputs, Trimmed;
    var prove := (output: BuildOutput) =>
      var inputs := PublicInputs(output.update, output.commitments);
      if inputs.Success? then Some(ProofBundle("", inputs.value, expectedKey)) else None;
    oracle := PassOracle(prove, true, answer);
  }

  /** What a build emits has public inputs: hex roots that differ, and four digests. */
  lemma EmittedPublicInputs(s: State, batch: seq<Row>, built: (State, Result<BuildOutput>))
    requires EmitsRows(s, batch, built)
    ensures PublicInputs(built.1.value.update, built.1.value.commitments).Success?
  {
    hide ValidHex, Preimage, Table, DepositFits, WithdrawalFits, Select, BatchId, DepositEntry, WithdrawalEntry,
         Trim, WithIncluded, Ids, Records, Inputs;
    forall preimage: string ensures ValidHex(Sha256Hex(preimage)) { Settleability.DigestIsHex(preimage); }
  }

  lemma HonestPassAnswered(expectedKey: string, oracle: PassOracle, output: BuildOutput, verifying: bool)
    requires HonestProver(expectedKey, oracle) && PublicInputs(output.update, output.commitments).Success?
    ensures EndOf(output, verifying, expectedKey, oracle) == SubmitEnded(VerdictOf(false, true, true, oracle.answer))
  {
    hide PublicInputs, GuardAccepts;
  }

  /** With ordinary rows and an honest prover the chain's answer alone decides a pass that has work. */
  lemma OrdinaryPassEnds(g: string, s: State, p: nat, denom: string, verifying: bool, expectedKey: string,
                         oracle: PassOracle)
    requires GenesisApart(g) && ValidHex(g) && Inv(g, s, p, p) && OrdinaryFrom(s.rows, p, denom) && p < |s.rows|
    requires HonestProver(expectedKey, oracle)
    ensures BuildPendingBatch(s, []).1.Success?
    ensures var (s1, built) := BuildPendingBatch(s, []);
            SettleOnce(s, verifying, expectedKey, oracle) ==
            Concluded(s1, built.value.update, SubmitEnded(VerdictOf(false, true, true, oracle.answer)))
  {
    hide Chained, GenesisApart, ValidHex, BuildPendingBatch, EndOf, Concluded, OrdinaryRow, EmitsRows, PublicInputs,
         NextBatch, HonestProver;
    BuildEmitsNextBatch(g, s, p, p, []);
    OrdinaryBuilds(g, s, p, denom);
    EmittedPublicInputs(s, NextBatch(s.rows, p), BuildPendingBatch(s, []));
    HonestPassAnswered(expectedKey, oracle, BuildPendingBatch(s, []).1.value, verifying);
  }

  /** Ordinary rows under honest oracles: a pass settles, or nothing is pending. */
  lemma OrdinaryPassSucceeds(g: string, s: State, p: nat, denom: string, verifying: bool, expectedKey: string,
                             oracle: PassOracle)
    requires GenesisApart(g) && ValidHex(g) && Inv(g, s, p, p) && OrdinaryFrom(s.rows, p, denom)
    requires Honest(expectedKey, oracle)
    ensures SettleOnce(s, verifying, expectedKey, oracle).1.Success?
  {
    hide Chained, GenesisApart, ValidHex, BuildPendingBatch, EndOf, OrdinaryRow, CommitBatch, EmitsRows, NextBatch,
         HonestProver;
    if p < |s.rows| {
      OrdinaryPassEnds(g, s, p, denom, verifying, expectedKey, oracle);
    } else {
      BuildEmitsNextBatch(g, s, p, p, []);
    }
  }

  /** The pending rows can all be settled: ordinary rows, honest oracles, a well-formed first root. */
  ghost predicate Smooth(g: string, first: State, p: nat, denom: string, expectedKey: string,
                         oracles: nat -> PassOracle) {
    ValidHex(g) && OrdinaryFrom(first.rows, p, denom) && AlwaysHonest(expectedKey, oracles)
  }
}
