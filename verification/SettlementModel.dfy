/**
 * The settlement service on values: the state is the ledger, the log, the cursor and the batch
 * counter, and each service call is a function from state to state and result.
 */
module SettlementModel {
  import opened Wrappers
  import opened Text
  import opened Decimals
  import opened Hashing
  import opened Types
  import opened Ledgers
  import opened SettlementLogs
  import opened TransitionOrder
  import opened SettlementBuilders
  import opened Witnesses
  import opened Commitments

  datatype AccountSecret = AccountSecret(owner: string, userSecret: string)

  const DEFAULT_SECRET := "mock-user-secret"

  datatype BuildOutput = BuildOutput(update: SettlementUpdate, commitments: BatchCommitments, accounts: Witness)

  // ------------------------------------------------------- witness accounts of a batch

  /** indexAccountSecrets. */
  function IndexSecrets(secrets: seq<AccountSecret>): Result<map<string, string>> {
    if secrets == [] then Success(map[]) else
      var m :- IndexSecrets(secrets[..|secrets| - 1]);
      var s := secrets[|secrets| - 1];
      if Blank(s.owner) || Blank(s.userSecret) || Trim(s.owner) in m then Failure(InvalidPendingSettlement)
      else Success(m[Trim(s.owner) := Trim(s.userSecret)])
  }

  function SecretFor(index: map<string, string>, owner: string): string {
    if owner in index then index[owner] else DEFAULT_SECRET
  }

  datatype OwnerBalance = OwnerBalance(owner: string, denom: string, oldBalance: string, newBalance: string)

  /** The place of `owner` in the list, its length if absent. */
  function Position(g: seq<OwnerBalance>, owner: string): (n: nat)
    ensures n <= |g|
    ensures n < |g| ==> g[n].owner == owner
    ensures forall i :: 0 <= i < n ==> g[i].owner != owner
  {
    if g == [] || g[0].owner == owner then 0 else 1 + Position(g[1..], owner)
  }

  function Grouped(g: seq<OwnerBalance>, t: Row): Result<seq<OwnerBalance>> {
    var owner, denom := Trim(t.Owner()), Trim(t.Denom());
    var n := Position(g, owner);
    if owner == "" || denom == "" then Failure(InvalidPendingSettlement)
    else if n == |g| then Success(g + [OwnerBalance(owner, denom, t.balanceBefore, t.balanceAfter)])
    else if g[n].denom != denom then Failure(InvalidPendingSettlement)
    else Success(g[n := g[n].(newBalance := t.balanceAfter)])
  }

  /** Owners in order of first appearance, each with its first old and its last new balance. */
  function GroupByOwner(ts: seq<Row>): Result<seq<OwnerBalance>> {
    if ts == [] then Success([]) else
      var g :- GroupByOwner(ts[..|ts| - 1]);
      Grouped(g, ts[|ts| - 1])
  }

  function AccountsWithSecrets(g: seq<OwnerBalance>, index: map<string, string>): seq<AccountWitnessSecret> {
    seq(|g|, i requires 0 <= i < |g| =>
      AccountWitnessSecret(g[i].owner, SecretFor(index, g[i].owner), g[i].oldBalance, g[i].newBalance))
  }

  /** buildWitnessAccountsFromPendingTransitions. */
  function WitnessAccounts(ts: seq<Row>, secrets: seq<AccountSecret>): Result<seq<AccountWitnessSecret>> {
    var index :- IndexSecrets(secrets);
    var g :- GroupByOwner(ts);
    Success(AccountsWithSecrets(g, index))
  }

  // ----------------------------------------------------------- settlement input of a batch

  /** The listed rows that the bounded prefix selects by id. */
  function Chosen(rows: seq<Row>, bounded: seq<Row>): (out: seq<Row>)
    ensures forall r <- out :: r in rows
  {
    if rows == [] then [] else
      var r := rows[|rows| - 1];
      Chosen(rows[..|rows| - 1], bounded) + if exists t <- bounded :: SameKey(t, r) then [r] else []
  }

  function Records(rows: seq<Row>): seq<DepositRecord>
    requires forall r <- rows :: r.DepositRow?
  {
    seq(|rows|, i requires 0 <= i < |rows| => rows[i].record)
  }

  function Inputs(rows: seq<Row>): seq<WithdrawalInput>
    requires forall r <- rows :: r.WithdrawalRow?
  {
    seq(|rows|, i requires 0 <= i < |rows| =>
      WithdrawalInput(rows[i].request, rows[i].nullifier, rows[i].destinationHash))
  }

  function Ids(rows: seq<Row>): seq<string> {
    seq(|rows|, i requires 0 <= i < |rows| => rows[i].Id())
  }

  // ---------------------------------------------------------------------------- state

  datatype State = State(ledger: Ledger, rows: seq<Row>, cursor: Option<Cursor>, counter: nat)

  /** getOrInitCursorWithRoot, with the manager's root. */
  function CursorOf(s: State): Cursor {
    if s.cursor.Some? then s.cursor.value else Cursor(s.ledger.root, s.ledger.root, "")
  }

  function WithCursor(s: State): State { s.(cursor := Some(CursorOf(s))) }

  ghost function DepositRowFor(l: Ledger, d: DepositRecord, l': Ledger): Row {
    DepositRow(d, l.root, l'.root,
               Decimal(AccountAt(l.accounts, d.owner, d.denom).balance),
               Decimal(AccountAt(l'.accounts, d.owner, d.denom).balance), FRESH)
  }

  ghost function ApplyIndexedDeposit(s: State, d: DepositRecord): (State, Result<Row>) {
    match Apply(s.ledger, DepositOp(d))
    case Failure(e) => (WithCursor(s), Failure(e))
    case Success(l) =>
      var row := DepositRowFor(s.ledger, d, l);
      (State(l, Upserted(s.rows, row), Some(CursorOf(s).(pendingRoot := l.root)), s.counter), Success(row))
  }

  function EffectiveSecret(userSecret: string): string {
    if Blank(userSecret) then DEFAULT_SECRET else userSecret
  }

  ghost function WithdrawalRowFor(l: Ledger, w: WithdrawRequest, nullifier: string, hash: string, l': Ledger): Row {
    WithdrawalRow(w, nullifier, hash, l.root, l'.root,
                  Decimal(AccountAt(l.accounts, w.owner, w.denom).balance),
                  Decimal(AccountAt(l'.accounts, w.owner, w.denom).balance), FRESH)
  }

  ghost function ApplyWithdrawRequest(s: State, w: WithdrawRequest, userSecret: string): (State, Result<Row>) {
    match NullifierFor(EffectiveSecret(userSecret), w.nonce)
    case Failure(e) => (s, Failure(e))
    case Success(nullifier) =>
      match WithdrawAddressHash(w.destination)
      case Failure(e) => (s, Failure(e))
      case Success(hash) =>
        match Apply(s.ledger, WithdrawOp(w, nullifier))
        case Failure(e) => (WithCursor(s), Failure(e))
        case Success(l) =>
          var row := WithdrawalRowFor(s.ledger, w, nullifier, hash, l);
          (State(l, Upserted(s.rows, row), Some(CursorOf(s).(pendingRoot := l.root)), s.counter), Success(row))
  }

  /** What one build pass reads from the log: the rows of the batch and what goes into it. */
  datatype Plan = Plan(bounded: seq<Row>, deposits: seq<Row>, withdrawals: seq<Row>, input: SettlementInputs)

  ghost function PlanFor(committedRoot: string, deposits: seq<Row>, withdrawals: seq<Row>): Result<Plan>
    requires forall r <- deposits :: r.DepositRow?
    requires forall r <- withdrawals :: r.WithdrawalRow?
    requires deposits != [] || withdrawals != []
  {
    var ordered :- Ordered(committedRoot, deposits, withdrawals);
    OrderSound(committedRoot, deposits, withdrawals);
    var bounded := ordered[..BoundLength(ordered)];
    var ds, ws := Chosen(deposits, bounded), Chosen(withdrawals, bounded);
    Success(Plan(bounded, ds, ws,
                 SettlementInputs(committedRoot, bounded[|bounded| - 1].rootAfter, Records(ds), Inputs(ws))))
  }

  /** The part of BuildPendingBatch after the plan: settlement, witness, commitments, marking. */
  ghost function Emit(s: State, plan: Plan, secrets: seq<AccountSecret>): (State, Result<BuildOutput>) {
    if !Acceptable(plan.input) then (s, Failure(InvalidSettlementInputs)) else
      var numbered := s.(counter := s.counter + 1);
      match WitnessAccounts(plan.bounded, secrets)
      case Failure(e) => (numbered, Failure(e))
      case Success(accounts) =>
        if !WitnessAcceptable(plan.input, accounts) then (numbered, Failure(InvalidWitnessInputs)) else
          var update := UpdateFor(plan.input, numbered.counter);
          (numbered.(rows := WithIncluded(s.rows, update.batchId, Ids(plan.deposits), Ids(plan.withdrawals))),
           Success(BuildOutput(update, CommitmentsFor(update), WitnessFor(plan.input, accounts))))
  }

  ghost function BuildPendingBatch(s: State, secrets: seq<AccountSecret>): (State, Result<BuildOutput>) {
    var ds, ws := Select(s.rows, IsPendingDeposit), Select(s.rows, IsPendingWithdrawal);
    if ds == [] && ws == [] then (WithCursor(s), Failure(NoPendingSettlementOperations)) else
      match PlanFor(CursorOf(s).committedRoot, ds, ws)
      case Failure(e) => (WithCursor(s), Failure(e))
      case Success(plan) => Emit(WithCursor(s), plan, secrets)
  }

  function MarkIncluded(s: State, batchId: string, depositIds: seq<string>, withdrawIds: seq<string>)
    : (State, Result<()>)
  {
    if AllFound(s.rows, depositIds, withdrawIds) then
      (s.(rows := WithIncluded(s.rows, batchId, depositIds, withdrawIds)), Success(()))
    else
      (s, Failure(RecordNotFound))
  }

  function CommitBatch(s: State, batchId: string, txHash: string, newRoot: string): State {
    s.(rows := WithStatus(s.rows, batchId, Committed, txHash, ""), cursor := Some(Cursor(newRoot, newRoot, batchId)))
  }

  function FailBatch(s: State, batchId: string, reason: string): State {
    s.(rows := WithStatus(s.rows, batchId, Failed, "", reason))
  }

  function CancelIncludedBatch(s: State, batchId: string, reason: string): (State, Result<()>) {
    (s.(rows := WithReopened(s.rows, batchId, reason)),
     if exists r <- s.rows :: IsIncludedIn(r, batchId) then Success(()) else Failure(RecordNotFound))
  }

  /** What RehydrateFromStore replays: the pending deposits, then the pending withdrawals. */
  function ReplayOps(rows: seq<Row>): seq<Operation> {
    OpsIn(Select(rows, IsPendingDeposit)) + OpsIn(Select(rows, IsPendingWithdrawal))
  }

  function OpsIn(rows: seq<Row>): seq<Operation> {
    seq(|rows|, i requires 0 <= i < |rows| => rows[i].Op())
  }

  lemma ChosenFound(rows: seq<Row>, deposits: seq<Row>, withdrawals: seq<Row>)
    requires forall r <- deposits :: r in rows && r.DepositRow?
    requires forall r <- withdrawals :: r in rows && r.WithdrawalRow?
    ensures AllFound(rows, Ids(deposits), Ids(withdrawals))
  {
    forall id | id in Ids(deposits) ensures exists r <- rows :: r.DepositRow? && r.Id() == id {
      var i :| 0 <= i < |deposits| && Ids(deposits)[i] == id;
      assert deposits[i] in deposits;
    }
    forall id | id in Ids(withdrawals) ensures exists r <- rows :: r.WithdrawalRow? && r.Id() == id {
      var i :| 0 <= i < |withdrawals| && Ids(withdrawals)[i] == id;
      assert withdrawals[i] in withdrawals;
    }
  }
}
