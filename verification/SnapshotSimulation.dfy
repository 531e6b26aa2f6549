/** The snapshot builder against the manager: its simulation is the run, its witness is true. */
module SnapshotSimulation {
  import opened Wrappers
  import opened Text
  import opened Decimals
  import opened Hashing
  import opened Types
  import opened StateRoot
  import opened Ledgers
  import opened LedgerLaws
  import opened SettlementBuilders
  import opened Witnesses
  import opened Commitments
  import opened SettlementModel
  import opened Settleability
  import opened SnapshotBuilders

  // ------------------------------------------------------ the operations of a batch input

  function DepositOps(ds: seq<DepositRecord>): seq<Operation> {
    seq(|ds|, i requires 0 <= i < |ds| => DepositOp(ds[i]))
  }

  function InputOps(ws: seq<WithdrawalInput>): seq<Operation> {
    seq(|ws|, i requires 0 <= i < |ws| => WithdrawOp(ws[i].request, ws[i].nullifier))
  }

  predicate Derivable(index: map<string, string>, reqs: seq<WithdrawRequest>) {
    forall i :: 0 <= i < |reqs| ==> Derive(index, reqs[i]).Success?
  }

  function DerivedInputs(index: map<string, string>, reqs: seq<WithdrawRequest>): seq<WithdrawalInput>
    requires Derivable(index, reqs)
  {
    seq(|reqs|, i requires 0 <= i < |reqs| => Derive(index, reqs[i]).value)
  }

  lemma RunCons(l: Ledger, op: Operation, ops: seq<Operation>)
    ensures Run(l, [op] + ops) == Run(Step(l, op), ops)
    ensures Skips(l, [op] + ops) == (if Apply(l, op).Success? then 0 else 1) + Skips(Step(l, op), ops)
  {
    hide Run, Skips, Step, Apply;
    RunConcat(l, [op], ops);
    SkipsConcat(l, [op], ops);
    RunNothing(l);
    RunOne(l, [], op);
    SkipsOne(l, [], op);
    SkipsNothing(l);
    assert [] + [op] == [op];
  }

  lemma SkipsNothing(l: Ledger)
    ensures Skips(l, []) == 0
  {
  }

  lemma {:induction false} SimulatedDeposits(l: Ledger, ds: seq<DepositRecord>)
    ensures SimulateDeposits(l, ds).Success? <==> Skips(l, DepositOps(ds)) == 0
    ensures SimulateDeposits(l, ds).Success? ==> SimulateDeposits(l, ds).value == Run(l, DepositOps(ds))
    decreases |ds|
  {
    hide Apply, Run, Skips;
    if ds == [] {
      RunNothing(l);
      SkipsNothing(l);
      assert DepositOps(ds) == [];
    } else {
      assert DepositOps(ds) == [DepositOp(ds[0])] + DepositOps(ds[1..]);
      RunCons(l, DepositOp(ds[0]), DepositOps(ds[1..]));
      SimulatedDeposits(Step(l, DepositOp(ds[0])), ds[1..]);
    }
  }

  lemma {:induction false} SimulatedRequests(l: Ledger, index: map<string, string>, reqs: seq<WithdrawRequest>,
                                             done: seq<WithdrawalInput>)
    ensures SimulateRequests(l, index, reqs, done).Success? <==>
            Derivable(index, reqs) && Skips(l, InputOps(DerivedInputs(index, reqs))) == 0
    ensures SimulateRequests(l, index, reqs, done).Success? ==>
              SimulateRequests(l, index, reqs, done).value ==
              (Run(l, InputOps(DerivedInputs(index, reqs))), done + DerivedInputs(index, reqs))
    decreases |reqs|
  {
    hide Apply, Run, Skips, Derive;
    if reqs == [] {
      RunNothing(l);
      SkipsNothing(l);
      assert InputOps(DerivedInputs(index, reqs)) == [] && done + [] == done;
    } else {
      var rest := reqs[1..];
      assert Derivable(index, reqs) <==> Derive(index, reqs[0]).Success? && Derivable(index, rest) by {
        assert forall i :: 1 <= i < |reqs| ==> reqs[i] == rest[i - 1];
        assert forall i :: 0 <= i < |rest| ==> rest[i] == reqs[i + 1];
      }
      if Derive(index, reqs[0]).Success? {
        var w := Derive(index, reqs[0]).value;
        var op := WithdrawOp(w.request, w.nullifier);
        SimulatedRequests(Step(l, op), index, rest, done + [w]);
        if Derivable(index, rest) {
          assert DerivedInputs(index, reqs) == [w] + DerivedInputs(index, rest);
          assert InputOps([w] + DerivedInputs(index, rest)) == [op] + InputOps(DerivedInputs(index, rest));
          RunCons(l, op, InputOps(DerivedInputs(index, rest)));
          assert done + [w] + DerivedInputs(index, rest) == done + ([w] + DerivedInputs(index, rest));
        }
      }
    }
  }

  /**
   * The simulation refines the manager: it goes through exactly when the manager would skip none of
   * the deposits and derived withdrawals, and then ends in the ledger the manager would reach.
   */
  lemma SimulationIsTheRun(l: Ledger, index: map<string, string>, input: BuildInput)
    ensures Simulate(l, index, input).Success? <==>
            Derivable(index, input.requests) &&
            Skips(l, DepositOps(input.deposits) + InputOps(DerivedInputs(index, input.requests))) == 0
    ensures Simulate(l, index, input).Success? ==>
              var ws := DerivedInputs(index, input.requests);
              Simulate(l, index, input).value == (Run(l, DepositOps(input.deposits) + InputOps(ws)), ws)
  {
    hide Run, Skips, SimulateDeposits, SimulateRequests, DepositOps, InputOps, Derivable, DerivedInputs;
    SimulatedDeposits(l, input.deposits);
    var m := Run(l, DepositOps(input.deposits));
    SimulatedRequests(m, index, input.requests, []);
    if Derivable(index, input.requests) {
      var ws := DerivedInputs(index, input.requests);
      RunConcat(l, DepositOps(input.deposits), InputOps(ws));
      SkipsConcat(l, DepositOps(input.deposits), InputOps(ws));
      assert [] + ws == ws;
    }
  }

  // ----------------------------------------------------------------- what accounts moved

  /** All amounts deposited to `owner` under any spelling, and the part under other spellings. */
  function TotalIn(ds: seq<DepositRecord>, owner: string): nat {
    if ds == [] then 0 else
      var d := ds[|ds| - 1];
      TotalIn(ds[..|ds| - 1], owner) + if Trim(d.owner) == owner then Value(d.amount) else 0
  }

  function StrayIn(ds: seq<DepositRecord>, owner: string): nat {
    if ds == [] then 0 else
      var d := ds[|ds| - 1];
      StrayIn(ds[..|ds| - 1], owner) + if Trim(d.owner) == owner && d.owner != owner then Value(d.amount) else 0
  }

  function TotalOut(ws: seq<WithdrawalInput>, owner: string): nat {
    if ws == [] then 0 else
      var w := ws[|ws| - 1].request;
      TotalOut(ws[..|ws| - 1], owner) + if Trim(w.owner) == owner then Value(w.amount) else 0
  }

  function StrayOut(ws: seq<WithdrawalInput>, owner: string): nat {
    if ws == [] then 0 else
      var w := ws[|ws| - 1].request;
      StrayOut(ws[..|ws| - 1], owner) + if Trim(w.owner) == owner && w.owner != owner then Value(w.amount) else 0
  }

  lemma {:induction false} TotalInSplits(ds: seq<DepositRecord>, owner: string)
    requires Trim(owner) == owner
    ensures TotalIn(ds, owner) == DepositSum(ds, owner) + StrayIn(ds, owner)
  {
    hide Trim, Value;
    if ds != [] { TotalInSplits(ds[..|ds| - 1], owner); }
  }

  lemma {:induction false} TotalOutSplits(ws: seq<WithdrawalInput>, owner: string)
    requires Trim(owner) == owner
    ensures TotalOut(ws, owner) == WithdrawalSum(ws, owner) + StrayOut(ws, owner)
  {
    hide Trim, Value;
    if ws != [] { TotalOutSplits(ws[..|ws| - 1], owner); }
  }

  lemma DepositMoves(l: Ledger, d: DepositRecord, k: Key)
    requires Apply(l, DepositOp(d)).Success? && Trim(d.denom) == k.denom
    ensures Balance(Apply(l, DepositOp(d)).value.accounts, k) ==
            Balance(l.accounts, k) + if Trim(d.owner) == k.owner then Value(d.amount) else 0
  {
    hide Trim, ParseNonNegative, RootOf;
  }

  lemma WithdrawalMoves(l: Ledger, w: WithdrawRequest, nullifier: string, k: Key)
    requires Apply(l, WithdrawOp(w, nullifier)).Success? && Trim(w.denom) == k.denom
    ensures Balance(Apply(l, WithdrawOp(w, nullifier)).value.accounts, k) +
            (if Trim(w.owner) == k.owner then Value(w.amount) else 0) == Balance(l.accounts, k)
  {
    ApplyExactly(l, WithdrawOp(w, nullifier));
    hide Apply, Trim, ParseNonNegative, RootOf;
  }

  lemma {:induction false} DepositsMove(l: Ledger, ds: seq<DepositRecord>, k: Key)
    requires Skips(l, DepositOps(ds)) == 0 && forall d <- ds :: Trim(d.denom) == k.denom
    ensures Balance(Run(l, DepositOps(ds)).accounts, k) == Balance(l.accounts, k) + TotalIn(ds, k.owner)
  {
    hide Apply, Trim, Value, Balance;
    if ds != [] {
      var front, d := ds[..|ds| - 1], ds[|ds| - 1];
      assert ds == front + [d];
      assert DepositOps(ds)[..|ds| - 1] == DepositOps(front);
      DepositsMove(l, front, k);
      DepositMoves(Run(l, DepositOps(front)), d, k);
    }
  }

  lemma {:induction false} WithdrawalsMove(l: Ledger, ws: seq<WithdrawalInput>, k: Key)
    requires Skips(l, InputOps(ws)) == 0 && forall w <- ws :: Trim(w.request.denom) == k.denom
    ensures Balance(Run(l, InputOps(ws)).accounts, k) + TotalOut(ws, k.owner) == Balance(l.accounts, k)
  {
    hide Apply, Trim, Value, Balance;
    if ws != [] {
      var front, w := ws[..|ws| - 1], ws[|ws| - 1];
      assert ws == front + [w];
      assert InputOps(ws)[..|ws| - 1] == InputOps(front);
      WithdrawalsMove(l, front, k);
      WithdrawalMoves(Run(l, InputOps(front)), w.request, w.nullifier, k);
    }
  }

  lemma BatchMoves(l: Ledger, ds: seq<DepositRecord>, ws: seq<WithdrawalInput>, k: Key)
    requires Skips(l, DepositOps(ds) + InputOps(ws)) == 0
    requires (forall d <- ds :: Trim(d.denom) == k.denom) && (forall w <- ws :: Trim(w.request.denom) == k.denom)
    ensures Balance(Run(l, DepositOps(ds) + InputOps(ws)).accounts, k) + TotalOut(ws, k.owner) ==
            Balance(l.accounts, k) + TotalIn(ds, k.owner)
  {
    hide Run, Skips, Balance, TotalIn, TotalOut, DepositOps, InputOps, Trim;
    RunConcat(l, DepositOps(ds), InputOps(ws));
    SkipsConcat(l, DepositOps(ds), InputOps(ws));
    DepositsMove(l, ds, k);
    WithdrawalsMove(Run(l, DepositOps(ds)), ws, k);
  }

  // ------------------------------------------------------------------------ participants

  lemma {:induction false} CollectedCovers(parts: seq<Participant>, names: seq<(string, string)>)
    requires Collected(parts, names).Success?
    ensures forall p <- parts :: p in Collected(parts, names).value
    ensures forall p <- Collected(parts, names).value :: p in parts || Named(names, p)
    ensures forall name <- names :: Joined(Collected(parts, names).value, Trim(name.0)) && !Blank(name.0)
    decreases |names|
  {
    hide Trim;
    if names != [] {
      var next := Join(parts, names[0]).value;
      var all := Collected(parts, names).value;
      CollectedCovers(next, names[1..]);
      assert names == [names[0]] + names[1..];
      assert Joined(next, Trim(names[0].0)) by {
        JoinedOne(parts, Participant(Trim(names[0].0), Trim(names[0].1)), Trim(names[0].0));
      }
      assert Joined(all, Trim(names[0].0));
      forall p | p in all ensures p in parts || Named(names, p) {
        if p in next && p !in parts { assert names[0] in names; }
        if Named(names[1..], p) {
          var name :| name in names[1..] && p == Participant(Trim(name.0), Trim(name.1));
          assert name in names;
        }
      }
    }
  }

  predicate Named(names: seq<(string, string)>, p: Participant) {
    exists name <- names :: p == Participant(Trim(name.0), Trim(name.1))
  }

  // ------------------------------------------------------------------ witness completeness

  /** The owner's trimmed text occurs, and what went by other spellings of it cancels out. */
  predicate OwnerSpelled(settlement: SettlementInputs, owner: string) {
    && ((exists d <- settlement.deposits :: d.owner == owner) ||
      (exists w <- settlement.withdrawals :: w.request.owner == owner))
    && StrayIn(settlement.deposits, owner) == StrayOut(settlement.withdrawals, owner)
  }

  predicate OwnersSpelled(settlement: SettlementInputs) {
    && (forall d <- settlement.deposits :: OwnerSpelled(settlement, Trim(d.owner)))
    && (forall w <- settlement.withdrawals :: OwnerSpelled(settlement, Trim(w.request.owner)))
  }

  lemma AcceptableParses(settlement: SettlementInputs)
    requires Acceptable(settlement)
    ensures forall d <- settlement.deposits :: ParsePositive(d.amount).Success? && Value(d.amount) > 0
    ensures forall w <- settlement.withdrawals ::
              ParsePositive(w.request.amount).Success? && Value(w.request.amount) > 0
    ensures var denom := Trim(FirstDenom(settlement));
            && denom != "" && Trim(denom) == denom
            && (forall d <- settlement.deposits :: d.denom == denom)
            && (forall w <- settlement.withdrawals :: w.request.denom == denom)
  {
    hide ValidHex, Trim, WithdrawAddressHash;
  }

  lemma DerivedWith(index: map<string, string>, reqs: seq<WithdrawRequest>, owner: string)
    requires Derivable(index, reqs) && Trim(owner) == owner
    ensures NullifiersDerive(DerivedInputs(index, reqs), owner, SecretFor(index, owner))
  {
    hide Trim, NullifierFor, WithdrawAddressHash;
    var ws := DerivedInputs(index, reqs);
    forall w | w in ws && w.request.owner == owner
      ensures NullifierFor(SecretFor(index, owner), w.request.nonce) == Success(w.nullifier)
    {
      var i :| 0 <= i < |ws| && ws[i] == w;
      assert Derive(index, reqs[i]) == Success(w);
    }
  }

  lemma AllParse(settlement: SettlementInputs, owner: string)
    requires Acceptable(settlement)
    ensures DepositsParse(settlement.deposits, owner) && WithdrawalsParse(settlement.withdrawals, owner)
    ensures DepositSum(settlement.deposits, owner) > 0 <==> exists d <- settlement.deposits :: d.owner == owner
    ensures WithdrawalSum(settlement.withdrawals, owner) > 0 <==>
              exists w <- settlement.withdrawals :: w.request.owner == owner
  {
    AcceptableParses(settlement);
    hide Acceptable, ParsePositive, Value, DepositSum, WithdrawalSum;
    DepositSumPositive(settlement.deposits, owner);
    WithdrawalSumPositive(settlement.withdrawals, owner);
  }

  lemma OwnerSpelledIs(settlement: SettlementInputs, owner: string)
    ensures OwnerSpelled(settlement, owner) <==>
            && ((exists d <- settlement.deposits :: d.owner == owner) ||
              (exists w <- settlement.withdrawals :: w.request.owner == owner))
            && StrayIn(settlement.deposits, owner) == StrayOut(settlement.withdrawals, owner)
  {
    hide StrayIn, StrayOut;
  }

  /** True balances and derived nullifiers: the account fits exactly when its owner is spelled out. */
  lemma ParticipantFits(settlement: SettlementInputs, owner: string, secret: string, before: nat, after: nat)
    requires Acceptable(settlement) && Trim(owner) == owner != "" && !Blank(secret) && Trim(secret) == secret
    requires after + TotalOut(settlement.withdrawals, owner) == before + TotalIn(settlement.deposits, owner)
    requires NullifiersDerive(settlement.withdrawals, owner, secret)
    ensures AccountFits(settlement, AccountWitnessSecret(owner, secret, Decimal(before), Decimal(after))) <==>
            OwnerSpelled(settlement, owner)
  {
    hide *;
    AllParse(settlement, owner);
    TotalInSplits(settlement.deposits, owner);
    TotalOutSplits(settlement.withdrawals, owner);
    FitsUnfolded(settlement, owner, secret, before, after);
    OwnerSpelledIs(settlement, owner);
  }

  lemma AccountAtKey(m: Accounts, owner: string, denom: string)
    requires Trim(owner) == owner != "" && Trim(denom) == denom != ""
    ensures AccountAt(m, owner, denom).balance == Balance(m, Key(owner, denom))
  {
    hide Trim;
  }

  lemma NameOf(ds: seq<DepositRecord>, reqs: seq<WithdrawRequest>, name: (string, string))
    requires name in Names(ds, reqs)
    ensures (exists d <- ds :: name == (d.owner, d.denom)) || (exists r <- reqs :: name == (r.owner, r.denom))
  {
    var i :| 0 <= i < |Names(ds, reqs)| && Names(ds, reqs)[i] == name;
    if i < |ds| { assert ds[i] in ds; } else { assert reqs[i - |ds|] in reqs; }
  }

  lemma NameIn(ds: seq<DepositRecord>, reqs: seq<WithdrawRequest>)
    ensures forall d <- ds :: (d.owner, d.denom) in Names(ds, reqs)
    ensures forall r <- reqs :: (r.owner, r.denom) in Names(ds, reqs)
  {
    forall d | d in ds ensures (d.owner, d.denom) in Names(ds, reqs) {
      var i :| 0 <= i < |ds| && ds[i] == d;
      assert Names(ds, reqs)[i] == (d.owner, d.denom);
    }
    forall r | r in reqs ensures (r.owner, r.denom) in Names(ds, reqs) {
      var i :| 0 <= i < |reqs| && reqs[i] == r;
      assert Names(ds, reqs)[|ds| + i] == (r.owner, r.denom);
    }
  }

  lemma DerivedRequests(index: map<string, string>, reqs: seq<WithdrawRequest>)
    requires Derivable(index, reqs)
    ensures forall r <- reqs :: exists w <- DerivedInputs(index, reqs) :: w.request == r
    ensures forall w <- DerivedInputs(index, reqs) :: w.request in reqs
  {
    hide Derive;
    var ws := DerivedInputs(index, reqs);
    forall i | 0 <= i < |reqs| ensures ws[i].request == reqs[i] { DeriveKeepsRequest(index, reqs[i]); }
    forall r | r in reqs ensures exists w <- ws :: w.request == r {
      var i :| 0 <= i < |reqs| && reqs[i] == r;
      assert ws[i] in ws;
    }
    forall w | w in ws ensures w.request in reqs {
      var i :| 0 <= i < |ws| && ws[i] == w;
    }
  }

  /** What the parts of a batch have in common once the settlement builder accepted it. */
  ghost predicate PartsOf(parts: seq<Participant>, settlement: SettlementInputs) {
    && (forall p <- parts :: p.owner != "" && Trim(p.owner) == p.owner && p.denom == Trim(FirstDenomOr(settlement)))
    && (forall p <- parts :: (exists d <- settlement.deposits :: Trim(d.owner) == p.owner) ||
                             (exists w <- settlement.withdrawals :: Trim(w.request.owner) == p.owner))
    && (forall d <- settlement.deposits :: Joined(parts, Trim(d.owner)))
    && (forall w <- settlement.withdrawals :: Joined(parts, Trim(w.request.owner)))
  }

  ghost function FirstDenomOr(settlement: SettlementInputs): string {
    if settlement.deposits == [] && settlement.withdrawals == [] then "" else FirstDenom(settlement)
  }

  /** The denom and owner of a participant, by the name it was collected under. */
  lemma PartShape(p: Participant, settlement: SettlementInputs, reqs: seq<WithdrawRequest>)
    requires Acceptable(settlement) && p.owner != "" && Named(Names(settlement.deposits, reqs), p)
    requires forall r <- reqs :: exists w <- settlement.withdrawals :: w.request == r
    ensures Trim(p.owner) == p.owner && p.denom == Trim(FirstDenomOr(settlement))
    ensures (exists d <- settlement.deposits :: Trim(d.owner) == p.owner) ||
            (exists w <- settlement.withdrawals :: Trim(w.request.owner) == p.owner)
  {
    AcceptableParses(settlement);
    hide Acceptable, Trim, Names, ParsePositive, Value;
    var name :| name in Names(settlement.deposits, reqs) && p == Participant(Trim(name.0), Trim(name.1));
    NameOf(settlement.deposits, reqs, name);
    TrimIdempotent(name.0);
    if r :| r in reqs && name == (r.owner, r.denom) {
      var w :| w in settlement.withdrawals && w.request == r;
    }
  }

  lemma BlankIsEmpty(s: string)
    ensures Blank(s) <==> Trim(s) == ""
  {
  }

  /** Every participant is named by an operation, and every operation's owner is a participant. */
  lemma PartsNamed(parts: seq<Participant>, ds: seq<DepositRecord>, reqs: seq<WithdrawRequest>)
    requires Collected([], Names(ds, reqs)) == Success(parts)
    ensures forall p <- parts :: p.owner != "" && Named(Names(ds, reqs), p)
    ensures forall d <- ds :: Joined(parts, Trim(d.owner))
    ensures forall r <- reqs :: Joined(parts, Trim(r.owner))
  {
    hide Collected, Names, Joined, Trim, Blank;
    var names := Names(ds, reqs);
    CollectedCovers([], names);
    NameIn(ds, reqs);
    forall p | p in parts ensures p.owner != "" && Named(names, p) {
      var name :| name in names && p == Participant(Trim(name.0), Trim(name.1));
      BlankIsEmpty(name.0);
    }
    forall d | d in ds ensures Joined(parts, Trim(d.owner)) { assert (d.owner, d.denom) in names; }
    forall r | r in reqs ensures Joined(parts, Trim(r.owner)) { assert (r.owner, r.denom) in names; }
  }

  lemma PartsCollected(parts: seq<Participant>, settlement: SettlementInputs, reqs: seq<WithdrawRequest>)
    requires Acceptable(settlement) && Collected([], Names(settlement.deposits, reqs)) == Success(parts)
    requires (forall r <- reqs :: exists w <- settlement.withdrawals :: w.request == r)
    requires forall w <- settlement.withdrawals :: w.request in reqs
    ensures PartsOf(parts, settlement)
  {
    hide Acceptable, Trim, Names, Collected, Named, Joined, FirstDenomOr;
    PartsNamed(parts, settlement.deposits, reqs);
    forall p | p in parts
      ensures p.owner != "" && Trim(p.owner) == p.owner && p.denom == Trim(FirstDenomOr(settlement))
      ensures (exists d <- settlement.deposits :: Trim(d.owner) == p.owner) ||
              (exists w <- settlement.withdrawals :: Trim(w.request.owner) == p.owner)
    {
      PartShape(p, settlement, reqs);
    }
  }

  lemma EachPartOnce(settlement: SettlementInputs, parts: seq<Participant>, accounts: seq<AccountWitnessSecret>)
    requires PartsOf(parts, settlement) && |accounts| == |parts| && parts != []
    requires forall i :: 0 <= i < |parts| ==>
              (AccountFits(settlement, accounts[i]) <==> OwnerSpelled(settlement, parts[i].owner))
    ensures WitnessAcceptable(settlement, accounts) <==> OwnersSpelled(settlement)
  {
    hide AccountFits, OwnerSpelled, Trim;
    if WitnessAcceptable(settlement, accounts) {
      forall owner | Joined(parts, owner) ensures OwnerSpelled(settlement, owner) {
        var p :| p in parts && p.owner == owner;
        var i :| 0 <= i < |parts| && parts[i] == p;
        assert accounts[i] in accounts;
      }
    }
    if OwnersSpelled(settlement) {
      forall a | a in accounts ensures AccountFits(settlement, a) {
        var i :| 0 <= i < |accounts| && accounts[i] == a;
        assert parts[i] in parts;
      }
    }
  }

  lemma PartFits(settlement: SettlementInputs, p: Participant, index: map<string, string>,
                 secrets: seq<AccountSecret>, m: Accounts, m': Accounts)
    requires Acceptable(settlement) && IndexSecrets(secrets) == Success(index)
    requires p.owner != "" && Trim(p.owner) == p.owner && p.denom == Trim(FirstDenom(settlement))
    requires NullifiersDerive(settlement.withdrawals, p.owner, SecretFor(index, p.owner))
    requires var k := Key(p.owner, p.denom);
             Balance(m', k) + TotalOut(settlement.withdrawals, p.owner) ==
               Balance(m, k) + TotalIn(settlement.deposits, p.owner)
    ensures AccountFits(settlement, AccountsOf([p], index, m, m')[0]) <==> OwnerSpelled(settlement, p.owner)
  {
    AcceptableParses(settlement);
    hide Acceptable, Trim, AccountFits, OwnerSpelled, NullifiersDerive, TotalIn, TotalOut, AccountAt, Balance,
         IndexSecrets, SecretFor, Decimal;
    var k := Key(p.owner, p.denom);
    IndexedSecretsUsable(secrets, p.owner);
    AccountAtKey(m, p.owner, p.denom);
    AccountAtKey(m', p.owner, p.denom);
    ParticipantFits(settlement, p.owner, SecretFor(index, p.owner), Balance(m, k), Balance(m', k));
  }

  lemma AnyPart(parts: seq<Participant>, settlement: SettlementInputs)
    requires PartsOf(parts, settlement) && Acceptable(settlement)
    ensures parts != []
  {
    hide Trim, ValidHex, WithdrawalFits, DepositFits, Blank;
    if settlement.deposits != [] {
      assert settlement.deposits[0] in settlement.deposits;
      assert Joined(parts, Trim(settlement.deposits[0].owner));
    } else {
      assert settlement.withdrawals[0] in settlement.withdrawals;
      assert Joined(parts, Trim(settlement.withdrawals[0].request.owner));
    }
  }

  ghost function SettlementOf(l: Ledger, index: map<string, string>, input: BuildInput): SettlementInputs
    requires Simulate(l, index, input).Success?
  {
    var (l', ws) := Simulate(l, index, input).value;
    SettlementInputs(l.root, l'.root, input.deposits, ws)
  }

  /**
   * Once the settlement builder has accepted a simulated batch, the witness builder accepts it if
   * and only if every owner is spelled out: its trimmed text occurs, and deposits and withdrawals
   * recorded under other spellings of it cancel out.
   */
  lemma SnapshotWitnessExactly(l: Ledger, index: map<string, string>, parts: seq<Participant>, input: BuildInput)
    requires IndexSecrets(input.secrets) == Success(index)
    requires Collected([], Names(input.deposits, input.requests)) == Success(parts)
    requires Simulate(l, index, input).Success? && Acceptable(SettlementOf(l, index, input))
    ensures var m' := Simulate(l, index, input).value.0.accounts;
            WitnessAcceptable(SettlementOf(l, index, input), AccountsOf(parts, index, l.accounts, m')) <==>
            OwnersSpelled(SettlementOf(l, index, input))
  {
    SimulationIsTheRun(l, index, input);
    var settlement := SettlementOf(l, index, input);
    var (l', ws) := Simulate(l, index, input).value;
    DerivedRequests(index, input.requests);
    AcceptableParses(settlement);
    hide Acceptable, Simulate, Names, Collected, IndexSecrets, Derivable, DerivedInputs, Run, Skips, DepositOps,
         InputOps, AccountFits, OwnerSpelled, OwnersSpelled, NullifiersDerive, TotalIn, TotalOut, AccountAt,
         Balance, SecretFor, Trim, Decimal, WitnessAcceptable, ParsePositive, Value;
    PartsCollected(parts, settlement, input.requests);
    AnyPart(parts, settlement);
    var accounts := AccountsOf(parts, index, l.accounts, l'.accounts);
    forall i | 0 <= i < |parts|
      ensures AccountFits(settlement, accounts[i]) <==> OwnerSpelled(settlement, parts[i].owner)
    {
      var p := parts[i];
      assert p in parts;
      DerivedWith(index, input.requests, p.owner);
      BatchMoves(l, input.deposits, ws, Key(p.owner, p.denom));
      PartFits(settlement, p, index, input.secrets, l.accounts, l'.accounts);
      assert accounts[i] == AccountsOf([p], index, l.accounts, l'.accounts)[0];
    }
    EachPartOnce(settlement, parts, accounts);
  }

  lemma {:induction false} NoStray(ds: seq<DepositRecord>, ws: seq<WithdrawalInput>, owner: string)
    requires (forall d <- ds :: Trimmed(d.owner)) && (forall w <- ws :: Trimmed(w.request.owner))
    ensures StrayIn(ds, owner) == 0 && StrayOut(ws, owner) == 0
    decreases |ds| + |ws|
  {
    hide Trimmed, Value;
    if ds != [] {
      assert ds == ds[..|ds| - 1] + [ds[|ds| - 1]];
      NoStray(ds[..|ds| - 1], [], owner);
    }
    if ws != [] {
      assert ws == ws[..|ws| - 1] + [ws[|ws| - 1]];
      NoStray([], ws[..|ws| - 1], owner);
    }
  }

  lemma TrimmedAreSpelled(settlement: SettlementInputs)
    requires (forall d <- settlement.deposits :: Trimmed(d.owner)) &&
              (forall w <- settlement.withdrawals :: Trimmed(w.request.owner))
    ensures OwnersSpelled(settlement)
  {
    hide Trimmed, StrayIn, StrayOut;
    forall owner ensures StrayIn(settlement.deposits, owner) == StrayOut(settlement.withdrawals, owner) {
      NoStray(settlement.deposits, settlement.withdrawals, owner);
    }
  }

  /** With owners written without outer white space the witness builder never rejects a batch. */
  lemma TrimmedNeverFailsWitness(l: Ledger, counter: nat, input: BuildInput)
    requires (forall d <- input.deposits :: Trimmed(d.owner)) && (forall r <- input.requests :: Trimmed(r.owner))
    ensures SnapshotBuild(l, counter, input).1 != Failure(InvalidWitnessInputs)
  {
    hide Trimmed, Acceptable, WitnessAcceptable, AccountsOf, UpdateFor, CommitmentsFor, WitnessFor, ValidHex,
         OwnersSpelled;
    if IndexSecrets(input.secrets).Success? && Collected([], Names(input.deposits, input.requests)).Success? {
      var index, parts := IndexSecrets(input.secrets).value, Collected([], Names(input.deposits, input.requests)).value;
      CollectErrors([], Names(input.deposits, input.requests));
      SimulateErrors(l, index, input);
      hide IndexSecrets, Collected, Names, Simulate;
      if Simulate(l, index, input).Success? {
        SimulationIsTheRun(l, index, input);
        DerivedRequests(index, input.requests);
        TrimmedAreSpelled(SettlementOf(l, index, input));
        if Acceptable(SettlementOf(l, index, input)) { SnapshotWitnessExactly(l, index, parts, input); }
      }
    } else {
      CollectErrors([], Names(input.deposits, input.requests));
    }
  }

  lemma {:induction false} CollectErrors(parts: seq<Participant>, names: seq<(string, string)>)
    ensures Collected(parts, names).Failure? ==> Collected(parts, names) == Failure(InvalidBuildInput)
    decreases |names|
  {
    hide Trim;
    if names != [] && Join(parts, names[0]).Success? { CollectErrors(Join(parts, names[0]).value, names[1..]); }
  }

  lemma SimulateErrors(l: Ledger, index: map<string, string>, input: BuildInput)
    ensures Simulate(l, index, input) != Failure(InvalidWitnessInputs)
  {
    hide Apply, Derive;
    DepositErrors(l, input.deposits);
    if SimulateDeposits(l, input.deposits).Success? {
      RequestErrors(SimulateDeposits(l, input.deposits).value, index, input.requests, []);
    }
  }

  lemma {:induction false} DepositErrors(l: Ledger, ds: seq<DepositRecord>)
    ensures SimulateDeposits(l, ds).Failure? ==> SimulateDeposits(l, ds) == Failure(InvalidBuildInput)
    decreases |ds|
  {
    hide Apply;
    if ds != [] && Apply(l, DepositOp(ds[0])).Success? { DepositErrors(Apply(l, DepositOp(ds[0])).value, ds[1..]); }
  }

  lemma {:induction false} RequestErrors(l: Ledger, index: map<string, string>, reqs: seq<WithdrawRequest>,
                                         done: seq<WithdrawalInput>)
    ensures SimulateRequests(l, index, reqs, done) != Failure(InvalidWitnessInputs)
    decreases |reqs|
  {
    hide Apply, NullifierFor, WithdrawAddressHash;
    if reqs != [] && Derive(index, reqs[0]).Success? {
      var w := Derive(index, reqs[0]).value;
      if Apply(l, WithdrawOp(w.request, w.nullifier)).Success? {
        RequestErrors(Apply(l, WithdrawOp(w.request, w.nullifier)).value, index, reqs[1..], done + [w]);
      }
    }
  }

  /**
   * A successful build tells the truth about the manager: applying the same deposits and then the
   * derived withdrawals would skip nothing and reach the new root, and every witness account holds
   * its balance now and its balance then.
   */
  lemma SnapshotBuildIsTheRun(l: Ledger, counter: nat, input: BuildInput)
    returns (index: map<string, string>, parts: seq<Participant>)
    requires SnapshotBuild(l, counter, input).1.Success?
    ensures IndexSecrets(input.secrets) == Success(index) && Derivable(index, input.requests)
    ensures Collected([], Names(input.deposits, input.requests)) == Success(parts)
    ensures var out := SnapshotBuild(l, counter, input).1.value;
            var ops := DepositOps(input.deposits) + InputOps(DerivedInputs(index, input.requests));
            var l' := Run(l, ops);
            && Skips(l, ops) == 0
            && out.update.oldStateRoot == l.root && out.update.newStateRoot == l'.root
            && |out.accounts.accounts| == |parts|
            && forall i :: 0 <= i < |parts| ==>
                 var a := out.accounts.accounts[i];
                 && a.owner == parts[i].owner
                 && Value(a.oldBalance) == Balance(l.accounts, Key(parts[i].owner, parts[i].denom))
                 && Value(a.newBalance) == Balance(l'.accounts, Key(parts[i].owner, parts[i].denom))
  {
    hide Acceptable, WitnessAcceptable, CommitmentsFor, ValidHex, Derivable, DerivedInputs, Simulate, IndexSecrets,
         Collected, Names, Run, Skips, DepositOps, InputOps, Derive, AccountAt, Balance, SecretFor, Trim, Decimal,
         Value, LastNonce, DepositEntry, WithdrawalEntry, BatchId;
    index := IndexSecrets(input.secrets).value;
    parts := Collected([], Names(input.deposits, input.requests)).value;
    SimulationIsTheRun(l, index, input);
    var (l', ws) := Simulate(l, index, input).value;
    CollectedClean([], Names(input.deposits, input.requests));
    forall i | 0 <= i < |parts|
      ensures Trim(parts[i].owner) == parts[i].owner
      ensures forall m: Accounts ::
                AccountAt(m, parts[i].owner, parts[i].denom).balance == Balance(m, Key(parts[i].owner, parts[i].denom))
      ensures forall n :: Value(Decimal(Value(Decimal(n)))) == n
    {
      assert parts[i] in parts;
      forall m: Accounts { AccountAtKey(m, parts[i].owner, parts[i].denom); }
    }
  }

  lemma {:induction false} CollectedClean(parts: seq<Participant>, names: seq<(string, string)>)
    requires Collected(parts, names).Success? && forall p <- parts :: Clean(p)
    ensures forall p <- Collected(parts, names).value :: Clean(p)
    decreases |names|
  {
    hide Trim;
    if names != [] {
      TrimIdempotent(names[0].0);
      TrimIdempotent(names[0].1);
      CollectedClean(Join(parts, names[0]).value, names[1..]);
    }
  }

  ghost predicate Clean(p: Participant) {
    Trim(p.owner) == p.owner != "" && Trim(p.denom) == p.denom != ""
  }

  // ------------------------------------------------------------- participants and requests

  /** The first name of this owner. */
  predicate FirstName(names: seq<(string, string)>, owner: string, k: int) {
    0 <= k < |names| && Trim(names[k].0) == owner && forall j :: 0 <= j < k ==> Trim(names[j].0) != owner
  }

  ghost predicate PartTells(p: Participant, names: seq<(string, string)>) {
    exists k :: FirstName(names, p.owner, k) && p.denom == Trim(names[k].1)
  }

  /** Every owner once, with the denom it was first named with, in order of first appearance. */
  ghost predicate PartsTell(parts: seq<Participant>, names: seq<(string, string)>) {
    && (forall i :: 0 <= i < |parts| ==> PartTells(parts[i], names))
    && (forall i, j, a, b ::
          0 <= i < j < |parts| && FirstName(names, parts[i].owner, a) && FirstName(names, parts[j].owner, b) ==> a < b)
    && (forall k :: 0 <= k < |names| ==> OwnerListed(parts, Trim(names[k].0)))
  }

  ghost predicate OwnerListed(parts: seq<Participant>, owner: string) {
    exists i :: 0 <= i < |parts| && parts[i].owner == owner
  }

  lemma FirstNameStays(names: seq<(string, string)>, name: (string, string), owner: string, k: int)
    ensures FirstName(names, owner, k) ==> FirstName(names + [name], owner, k)
    ensures FirstName(names + [name], owner, k) ==>
              FirstName(names, owner, k) || (k == |names| && Trim(name.0) == owner)
    ensures (forall j :: 0 <= j < |names| ==> Trim(names[j].0) != Trim(name.0)) ==>
              FirstName(names + [name], Trim(name.0), |names|)
  {
    hide Trim;
    var all := names + [name];
    assert forall j :: 0 <= j < |names| ==> all[j] == names[j];
  }

  lemma PartStillTells(p: Participant, names: seq<(string, string)>, name: (string, string))
    requires PartTells(p, names)
    ensures PartTells(p, names + [name])
  {
    hide Trim;
    var k :| FirstName(names, p.owner, k) && p.denom == Trim(names[k].1);
    FirstNameStays(names, name, p.owner, k);
    assert (names + [name])[k] == names[k];
  }

  lemma NewPartTells(names: seq<(string, string)>, name: (string, string))
    requires forall j :: 0 <= j < |names| ==> Trim(names[j].0) != Trim(name.0)
    ensures PartTells(Participant(Trim(name.0), Trim(name.1)), names + [name])
  {
    hide Trim, FirstName;
    FirstNameStays(names, name, Trim(name.0), |names|);
    assert (names + [name])[|names|] == name;
  }

  lemma PartFirst(p: Participant, names: seq<(string, string)>) returns (k: int)
    requires PartTells(p, names)
    ensures FirstName(names, p.owner, k)
  {
    hide Trim;
    k :| FirstName(names, p.owner, k) && p.denom == Trim(names[k].1);
  }

  lemma FirstNameUnique(names: seq<(string, string)>, owner: string, a: int, b: int)
    requires FirstName(names, owner, a) && FirstName(names, owner, b)
    ensures a == b
  {
    hide Trim;
  }

  lemma NamedOwner(parts: seq<Participant>, names: seq<(string, string)>, owner: string)
    requires PartsTell(parts, names) && !Joined(parts, owner)
    ensures forall j :: 0 <= j < |names| ==> Trim(names[j].0) != owner
  {
    hide Trim, PartTells, FirstName;
    forall j | 0 <= j < |names| ensures Trim(names[j].0) != owner {
      assert OwnerListed(parts, Trim(names[j].0));
      var i :| 0 <= i < |parts| && parts[i].owner == Trim(names[j].0);
      assert parts[i] in parts;
    }
  }

  lemma OrderKept(parts: seq<Participant>, all: seq<Participant>, names: seq<(string, string)>,
                  name: (string, string), i: nat, j: nat, a: int, b: int)
    requires PartsTell(parts, names) && i < j < |all| && parts <= all && |all| <= |parts| + 1
    requires |all| == |parts| + 1 ==>
               all[|parts|].owner == Trim(name.0) && forall k :: 0 <= k < |names| ==> Trim(names[k].0) != Trim(name.0)
    requires FirstName(names + [name], all[i].owner, a) && FirstName(names + [name], all[j].owner, b)
    ensures a < b
  {
    hide Trim, PartTells;
    var a' := PartFirst(parts[i], names);
    FirstNameStays(names, name, all[i].owner, a');
    FirstNameUnique(names + [name], all[i].owner, a, a');
    if j < |parts| {
      var b' := PartFirst(parts[j], names);
      FirstNameStays(names, name, all[j].owner, b');
      FirstNameUnique(names + [name], all[j].owner, b, b');
    } else {
      FirstNameStays(names, name, all[j].owner, b);
    }
  }

  lemma JoinTells(parts: seq<Participant>, names: seq<(string, string)>, name: (string, string))
    requires PartsTell(parts, names) && Join(parts, name).Success?
    ensures PartsTell(Join(parts, name).value, names + [name])
  {
    hide Trim, PartTells, FirstName;
    var all, next := Join(parts, name).value, names + [name];
    if !Joined(parts, Trim(name.0)) {
      NamedOwner(parts, names, Trim(name.0));
      NewPartTells(names, name);
      assert all[|parts|].owner == Trim(name.0);
    } else {
      var p :| p in parts && p.owner == Trim(name.0);
      var i :| 0 <= i < |parts| && parts[i] == p;
      assert all[i].owner == Trim(name.0);
    }
    forall i | 0 <= i < |all| ensures PartTells(all[i], next) {
      if i < |parts| { PartStillTells(parts[i], names, name); }
    }
    forall i, j, a, b | 0 <= i < j < |all| && FirstName(next, all[i].owner, a)
      && FirstName(next, all[j].owner, b)
      ensures a < b
    {
      OrderKept(parts, all, names, name, i, j, a, b);
    }
    forall k | 0 <= k < |next| ensures OwnerListed(all, Trim(next[k].0)) {
      if k < |names| {
        assert next[k] == names[k];
        assert OwnerListed(parts, Trim(names[k].0));
        var i :| 0 <= i < |parts| && parts[i].owner == Trim(names[k].0);
        assert all[i].owner == Trim(next[k].0);
      }
    }
  }

  lemma {:induction false} CollectedTells(parts: seq<Participant>,
                                         done: seq<(string, string)>, rest: seq<(string, string)>)
    requires PartsTell(parts, done)
    ensures Collected(parts, rest).Success? <==> forall k :: 0 <= k < |rest| ==> !Blank(rest[k].0) && !Blank(rest[k].1)
    ensures Collected(parts, rest).Success? ==> PartsTell(Collected(parts, rest).value, done + rest)
    decreases |rest|
  {
    hide Trim, PartsTell;
    if rest == [] {
      assert done + rest == done;
    } else {
      var tail := rest[1..];
      assert rest == [rest[0]] + tail && forall k :: 0 <= k < |tail| ==> tail[k] == rest[k + 1];
      if Join(parts, rest[0]).Success? {
        JoinTells(parts, done, rest[0]);
        CollectedTells(Join(parts, rest[0]).value, done + [rest[0]], tail);
        assert done + [rest[0]] + tail == done + rest;
      }
    }
  }

  lemma NobodyTells()
    ensures PartsTell([], [])
  {
  }

  /** Participants are collected exactly from non-blank names: each owner once, in order of first appearance. */
  lemma ParticipantsExactly(names: seq<(string, string)>)
    ensures Collected([], names).Success? <==> forall k :: 0 <= k < |names| ==> !Blank(names[k].0) && !Blank(names[k].1)
    ensures Collected([], names).Success? ==> PartsTell(Collected([], names).value, names)
  {
    hide Trim, PartsTell, Collected;
    NobodyTells();
    CollectedTells([], [], names);
    assert [] + names == names;
  }

  /** Participants are looked for in the deposits first, then in the requests. */
  lemma NamesListed(ds: seq<DepositRecord>, reqs: seq<WithdrawRequest>, i: nat)
    ensures |Names(ds, reqs)| == |ds| + |reqs|
    ensures i < |ds| ==> Names(ds, reqs)[i] == (ds[i].owner, ds[i].denom)
    ensures i < |reqs| ==> Names(ds, reqs)[|ds| + i] == (reqs[i].owner, reqs[i].denom)
  {
  }

  /** A request is derived with the secret given for its trimmed owner, or the default one. */
  lemma DeriveExactly(index: map<string, string>, req: WithdrawRequest)
    ensures var secret := if Trim(req.owner) in index then index[Trim(req.owner)] else "mock-user-secret";
            var nullifier, hash := NullifierFor(secret, req.nonce), WithdrawAddressHash(req.destination);
            && (Derive(index, req).Success? <==> nullifier.Success? && hash.Success?)
            && (Derive(index, req).Success? ==>
                  Derive(index, req).value == WithdrawalInput(req, nullifier.value, hash.value))
            && (Derive(index, req).Failure? ==> Derive(index, req) == Failure(InvalidBuildInput))
  {
    hide Trim, NullifierFor, WithdrawAddressHash;
  }

  /** A snapshot build succeeds if and only if each of its stages does. */
  lemma SnapshotBuildSucceedsExactly(l: Ledger, counter: nat, input: BuildInput)
    ensures SnapshotBuild(l, counter, input).1.Success? <==>
            && IndexSecrets(input.secrets).Success?
            && (forall k :: 0 <= k < |Names(input.deposits, input.requests)| ==>
                  !Blank(Names(input.deposits, input.requests)[k].0) &&
                  !Blank(Names(input.deposits, input.requests)[k].1))
            && ValidHex(l.root)
            && var index := IndexSecrets(input.secrets).value;
               && Simulate(l, index, input).Success? && Acceptable(SettlementOf(l, index, input))
               && OwnersSpelled(SettlementOf(l, index, input))
  {
    hide Trim, Names, Collected, IndexSecrets, Simulate, Acceptable,
         WitnessAcceptable, AccountsOf, UpdateFor, CommitmentsFor, WitnessFor,
         ValidHex, OwnersSpelled, PartsTell, Blank;
    ParticipantsExactly(Names(input.deposits, input.requests));
    if IndexSecrets(input.secrets).Success? && Collected([], Names(input.deposits, input.requests)).Success? {
      var index, parts := IndexSecrets(input.secrets).value, Collected([], Names(input.deposits, input.requests)).value;
      if Simulate(l, index, input).Success? && Acceptable(SettlementOf(l, index, input)) {
        SnapshotWitnessExactly(l, index, parts, input);
      }
    }
  }
}
