/**
 The finance service under load.  Requests run interleaved: the service's check reads
 committed data without locking; the repository's transaction then runs statement by
 statement, each UPDATE locking the row it touches until the transaction ends.  A
 transaction works on values it has read and keeps them private; it may fail at any
 statement, and its commit may succeed with the answer lost.
 */
module FinanceService {
  import opened Ledger
  import opened Wrappers

  /** What a caller asks of the service. */
  datatype Op =
    | Pay(kind: Kind, from: string, to: string, amount: int)
    | InitiateEscrow(buyer: string, seller: string, amount: int, newId: Uuid)
    | SettleEscrow(outcome: Status, escrowId: string, user: string)

  /** What the repository is asked to do once ids are parsed. */
  datatype Tx =
    | Move(sender: Uuid, receiver: Uuid, amount: int, kind: Kind)
    | Hold(id: Uuid, buyer: Uuid, seller: Uuid, amount: int)
    | Settle(id: Uuid, outcome: Status, reference: string)

  /** What a transaction remembers: statements done, the balances it has written, the escrow row it has marked. */
  datatype Work = Work(done: nat, debited: int, credited: int, escrow: Option<Escrow>)

  datatype Phase =
    | Waiting
    | Checked
    | Open(tx: Tx, work: Work)
    | Done(ok: bool, applied: Option<Tx>)

  datatype Request = Request(op: Op, phase: Phase)

  /** A committed transaction and the request it was for. */
  datatype Committed = Committed(request: nat, tx: Tx)

  datatype RowKey = WalletRow(user: Uuid) | EscrowRow(id: Uuid)

  datatype Sys = Sys(
    db: Db,
    locks: map<RowKey, nat>,
    requests: map<nat, Request>,
    log: Run<Committed>)

  datatype Event =
    | Submit(id: nat, op: Op)
    | Check(id: nat)
    | Begin(id: nat)
    | Statement(id: nat)
    | Abort(id: nat)
    | Commit(id: nat, answerLost: bool)

  /** Argument checks of service and repository, before a transaction is begun. */
  function Prepare(ids: Ids, op: Op): Option<Tx> {
    match op
    case Pay(kind, from, to, amount) =>
      if amount <= 0 || from == to || (kind == Transfer && (from == "" || to == "")) then None
      else if Parse(ids, from).None? || Parse(ids, to).None? then None
      else Some(Move(Parse(ids, from).value, Parse(ids, to).value, amount, kind))
    case InitiateEscrow(buyer, seller, amount, newId) =>
      if buyer == "" || seller == "" || buyer == seller || amount <= 0 then None
      else if Parse(ids, buyer).None? || Parse(ids, seller).None? || amount > MAX_INT32 then None
      else Some(Hold(newId, Parse(ids, buyer).value, Parse(ids, seller).value, amount))
    case SettleEscrow(outcome, escrowId, _) =>
      if Parse(ids, escrowId).None? then None else Some(Settle(Parse(ids, escrowId).value, outcome, escrowId))
  }

  /** Only payments and the two settlements exist. */
  predicate Callable(op: Op) {
    (op.Pay? ==> op.kind == Transfer || op.kind == Tip || op.kind == Unlock)
    && (op.SettleEscrow? ==> op.outcome != Held)
  }

  /** The service's own look at the escrow: the buyer may release, the seller may refund, while it is held. */
  predicate MaySettle(ids: Ids, db: Db, outcome: Status, escrowId: string, user: string) {
    && ids.scan(escrowId).Some?
    && var found := Find(db.escrows, ids.scan(escrowId).value);
       && found.Some?
       && ids.show(if outcome == Released then found.value.buyer else found.value.seller) == user
       && found.value.status == Held
  }

  // ---------------------------------------------------------------- transactions

  function SetBalance(ws: Run<Wallet>, u: Uuid, b: int): Run<Wallet> {
    match ws
    case Start => Start
    case Then(past, w) => if w.user == u then Then(past, w.(balance := b)) else Then(SetBalance(past, u, b), w)
  }

  function Payee(e: Escrow, outcome: Status): Uuid {
    if outcome == Released then e.seller else e.buyer
  }

  /** The row the next statement touches; INSERT INTO transactions touches none that others could. */
  function NextRow(tx: Tx, w: Work): Option<RowKey> {
    match tx
    case Move(sender, receiver, _, _) =>
      if w.done == 0 then Some(WalletRow(sender)) else if w.done == 1 then Some(WalletRow(receiver)) else None
    case Hold(id, buyer, _, _) =>
      if w.done == 0 then Some(WalletRow(buyer)) else if w.done == 1 then Some(EscrowRow(id)) else None
    case Settle(id, outcome, _) =>
      if w.done == 0 then Some(EscrowRow(id))
      else if w.done == 1 && w.escrow.Some? then Some(WalletRow(Payee(w.escrow.value, outcome)))
      else None
  }

  function Statements(tx: Tx): nat {
    if tx.Hold? then 2 else 3
  }

  /** What the transaction sees of a wallet: its own write, or the committed balance. */
  function SeenBalance(db: Db, tx: Tx, w: Work, u: Uuid): Option<int> {
    if tx.Move? && w.done >= 1 && u == tx.sender && BalanceOf(db.wallets, u).Some? then Some(w.debited)
    else BalanceOf(db.wallets, u)
  }

  /** One statement: the work after it, or None when its WHERE clause matches no row or the column overflows. */
  function Execute(db: Db, tx: Tx, w: Work): Option<Work> {
    match tx
    case Move(sender, receiver, amount, _) =>
      if w.done == 0 then ExecuteDebit(db, tx, w, sender, amount)
      else if w.done == 1 then ExecuteCredit(db, tx, w, receiver, amount)
      else Some(w.(done := w.done + 1))
    case Hold(id, buyer, seller, amount) =>
      if w.done == 0 then ExecuteDebit(db, tx, w, buyer, amount)
      else if Find(db.escrows, id).Some? || buyer !in db.users || seller !in db.users then None
      else Some(w.(done := w.done + 1))
    case Settle(id, outcome, _) =>
      if w.done == 0 then
        var found := Find(db.escrows, id);
        if found.None? || found.value.status != Held then None else Some(w.(done := 1, escrow := found))
      else if w.done == 1 && w.escrow.Some? then
        ExecuteCredit(db, tx, w, Payee(w.escrow.value, outcome), w.escrow.value.amount)
      else Some(w.(done := w.done + 1))
  }

  function ExecuteDebit(db: Db, tx: Tx, w: Work, u: Uuid, amount: int): Option<Work> {
    var b := SeenBalance(db, tx, w, u);
    if b.None? || b.value < amount then None else Some(w.(done := w.done + 1, debited := b.value - amount))
  }

  function ExecuteCredit(db: Db, tx: Tx, w: Work, u: Uuid, amount: int): Option<Work> {
    var b := SeenBalance(db, tx, w, u);
    if b.None? || b.value + amount > MAX_INT64 then None else Some(w.(done := w.done + 1, credited := b.value + amount))
  }

  /** COMMIT makes the private values the committed ones. */
  function Install(db: Db, tx: Tx, w: Work): Db {
    match tx
    case Move(sender, receiver, amount, kind) =>
      db.(wallets := SetBalance(SetBalance(db.wallets, sender, w.debited), receiver, w.credited),
          ledger := Then(db.ledger, Row(sender, receiver, amount, kind, "")))
    case Hold(id, buyer, seller, amount) =>
      db.(wallets := SetBalance(db.wallets, buyer, w.debited),
          escrows := Then(db.escrows, Escrow(id, buyer, seller, amount, Held)))
    case Settle(id, outcome, reference) =>
      if w.escrow.None? then db
      else
        var e := w.escrow.value;
        db.(wallets := SetBalance(db.wallets, Payee(e, outcome), w.credited),
            escrows := SetStatus(db.escrows, id, outcome),
            ledger := Then(db.ledger,
                           if outcome == Released then Row(e.buyer, e.seller, e.amount, EscrowRelease, reference)
                           else Row(e.seller, e.buyer, e.amount, EscrowRefund, reference)))
  }

  /** What the same transaction would do alone, in one go. */
  function Alone(db: Db, tx: Tx): Option<Db> {
    match tx
    case Move(sender, receiver, amount, kind) => TransferTx(db, sender, receiver, amount, kind, "")
    case Hold(id, buyer, seller, amount) => HoldTx(db, id, buyer, seller, amount)
    case Settle(id, outcome, reference) =>
      if outcome == Released then ReleaseTx(db, id, reference) else RefundTx(db, id, reference)
  }

  // ---------------------------------------------------------------- the system

  function Unlocked(locks: map<RowKey, nat>, id: nat): map<RowKey, nat> {
    map k | k in locks && locks[k] != id :: locks[k]
  }

  function Become(s: Sys, id: nat, phase: Phase): Sys
    requires id in s.requests
  {
    s.(requests := s.requests[id := s.requests[id].(phase := phase)])
  }

  function End(s: Sys, id: nat, ok: bool, applied: Option<Tx>): Sys
    requires id in s.requests
  {
    Become(s, id, Done(ok, applied)).(locks := Unlocked(s.locks, id))
  }

  function DoStatement(s: Sys, id: nat, tx: Tx, w: Work): Sys
    requires id in s.requests
  {
    var key := NextRow(tx, w);
    if w.done >= Statements(tx) then s
    else if key.Some? && key.value in s.locks && s.locks[key.value] != id then s
    else
      match Execute(s.db, tx, w)
      case None => End(s, id, false, None)
      case Some(w') =>
        var s' := Become(s, id, Open(tx, w'));
        if key.Some? then s'.(locks := s.locks[key.value := id]) else s'
  }

  function Step(ids: Ids, s: Sys, e: Event): Sys {
    match e
    case Submit(id, op) =>
      if id in s.requests || !Callable(op) then s
      else s.(requests := s.requests[id := Request(op, if op.SettleEscrow? then Waiting else Checked)])
    case Check(id) =>
      if id !in s.requests || !s.requests[id].phase.Waiting? || !s.requests[id].op.SettleEscrow? then s
      else
        var op := s.requests[id].op;
        if MaySettle(ids, s.db, op.outcome, op.escrowId, op.user) then Become(s, id, Checked)
        else End(s, id, false, None)
    case Begin(id) =>
      if id !in s.requests || !s.requests[id].phase.Checked? then s
      else
        var tx := Prepare(ids, s.requests[id].op);
        if tx.None? then End(s, id, false, None) else Become(s, id, Open(tx.value, Work(0, 0, 0, None)))
    case Statement(id) =>
      if id !in s.requests || !s.requests[id].phase.Open? then s
      else DoStatement(s, id, s.requests[id].phase.tx, s.requests[id].phase.work)
    case Abort(id) =>
      if id !in s.requests || s.requests[id].phase.Done? then s else End(s, id, false, None)
    case Commit(id, answerLost) =>
      if id !in s.requests || !s.requests[id].phase.Open? then s
      else
        var Open(tx, w) := s.requests[id].phase;
        if w.done < Statements(tx) then s
        else End(s, id, !answerLost, Some(tx)).(db := Install(s.db, tx, w), log := Then(s.log, Committed(id, tx)))
  }

  function After(ids: Ids, db: Db, run: Run<Event>): Sys {
    match run
    case Start => Sys(db, map[], map[], Start)
    case Then(past, e) => Step(ids, After(ids, db, past), e)
  }

  // ---------------------------------------------------------------- isolation

  lemma {:induction false} SetIsAdd(ws: Run<Wallet>, u: Uuid, b: int)
    requires BalanceOf(ws, u).Some?
    ensures SetBalance(ws, u, b) == AddTo(ws, u, b - BalanceOf(ws, u).value)
  {
    if ws.last.user != u {
      SetIsAdd(ws.past, u, b);
    }
  }

  /** The rows a transaction has touched. */
  function Touched(tx: Tx, w: Work): set<RowKey> {
    match tx
    case Move(sender, receiver, _, _) =>
      (if w.done >= 1 then {WalletRow(sender)} else {}) + (if w.done >= 2 then {WalletRow(receiver)} else {})
    case Hold(id, buyer, _, _) =>
      (if w.done >= 1 then {WalletRow(buyer)} else {}) + (if w.done >= 2 then {EscrowRow(id)} else {})
    case Settle(id, outcome, _) =>
      (if w.done >= 1 then {EscrowRow(id)} else {})
      + (if w.done >= 2 && w.escrow.Some? then {WalletRow(Payee(w.escrow.value, outcome))} else {})
  }

  predicate Debited(db: Db, u: Uuid, amount: int, after: int) {
    BalanceOf(db.wallets, u) == Some(after + amount) && 0 <= after
  }

  predicate Credited(ws: Run<Wallet>, u: Uuid, amount: int, after: int) {
    BalanceOf(ws, u) == Some(after - amount) && after <= MAX_INT64
  }

  /** What an unfinished transaction has read is still what the committed tables say. */
  predicate Current(db: Db, tx: Tx, w: Work) {
    && w.done <= Statements(tx)
    && match tx
       case Move(sender, receiver, amount, _) =>
         && (w.done >= 1 ==> Debited(db, sender, amount, w.debited))
         && (w.done >= 2 ==> Credited(SetBalance(db.wallets, sender, w.debited), receiver, amount, w.credited))
       case Hold(id, buyer, seller, amount) =>
         && (w.done >= 1 ==> Debited(db, buyer, amount, w.debited))
         && (w.done >= 2 ==> Find(db.escrows, id).None? && buyer in db.users && seller in db.users)
       case Settle(id, outcome, _) =>
         && outcome != Held
         && (w.done >= 1 ==> w.escrow.Some? && Find(db.escrows, id) == w.escrow && w.escrow.value.status == Held)
         && (w.done >= 2 ==> Credited(db.wallets, Payee(w.escrow.value, outcome), w.escrow.value.amount, w.credited))
  }

  /** So committing it has the effect it would have had alone, at the moment of the commit. */
  lemma CommitIsAtomic(db: Db, tx: Tx, w: Work)
    requires Current(db, tx, w) && w.done == Statements(tx)
    ensures Alone(db, tx) == Some(Install(db, tx, w))
  {
    match tx
    case Move(sender, receiver, amount, _) =>
      SetIsAdd(db.wallets, sender, w.debited);
      SetIsAdd(SetBalance(db.wallets, sender, w.debited), receiver, w.credited);
    case Hold(_, buyer, _, _) =>
      SetIsAdd(db.wallets, buyer, w.debited);
    case Settle(_, outcome, _) =>
      SetIsAdd(db.wallets, Payee(w.escrow.value, outcome), w.credited);
  }

  lemma ExecuteIsCurrent(db: Db, tx: Tx, w: Work)
    requires Current(db, tx, w) && w.done < Statements(tx) && Execute(db, tx, w).Some?
    ensures Current(db, tx, Execute(db, tx, w).value)
    ensures Touched(tx, Execute(db, tx, w).value)
            == Touched(tx, w) + if NextRow(tx, w).Some? then {NextRow(tx, w).value} else {}
  {
    if tx.Move? && w.done == 1 {
      SetIsAdd(db.wallets, tx.sender, w.debited);
      AddToBalances(db.wallets, tx.sender, -tx.amount, tx.receiver);
    }
  }

  /** A commit changes only rows its transaction has touched. */
  lemma InstallElsewhere(db: Db, tx: Tx, w: Work, u: Uuid, id: Uuid)
    requires Current(db, tx, w) && w.done == Statements(tx)
    ensures WalletRow(u) !in Touched(tx, w) ==> BalanceOf(Install(db, tx, w).wallets, u) == BalanceOf(db.wallets, u)
    ensures EscrowRow(id) !in Touched(tx, w) ==> Find(Install(db, tx, w).escrows, id) == Find(db.escrows, id)
    ensures Install(db, tx, w).users == db.users
  {
    CommitIsAtomic(db, tx, w);
    match tx
    case Move(sender, receiver, amount, _) =>
      AddToBalances(db.wallets, sender, -amount, u);
      AddToBalances(AddTo(db.wallets, sender, -amount), receiver, amount, u);
    case Hold(_, buyer, _, amount) =>
      AddToBalances(db.wallets, buyer, -amount, u);
    case Settle(mine, outcome, _) =>
      AddToBalances(db.wallets, Payee(w.escrow.value, outcome), w.escrow.value.amount, u);
      SetStatusFinds(db.escrows, mine, outcome, id);
  }

  /** Two databases that agree on the rows a transaction has touched. */
  ghost predicate Agree(db: Db, db': Db, rows: set<RowKey>) {
    && db'.users == db.users
    && (forall u | WalletRow(u) in rows :: BalanceOf(db'.wallets, u) == BalanceOf(db.wallets, u))
    && (forall id | EscrowRow(id) in rows :: Find(db'.escrows, id) == Find(db.escrows, id))
  }

  lemma CurrentElsewhere(db: Db, db': Db, tx: Tx, w: Work)
    requires Current(db, tx, w) && Agree(db, db', Touched(tx, w))
    ensures Current(db', tx, w)
  {
    if tx.Move? && w.done >= 2 {
      assert WalletRow(tx.sender) in Touched(tx, w) && WalletRow(tx.receiver) in Touched(tx, w);
      SetIsAdd(db.wallets, tx.sender, w.debited);
      SetIsAdd(db'.wallets, tx.sender, w.debited);
      AddToBalances(db.wallets, tx.sender, -tx.amount, tx.receiver);
      AddToBalances(db'.wallets, tx.sender, -tx.amount, tx.receiver);
    } else if w.done >= 1 {
      match tx
      case Move(sender, _, _, _) => assert WalletRow(sender) in Touched(tx, w);
      case Hold(id, buyer, _, _) =>
        assert WalletRow(buyer) in Touched(tx, w);
        assert w.done >= 2 ==> EscrowRow(id) in Touched(tx, w);
      case Settle(id, outcome, _) =>
        assert EscrowRow(id) in Touched(tx, w);
        assert w.done >= 2 ==> WalletRow(Payee(w.escrow.value, outcome)) in Touched(tx, w);
    }
  }

  /** An open transaction is current and holds the locks of the rows it has touched. */
  ghost predicate Isolated(s: Sys, id: nat)
    requires id in s.requests
  {
    && Callable(s.requests[id].op)
    && (s.requests[id].phase.Open? ==>
          var Open(tx, w) := s.requests[id].phase;
          Current(s.db, tx, w) && Owns(s.locks, id, Touched(tx, w)))
  }

  predicate Owns(locks: map<RowKey, nat>, id: nat, rows: set<RowKey>) {
    forall k | k in rows :: k in locks && locks[k] == id
  }

  ghost predicate AllIsolated(s: Sys) {
    forall id | id in s.requests :: Isolated(s, id)
  }

  lemma EndIsolated(s: Sys, id: nat, ok: bool, applied: Option<Tx>)
    requires AllIsolated(s) && id in s.requests
    ensures AllIsolated(End(s, id, ok, applied))
  {
    var s' := End(s, id, ok, applied);
    forall i | i in s'.requests ensures Isolated(s', i) {
      assert Isolated(s, i);
    }
  }

  lemma StatementIsolated(s: Sys, id: nat)
    requires AllIsolated(s) && id in s.requests && s.requests[id].phase.Open?
    ensures AllIsolated(DoStatement(s, id, s.requests[id].phase.tx, s.requests[id].phase.work))
  {
    hide Current, Execute, NextRow, Touched, Statements;
    var Open(tx, w) := s.requests[id].phase;
    assert Isolated(s, id);
    var key := NextRow(tx, w);
    if w.done >= Statements(tx) || (key.Some? && key.value in s.locks && s.locks[key.value] != id) {
    } else if Execute(s.db, tx, w).None? {
      EndIsolated(s, id, false, None);
    } else {
      ExecuteIsCurrent(s.db, tx, w);
      var s' := DoStatement(s, id, tx, w);
      forall i | i in s'.requests ensures Isolated(s', i) {
        assert Isolated(s, i);
      }
    }
  }

  lemma CommitLeavesOthers(s: Sys, id: nat, other: nat)
    requires AllIsolated(s) && id in s.requests && s.requests[id].phase.Open?
    requires var Open(tx, w) := s.requests[id].phase; w.done == Statements(tx)
    requires other in s.requests && other != id && s.requests[other].phase.Open?
    ensures var Open(tx, w) := s.requests[id].phase;
            Current(Install(s.db, tx, w), s.requests[other].phase.tx, s.requests[other].phase.work)
  {
    var Open(tx, w) := s.requests[id].phase;
    var Open(tx', w') := s.requests[other].phase;
    assert Isolated(s, id) && Isolated(s, other);
    var db' := Install(s.db, tx, w);
    InstallElsewhere(s.db, tx, w, 0, 0);
    forall u | WalletRow(u) in Touched(tx', w') ensures BalanceOf(db'.wallets, u) == BalanceOf(s.db.wallets, u) {
      InstallElsewhere(s.db, tx, w, u, 0);
    }
    forall e | EscrowRow(e) in Touched(tx', w') ensures Find(db'.escrows, e) == Find(s.db.escrows, e) {
      InstallElsewhere(s.db, tx, w, 0, e);
    }
    CurrentElsewhere(s.db, db', tx', w');
  }

  lemma CommitIsolated(ids: Ids, s: Sys, id: nat, answerLost: bool)
    requires AllIsolated(s)
    ensures AllIsolated(Step(ids, s, Commit(id, answerLost)))
  {
    var s' := Step(ids, s, Commit(id, answerLost));
    if id in s.requests && s.requests[id].phase.Open?
        && s.requests[id].phase.work.done >= Statements(s.requests[id].phase.tx) {
      assert Isolated(s, id);
      forall i | i in s'.requests ensures Isolated(s', i) {
        assert Isolated(s, i);
        if i != id && s.requests[i].phase.Open? {
          CommitLeavesOthers(s, id, i);
        }
      }
    }
  }

  lemma StepIsolated(ids: Ids, s: Sys, e: Event)
    requires AllIsolated(s)
    ensures AllIsolated(Step(ids, s, e))
  {
    var s' := Step(ids, s, e);
    match e
    case Commit(id, answerLost) => CommitIsolated(ids, s, id, answerLost);
    case Statement(id) => if id in s.requests && s.requests[id].phase.Open? { StatementIsolated(s, id); }
    case Submit(id, op) =>
      forall i | i in s'.requests ensures Isolated(s', i) {
        assert i in s.requests ==> Isolated(s, i);
      }
    case _ =>
      if e.id in s.requests {
        EndIsolated(s, e.id, false, None);
        forall i | i in s'.requests ensures Isolated(s', i) {
          assert Isolated(s, i) && Isolated(End(s, e.id, false, None), i);
        }
      }
  }

  /** The transactions one after the other, each alone. */
  function Serial(db: Db, log: Run<Committed>): Option<Db> {
    match log
    case Start => Some(db)
    case Then(past, c) =>
      match Serial(db, past)
      case None => None
      case Some(before) => Alone(before, c.tx)
  }

  /**
   Whatever the interleaving of checks, statements, aborts and commits, the committed
   tables are what the committed transactions would have made of them one at a time,
   in the order of their commits; aborted ones leave no trace.
   */
  lemma {:induction false} Serializable(ids: Ids, db: Db, run: Run<Event>)
    ensures AllIsolated(After(ids, db, run))
    ensures var s := After(ids, db, run); Serial(db, s.log) == Some(s.db)
  {
    if run.Then? {
      var s := After(ids, db, run.past);
      Serializable(ids, db, run.past);
      StepIsolated(ids, s, run.last);
      CommitSerial(ids, db, s, run.last);
    }
  }

  lemma CommitSerial(ids: Ids, db: Db, s: Sys, e: Event)
    requires AllIsolated(s) && Serial(db, s.log) == Some(s.db)
    ensures var s' := Step(ids, s, e); Serial(db, s'.log) == Some(s'.db)
  {
    if e.Commit? && e.id in s.requests && s.requests[e.id].phase.Open? {
      var Open(tx, w) := s.requests[e.id].phase;
      assert Isolated(s, e.id);
      if w.done >= Statements(tx) {
        CommitIsAtomic(s.db, tx, w);
      }
    }
  }

  // ---------------------------------------------------------------- reconciliation

  predicate Proper(tx: Tx) {
    match tx
    case Move(_, _, amount, kind) => 0 < amount && kind != EscrowRefund
    case Hold(_, _, _, amount) => 0 < amount <= MAX_INT32
    case Settle(_, _, _) => true
  }

  predicate AllProper(log: Run<Committed>) {
    log.Then? ==> AllProper(log.past) && Proper(log.last.tx)
  }

  lemma {:induction false} SerialConserves(db: Db, log: Run<Committed>, u: Uuid)
    requires Solvent(db) && AllProper(log) && Serial(db, log).Some?
    ensures Conserves(db, Serial(db, log).value, u)
  {
    if log.Then? {
      SerialConserves(db, log.past, u);
      var before := Serial(db, log.past).value;
      match log.last.tx
      case Move(sender, receiver, amount, kind) => TransferConserves(before, sender, receiver, amount, kind, "", u);
      case Hold(id, buyer, seller, amount) => HoldConserves(before, id, buyer, seller, amount, u);
      case Settle(id, outcome, reference) =>
        if outcome == Released {
          ReleaseConserves(before, id, reference, u);
        } else {
          RefundConserves(before, id, reference, u);
        }
    }
  }

  predicate OpenProper(r: Request) {
    Callable(r.op) && (r.phase.Open? ==> Proper(r.phase.tx))
  }

  lemma {:induction false} LogProper(ids: Ids, db: Db, run: Run<Event>)
    ensures var s := After(ids, db, run);
            AllProper(s.log) && forall id | id in s.requests :: OpenProper(s.requests[id])
  {
    if run.Then? {
      LogProper(ids, db, run.past);
      StepProper(ids, After(ids, db, run.past), run.last);
    }
  }

  lemma StepProper(ids: Ids, s: Sys, e: Event)
    requires AllProper(s.log) && forall id | id in s.requests :: OpenProper(s.requests[id])
    ensures var s' := Step(ids, s, e);
            AllProper(s'.log) && forall id | id in s'.requests :: OpenProper(s'.requests[id])
  {
    hide Execute, Install, NextRow, MaySettle, Parse;
  }

  /**
   On every run: each user's wallet balance plus what they have paid into held escrows
   is what they started with plus the net of their ledger rows; the money in wallets and
   held escrows together never changes; and no balance is ever negative.
   */
  lemma Reconciles(ids: Ids, db: Db, run: Run<Event>, u: Uuid)
    requires Solvent(db)
    ensures var now := After(ids, db, run).db;
            && Account(now, u) == Account(db, u) && Money(now) == Money(db) && Solvent(now)
            && (db.escrows == Start && db.ledger == Start ==>
                  Balance(now.wallets, u) + HeldBy(now.escrows, u) == Balance(db.wallets, u) + Net(now.ledger, u))
  {
    Serializable(ids, db, run);
    LogProper(ids, db, run);
    SerialConserves(db, After(ids, db, run).log, u);
  }
}
