/**
 What becomes of an escrow on any interleaved run of the finance service: it is
 settled at most once, pays out exactly once, and only the right party can cause it.
 */
module EscrowSettlement {
  import opened Ledger
  import opened FinanceService
  import opened Wrappers

  /** Trimming does not change what an already readable id says. */
  ghost predicate TrimAgrees(ids: Ids) {
    forall s | ids.scan(s).Some? :: Parse(ids, s) == ids.scan(s)
  }

  // ---------------------------------------------------------------- lifecycle

  /** Parties and amount never change, and only a held escrow changes its status. */
  predicate Succeeds(before: Option<Escrow>, after: Option<Escrow>) {
    before.Some? ==>
      && after.Some?
      && after.value.(status := before.value.status) == before.value
      && (before.value.status == Held || after == before)
  }

  lemma AloneSucceeds(db: Db, tx: Tx, id: Uuid)
    requires Alone(db, tx).Some?
    ensures Succeeds(Find(db.escrows, id), Find(Alone(db, tx).value.escrows, id))
  {
    if tx.Settle? {
      SetStatusFinds(db.escrows, tx.id, tx.outcome, id);
      SetStatusFinds(db.escrows, tx.id, Refunded, id);
    }
  }

  /** One step of the system moves each escrow only held -> released or held -> refunded. */
  lemma EscrowOnlySettles(ids: Ids, db: Db, run: Run<Event>, e: Event, id: Uuid)
    ensures Succeeds(Find(After(ids, db, run).db.escrows, id), Find(After(ids, db, Then(run, e)).db.escrows, id))
  {
    Serializable(ids, db, run);
    var s := After(ids, db, run);
    if e.Commit? && e.id in s.requests && s.requests[e.id].phase.Open? {
      var Open(tx, w) := s.requests[e.id].phase;
      assert Isolated(s, e.id);
      if w.done >= Statements(tx) {
        CommitIsAtomic(s.db, tx, w);
        AloneSucceeds(s.db, tx, id);
      }
    }
  }

  // ---------------------------------------------------------------- paid out exactly once

  predicate IsPayout(ids: Ids, r: Row, id: Uuid) {
    (r.kind == EscrowRelease || r.kind == EscrowRefund) && Parse(ids, r.reference) == Some(id)
  }

  /** The ledger rows that record a payout of escrow `id`, without their references. */
  function Payouts(ids: Ids, rows: Run<Row>, id: Uuid): Run<Row> {
    match rows
    case Start => Start
    case Then(past, r) =>
      if IsPayout(ids, r, id) then Then(Payouts(ids, past, id), r.(reference := "")) else Payouts(ids, past, id)
  }

  /** The one payout an escrow's status stands for: to the seller on release, back to the buyer on refund. */
  function Expected(e: Option<Escrow>): Run<Row> {
    match e
    case None => Start
    case Some(e) =>
      match e.status
      case Held => Start
      case Released => Then(Start, Row(e.buyer, e.seller, e.amount, EscrowRelease, ""))
      case Refunded => Then(Start, Row(e.seller, e.buyer, e.amount, EscrowRefund, ""))
  }

  predicate Referenced(ids: Ids, tx: Tx) {
    match tx
    case Move(_, _, _, kind) => kind != EscrowRelease && kind != EscrowRefund
    case Hold(_, _, _, _) => true
    case Settle(id, outcome, reference) => outcome != Held && Parse(ids, reference) == Some(id)
  }

  predicate AllReferenced(ids: Ids, log: Run<Committed>) {
    log.Then? ==> AllReferenced(ids, log.past) && Referenced(ids, log.last.tx)
  }

  lemma AlonePaysExpected(ids: Ids, db: Db, tx: Tx, id: Uuid)
    requires Referenced(ids, tx) && Alone(db, tx).Some?
    requires Payouts(ids, db.ledger, id) == Expected(Find(db.escrows, id))
    ensures var db' := Alone(db, tx).value; Payouts(ids, db'.ledger, id) == Expected(Find(db'.escrows, id))
  {
    if tx.Settle? {
      SetStatusFinds(db.escrows, tx.id, tx.outcome, id);
    }
  }

  lemma {:induction false} SerialPaysExpected(ids: Ids, db: Db, log: Run<Committed>, id: Uuid)
    requires AllReferenced(ids, log) && Serial(db, log).Some?
    requires Payouts(ids, db.ledger, id) == Expected(Find(db.escrows, id))
    ensures var now := Serial(db, log).value; Payouts(ids, now.ledger, id) == Expected(Find(now.escrows, id))
  {
    if log.Then? {
      SerialPaysExpected(ids, db, log.past, id);
      AlonePaysExpected(ids, Serial(db, log.past).value, log.last.tx, id);
    }
  }

  predicate OpenReferenced(ids: Ids, r: Request) {
    Callable(r.op) && (r.phase.Open? ==> Prepare(ids, r.op) == Some(r.phase.tx))
  }

  lemma StepReferenced(ids: Ids, s: Sys, e: Event)
    requires AllReferenced(ids, s.log) && forall id | id in s.requests :: OpenReferenced(ids, s.requests[id])
    ensures var s' := Step(ids, s, e);
            AllReferenced(ids, s'.log) && forall id | id in s'.requests :: OpenReferenced(ids, s'.requests[id])
  {
    hide Execute, Install, MaySettle, NextRow, Statements;
  }

  lemma {:induction false} LogReferenced(ids: Ids, db: Db, run: Run<Event>)
    ensures var s := After(ids, db, run);
            AllReferenced(ids, s.log) && forall id | id in s.requests :: OpenReferenced(ids, s.requests[id])
  {
    if run.Then? {
      LogReferenced(ids, db, run.past);
      StepReferenced(ids, After(ids, db, run.past), run.last);
    }
  }

  /**
   On every run the ledger holds no payout of an escrow that is held (or does not
   exist), exactly one of one that is released, to the seller, and exactly one of one
   that is refunded, to the buyer; each for the full amount.
   */
  lemma PaidOutExactlyOnce(ids: Ids, db: Db, run: Run<Event>, id: Uuid)
    requires db.escrows == Start && db.ledger == Start
    ensures var now := After(ids, db, run).db; Payouts(ids, now.ledger, id) == Expected(Find(now.escrows, id))
  {
    Serializable(ids, db, run);
    LogReferenced(ids, db, run);
    SerialPaysExpected(ids, db, After(ids, db, run).log, id);
  }

  // ---------------------------------------------------------------- who caused it

  function Party(e: Escrow, outcome: Status): Uuid {
    if outcome == Released then e.buyer else e.seller
  }

  /** The user a settlement was asked for by is the party that may ask for it. */
  predicate Authorized(ids: Ids, db: Db, op: Op) {
    op.SettleEscrow? ==>
      && ids.scan(op.escrowId).Some?
      && var found := Find(db.escrows, ids.scan(op.escrowId).value);
         found.Some? && ids.show(Party(found.value, op.outcome)) == op.user
  }

  predicate RequestAuthorized(ids: Ids, db: Db, r: Request) {
    && (r.phase.Checked? || r.phase.Open? || (r.phase.Done? && r.phase.applied.Some?) ==> Authorized(ids, db, r.op))
    && (r.phase.Open? ==> Prepare(ids, r.op) == Some(r.phase.tx))
    && (r.phase.Done? && r.phase.applied.Some? ==> Prepare(ids, r.op) == r.phase.applied)
  }

  ghost predicate AllAuthorized(ids: Ids, s: Sys) {
    forall id | id in s.requests :: RequestAuthorized(ids, s.db, s.requests[id])
  }

  lemma {:induction false} AlwaysAuthorized(ids: Ids, db: Db, run: Run<Event>)
    ensures AllAuthorized(ids, After(ids, db, run))
  {
    if run.Then? {
      var s, s' := After(ids, db, run.past), After(ids, db, run);
      AlwaysAuthorized(ids, db, run.past);
      forall i | i in s'.requests ensures RequestAuthorized(ids, s'.db, s'.requests[i]) {
        StepAuthorized(ids, db, run.past, run.last, i);
      }
    }
  }

  /** What one step can make of a request. */
  predicate Follows(ids: Ids, db: Db, r: Request, r': Request) {
    r' == r || (r'.op == r.op &&
      match r'.phase {
        case Waiting => false
        case Checked => r.op.SettleEscrow? && MaySettle(ids, db, r.op.outcome, r.op.escrowId, r.op.user)
        case Open(tx, _) =>
          if r.phase.Open? then r.phase.tx == tx
          else r.phase.Checked? && Prepare(ids, r.op) == Some(tx)
        case Done(_, applied) => applied.None? || (r.phase.Open? && applied == Some(r.phase.tx))
      })
  }

  lemma RequestFollows(ids: Ids, s: Sys, e: Event, i: nat)
    requires i in Step(ids, s, e).requests
    ensures var r' := Step(ids, s, e).requests[i];
            if i in s.requests then Follows(ids, s.db, s.requests[i], r')
            else r'.phase == if r'.op.SettleEscrow? then Waiting else Checked
  {
    hide Execute, Install, NextRow, Statements, Prepare, MaySettle;
  }

  lemma StepAuthorized(ids: Ids, db: Db, run: Run<Event>, e: Event, i: nat)
    requires AllAuthorized(ids, After(ids, db, run))
    requires i in After(ids, db, Then(run, e)).requests
    ensures var s' := After(ids, db, Then(run, e)); RequestAuthorized(ids, s'.db, s'.requests[i])
  {
    var s, s' := After(ids, db, run), After(ids, db, Then(run, e));
    var op := s'.requests[i].op;
    if op.SettleEscrow? && ids.scan(op.escrowId).Some? {
      EscrowOnlySettles(ids, db, run, e, ids.scan(op.escrowId).value);
    }
    RequestFollows(ids, s, e, i);
    hide Step, Prepare, Parse;
    assert i in s.requests ==> RequestAuthorized(ids, s.db, s.requests[i]);
  }

  /** The committed settlements of escrow `id`. */
  function Settlements(log: Run<Committed>, id: Uuid): Run<Committed> {
    match log
    case Start => Start
    case Then(past, c) =>
      if c.tx.Settle? && c.tx.id == id then Then(Settlements(past, id), c) else Settlements(past, id)
  }

  /** At most one settlement commits, and the status is its outcome. */
  predicate SettledLike(e: Option<Escrow>, settlements: Run<Committed>) {
    if e.None? || e.value.status == Held then settlements == Start
    else settlements.Then? && settlements.past == Start && settlements.last.tx.Settle?
         && settlements.last.tx.outcome == e.value.status
  }

  lemma {:induction false} SerialSettlesOnce(ids: Ids, db: Db, log: Run<Committed>, id: Uuid)
    requires db.escrows == Start && AllReferenced(ids, log) && Serial(db, log).Some?
    ensures SettledLike(Find(Serial(db, log).value.escrows, id), Settlements(log, id))
  {
    if log.Then? {
      SerialSettlesOnce(ids, db, log.past, id);
      var before, tx := Serial(db, log.past).value, log.last.tx;
      AloneSucceeds(before, tx, id);
      if tx.Settle? {
        SetStatusFinds(before.escrows, tx.id, tx.outcome, id);
      }
    }
  }

  /** A request is done with a committed transaction exactly when the log has that entry for it. */
  ghost predicate LogIsRequests(s: Sys) {
    && (forall id | id in s.requests && s.requests[id].phase.Done? && s.requests[id].phase.applied.Some? ::
          Occurs(s.log, Committed(id, s.requests[id].phase.applied.value)))
    && (forall c | Occurs(s.log, c) ::
          c.request in s.requests && s.requests[c.request].phase.Done?
              && s.requests[c.request].phase.applied == Some(c.tx))
  }

  lemma StepLogIsRequests(ids: Ids, s: Sys, e: Event)
    requires LogIsRequests(s)
    ensures LogIsRequests(Step(ids, s, e))
  {
    hide Execute, Install, MaySettle, NextRow, Statements, Prepare;
    var s' := Step(ids, s, e);
    forall c | Occurs(s'.log, c)
      ensures c.request in s'.requests && s'.requests[c.request].phase.Done?
          && s'.requests[c.request].phase.applied == Some(c.tx)
    {
      assert Occurs(s.log, c) || (s'.log != s.log && c == s'.log.last);
    }
  }

  lemma {:induction false} AlwaysLogIsRequests(ids: Ids, db: Db, run: Run<Event>)
    ensures LogIsRequests(After(ids, db, run))
  {
    if run.Then? {
      AlwaysLogIsRequests(ids, db, run.past);
      StepLogIsRequests(ids, After(ids, db, run.past), run.last);
    }
  }

  lemma {:induction false} SettlementsFromLog(log: Run<Committed>, id: Uuid, c: Committed)
    ensures Occurs(Settlements(log, id), c) <==> Occurs(log, c) && c.tx.Settle? && c.tx.id == id
  {
    if log.Then? {
      SettlementsFromLog(log.past, id, c);
    }
  }

  predicate Applied(s: Sys, r: nat, id: Uuid) {
    && r in s.requests && s.requests[r].phase.Done? && s.requests[r].phase.applied.Some?
    && s.requests[r].phase.applied.value.Settle? && s.requests[r].phase.applied.value.id == id
  }

  /**
   An escrow that is held, or that nobody created, has been settled by no request; one
   that is not held has been settled by exactly one, which asked for just that outcome:
   a release for the buyer, a refund for the seller.
   */
  lemma SettledOnceByRightParty(ids: Ids, db: Db, run: Run<Event>, id: Uuid) returns (r: nat)
    requires TrimAgrees(ids) && db.escrows == Start
    ensures var s := After(ids, db, run);
            var found := Find(s.db.escrows, id);
            if found.None? || found.value.status == Held then
              forall q :: !Applied(s, q, id)
            else
              && (forall q :: Applied(s, q, id) <==> q == r)
              && r in s.requests && AskedBy(ids, s.requests[r].op, id, found.value)
  {
    var s := After(ids, db, run);
    Serializable(ids, db, run);
    LogReferenced(ids, db, run);
    AlwaysLogIsRequests(ids, db, run);
    AlwaysAuthorized(ids, db, run);
    SerialSettlesOnce(ids, db, s.log, id);
    var settlements := Settlements(s.log, id);
    r := if settlements.Then? then settlements.last.request else 0;
    forall q ensures Applied(s, q, id) <==> settlements.Then? && q == r {
      AppliedIsLogged(s, q, r, id);
    }
    if settlements.Then? {
      assert Applied(s, r, id);
      SettlementsFromLog(s.log, id, settlements.last);
      ApplierIsParty(ids, s, r, id);
    }
  }

  /** A settlement with this outcome, asked for by the party that may. */
  predicate AskedBy(ids: Ids, op: Op, id: Uuid, e: Escrow) {
    && op.SettleEscrow? && op.outcome == e.status && ids.scan(op.escrowId) == Some(id)
    && op.user == ids.show(Party(e, e.status))
  }

  lemma ApplierIsParty(ids: Ids, s: Sys, r: nat, id: Uuid)
    requires TrimAgrees(ids) && AllAuthorized(ids, s) && Applied(s, r, id)
    requires Find(s.db.escrows, id).Some?
        && s.requests[r].phase.applied.value.outcome == Find(s.db.escrows, id).value.status
    ensures AskedBy(ids, s.requests[r].op, id, Find(s.db.escrows, id).value)
  {
    assert RequestAuthorized(ids, s.db, s.requests[r]);
  }

  lemma AppliedIsLogged(s: Sys, q: nat, r: nat, id: Uuid)
    requires LogIsRequests(s)
    requires var st := Settlements(s.log, id); st.Then? ==> st.past == Start && r == st.last.request
    ensures Applied(s, q, id) <==> Settlements(s.log, id).Then? && q == r
  {
    var st := Settlements(s.log, id);
    if Applied(s, q, id) {
      SettlementsFromLog(s.log, id, Committed(q, s.requests[q].phase.applied.value));
    }
    if st.Then? {
      SettlementsFromLog(s.log, id, st.last);
    }
  }
}
