/**
 What a caller of the finance service gets for what it asked: on every interleaved run
 each request that went through changed the tables exactly once, just as its own words
 say, and nothing else ever changes them; and a request that runs undisturbed goes
 through exactly under conditions on its words and the tables.
 */
module Payments {
  import opened EscrowSettlement
  import opened FinanceService
  import opened Ledger
  import opened Wrappers

  /** `db'` is `db` after what `op` asks for, in the terms of its caller. */
  ghost predicate Performed(ids: Ids, op: Op, db: Db, db': Db) {
    match op
    case Pay(kind, from, to, amount) =>
      && Parse(ids, from).Some? && Parse(ids, to).Some? && 0 < amount
      && CanPay(db.wallets, Parse(ids, from).value, Parse(ids, to).value, amount)
      && Paid(db, db', Parse(ids, from).value, Parse(ids, to).value, amount, kind, "")
    case InitiateEscrow(buyer, seller, amount, newId) =>
      && Parse(ids, buyer).Some? && Parse(ids, seller).Some? && 0 < amount <= MAX_INT32
      && CanHold(db, newId, Parse(ids, buyer).value, Parse(ids, seller).value, amount)
      && PutInEscrow(db, db', newId, Parse(ids, buyer).value, Parse(ids, seller).value, amount)
    case SettleEscrow(outcome, escrowId, _) =>
      && Parse(ids, escrowId).Some? && CanSettle(db, Parse(ids, escrowId).value, outcome)
      && PaidOut(db, db', Parse(ids, escrowId).value, outcome, escrowId)
  }

  lemma AlonePerforms(ids: Ids, op: Op, db: Db, tx: Tx)
    requires Callable(op) && Prepare(ids, op) == Some(tx) && Alone(db, tx).Some?
    ensures Performed(ids, op, db, Alone(db, tx).value)
  {
    match tx
    case Move(sender, receiver, amount, kind) => TransferPaysExactlyWhen(db, sender, receiver, amount, kind, "");
    case Hold(id, buyer, seller, amount) => HoldHoldsExactlyWhen(db, id, buyer, seller, amount);
    case Settle(id, outcome, reference) => SettlesExactlyWhen(db, id, outcome, reference);
  }

  // ---------------------------------------------------------------- once each, as asked

  predicate Applied(s: Sys, r: nat) {
    r in s.requests && s.requests[r].phase.Done? && s.requests[r].phase.applied.Some?
  }

  /** The last event of `run` changed the committed tables. */
  predicate Writes(ids: Ids, db: Db, run: Run<Event>) {
    run.Then? && After(ids, db, run).db != After(ids, db, run.past).db
  }

  predicate WritesFor(ids: Ids, db: Db, run: Run<Event>, r: nat) {
    Writes(ids, db, run) && run.last.Commit? && run.last.id == r
  }

  /** Requests that have gone through stay so, and keep their words. */
  lemma StaysApplied(ids: Ids, s: Sys, e: Event, r: nat)
    requires r in s.requests
    ensures var s' := Step(ids, s, e);
            && r in s'.requests && s'.requests[r].op == s.requests[r].op
            && (Applied(s, r) ==> s'.requests[r] == s.requests[r])
  {
    hide Execute, Install, NextRow, Statements, Prepare, MaySettle;
  }

  /** The one way to change the tables, and to become applied. */
  lemma WriteIsCommit(ids: Ids, s: Sys, e: Event, r: nat)
    ensures var s' := Step(ids, s, e);
            && (Applied(s', r) && !Applied(s, r) ==>
                  r in s.requests && Commits(s, e) && e.id == r && s'.requests[r].phase.ok == !e.answerLost)
            && (s'.db != s.db ==> Commits(s, e) && !Applied(s, e.id) && Applied(s', e.id))
            && (Commits(s, e) ==> s'.db == Install(s.db, s.requests[e.id].phase.tx, s.requests[e.id].phase.work))
  {
    hide Execute, Install, NextRow, Prepare, MaySettle;
  }

  predicate Commits(s: Sys, e: Event) {
    && e.Commit? && e.id in s.requests && s.requests[e.id].phase.Open?
    && s.requests[e.id].phase.work.done >= Statements(s.requests[e.id].phase.tx)
  }

  lemma CommitPerforms(ids: Ids, db: Db, run: Run<Event>, e: Event)
    requires Commits(After(ids, db, run), e)
    ensures var s, s' := After(ids, db, run), After(ids, db, Then(run, e));
            Performed(ids, s.requests[e.id].op, s.db, s'.db) && s'.db != s.db
  {
    Serializable(ids, db, run);
    LogReferenced(ids, db, run);
    hide Performed, Step, Current, Prepare;
    WriteIsCommit(ids, After(ids, db, run), e, e.id);
    InstallPerforms(ids, After(ids, db, run), e);
  }

  lemma InstallPerforms(ids: Ids, s: Sys, e: Event)
    requires Commits(s, e) && Isolated(s, e.id) && OpenReferenced(ids, s.requests[e.id])
    ensures var db' := Install(s.db, s.requests[e.id].phase.tx, s.requests[e.id].phase.work);
            Performed(ids, s.requests[e.id].op, s.db, db') && db' != s.db
  {
    assert s.requests[e.id].phase.work.done == Statements(s.requests[e.id].phase.tx);
    hide Performed, Prepare, Install, Alone, Statements;
    var Open(tx, w) := s.requests[e.id].phase;
    CommitIsAtomic(s.db, tx, w);
    AlonePerforms(ids, s.requests[e.id].op, s.db, tx);
    PerformedChanges(ids, s.requests[e.id].op, s.db, Alone(s.db, tx).value);
  }

  lemma PerformedChanges(ids: Ids, op: Op, db: Db, db': Db)
    requires Performed(ids, op, db, db')
    ensures db' != db
  {
    assert Length(db'.ledger) != Length(db.ledger) || Length(db'.escrows) != Length(db.escrows);
  }

  /**
   A request that has gone through did so at one moment of the run: the tables just after
   are those just before with what it asked for done, and it changed them at no other.  Its
   caller is told of success unless the answer to that commit was lost.
   */
  lemma {:induction false} AppliedOnceAsAsked(ids: Ids, db: Db, run: Run<Event>, r: nat) returns (moment: Run<Event>)
    requires Applied(After(ids, db, run), r)
    ensures IsPrefix(moment, run) && WritesFor(ids, db, moment, r)
    ensures Performed(ids, After(ids, db, run).requests[r].op,
                      After(ids, db, moment.past).db, After(ids, db, moment).db)
    ensures After(ids, db, run).requests[r].phase.ok == !moment.last.answerLost
    ensures forall other :: IsPrefix(other, run) && WritesFor(ids, db, other, r) ==> other == moment
  {
    hide Performed, Step;
    var s := After(ids, db, run.past);
    WriteIsCommit(ids, s, run.last, r);
    if r in s.requests {
      StaysApplied(ids, s, run.last, r);
    }
    if Applied(s, r) {
      moment := AppliedOnceAsAsked(ids, db, run.past, r);
    } else {
      moment := run;
      CommitPerforms(ids, db, run.past, run.last);
      forall other | IsPrefix(other, run) && WritesFor(ids, db, other, r) ensures other == run {
        if other != run {
          WriterStaysApplied(ids, db, other, run.past);
        }
      }
    }
  }

  lemma {:induction false} WriterStaysApplied(ids: Ids, db: Db, early: Run<Event>, run: Run<Event>)
    requires IsPrefix(early, run) && Writes(ids, db, early)
    ensures early.last.Commit? && Applied(After(ids, db, run), early.last.id)
  {
    hide Step;
    var s := After(ids, db, run.past);
    WriteIsCommit(ids, s, run.last, 0);
    if early != run {
      WriterStaysApplied(ids, db, early, run.past);
      StaysApplied(ids, s, run.last, early.last.id);
    }
  }

  /** Whatever changed the tables was the commit of a request that has gone through. */
  lemma OnlyAppliedRequestsWrite(ids: Ids, db: Db, run: Run<Event>, moment: Run<Event>)
    requires IsPrefix(moment, run) && Writes(ids, db, moment)
    ensures moment.last.Commit? && Applied(After(ids, db, run), moment.last.id)
    ensures Performed(ids, After(ids, db, run).requests[moment.last.id].op,
                      After(ids, db, moment.past).db, After(ids, db, moment).db)
  {
    hide Performed, Step;
    WriterStaysApplied(ids, db, moment, run);
    var m := AppliedOnceAsAsked(ids, db, run, moment.last.id);
    assert m == moment;
  }

  /** A caller that is told of success has had what it asked for. */
  lemma {:induction false} SuccessIsApplied(ids: Ids, db: Db, run: Run<Event>, r: nat)
    requires var s := After(ids, db, run);
             r in s.requests && s.requests[r].phase.Done? && s.requests[r].phase.ok
    ensures Applied(After(ids, db, run), r)
  {
    hide Execute, Install, NextRow, Prepare, MaySettle, Statements;
    var s := After(ids, db, run.past);
    if r in s.requests && s.requests[r].phase.Done? && s.requests[r].phase.ok {
      SuccessIsApplied(ids, db, run.past, r);
    }
  }

  // ---------------------------------------------------------------- when a request goes through

  /** What the caller must have asked and what the tables must hold. */
  predicate GoesThrough(ids: Ids, db: Db, op: Op) {
    match op
    case Pay(kind, from, to, amount) =>
      && 0 < amount && from != to && (kind == Transfer ==> from != "" && to != "")
      && Parse(ids, from).Some? && Parse(ids, to).Some?
      && CanPay(db.wallets, Parse(ids, from).value, Parse(ids, to).value, amount)
    case InitiateEscrow(buyer, seller, amount, newId) =>
      && 0 < amount <= MAX_INT32 && buyer != seller && buyer != "" && seller != ""
      && Parse(ids, buyer).Some? && Parse(ids, seller).Some?
      && CanHold(db, newId, Parse(ids, buyer).value, Parse(ids, seller).value, amount)
    case SettleEscrow(outcome, escrowId, user) =>
      && ids.scan(escrowId).Some? && Find(db.escrows, ids.scan(escrowId).value).Some?
      && (var e := Find(db.escrows, ids.scan(escrowId).value).value;
          e.status == Held && user == ids.show(if outcome == Released then e.buyer else e.seller))
      && Parse(ids, escrowId).Some? && CanSettle(db, Parse(ids, escrowId).value, outcome)
  }

  lemma AloneExactlyWhen(ids: Ids, db: Db, op: Op)
    requires Callable(op)
    ensures GoesThrough(ids, db, op)
            <==> (op.SettleEscrow? ==> MaySettle(ids, db, op.outcome, op.escrowId, op.user))
                 && Prepare(ids, op).Some? && Alone(db, Prepare(ids, op).value).Some?
  {
    match Prepare(ids, op)
    case None =>
    case Some(Move(sender, receiver, amount, kind)) =>
      TransferPaysExactlyWhen(db, sender, receiver, amount, kind, "");
    case Some(Hold(id, buyer, seller, amount)) => HoldHoldsExactlyWhen(db, id, buyer, seller, amount);
    case Some(Settle(id, outcome, reference)) => SettlesExactlyWhen(db, id, outcome, reference);
  }

  predicate OnlyLocker(locks: map<RowKey, nat>, r: nat) {
    forall k | k in locks :: locks[k] == r
  }

  /** Request `r` has done at least so many statements of its transaction, or has failed and could only fail. */
  predicate Working(s: Sys, db: Db, r: nat, op: Op, tx: Tx, least: nat) {
    && s.db == db && r in s.requests && s.requests[r].op == op && OnlyLocker(s.locks, r)
    && match s.requests[r].phase
       case Open(tx', w) =>
         tx' == tx && Current(db, tx, w) && (w.done >= least || w.done == Statements(tx))
       case Done(ok, applied) => Alone(db, tx).None? && !ok && applied.None? && s.locks == map[]
       case _ => false
  }

  lemma ExecutesIfAlone(db: Db, tx: Tx, w: Work)
    requires Current(db, tx, w) && w.done < Statements(tx) && Alone(db, tx).Some?
    ensures Execute(db, tx, w).Some?
  {
    if tx.Move? {
      SetIsAdd(db.wallets, tx.sender, w.debited);
      AddToBalances(db.wallets, tx.sender, -tx.amount, tx.receiver);
    }
  }

  lemma StatementWorks(ids: Ids, s: Sys, db: Db, r: nat, op: Op, tx: Tx, least: nat)
    requires Working(s, db, r, op, tx, least)
    ensures Working(Step(ids, s, Statement(r)), db, r, op, tx, least + 1)
  {
    if s.requests[r].phase.Open? {
      var w := s.requests[r].phase.work;
      if w.done < Statements(tx) {
        hide Current, Alone, Statements, NextRow, Execute;
        if Execute(db, tx, w).Some? {
          ExecuteIsCurrent(db, tx, w);
          ExecuteCounts(db, tx, w);
        } else if Alone(db, tx).Some? {
          ExecutesIfAlone(db, tx, w);
        }
      }
    }
  }

  lemma ExecuteCounts(db: Db, tx: Tx, w: Work)
    requires w.done < Statements(tx) && Execute(db, tx, w).Some?
    ensures Execute(db, tx, w).value.done == w.done + 1
  {}

  lemma CommitEnds(ids: Ids, s: Sys, db: Db, r: nat, op: Op, tx: Tx)
    requires Working(s, db, r, op, tx, 3)
    ensures var s' := Step(ids, s, Commit(r, false));
            && s'.locks == map[] && r in s'.requests
            && s'.requests[r] == Request(op, if Alone(db, tx).Some? then Done(true, Some(tx)) else Done(false, None))
            && s'.db == if Alone(db, tx).Some? then Alone(db, tx).value else db
  {
    if s.requests[r].phase.Open? {
      CommitIsAtomic(db, tx, s.requests[r].phase.work);
      hide Current, Alone, Install;
    }
  }

  function ThreeStatements(ids: Ids, s: Sys, r: nat): Sys {
    Step(ids, Step(ids, Step(ids, s, Statement(r)), Statement(r)), Statement(r))
  }

  /** The request arrives, and is served with nothing in between. */
  function Serve(ids: Ids, s: Sys, r: nat, op: Op): Sys {
    var s1 := Step(ids, Step(ids, Step(ids, s, Submit(r, op)), Check(r)), Begin(r));
    Step(ids, ThreeStatements(ids, s1, r), Commit(r, false))
  }

  lemma BeginsWork(ids: Ids, s: Sys, r: nat, op: Op)
    requires r !in s.requests && s.locks == map[] && Callable(op)
    ensures var s1 := Step(ids, Step(ids, Step(ids, s, Submit(r, op)), Check(r)), Begin(r));
            if (op.SettleEscrow? ==> MaySettle(ids, s.db, op.outcome, op.escrowId, op.user))
               && Prepare(ids, op).Some?
            then
              Working(s1, s.db, r, op, Prepare(ids, op).value, 0)
            else Refused(s1, s.db, r, op)
  {
    hide Parse;
  }

  predicate Refused(s: Sys, db: Db, r: nat, op: Op) {
    s.db == db && s.locks == map[] && r in s.requests && s.requests[r] == Request(op, Done(false, None))
  }

  /**
   With no row locked by another, a request goes through exactly when what it asks can be
   done; then the tables change as it asked, and otherwise they stay; no lock is left behind.
   */
  lemma GoesThroughExactlyWhen(ids: Ids, s: Sys, r: nat, op: Op)
    requires r !in s.requests && s.locks == map[] && Callable(op)
    ensures var s' := Serve(ids, s, r, op);
            && s'.locks == map[] && r in s'.requests && s'.requests[r].op == op && s'.requests[r].phase.Done?
            && s'.requests[r].phase.ok == Applied(s', r) == GoesThrough(ids, s.db, op)
            && (if GoesThrough(ids, s.db, op) then Performed(ids, op, s.db, s'.db) else s'.db == s.db)
  {
    AloneExactlyWhen(ids, s.db, op);
    BeginsWork(ids, s, r, op);
    hide Step, GoesThrough, Prepare, Performed, Alone, MaySettle;
    var s1 := Step(ids, Step(ids, Step(ids, s, Submit(r, op)), Check(r)), Begin(r));
    if Refused(s1, s.db, r, op) {
      RefusedStays(ids, s1, s.db, r, op);
    } else {
      var tx := Prepare(ids, op).value;
      Works(ids, s1, s.db, r, op, tx);
      if Alone(s.db, tx).Some? {
        AlonePerforms(ids, op, s.db, tx);
      }
    }
  }

  lemma Works(ids: Ids, s1: Sys, db: Db, r: nat, op: Op, tx: Tx)
    requires Working(s1, db, r, op, tx, 0)
    ensures var s' := Step(ids, ThreeStatements(ids, s1, r), Commit(r, false));
            && s'.locks == map[] && r in s'.requests
            && s'.requests[r] == Request(op, if Alone(db, tx).Some? then Done(true, Some(tx)) else Done(false, None))
            && s'.db == if Alone(db, tx).Some? then Alone(db, tx).value else db
  {
    hide Step, Alone, Working;
    StatementWorks(ids, s1, db, r, op, tx, 0);
    var s2 := Step(ids, s1, Statement(r));
    StatementWorks(ids, s2, db, r, op, tx, 1);
    var s3 := Step(ids, s2, Statement(r));
    StatementWorks(ids, s3, db, r, op, tx, 2);
    CommitEnds(ids, Step(ids, s3, Statement(r)), db, r, op, tx);
  }

  lemma RefusedStays(ids: Ids, s1: Sys, db: Db, r: nat, op: Op)
    requires Refused(s1, db, r, op)
    ensures Refused(Step(ids, ThreeStatements(ids, s1, r), Commit(r, false)), db, r, op)
  {}
}
