/**
 The repository's four transactions as it executes them: statement after statement on
 a working copy of the tables, which becomes the database at the commit and is thrown
 away on every earlier return.
 */
module FinanceRepository {
  import opened Ledger
  import opened Wrappers

  /** A reference names an entity only when both its type and a non-blank id are given. */
  function Reference(ids: Ids, entityType: Option<string>, entityId: Option<string>): string {
    if entityType.None? || entityId.None? || ids.trim(entityId.value) == "" then ""
    else ids.trim(entityType.value) + ":" + ids.trim(entityId.value)
  }

  /** The database after a call: the effect if the whole transaction goes through, otherwise as before. */
  predicate AllOrNothing(before: Db, after: Db, effect: Option<Db>, fault: Fault, ok: bool) {
    var goesThrough := effect.Some? && !fault.FailsAt?;
    && after == (if goesThrough then effect.value else before)
    && ok == (goesThrough && fault != CommitAnswerLost)
  }

  class PostgresFinanceRepository {
    const ids: Ids
    const users: set<Uuid>
    var wallets: Run<Wallet>
    var escrows: Run<Escrow>
    var ledger: Run<Row>

    constructor (ids: Ids, db: Db)
      ensures this.ids == ids && View() == db
    {
      this.ids, users, wallets, escrows, ledger := ids, db.users, db.wallets, db.escrows, db.ledger;
    }

    function View(): Db
      reads this
    {
      Db(users, wallets, escrows, ledger)
    }

    method Transfer(senderId: string, receiverId: string, amount: int, kind: Kind,
        entityType: Option<string>, entityId: Option<string>, fault: Fault) returns (ok: bool)
      modifies this
      ensures AllOrNothing(old(View()), View(),
                           if amount <= 0 || senderId == receiverId || Parse(ids, senderId).None?
                               || Parse(ids, receiverId).None? then None
                           else TransferTx(old(View()), Parse(ids, senderId).value, Parse(ids, receiverId).value,
                               amount, kind,
                                           Reference(ids, entityType, entityId)),
                           fault, ok)
    {
      if amount <= 0 || senderId == receiverId {
        return false;
      }
      var sid, rid := Parse(ids, senderId), Parse(ids, receiverId);
      if sid.None? || rid.None? {
        return false;
      }
      if fault == FailsAt(0) {
        return false;
      }
      var work := wallets;
      var remaining := BalanceOf(work, sid.value);
      if fault == FailsAt(1) || remaining.None? || remaining.value < amount {
        return false;
      }
      work := AddTo(work, sid.value, -amount);
      var credited := BalanceOf(work, rid.value);
      if fault == FailsAt(2) || credited.None? || credited.value + amount > MAX_INT64 {
        return false;
      }
      work := AddTo(work, rid.value, amount);
      var rows := ledger;
      if fault == FailsAt(3) {
        return false;
      }
      rows := Then(rows, Row(sid.value, rid.value, amount, kind, Reference(ids, entityType, entityId)));
      if fault.FailsAt? {
        return false;
      }
      wallets, ledger := work, rows;
      return fault != CommitAnswerLost;
    }

    method CreateEscrow(buyerId: string, sellerId: string, amount: int, newId: Uuid, fault: Fault) returns (ok: bool)
      modifies this
      ensures AllOrNothing(old(View()), View(),
                           if amount <= 0 || buyerId == sellerId || Parse(ids, buyerId).None?
                               || Parse(ids, sellerId).None?
                              || amount > MAX_INT32 then None
                           else HoldTx(old(View()), newId, Parse(ids, buyerId).value, Parse(ids, sellerId).value,
                               amount),
                           fault, ok)
    {
      if amount <= 0 || buyerId == sellerId {
        return false;
      }
      var bid, sid := Parse(ids, buyerId), Parse(ids, sellerId);
      if bid.None? || sid.None? || amount > MAX_INT32 || fault == FailsAt(0) {
        return false;
      }
      var reserved := BalanceOf(wallets, bid.value);
      if fault == FailsAt(1) || reserved.None? || reserved.value < amount {
        return false;
      }
      var work := AddTo(wallets, bid.value, -amount);
      if fault == FailsAt(2) || Find(escrows, newId).Some? || bid.value !in users || sid.value !in users {
        return false;
      }
      var table := Then(escrows, Escrow(newId, bid.value, sid.value, amount, Held));
      if fault.FailsAt? {
        return false;
      }
      wallets, escrows := work, table;
      return fault != CommitAnswerLost;
    }

    method ReleaseEscrow(escrowId: string, fault: Fault) returns (ok: bool)
      modifies this
      ensures AllOrNothing(old(View()), View(),
                           if Parse(ids, escrowId).None? then None
                           else ReleaseTx(old(View()), Parse(ids, escrowId).value, escrowId),
                           fault, ok)
    {
      var eid := Parse(ids, escrowId);
      if eid.None? || fault == FailsAt(0) {
        return false;
      }
      var held := Find(escrows, eid.value);
      if fault == FailsAt(1) || held.None? || held.value.status != Held {
        return false;
      }
      var table := SetStatus(escrows, eid.value, Released);
      var Escrow(_, buyer, seller, amount, _) := held.value;
      var balance := BalanceOf(wallets, seller);
      if fault == FailsAt(2) || balance.None? || balance.value + amount > MAX_INT64 {
        return false;
      }
      var work := AddTo(wallets, seller, amount);
      if fault.FailsAt? {
        return false;
      }
      wallets, escrows := work, table;
      ledger := Then(ledger, Row(buyer, seller, amount, EscrowRelease, escrowId));
      return fault != CommitAnswerLost;
    }

    method RefundEscrow(escrowId: string, fault: Fault) returns (ok: bool)
      modifies this
      ensures AllOrNothing(old(View()), View(),
                           if Parse(ids, escrowId).None? then None
                           else RefundTx(old(View()), Parse(ids, escrowId).value, escrowId),
                           fault, ok)
    {
      var eid := Parse(ids, escrowId);
      if eid.None? || fault == FailsAt(0) {
        return false;
      }
      var held := Find(escrows, eid.value);
      if fault == FailsAt(1) || held.None? || held.value.status != Held {
        return false;
      }
      var table := SetStatus(escrows, eid.value, Refunded);
      var Escrow(_, buyer, seller, amount, _) := held.value;
      var balance := BalanceOf(wallets, buyer);
      if fault == FailsAt(2) || balance.None? || balance.value + amount > MAX_INT64 {
        return false;
      }
      var work := AddTo(wallets, buyer, amount);
      if fault.FailsAt? {
        return false;
      }
      wallets, escrows := work, table;
      ledger := Then(ledger, Row(seller, buyer, amount, EscrowRefund, escrowId));
      return fault != CommitAnswerLost;
    }
  }
}
