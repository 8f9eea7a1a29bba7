/**
 The money tables and the four transactions on them, as values: what each does to
 the database when all of its statements succeed, and None when one of them refuses.
 */
module Ledger {
  import opened Wrappers

  datatype Wallet = Wallet(user: Uuid, balance: int)

  datatype Status = Held | Released | Refunded

  datatype Escrow = Escrow(id: Uuid, buyer: Uuid, seller: Uuid, amount: int, status: Status)

  datatype Kind = Transfer | Tip | Unlock | EscrowRelease | EscrowRefund

  datatype Row = Row(sender: Uuid, receiver: Uuid, amount: int, kind: Kind, reference: string)

  /** Tables are lists of rows, newest last. */
  /** `users` are the accounts an escrow may name; nothing here changes them. */
  datatype Db = Db(users: set<Uuid>, wallets: Run<Wallet>, escrows: Run<Escrow>, ledger: Run<Row>)

  function BalanceOf(ws: Run<Wallet>, u: Uuid): Option<int> {
    match ws
    case Start => None
    case Then(past, w) => if w.user == u then Some(w.balance) else BalanceOf(past, u)
  }

  /** UPDATE wallets SET balance = balance + d WHERE user_id = u */
  function AddTo(ws: Run<Wallet>, u: Uuid, d: int): Run<Wallet> {
    match ws
    case Start => Start
    case Then(past, w) =>
      if w.user == u then Then(past, w.(balance := w.balance + d)) else Then(AddTo(past, u, d), w)
  }

  /** Takes `amount` out of the wallet of `u`, if it is there and holds that much. */
  function Debit(ws: Run<Wallet>, u: Uuid, amount: int): Option<Run<Wallet>> {
    match BalanceOf(ws, u)
    case None => None
    case Some(b) => if b >= amount then Some(AddTo(ws, u, -amount)) else None
  }

  /** Puts `amount` into the wallet of `u`, if it is there and the column can hold the sum. */
  function Credit(ws: Run<Wallet>, u: Uuid, amount: int): Option<Run<Wallet>> {
    match BalanceOf(ws, u)
    case None => None
    case Some(b) => if b + amount <= MAX_INT64 then Some(AddTo(ws, u, amount)) else None
  }

  function Find(es: Run<Escrow>, id: Uuid): Option<Escrow> {
    match es
    case Start => None
    case Then(past, e) => if e.id == id then Some(e) else Find(past, id)
  }

  function SetStatus(es: Run<Escrow>, id: Uuid, status: Status): Run<Escrow> {
    match es
    case Start => Start
    case Then(past, e) =>
      if e.id == id then Then(past, e.(status := status)) else Then(SetStatus(past, id, status), e)
  }

  function TransferTx(db: Db, sender: Uuid, receiver: Uuid, amount: int, kind: Kind, reference: string): Option<Db> {
    match Debit(db.wallets, sender, amount)
    case None => None
    case Some(debited) =>
      match Credit(debited, receiver, amount)
      case None => None
      case Some(credited) =>
        Some(db.(wallets := credited, ledger := Then(db.ledger, Row(sender, receiver, amount, kind, reference))))
  }

  /** The insert gives the new escrow an id that no row has, and its buyer and seller must be users. */
  function HoldTx(db: Db, id: Uuid, buyer: Uuid, seller: Uuid, amount: int): Option<Db> {
    match Debit(db.wallets, buyer, amount)
    case None => None
    case Some(debited) =>
      if Find(db.escrows, id).Some? || buyer !in db.users || seller !in db.users then None
      else Some(db.(wallets := debited, escrows := Then(db.escrows, Escrow(id, buyer, seller, amount, Held))))
  }

  function ReleaseTx(db: Db, id: Uuid, reference: string): Option<Db> {
    match Find(db.escrows, id)
    case None => None
    case Some(e) =>
      if e.status != Held then None
      else
        match Credit(db.wallets, e.seller, e.amount)
        case None => None
        case Some(credited) =>
          Some(db.(wallets := credited, escrows := SetStatus(db.escrows, id, Released),
                   ledger := Then(db.ledger, Row(e.buyer, e.seller, e.amount, EscrowRelease, reference))))
  }

  function RefundTx(db: Db, id: Uuid, reference: string): Option<Db> {
    match Find(db.escrows, id)
    case None => None
    case Some(e) =>
      if e.status != Held then None
      else
        match Credit(db.wallets, e.buyer, e.amount)
        case None => None
        case Some(credited) =>
          Some(db.(wallets := credited, escrows := SetStatus(db.escrows, id, Refunded),
                   ledger := Then(db.ledger, Row(e.seller, e.buyer, e.amount, EscrowRefund, reference))))
  }

  // ---------------------------------------------------------------- sums over the tables

  function Balance(ws: Run<Wallet>, u: Uuid): int {
    match BalanceOf(ws, u)
    case None => 0
    case Some(b) => b
  }

  function Total(ws: Run<Wallet>): int {
    match ws
    case Start => 0
    case Then(past, w) => Total(past) + w.balance
  }

  /** What user `u` has paid into escrows that are still held. */
  function HeldBy(es: Run<Escrow>, u: Uuid): int {
    match es
    case Start => 0
    case Then(past, e) => HeldBy(past, u) + if e.status == Held && e.buyer == u then e.amount else 0
  }

  function HeldTotal(es: Run<Escrow>): int {
    match es
    case Start => 0
    case Then(past, e) => HeldTotal(past) + if e.status == Held then e.amount else 0
  }

  /** Net receipts of user `u` over all ledger rows but refunds, which record no movement out of the seller's wallet. */
  function Net(rows: Run<Row>, u: Uuid): int {
    match rows
    case Start => 0
    case Then(past, r) =>
      Net(past, u)
      + (if r.kind != EscrowRefund && r.receiver == u then r.amount else 0)
      - (if r.kind != EscrowRefund && r.sender == u then r.amount else 0)
  }

  lemma {:induction false} AddToBalances(ws: Run<Wallet>, u: Uuid, d: int, v: Uuid)
    ensures BalanceOf(AddTo(ws, u, d), v)
            == match BalanceOf(ws, v) case None => None case Some(b) => Some(if u == v then b + d else b)
    ensures Total(AddTo(ws, u, d)) == Total(ws) + if BalanceOf(ws, u).Some? then d else 0
  {
    if ws.Then? && ws.last.user != u {
      AddToBalances(ws.past, u, d, v);
    }
  }

  lemma {:induction false} SettleReleasesHold(es: Run<Escrow>, id: Uuid, status: Status, u: Uuid)
    requires status != Held && Find(es, id).Some? && Find(es, id).value.status == Held
    ensures var e := Find(es, id).value;
            && HeldBy(SetStatus(es, id, status), u) == HeldBy(es, u) - (if e.buyer == u then e.amount else 0)
            && HeldTotal(SetStatus(es, id, status)) == HeldTotal(es) - e.amount
  {
    if es.last.id != id {
      SettleReleasesHold(es.past, id, status, u);
    }
  }

  lemma {:induction false} SetStatusFinds(es: Run<Escrow>, id: Uuid, status: Status, other: Uuid)
    ensures Find(SetStatus(es, id, status), other)
            == match Find(es, other) case None => None case Some(e) => Some(if id == other then e.(status := status)
                else e)
  {
    if es.Then? && es.last.id != id {
      SetStatusFinds(es.past, id, status, other);
    }
  }

  // ---------------------------------------------------------------- what the transactions do

  function Changed(b: Option<int>, d: int): Option<int> {
    match b
    case None => None
    case Some(b) => Some(b + d)
  }

  predicate CanPay(ws: Run<Wallet>, payer: Uuid, payee: Uuid, amount: int) {
    && BalanceOf(ws, payer).Some? && BalanceOf(ws, payer).value >= amount
    && BalanceOf(ws, payee).Some?
    && BalanceOf(ws, payee).value + (if payer == payee then 0 else amount) <= MAX_INT64
  }

  /** `amount` went from one wallet to the other, or back to the one it came from, and one row says so. */
  ghost predicate Paid(db: Db, db': Db, payer: Uuid, payee: Uuid, amount: int, kind: Kind, reference: string) {
    && db' == db.(wallets := db'.wallets, ledger := Then(db.ledger, Row(payer, payee, amount, kind, reference)))
    && forall u :: BalanceOf(db'.wallets, u)
                   == Changed(BalanceOf(db.wallets, u),
                              (if u == payee then amount else 0) - (if u == payer then amount else 0))
  }

  lemma TransferPaysExactlyWhen(db: Db, payer: Uuid, payee: Uuid, amount: int, kind: Kind, reference: string)
    ensures TransferTx(db, payer, payee, amount, kind, reference).Some? <==> CanPay(db.wallets, payer, payee, amount)
    ensures CanPay(db.wallets, payer, payee, amount) ==>
              Paid(db, TransferTx(db, payer, payee, amount, kind, reference).value,
                   payer, payee, amount, kind, reference)
  {
    var debited := AddTo(db.wallets, payer, -amount);
    AddToBalances(db.wallets, payer, -amount, payee);
    forall u ensures BalanceOf(AddTo(debited, payee, amount), u)
                     == Changed(BalanceOf(db.wallets, u),
                                (if u == payee then amount else 0) - (if u == payer then amount else 0)) {
      AddToBalances(db.wallets, payer, -amount, u);
      AddToBalances(debited, payee, amount, u);
    }
  }

  predicate CanHold(db: Db, id: Uuid, buyer: Uuid, seller: Uuid, amount: int) {
    && BalanceOf(db.wallets, buyer).Some? && BalanceOf(db.wallets, buyer).value >= amount
    && Find(db.escrows, id).None? && buyer in db.users && seller in db.users
  }

  /** The buyer's wallet gave `amount` for a new escrow of that amount, held between the two. */
  ghost predicate PutInEscrow(db: Db, db': Db, id: Uuid, buyer: Uuid, seller: Uuid, amount: int) {
    && db' == db.(wallets := db'.wallets, escrows := Then(db.escrows, Escrow(id, buyer, seller, amount, Held)))
    && forall u :: BalanceOf(db'.wallets, u) == Changed(BalanceOf(db.wallets, u), if u == buyer then -amount else 0)
  }

  lemma HoldHoldsExactlyWhen(db: Db, id: Uuid, buyer: Uuid, seller: Uuid, amount: int)
    ensures HoldTx(db, id, buyer, seller, amount).Some? <==> CanHold(db, id, buyer, seller, amount)
    ensures CanHold(db, id, buyer, seller, amount) ==>
              PutInEscrow(db, HoldTx(db, id, buyer, seller, amount).value, id, buyer, seller, amount)
  {
    forall u ensures BalanceOf(AddTo(db.wallets, buyer, -amount), u)
                     == Changed(BalanceOf(db.wallets, u), if u == buyer then -amount else 0) {
      AddToBalances(db.wallets, buyer, -amount, u);
    }
  }

  /** There is a held escrow `id`, and the wallet it would be paid to has room for its amount. */
  predicate CanSettle(db: Db, id: Uuid, outcome: Status) {
    && Find(db.escrows, id).Some?
    && var e := Find(db.escrows, id).value;
       var payee := if outcome == Released then e.seller else e.buyer;
       && e.status == Held && BalanceOf(db.wallets, payee).Some?
       && BalanceOf(db.wallets, payee).value + e.amount <= MAX_INT64
  }

  /** Escrow `id` now has the outcome, its amount went to one of the parties, and one row says so. */
  ghost predicate PaidOut(db: Db, db': Db, id: Uuid, outcome: Status, reference: string)
    requires Find(db.escrows, id).Some?
  {
    var Escrow(_, buyer, seller, amount, _) := Find(db.escrows, id).value;
    && db'.users == db.users
    && (forall other :: Find(db'.escrows, other)
                        == if other == id then Some(Escrow(id, buyer, seller, amount, outcome))
                           else Find(db.escrows, other))
    && (if outcome == Released then
          && db'.ledger == Then(db.ledger, Row(buyer, seller, amount, EscrowRelease, reference))
          && forall u ::
               BalanceOf(db'.wallets, u) == Changed(BalanceOf(db.wallets, u), if u == seller then amount else 0)
        else
          && db'.ledger == Then(db.ledger, Row(seller, buyer, amount, EscrowRefund, reference))
          && forall u ::
               BalanceOf(db'.wallets, u) == Changed(BalanceOf(db.wallets, u), if u == buyer then amount else 0))
  }

  lemma CreditChanges(ws: Run<Wallet>, payee: Uuid, amount: int)
    ensures forall u :: BalanceOf(AddTo(ws, payee, amount), u)
                        == Changed(BalanceOf(ws, u), if u == payee then amount else 0)
  {
    forall u ensures BalanceOf(AddTo(ws, payee, amount), u)
                     == Changed(BalanceOf(ws, u), if u == payee then amount else 0) {
      AddToBalances(ws, payee, amount, u);
    }
  }

  lemma {:induction false} FindsIts(es: Run<Escrow>, id: Uuid)
    ensures Find(es, id).Some? ==> Find(es, id).value.id == id
  {
    if es.Then? && es.last.id != id {
      FindsIts(es.past, id);
    }
  }

  lemma SettlesExactlyWhen(db: Db, id: Uuid, outcome: Status, reference: string)
    requires outcome != Held
    ensures var settled := if outcome == Released then ReleaseTx(db, id, reference) else RefundTx(db, id, reference);
            && (settled.Some? <==> CanSettle(db, id, outcome))
            && (CanSettle(db, id, outcome) ==> PaidOut(db, settled.value, id, outcome, reference))
  {
    if Find(db.escrows, id).Some? {
      var e := Find(db.escrows, id).value;
      FindsIts(db.escrows, id);
      CreditChanges(db.wallets, e.seller, e.amount);
      CreditChanges(db.wallets, e.buyer, e.amount);
      forall other ensures Find(SetStatus(db.escrows, id, outcome), other)
                           == if other == id then Some(e.(status := outcome)) else Find(db.escrows, other) {
        SetStatusFinds(db.escrows, id, outcome, other);
      }
    }
  }

  // ---------------------------------------------------------------- conservation

  /** Money of `u` that the database accounts for, less what the ledger says came in: constant. */
  function Account(db: Db, u: Uuid): int {
    Balance(db.wallets, u) + HeldBy(db.escrows, u) - Net(db.ledger, u)
  }

  function Money(db: Db): int {
    Total(db.wallets) + HeldTotal(db.escrows)
  }

  /**
   No balance is negative or too large for its column, and no escrow holds a negative amount or
   more than an int32.
   */
  predicate Solvent(db: Db) {
    WalletsFit(db.wallets) && EscrowsFit(db.escrows)
  }

  predicate WalletsFit(ws: Run<Wallet>) {
    ws.Then? ==> WalletsFit(ws.past) && 0 <= ws.last.balance <= MAX_INT64
  }

  predicate EscrowsFit(es: Run<Escrow>) {
    es.Then? ==> EscrowsFit(es.past) && 0 < es.last.amount <= MAX_INT32
  }

  lemma {:induction false} AddToFits(ws: Run<Wallet>, u: Uuid, d: int)
    requires WalletsFit(ws) && (BalanceOf(ws, u).Some? ==> 0 <= BalanceOf(ws, u).value + d <= MAX_INT64)
    ensures WalletsFit(AddTo(ws, u, d))
  {
    if ws.Then? && ws.last.user != u {
      AddToFits(ws.past, u, d);
    }
  }

  lemma {:induction false} WalletFits(ws: Run<Wallet>, u: Uuid)
    requires WalletsFit(ws) && BalanceOf(ws, u).Some?
    ensures 0 <= BalanceOf(ws, u).value <= MAX_INT64
  {
    if ws.last.user != u {
      WalletFits(ws.past, u);
    }
  }

  lemma {:induction false} EscrowFits(es: Run<Escrow>, id: Uuid)
    requires EscrowsFit(es) && Find(es, id).Some?
    ensures 0 < Find(es, id).value.amount <= MAX_INT32
  {
    if es.last.id != id {
      EscrowFits(es.past, id);
    }
  }

  lemma {:induction false} SetStatusFits(es: Run<Escrow>, id: Uuid, status: Status)
    requires EscrowsFit(es)
    ensures EscrowsFit(SetStatus(es, id, status))
  {
    if es.Then? && es.last.id != id {
      SetStatusFits(es.past, id, status);
    }
  }

  lemma DebitMoves(ws: Run<Wallet>, u: Uuid, amount: int, v: Uuid)
    requires Debit(ws, u, amount).Some? && 0 < amount && WalletsFit(ws)
    ensures var ws' := Debit(ws, u, amount).value;
            && Balance(ws', v) == Balance(ws, v) - (if u == v then amount else 0)
            && Total(ws') == Total(ws) - amount && WalletsFit(ws')
  {
    AddToBalances(ws, u, -amount, v);
    WalletFits(ws, u);
    AddToFits(ws, u, -amount);
  }

  lemma CreditMoves(ws: Run<Wallet>, u: Uuid, amount: int, v: Uuid)
    requires Credit(ws, u, amount).Some? && 0 < amount && WalletsFit(ws)
    ensures var ws' := Credit(ws, u, amount).value;
            && Balance(ws', v) == Balance(ws, v) + (if u == v then amount else 0)
            && Total(ws') == Total(ws) + amount && WalletsFit(ws')
  {
    AddToBalances(ws, u, amount, v);
    WalletFits(ws, u);
    AddToFits(ws, u, amount);
  }

  /** What a committed transaction must keep: every user's account, all the money, and every bound. */
  predicate Conserves(db: Db, db': Db, u: Uuid) {
    Account(db', u) == Account(db, u) && Money(db') == Money(db) && Solvent(db')
  }

  /** Sender and receiver may be the same wallet: two different id strings can parse to one id. */
  lemma TransferConserves(db: Db, sender: Uuid, receiver: Uuid, amount: int, kind: Kind, reference: string, u: Uuid)
    requires Solvent(db) && 0 < amount && kind != EscrowRefund
    requires TransferTx(db, sender, receiver, amount, kind, reference).Some?
    ensures Conserves(db, TransferTx(db, sender, receiver, amount, kind, reference).value, u)
  {
    DebitMoves(db.wallets, sender, amount, u);
    CreditMoves(Debit(db.wallets, sender, amount).value, receiver, amount, u);
  }

  lemma HoldConserves(db: Db, id: Uuid, buyer: Uuid, seller: Uuid, amount: int, u: Uuid)
    requires Solvent(db) && 0 < amount <= MAX_INT32 && HoldTx(db, id, buyer, seller, amount).Some?
    ensures Conserves(db, HoldTx(db, id, buyer, seller, amount).value, u)
  {
    DebitMoves(db.wallets, buyer, amount, u);
  }

  lemma ReleaseConserves(db: Db, id: Uuid, reference: string, u: Uuid)
    requires Solvent(db) && ReleaseTx(db, id, reference).Some?
    ensures Conserves(db, ReleaseTx(db, id, reference).value, u)
  {
    var e := Find(db.escrows, id).value;
    EscrowFits(db.escrows, id);
    SettleReleasesHold(db.escrows, id, Released, u);
    SetStatusFits(db.escrows, id, Released);
    CreditMoves(db.wallets, e.seller, e.amount, u);
  }

  lemma RefundConserves(db: Db, id: Uuid, reference: string, u: Uuid)
    requires Solvent(db) && RefundTx(db, id, reference).Some?
    ensures Conserves(db, RefundTx(db, id, reference).value, u)
  {
    var e := Find(db.escrows, id).value;
    EscrowFits(db.escrows, id);
    SettleReleasesHold(db.escrows, id, Refunded, u);
    SetStatusFits(db.escrows, id, Refunded);
    CreditMoves(db.wallets, e.buyer, e.amount, u);
  }
}
