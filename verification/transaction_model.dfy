/**
 * The transaction record and the schema rules a stored transaction obeys
 * (backend/models/Transaction.js). Enumerated string fields become
 * datatypes; the request's payment-method string is parsed into one.
 */
module TransactionModel {
  import opened Base
  import opened Ledger

  /** Document id of a transaction. */
  type TxId = nat

  /** Largest amount a single deposit may carry. */
  const DepositLimit: int := 5000

  datatype TxKind = Deposit | Transfer | Withdrawal

  datatype PaymentMethod = Card | Bank | Upi

  datatype TxStatus = Pending | Completed | Failed

  /** A stored transaction; `createdAt` is the save time in milliseconds. */
  datatype Transaction = Transaction(
    id: TxId,
    kind: TxKind,
    amount: int,
    description: string,
    sender: Option<UserId>,
    receiver: Option<UserId>,
    paymentMethod: Option<PaymentMethod>,
    status: TxStatus,
    createdAt: int)

  /** The fields a handler passes when it builds a transaction, before defaults and validation. */
  datatype TxDraft = TxDraft(
    kind: TxKind,
    amount: int,
    description: string,
    sender: Option<UserId>,
    receiver: Option<UserId>,
    paymentMethod: Option<string>,
    status: Option<TxStatus>)

  /** Status a transaction gets when its creator names none. */
  const DefaultStatus: TxStatus := Completed

  /** Spelling of a payment method in requests and records. */
  function MethodName(m: PaymentMethod): string {
    match m
    case Card => "card"
    case Bank => "bank"
    case Upi => "upi"
  }

  /** The payment-method enum check: only the three listed spellings are accepted. */
  function ParseMethod(s: string): (r: Option<PaymentMethod>)
    ensures r.Some? <==> s in {"card", "bank", "upi"}
    ensures r.Some? ==> MethodName(r.value) == s
  {
    if s == "card" then Some(Card)
    else if s == "bank" then Some(Bank)
    else if s == "upi" then Some(Upi)
    else None
  }

  /** Every payment method survives printing and parsing back. */
  lemma MethodRoundTrip(m: PaymentMethod)
    ensures ParseMethod(MethodName(m)) == Some(m)
  {
  }

  /** A transaction needs a sender exactly when it is a transfer. */
  predicate SenderRequired(kind: TxKind) {
    kind == Transfer
  }

  /** Transfers and deposits need a receiver; withdrawals do not. */
  predicate ReceiverRequired(kind: TxKind) {
    kind == Transfer || kind == Deposit
  }

  /** Deposits need a payment method. */
  predicate MethodRequired(kind: TxKind) {
    kind == Deposit
  }

  /** Amounts are never negative; deposits are also capped at the deposit limit. */
  predicate AmountAllowed(kind: TxKind, amount: int) {
    amount >= 0 && (kind == Deposit ==> amount <= DepositLimit)
  }

  /** The schema: every rule a transaction must satisfy to be stored. */
  predicate WellFormed(t: Transaction) {
    && AmountAllowed(t.kind, t.amount)
    && t.description != ""
    && (SenderRequired(t.kind) ==> t.sender.Some?)
    && (ReceiverRequired(t.kind) ==> t.receiver.Some?)
    && (MethodRequired(t.kind) ==> t.paymentMethod.Some?)
  }

  /**
   * Builds the document for `d` (filling in the default status and the
   * creation time) and validates it as saving does; None is a rejected save.
   */
  function Create(d: TxDraft, id: TxId, now: int): (r: Option<Transaction>)
    ensures r.Some? ==> WellFormed(r.value)
    ensures r.Some? <==>
      && AmountAllowed(d.kind, d.amount)
      && d.description != ""
      && (SenderRequired(d.kind) ==> d.sender.Some?)
      && (ReceiverRequired(d.kind) ==> d.receiver.Some?)
      && (MethodRequired(d.kind) ==> d.paymentMethod.Some?)
      && (d.paymentMethod.Some? ==> d.paymentMethod.value in {"card", "bank", "upi"})
    ensures r.Some? ==>
      && r.value.id == id && r.value.createdAt == now
      && r.value.kind == d.kind && r.value.amount == d.amount
      && r.value.description == d.description
      && r.value.sender == d.sender && r.value.receiver == d.receiver
      && (r.value.paymentMethod.Some? <==> d.paymentMethod.Some?)
      && (d.paymentMethod.Some? ==> MethodName(r.value.paymentMethod.value) == d.paymentMethod.value)
      && r.value.status == (if d.status.Some? then d.status.value else Completed)
  {
    if d.paymentMethod.Some? && ParseMethod(d.paymentMethod.value).None? then None
    else
      var pm := if d.paymentMethod.Some? then ParseMethod(d.paymentMethod.value) else None;
      var t := Transaction(id, d.kind, d.amount, d.description, d.sender, d.receiver,
                           pm, d.status.OrDefault(DefaultStatus), now);
      if WellFormed(t) then Some(t) else None
  }
}
