/**
 * The state the request handlers act on — account balances, the transaction
 * log and the payment codes — and what a handler answers with.
 */
module Wallet {
  import opened Base
  import opened Ledger
  import opened TransactionModel
  import opened QRCodeModel

  /**
   * The three collections, plus the next unused document id (document ids
   * are unique across collections, so one counter serves both).
   */
  datatype State = State(
    balances: Balances,
    log: seq<Transaction>,
    codes: map<CodeId, QRCode>,
    nextId: nat)

  /** Which record a `NotFound` failure is about. */
  datatype Missing = Account | Sender | Receiver | Code | Payer

  /** The failures the handlers tell apart. */
  datatype Error =
    | InvalidAmount         // amount absent, zero or negative
    | DepositLimitExceeded  // deposit above the deposit limit
    | MissingField          // a required request field is absent or empty
    | NotFound(what: Missing)
    | InsufficientBalance
    | SelfTransfer
    | SelfPayment
    | NotActive             // the code is already used or expired
    | CodeExpired           // the code was observed past its expiry time
    | RecordRejected        // saving the new transaction failed schema validation
    | PayeeMissing          // the code's owner no longer exists; the handler crashes

  /** A successful reply: a money movement with the caller's new balance, or a payment code. */
  datatype Reply =
    | Moved(tx: Transaction, newBalance: int)
    | CodeDetails(id: CodeId, code: QRCode)

  /** What a handler answers, and the state after it. */
  datatype Step = Step(result: Result<Reply, Error>, state: State)

  /**
   * JavaScript truthiness of a numeric request field: an absent amount and
   * an amount of 0 are both rejected by `!amount`.
   */
  predicate Present(amount: Option<int>) {
    amount.Some? && amount.value != 0
  }

  /** Some transaction of `log` has id `id`. */
  ghost predicate Logged(log: seq<Transaction>, id: TxId) {
    exists i :: 0 <= i < |log| && log[i].id == id
  }

  /** A code carries a payment link exactly when it is used, and the link points into the log. */
  ghost predicate LinkedWhenUsed(c: QRCode, log: seq<Transaction>) {
    && (c.status == Used <==> c.paymentId.Some?)
    && (c.paymentId.Some? ==> Logged(log, c.paymentId.value))
  }

  /**
   * What every reachable state satisfies: no account is in debt, every
   * stored record obeys its schema, ids below `nextId` are the only ones in
   * use and are never reused, and used codes point at their payment.
   */
  ghost predicate Inv(s: State) {
    && NonNegative(s.balances)
    && (forall i :: 0 <= i < |s.log| ==> TransactionModel.WellFormed(s.log[i]) && s.log[i].id < s.nextId)
    && (forall i, j :: 0 <= i < j < |s.log| ==> s.log[i].id != s.log[j].id)
    && (forall k :: k in s.codes ==> k < s.nextId)
    && (forall k :: k in s.codes ==> QRCodeModel.WellFormed(s.codes[k]) && LinkedWhenUsed(s.codes[k], s.log))
  }
}
