/**
 * The payment-code ("QR code") record and its schema (backend/models/QRCode.js),
 * together with the code's lifecycle: `Active` until it is paid (`Used`) or
 * observed past its expiry time (`Expired`); both of those are final.
 */
module QRCodeModel {
  import opened Base
  import opened Ledger
  import opened TransactionModel

  /** Document id of a payment code. */
  type CodeId = nat

  /** How long a fresh code stays payable: 24 hours, in milliseconds. */
  const Lifetime: int := 24 * 60 * 60 * 1000

  datatype CodeStatus = Active | Used | Expired

  /**
   * A stored payment code owned by the payee `userId`. `paymentId` links the
   * transaction that paid it, if any.
   */
  datatype QRCode = QRCode(
    userId: UserId,
    amount: int,
    description: string,
    status: CodeStatus,
    createdAt: int,
    expiresAt: int,
    paymentId: Option<TxId>)

  /** The schema: the amount is not negative and a description is present. */
  predicate WellFormed(c: QRCode) {
    c.amount >= 0 && c.description != ""
  }

  /**
   * Builds the document for a new code (status `Active`, expiry one lifetime
   * after `now`, no linked payment) and validates it; None is a rejected save.
   */
  function Create(owner: UserId, amount: int, description: string, now: int): (r: Option<QRCode>)
    ensures r.Some? <==> amount >= 0 && description != ""
    ensures r.Some? ==> WellFormed(r.value)
    ensures r.Some? ==>
      && r.value.userId == owner && r.value.amount == amount
      && r.value.description == description
      && r.value.status == Active && r.value.paymentId == None
      && r.value.createdAt == now && r.value.expiresAt == now + 86_400_000
  {
    var c := QRCode(owner, amount, description, Active, now, now + Lifetime, None);
    if WellFormed(c) then Some(c) else None
  }

  /** The expiry test: a code is past due only strictly after `expiresAt`. */
  predicate PastExpiry(c: QRCode, now: int) {
    c.expiresAt < now
  }

  /** The status changes the lifecycle allows: staying put, or leaving `Active` for a final status. */
  predicate Allowed(from: CodeStatus, to: CodeStatus) {
    from == to || (from == Active && to != Active)
  }

  /** A fresh code is payable up to and including the instant one lifetime after its creation. */
  lemma FreshCodePayableUntilDeadline(owner: UserId, amount: int, description: string, created: int, now: int)
    requires amount >= 0 && description != ""
    requires now <= created + Lifetime
    ensures !PastExpiry(Create(owner, amount, description, created).value, now)
  {
  }
}
