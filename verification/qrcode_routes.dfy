/**
 * The payment-code handlers (backend/routes/qrcoderoute.js): issue a code,
 * look it up (expiring it lazily), pay it, and list the caller's codes.
 */
module QRCodeRoutes {
  import opened Base
  import opened Ledger
  import TransactionModel
  import opened QRCodeModel
  import opened Wallet
  import opened Ordering

  /** Description a code gets when the request leaves it empty. */
  const DefaultDescription: string := "QR Code Payment"

  /** Prefix of the description of the transaction that pays a code. */
  const PaymentPrefix: string := "QR Payment:"

  /**
   * `POST /generate`: stores a new active code owned by the caller. Rejects
   * an absent, zero or negative amount.
   */
  function Generate(s: State, caller: UserId, amount: Option<int>, description: string, now: int): (r: Step)
    ensures r.result.Failure? <==> !Present(amount) || amount.value < 0
    ensures r.result.Failure? ==> r == Step(Failure(InvalidAmount), s)
    ensures r.result.Success? ==>
      && r.result.value.CodeDetails?
      && var id, c := r.result.value.id, r.result.value.code;
      && id == s.nextId
      && r.state.codes.Keys == s.codes.Keys + {id}
      && r.state.codes[id] == c
      && (forall k :: k in s.codes && k != id ==> r.state.codes[k] == s.codes[k])
      && c.userId == caller && c.amount == amount.value
      && c.description == (if description == "" then DefaultDescription else description)
      && c.status == Active && c.paymentId == None
      && c.createdAt == now && c.expiresAt == now + Lifetime
      && r.state.balances == s.balances && r.state.log == s.log
      && r.state.nextId == s.nextId + 1
  {
    if !Present(amount) || amount.value <= 0 then Step(Failure(InvalidAmount), s)
    else
      var text := if description == "" then DefaultDescription else description;
      var c := Create(caller, amount.value, text, now).value;
      Step(Success(CodeDetails(s.nextId, c)), s.(codes := s.codes[s.nextId := c], nextId := s.nextId + 1))
  }

  /**
   * `GET /:qrId`: the details of a payable code. Fails, in order, when the
   * code does not exist, is not active, or is past its expiry time — in which
   * case it is marked expired — and when its owner no longer exists.
   */
  function Fetch(s: State, id: CodeId, now: int): (r: Step)
    ensures id !in s.codes ==> r == Step(Failure(NotFound(Code)), s)
    ensures id in s.codes && s.codes[id].status != Active ==> r == Step(Failure(NotActive), s)
    ensures id in s.codes && s.codes[id].status == Active && PastExpiry(s.codes[id], now) ==>
      && r.result == Failure(CodeExpired)
      && r.state == s.(codes := s.codes[id := s.codes[id].(status := Expired)])
    ensures id in s.codes && s.codes[id].status == Active && !PastExpiry(s.codes[id], now) &&
            s.codes[id].userId !in s.balances ==>
              r == Step(Failure(PayeeMissing), s)
    ensures r.result.Failure? && r.result != Failure(CodeExpired) ==> r.state == s
    ensures r.result.Success? <==>
      id in s.codes && s.codes[id].status == Active && !PastExpiry(s.codes[id], now) && s.codes[id].userId in s.balances
    ensures r.result.Success? ==> r == Step(Success(CodeDetails(id, s.codes[id])), s)
  {
    if id !in s.codes then Step(Failure(NotFound(Code)), s)
    else
      var c := s.codes[id];
      if c.status != Active then Step(Failure(NotActive), s)
      else if PastExpiry(c, now) then Step(Failure(CodeExpired), s.(codes := s.codes[id := c.(status := Expired)]))
      else if c.userId !in s.balances then Step(Failure(PayeeMissing), s)
      else Step(Success(CodeDetails(id, c)), s)
  }

  /**
   * `POST /pay/:qrId`: the caller pays the code. Re-validates the code exactly
   * as `Fetch` does, then fails, in order, when the payer owns the code, when
   * the payer does not exist, and when the payer's balance is below the code's
   * amount. On success it moves the amount from payer to owner, logs a
   * `transfer`, and marks the code used with a link to that transaction.
   */
  function Pay(s: State, payer: UserId, id: CodeId, now: int): (r: Step)
    ensures Fetch(s, id, now).result.Failure? ==> r == Fetch(s, id, now)
    ensures r.result.Failure? && r.result != Failure(CodeExpired) ==> r.state == s
    ensures r.result == Failure(CodeExpired) ==> r.state.balances == s.balances && r.state.log == s.log
    ensures id in s.codes && s.codes[id].userId == payer && Fetch(s, id, now).result.Success? ==>
              r == Step(Failure(SelfPayment), s)
    ensures id in s.codes && s.codes[id].userId != payer && Fetch(s, id, now).result.Success? && payer !in s.balances ==>
              r == Step(Failure(NotFound(Payer)), s)
    ensures id in s.codes && s.codes[id].userId != payer && Fetch(s, id, now).result.Success? && payer in s.balances &&
            s.balances[payer] < s.codes[id].amount ==>
              r == Step(Failure(InsufficientBalance), s)
    ensures r.result.Success? <==>
      && Fetch(s, id, now).result.Success?
      && s.codes[id].userId != payer
      && payer in s.balances
      && s.balances[payer] >= s.codes[id].amount >= 0
    ensures r.result.Success? ==>
      && r.result.value.Moved?
      && var c, tx := s.codes[id], r.result.value.tx;
      && var owner := c.userId;
      && r.state.balances.Keys == s.balances.Keys
      && r.state.balances[payer] == s.balances[payer] - c.amount >= 0
      && r.state.balances[owner] == s.balances[owner] + c.amount
      && (forall u :: u in s.balances && u != payer && u != owner ==> r.state.balances[u] == s.balances[u])
      && r.result.value.newBalance == r.state.balances[payer]
      && r.state.log == s.log + [tx]
      && tx.kind == TransactionModel.Transfer && tx.amount == c.amount
      && tx.description == PaymentPrefix + c.description
      && tx.sender == Some(payer) && tx.receiver == Some(owner) && tx.status == TransactionModel.Completed
      && tx.paymentMethod == None
      && tx.id == s.nextId && tx.createdAt == now
      && r.state.codes == s.codes[id := c.(status := Used, paymentId := Some(tx.id))]
      && r.state.nextId == s.nextId + 1
  {
    var seen := Fetch(s, id, now);
    if seen.result.Failure? then seen
    else
      var c := s.codes[id];
      if c.userId == payer then Step(Failure(SelfPayment), s)
      else if payer !in s.balances then Step(Failure(NotFound(Payer)), s)
      else if s.balances[payer] < c.amount then Step(Failure(InsufficientBalance), s)
      else
        var draft := TransactionModel.TxDraft(TransactionModel.Transfer, c.amount, PaymentPrefix + c.description,
                                              Some(payer), Some(c.userId), None, Some(TransactionModel.Completed));
        match TransactionModel.Create(draft, s.nextId, now)
        case None => Step(Failure(RecordRejected), s)
        case Some(tx) =>
          var payerBalance := s.balances[payer] - c.amount;
          var balances := s.balances[payer := payerBalance][c.userId := s.balances[c.userId] + c.amount];
          var codes := s.codes[id := c.(status := Used, paymentId := Some(tx.id))];
          Step(Success(Moved(tx, payerBalance)), State(balances, s.log + [tx], codes, s.nextId + 1))
  }

  /** The codes of `codes` under the ids in `ids` that `u` owns, as (id, code) entries. */
  function OwnedAmong(codes: map<CodeId, QRCode>, u: UserId, ids: set<CodeId>): set<(CodeId, QRCode)> {
    set k | k in ids && k in codes && codes[k].userId == u :: (k, codes[k])
  }

  /** Sort key of the code history. */
  function EntryTime(e: (CodeId, QRCode)): int {
    e.1.createdAt
  }

  /**
   * `GET /history/me`: every code the caller owns, each exactly once with its
   * id, newest first.
   */
  method History(s: State, caller: UserId) returns (r: seq<(CodeId, QRCode)>)
    ensures multiset(r) == multiset(OwnedAmong(s.codes, caller, s.codes.Keys))
    ensures forall e :: e in r <==> e.0 in s.codes && s.codes[e.0] == e.1 && e.1.userId == caller
    ensures SortedDesc(r, EntryTime)
  {
    var pending := s.codes.Keys;
    var found: seq<(CodeId, QRCode)> := [];
    while pending != {}
      invariant pending <= s.codes.Keys
      invariant multiset(found) == multiset(OwnedAmong(s.codes, caller, s.codes.Keys - pending))
      decreases pending
    {
      var k :| k in pending;
      var before := OwnedAmong(s.codes, caller, s.codes.Keys - pending);
      var after := OwnedAmong(s.codes, caller, s.codes.Keys - (pending - {k}));
      if s.codes[k].userId == caller {
        assert (k, s.codes[k]) !in before;
        assert after == before + {(k, s.codes[k])};
        found := found + [(k, s.codes[k])];
      } else {
        assert after == before;
      }
      pending := pending - {k};
    }
    assert s.codes.Keys - pending == s.codes.Keys;
    r := SortDesc(found, EntryTime);
    ghost var all := OwnedAmong(s.codes, caller, s.codes.Keys);
    assert forall e :: e in r <==> e in multiset(all);
  }
}
