/**
 * The money-movement handlers (backend/routes/transictionroute.js): deposit,
 * transfer, and the caller's transaction listing. Each handler validates in
 * a fixed order and either fails leaving the state as it was, or performs
 * one atomic update of balances and log.
 */
module TransactionRoutes {
  import opened Base
  import opened Ledger
  import opened TransactionModel
  import opened Wallet
  import opened Ordering

  /**
   * `POST /deposit`: credits `amount` to the caller and logs a `deposit`
   * transaction. Checks, in order: the amount is present and positive, it
   * does not exceed the deposit limit, a payment method is given, the caller
   * exists, and the new transaction passes the schema.
   */
  function Deposit(s: State, caller: UserId, amount: Option<int>, description: string,
                   paymentMethod: string, now: int): (r: Step)
    ensures r.result.Failure? ==> r.state == s
    ensures !Present(amount) || amount.value <= 0 ==> r.result == Failure(InvalidAmount)
    ensures amount.Some? && amount.value > DepositLimit ==> r.result == Failure(DepositLimitExceeded)
    ensures amount.Some? && 0 < amount.value <= DepositLimit && paymentMethod == "" ==>
              r.result == Failure(MissingField)
    ensures amount.Some? && 0 < amount.value <= DepositLimit && paymentMethod != "" && caller !in s.balances ==>
              r.result == Failure(NotFound(Account))
    ensures amount.Some? && 0 < amount.value <= DepositLimit && paymentMethod != "" && caller in s.balances &&
            (paymentMethod !in {"card", "bank", "upi"} || description == "") ==>
              r.result == Failure(RecordRejected)
    ensures r.result.Success? <==>
      && amount.Some? && 0 < amount.value <= DepositLimit
      && paymentMethod in {"card", "bank", "upi"}
      && description != ""
      && caller in s.balances
    ensures r.result.Success? ==>
      && r.result.value.Moved?
      && var tx := r.result.value.tx;
      && r.state.balances.Keys == s.balances.Keys
      && r.state.balances[caller] == s.balances[caller] + amount.value
      && (forall u :: u in s.balances && u != caller ==> r.state.balances[u] == s.balances[u])
      && r.result.value.newBalance == r.state.balances[caller]
      && r.state.log == s.log + [tx]
      && tx.kind == TxKind.Deposit && tx.amount == amount.value && tx.description == description
      && tx.receiver == Some(caller) && tx.sender == None && tx.status == Completed
      && tx.paymentMethod.Some? && MethodName(tx.paymentMethod.value) == paymentMethod
      && tx.id == s.nextId && tx.createdAt == now
      && r.state.codes == s.codes
      && r.state.nextId == s.nextId + 1
  {
    if !Present(amount) || amount.value <= 0 then Step(Failure(InvalidAmount), s)
    else if amount.value > DepositLimit then Step(Failure(DepositLimitExceeded), s)
    else if paymentMethod == "" then Step(Failure(MissingField), s)
    else if caller !in s.balances then Step(Failure(NotFound(Account)), s)
    else
      var draft := TxDraft(TxKind.Deposit, amount.value, description, None, Some(caller),
                           Some(paymentMethod), Some(Completed));
      match Create(draft, s.nextId, now)
      case None => Step(Failure(RecordRejected), s)
      case Some(tx) =>
        var balance := s.balances[caller] + amount.value;
        Step(Success(Moved(tx, balance)),
             State(s.balances[caller := balance], s.log + [tx], s.codes, s.nextId + 1))
  }

  /**
   * `POST /transfer`: moves `amount` from the caller to `receiverId` and logs
   * a `transfer` transaction. Checks, in order: receiver, amount and
   * description are all given (an amount of 0 counts as absent), the amount
   * is positive, the sender exists, the receiver exists, the sender's balance
   * is non-zero and covers the amount, and the receiver is someone else.
   */
  function Transfer(s: State, caller: UserId, receiverId: UserId, amount: Option<int>,
                    description: string, now: int): (r: Step)
    ensures r.result.Failure? ==> r.state == s
    ensures receiverId == "" || !Present(amount) || description == "" ==> r.result == Failure(MissingField)
    ensures receiverId != "" && Present(amount) && description != "" && amount.value < 0 ==>
              r.result == Failure(InvalidAmount)
    ensures r.result == Failure(NotFound(Sender)) <==>
      receiverId != "" && Present(amount) && amount.value > 0 && description != "" && caller !in s.balances
    ensures r.result == Failure(NotFound(Receiver)) <==>
      && receiverId != "" && Present(amount) && amount.value > 0 && description != ""
      && caller in s.balances && receiverId !in s.balances
    ensures r.result == Failure(SelfTransfer) ==> caller == receiverId
    ensures caller == receiverId ==> r.result.Failure?
    ensures receiverId != "" && Present(amount) && amount.value > 0 && description != "" &&
            caller in s.balances && receiverId in s.balances && s.balances[caller] < amount.value ==>
              r == Step(Failure(InsufficientBalance), s)
    ensures receiverId != "" && Present(amount) && amount.value > 0 && description != "" &&
            caller in s.balances && s.balances[caller] >= amount.value && caller == receiverId ==>
              r == Step(Failure(SelfTransfer), s)
    ensures r.result.Success? <==>
      && receiverId != "" && amount.Some? && amount.value > 0 && description != ""
      && caller in s.balances && receiverId in s.balances
      && s.balances[caller] >= amount.value
      && caller != receiverId
    ensures r.result.Success? ==>
      && r.result.value.Moved?
      && var tx := r.result.value.tx;
      && r.state.balances.Keys == s.balances.Keys
      && r.state.balances[caller] == s.balances[caller] - amount.value >= 0
      && r.state.balances[receiverId] == s.balances[receiverId] + amount.value
      && (forall u :: u in s.balances && u != caller && u != receiverId ==> r.state.balances[u] == s.balances[u])
      && r.result.value.newBalance == r.state.balances[caller]
      && r.state.log == s.log + [tx]
      && tx.kind == TxKind.Transfer && tx.amount == amount.value && tx.description == description
      && tx.sender == Some(caller) && tx.receiver == Some(receiverId) && tx.status == Completed
      && tx.paymentMethod == None
      && tx.id == s.nextId && tx.createdAt == now
      && r.state.codes == s.codes
      && r.state.nextId == s.nextId + 1
  {
    if receiverId == "" || !Present(amount) || description == "" then Step(Failure(MissingField), s)
    else if amount.value <= 0 then Step(Failure(InvalidAmount), s)
    else if caller !in s.balances then Step(Failure(NotFound(Sender)), s)
    else if receiverId !in s.balances then Step(Failure(NotFound(Receiver)), s)
    else if s.balances[caller] == 0 || s.balances[caller] < amount.value then Step(Failure(InsufficientBalance), s)
    else if caller == receiverId then Step(Failure(SelfTransfer), s)
    else
      var draft := TxDraft(TxKind.Transfer, amount.value, description, Some(caller), Some(receiverId),
                           None, Some(Completed));
      var tx := Create(draft, s.nextId, now).value;
      var senderBalance := s.balances[caller] - amount.value;
      var balances := s.balances[caller := senderBalance][receiverId := s.balances[receiverId] + amount.value];
      Step(Success(Moved(tx, senderBalance)), State(balances, s.log + [tx], s.codes, s.nextId + 1))
  }

  /** The transaction sends money from or to `u`. */
  predicate Involves(t: Transaction, u: UserId) {
    t.sender == Some(u) || t.receiver == Some(u)
  }

  /** The transactions of `log` that involve `u`, in log order. */
  function Involving(log: seq<Transaction>, u: UserId): (r: seq<Transaction>)
    ensures forall t :: t in r <==> t in log && Involves(t, u)
    ensures forall t :: multiset(r)[t] == if Involves(t, u) then multiset(log)[t] else 0
    ensures |r| <= |log|
  {
    if log == [] then []
    else
      assert log == [log[0]] + log[1..];
      (if Involves(log[0], u) then [log[0]] else []) + Involving(log[1..], u)
  }

  /** Sort key of the transaction listing. */
  function TxTime(t: Transaction): int {
    t.createdAt
  }

  /**
   * `GET /`: the caller's transactions — those it sent or received — newest
   * first.
   */
  function ListTransactions(s: State, caller: UserId): (r: seq<Transaction>)
    ensures forall t :: t in r <==> t in s.log && Involves(t, caller)
    ensures multiset(r) == multiset(Involving(s.log, caller))
    ensures SortedDesc(r, TxTime)
  {
    var mine := Involving(s.log, caller);
    var sorted := SortDesc(mine, TxTime);
    assert forall t :: t in sorted <==> t in multiset(mine);
    sorted
  }

  /** In a log written in time order, no later entry is older than the first. */
  lemma FirstIsOldest(log: seq<Transaction>)
    requires log != [] && Chronological(log, TxTime)
    ensures forall t :: t in log[1..] ==> TxTime(log[0]) <= TxTime(t)
  {
    forall t | t in log[1..] ensures TxTime(log[0]) <= TxTime(t) {
      var j :| 0 <= j < |log[1..]| && log[1..][j] == t;
      assert log[j + 1] == t;
    }
  }

  /** Filtering a log written in time order leaves it in time order. */
  lemma {:induction false} InvolvingChronological(log: seq<Transaction>, u: UserId)
    requires Chronological(log, TxTime)
    ensures Chronological(Involving(log, u), TxTime)
  {
    if log != [] {
      var tail := Involving(log[1..], u);
      InvolvingChronological(log[1..], u);
      FirstIsOldest(log);
      assert forall t :: t in tail ==> t in log[1..];
      if Involves(log[0], u) {
        PrependChronological(log[0], tail, TxTime);
        assert Involving(log, u) == [log[0]] + tail;
      } else {
        assert Involving(log, u) == tail;
      }
    }
  }

  /**
   * When transactions are saved in time order, the listing is simply the
   * caller's part of the log read back to front.
   */
  lemma ListingOfChronologicalLog(s: State, caller: UserId)
    requires Chronological(s.log, TxTime)
    ensures ListTransactions(s, caller) == Reverse(Involving(s.log, caller))
  {
    InvolvingChronological(s.log, caller);
    SortChronologicalIsReverse(Involving(s.log, caller), TxTime);
  }
}
