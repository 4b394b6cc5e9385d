/**
 * The service as a whole: any request of any caller is one atomic step on
 * the shared state. This module states what holds across every step and
 * across every sequence of steps: the state invariant, conservation of
 * money, and the payment-code lifecycle (final statuses, at most one
 * redemption per code).
 */
module Engine {
  import opened Base
  import opened Ledger
  import opened TransactionModel
  import opened QRCodeModel
  import opened Wallet
  import TransactionRoutes
  import QRCodeRoutes

  /** A request, with the authenticated caller where the handler uses one. */
  datatype Request =
    | DepositReq(caller: UserId, amount: Option<int>, description: string, paymentMethod: string)
    | TransferReq(caller: UserId, receiverId: UserId, amount: Option<int>, description: string)
    | GenerateReq(caller: UserId, amount: Option<int>, description: string)
    | FetchReq(code: CodeId)
    | PayReq(payer: UserId, code: CodeId)

  /** A request served at time `now` (milliseconds). */
  datatype Call = Call(req: Request, now: int)

  /** Serves one call. */
  function Apply(s: State, c: Call): Step {
    match c.req
    case DepositReq(u, amount, description, pm) => TransactionRoutes.Deposit(s, u, amount, description, pm, c.now)
    case TransferReq(u, to, amount, description) => TransactionRoutes.Transfer(s, u, to, amount, description, c.now)
    case GenerateReq(u, amount, description) => QRCodeRoutes.Generate(s, u, amount, description, c.now)
    case FetchReq(id) => QRCodeRoutes.Fetch(s, id, c.now)
    case PayReq(u, id) => QRCodeRoutes.Pay(s, u, id, c.now)
  }

  /** Serves the calls one after the other. */
  function Run(s: State, calls: seq<Call>): State
    decreases |calls|
  {
    if calls == [] then s else Run(Apply(s, calls[0]).state, calls[1..])
  }

  /** Money the call brings into the service: the amount of a successful deposit, nothing otherwise. */
  function Minted(s: State, c: Call): int {
    if c.req.DepositReq? && Apply(s, c).result.Success? then c.req.amount.value else 0
  }

  /** Money the calls bring into the service. */
  function MintedRun(s: State, calls: seq<Call>): int
    decreases |calls|
  {
    if calls == [] then 0 else Minted(s, calls[0]) + MintedRun(Apply(s, calls[0]).state, calls[1..])
  }

  /** The call is a payment of code `id` that succeeds. */
  predicate Redeems(s: State, c: Call, id: CodeId) {
    c.req.PayReq? && c.req.code == id && Apply(s, c).result.Success?
  }

  /** How many of the calls successfully pay code `id`. */
  function Redemptions(s: State, calls: seq<Call>, id: CodeId): nat
    decreases |calls|
  {
    if calls == [] then 0
    else (if Redeems(s, calls[0], id) then 1 else 0) + Redemptions(Apply(s, calls[0]).state, calls[1..], id)
  }

  // ---------------------------------------------------------------------------
  // Conservation of money

  /** Deposits are the only way money enters; transfers and payments move it without loss. */
  lemma ApplyConserves(s: State, c: Call)
    ensures Apply(s, c).state.balances.Keys == s.balances.Keys
    ensures Total(Apply(s, c).state.balances) == Total(s.balances) + Minted(s, c)
  {
    var r := Apply(s, c);
    if r.result.Success? {
      match c.req
      case DepositReq(u, amount, description, pm) =>
        TotalUpdate(s.balances, u, s.balances[u] + amount.value);
      case TransferReq(u, to, amount, description) =>
        TotalMove(s.balances, u, to, amount.value);
      case GenerateReq(_, _, _) =>
      case FetchReq(_) =>
      case PayReq(u, id) =>
        TotalMove(s.balances, u, s.codes[id].userId, s.codes[id].amount);
    }
  }

  /** Over any run, the money held equals the money held at the start plus everything deposited. */
  lemma {:induction false} RunConserves(s: State, calls: seq<Call>)
    ensures Run(s, calls).balances.Keys == s.balances.Keys
    ensures Total(Run(s, calls).balances) == Total(s.balances) + MintedRun(s, calls)
    decreases |calls|
  {
    if calls != [] {
      ApplyConserves(s, calls[0]);
      RunConserves(Apply(s, calls[0]).state, calls[1..]);
    }
  }

  /** Starting from empty accounts, the money held is exactly the sum of the successful deposits. */
  lemma ClosedSystemConservation(s: State, calls: seq<Call>)
    requires forall u :: u in s.balances ==> s.balances[u] == 0
    ensures Total(Run(s, calls).balances) == MintedRun(s, calls)
  {
    SumZero(s.balances, s.balances.Keys);
    RunConserves(s, calls);
  }

  // ---------------------------------------------------------------------------
  // The state invariant

  /** A service with registered accounts of non-negative balance and nothing else stored satisfies the invariant. */
  lemma EmptyStoreSatisfiesInv(b: Balances)
    requires NonNegative(b)
    ensures Inv(State(b, [], map[], 0))
  {
  }

  /** Appending a transaction keeps every existing link valid. */
  lemma LoggedAppend(log: seq<Transaction>, t: Transaction, id: TxId)
    requires Logged(log, id)
    ensures Logged(log + [t], id)
  {
    var i :| 0 <= i < |log| && log[i].id == id;
    assert (log + [t])[i] == log[i];
  }

  /** Appending a well-formed transaction with a fresh id keeps the log part of the invariant. */
  lemma AppendKeepsInv(s: State, t: Transaction, s': State)
    requires Inv(s)
    requires TransactionModel.WellFormed(t) && t.id == s.nextId
    requires s'.log == s.log + [t] && s'.nextId == s.nextId + 1
    requires NonNegative(s'.balances)
    requires s'.codes.Keys <= s.codes.Keys + {t.id}
    requires forall k :: k in s'.codes ==> QRCodeModel.WellFormed(s'.codes[k])
    requires forall k :: k in s'.codes && (k !in s.codes || s'.codes[k] != s.codes[k]) ==>
               LinkedWhenUsed(s'.codes[k], s'.log)
    ensures Inv(s')
  {
    forall k | k in s'.codes
      ensures LinkedWhenUsed(s'.codes[k], s'.log)
    {
      if k in s.codes && s'.codes[k] == s.codes[k] && s.codes[k].paymentId.Some? {
        LoggedAppend(s.log, t, s.codes[k].paymentId.value);
      }
    }
  }

  /** Every handler keeps the state invariant. */
  lemma ApplyPreservesInv(s: State, c: Call)
    requires Inv(s)
    ensures Inv(Apply(s, c).state)
  {
    var r := Apply(s, c);
    if r.result.Success? {
      match c.req
      case DepositReq(u, amount, description, pm) =>
        AppendKeepsInv(s, r.result.value.tx, r.state);
      case TransferReq(u, to, amount, description) =>
        AppendKeepsInv(s, r.result.value.tx, r.state);
      case GenerateReq(_, _, _) =>
      case FetchReq(_) =>
      case PayReq(u, id) =>
        var tx := r.result.value.tx;
        assert r.state.log[|s.log|] == tx;
        assert Logged(r.state.log, tx.id);
        AppendKeepsInv(s, tx, r.state);
    }
  }

  /** Every run keeps the state invariant. */
  lemma {:induction false} RunPreservesInv(s: State, calls: seq<Call>)
    requires Inv(s)
    ensures Inv(Run(s, calls))
    decreases |calls|
  {
    if calls != [] {
      ApplyPreservesInv(s, calls[0]);
      RunPreservesInv(Apply(s, calls[0]).state, calls[1..]);
    }
  }

  // ---------------------------------------------------------------------------
  // Payment-code lifecycle

  /** No step deletes a code, and every status change a step makes is one the lifecycle allows. */
  lemma ApplyFollowsLifecycle(s: State, c: Call, id: CodeId)
    requires Inv(s) && id in s.codes
    ensures id in Apply(s, c).state.codes
    ensures Allowed(s.codes[id].status, Apply(s, c).state.codes[id].status)
    ensures s.codes[id].status != Active ==> Apply(s, c).state.codes[id] == s.codes[id]
  {
  }

  /** A used or expired code never changes again, whatever calls follow. */
  lemma {:induction false} FinalCodeStaysFinal(s: State, calls: seq<Call>, id: CodeId)
    requires Inv(s) && id in s.codes && s.codes[id].status != Active
    ensures id in Run(s, calls).codes && Run(s, calls).codes[id] == s.codes[id]
    decreases |calls|
  {
    if calls != [] {
      var s1 := Apply(s, calls[0]).state;
      ApplyFollowsLifecycle(s, calls[0], id);
      ApplyPreservesInv(s, calls[0]);
      FinalCodeStaysFinal(s1, calls[1..], id);
    }
  }

  /** A successful payment leaves its code used, linked to the new transaction. */
  lemma RedeemUsesCode(s: State, c: Call, id: CodeId)
    requires Redeems(s, c, id)
    ensures id in s.codes && s.codes[id].status == Active
    ensures id in Apply(s, c).state.codes && Apply(s, c).state.codes[id].status == Used
    ensures Apply(s, c).state.codes[id].paymentId == Some(Apply(s, c).result.value.tx.id)
  {
  }

  /**
   * Sequential payments redeem a code at most once, and a code that is
   * already used or expired is never redeemed.
   */
  lemma {:induction false} AtMostOnce(s: State, calls: seq<Call>, id: CodeId)
    requires Inv(s)
    ensures Redemptions(s, calls, id) <= 1
    ensures id in s.codes && s.codes[id].status != Active ==> Redemptions(s, calls, id) == 0
    decreases |calls|
  {
    if calls != [] {
      var s1 := Apply(s, calls[0]).state;
      var rest := calls[1..];
      ApplyPreservesInv(s, calls[0]);
      if Redeems(s, calls[0], id) {
        RedeemUsesCode(s, calls[0], id);
        AtMostOnce(s1, rest, id);
      } else {
        AtMostOnce(s1, rest, id);
        if id in s.codes && s.codes[id].status != Active {
          ApplyFollowsLifecycle(s, calls[0], id);
        }
      }
    }
  }

  // ---------------------------------------------------------------------------
  // A worked example

  /**
   * A deposits 100 by card and issues a code for 40; B deposits 50 and pays
   * the code. A ends with 140, B with 10, and the code is used.
   */
  lemma PaymentScenario()
    ensures var s0 := State(map["A" := 0, "B" := 0], [], map[], 0);
      var s := Run(s0, [Call(DepositReq("A", Some(100), "top up", "card"), 1),
                        Call(GenerateReq("A", Some(40), ""), 2),
                        Call(DepositReq("B", Some(50), "top up", "upi"), 3),
                        Call(PayReq("B", 1), 4)]);
      && s.balances == map["A" := 140, "B" := 10]
      && s.codes[1].status == Used && s.codes[1].paymentId == Some(3)
      && |s.log| == 3 && s.log[2].sender == Some("B") && s.log[2].receiver == Some("A") && s.log[2].amount == 40
  {
  }
}
