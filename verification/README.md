# Wallet ledger and payment-code engine — a Dafny model

This project models the core of a custodial wallet backend: the request
handlers that move money between accounts and the lifecycle of payment
("QR") codes, together with the schema rules of the stored records and the
client-side authentication reducer.

Every handler is a pure step function from the shared state — account
balances, an append-only transaction log, and a map of payment codes — plus
the authenticated caller, the request fields and the current time `now`, to a
`Step`: a `Result` (a reply or one of the errors the code distinguishes) and
the next state. Document ids come from a counter in the state, so fresh ids
are never reused.

- `Base` — `Option` and `Result`.
- `Ledger` — balances, their total, and lemmas about updating them.
- `TransactionModel`, `QRCodeModel` — the two record schemas, their defaults,
  and save-time validation (`Create` returns `None` when a save is rejected).
- `Wallet` — the state, errors, replies and the state invariant `Inv`.
- `TransactionRoutes` — deposit, transfer, transaction listing.
- `QRCodeRoutes` — generate, fetch (with lazy expiry), pay, history.
- `Ordering` — newest-first sorting used by both listings.
- `Engine` — any request as one step, runs of steps, conservation of money,
  preservation of `Inv`, and the code lifecycle (final statuses, at most one
  redemption per code).
- `UserSlice` — the client auth-state reducer.

Request fields follow JavaScript truthiness: an absent amount and an amount
of 0 are both rejected by `!amount`, which `Wallet.Present` captures; an empty
string stands for an absent text field. Consequently a transfer of 0 fails
with `MissingField`, while a deposit or code of 0 fails with `InvalidAmount`.

Behaviours of the handlers worth noting:
- the transfer handler checks the sender's balance before the self-transfer
  test, so a self-transfer with too little money reports `InsufficientBalance`;
- the deposit handler checks only that a payment method is present; a method
  outside `card`/`bank`/`upi`, or an empty description, is rejected when the
  transaction is saved (`RecordRejected`, an internal error in the source) and
  nothing changes, because the transaction is saved before the balance;
- a code whose owner account no longer exists makes fetch and pay crash right
  after the expiry test (`PayeeMissing`), with no state change;
- when A deposits 100 and issues a code for 40, and B deposits 50 and pays
  it, A ends with 140 and B with 10 (`Engine.PaymentScenario`).

## Model

| member | source | states |
|---|---|---|
| TransactionRoutes.Deposit | backend/routes/transictionroute.js:48-93 | Rejects, leaving the state unchanged, an absent or non-positive amount, an amount above 5000 (5000 is accepted), a missing payment method, an unknown caller, and a record the schema refuses; success happens exactly when all checks pass, raises only the caller's balance by the amount, appends one completed deposit with receiver = caller and no sender, and returns the new balance |
| TransactionRoutes.Transfer | backend/routes/transictionroute.js:96-168 | Missing fields (zero amount included) fail first, then a negative amount, then an absent sender, then an absent receiver; a zero or short balance fails before the self-transfer test; success happens exactly when sender and receiver exist and differ and the balance covers the amount, and then debits the sender (never below 0), credits the receiver by the same amount, leaves every other account alone and appends one completed transfer with no payment method |
| TransactionRoutes.Involving | backend/routes/transictionroute.js:34-36 | Keeps exactly the log entries whose sender or receiver is the caller |
| TransactionRoutes.ListTransactions | backend/routes/transictionroute.js:34-40 | Returns exactly the caller's sent and received transactions, each as often as logged, ordered by creation time descending |
| TransactionRoutes.ListingOfChronologicalLog | backend/routes/transictionroute.js:34-39 | For a log saved in time order, the listing is the caller's part of the log read newest first |
| QRCodeRoutes.Generate | backend/routes/qrcoderoute.js:9-49 | Fails, with no change, exactly on an absent or non-positive amount; otherwise stores under a fresh id an active code owned by the caller with no linked payment, the given description or "QR Code Payment" when empty, and expiry 24 hours after now, touching no balance or transaction |
| QRCodeRoutes.Fetch | backend/routes/qrcoderoute.js:52-100 | Unknown id: not found; non-active code: no longer active; active code with expiresAt strictly before now: marked expired and fails; owner missing: fails; otherwise returns the code; only the expiry case changes state, and only that code's status |
| QRCodeRoutes.Pay | backend/routes/qrcoderoute.js:103-200 | Fails exactly as fetch does (including the lazy expiry), then on self-payment, unknown payer and short balance, each leaving balances and code untouched; success moves the code amount from payer to owner, appends a completed transfer with no payment method, described "QR Payment:" plus the code's description, marks the code used with that transaction's id, and returns the payer's new balance |
| QRCodeRoutes.History | backend/routes/qrcoderoute.js:203-232 | Returns every code the caller owns, each exactly once with its id, and nothing else, newest first |
| TransactionModel.ParseMethod | backend/models/Transaction.js:41-47 | Accepts exactly "card", "bank" and "upi", and parsing then printing gives the input back |
| TransactionModel.Create | backend/models/Transaction.js:3-55 | A transaction is stored exactly when its amount is not negative (and at most 5000 for deposits), it has a description, a sender if a transfer, a receiver if a transfer or deposit, a payment method if a deposit, and any payment method is one of the three; the stored record keeps the fields, gets status completed unless given one, and is well-formed |
| QRCodeModel.Create | backend/models/QRCode.js:3-34 | A code is stored exactly when its amount is not negative and it has a description; it starts active, with no payment link, expiring 86 400 000 ms after creation |
| QRCodeModel.FreshCodePayableUntilDeadline | backend/models/QRCode.js:23-26 | A fresh code is not past expiry at any time up to and including creation plus 24 hours |
| Ledger.TotalMove | backend/routes/transictionroute.js:145-146 | Debiting one account and crediting a different one by the same amount leaves the sum of all balances unchanged |
| Ledger.TotalUpdate | backend/routes/transictionroute.js:78 | Changing one balance changes the sum of all balances by exactly the difference |
| Engine.ApplyConserves | backend/routes/qrcoderoute.js:166-168 | No request creates or deletes accounts; a successful deposit raises the total by its amount and every other request leaves the total unchanged |
| Engine.RunConserves | backend/routes/transictionroute.js:144-146 | Over any sequence of requests the total equals the starting total plus the successful deposits |
| Engine.ClosedSystemConservation | backend/routes/transictionroute.js:78 | Starting from zero balances, the total is exactly the sum of successful deposits |
| Engine.EmptyStoreSatisfiesInv | backend/server.js:64-72 | A store holding only registered accounts with non-negative balances (registration starts them at 0) and no transactions or codes satisfies the invariant |
| Engine.ApplyPreservesInv | backend/models/Transaction.js:3-52 | Every request keeps balances non-negative, every stored record schema-valid, ids unique, and used codes (and only they) linked to a logged transaction |
| Engine.RunPreservesInv | backend/routes/qrcoderoute.js:157-180 | The invariant holds after any sequence of requests |
| Engine.ApplyFollowsLifecycle | backend/routes/qrcoderoute.js:64-77 | No request deletes a code; a code only stays put or leaves active for used or expired, and a used or expired code is left exactly as it was |
| Engine.FinalCodeStaysFinal | backend/routes/qrcoderoute.js:115-120 | A used or expired code never changes again, whatever requests follow, so an expired code never becomes used |
| Engine.RedeemUsesCode | backend/routes/qrcoderoute.js:170-172 | A successful payment finds the code active and leaves it used, linked to the new transaction |
| Engine.AtMostOnce | backend/routes/qrcoderoute.js:115-172 | In any sequence of requests a code is paid successfully at most once, and never if it is already used or expired |
| Engine.PaymentScenario | backend/routes/qrcoderoute.js:157-191 | Worked example: deposits of 100 and 50 and a paid code of 40 leave balances 140 and 10 and the code used |
| Ordering.SortDesc | backend/routes/qrcoderoute.js:206 | The result is a permutation of the input ordered by creation time descending |
| Ordering.SortChronologicalIsReverse | backend/routes/transictionroute.js:39 | Sorting records already in time order newest first is reversing them |
| UserSlice.Initial | frontend/src/redux/UserSlice.js:3-8 | No user, not loading, no error, not signed in |
| UserSlice.Reduce | frontend/src/redux/UserSlice.js:14-32 | SetUser stores the payload (even null), signs in and clears loading and error; SetLoading changes only loading; SetError stores the error and clears loading, keeping user and sign-in; ClearUser yields exactly the initial state |
| UserSlice.ClearUserIdempotent | frontend/src/redux/UserSlice.js:27-32 | Clearing twice equals clearing once |
| UserSlice.ReducePreservesConsistent | frontend/src/redux/UserSlice.js:14-32 | If a present user implies signed in before an action, it does after |
| UserSlice.NullUserCanBeAuthenticated | frontend/src/redux/UserSlice.js:14-19 | SetUser with a null payload still yields a signed-in state with no user |
| UserSlice.SessionFollowsLastSignIn | frontend/src/redux/UserSlice.js:14-32 | From the initial state, the client is signed in exactly when the last SetUser/ClearUser was SetUser, and the user is that action's payload |

## Left out

- Concurrency and partial failure: the source saves the transaction, balances and code with separate or parallel writes (`Promise.all`) and no atomicity; each handler is modelled as one atomic step, so races between concurrent payments of the same code and half-applied updates are a known gap of the source that this model does not represent.
- QRCodeRoutes.Pay: when the payment transaction is refused by the schema (only possible for a code with a negative amount, which `Inv` rules out) the source would still save the balances and the code; the model reports `RecordRejected` with no change.
- Amounts are integers; JavaScript floating point, `parseFloat` on strings and comparisons of numeric strings are not modelled (`parseFloat` of a number is the identity).
- HTTP plumbing: routing, status codes, messages, the auth middleware, id cast errors on malformed ids, and `populate` of display names; `Fetch` returns the payee's id instead of the merchant's name and email, and `History` returns the payment id instead of the populated payment.
- Request ids are assumed to be in canonical form: the source casts `receiverId` and code ids through the database's id type (so, for example, upper-case hex finds the same account), while the model matches ids exactly.
- The background TTL deletion of codes (backend/models/QRCode.js:38) and the `(userId, status)` index. The TTL index has no filter on status, so the store deletes every code, whether active, used or expired, once its `expiresAt` has passed: about 24 hours after creation a used code and its payment link disappear, history stops listing it, and fetch and pay answer "not found". The lazy expiry of fetch and pay is therefore only reachable until the next deletion pass. The model never deletes codes.
- Engine.FinalCodeStaysFinal: "never changes again" describes a store without the TTL deletion; in the source a final code is eventually deleted.
- QRCodeRoutes.History: "every code the caller owns" means every code still stored; the model's store keeps codes that the source's TTL deletion would already have removed.
- `updatedAt` timestamps; `createdAt` is `now` at the save.
- Ordering of equal creation times in the listings is unspecified by the source; the transaction listing puts later-saved records first, while the code history leaves the order of codes with equal creation times unspecified.
- The verify-account endpoint (backend/routes/transictionroute.js:8-29), registration, login, profile and balance endpoints: thin lookups and credential handling outside the ledger.
- Withdrawals: no handler creates one; only their schema rules are modelled.
- All other frontend files (pages, modals, QR scanning and rendering, network calls, local storage, `authActions.js`, the store setup) and configuration files.
