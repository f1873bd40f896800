# er_transfer ledger, modelled in Dafny

The `er_transfer` on-chain program keeps one `Balance { balance: u64 }`
account per owner, at an address derived from the owner's public key. Two of
its instructions form the ledger:

- `initialize` opens the signer's balance account (`init`) and sets it to 0;
- `transfer(amount)` loads the payer's account and the receiver's account
  (opening the receiver's at 0 with `init_if_needed`), rejects the call with
  `InsufficientBalance` when the payer holds less than `amount`, and otherwise
  debits the payer and credits the receiver.

The model has two modules:

- `Totals` (`totals.dfy`): the `u64` type, 32-byte owner keys, and `Total`,
  the sum of every balance in a ledger, with the lemmas that relate it to
  opening, updating and reading single accounts.
- `ErTransfer` (`er_transfer.dfy`): the errors; `ApplyInitialize` and
  `ApplyTransfer`, the two instructions as functions from a ledger to a new
  ledger or an error; instruction sequences (`Step`, `Run`); and the class
  `Ledger`, whose `Initialize` and `Transfer` methods update the ledger in
  place the way the handlers do, each proved equal to its function.

The address derivation is injective, so the ledger is a map keyed by the
owner. A failed instruction reverts the whole transaction, so a failed call
leaves the ledger unchanged. That includes a receiver account that
`init_if_needed` would have opened.

What is proved:

- A transfer debits the payer by exactly `amount`, and the debit cannot
  underflow. It credits the receiver by exactly `amount`, and a new receiver
  ends with exactly `amount`. No other account changes.
- Each error arises exactly when its condition holds, and a transfer
  succeeds exactly when the payer has an account holding at least `amount`
  and the credited balance fits in a `u64`.
- Both instructions conserve the ledger's total, and so does every sequence
  of them.
- While the total fits in a `u64`, the receiver's `+=` never overflows.
- No instruction creates value. So on a ledger built from nothing, every
  account holds 0 and every transfer of a positive amount fails.
- In particular, in the model, the order of instructions that the integration
  test (`tests/er_transfer.ts`) issues ends in `InsufficientBalance`: the
  wallet and Bob each initialize, then the wallet transfers 1 to Bob. This
  is a result about the model. It carries over to the real test only under
  these assumptions:
  - the delegation calls in between leave the balances as they are;
  - after `delegate_balance`, both balance accounts still load in `transfer`;
  - rent and lamport payment succeed: `initialize` charges the user
    (lib.rs line 60), and the test's airdrop to Bob is commented out.

Anchor behaviour that comes from the account constraints, not from the
handler bodies, is modelled as errors:

- `init` on an owner that already has an account fails (`AccountAlreadyInUse`).
- A payer without a balance account cannot be loaded (`AccountNotInitialized`).
- The receiver's `+=` at line 38 has no guard in the source. It is modelled as
  an abort (`ArithmeticOverflow`), which is what Rust's overflow checks do.

## Model

| member | source | states |
|---|---|---|
| `ErTransfer.ApplyInitialize` | programs/er_transfer/src/lib.rs:53-68 | fails with `AccountAlreadyInUse` exactly when the owner already has an account; otherwise the owner's account exists and holds 0, and every existing account is kept |
| `ErTransfer.Ledger.Initialize` | programs/er_transfer/src/lib.rs:13-17 | the handler in place: success exactly when the user had no account, and the new ledger is the old one plus that account at 0; on failure nothing changes; the total is kept |
| `ErTransfer.ApplyTransfer` | programs/er_transfer/src/lib.rs:85-109 | `AccountNotInitialized` exactly when the payer has no account; `InsufficientBalance` exactly when the payer holds less than `amount`; `ArithmeticOverflow` exactly when the credited balance would exceed the u64 range; success exactly when none of these holds. On success, the payer holds old minus `amount`; the receiver holds its old balance (0 if new) plus `amount`; the receiver's account exists; every other account is unchanged |
| `ErTransfer.Ledger.Transfer` | programs/er_transfer/src/lib.rs:31-40 | the handler in place, with the same status and new ledger as `ApplyTransfer`. Success exactly when the payer has an account holding at least `amount` and the credit fits in a u64. On failure nothing changes. On success, the exact debit and credit, and no other account changes. The total is kept, and no overflow occurs while the total fits in a u64 |
| `ErTransfer.InitializeConserves` | programs/er_transfer/src/lib.rs:13-17 | opening an account at 0 keeps the ledger's total |
| `ErTransfer.TransferConserves` | programs/er_transfer/src/lib.rs:37-38 | a successful transfer between distinct owners keeps the ledger's total |
| `ErTransfer.TransferPairConserves` | programs/er_transfer/src/lib.rs:37-38 | a successful transfer keeps the sum of the payer's and the receiver's balances |
| `ErTransfer.TransferNeverOverflows` | programs/er_transfer/src/lib.rs:124-127 | while the total of all `u64` balances fits in a `u64`, a transfer never fails with overflow |
| `ErTransfer.StepConserves` | programs/er_transfer/src/lib.rs:13-40 | one instruction, successful or reverted, keeps the total |
| `ErTransfer.RunConserves` | programs/er_transfer/src/lib.rs:13-40 | any sequence of instructions keeps the total |
| `ErTransfer.FromEmptyAllZero` | programs/er_transfer/src/lib.rs:13-17 | every account of a ledger built from nothing by these instructions holds 0 |
| `ErTransfer.FromEmptyTransferFails` | programs/er_transfer/src/lib.rs:34-36 | on such a ledger every transfer of a positive amount fails with `AccountNotInitialized` or `InsufficientBalance` |
| `ErTransfer.TestScenarioTransferRejected` | tests/er_transfer.ts:54-112 | in the model, after the wallet and Bob initialize, the wallet's transfer of 1 to Bob is rejected with `InsufficientBalance` |

## Left out

- `delegate_balance` and `undelegate` (lib.rs lines 19-29 and 42-50) are calls into the external ephemeral-rollups SDK, whose behaviour is not visible. While an account is delegated, which chain holds it is not part of this model.
- The address derivation is a hash inside the Solana runtime. It is taken as injective, so the ledger is keyed by the owner.
- The account discriminator and Borsh serialisation are handled by the Anchor framework and are not modelled. So are the `8 + 8` space layout, rent and lamport payment through the System Program, and signer checks.
- `ErTransfer.ApplyTransfer`: a transfer where the payer is also the receiver is excluded by a precondition. There the program loads the same account twice, and the result depends on the order in which Anchor writes the copies back. That order is not in the source.
- `ErTransfer.Ledger.Transfer`: excludes payer == receiver, for the same reason.
- Overflow at line 38 is modelled as an abort. With Rust's overflow checks off, the sum would wrap instead. The build flags are not part of this model. Either way, `TransferNeverOverflows` shows the sum cannot exceed the u64 range while the total fits.
- The test script's network and keypair handling are not modelled. This covers the router connections, validator lookup and `.rpc()` calls. Only its sequence of instructions appears, in `TestScenarioTransferRejected`.
