# Collateral vault ledger, modelled in Dafny

A model of the collateral-vault Solana program and its off-chain backend, with proofs about both.

The program keeps one `CollateralVault` account per depositor. The account records the total the depositor holds in custody, split into an *available* part and a *locked* part, plus lifetime deposit and withdrawal counters. The instructions are:
- `deposit` and `withdraw`: the owner moves tokens in and out.
- `lock_collateral` and `unlock_collateral`: any caller listed in the global `VaultAuthority` registry moves funds between the two parts.
- `authorize_program`: adds a caller to the registry.

The backend decodes a vault account's bytes and compares the recorded total with the custody token account's balance. A monitor runs that comparison over a list of vaults.

Files, one module each:
- `prim.dfy` (`Prim`): u8, u64 and i64 as bounded subset types; a public key is 32 bytes; `checked_add` and `checked_sub`.
- `ds.rs` → `ds.dfy` (`Ds`): the account and event types; Borsh's variant byte for `TransactionType`.
- `layout.dfy` (`Layout`): little-endian integers; the Borsh layout of a `CollateralVault` account; the space the program reserves for its accounts.
- `ledger.dfy` (`Ledger`): each instruction as a function on account values, plus the invariants proved over any sequence of instructions.
- `program.dfy` (`Program`): the instructions as methods on `Vault` and `Authority` objects. They assign fields one after another, as lib.rs does. Each method is proved to agree with its function in `Ledger`. When an instruction fails the runtime discards its writes, so each failing method restores the account and leaves it unchanged.
- `backend.rs` → `backend.dfy` (`Backend`): account decoding, `u64` parsing, reconciliation, instruction data, and one monitor cycle.

Behaviour the model keeps from the code:
- **Account constraints run before the instruction body.** They are modelled as the first checks.
  - `has_one = owner` rejects a non-owner of `deposit` or `withdraw` before any funds check. So the `Unauthorized` test inside `withdraw` can never fail, and this is proved.
  - `withdraw` also checks that the token account passed in is the vault's own (`address = vault.token_account`).
  - `deposit` has no such check.
- **Zero amounts are accepted.** `InvalidAmount` is declared but never raised.
- **Lock and unlock accept any vault.** The caller is an unsigned key. The `admin` of `authorize_program` is never compared with anything. So any key holder can register an id and then lock funds in its name (`AnyoneCanLock`).
- **Every instruction keeps two invariants:**
  - `total == locked + available`;
  - `total_deposited == total + total_withdrawn`.

  With these invariants, no `Underflow` branch can fire, and `Overflow` can only come from a deposit. The lifetime counters never decrease.
- **`get_vault_state` panics on data shorter than 8 bytes.** It slices `[8..]` before decoding, and a panic ends the monitor task. So a watched address holding fewer than 8 bytes of data stops the cycle at that vault. Errors, by contrast, are printed and the cycle goes on.

## Model

| member | source | states |
|---|---|---|
| `Ds.VariantIndex` | programs/collateral_vault/src/ds.rs:31-37 | the Borsh variant byte of a transaction type is below five |
| `Ds.VariantFromIndex` | programs/collateral_vault/src/ds.rs:31-37 | a variant byte decodes exactly when it is below five |
| `Ds.VariantIndexRoundTrip` | programs/collateral_vault/src/ds.rs:31-37 | the five variants correspond one-to-one to the bytes 0-4; which variant gets which byte (declaration order) is given by the function bodies |
| `Layout.FromLeBytes` | programs/collateral_vault/src/backend.rs:131 | reading back the little-endian bytes of a number that fits gives the number |
| `Layout.LeBytesFromLe` | programs/collateral_vault/src/backend.rs:97 | writing back the number read from bytes gives the same bytes |
| `Layout.U64ToLe` | programs/collateral_vault/src/backend.rs:131 | `to_le_bytes` gives 8 bytes that read back as the value |
| `Layout.U64FromLe` | programs/collateral_vault/src/backend.rs:97 | reading 8 bytes as a u64 inverts `to_le_bytes` |
| `Layout.I64ToLe` | programs/collateral_vault/src/ds.rs:12 | the two's-complement bytes of an i64 timestamp read back as the timestamp |
| `Layout.SerializeVault` | programs/collateral_vault/src/ds.rs:4-13 | a vault serializes to 113 bytes, each field at its fixed offset, in declaration order |
| `Layout.StoreVault` | programs/collateral_vault/src/lib.rs:168-175 | an account of the given space can hold a vault exactly when the space holds tag plus 113 bytes; its data then starts with the tag and the serialized vault |
| `Layout.InitializeSpaceTooSmall` | programs/collateral_vault/src/create.rs:12 | the `Vault::LEN` space (107) reserved by `initialize` cannot hold any vault (121 needed) |
| `Layout.InitializeSpaceSuffices` | programs/collateral_vault/src/ds.rs:4-13 | with 121 bytes every vault is stored as tag followed by its serialization |
| `Layout.AuthorityCapacity` | programs/collateral_vault/src/lib.rs:198 | the authority account fits a list exactly when it holds at most 5 ids |
| `Ledger.Initialized` | programs/collateral_vault/src/lib.rs:17-31 | a new vault records the keys, bump and time, with all counters at zero, so both invariants hold |
| `Ledger.ApplyDeposit` | programs/collateral_vault/src/lib.rs:41-68 | non-owner: `ConstraintHasOne`. Failed transfer: that error. Otherwise succeeds exactly when no sum overflows, else `Overflow`. Success adds `amount` to total, available and deposited and changes nothing else; it keeps both invariants. Zero is accepted. |
| `Ledger.ApplyWithdraw` | programs/collateral_vault/src/lib.rs:70-102 | checks ownership, then the token account, then funds (`InsufficientFunds`). Never `Unauthorized`. On a vault keeping the invariants, never `Underflow` or `Overflow`; it succeeds exactly when all checks and the transfer pass, and a failed transfer after passing checks gives `TokenTransferFailed`. Success subtracts `amount` from total and available and adds it to withdrawn, nothing else changing |
| `Ledger.ApplyLock` | programs/collateral_vault/src/lib.rs:113-135 | an unregistered caller fails with `UnauthorizedProgram` whatever the funds; then `InsufficientFunds`; success moves `amount` from available to locked, total unchanged; balanced vaults never hit `Underflow`/`Overflow` |
| `Ledger.ApplyUnlock` | programs/collateral_vault/src/lib.rs:137-161 | `UnauthorizedProgram` before `MathError` (too little locked); success moves `amount` from locked to available, total unchanged; balanced vaults never hit `Underflow`/`Overflow` |
| `Ledger.Authorize` | programs/collateral_vault/src/lib.rs:105-111 | the id is present afterwards, members are the old ones plus the id, the old list is a prefix, a present id changes nothing, a new id is pushed at the end, uniqueness is kept |
| `Ledger.AuthorizeIdempotent` | programs/collateral_vault/src/lib.rs:107-109 | authorizing the same id twice gives the same list as once |
| `Ledger.ApplyAuthorize` | programs/collateral_vault/src/lib.rs:105-111 | any admin key is accepted; the instruction fails (`AccountDidNotSerialize`) only when the new list outgrows the 5-id account, i.e. a sixth new id |
| `Ledger.InitialStateInv` | programs/collateral_vault/src/lib.rs:17-38 | a fresh vault with an empty registry satisfies every invariant |
| `Ledger.StepInv` | programs/collateral_vault/src/lib.rs:41-161 | one instruction keeps the invariants, keeps keys/bump/time, never decreases the counters, never yields `Underflow`, and yields `Overflow` only for a deposit |
| `Ledger.RunInv` | programs/collateral_vault/src/lib.rs:41-161 | any sequence of instructions, failed ones rolled back, keeps every invariant and only grows the lifetime counters and the registry |
| `Ledger.UnregisteredCallerRejected` | programs/collateral_vault/src/lib.rs:118-120 | an unregistered caller's lock or unlock fails with `UnauthorizedProgram` and leaves the state unchanged |
| `Ledger.AnyoneCanLock` | programs/collateral_vault/src/lib.rs:236-246 | any key holder can register an arbitrary id and then lock available funds of any vault under it |
| `Program.Authority.InitializeAuthority` | programs/collateral_vault/src/lib.rs:33-38 | the registry starts empty with the given bump |
| `Program.Authority.AuthorizeProgram` | programs/collateral_vault/src/lib.rs:105-111 | the stored list becomes `ApplyAuthorize`'s result, or stays unchanged on failure; the bump is unchanged |
| `Program.Vault.Initialize` | programs/collateral_vault/src/lib.rs:17-31 | the new account holds exactly `Initialized(...)` |
| `Program.Vault.Deposit` | programs/collateral_vault/src/lib.rs:41-68 | the account becomes `ApplyDeposit`'s result, or is unchanged on error. On success the effects are the transfer in, then the ledger write, then exactly one Deposit record carrying `amount` |
| `Program.Vault.Withdraw` | programs/collateral_vault/src/lib.rs:70-102 | the account becomes `ApplyWithdraw`'s result, or is unchanged on error. On success the ledger write comes before the transfer out, then one Withdrawal record |
| `Program.Vault.LockCollateral` | programs/collateral_vault/src/lib.rs:113-135 | the account becomes `ApplyLock`'s result for the registry's list, or is unchanged on error; on success one Lock record |
| `Program.Vault.UnlockCollateral` | programs/collateral_vault/src/lib.rs:137-161 | the account becomes `ApplyUnlock`'s result, or is unchanged on error; on success one Unlock record |
| `Backend.DecodeState` | programs/collateral_vault/src/backend.rs:76-83 | decoding succeeds exactly when 88 bytes are present and re-encodes to those 88 bytes, ignoring the rest |
| `Backend.DecodeEncodeState` | programs/collateral_vault/src/backend.rs:97 | decoding an encoded state, whatever follows it, gives the state back |
| `Backend.VaultPrefixIsState` | programs/collateral_vault/src/backend.rs:77-83 | the first 88 bytes of a serialized `CollateralVault` are the encoding of its first five fields |
| `Backend.GetVaultState` | programs/collateral_vault/src/backend.rs:90-100 | fetch errors propagate; data shorter than 8 bytes panics; 8 to 95 bytes is a decode error; 96 bytes or more always decodes, to the state encoded by the 88 bytes after the tag |
| `Backend.GetStoredVaultState` | programs/collateral_vault/src/backend.rs:96-97 | reading a stored vault account (tag, serialization, any padding) gives the vault's first five fields |
| `Backend.InitializedAccountReadsBack` | programs/collateral_vault/src/lib.rs:168-175 | with enough space, the account written at initialization reads back as the initialized vault |
| `Backend.ParseU64` | programs/collateral_vault/src/backend.rs:106 | a parse succeeds only on an optional `+` followed by digits |
| `Backend.DecimalValue` | programs/collateral_vault/src/backend.rs:106 | the digits of the decimal form of `n` have value `n` |
| `Backend.ParseDecimal` | programs/collateral_vault/src/backend.rs:105-106 | parsing the decimal form of a u64, with or without `+`, gives it back |
| `Backend.Observe` | programs/collateral_vault/src/backend.rs:103-106 | only reading the vault account can panic. A decode error, a failed balance query (`Rpc`) and an unparsable amount (`Parse`) are each returned as that error. When all three steps succeed, the result is the decoded recorded total and the parsed amount of the token account that the vault names |
| `Backend.ReconcileBalance` | programs/collateral_vault/src/backend.rs:102-118 | returns `true` exactly when the totals are equal. Any difference gives `false` with one alert carrying both values. A failed fetch, decode or parse is an error, never `false` |
| `Backend.ReconcileStoredVault` | programs/collateral_vault/src/backend.rs:102-118 | for any stored vault whose custody account holds `x`: `true` with no alert when `x` is the recorded total; otherwise, above or below, `false` with the one alert (total, `x`) |
| `Backend.ReconcileDrift` | programs/collateral_vault/src/backend.rs:108-115 | recorded 100 against custody 90 gives `false` and the alert (100, 90) |
| `Backend.BuildDepositIx` | programs/collateral_vault/src/backend.rs:124-142 | always succeeds, with the given program id, no accounts, and 8 data bytes that read back as `amount` |
| `Backend.CpiManager.BuildLockInstruction` | programs/collateral_vault/src/backend.rs:154-168 | the manager's program id, no accounts, and 8 data bytes that read back as `amount` |
| `Backend.InstructionDataDeterminesAmount` | programs/collateral_vault/src/backend.rs:131-166 | distinct amounts give distinct data; lock and deposit data agree for the same amount |
| `Backend.CheckVault` | programs/collateral_vault/src/backend.rs:178-187 | a vault check that panics prints nothing |
| `Backend.CheckVaultReports` | programs/collateral_vault/src/backend.rs:178-187 | one turn prints, against the reconciliation result: for a failure its error line, for `false` the alert, for a panic nothing. After `true` it prints a TVL line carrying the re-read total exactly when the second read decodes, nothing when it fails, and panics when it panics. No TVL line is printed in any other case |
| `Backend.MonitorVault` | programs/collateral_vault/src/backend.rs:178-187 | the loop body, run step by step, returns exactly `CheckVault`'s lines and panic flag, whose behaviour `CheckVaultReports` states |
| `Backend.MonitorCycle` | programs/collateral_vault/src/backend.rs:176-188 | visits the vaults in order and stops only at the first one that panics. The printed lines are those of the vaults it visited |
| `Backend.CycleLogAppend` | programs/collateral_vault/src/backend.rs:177-188 | the lines for a list of vaults are the lines for its parts concatenated: each vault's check is independent of the others |
| `Backend.TvlOnlyWhenConsistent` | programs/collateral_vault/src/backend.rs:179-184 | a TVL line is printed only for a watched vault that reconciled as `true`. Reading the same state twice, its total equals the custody amount |
| `Backend.DriftAlerted` | programs/collateral_vault/src/backend.rs:108-114 | each watched vault that reconciles as `false` has its alert with both totals in the cycle's output, whatever errors or drifts the vaults before it had, provided none of them panicked (a panic ends the cycle, as `MonitorCycle` states) |
| `Backend.FailureReported` | programs/collateral_vault/src/backend.rs:186 | each watched vault whose reconciliation fails gets its error line, whatever errors or drifts the vaults before it had, provided none of them panicked (a panic ends the cycle, as `MonitorCycle` states) |

`Program.Scenario` is a client of the two classes, checked against the method contracts alone. It runs the integration test's steps: deposit 500 USDT so that `total_deposited` is 500 000 000, then withdraw 200 USDT with a 200 000 000 transfer to the user. It then continues on the same vault: a non-owner's withdrawal is rejected by the `has_one` constraint; a lock by a caller not yet registered is rejected; the caller is registered and locks 100 USDT; a withdrawal of 250 USDT is rejected with `InsufficientFunds` because only 200 USDT is available; unlocking 1 unit more than is locked gives `MathError`; and unlocking exactly the locked 100 USDT makes the whole 300 USDT available again.

## Findings

| source | as written | input that shows it | evidently intended | confidence | as-written member | corrected member |
|---|---|---|---|---|---|---|
| programs/collateral_vault/src/lib.rs:171, programs/collateral_vault/src/create.rs:12 | `initialize` creates the vault account with `Vault::LEN` = 107 bytes, sized for another struct | any `initialize` call: the 8-byte tag plus 113 bytes of `CollateralVault` (121) do not fit in 107, so the account cannot hold a `CollateralVault` and `initialize` always reverts | space for the tag and a full `CollateralVault`: 121 bytes | not executed; high | `Layout.InitializeSpaceTooSmall` | `Layout.InitializeSpaceSuffices`, `Backend.InitializedAccountReadsBack` |

`Program.Vault.Initialize` models an initialization that succeeds, that is, one with the corrected space.

## Left out

- SPL Token transfers (lib.rs:44-50, 86-92) are calls into another program. Their success is an input (`transferOk`). Their place in the order is recorded as an `Effect`. The token program's own checks are not modelled. One such check: the transfer authority must be the source account's authority. `withdraw` names the owner (lib.rs:89), while `initialize` makes the vault PDA the token vault's authority (lib.rs:182).
- Clock reads (`Clock::get`) are the input `now`. The clock sysvar failing is not modelled.
- Anchor account plumbing is not modelled: PDA seeds and bump derivation, `find_program_address`, signer checks, rent, and account ownership. Keys are opaque 32-byte values, and `has_one`/`address` are explicit checks.
- `VaultManager` in backend.rs (its `initialize_vault` only prints; `deposit` builds and sends a transaction) is not modelled: RPC submission and signing are I/O.
- The RPC node's answers are inputs (`Cluster`). The lines printed by reconciliation and by the monitor cycle are modelled as returned lines. `sleep` and the endless outer `loop` are left out: the model covers one cycle.
- The RPC node is read as two fixed snapshots per cycle: every reconciliation reads `c`, and every second `get_vault_state` of the monitor (backend.rs:181) reads `later`. So a vault listed twice gets the same results both times, and changes between two vaults' reads are not modelled; a live node need not answer that way.
- `CpiManager.BuildLockInstruction`: the `println!` of the amount (backend.rs:161) is not modelled; the function returns only the instruction.
- Borsh and `u64::from_str` are modelled by their byte and text formats, not as library calls. The 8-byte account tag is an input of length 8, because it is a hash of the type name.
- The instruction selector that Anchor expects at the start of instruction data is not modelled. The built instructions carry only the amount bytes and no accounts, as the code writes them.
- deposit.rs (`DepositEvent` and a second `ErrorCode`) is not used by the program and is not part of this model.
- tests/collateral_vault.ts runs against a local validator. Its checks appear only as the steps of `Program.Scenario`.
