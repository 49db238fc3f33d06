/** The account and event types of the vault program (ds.rs). Field order is
    kept as declared: it fixes the Borsh layout (see module Layout). */
module Ds {
  import opened Prim

  /** One depositor's ledger record. All balances and lifetime counters are
      u64, `created_at` is an i64 Unix timestamp and `bump` one byte. */
  datatype CollateralVault = CollateralVault(
    owner: Pubkey,
    token_account: Pubkey,
    total_balance: U64,
    locked_balance: U64,
    available_balance: U64,
    total_deposited: U64,
    total_withdrawn: U64,
    created_at: I64,
    bump: U8)

  /** The global allow-list of callers that may lock and unlock collateral.
      The type admits duplicates; uniqueness comes from `authorize_program`. */
  datatype VaultAuthority = VaultAuthority(authorized_programs: seq<Pubkey>, bump: U8)

  /** The five kinds of transaction record, in declaration order. */
  datatype TransactionType = Deposit | Withdrawal | Lock | Unlock | Transfer

  /** The event emitted by each successful instruction. */
  datatype TransactionRecord = TransactionRecord(
    vault: Pubkey,
    transaction_type: TransactionType,
    amount: U64,
    timestamp: I64)

  /** Borsh writes an enum as the one-byte index of its variant. */
  function VariantIndex(t: TransactionType): (i: U8)
    ensures i < 5
  {
    match t
    case Deposit => 0
    case Withdrawal => 1
    case Lock => 2
    case Unlock => 3
    case Transfer => 4
  }

  /** Borsh reading of the variant byte; any index past the fifth is rejected. */
  function VariantFromIndex(i: U8): (r: Option<TransactionType>)
    ensures r.Some? <==> i < 5
  {
    if i == 0 then Some(Deposit)
    else if i == 1 then Some(Withdrawal)
    else if i == 2 then Some(Lock)
    else if i == 3 then Some(Unlock)
    else if i == 4 then Some(Transfer)
    else None
  }

  /** The variant byte identifies the variant: writing then reading gives it back,
      and every index below five is the index of exactly one variant. */
  lemma VariantIndexRoundTrip(t: TransactionType, i: U8)
    ensures VariantFromIndex(VariantIndex(t)) == Some(t)
    ensures i < 5 ==> VariantIndex(VariantFromIndex(i).value) == i
  {
  }
}
