/** The instructions of the vault program (lib.rs) as methods on the two
    accounts they update in place: a `Vault` object per `CollateralVault`
    account and one `Authority` object for the global `VaultAuthority`
    account. Each method runs the instruction's steps in the code's order and
    is proved to agree with its specification function in module Ledger. */
module Program {
  import opened Prim
  import opened Ds
  import opened Layout
  import opened Ledger

  /** What an instruction makes happen outside the vault's own fields, in
      order: token transfers performed by the token program, the write of the
      new balances, and emitted events. A failed instruction has no effects. */
  datatype Effect =
    | TokenTransfer(from: Pubkey, to: Pubkey, authority: Pubkey, amount: U64)
    | LedgerWrite
    | Emit(record: TransactionRecord)

  /** The global registry account of callers allowed to lock and unlock. */
  class Authority {
    var authorized_programs: seq<Pubkey>
    var bump: U8

    function Value(): VaultAuthority
      reads this
    {
      VaultAuthority(authorized_programs, bump)
    }

    /** `initialize_authority`: an empty list. */
    constructor InitializeAuthority(bump: U8)
      ensures Value() == VaultAuthority([], bump)
    {
      authorized_programs := [];
      this.bump := bump;
    }

    /** `authorize_program`: whoever signs as admin, push `programId` unless it
        is already listed. A list that has outgrown the account's space makes
        the instruction fail when the account is written back. */
    method AuthorizeProgram(admin: Pubkey, programId: Pubkey) returns (r: Result<(), Error>)
      modifies this
      ensures var spec := ApplyAuthorize(old(authorized_programs), admin, programId);
        && (r.Ok? <==> spec.Ok?)
        && (spec.Err? ==> r == Err(spec.error) && authorized_programs == old(authorized_programs))
        && (spec.Ok? ==> authorized_programs == spec.value)
      ensures bump == old(bump)
    {
      var saved := authorized_programs;
      if programId !in authorized_programs {
        authorized_programs := authorized_programs + [programId];
      }
      if !AuthorityFits(authorized_programs) {
        authorized_programs := saved;
        return Err(AccountDidNotSerialize);
      }
      r := Ok(());
    }
  }

  /** One depositor's `CollateralVault` account; `key` is its address. */
  class Vault {
    const key: Pubkey
    var owner: Pubkey
    var token_account: Pubkey
    var total_balance: U64
    var locked_balance: U64
    var available_balance: U64
    var total_deposited: U64
    var total_withdrawn: U64
    var created_at: I64
    var bump: U8

    /** The account's current contents as a value. */
    function Snapshot(): CollateralVault
      reads this
    {
      CollateralVault(owner, token_account, total_balance, locked_balance, available_balance,
                      total_deposited, total_withdrawn, created_at, bump)
    }

    /** `initialize`. The clock reading `now` is an input. */
    constructor Initialize(key: Pubkey, user: Pubkey, tokenVault: Pubkey, bump: U8, now: I64)
      ensures this.key == key
      ensures Snapshot() == Initialized(user, tokenVault, bump, now)
    {
      this.key := key;
      owner := user;
      token_account := tokenVault;
      this.bump := bump;
      created_at := now;
      total_balance := 0;
      locked_balance := 0;
      available_balance := 0;
      total_deposited := 0;
      total_withdrawn := 0;
    }

    /** The runtime discarding an instruction's writes when it fails. */
    method Rollback(saved: CollateralVault)
      requires saved.owner == owner && saved.token_account == token_account
      requires saved.created_at == created_at && saved.bump == bump
      modifies this
      ensures Snapshot() == saved
    {
      total_balance := saved.total_balance;
      locked_balance := saved.locked_balance;
      available_balance := saved.available_balance;
      total_deposited := saved.total_deposited;
      total_withdrawn := saved.total_withdrawn;
    }

    /** `deposit`: transfer `amount` from the owner's token account into
        `tokenVault`, then credit the ledger and emit a Deposit record. The
        token account passed as `tokenVault` is not checked against the vault's
        own `token_account`. `transferOk` is the token program's answer. */
    method Deposit(signer: Pubkey, userTokenAccount: Pubkey, tokenVault: Pubkey, amount: U64,
                   transferOk: bool, now: I64) returns (r: Result<(), Error>, effects: seq<Effect>)
      modifies this
      ensures var spec := ApplyDeposit(old(Snapshot()), signer, amount, transferOk);
        && (r.Ok? <==> spec.Ok?)
        && (spec.Err? ==> r == Err(spec.error) && Snapshot() == old(Snapshot()) && effects == [])
        && (spec.Ok? ==> Snapshot() == spec.value)
      ensures r.Ok? ==> effects == [TokenTransfer(userTokenAccount, tokenVault, signer, amount),
                                    LedgerWrite,
                                    Emit(TransactionRecord(key, TransactionType.Deposit, amount, now))]
    {
      effects := [];
      // has_one = owner, checked by Anchor before the body
      if signer != owner {
        return Err(ConstraintHasOne), [];
      }
      if !transferOk {
        return Err(TokenTransferFailed), [];
      }
      var saved := Snapshot();
      var total := CheckedAdd(total_balance, amount);
      if total.None? {
        return Err(Program(Overflow)), [];
      }
      total_balance := total.value;
      var available := CheckedAdd(available_balance, amount);
      if available.None? {
        Rollback(saved);
        return Err(Program(Overflow)), [];
      }
      available_balance := available.value;
      var deposited := CheckedAdd(total_deposited, amount);
      if deposited.None? {
        Rollback(saved);
        return Err(Program(Overflow)), [];
      }
      total_deposited := deposited.value;
      effects := [TokenTransfer(userTokenAccount, tokenVault, signer, amount), LedgerWrite,
                  Emit(TransactionRecord(key, TransactionType.Deposit, amount, now))];
      r := Ok(());
    }

    /** `withdraw`: debit the ledger, then transfer `amount` from the vault's
        token account back to the owner and emit a Withdrawal record. The
        transfer names the owner as its authority. */
    method Withdraw(signer: Pubkey, tokenVault: Pubkey, userTokenAccount: Pubkey, amount: U64,
                    transferOk: bool, now: I64) returns (r: Result<(), Error>, effects: seq<Effect>)
      modifies this
      ensures var spec := ApplyWithdraw(old(Snapshot()), signer, tokenVault, amount, transferOk);
        && (r.Ok? <==> spec.Ok?)
        && (spec.Err? ==> r == Err(spec.error) && Snapshot() == old(Snapshot()) && effects == [])
        && (spec.Ok? ==> Snapshot() == spec.value)
      ensures r.Ok? ==> effects == [LedgerWrite,
                                    TokenTransfer(tokenVault, userTokenAccount, signer, amount),
                                    Emit(TransactionRecord(key, Withdrawal, amount, now))]
    {
      effects := [];
      // has_one = owner and address = vault.token_account, checked by Anchor
      if signer != owner {
        return Err(ConstraintHasOne), [];
      }
      if tokenVault != token_account {
        return Err(ConstraintAddress), [];
      }
      if available_balance < amount {
        return Err(Program(InsufficientFunds)), [];
      }
      if signer != owner {
        return Err(Program(Unauthorized)), [];
      }
      var saved := Snapshot();
      var total := CheckedSub(total_balance, amount);
      if total.None? {
        return Err(Program(Underflow)), [];
      }
      total_balance := total.value;
      var available := CheckedSub(available_balance, amount);
      if available.None? {
        // unreachable: `available_balance >= amount` was required above
        assert false;
      }
      available_balance := available.value;
      var withdrawn := CheckedAdd(total_withdrawn, amount);
      if withdrawn.None? {
        Rollback(saved);
        return Err(Program(Overflow)), [];
      }
      total_withdrawn := withdrawn.value;
      if !transferOk {
        Rollback(saved);
        return Err(TokenTransferFailed), [];
      }
      effects := [LedgerWrite, TokenTransfer(tokenVault, userTokenAccount, signer, amount),
                  Emit(TransactionRecord(key, Withdrawal, amount, now))];
      r := Ok(());
    }

    /** `lock_collateral`: any caller key listed in `auth` moves `amount` from
        available to locked on this vault. */
    method LockCollateral(auth: Authority, caller: Pubkey, amount: U64, now: I64)
      returns (r: Result<(), Error>, effects: seq<Effect>)
      modifies this
      ensures var spec := ApplyLock(old(Snapshot()), auth.authorized_programs, caller, amount);
        && (r.Ok? <==> spec.Ok?)
        && (spec.Err? ==> r == Err(spec.error) && Snapshot() == old(Snapshot()) && effects == [])
        && (spec.Ok? ==> Snapshot() == spec.value)
      ensures r.Ok? ==> effects == [LedgerWrite, Emit(TransactionRecord(key, Lock, amount, now))]
    {
      effects := [];
      if caller !in auth.authorized_programs {
        return Err(Program(UnauthorizedProgram)), [];
      }
      if available_balance < amount {
        return Err(Program(InsufficientFunds)), [];
      }
      var saved := Snapshot();
      var available := CheckedSub(available_balance, amount);
      if available.None? {
        return Err(Program(Underflow)), [];
      }
      available_balance := available.value;
      var locked := CheckedAdd(locked_balance, amount);
      if locked.None? {
        Rollback(saved);
        return Err(Program(Overflow)), [];
      }
      locked_balance := locked.value;
      effects := [LedgerWrite, Emit(TransactionRecord(key, Lock, amount, now))];
      r := Ok(());
    }

    /** `unlock_collateral`: any caller key listed in `auth` moves `amount` from
        locked back to available on this vault. */
    method UnlockCollateral(auth: Authority, caller: Pubkey, amount: U64, now: I64)
      returns (r: Result<(), Error>, effects: seq<Effect>)
      modifies this
      ensures var spec := ApplyUnlock(old(Snapshot()), auth.authorized_programs, caller, amount);
        && (r.Ok? <==> spec.Ok?)
        && (spec.Err? ==> r == Err(spec.error) && Snapshot() == old(Snapshot()) && effects == [])
        && (spec.Ok? ==> Snapshot() == spec.value)
      ensures r.Ok? ==> effects == [LedgerWrite, Emit(TransactionRecord(key, Unlock, amount, now))]
    {
      effects := [];
      if caller !in auth.authorized_programs {
        return Err(Program(UnauthorizedProgram)), [];
      }
      if locked_balance < amount {
        return Err(Program(MathError)), [];
      }
      var saved := Snapshot();
      var locked := CheckedSub(locked_balance, amount);
      if locked.None? {
        return Err(Program(Underflow)), [];
      }
      locked_balance := locked.value;
      var available := CheckedAdd(available_balance, amount);
      if available.None? {
        Rollback(saved);
        return Err(Program(Overflow)), [];
      }
      available_balance := available.value;
      effects := [LedgerWrite, Emit(TransactionRecord(key, Unlock, amount, now))];
      r := Ok(());
    }
  }

  /** A client of the two classes, checked against the method contracts
      alone: deposit 500 USDT and withdraw 200 USDT, as the integration test
      does; then a non-owner's withdrawal and an unregistered lock are
      rejected, a registered caller locks 100 USDT, an over-withdrawal gives
      `InsufficientFunds`, an over-unlock gives `MathError`, and unlocking the
      locked amount makes all 300 USDT available again. */
  method Scenario(key: Pubkey, user: Pubkey, other: Pubkey, tokenVault: Pubkey, userAta: Pubkey,
                  caller: Pubkey, now: I64)
    requires other != user && caller != other
  {
    var vault := new Vault.Initialize(key, user, tokenVault, 254, now);
    var auth := new Authority.InitializeAuthority(255);
    var r, fx := vault.Deposit(user, userAta, tokenVault, 500_000000, true, now);
    assert r.Ok? && vault.total_deposited == 500_000000;
    r, fx := vault.Withdraw(user, tokenVault, userAta, 200_000000, true, now);
    assert r.Ok? && fx[1] == TokenTransfer(tokenVault, userAta, user, 200_000000);
    assert vault.total_balance == vault.available_balance == 300_000000;
    // a non-owner is stopped by the account constraint
    r, fx := vault.Withdraw(other, tokenVault, userAta, 1, true, now);
    assert r == Err(ConstraintHasOne);
    // nobody is registered yet
    r, fx := vault.LockCollateral(auth, caller, 1, now);
    assert r == Err(Program(UnauthorizedProgram));
    var a := auth.AuthorizeProgram(other, caller);
    assert a.Ok? && auth.authorized_programs == [caller];
    r, fx := vault.LockCollateral(auth, caller, 100_000000, now);
    assert r.Ok? && vault.locked_balance == 100_000000 && vault.total_balance == 300_000000;
    // only the available part can be withdrawn
    r, fx := vault.Withdraw(user, tokenVault, userAta, 250_000000, true, now);
    assert r == Err(Program(InsufficientFunds)) && vault.total_balance == 300_000000;
    r, fx := vault.UnlockCollateral(auth, caller, 100_000001, now);
    assert r == Err(Program(MathError));
    r, fx := vault.UnlockCollateral(auth, caller, 100_000000, now);
    assert r.Ok? && vault.available_balance == 300_000000 && vault.locked_balance == 0;
  }
}
