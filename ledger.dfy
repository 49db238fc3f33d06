/** What each instruction of the vault program does to the vault and the
    authority registry, as functions on account values. The classes in module
    Program run the same steps field by field and are proved to agree with
    these functions; the invariants are proved here.

    Every instruction is atomic: when it returns an error the runtime discards
    all its writes, so a failing instruction leaves every account unchanged. */
module Ledger {
  import opened Prim
  import opened Ds
  import opened Layout

  /** The program's own `ErrorCode` enum, in declaration order. */
  datatype ErrorCode =
    | InvalidAmount
    | Overflow
    | Underflow
    | InsufficientFunds
    | MathError
    | Unauthorized
    | UnauthorizedProgram

  /** Why an instruction fails: the program's own codes, the account constraints
      Anchor checks before the instruction body runs (`has_one`, `address`), a
      failing token transfer, and an account whose data outgrows its space when
      it is written back at the end. */
  datatype Error =
    | Program(code: ErrorCode)
    | ConstraintHasOne
    | ConstraintAddress
    | TokenTransferFailed
    | AccountDidNotSerialize

  /** Invariant I1: the balance is split exactly into locked and available. */
  predicate Balanced(v: CollateralVault)
  {
    v.total_balance == v.locked_balance + v.available_balance
  }

  /** Conservation: what is held is what came in minus what went out. */
  predicate Conserved(v: CollateralVault)
  {
    v.total_deposited == v.total_balance + v.total_withdrawn
  }

  /** No id appears twice. */
  predicate Unique(ids: seq<Pubkey>)
  {
    forall i, j :: 0 <= i < j < |ids| ==> ids[i] != ids[j]
  }

  /** `initialize`: keys, bump and timestamp recorded, every counter zero. */
  function Initialized(user: Pubkey, tokenVault: Pubkey, bump: U8, now: I64): (v: CollateralVault)
    ensures v.owner == user && v.token_account == tokenVault
    ensures v.bump == bump && v.created_at == now
    ensures Balanced(v) && Conserved(v)
    ensures v.total_balance == 0 && v.total_withdrawn == 0
  {
    CollateralVault(user, tokenVault, 0, 0, 0, 0, 0, now, bump)
  }

  /** `deposit`. The signer must be the vault's owner (`has_one = owner`); the
      token transfer into the custody account comes next, then the three
      checked additions. An amount of zero is accepted. */
  function ApplyDeposit(v: CollateralVault, signer: Pubkey, amount: U64, transferOk: bool)
    : (r: Result<CollateralVault, Error>)
    ensures signer != v.owner ==> r == Err(ConstraintHasOne)
    ensures signer == v.owner && !transferOk ==> r == Err(TokenTransferFailed)
    ensures r.Ok? <==>
      signer == v.owner && transferOk
      && v.total_balance + amount < TWO_TO_THE_64
      && v.available_balance + amount < TWO_TO_THE_64
      && v.total_deposited + amount < TWO_TO_THE_64
    ensures r.Err? && signer == v.owner && transferOk ==> r.error == Program(Overflow)
    ensures r.Ok? ==>
      && r.value.total_balance == v.total_balance + amount
      && r.value.available_balance == v.available_balance + amount
      && r.value.total_deposited == v.total_deposited + amount
      && r.value == v.(total_balance := r.value.total_balance,
                       available_balance := r.value.available_balance,
                       total_deposited := r.value.total_deposited)
    ensures r.Ok? && Balanced(v) ==> Balanced(r.value)
    ensures r.Ok? && Conserved(v) ==> Conserved(r.value)
    // the overflow check on `available_balance` never fires on a balanced vault
    ensures Balanced(v) && r == Err(Program(Overflow)) ==>
      v.total_balance + amount >= TWO_TO_THE_64 || v.total_deposited + amount >= TWO_TO_THE_64
  {
    if signer != v.owner then Err(ConstraintHasOne)
    else if !transferOk then Err(TokenTransferFailed)
    else match CheckedAdd(v.total_balance, amount)
      case None => Err(Program(Overflow))
      case Some(total) => match CheckedAdd(v.available_balance, amount)
        case None => Err(Program(Overflow))
        case Some(available) => match CheckedAdd(v.total_deposited, amount)
          case None => Err(Program(Overflow))
          case Some(deposited) =>
            Ok(v.(total_balance := total, available_balance := available,
                  total_deposited := deposited))
  }

  /** `withdraw`. Anchor first checks that the signer owns the vault and that
      the token account passed in is the vault's own; the body then checks
      funds before (again) ownership, debits the ledger, and only then
      transfers the tokens out. */
  function ApplyWithdraw(v: CollateralVault, signer: Pubkey, tokenVault: Pubkey, amount: U64,
                         transferOk: bool): (r: Result<CollateralVault, Error>)
    ensures signer != v.owner ==> r == Err(ConstraintHasOne)
    ensures signer == v.owner && tokenVault != v.token_account ==> r == Err(ConstraintAddress)
    ensures signer == v.owner && tokenVault == v.token_account && v.available_balance < amount ==>
      r == Err(Program(InsufficientFunds))
    // the ownership test in the body can never fail: the constraint already held
    ensures r != Err(Program(Unauthorized))
    ensures Balanced(v) ==> r != Err(Program(Underflow))
    ensures Balanced(v) && Conserved(v) ==> r != Err(Program(Overflow))
    ensures Balanced(v) && Conserved(v) ==>
      (r.Ok? <==> signer == v.owner && tokenVault == v.token_account
                  && amount <= v.available_balance && transferOk)
    // the transfer comes last: when every check passes, its failure is the error
    ensures Balanced(v) && Conserved(v) && !transferOk ==>
      (signer == v.owner && tokenVault == v.token_account && amount <= v.available_balance
       ==> r == Err(TokenTransferFailed))
    ensures r.Ok? ==>
      && amount <= v.available_balance
      && r.value.total_balance == v.total_balance - amount
      && r.value.available_balance == v.available_balance - amount
      && r.value.total_withdrawn == v.total_withdrawn + amount
      && r.value == v.(total_balance := r.value.total_balance,
                       available_balance := r.value.available_balance,
                       total_withdrawn := r.value.total_withdrawn)
    ensures r.Ok? && Balanced(v) ==> Balanced(r.value)
    ensures r.Ok? && Conserved(v) ==> Conserved(r.value)
  {
    if signer != v.owner then Err(ConstraintHasOne)
    else if tokenVault != v.token_account then Err(ConstraintAddress)
    else if v.available_balance < amount then Err(Program(InsufficientFunds))
    else if signer != v.owner then Err(Program(Unauthorized))
    else match CheckedSub(v.total_balance, amount)
      case None => Err(Program(Underflow))
      case Some(total) => match CheckedSub(v.available_balance, amount)
        case None => Err(Program(Underflow))
        case Some(available) => match CheckedAdd(v.total_withdrawn, amount)
          case None => Err(Program(Overflow))
          case Some(withdrawn) =>
            if !transferOk then Err(TokenTransferFailed)
            else Ok(v.(total_balance := total, available_balance := available,
                       total_withdrawn := withdrawn))
  }

  /** `lock_collateral`: any vault, any caller key in the registry. The registry
      is consulted before the balance. */
  function ApplyLock(v: CollateralVault, registry: seq<Pubkey>, caller: Pubkey, amount: U64)
    : (r: Result<CollateralVault, Error>)
    ensures caller !in registry ==> r == Err(Program(UnauthorizedProgram))
    ensures caller in registry && v.available_balance < amount ==> r == Err(Program(InsufficientFunds))
    ensures Balanced(v) ==> (r.Ok? <==> caller in registry && amount <= v.available_balance)
    ensures Balanced(v) ==> r != Err(Program(Underflow)) && r != Err(Program(Overflow))
    ensures r.Ok? ==>
      && r.value.available_balance == v.available_balance - amount
      && r.value.locked_balance == v.locked_balance + amount
      && r.value == v.(available_balance := r.value.available_balance,
                       locked_balance := r.value.locked_balance)
    ensures r.Ok? && Balanced(v) ==> Balanced(r.value)
  {
    if caller !in registry then Err(Program(UnauthorizedProgram))
    else if v.available_balance < amount then Err(Program(InsufficientFunds))
    else match CheckedSub(v.available_balance, amount)
      case None => Err(Program(Underflow))
      case Some(available) => match CheckedAdd(v.locked_balance, amount)
        case None => Err(Program(Overflow))
        case Some(locked) => Ok(v.(available_balance := available, locked_balance := locked))
  }

  /** `unlock_collateral`: the mirror of lock, with `MathError` when too little is locked. */
  function ApplyUnlock(v: CollateralVault, registry: seq<Pubkey>, caller: Pubkey, amount: U64)
    : (r: Result<CollateralVault, Error>)
    ensures caller !in registry ==> r == Err(Program(UnauthorizedProgram))
    ensures caller in registry && v.locked_balance < amount ==> r == Err(Program(MathError))
    ensures Balanced(v) ==> (r.Ok? <==> caller in registry && amount <= v.locked_balance)
    ensures Balanced(v) ==> r != Err(Program(Underflow)) && r != Err(Program(Overflow))
    ensures r.Ok? ==>
      && r.value.locked_balance == v.locked_balance - amount
      && r.value.available_balance == v.available_balance + amount
      && r.value == v.(available_balance := r.value.available_balance,
                       locked_balance := r.value.locked_balance)
    ensures r.Ok? && Balanced(v) ==> Balanced(r.value)
  {
    if caller !in registry then Err(Program(UnauthorizedProgram))
    else if v.locked_balance < amount then Err(Program(MathError))
    else match CheckedSub(v.locked_balance, amount)
      case None => Err(Program(Underflow))
      case Some(locked) => match CheckedAdd(v.available_balance, amount)
        case None => Err(Program(Overflow))
        case Some(available) => Ok(v.(locked_balance := locked, available_balance := available))
  }

  /** `authorize_program` on the list: append `id` unless it is already there. */
  function Authorize(ids: seq<Pubkey>, id: Pubkey): (r: seq<Pubkey>)
    ensures id in r
    ensures forall x :: x in r <==> x in ids || x == id
    ensures |ids| <= |r| && r[..|ids|] == ids
    ensures id in ids ==> r == ids
    ensures id !in ids ==> r == ids + [id]
    ensures Unique(ids) ==> Unique(r)
  {
    if id in ids then ids else ids + [id]
  }

  /** Authorizing an id a second time changes nothing. */
  lemma AuthorizeIdempotent(ids: seq<Pubkey>, id: Pubkey)
    ensures Authorize(Authorize(ids, id), id) == Authorize(ids, id)
  {
  }

  /** `authorize_program` as a whole: the `admin` signer is never compared with
      anything, and the longer list only fails when it no longer fits the
      authority account (a storage limit, not a check in the code). */
  function ApplyAuthorize(ids: seq<Pubkey>, admin: Pubkey, id: Pubkey): (r: Result<seq<Pubkey>, Error>)
    ensures r.Ok? <==> AuthorityFits(Authorize(ids, id))
    ensures r.Ok? ==> r.value == Authorize(ids, id)
    ensures r.Err? ==> r.error == AccountDidNotSerialize
    ensures AuthorityFits(ids) && r.Err? ==> id !in ids && |ids| == MAX_AUTHORIZED
    ensures AuthorityFits(ids) && id in ids ==> r == Ok(ids)
  {
    var next := Authorize(ids, id);
    if AuthorityFits(next) then Ok(next) else Err(AccountDidNotSerialize)
  }

  /** The accounts one vault's instructions touch: the vault and the global registry. */
  datatype State = State(vault: CollateralVault, registry: seq<Pubkey>)

  /** One instruction with the inputs the ledger logic depends on. */
  datatype Op =
    | DepositOp(signer: Pubkey, amount: U64, transferOk: bool)
    | WithdrawOp(signer: Pubkey, tokenVault: Pubkey, amount: U64, transferOk: bool)
    | LockOp(caller: Pubkey, amount: U64)
    | UnlockOp(caller: Pubkey, amount: U64)
    | AuthorizeOp(admin: Pubkey, id: Pubkey)

  function Step(s: State, op: Op): Result<State, Error>
  {
    match op
    case DepositOp(signer, amount, ok) =>
      (match ApplyDeposit(s.vault, signer, amount, ok)
       case Ok(v) => Ok(s.(vault := v)) case Err(e) => Err(e))
    case WithdrawOp(signer, tokenVault, amount, ok) =>
      (match ApplyWithdraw(s.vault, signer, tokenVault, amount, ok)
       case Ok(v) => Ok(s.(vault := v)) case Err(e) => Err(e))
    case LockOp(caller, amount) =>
      (match ApplyLock(s.vault, s.registry, caller, amount)
       case Ok(v) => Ok(s.(vault := v)) case Err(e) => Err(e))
    case UnlockOp(caller, amount) =>
      (match ApplyUnlock(s.vault, s.registry, caller, amount)
       case Ok(v) => Ok(s.(vault := v)) case Err(e) => Err(e))
    case AuthorizeOp(admin, id) =>
      (match ApplyAuthorize(s.registry, admin, id)
       case Ok(ids) => Ok(s.(registry := ids)) case Err(e) => Err(e))
  }

  /** The state after one instruction: a failed instruction is rolled back. */
  function After(s: State, op: Op): State
  {
    match Step(s, op)
    case Ok(t) => t
    case Err(_) => s
  }

  /** The state after a sequence of instructions, each applied or rolled back. */
  function Run(s: State, ops: seq<Op>): State
    decreases |ops|
  {
    if ops == [] then s else Run(After(s, ops[0]), ops[1..])
  }

  /** Everything that holds of every state reachable from `initialize_authority`
      and `initialize`. */
  predicate Inv(s: State)
  {
    Balanced(s.vault) && Conserved(s.vault) && Unique(s.registry) && AuthorityFits(s.registry)
  }

  /** What no instruction ever changes, and the counters that only grow. */
  predicate Evolves(s: State, t: State)
  {
    && t.vault.owner == s.vault.owner
    && t.vault.token_account == s.vault.token_account
    && t.vault.created_at == s.vault.created_at
    && t.vault.bump == s.vault.bump
    && s.vault.total_deposited <= t.vault.total_deposited
    && s.vault.total_withdrawn <= t.vault.total_withdrawn
    && s.registry <= t.registry
  }

  lemma InitialStateInv(user: Pubkey, tokenVault: Pubkey, bump: U8, now: I64)
    ensures Inv(State(Initialized(user, tokenVault, bump, now), []))
  {
  }

  /** One instruction keeps the invariants, and on an invariant state the
      `Underflow` branches never fire and `Overflow` can only come from a deposit. */
  lemma StepInv(s: State, op: Op)
    requires Inv(s)
    ensures Inv(After(s, op)) && Evolves(s, After(s, op))
    ensures Step(s, op) != Err(Program(Underflow))
    ensures Step(s, op) == Err(Program(Overflow)) ==> op.DepositOp?
  {
  }

  /** Every sequence of instructions keeps the invariants: the balance split,
      conservation, a duplicate-free registry that fits its account, fixed
      keys, and lifetime counters that never decrease. */
  lemma {:induction false} RunInv(s: State, ops: seq<Op>)
    requires Inv(s)
    ensures Inv(Run(s, ops)) && Evolves(s, Run(s, ops))
    decreases |ops|
  {
    if ops != [] {
      StepInv(s, ops[0]);
      RunInv(After(s, ops[0]), ops[1..]);
    }
  }

  /** Authorization comes before funds: an unregistered caller gets
      `UnauthorizedProgram` whatever the balances and the amount. */
  lemma UnregisteredCallerRejected(s: State, caller: Pubkey, amount: U64)
    requires caller !in s.registry
    ensures Step(s, LockOp(caller, amount)) == Err(Program(UnauthorizedProgram))
    ensures Step(s, UnlockOp(caller, amount)) == Err(Program(UnauthorizedProgram))
    ensures After(s, LockOp(caller, amount)) == s && After(s, UnlockOp(caller, amount)) == s
  {
  }

  /** Since neither the admin nor the caller has to sign anything, any key
      holder can lock any vault's available funds: register an arbitrary id,
      then lock in its name. */
  lemma {:induction false} AnyoneCanLock(s: State, anyone: Pubkey, id: Pubkey, amount: U64)
    requires Inv(s) && |s.registry| < MAX_AUTHORIZED && amount <= s.vault.available_balance
    ensures Run(s, [AuthorizeOp(anyone, id), LockOp(id, amount)]).vault.locked_balance
            == s.vault.locked_balance + amount
  {
    AuthorityCapacity(Authorize(s.registry, id));
    var t := After(s, AuthorizeOp(anyone, id));
    assert t == s.(registry := Authorize(s.registry, id));
    var u := After(t, LockOp(id, amount));
    var ops := [AuthorizeOp(anyone, id), LockOp(id, amount)];
    assert ops[1..] == [LockOp(id, amount)] && ops[1..][1..] == [];
    assert Run(t, ops[1..]) == u by {
      assert Run(t, ops[1..]) == Run(u, []);
    }
  }
}
