/** The off-chain backend (backend.rs): reading a vault account's bytes,
    reconciling its recorded total against the custody token account, building
    instruction data, and one pass of the monitor over the watched vaults.
    RPC answers are inputs: a `Cluster` says what each query returns. */
module Backend {
  import opened Prim
  import opened Ds
  import opened Layout

  /** Why an RPC query failed. */
  datatype RpcError = Transport | AccountNotFound

  /** The errors `reconcile_balance` propagates with `?`. */
  datatype BackendError =
    | Rpc(cause: RpcError)
    | Decode      // the account bytes end before the five fields do
    | Parse       // the custody amount string is not a u64

  /** A backend call either returns, returns an error, or panics (which ends
      the monitor task). */
  datatype Outcome<+T> = Done(value: T) | Failed(error: BackendError) | Panicked

  /** What the RPC node answers: the raw data of an account and the decimal
      `amount` string of a token account's balance. */
  datatype Cluster = Cluster(
    accountData: Pubkey -> Result<seq<Byte>, RpcError>,
    tokenAmount: Pubkey -> Result<string, RpcError>)

  /** The backend's view of a vault: the first five fields of `CollateralVault`. */
  datatype CollateralVaultState = CollateralVaultState(
    owner: Pubkey,
    token_account: Pubkey,
    total_balance: U64,
    locked_balance: U64,
    available_balance: U64)

  /** Bytes Borsh needs for a `CollateralVaultState`. */
  const STATE_LEN: nat := 32 + 32 + 3 * 8

  function StateOf(v: CollateralVault): CollateralVaultState
  {
    CollateralVaultState(v.owner, v.token_account, v.total_balance, v.locked_balance,
                         v.available_balance)
  }

  /** Borsh layout of a `CollateralVaultState`. */
  function EncodeState(s: CollateralVaultState): (b: seq<Byte>)
    ensures |b| == STATE_LEN
  {
    s.owner + s.token_account + U64ToLe(s.total_balance) + U64ToLe(s.locked_balance)
      + U64ToLe(s.available_balance)
  }

  /** Borsh deserialization from a reader: reads 88 bytes, leaves the rest unread. */
  function DecodeState(b: seq<Byte>): (r: Option<CollateralVaultState>)
    ensures r.Some? <==> |b| >= STATE_LEN
    ensures r.Some? ==> EncodeState(r.value) == b[..STATE_LEN]
  {
    if |b| < STATE_LEN then None
    else
      var s := CollateralVaultState(b[0..32], b[32..64], U64FromLe(b[64..72]),
                                    U64FromLe(b[72..80]), U64FromLe(b[80..88]));
      assert EncodeState(s) == b[..STATE_LEN] by {
        assert b[..STATE_LEN] == b[0..32] + b[32..64] + b[64..72] + b[72..80] + b[80..88];
      }
      Some(s)
  }

  /** Decoding undoes encoding, whatever bytes follow. */
  lemma DecodeEncodeState(s: CollateralVaultState, rest: seq<Byte>)
    ensures DecodeState(EncodeState(s) + rest) == Some(s)
  {
    var b := EncodeState(s) + rest;
    var d := DecodeState(b).value;
    assert b[..STATE_LEN] == EncodeState(s);
    assert d.owner == b[0..32] == s.owner;
    assert d.token_account == b[32..64] == s.token_account;
    assert b[64..72] == U64ToLe(s.total_balance);
    assert b[72..80] == U64ToLe(s.locked_balance);
    assert b[80..88] == U64ToLe(s.available_balance);
  }

  /** The first five fields of a serialized `CollateralVault` are laid out
      exactly as a `CollateralVaultState`. */
  lemma VaultPrefixIsState(v: CollateralVault)
    ensures SerializeVault(v)[..STATE_LEN] == EncodeState(StateOf(v))
  {
  }

  /** `get_vault_state` on the answer to `get_account_data`: skip the 8-byte
      tag and decode. Slicing `[8..]` past the end of shorter data panics. */
  function GetVaultState(fetched: Result<seq<Byte>, RpcError>): (r: Outcome<CollateralVaultState>)
    ensures fetched.Err? ==> r == Failed(Rpc(fetched.error))
    ensures fetched.Ok? ==>
      && (r == Panicked <==> |fetched.value| < DISCRIMINATOR_LEN)
      && (r == Failed(Decode) <==> DISCRIMINATOR_LEN <= |fetched.value| < DISCRIMINATOR_LEN + STATE_LEN)
      && (r.Done? <==> DISCRIMINATOR_LEN + STATE_LEN <= |fetched.value|)
      && (r.Done? ==> EncodeState(r.value) == fetched.value[DISCRIMINATOR_LEN..DISCRIMINATOR_LEN + STATE_LEN])
  {
    match fetched
    case Err(e) => Failed(Rpc(e))
    case Ok(data) =>
      if |data| < DISCRIMINATOR_LEN then Panicked
      else match DecodeState(data[DISCRIMINATOR_LEN..])
        case None => Failed(Decode)
        case Some(state) => Done(state)
  }

  /** Reading a stored vault account gives its first five fields, whatever the
      tag and whatever padding follows. */
  lemma {:induction false} GetStoredVaultState(tag: seq<Byte>, v: CollateralVault, padding: seq<Byte>)
    requires |tag| == DISCRIMINATOR_LEN
    ensures GetVaultState(Ok(tag + SerializeVault(v) + padding)) == Done(StateOf(v))
  {
    var data := tag + SerializeVault(v) + padding;
    var rest := SerializeVault(v)[STATE_LEN..] + padding;
    VaultPrefixIsState(v);
    assert SerializeVault(v) == EncodeState(StateOf(v)) + SerializeVault(v)[STATE_LEN..];
    assert data[DISCRIMINATOR_LEN..] == EncodeState(StateOf(v)) + rest;
    DecodeEncodeState(StateOf(v), rest);
  }

  /** With the space the record needs, the account written by `initialize`
      reads back as the initialized vault. */
  lemma {:induction false} InitializedAccountReadsBack(tag: seq<Byte>, v: CollateralVault)
    requires |tag| == DISCRIMINATOR_LEN
    ensures StoreVault(COLLATERAL_VAULT_SPACE, tag, v).Some?
    ensures GetVaultState(Ok(StoreVault(COLLATERAL_VAULT_SPACE, tag, v).value)) == Done(StateOf(v))
  {
    InitializeSpaceSuffices(tag, v);
    assert tag + SerializeVault(v) == tag + SerializeVault(v) + [];
    GetStoredVaultState(tag, v, []);
  }

  // ---------------------------------------------------------------------------
  // `str::parse::<u64>` on the custody amount

  predicate IsDigit(c: char)
  {
    '0' <= c <= '9'
  }

  predicate AllDigits(s: string)
  {
    forall i :: 0 <= i < |s| ==> IsDigit(s[i])
  }

  /** The value of a string of decimal digits, most significant first. */
  function DigitsValue(s: string): nat
    requires AllDigits(s)
  {
    if s == [] then 0
    else 10 * DigitsValue(s[..|s| - 1]) + (s[|s| - 1] - '0') as nat
  }

  /** `u64::from_str`: an optional `+`, then at least one decimal digit, and a
      value below 2^64. Anything else, including `-`, is an error. */
  function ParseU64(s: string): (r: Option<U64>)
    ensures r.Some? ==> s != [] && s != "+"
    ensures r.Some? ==> forall i :: 0 <= i < |s| ==> IsDigit(s[i]) || (i == 0 && s[i] == '+')
  {
    var digits := if s != [] && s[0] == '+' then s[1..] else s;
    if digits == [] || !AllDigits(digits) then None
    else if DigitsValue(digits) < TWO_TO_THE_64 then Some(DigitsValue(digits))
    else None
  }

  function DigitChar(d: nat): (c: char)
    requires d < 10
    ensures IsDigit(c) && (c - '0') as nat == d
  {
    ('0' as int + d) as char
  }

  /** The decimal form of `n`, as the RPC node writes a token amount. */
  function Decimal(n: nat): (s: string)
    ensures s != [] && AllDigits(s)
  {
    if n < 10 then [DigitChar(n)] else Decimal(n / 10) + [DigitChar(n % 10)]
  }

  lemma {:induction false} DecimalValue(n: nat)
    ensures DigitsValue(Decimal(n)) == n
  {
    if n >= 10 {
      var s := Decimal(n);
      assert s[..|s| - 1] == Decimal(n / 10);
      DecimalValue(n / 10);
    }
  }

  /** Parsing the decimal form of a u64 gives it back. */
  lemma ParseDecimal(n: U64)
    ensures ParseU64(Decimal(n)) == Some(n)
    ensures ParseU64("+" + Decimal(n)) == Some(n)
  {
    DecimalValue(n);
    assert ("+" + Decimal(n))[1..] == Decimal(n);
  }

  // ---------------------------------------------------------------------------
  // `BalanceTracker::reconcile_balance`

  /** An alert or report line printed by the backend. */
  datatype LogLine =
    | Alert(recorded: U64, custody: U64)
    | Tvl(vault: Pubkey, total: U64)
    | MonitorError(vault: Pubkey, error: BackendError)

  /** The result of `reconcile_balance` with the alert it prints, if any. */
  datatype Reconciliation = Reconciliation(outcome: Outcome<bool>, printed: seq<LogLine>)

  /** The two totals reconciliation compares: the vault's recorded total and the
      parsed amount held by the token account the vault names. */
  function Observe(c: Cluster, vault: Pubkey): (r: Outcome<(U64, U64)>)
    // only reading the vault account can panic
    ensures r == Panicked <==> GetVaultState(c.accountData(vault)) == Panicked
    // each failing step is returned as its own error
    ensures GetVaultState(c.accountData(vault)).Failed? ==>
      r == Failed(GetVaultState(c.accountData(vault)).error)
    ensures GetVaultState(c.accountData(vault)).Done? ==>
      var state := GetVaultState(c.accountData(vault)).value;
      var custody := c.tokenAmount(state.token_account);
      && (custody.Err? ==> r == Failed(Rpc(custody.error)))
      && (custody.Ok? && ParseU64(custody.value).None? ==> r == Failed(Parse))
      && (custody.Ok? && ParseU64(custody.value).Some? ==>
            r == Done((state.total_balance, ParseU64(custody.value).value)))
    ensures r.Done? ==>
      && GetVaultState(c.accountData(vault)).Done?
      && var state := GetVaultState(c.accountData(vault)).value;
      && r.value.0 == state.total_balance
      && c.tokenAmount(state.token_account).Ok?
      && ParseU64(c.tokenAmount(state.token_account).value) == Some(r.value.1)
  {
    match GetVaultState(c.accountData(vault))
    case Panicked => Panicked
    case Failed(e) => Failed(e)
    case Done(state) =>
      match c.tokenAmount(state.token_account)
      case Err(e) => Failed(Rpc(e))
      case Ok(text) =>
        match ParseU64(text)
        case None => Failed(Parse)
        case Some(amount) => Done((state.total_balance, amount))
  }

  /** `reconcile_balance`: `true` exactly when the two totals are equal; any
      difference, either way, is `false` with an alert carrying both; a failed
      query, decode or parse is an error and never `false`. */
  function ReconcileBalance(c: Cluster, vault: Pubkey): (r: Reconciliation)
    ensures r.outcome.Done? <==> Observe(c, vault).Done?
    ensures r.outcome.Done? ==>
      (r.outcome.value <==> Observe(c, vault).value.0 == Observe(c, vault).value.1)
    ensures r.outcome.Failed? <==> Observe(c, vault).Failed?
    ensures r.outcome.Failed? ==> r.outcome.error == Observe(c, vault).error
    ensures r.printed != [] <==> r.outcome == Done(false)
    ensures r.outcome == Done(false) ==>
      r.printed == [Alert(Observe(c, vault).value.0, Observe(c, vault).value.1)]
  {
    match Observe(c, vault)
    case Panicked => Reconciliation(Panicked, [])
    case Failed(e) => Reconciliation(Failed(e), [])
    case Done((recorded, custody)) =>
      if recorded != custody then Reconciliation(Done(false), [Alert(recorded, custody)])
      else Reconciliation(Done(true), [])
  }

  /** A stored vault whose custody account holds `x`, written as the RPC node
      writes amounts, reconciles as consistent exactly when `x` is its recorded
      total; any other amount, above or below, gives `false` and one alert
      carrying both. */
  lemma {:induction false} ReconcileStoredVault(c: Cluster, vault: Pubkey, tag: seq<Byte>,
                                                v: CollateralVault, padding: seq<Byte>, x: U64)
    requires |tag| == DISCRIMINATOR_LEN
    requires c.accountData(vault) == Ok(tag + SerializeVault(v) + padding)
    requires c.tokenAmount(v.token_account) == Ok(Decimal(x))
    ensures ReconcileBalance(c, vault) ==
      if x == v.total_balance then Reconciliation(Done(true), [])
      else Reconciliation(Done(false), [Alert(v.total_balance, x)])
  {
    GetStoredVaultState(tag, v, padding);
    ParseDecimal(x);
  }

  /** Drift: a recorded total of 100 against 90 in custody is reported as
      inconsistent, with both values; the reconciler only reads, so the vault
      still records 100. */
  lemma {:induction false} ReconcileDrift(c: Cluster, vault: Pubkey, tag: seq<Byte>, v: CollateralVault)
    requires |tag| == DISCRIMINATOR_LEN && v.total_balance == 100
    requires c.accountData(vault) == Ok(tag + SerializeVault(v))
    requires c.tokenAmount(v.token_account) == Ok("90")
    ensures ReconcileBalance(c, vault) == Reconciliation(Done(false), [Alert(100, 90)])
  {
    GetStoredVaultState(tag, v, []);
    assert tag + SerializeVault(v) + [] == tag + SerializeVault(v);
    assert "90"[..1] == "9";
    assert DigitsValue("90") == 90;
  }

  // ---------------------------------------------------------------------------
  // Instruction data

  datatype AccountMeta = AccountMeta(pubkey: Pubkey, is_signer: bool, is_writable: bool)

  datatype Instruction = Instruction(program_id: Pubkey, accounts: seq<AccountMeta>, data: seq<Byte>)

  /** The amount an instruction's data carries, read back as a u64. */
  function DataAmount(data: seq<Byte>): (r: Option<U64>)
    ensures r.Some? <==> |data| == 8
  {
    if |data| == 8 then Some(U64FromLe(data)) else None
  }

  /** `TransactionBuilder::build_deposit_ix`: always succeeds; the data is the
      8 little-endian bytes of `amount` (no instruction selector) and the
      account list is empty, so `user` and `vault` are not used. */
  function BuildDepositIx(programId: Pubkey, user: Pubkey, vault: Pubkey, amount: U64)
    : (r: Result<Instruction, BackendError>)
    ensures r.Ok? && r.value.program_id == programId && r.value.accounts == []
    ensures |r.value.data| == 8 && DataAmount(r.value.data) == Some(amount)
  {
    Ok(Instruction(programId, [], U64ToLe(amount)))
  }

  /** The `CPIManager`, which only remembers a program id. */
  datatype CpiManager = CpiManager(program_id: Pubkey)
  {
    /** `build_lock_instruction`: the same data layout as a deposit. */
    function BuildLockInstruction(vault: Pubkey, positionManager: Pubkey, amount: U64): (r: Instruction)
      ensures r.program_id == program_id && r.accounts == []
      ensures |r.data| == 8 && DataAmount(r.data) == Some(amount)
    {
      Instruction(program_id, [], U64ToLe(amount))
    }
  }

  /** Distinct amounts give distinct instruction data, and a lock carries the
      same bytes as a deposit of the same amount. */
  lemma InstructionDataDeterminesAmount(m: CpiManager, programId: Pubkey, user: Pubkey, vault: Pubkey,
                                        pm: Pubkey, a: U64, b: U64)
    ensures a != b ==> BuildDepositIx(programId, user, vault, a).value.data
                       != BuildDepositIx(programId, user, vault, b).value.data
    ensures m.BuildLockInstruction(vault, pm, a).data == BuildDepositIx(programId, user, vault, a).value.data
  {
  }

  // ---------------------------------------------------------------------------
  // One cycle of `start_vault_monitor`

  /** What one turn of the monitor's `for` loop prints for `vault`, and whether
      it panicked. `later` is the node's answer to the second `get_vault_state`,
      made after reconciliation. */
  datatype VaultCheck = VaultCheck(lines: seq<LogLine>, panicked: bool)

  function CheckVault(c: Cluster, later: Cluster, vault: Pubkey): (r: VaultCheck)
    ensures r.panicked ==> r.lines == []
  {
    var rec := ReconcileBalance(c, vault);
    match rec.outcome
    case Panicked => VaultCheck([], true)
    case Failed(e) => VaultCheck([MonitorError(vault, e)], false)
    case Done(isValid) =>
      if !isValid then VaultCheck(rec.printed, false)
      else match GetVaultState(later.accountData(vault))
        case Panicked => VaultCheck([], true)
        case Failed(_) => VaultCheck([], false)
        case Done(state) => VaultCheck([Tvl(vault, state.total_balance)], false)
  }

  /** What one turn of the loop prints, against the reconciliation result: an
      error line for a failure, the alert for a drift, and after `true` a TVL
      line exactly when the second read decodes. */
  lemma CheckVaultReports(c: Cluster, later: Cluster, vault: Pubkey)
    // a failure is printed as an error line, a drift as the alert
    ensures var rec, r := ReconcileBalance(c, vault), CheckVault(c, later, vault);
      && (rec.outcome == Panicked ==> r == VaultCheck([], true))
      && (rec.outcome.Failed? ==> r == VaultCheck([MonitorError(vault, rec.outcome.error)], false))
      && (rec.outcome == Done(false) ==> r == VaultCheck(rec.printed, false))
    // after `true`, the TVL line is printed exactly when the second read decodes
    ensures ReconcileBalance(c, vault).outcome == Done(true) ==>
      var again, r := GetVaultState(later.accountData(vault)), CheckVault(c, later, vault);
      && (r.panicked <==> again == Panicked)
      && (again.Failed? ==> r == VaultCheck([], false))
      && (again.Done? ==> r.lines == [Tvl(vault, again.value.total_balance)])
    // a TVL line is never printed otherwise
    ensures forall line :: line in CheckVault(c, later, vault).lines && line.Tvl? ==>
      && line.vault == vault
      && ReconcileBalance(c, vault).outcome == Done(true)
      && GetVaultState(later.accountData(vault)).Done?
      && line.total == GetVaultState(later.accountData(vault)).value.total_balance
  {
  }

  /** The lines printed by checking `vaults` in order, none of which panics. */
  function CycleLog(c: Cluster, later: Cluster, vaults: seq<Pubkey>): seq<LogLine>
  {
    if vaults == [] then []
    else CycleLog(c, later, vaults[..|vaults| - 1]) + CheckVault(c, later, vaults[|vaults| - 1]).lines
  }

  /** One pass over `vaults_to_watch`. Failures are printed and the pass goes
      on; only a panic ends it, at the vault that panicked. */
  method MonitorCycle(c: Cluster, later: Cluster, vaults: seq<Pubkey>)
    returns (log: seq<LogLine>, visited: nat)
    ensures visited <= |vaults|
    ensures forall j :: 0 <= j < visited ==> !CheckVault(c, later, vaults[j]).panicked
    ensures visited < |vaults| ==> CheckVault(c, later, vaults[visited]).panicked
    ensures log == CycleLog(c, later, vaults[..visited])
  {
    log, visited := [], 0;
    while visited < |vaults|
      invariant visited <= |vaults|
      invariant forall j :: 0 <= j < visited ==> !CheckVault(c, later, vaults[j]).panicked
      invariant log == CycleLog(c, later, vaults[..visited])
    {
      var lines, panicked := MonitorVault(c, later, vaults[visited]);
      if panicked {
        return;
      }
      CycleLogSnoc(c, later, vaults, visited);
      log := log + lines;
      visited := visited + 1;
    }
  }

  /** The body of the monitor's `for` loop for one vault. */
  method MonitorVault(c: Cluster, later: Cluster, vault: Pubkey)
    returns (lines: seq<LogLine>, panicked: bool)
    ensures VaultCheck(lines, panicked) == CheckVault(c, later, vault)
  {
    lines, panicked := [], false;
    var rec := ReconcileBalance(c, vault);
    match rec.outcome {
      case Panicked =>
        panicked := true;
      case Failed(e) =>
        lines := [MonitorError(vault, e)];
      case Done(isValid) =>
        if isValid {
          match GetVaultState(later.accountData(vault)) {
            case Panicked =>
              panicked := true;
            case Failed(_) =>
            case Done(state) =>
              lines := [Tvl(vault, state.total_balance)];
          }
        } else {
          lines := rec.printed;
        }
    }
  }

  lemma CycleLogSnoc(c: Cluster, later: Cluster, vaults: seq<Pubkey>, i: nat)
    requires i < |vaults|
    ensures CycleLog(c, later, vaults[..i + 1])
            == CycleLog(c, later, vaults[..i]) + CheckVault(c, later, vaults[i]).lines
  {
    assert vaults[..i + 1][..i] == vaults[..i];
  }

  /** Vaults are checked independently: the lines for a list are the lines for
      its parts, one after the other. */
  lemma {:induction false} CycleLogAppend(c: Cluster, later: Cluster, a: seq<Pubkey>, b: seq<Pubkey>)
    ensures CycleLog(c, later, a + b) == CycleLog(c, later, a) + CycleLog(c, later, b)
    decreases |b|
  {
    if b == [] {
      assert a + b == a;
    } else {
      var b' := b[..|b| - 1];
      assert (a + b)[..|a + b| - 1] == a + b';
      assert (a + b)[|a + b| - 1] == b[|b| - 1];
      CycleLogAppend(c, later, a, b');
    }
  }

  /** A TVL line is printed only for a watched vault that reconciled as
      consistent, and then (when nothing changed in between) the reported
      total is the custody amount. */
  lemma {:induction false} TvlOnlyWhenConsistent(c: Cluster, later: Cluster, vaults: seq<Pubkey>,
                                                 vault: Pubkey, total: U64)
    requires Tvl(vault, total) in CycleLog(c, later, vaults)
    ensures vault in vaults
    ensures ReconcileBalance(c, vault).outcome == Done(true)
    ensures later == c ==> Observe(c, vault) == Done((total, total))
    decreases |vaults|
  {
    var init := vaults[..|vaults| - 1];
    var last := vaults[|vaults| - 1];
    if Tvl(vault, total) in CycleLog(c, later, init) {
      TvlOnlyWhenConsistent(c, later, init, vault, total);
    } else {
      assert Tvl(vault, total) in CheckVault(c, later, last).lines;
      assert vault == last;
    }
  }

  /** Every drift is reported: a watched vault that reconciles as `false` gets
      the alert carrying both totals, whatever errors or drifts the vaults before
      it had, provided none of them panicked: `CycleLog` is the cycle's output
      only while no vault panics, since a panic ends the cycle (`MonitorCycle`). */
  lemma {:induction false} DriftAlerted(c: Cluster, later: Cluster, vaults: seq<Pubkey>, k: nat)
    requires k < |vaults| && ReconcileBalance(c, vaults[k]).outcome == Done(false)
    ensures Alert(Observe(c, vaults[k]).value.0, Observe(c, vaults[k]).value.1)
            in CycleLog(c, later, vaults)
    decreases |vaults|
  {
    var init := vaults[..|vaults| - 1];
    if k < |vaults| - 1 {
      DriftAlerted(c, later, init, k);
    }
  }

  /** Every failure is reported: a watched vault whose reconciliation fails
      gets its error line, whatever errors or drifts the vaults before it had,
      provided none of them panicked (`MonitorCycle`). */
  lemma {:induction false} FailureReported(c: Cluster, later: Cluster, vaults: seq<Pubkey>, k: nat)
    requires k < |vaults| && ReconcileBalance(c, vaults[k]).outcome.Failed?
    ensures MonitorError(vaults[k], ReconcileBalance(c, vaults[k]).outcome.error)
            in CycleLog(c, later, vaults)
    decreases |vaults|
  {
    var init := vaults[..|vaults| - 1];
    if k < |vaults| - 1 {
      FailureReported(c, later, init, k);
    }
  }
}
