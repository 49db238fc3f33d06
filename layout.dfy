/** Byte layouts: little-endian integers (`to_le_bytes`, Borsh integers), the
    Borsh serialization of a `CollateralVault` account and the account sizes
    the program reserves. */
module Layout {
  import opened Prim
  import opened Ds

  function Pow256(n: nat): (p: nat)
    ensures p >= 1
  {
    if n == 0 then 1 else 256 * Pow256(n - 1)
  }

  lemma Pow256Of8()
    ensures Pow256(8) == TWO_TO_THE_64
  {
  }

  /** The `n` least significant bytes of `x`, least significant first. */
  function LeBytes(x: nat, n: nat): (b: seq<Byte>)
    ensures |b| == n
  {
    if n == 0 then [] else [x % 256] + LeBytes(x / 256, n - 1)
  }

  /** The number whose little-endian bytes are `b`. */
  function FromLe(b: seq<Byte>): (x: nat)
    ensures x < Pow256(|b|)
  {
    if b == [] then 0 else b[0] + 256 * FromLe(b[1..])
  }

  /** Reading back the bytes of a number that fits in them gives the number. */
  lemma {:induction false} FromLeBytes(x: nat, n: nat)
    requires x < Pow256(n)
    ensures FromLe(LeBytes(x, n)) == x
  {
    if n > 0 {
      var b := LeBytes(x, n);
      assert b[1..] == LeBytes(x / 256, n - 1);
      FromLeBytes(x / 256, n - 1);
    }
  }

  /** Writing back the value read from `b` gives `b`: no two byte strings of
      one length read as the same number. */
  lemma {:induction false} LeBytesFromLe(b: seq<Byte>)
    ensures LeBytes(FromLe(b), |b|) == b
  {
    if b != [] {
      var x := FromLe(b);
      assert x == b[0] + 256 * FromLe(b[1..]);
      assert x % 256 == b[0] && x / 256 == FromLe(b[1..]);
      LeBytesFromLe(b[1..]);
    }
  }

  /** `u64::to_le_bytes`. */
  function U64ToLe(x: U64): (b: seq<Byte>)
    ensures |b| == 8 && FromLe(b) == x
  {
    Pow256Of8();
    FromLeBytes(x, 8);
    LeBytes(x, 8)
  }

  /** `u64::from_le_bytes`, the inverse of `U64ToLe`. */
  function U64FromLe(b: seq<Byte>): (x: U64)
    requires |b| == 8
    ensures U64ToLe(x) == b
  {
    Pow256Of8();
    LeBytesFromLe(b);
    FromLe(b)
  }

  /** `i64::to_le_bytes`: two's complement, so a negative `t` is written as `t + 2^64`. */
  function I64ToLe(t: I64): (b: seq<Byte>)
    ensures |b| == 8
    ensures I64FromLe(b) == t
  {
    U64ToLe(if t < 0 then t + TWO_TO_THE_64 else t)
  }

  /** `i64::from_le_bytes`. */
  function I64FromLe(b: seq<Byte>): (t: I64)
    requires |b| == 8
  {
    Pow256Of8();
    var u := FromLe(b);
    if u < TWO_TO_THE_64 / 2 then u else u - TWO_TO_THE_64
  }

  /** Bytes of a Borsh-serialized `CollateralVault`: two keys, five u64, one i64, one u8. */
  const VAULT_DATA_LEN: nat := 32 + 32 + 5 * 8 + 8 + 1

  /** Every Anchor account starts with an 8-byte type tag. */
  const DISCRIMINATOR_LEN: nat := 8

  /** Borsh serialization of a vault, fields in declaration order. */
  function SerializeVault(v: CollateralVault): (b: seq<Byte>)
    ensures |b| == VAULT_DATA_LEN
    ensures b[0..32] == v.owner && b[32..64] == v.token_account
    ensures FromLe(b[64..72]) == v.total_balance
    ensures FromLe(b[72..80]) == v.locked_balance
    ensures FromLe(b[80..88]) == v.available_balance
    ensures FromLe(b[88..96]) == v.total_deposited
    ensures FromLe(b[96..104]) == v.total_withdrawn
    ensures I64FromLe(b[104..112]) == v.created_at
    ensures b[112] == v.bump
  {
    var b := v.owner + v.token_account
      + U64ToLe(v.total_balance) + U64ToLe(v.locked_balance) + U64ToLe(v.available_balance)
      + U64ToLe(v.total_deposited) + U64ToLe(v.total_withdrawn)
      + I64ToLe(v.created_at) + [v.bump];
    assert b[64..72] == U64ToLe(v.total_balance);
    assert b[72..80] == U64ToLe(v.locked_balance);
    assert b[80..88] == U64ToLe(v.available_balance);
    assert b[88..96] == U64ToLe(v.total_deposited);
    assert b[96..104] == U64ToLe(v.total_withdrawn);
    assert b[104..112] == I64ToLe(v.created_at);
    b
  }

  /** The space `initialize` reserves for the vault account: `Vault::LEN`, which
      was sized for a different, smaller struct. */
  const VAULT_LEN: nat := 8 + 32 + 8 + 8 + 1 + 50

  /** The space a `CollateralVault` account actually needs. */
  const COLLATERAL_VAULT_SPACE: nat := DISCRIMINATOR_LEN + VAULT_DATA_LEN

  /** A vault held in an account of `space` bytes: the tag, the serialized
      fields, then the zero bytes the account was created with. When the record
      does not fit, the account cannot hold a `CollateralVault`, and an
      instruction that needs it to fails. */
  function StoreVault(space: nat, tag: seq<Byte>, v: CollateralVault): (r: Option<seq<Byte>>)
    requires |tag| == DISCRIMINATOR_LEN
    ensures r.Some? <==> COLLATERAL_VAULT_SPACE <= space
    ensures r.Some? ==> |r.value| == space && r.value[..8] == tag
    ensures r.Some? ==> r.value[8..8 + VAULT_DATA_LEN] == SerializeVault(v)
  {
    if COLLATERAL_VAULT_SPACE <= space then
      var data := tag + SerializeVault(v) + seq(space - COLLATERAL_VAULT_SPACE, _ => 0);
      assert data[8..8 + VAULT_DATA_LEN] == SerializeVault(v);
      Some(data)
    else None
  }

  /** As written, `initialize` creates the vault account with `Vault::LEN` bytes,
      which cannot hold any `CollateralVault`, so `initialize` always reverts. */
  lemma InitializeSpaceTooSmall(tag: seq<Byte>, v: CollateralVault)
    requires |tag| == DISCRIMINATOR_LEN
    ensures VAULT_LEN == 107 && COLLATERAL_VAULT_SPACE == 121
    ensures StoreVault(VAULT_LEN, tag, v) == None
  {
  }

  /** With the space the record needs, every vault is stored. */
  lemma InitializeSpaceSuffices(tag: seq<Byte>, v: CollateralVault)
    requires |tag| == DISCRIMINATOR_LEN
    ensures StoreVault(COLLATERAL_VAULT_SPACE, tag, v).Some?
    ensures StoreVault(COLLATERAL_VAULT_SPACE, tag, v).value == tag + SerializeVault(v)
  {
  }

  /** Space reserved for the `VaultAuthority` account: tag, vector length, five
      keys and the bump. */
  const AUTHORITY_SPACE: nat := 8 + 4 + 32 * 5 + 1

  /** Most ids the authority account can store. */
  const MAX_AUTHORIZED: nat := 5

  /** Whether a list of `n` ids, serialized with its 4-byte length prefix, fits
      the authority account. This is a storage limit: no instruction code tests it. */
  predicate AuthorityFits(ids: seq<Pubkey>)
  {
    8 + 4 + 32 * |ids| + 1 <= AUTHORITY_SPACE
  }

  lemma AuthorityCapacity(ids: seq<Pubkey>)
    ensures AuthorityFits(ids) <==> |ids| <= MAX_AUTHORIZED
  {
  }
}
