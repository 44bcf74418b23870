/** The fields of an account operation's 256-bit nonce and what they say about it
  * (worker/src/executor.ts). The layout is ERC-4337's semi-abstracted nonce, a 192-bit key
  * over a 64-bit sequence, with Kernel's key of mode, validator type, identifier and id. */
module KernelNonce {
  const TWO_8: nat := 0x100
  const TWO_16: nat := 0x1_0000
  const TWO_32: nat := 0x1_0000_0000
  const TWO_64: nat := 0x1_0000_0000_0000_0000
  const TWO_128: nat := 0x1_0000_0000_0000_0000_0000_0000_0000_0000
  const TWO_208: nat := TWO_128 * TWO_64 * TWO_16
  const TWO_240: nat := TWO_208 * TWO_32
  const TWO_248: nat := TWO_240 * TWO_8
  const TWO_256: nat := TWO_248 * TWO_8

  const ENABLE := 1
  const PERMISSION := 2

  /** The 20-byte identifier is the 4-byte permission id and what follows it. */
  datatype Fields = Fields(
    mode: nat, validatorType: nat, permissionId: nat, rest: nat, keyId: nat, sequence: nat)

  predicate InWidth(f: Fields) {
    && f.mode < TWO_8 && f.validatorType < TWO_8 && f.permissionId < TWO_32
    && f.rest < TWO_128 && f.keyId < TWO_16 && f.sequence < TWO_64
  }

  /** mode(1), validator type(1), identifier(20), id(2), sequence(8), most significant first. */
  function Pack(f: Fields): nat {
    ((((f.mode * TWO_8 + f.validatorType) * TWO_32 + f.permissionId) * TWO_128 + f.rest) * TWO_16 + f.keyId) * TWO_64
    + f.sequence
  }

  function Mode(nonce: nat): nat {
    nonce / TWO_248 % TWO_8
  }

  function ValidatorType(nonce: nat): nat {
    nonce / TWO_240 % TWO_8
  }

  function NoncePermissionId(nonce: nat): nat {
    nonce / TWO_208 % TWO_32
  }

  function NonceSequence(nonce: nat): nat {
    nonce % TWO_64
  }

  predicate IsFirstEnable(nonce: nat) {
    Mode(nonce) == ENABLE && ValidatorType(nonce) == PERMISSION
  }

  lemma Multiple(k: nat, base: nat)
    requires k >= 1
    ensures k * base == base + (k - 1) * base >= base
  {
  }

  lemma QuotientIsUnique(p: nat, r: nat, q: nat, t: nat, base: nat)
    requires p * base + r == q * base + t && r < base && t < base
    ensures p <= q
  {
    if p > q {
      assert p * base == q * base + (p - q) * base;
      Multiple(p - q, base);
    }
  }

  /** Dividing splits what was put together. */
  lemma Split(high: nat, low: nat, base: nat)
    requires low < base
    ensures (high * base + low) / base == high
    ensures (high * base + low) % base == low
  {
    var n := high * base + low;
    var q, r := n / base, n % base;
    assert n == q * base + r;
    QuotientIsUnique(high, low, q, r, base);
    QuotientIsUnique(q, r, high, low, base);
  }

  /** The packing over each boundary the readers cut at. */
  lemma Cuts(f: Fields) returns (low: nat)
    requires InWidth(f)
    ensures low < TWO_208
    ensures Pack(f) == ((f.mode * TWO_8 + f.validatorType) * TWO_32 + f.permissionId) * TWO_208 + low
    ensures Pack(f) == (f.mode * TWO_8 + f.validatorType) * TWO_240 + (f.permissionId * TWO_208 + low)
    ensures Pack(f) == f.mode * TWO_248 + (f.validatorType * TWO_240 + f.permissionId * TWO_208 + low)
  {
    low := (f.rest * TWO_16 + f.keyId) * TWO_64 + f.sequence;
  }

  lemma ReadsPermissionId(f: Fields)
    requires InWidth(f)
    ensures NoncePermissionId(Pack(f)) == f.permissionId
  {
    var low := Cuts(f);
    var top: nat := f.mode * TWO_8 + f.validatorType;
    var high: nat := top * TWO_32 + f.permissionId;
    assert Pack(f) / TWO_208 == high by { Split(high, low, TWO_208); }
    Split(top, f.permissionId, TWO_32);
  }

  lemma ReadsValidatorType(f: Fields)
    requires InWidth(f)
    ensures ValidatorType(Pack(f)) == f.validatorType
  {
    var low := Cuts(f);
    Split(f.mode * TWO_8 + f.validatorType, f.permissionId * TWO_208 + low, TWO_240);
    Split(f.mode, f.validatorType, TWO_8);
  }

  lemma ReadsMode(f: Fields)
    requires InWidth(f)
    ensures Mode(Pack(f)) == f.mode && Pack(f) < TWO_256
  {
    var low := Cuts(f);
    Split(f.mode, f.validatorType * TWO_240 + f.permissionId * TWO_208 + low, TWO_248);
    Split(0, f.mode, TWO_8);
  }

  lemma ReadsSequence(f: Fields)
    requires InWidth(f)
    ensures NonceSequence(Pack(f)) == f.sequence
  {
    var key := (((f.mode * TWO_8 + f.validatorType) * TWO_32 + f.permissionId) * TWO_128 + f.rest) * TWO_16 + f.keyId;
    Split(key, f.sequence, TWO_64);
  }

  /** Every field reads back as it was packed. */
  lemma UnpackInvertsPack(f: Fields)
    requires InWidth(f)
    ensures Pack(f) < TWO_256
    ensures Mode(Pack(f)) == f.mode
    ensures ValidatorType(Pack(f)) == f.validatorType
    ensures NoncePermissionId(Pack(f)) == f.permissionId
    ensures NonceSequence(Pack(f)) == f.sequence
    ensures IsFirstEnable(Pack(f)) <==> f.mode == 1 && f.validatorType == 2
  {
    ReadsMode(f);
    ReadsValidatorType(f);
    ReadsPermissionId(f);
    ReadsSequence(f);
  }

  lemma Peel(p: nat, r: nat, q: nat, t: nat, base: nat)
    requires p * base + r == q * base + t && r < base && t < base
    ensures p == q && r == t
  {
    QuotientIsUnique(p, r, q, t, base);
    QuotientIsUnique(q, t, p, r, base);
  }

  /** Two operations never share a nonce unless every field of theirs agrees, the two the
    * module never reads back included. */
  lemma PackIsInjective(f: Fields, g: Fields)
    requires InWidth(f) && InWidth(g) && Pack(f) == Pack(g)
    ensures f == g
  {
    var f3, g3 := f.mode * TWO_8 + f.validatorType, g.mode * TWO_8 + g.validatorType;
    var f2, g2 := f3 * TWO_32 + f.permissionId, g3 * TWO_32 + g.permissionId;
    var f1, g1 := f2 * TWO_128 + f.rest, g2 * TWO_128 + g.rest;
    Peel(f1 * TWO_16 + f.keyId, f.sequence, g1 * TWO_16 + g.keyId, g.sequence, TWO_64);
    Peel(f1, f.keyId, g1, g.keyId, TWO_16);
    Peel(f2, f.rest, g2, g.rest, TWO_128);
    Peel(f3, f.permissionId, g3, g.permissionId, TWO_32);
    Peel(f.mode, f.validatorType, g.mode, g.validatorType, TWO_8);
  }

  /** Every 256-bit nonce is the packing of some fields, and of no others. */
  lemma EveryNonceIsPacked(nonce: nat)
    requires nonce < TWO_256
    ensures exists f :: PacksTo(f, nonce) && forall g :: PacksTo(g, nonce) ==> g == f
  {
    var a, sequence := nonce / TWO_64, nonce % TWO_64;
    var b, keyId := a / TWO_16, a % TWO_16;
    var c, rest := b / TWO_128, b % TWO_128;
    var d, permissionId := c / TWO_32, c % TWO_32;
    var mode, validatorType := d / TWO_8, d % TWO_8;
    var f := Fields(mode, validatorType, permissionId, rest, keyId, sequence);
    assert Pack(f) == nonce;
    assert mode < TWO_8;
    assert PacksTo(f, nonce);
    forall g | PacksTo(g, nonce)
      ensures g == f
    {
      PackIsInjective(f, g);
    }
  }

  predicate PacksTo(f: Fields, nonce: nat) {
    InWidth(f) && Pack(f) == nonce
  }
}
