/**
 * The payloads of the flash records (hsm-core/src/storage.rs): configuration,
 * wrapped key and trusted-time floor as bytes. Each fits one flash page.
 */
module Records {
  import opened Options
  import opened AbRecords
  import opened Bytes
  import opened Storage
  import Wrap
  import Session

  // -------------------------------------------------------------- configuration

  type Version = v: seq<byte> | |v| == 3 witness [0, 0, 0]

  /** The work factors fit the fields that hold them. */
  predicate Storable(c: Session.DeviceConfig) {
    c.argon2.mCost < 0x1_0000_0000 && c.argon2.tCost < 0x1_0000_0000 && c.argon2.parallelism < 256
  }

  function ConfigToBytes(c: Session.DeviceConfig, fw: Version): seq<byte>
    requires Storable(c)
  {
    [if c.mode.Dev? then 0 else 1] + ToBE(c.argon2.mCost, 4) + ToBE(c.argon2.tCost, 4)
    + [c.argon2.parallelism, c.maxRetries, if c.wipeOnLockout then 1 else 0] + fw
  }

  function ConfigFromBytes(b: seq<byte>): Option<(Session.DeviceConfig, Version)> {
    if |b| < 15 || b[0] > 1 then None
    else
      Some((Session.DeviceConfig(if b[0] == 0 then Session.Dev else Session.Prod,
                                 Wrap.Argon2Params(FromBE(b[1..5]), FromBE(b[5..9]), b[9]), b[10], b[11] != 0),
            b[12..15]))
  }

  lemma ConfigRoundTrip(c: Session.DeviceConfig, fw: Version)
    requires Storable(c)
    ensures |ConfigToBytes(c, fw)| == 15 <= ONE_PAGE_PAYLOAD
    ensures ConfigFromBytes(ConfigToBytes(c, fw)) == Some((c, fw))
    ensures var b := ConfigToBytes(c, fw);
            && b[0] == (if c.mode.Dev? then 0 else 1)
            && b[1..5] == ToBE(c.argon2.mCost, 4) && b[5..9] == ToBE(c.argon2.tCost, 4)
            && b[9] == c.argon2.parallelism && b[10] == c.maxRetries
            && b[11] == (if c.wipeOnLockout then 1 else 0) && b[12..] == fw
  {
    Pow256Values();
    var b := ConfigToBytes(c, fw);
    FromToBE(c.argon2.mCost, 4);
    FromToBE(c.argon2.tCost, 4);
    assert b[1..5] == ToBE(c.argon2.mCost, 4);
    assert b[5..9] == ToBE(c.argon2.tCost, 4);
    assert b[12..15] == fw && b[12..] == b[12..15];
  }

  // ------------------------------------------------------------------ wrapped key

  type Bytes12 = s: seq<byte> | |s| == 12 witness Filled(0, 12)
  type Bytes16 = s: seq<byte> | |s| == 16 witness Filled(0, 16)
  type Bytes32 = s: seq<byte> | |s| == 32 witness Filled(0, 32)

  datatype BlobRecord = BlobRecord(wrapType: Wrap.WrapType, nonce: Bytes12, pubkey: Bytes32,
                                   ciphertext: Bytes32, tag: Bytes16, salt: Bytes16)

  function BlobToBytes(k: BlobRecord): seq<byte> {
    [if k.wrapType.DevWrap? then 3 else 4] + k.nonce + k.pubkey + k.ciphertext + k.tag + k.salt
  }

  function BlobFromBytes(b: seq<byte>): Option<BlobRecord> {
    if |b| < 109 || (b[0] != 3 && b[0] != 4) then None
    else Some(BlobRecord(if b[0] == 3 then Wrap.DevWrap else Wrap.PinWrap,
                         b[1..13], b[13..45], b[45..77], b[77..93], b[93..109]))
  }

  lemma BlobRoundTrip(k: BlobRecord)
    ensures |BlobToBytes(k)| == 109 <= ONE_PAGE_PAYLOAD
    ensures BlobFromBytes(BlobToBytes(k)) == Some(k)
    ensures var b := BlobToBytes(k);
            && b[0] == (if k.wrapType.DevWrap? then 3 else 4)
            && b[1..13] == k.nonce && b[13..45] == k.pubkey && b[45..77] == k.ciphertext
            && b[77..93] == k.tag && b[93..109] == k.salt
  {
    var b := BlobToBytes(k);
    assert b[1..13] == k.nonce;
    assert b[13..45] == k.pubkey;
    assert b[45..77] == k.ciphertext;
    assert b[77..93] == k.tag;
    assert b[93..109] == k.salt;
  }

  /** Decoding determines a 109-byte record, so two blobs never share their bytes. */
  lemma BlobBytesAreUnique(b: seq<byte>)
    requires |b| == 109 && BlobFromBytes(b).Some?
    ensures BlobToBytes(BlobFromBytes(b).value) == b
  {
    assert b == [b[0]] + b[1..13] + b[13..45] + b[45..77] + b[77..93] + b[93..109];
  }

  /** Records of the first format, with tags 1 and 2, and short ones are refused. */
  lemma OldBlobsAreRefused(b: seq<byte>)
    ensures BlobFromBytes(b).Some? <==> |b| >= 109 && (b[0] == 3 || b[0] == 4)
    ensures ConfigFromBytes(b).Some? <==> |b| >= 15 && (b[0] == 0 || b[0] == 1)
  {
  }

  // ----------------------------------------------------------------- time floor


  /** `i64::to_be_bytes`, in two's complement. */
  function FloorToBytes(t: int): seq<byte> {
    ToBE(t % TWO_64, 8)
  }

  /** A floor record of any other length is refused. */
  function FloorFromBytes(b: seq<byte>): Option<int> {
    if |b| != 8 then None
    else if FromBE(b) < TWO_63 then Some(FromBE(b)) else Some(FromBE(b) - TWO_64)
  }

  lemma FloorRoundTrip(t: int)
    requires -0x8000_0000_0000_0000 <= t < 0x8000_0000_0000_0000
    ensures |FloorToBytes(t)| == 8 <= ONE_PAGE_PAYLOAD
    ensures FloorFromBytes(FloorToBytes(t)) == Some(t)
  {
    Pow256Values();
    FromToBE(t % TWO_64, 8);
  }

  /**
   * Down to the sector: after any run of configuration writes, failed or cut
   * anywhere, the configuration that a boot decodes is the last one written
   * completely.
   */
  lemma LatestConfigSurvives(writes: seq<ByteWrite>, c: Session.DeviceConfig, fw: Version)
    requires forall i :: 0 <= i < |writes| ==> Plausible(writes[i])
    requires |writes| < SEQUENCE_SPACE
    requires Storable(c)
    requires AtomicCell(None, AttemptsOf(writes)) == Some(ConfigToBytes(c, fw))
    ensures var q := RunBytes((ErasedSector(), ErasedSector()), writes);
            var latest := Latest(Pair(SlotOf(q.0), SlotOf(q.1)));
            latest.Some? && ConfigFromBytes(latest.value) == Some((c, fw))
  {
    hide RunBytes, ConfigToBytes, ConfigFromBytes, SlotOf;
    SectorsRefineCell(writes);
    ConfigRoundTrip(c, fw);
  }
}
