/** The byte layout of work receipts, shared by host and chain. */
module Receipts {
  import opened Options
  import opened Bytes

  type U64 = x: int | 0 <= x < 0x1_0000_0000_0000_0000
  type I64 = x: int | -0x8000_0000_0000_0000 <= x < 0x8000_0000_0000_0000
  type Hash = s: seq<byte> | |s| == 32 witness seq(32, _ => 0)

  /** "AGENTBOND_RECEIPT_V1" in ASCII. */
  const DOMAIN: seq<byte> := [65, 71, 69, 78, 84, 66, 79, 78, 68, 95, 82, 69, 67, 69, 73, 80, 84, 95, 86, 49]
  const VERSION: nat := 1
  const ENCODED_LEN: nat := 334

  /** Where each field starts, in order; the last entry is the length. */
  const OFFSETS: seq<nat> := [0, 20, 22, 54, 86, 118, 150, 182, 214, 246, 278, 310, 318, 326, 334]

  datatype WorkReceipt = WorkReceipt(
    programId: Hash, genesisHash: Hash, job: Hash, buyer: Hash, provider: Hash,
    requestHash: Hash, resultHash: Hash, artifactHash: Hash, softwareHash: Hash,
    jobNonce: U64, createdAt: I64, expiresAt: I64)
  {
    predicate Valid() {
      createdAt <= expiresAt
    }
  }

  datatype Problem = InvalidLength | InvalidDomain | UnsupportedVersion | InvalidTimestamps
  datatype Result<T> = Ok(value: T) | Err(problem: Problem)

  // ---- Integers ----

  lemma EightBytes()
    ensures Bound(8) == 0x1_0000_0000_0000_0000
  {
    assert Bound(2) == 0x1_0000;
    assert Bound(4) == 0x1_0000_0000;
    assert Bound(6) == 0x1_0000_0000_0000;
  }

  function U64Bytes(v: U64): (b: seq<byte>)
    ensures |b| == 8 && FromLe(b) == v
  {
    EightBytes();
    LeRoundTrip(v, 8);
    ToLe(v, 8)
  }

  function ReadU64(b: seq<byte>): (v: U64)
    requires |b| == 8
    ensures U64Bytes(v) == b
  {
    EightBytes();
    LeIsCanonical(b);
    FromLe(b)
  }

  function I64Bytes(v: I64): (b: seq<byte>)
    ensures |b| == 8 && ToSigned(FromLe(b), 8) == v
  {
    EightBytes();
    LeRoundTrip(FromSigned(v, 8), 8);
    ToLe(FromSigned(v, 8), 8)
  }

  function ReadI64(b: seq<byte>): (v: I64)
    requires |b| == 8
    ensures I64Bytes(v) == b
  {
    EightBytes();
    LeIsCanonical(b);
    ToSigned(FromLe(b), 8)
  }

  lemma I64RoundTrip(v: I64)
    ensures ReadI64(I64Bytes(v)) == v
  {
  }

  // ---- The layout ----

  function VersionBytes(): (b: seq<byte>)
    ensures |b| == 2 && FromLe(b) == VERSION
  {
    assert Bound(2) == 0x1_0000;
    LeRoundTrip(VERSION, 2);
    ToLe(VERSION, 2)
  }

  /** The fields in the order they are written. */
  function Fields(r: WorkReceipt): (parts: seq<seq<byte>>)
    ensures |parts| == 14 && forall k :: 0 <= k < 14 ==> |parts[k]| == OFFSETS[k + 1] - OFFSETS[k]
  {
    [DOMAIN, VersionBytes(), r.programId, r.genesisHash, r.job, r.buyer, r.provider, r.requestHash, r.resultHash,
     r.artifactHash, r.softwareHash, U64Bytes(r.jobNonce), I64Bytes(r.createdAt), I64Bytes(r.expiresAt)]
  }

  lemma {:induction false} FieldStarts(parts: seq<seq<byte>>, k: nat)
    requires |parts| == 14 && forall i :: 0 <= i < 14 ==> |parts[i]| == OFFSETS[i + 1] - OFFSETS[i]
    requires k <= 14
    ensures Start(parts, k) == OFFSETS[k]
    decreases k
  {
    if k == 0 {
    } else {
      FieldStarts(parts, k - 1);
    }
  }

  function Encode(r: WorkReceipt): Result<seq<byte>> {
    if r.Valid() then Ok(Concat(Fields(r))) else Err(InvalidTimestamps)
  }

  /** The k-th field of a record of the right length. */
  function Field(data: seq<byte>, k: nat): (part: seq<byte>)
    requires |data| == ENCODED_LEN && k < 14
    ensures |part| == OFFSETS[k + 1] - OFFSETS[k]
  {
    data[OFFSETS[k]..OFFSETS[k + 1]]
  }

  function Fill(data: seq<byte>): WorkReceipt
    requires |data| == ENCODED_LEN
  {
    WorkReceipt(Field(data, 2), Field(data, 3), Field(data, 4), Field(data, 5), Field(data, 6),
                Field(data, 7), Field(data, 8), Field(data, 9), Field(data, 10),
                ReadU64(Field(data, 11)), ReadI64(Field(data, 12)), ReadI64(Field(data, 13)))
  }

  function Decode(data: seq<byte>): Result<WorkReceipt> {
    if |data| != ENCODED_LEN then Err(InvalidLength)
    else if Field(data, 0) != DOMAIN then Err(InvalidDomain)
    else if FromLe(Field(data, 1)) != VERSION then Err(UnsupportedVersion)
    else if !Fill(data).Valid() then Err(InvalidTimestamps)
    else Ok(Fill(data))
  }

  /** Fills the fixed buffer field by field, as the encoder does. */
  method EncodeInto(r: WorkReceipt) returns (out: Result<array<byte>>)
    ensures out.Ok? <==> Encode(r).Ok?
    ensures out.Ok? ==> fresh(out.value) && out.value[..] == Encode(r).value
    ensures out.Err? ==> out.problem == Encode(r).problem
  {
    if !r.Valid() {
      return Err(InvalidTimestamps);
    }
    var buffer := new byte[ENCODED_LEN](_ => 0);
    var at;
    ghost var done;
    at, done := WriteIdentity(r, buffer);
    at, done := CopyPart(buffer, at, r.requestHash, done);
    at, done := CopyPart(buffer, at, r.resultHash, done);
    at, done := CopyPart(buffer, at, r.artifactHash, done);
    at, done := CopyPart(buffer, at, r.softwareHash, done);
    at, done := CopyPart(buffer, at, U64Bytes(r.jobNonce), done);
    at, done := CopyPart(buffer, at, I64Bytes(r.createdAt), done);
    at, done := CopyPart(buffer, at, I64Bytes(r.expiresAt), done);
    assert done == Fields(r) && buffer[..ENCODED_LEN] == buffer[..];
    out := Ok(buffer);
  }

  /** The first seven fields. */
  method WriteIdentity(r: WorkReceipt, buffer: array<byte>) returns (at: nat, ghost done: seq<seq<byte>>)
    requires buffer.Length == ENCODED_LEN
    modifies buffer
    ensures at == OFFSETS[7] && buffer[..at] == Concat(done)
    ensures done == [DOMAIN, VersionBytes(), r.programId, r.genesisHash, r.job, r.buyer, r.provider]
  {
    at, done := CopyPart(buffer, 0, DOMAIN, []);
    at, done := CopyPart(buffer, at, VersionBytes(), done);
    at, done := CopyPart(buffer, at, r.programId, done);
    at, done := CopyPart(buffer, at, r.genesisHash, done);
    at, done := CopyPart(buffer, at, r.job, done);
    at, done := CopyPart(buffer, at, r.buyer, done);
    at, done := CopyPart(buffer, at, r.provider, done);
  }

  // ---- Mutual inverses ----

  lemma EncodedFields(r: WorkReceipt, k: nat)
    requires k < 14
    ensures |Concat(Fields(r))| == ENCODED_LEN && Field(Concat(Fields(r)), k) == Fields(r)[k]
  {
    var parts := Fields(r);
    LengthIsEnd(parts);
    FieldStarts(parts, 14);
    FieldStarts(parts, k);
    FieldStarts(parts, k + 1);
    PartAt(parts, k);
  }

  /** Every valid receipt is decoded from its own encoding. */
  lemma DecodeEncode(r: WorkReceipt)
    requires r.Valid()
    ensures Encode(r).Ok? && |Encode(r).value| == ENCODED_LEN && Decode(Encode(r).value) == Ok(r)
  {
    var data := Concat(Fields(r));
    forall k | 0 <= k < 14 ensures |data| == ENCODED_LEN && Field(data, k) == Fields(r)[k] {
      EncodedFields(r, k);
    }
    assert Field(data, 0) == DOMAIN && FromLe(Field(data, 1)) == VERSION;
    I64RoundTrip(r.createdAt);
    I64RoundTrip(r.expiresAt);
    assert Fill(data) == r;
  }

  lemma DecodedFields(data: seq<byte>, k: nat)
    requires Decode(data).Ok? && k < 14
    ensures Fields(Decode(data).value)[k] == Field(data, k)
  {
    LeIsCanonical(Field(data, 1));
  }

  /** Accepted bytes are the one encoding of what they decode to. */
  lemma EncodeDecode(data: seq<byte>)
    requires Decode(data).Ok?
    ensures Encode(Decode(data).value) == Ok(data)
  {
    var parts := Fields(Decode(data).value);
    forall k | 0 <= k < 14 ensures parts[k] == Field(data, k) {
      DecodedFields(data, k);
    }
    JoinFields(data, parts);
  }

  lemma JoinFields(data: seq<byte>, parts: seq<seq<byte>>)
    requires |data| == ENCODED_LEN && |parts| == 14 && forall k :: 0 <= k < 14 ==> parts[k] == Field(data, k)
    ensures Concat(parts) == data
  {
    FieldStarts(parts, 14);
    forall k | 0 <= k < 14 ensures CutAt(data, parts, k) {
      FieldStarts(parts, k);
    }
    CutsJoin(data, parts);
    assert data[..ENCODED_LEN] == data;
  }

  // ---- The layout in numbers ----

  lemma SignedBytes(v: I64)
    ensures FromLe(I64Bytes(v)) == if v >= 0 then v else v + 0x1_0000_0000_0000_0000
  {
    EightBytes();
  }

  lemma VersionIsOne()
    ensures VersionBytes() == [1, 0]
  {
    assert Bound(2) == 0x1_0000;
    LeByte(1, 2, 0);
    LeByte(1, 2, 1);
    assert Bound(0) == 1 && Bound(1) == 256;
  }

  lemma DomainIsText(i: nat)
    requires i < 20
    ensures |DOMAIN| == 20 && DOMAIN[i] as int == "AGENTBOND_RECEIPT_V1"[i] as int
  {
  }

  /** Which bytes of an encoded receipt hold which field: the boundary that signatures freeze. */
  lemma EncodedBytes(r: WorkReceipt)
    requires r.Valid()
    ensures Encode(r).Ok? && |Encode(r).value| == 334
    ensures var data := Encode(r).value;
            && data[0..20] == DOMAIN && data[20..22] == [1, 0]
            && data[22..54] == r.programId && data[54..86] == r.genesisHash && data[86..118] == r.job
            && data[118..150] == r.buyer && data[150..182] == r.provider && data[182..214] == r.requestHash
            && data[214..246] == r.resultHash && data[246..278] == r.artifactHash && data[278..310] == r.softwareHash
    ensures var data := Encode(r).value;
            && FromLe(data[310..318]) == r.jobNonce
            && FromLe(data[318..326]) == (if r.createdAt >= 0 then r.createdAt else r.createdAt + 0x1_0000_0000_0000_0000)
            && FromLe(data[326..334]) == (if r.expiresAt >= 0 then r.expiresAt else r.expiresAt + 0x1_0000_0000_0000_0000)
  {
    forall k | 0 <= k < 14 ensures |Concat(Fields(r))| == ENCODED_LEN && Field(Concat(Fields(r)), k) == Fields(r)[k] {
      EncodedFields(r, k);
    }
    VersionIsOne();
    SignedBytes(r.createdAt);
    SignedBytes(r.expiresAt);
    LaidOut(Concat(Fields(r)), Fields(r));
  }

  /** Which bytes are refused, and why: the first of these that applies. */
  lemma DecodeRefusals(data: seq<byte>)
    ensures |data| != 334 ==> Decode(data) == Err(InvalidLength)
    ensures |data| == 334 && data[0..20] != DOMAIN ==> Decode(data) == Err(InvalidDomain)
    ensures |data| == 334 && data[0..20] == DOMAIN && data[20..22] != [1, 0] ==> Decode(data) == Err(UnsupportedVersion)
    ensures |data| == 334 && data[0..20] == DOMAIN && data[20..22] == [1, 0]
            && ToSigned(FromLe(data[318..326]), 8) > ToSigned(FromLe(data[326..334]), 8) ==>
              Decode(data) == Err(InvalidTimestamps)
    ensures |data| == 334 && data[0..20] == DOMAIN && data[20..22] == [1, 0]
            && ToSigned(FromLe(data[318..326]), 8) <= ToSigned(FromLe(data[326..334]), 8) ==>
              Decode(data).Ok?
  {
    if |data| == 334 {
      LeIsCanonical(data[20..22]);
      VersionIsOne();
      assert Field(data, 0) == data[0..20] && Field(data, 1) == data[20..22];
      assert Field(data, 12) == data[318..326] && Field(data, 13) == data[326..334];
    }
  }

  lemma LaidOut(data: seq<byte>, parts: seq<seq<byte>>)
    requires |data| == ENCODED_LEN && |parts| == 14 && forall k :: 0 <= k < 14 ==> Field(data, k) == parts[k]
    ensures data[0..20] == parts[0] && data[20..22] == parts[1] && data[22..54] == parts[2] && data[54..86] == parts[3]
    ensures data[86..118] == parts[4] && data[118..150] == parts[5] && data[150..182] == parts[6]
    ensures data[182..214] == parts[7] && data[214..246] == parts[8] && data[246..278] == parts[9]
    ensures data[278..310] == parts[10] && data[310..318] == parts[11] && data[318..326] == parts[12]
    ensures data[326..334] == parts[13]
  {
    assert Field(data, 0) == parts[0] && Field(data, 1) == parts[1] && Field(data, 2) == parts[2] && Field(data, 3) == parts[3];
    assert Field(data, 4) == parts[4] && Field(data, 5) == parts[5] && Field(data, 6) == parts[6] && Field(data, 7) == parts[7];
    assert Field(data, 8) == parts[8] && Field(data, 9) == parts[9] && Field(data, 10) == parts[10];
    assert Field(data, 11) == parts[11] && Field(data, 12) == parts[12] && Field(data, 13) == parts[13];
  }
}
