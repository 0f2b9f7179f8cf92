/** The Ed25519 verification instruction: written by the host, read back by the program. */
module Ed25519Layout {
  import opened Options
  import opened Bytes
  import Receipts

  const OFFSETS_START: nat := 2
  const OFFSETS_SIZE: nat := 14
  const PUBKEY_SIZE: nat := 32
  const SIGNATURE_SIZE: nat := 64
  const CURRENT_INSTRUCTION: nat := 0xFFFF

  datatype Problem = InvalidReceiptLength | InvalidInstruction | InvalidSignature | InvalidInput
  datatype Result<T> = Ok(value: T) | Err(problem: Problem)

  // ---- The parser ----

  /** Bytes inside the data, or nothing; no read is ever out of bounds. */
  function SliceChecked(data: seq<byte>, offset: nat, len: nat): (r: Option<seq<byte>>)
    ensures r.Some? <==> offset + len <= |data|
    ensures r.Some? ==> |r.value| == len
  {
    if offset + len <= |data| then Some(data[offset..offset + len]) else None
  }

  function ReadU16(data: seq<byte>, offset: nat): (v: nat)
    requires offset + 2 <= |data|
    ensures v <= 0xFFFF
  {
    assert Bound(2) == 0x1_0000;
    FromLe(data[offset..offset + 2])
  }

  predicate IsSelf(index: nat, self: nat) {
    index == CURRENT_INSTRUCTION || index == self
  }

  /** Total on arbitrary bytes. */
  function Parse(data: seq<byte>, message: seq<byte>, self: nat): Result<seq<byte>> {
    if |message| != Receipts.ENCODED_LEN then Err(InvalidReceiptLength)
    else if |data| < OFFSETS_START || data[0] != 1 || |data| < OFFSETS_START + OFFSETS_SIZE then Err(InvalidInstruction)
    else
      var signatureOffset, signatureIndex := ReadU16(data, 2), ReadU16(data, 4);
      var keyOffset, keyIndex := ReadU16(data, 6), ReadU16(data, 8);
      var messageOffset, messageSize, messageIndex := ReadU16(data, 10), ReadU16(data, 12), ReadU16(data, 14);
      if !IsSelf(signatureIndex, self) || !IsSelf(keyIndex, self) || !IsSelf(messageIndex, self) then Err(InvalidInstruction)
      else
        var key := SliceChecked(data, keyOffset, PUBKEY_SIZE);
        if key.None? || SliceChecked(data, signatureOffset, SIGNATURE_SIZE).None? then Err(InvalidInstruction)
        else if messageSize != Receipts.ENCODED_LEN then Err(InvalidInstruction)
        else
          var signed := SliceChecked(data, messageOffset, messageSize);
          if signed.None? then Err(InvalidInstruction)
          else if signed.value != message then Err(InvalidSignature)
          else Ok(key.value)
  }

  // ---- The builder ----

  function U16(v: nat): (b: seq<byte>)
    requires v <= 0xFFFF
    ensures |b| == 2 && FromLe(b) == v
  {
    assert Bound(2) == 0x1_0000;
    LeRoundTrip(v, 2);
    ToLe(v, 2)
  }

  /** Where the parts of a built instruction start. */
  const STARTS: seq<nat> := [0, 2, 4, 6, 8, 10, 12, 14, 16, 48, 112, 446]

  function Parts(message: seq<byte>, key: seq<byte>, signature: seq<byte>): (parts: seq<seq<byte>>)
    requires |message| == Receipts.ENCODED_LEN && |key| == PUBKEY_SIZE && |signature| == SIGNATURE_SIZE
    ensures |parts| == 11 && forall k :: 0 <= k < 11 ==> |parts[k]| == STARTS[k + 1] - STARTS[k]
  {
    [[1, 0], U16(48), U16(0xFFFF), U16(16), U16(0xFFFF), U16(112), U16(334), U16(0xFFFF), key, signature, message]
  }

  /** Appends the parts of the instruction one after the other. */
  method BuildVerifyInstruction(message: seq<byte>, key: seq<byte>, signature: seq<byte>) returns (r: Result<seq<byte>>)
    requires |key| == PUBKEY_SIZE && |signature| == SIGNATURE_SIZE
    ensures r.Ok? <==> |message| == Receipts.ENCODED_LEN && exists i :: 0 <= i < |key| && key[i] != 0
    ensures r.Err? ==> r.problem == InvalidInput
    ensures r.Ok? ==> r.value == Concat(Parts(message, key, signature))
  {
    if |message| != Receipts.ENCODED_LEN {
      return Err(InvalidInput);
    }
    if forall i :: 0 <= i < |key| ==> key[i] == 0 {
      return Err(InvalidInput);
    }
    var keyOffset := OFFSETS_START + OFFSETS_SIZE;
    var signatureOffset := keyOffset + 32;
    var messageOffset := signatureOffset + 64;
    var data: seq<byte> := [];
    ghost var parts := [];
    data, parts := Extend(data, [1, 0], parts);
    data, parts := Extend(data, U16(signatureOffset), parts);
    data, parts := Extend(data, U16(0xFFFF), parts);
    data, parts := Extend(data, U16(keyOffset), parts);
    data, parts := Extend(data, U16(0xFFFF), parts);
    data, parts := Extend(data, U16(messageOffset), parts);
    data, parts := Extend(data, U16(|message|), parts);
    data, parts := Extend(data, U16(0xFFFF), parts);
    data, parts := Extend(data, key, parts);
    data, parts := Extend(data, signature, parts);
    data, parts := Extend(data, message, parts);
    assert parts == Parts(message, key, signature);
    r := Ok(data);
  }

  method Extend(data: seq<byte>, more: seq<byte>, ghost done: seq<seq<byte>>) returns (out: seq<byte>, ghost parts: seq<seq<byte>>)
    requires data == Concat(done)
    ensures parts == done + [more] && out == Concat(parts)
  {
    parts := done + [more];
    assert parts[..|parts| - 1] == done;
    out := data + more;
  }

  // ---- Host and chain agree ----

  lemma {:induction false} PartStarts(parts: seq<seq<byte>>, k: nat)
    requires |parts| == 11 && forall i :: 0 <= i < 11 ==> |parts[i]| == STARTS[i + 1] - STARTS[i]
    requires k <= 11
    ensures Start(parts, k) == STARTS[k]
    decreases k
  {
    if k == 0 {
    } else {
      PartStarts(parts, k - 1);
    }
  }

  lemma PartOf(parts: seq<seq<byte>>, k: nat)
    requires |parts| == 11 && forall i :: 0 <= i < 11 ==> |parts[i]| == STARTS[i + 1] - STARTS[i]
    requires k < 11
    ensures |Concat(parts)| == 446 && Concat(parts)[STARTS[k]..STARTS[k + 1]] == parts[k]
  {
    LengthIsEnd(parts);
    PartStarts(parts, 11);
    PartStarts(parts, k);
    PartStarts(parts, k + 1);
    PartAt(parts, k);
  }

  /** The numbers the parser reads in a built instruction. */
  lemma BuiltHeader(message: seq<byte>, key: seq<byte>, signature: seq<byte>)
    requires |message| == Receipts.ENCODED_LEN && |key| == PUBKEY_SIZE && |signature| == SIGNATURE_SIZE
    ensures var data := Concat(Parts(message, key, signature));
            && |data| == 446 && data[0] == 1
            && ReadU16(data, 2) == 48 && ReadU16(data, 4) == 0xFFFF && ReadU16(data, 6) == 16 && ReadU16(data, 8) == 0xFFFF
            && ReadU16(data, 10) == 112 && ReadU16(data, 12) == 334 && ReadU16(data, 14) == 0xFFFF
  {
    var parts := Parts(message, key, signature);
    PartOf(parts, 0);
    PartOf(parts, 1);
    PartOf(parts, 2);
    PartOf(parts, 3);
    PartOf(parts, 4);
    PartOf(parts, 5);
    PartOf(parts, 6);
    PartOf(parts, 7);
    assert Concat(parts)[0] == Concat(parts)[0..2][0];
  }

  /** Every built instruction parses to its own key, for every receipt, signature and instruction index. */
  lemma BuiltParses(message: seq<byte>, key: seq<byte>, signature: seq<byte>, self: nat)
    requires |message| == Receipts.ENCODED_LEN && |key| == PUBKEY_SIZE && |signature| == SIGNATURE_SIZE
    ensures Parse(Concat(Parts(message, key, signature)), message, self) == Ok(key)
  {
    var parts := Parts(message, key, signature);
    BuiltHeader(message, key, signature);
    PartOf(parts, 8);
    PartOf(parts, 9);
    PartOf(parts, 10);
  }

  // ---- What the precompile has verified ----

  /** All instructions of a transaction by index. */
  type Transaction = nat -> Option<seq<byte>>

  /** One signature check of the precompile. */
  datatype Check = Check(key: seq<byte>, signature: seq<byte>, message: seq<byte>)

  /** Bytes of the instruction an index names; the largest 16-bit number names the precompile's own instruction. */
  function Fetch(tx: Transaction, self: nat, index: nat, offset: nat, len: nat): Option<seq<byte>> {
    var data := tx(if index == CURRENT_INSTRUCTION then self else index);
    if data.None? then None else SliceChecked(data.value, offset, len)
  }

  /** The k-th check the precompile performs for the instruction at `self`. */
  function CheckAt(tx: Transaction, self: nat, k: nat): Option<Check> {
    if tx(self).None? || |tx(self).value| < OFFSETS_START + OFFSETS_SIZE * (k + 1) then None
    else
      var data, at := tx(self).value, OFFSETS_START + OFFSETS_SIZE * k;
      var signature := Fetch(tx, self, ReadU16(data, at + 2), ReadU16(data, at), SIGNATURE_SIZE);
      var key := Fetch(tx, self, ReadU16(data, at + 6), ReadU16(data, at + 4), PUBKEY_SIZE);
      var message := Fetch(tx, self, ReadU16(data, at + 12), ReadU16(data, at + 8), ReadU16(data, at + 10));
      if signature.None? || key.None? || message.None? then None
      else Some(Check(key.value, signature.value, message.value))
  }

  /**
   * The parser accepts a key for a receipt only if the precompile performed exactly one check, of that very receipt
   * under that key, in whatever transaction the instruction stands.
   */
  lemma AcceptedIsVerified(tx: Transaction, self: nat, message: seq<byte>, key: seq<byte>)
    requires tx(self).Some? && Parse(tx(self).value, message, self) == Ok(key)
    ensures |tx(self).value| > 0 && tx(self).value[0] == 1 && CheckAt(tx, self, 0).Some?
    ensures var check := CheckAt(tx, self, 0).value; check.key == key && check.message == message
  {
  }

  /** And it accepts every such instruction that refers to nothing outside itself. */
  lemma VerifiedIsAccepted(tx: Transaction, self: nat, check: Check)
    requires tx(self).Some? && |tx(self).value| > 0 && tx(self).value[0] == 1
    requires CheckAt(tx, self, 0) == Some(check) && |check.message| == Receipts.ENCODED_LEN
    requires var data := tx(self).value;
             IsSelf(ReadU16(data, 4), self) && IsSelf(ReadU16(data, 8), self) && IsSelf(ReadU16(data, 14), self)
    ensures Parse(tx(self).value, check.message, self) == Ok(check.key)
  {
  }

  /** A receipt of the wrong length is refused as such, and a check of another message of the right length as a signature. */
  lemma WhyRefused(tx: Transaction, self: nat, check: Check, message: seq<byte>)
    requires tx(self).Some? && |tx(self).value| > 0 && tx(self).value[0] == 1 && CheckAt(tx, self, 0) == Some(check)
    requires var data := tx(self).value;
             IsSelf(ReadU16(data, 4), self) && IsSelf(ReadU16(data, 8), self) && IsSelf(ReadU16(data, 14), self)
    ensures |message| != 334 ==> Parse(tx(self).value, message, self) == Err(InvalidReceiptLength)
    ensures |message| == 334 && |check.message| == 334 && message != check.message ==>
              Parse(tx(self).value, message, self) == Err(InvalidSignature)
    ensures |message| == 334 && |check.message| != 334 ==> Parse(tx(self).value, message, self) == Err(InvalidInstruction)
  {
  }

  /** A built instruction makes the precompile check exactly this signature of this message under this key. */
  lemma BuiltIsVerified(tx: Transaction, self: nat, message: seq<byte>, key: seq<byte>, signature: seq<byte>)
    requires |message| == Receipts.ENCODED_LEN && |key| == PUBKEY_SIZE && |signature| == SIGNATURE_SIZE
    requires tx(self) == Some(Concat(Parts(message, key, signature)))
    ensures CheckAt(tx, self, 0) == Some(Check(key, signature, message)) && tx(self).value[0] == 1
  {
    var parts := Parts(message, key, signature);
    BuiltHeader(message, key, signature);
    PartOf(parts, 8);
    PartOf(parts, 9);
    PartOf(parts, 10);
  }
}
