/** The interface crate: instruction encoding, the return-data codec and caller verification. */
module AdapterInterface {
  import opened Machine
  import opened Accounts

  const ADAPTER_INTERFACE_VERSION: nat := 1
  const MAX_ADAPTER_DATA_LEN: nat := 256

  const ADAPTER_INITIALIZE: seq<Byte> := [125, 160, 35, 249, 117, 179, 167, 76]
  const ADAPTER_DEPOSIT: seq<Byte> := [190, 207, 72, 186, 232, 106, 46, 72]
  const ADAPTER_WITHDRAW: seq<Byte> := [121, 55, 72, 46, 185, 100, 173, 236]
  const ADAPTER_CURRENT_VALUE: seq<Byte> := [67, 200, 59, 238, 163, 138, 170, 179]

  datatype Instruction =
    | Initialize(data: seq<Byte>)
    | Deposit(n: U64, data: seq<Byte>)
    | Withdraw(n: U64, data: seq<Byte>)
    | CurrentValue(data: seq<Byte>)

  // ----- encoding -----

  /** `as u32` keeps the low 32 bits of the length. */
  function VecBytes(data: seq<Byte>): seq<Byte> {
    LeBytes(|data|, 4) + data
  }

  function Discriminator(ix: Instruction): (disc: seq<Byte>)
    ensures |disc| == 8
  {
    match ix
    case Initialize(_) => ADAPTER_INITIALIZE
    case Deposit(_, _) => ADAPTER_DEPOSIT
    case Withdraw(_, _) => ADAPTER_WITHDRAW
    case CurrentValue(_) => ADAPTER_CURRENT_VALUE
  }

  function Arguments(ix: Instruction): seq<Byte> {
    match ix
    case Initialize(data) => VecBytes(data)
    case Deposit(n, data) => LeBytes(n, 8) + VecBytes(data)
    case Withdraw(n, data) => LeBytes(n, 8) + VecBytes(data)
    case CurrentValue(data) => VecBytes(data)
  }

  function Encoding(ix: Instruction): seq<Byte> {
    Discriminator(ix) + Arguments(ix)
  }

  /** The bytes on the wire, number by number. */
  lemma EncodingBytes(n: U64, data: seq<Byte>)
    ensures Encoding(Initialize(data)) == [125, 160, 35, 249, 117, 179, 167, 76] + LeBytes(|data|, 4) + data
    ensures Encoding(Deposit(n, data)) == [190, 207, 72, 186, 232, 106, 46, 72] + LeBytes(n, 8) + LeBytes(|data|, 4) + data
    ensures Encoding(Withdraw(n, data)) == [121, 55, 72, 46, 185, 100, 173, 236] + LeBytes(n, 8) + LeBytes(|data|, 4) + data
    ensures Encoding(CurrentValue(data)) == [67, 200, 59, 238, 163, 138, 170, 179] + LeBytes(|data|, 4) + data
  {}

  method EncodeVec(disc: seq<Byte>, data: seq<Byte>) returns (buf: seq<Byte>)
    ensures buf == disc + VecBytes(data)
  {
    buf := [];
    buf := buf + disc;
    buf := buf + LeBytes(|data|, 4);
    buf := buf + data;
  }

  method EncodeU64Vec(disc: seq<Byte>, n: U64, data: seq<Byte>) returns (buf: seq<Byte>)
    ensures buf == disc + (LeBytes(n, 8) + VecBytes(data))
  {
    buf := [];
    buf := buf + disc;
    buf := buf + LeBytes(n, 8);
    buf := buf + LeBytes(|data|, 4);
    buf := buf + data;
  }

  /** The four public encoders. */
  method Encode(ix: Instruction) returns (buf: seq<Byte>)
    ensures buf == Encoding(ix)
  {
    match ix
    case Initialize(data) => buf := EncodeVec(ADAPTER_INITIALIZE, data);
    case Deposit(n, data) => buf := EncodeU64Vec(ADAPTER_DEPOSIT, n, data);
    case Withdraw(n, data) => buf := EncodeU64Vec(ADAPTER_WITHDRAW, n, data);
    case CurrentValue(data) => buf := EncodeVec(ADAPTER_CURRENT_VALUE, data);
  }

  // ----- what the adapter's entry point makes of the bytes -----

  /** Borsh `Vec<u8>`; bytes after it are ignored. */
  function DecodeVec(bytes: seq<Byte>): Option<seq<Byte>> {
    if |bytes| < 4 then None
    else
      var n := LeValue(bytes[..4]);
      if |bytes| < 4 + n then None else Some(bytes[4..4 + n])
  }

  function DecodeU64Vec(bytes: seq<Byte>): Option<(U64, seq<Byte>)> {
    if |bytes| < 8 then None
    else
      LeBytesOfLeValue(bytes[..8]);
      Pow256Values();
      match DecodeVec(bytes[8..])
      case None => None
      case Some(data) => Some((LeValue(bytes[..8]), data))
  }

  function DecodeArguments(disc: seq<Byte>, args: seq<Byte>): Option<Instruction> {
    if disc == ADAPTER_INITIALIZE then
      match DecodeVec(args) case None => None case Some(data) => Some(Initialize(data))
    else if disc == ADAPTER_DEPOSIT then
      match DecodeU64Vec(args) case None => None case Some((n, data)) => Some(Deposit(n, data))
    else if disc == ADAPTER_WITHDRAW then
      match DecodeU64Vec(args) case None => None case Some((n, data)) => Some(Withdraw(n, data))
    else if disc == ADAPTER_CURRENT_VALUE then
      match DecodeVec(args) case None => None case Some(data) => Some(CurrentValue(data))
    else None
  }

  function Decode(bytes: seq<Byte>): Option<Instruction> {
    if |bytes| < 8 then None else DecodeArguments(bytes[..8], bytes[8..])
  }

  lemma DecodeVecOf(data: seq<Byte>, rest: seq<Byte>)
    ensures DecodeVec(VecBytes(data) + rest) == Some((data + rest)[..|data| % 0x1_0000_0000])
  {
    var bytes := VecBytes(data) + rest;
    assert bytes[..4] == LeBytes(|data|, 4);
    LeValueOfLeBytes(|data|, 4);
    Pow256Values();
    assert bytes[4..] == data + rest;
    var n := |data| % 0x1_0000_0000;
    assert n <= |data|;
    assert bytes[4..4 + n] == (data + rest)[..n];
  }

  lemma DecodeU64VecOf(n: U64, data: seq<Byte>, rest: seq<Byte>)
    ensures DecodeU64Vec(LeBytes(n, 8) + VecBytes(data) + rest)
         == Some((n, (data + rest)[..|data| % 0x1_0000_0000]))
  {
    var bytes := LeBytes(n, 8) + VecBytes(data) + rest;
    assert bytes[..8] == LeBytes(n, 8);
    assert bytes[8..] == VecBytes(data) + rest;
    LeValueOfLeBytes(n, 8);
    Pow256Values();
    Arithmetic.SmallModulus(n, TWO64);
    DecodeVecOf(data, rest);
  }

  lemma DiscriminatorsDiffer()
    ensures ADAPTER_INITIALIZE[0] == 125 && ADAPTER_DEPOSIT[0] == 190
    ensures ADAPTER_WITHDRAW[0] == 121 && ADAPTER_CURRENT_VALUE[0] == 67
  {}

  lemma DecodeArgumentsOf(ix: Instruction, rest: seq<Byte>)
    ensures DecodeArguments(Discriminator(ix), Arguments(ix) + rest)
         == Some(ix.(data := (ix.data + rest)[..|ix.data| % 0x1_0000_0000]))
  {
    DiscriminatorsDiffer();
    match ix
    case Initialize(data) => DecodeVecOf(data, rest);
    case Deposit(n, data) => DecodeU64VecOf(n, data, rest);
    case Withdraw(n, data) => DecodeU64VecOf(n, data, rest);
    case CurrentValue(data) => DecodeVecOf(data, rest);
  }

  lemma CutAtEight(head: seq<Byte>, tail: seq<Byte>, rest: seq<Byte>)
    requires |head| == 8
    ensures (head + tail + rest)[..8] == head && (head + tail + rest)[8..] == tail + rest
  {}

  /** What the adapter decodes from an encoding and anything behind it: the same instruction,
      with its data cut to the encoded length. */
  lemma DecodeEncoding(ix: Instruction, rest: seq<Byte>)
    ensures Decode(Encoding(ix) + rest) == Some(ix.(data := (ix.data + rest)[..|ix.data| % 0x1_0000_0000]))
  {
    hide DecodeArguments, Discriminator, Arguments;
    CutAtEight(Discriminator(ix), Arguments(ix), rest);
    DecodeArgumentsOf(ix, rest);
  }

  /** Decoding undoes encoding exactly when the data's length survives the cast to u32. */
  lemma RoundTripIff(ix: Instruction)
    ensures Decode(Encoding(ix)) == Some(ix) <==> |ix.data| < 0x1_0000_0000
  {
    hide Decode, Encoding;
    DecodeEncoding(ix, []);
    assert Encoding(ix) + [] == Encoding(ix);
    assert ix.data + [] == ix.data;
    if |ix.data| < 0x1_0000_0000 {
      assert ix.data[..|ix.data|] == ix.data;
    } else {
      assert |ix.data[..|ix.data| % 0x1_0000_0000]| < |ix.data|;
    }
  }

  lemma DecodesBack(ix: Instruction, rest: seq<Byte>)
    requires |ix.data| < 0x1_0000_0000
    ensures Decode(Encoding(ix) + rest) == Some(ix)
  {
    hide Decode, Encoding;
    DecodeEncoding(ix, rest);
    Arithmetic.SmallModulus(|ix.data|, 0x1_0000_0000);
    assert (ix.data + rest)[..|ix.data|] == ix.data;
  }

  /** No encoding is a prefix of another: the four images are disjoint and each encoder is injective. */
  lemma PrefixFree(a: Instruction, b: Instruction)
    requires |a.data| < 0x1_0000_0000 && |b.data| < 0x1_0000_0000
    requires Encoding(a) <= Encoding(b)
    ensures a == b
  {
    hide Decode, Encoding;
    var rest := Encoding(b)[|Encoding(a)|..];
    DecodesBack(a, rest);
    DecodesBack(b, []);
    assert Encoding(a) + rest == Encoding(b) == Encoding(b) + [];
  }

  lemma VecDecoded(bytes: seq<Byte>)
    requires DecodeVec(bytes).Some?
    ensures VecBytes(DecodeVec(bytes).value) <= bytes
  {
    var n := LeValue(bytes[..4]);
    LeBytesOfLeValue(bytes[..4]);
    assert bytes[..4 + n] == bytes[..4] + bytes[4..4 + n];
  }

  lemma U64VecDecoded(bytes: seq<Byte>)
    requires DecodeU64Vec(bytes).Some?
    ensures LeBytes(DecodeU64Vec(bytes).value.0, 8) + VecBytes(DecodeU64Vec(bytes).value.1) <= bytes
  {
    LeBytesOfLeValue(bytes[..8]);
    VecDecoded(bytes[8..]);
    assert bytes == bytes[..8] + bytes[8..];
  }

  /** Nothing but an encoding decodes: what an adapter makes of its bytes is what some caller encoded,
      with at most trailing bytes behind it. */
  lemma OnlyEncodingsDecode(bytes: seq<Byte>)
    requires Decode(bytes).Some?
    ensures Encoding(Decode(bytes).value) <= bytes
  {
    var ix := Decode(bytes).value;
    assert bytes == bytes[..8] + bytes[8..];
    if ix.Deposit? || ix.Withdraw? { U64VecDecoded(bytes[8..]); } else { VecDecoded(bytes[8..]); }
    assert bytes[..8] == Discriminator(ix);
    assert Arguments(ix) <= bytes[8..];
    hide Decode, Discriminator, Arguments;
  }

  // ----- return data -----

  function U64Return(program: Program, value: U64): ReturnData {
    ReturnData(program, LeBytes(value, 8))
  }

  function GetU64Return(slot: Option<ReturnData>, expected: Program): Option<U64> {
    if slot.None? || slot.value.program != expected || |slot.value.data| != 8 then None
    else
      LeBytesOfLeValue(slot.value.data);
      Pow256Values();
      Some(LeValue(slot.value.data))
  }

  /** A value is read back exactly when the slot holds that program's own eight bytes of it. */
  lemma ReadBackIff(slot: Option<ReturnData>, expected: Program, v: U64)
    ensures GetU64Return(slot, expected) == Some(v) <==> slot == Some(U64Return(expected, v))
  {
    LeValueOfLeBytes(v, 8);
    Pow256Values();
    Arithmetic.SmallModulus(v, TWO64);
    if slot.Some? && |slot.value.data| == 8 {
      LeBytesOfLeValue(slot.value.data);
    }
  }

  /** Eight bytes under the program's own id, holding the value. */
  lemma ReturnBytes(program: Program, value: U64)
    ensures U64Return(program, value).program == program && |U64Return(program, value).data| == 8
    ensures LeValue(U64Return(program, value).data) == value
  {
    LeValueOfLeBytes(value, 8);
    Pow256Values();
    Arithmetic.SmallModulus(value, TWO64);
  }

  // ----- caller verification -----

  /** Reads the executing top-level instruction and compares its program. */
  predicate CalledByDispatcher(tx: Transaction) {
    tx.current < |tx.programs| && tx.programs[tx.current] == Dispatcher
  }

  /** Whatever precedes and follows it, the instruction that is executing decides, and no other. */
  lemma ExecutingInstructionDecides(pre: seq<Program>, q: Program, post: seq<Program>)
    ensures CalledByDispatcher(Transaction(pre + [q] + post, |pre|)) <==> q == Dispatcher
  {
    assert (pre + [q] + post)[|pre|] == q;
  }
}
