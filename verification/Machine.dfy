/** Machine integers, bytes and result types shared by every program of the system. */
module Machine {
  import Arithmetic

  const TWO64: nat := 0x1_0000_0000_0000_0000
  const TWO127: nat := 0x8000_0000_0000_0000_0000_0000_0000_0000
  const TWO128: nat := 0x1_0000_0000_0000_0000_0000_0000_0000_0000

  type Byte = b: nat | b < 256
  type U32 = n: nat | n < 0x1_0000_0000
  type U64 = n: nat | n < 0x1_0000_0000_0000_0000
  type U128 = n: nat | n < 0x1_0000_0000_0000_0000_0000_0000_0000_0000
  type I128 = n: int |
    -0x8000_0000_0000_0000_0000_0000_0000_0000 <= n < 0x8000_0000_0000_0000_0000_0000_0000_0000

  datatype Option<+T> = None | Some(value: T)

  datatype Result<+T, +E> = Ok(value: T) | Err(error: E) {
    predicate IsFailure() {
      Err?
    }

    function PropagateFailure<U>(): Result<U, E>
      requires Err?
    {
      Err(error)
    }

    function Extract(): T
      requires Ok?
    {
      value
    }
  }

  /** The error codes every adapter shares, in declaration order of the interface crate. */
  datatype AdapterError =
    | Unauthorized
    | ZeroAmount
    | InsufficientShares
    | MathOverflow
    | AdapterDataTooLarge
    | CpiFailed
    | AccountMissing // Anchor's own errors for an account that does not exist, or exists already
    | AccountExists
    | UnknownInstruction // no handler for the discriminator, or arguments that do not deserialize

  /** Little-endian bytes of `n` in `width` bytes; higher bytes are dropped. */
  function LeBytes(n: nat, width: nat): (bytes: seq<Byte>)
    ensures |bytes| == width
  {
    if width == 0 then [] else [n % 256] + LeBytes(n / 256, width - 1)
  }

  /** The number that a run of little-endian bytes stands for. */
  function LeValue(bytes: seq<Byte>): nat {
    if bytes == [] then 0 else bytes[0] + 256 * LeValue(bytes[1..])
  }

  function Pow256(k: nat): (p: nat)
    ensures p > 0
  {
    if k == 0 then 1 else 256 * Pow256(k - 1)
  }

  lemma Pow256Values()
    ensures Pow256(4) == 0x1_0000_0000
    ensures Pow256(8) == TWO64
    ensures Pow256(16) == TWO128
  {
    assert Pow256(4) == 0x1_0000_0000;
    assert Pow256(8) == TWO64;
    assert Pow256(12) == 0x1_0000_0000 * TWO64;
    assert Pow256(16) == TWO128;
  }

  /** Decoding undoes encoding, up to the dropped high bytes. */
  lemma {:induction false} LeValueOfLeBytes(n: nat, width: nat)
    ensures LeValue(LeBytes(n, width)) == n % Pow256(width)
  {
    if width == 0 {
    } else {
      LeValueOfLeBytes(n / 256, width - 1);
      var p := Pow256(width - 1);
      assert LeBytes(n, width)[1..] == LeBytes(n / 256, width - 1);
      assert n % (256 * p) == n % 256 + 256 * (n / 256 % p) by { SplitModulus(n, p); }
    }
  }

  /** Encoding undoes decoding: a run of bytes is determined by its length and its number. */
  lemma {:induction false} LeBytesOfLeValue(bytes: seq<Byte>)
    ensures LeBytes(LeValue(bytes), |bytes|) == bytes
    ensures LeValue(bytes) < Pow256(|bytes|)
  {
    if bytes == [] {
    } else {
      LeBytesOfLeValue(bytes[1..]);
      var n := LeValue(bytes);
      assert n % 256 == bytes[0] && n / 256 == LeValue(bytes[1..]);
      assert bytes == [bytes[0]] + bytes[1..];
    }
  }

  lemma SplitModulus(n: nat, p: nat)
    requires p > 0
    ensures n % (256 * p) == n % 256 + 256 * (n / 256 % p)
  {
    var a, b := n / 256, n % 256;
    var c, d := a / p, a % p;
    assert n == 256 * (p * c + d) + b;
    assert n == (256 * p) * c + (256 * d + b) by {
      assert 256 * (p * c + d) == (256 * p) * c + 256 * d;
    }
    assert 256 * d + b < 256 * p;
    ModulusIs(n, 256 * p, c, 256 * d + b);
  }

  lemma ModulusIs(n: nat, m: nat, q: nat, r: nat)
    requires r < m && n == m * q + r
    ensures n % m == r && n / m == q
  {
    assert (q + 1) * m == m * q + m;
    Arithmetic.DivIs(n, m, q);
  }

  /** Byte k is the k-th digit to base 256, the lowest first. */
  lemma {:induction false} LeBytesAt(n: nat, width: nat, k: nat)
    requires k < width
    ensures LeBytes(n, width)[k] == n / Pow256(k) % 256
  {
    if k == 0 {
    } else {
      LeBytesAt(n / 256, width - 1, k - 1);
      assert LeBytes(n, width)[k] == LeBytes(n / 256, width - 1)[k - 1];
      Arithmetic.DivDiv(n, 256, Pow256(k - 1), Pow256(k));
    }
  }

  function ReadU64(data: seq<Byte>, off: nat): (r: Result<U64, AdapterError>)
    ensures r.Ok? <==> off + 8 <= |data|
  {
    if off + 8 <= |data| then
      LeBytesOfLeValue(data[off..off + 8]);
      Pow256Values();
      Ok(LeValue(data[off..off + 8]))
    else Err(MathOverflow)
  }

  function ReadU128(data: seq<Byte>, off: nat): (r: Result<U128, AdapterError>)
    ensures r.Ok? <==> off + 16 <= |data|
  {
    if off + 16 <= |data| then
      LeBytesOfLeValue(data[off..off + 16]);
      Pow256Values();
      Ok(LeValue(data[off..off + 16]))
    else Err(MathOverflow)
  }

  /** Reading a field that holds the bytes of a number gives that number. */
  lemma ReadU64Of(data: seq<Byte>, off: nat, n: U64)
    requires off + 8 <= |data| && data[off..off + 8] == LeBytes(n, 8)
    ensures ReadU64(data, off) == Ok(n)
  {
    LeValueOfLeBytes(n, 8);
    Pow256Values();
    Arithmetic.SmallModulus(n, TWO64);
  }

  lemma ReadU128Of(data: seq<Byte>, off: nat, n: U128)
    requires off + 16 <= |data| && data[off..off + 16] == LeBytes(n, 16)
    ensures ReadU128(data, off) == Ok(n)
  {
    LeValueOfLeBytes(n, 16);
    Pow256Values();
    Arithmetic.SmallModulus(n, TWO128);
  }

  /** Two's complement reading of the same sixteen bytes. */
  function ReadI128(data: seq<Byte>, off: nat): (r: Result<I128, AdapterError>)
    ensures r.Ok? <==> off + 16 <= |data|
  {
    var u :- ReadU128(data, off);
    Ok(if u < TWO127 then u else u - TWO128)
  }

  /** A signed field reads back as the number whose two's complement it holds. */
  lemma ReadI128Of(data: seq<Byte>, off: nat, n: I128)
    requires off + 16 <= |data|
    requires data[off..off + 16] == LeBytes(if n >= 0 then n else n + 0x1_0000_0000_0000_0000_0000_0000_0000_0000, 16)
    ensures ReadI128(data, off) == Ok(n)
  {
    ReadU128Of(data, off, if n >= 0 then n else n + TWO128);
  }

  // ----- u128 arithmetic as the programs use it -----

  function CheckedAddU128(a: U128, b: U128): Result<U128, AdapterError> {
    if a + b < TWO128 then Ok(a + b) else Err(MathOverflow)
  }

  function CheckedMulU128(a: U128, b: U128): Result<U128, AdapterError> {
    if a * b < TWO128 then Ok(a * b) else Err(MathOverflow)
  }

  /** `checked_div`: the only failing divisor is zero. */
  function CheckedDivU128(a: U128, b: U128): (r: Result<U128, AdapterError>)
    ensures r.Ok? ==> r.value <= a
  {
    if b == 0 then Err(MathOverflow)
    else
      Arithmetic.DivAtLeast(a, b, a / b);
      Arithmetic.MulMono(1, b, a / b);
      Ok(a / b)
  }

  /** `u64::try_from`. */
  function ToU64(a: nat): Result<U64, AdapterError> {
    if a < TWO64 then Ok(a) else Err(MathOverflow)
  }
}
