/**
 * The primitive type catalog of src/types/mod.rs: a closed set of kinds and
 * pure table functions over them. Widths and bounds are mathematical
 * integers; the Rust result types (`u8`, `i64`) are not modelled.
 */
module Types {
  import opened Wrappers

  datatype PrimitiveType =
    | Bit
    | UInt2 | UInt4 | UInt8 | UInt16 | UInt32 | UInt64
    | Int8 | Int16 | Int32 | Int64
  {
    predicate IsSigned() {
      Int8? || Int16? || Int32? || Int64?
    }
  }

  /** 2 to the power `n`. */
  function Pow2(n: nat): (r: nat)
    ensures r >= 1
  {
    if n == 0 then 1 else 2 * Pow2(n - 1)
  }

  /** The name a kind is written with (the one `from_str` reads back). */
  function CanonicalName(t: PrimitiveType): string {
    match t
    case Bit => "bit"
    case UInt2 => "uint2"
    case UInt4 => "uint4"
    case UInt8 => "uint8"
    case UInt16 => "uint16"
    case UInt32 => "uint32"
    case UInt64 => "uint64"
    case Int8 => "int8"
    case Int16 => "int16"
    case Int32 => "int32"
    case Int64 => "int64"
  }

  /** Every name `from_str` accepts. */
  const KnownNames: set<string> :=
    {"bit", "bool", "uint2", "uint4", "uint8", "uint16", "uint32", "uint64",
     "int8", "int16", "int32", "int64"}

  /** `from_str`: look a type name up in the catalog. */
  function FromStr(s: string): (r: Option<PrimitiveType>)
    ensures r.Some? <==> s in KnownNames
    ensures r.Some? ==> s == CanonicalName(r.value) || (s == "bool" && r.value == Bit)
  {
    match s
    case "bit" => Some(Bit)
    case "bool" => Some(Bit)
    case "uint2" => Some(UInt2)
    case "uint4" => Some(UInt4)
    case "uint8" => Some(UInt8)
    case "uint16" => Some(UInt16)
    case "uint32" => Some(UInt32)
    case "uint64" => Some(UInt64)
    case "int8" => Some(Int8)
    case "int16" => Some(Int16)
    case "int32" => Some(Int32)
    case "int64" => Some(Int64)
    case _ => None
  }

  /** Every kind is found again under its own name. */
  lemma FromStrCanonical(t: PrimitiveType)
    ensures FromStr(CanonicalName(t)) == Some(t)
  {
  }

  /** `size_in_bits`. */
  function SizeInBits(t: PrimitiveType): (r: nat)
    ensures r in {1, 2, 4, 8, 16, 32, 64}
  {
    match t
    case Bit => 1
    case UInt2 => 2
    case UInt4 => 4
    case UInt8 | Int8 => 8
    case UInt16 | Int16 => 16
    case UInt32 | Int32 => 32
    case UInt64 | Int64 => 64
  }

  /** `size_in_bytes`: whole bytes needed for the bits. */
  function SizeInBytes(t: PrimitiveType): (r: nat)
    ensures r >= 1
    ensures (r - 1) * 8 < SizeInBits(t) <= r * 8
  {
    (SizeInBits(t) + 7) / 8
  }

  /** `memory_alignment`: the alignment is the bit width itself. */
  function MemoryAlignment(t: PrimitiveType): (r: nat)
    ensures r == SizeInBits(t)
    ensures r >= SizeInBytes(t)
  {
    SizeInBits(t)
  }

  /** `value_range`: the inclusive bounds of the kind, as written in the table. */
  function ValueRange(t: PrimitiveType): (r: (int, int))
    ensures r.0 <= 0 < r.1
    ensures r.0 < 0 <==> t.IsSigned()
  {
    match t
    case Bit => (0, 1)
    case UInt2 => (0, 3)
    case UInt4 => (0, 15)
    case UInt8 => (0, 255)
    case UInt16 => (0, 65_535)
    case UInt32 => (0, 4_294_967_295)
    case UInt64 => (0, 18_446_744_073_709_551_615)
    case Int8 => (-128, 127)
    case Int16 => (-32_768, 32_767)
    case Int32 => (-2_147_483_648, 2_147_483_647)
    case Int64 => (-9_223_372_036_854_775_808, 9_223_372_036_854_775_807)
  }

  /** `should_use_bitset`: only single bits are packed. */
  function ShouldUseBitset(t: PrimitiveType): (r: bool)
    ensures r <==> SizeInBits(t) == 1
  {
    t.Bit?
  }

  /** Signed and unsigned kinds of one width have the same size. */
  lemma SignedUnsignedSameWidth()
    ensures SizeInBits(Int8) == SizeInBits(UInt8)
    ensures SizeInBits(Int16) == SizeInBits(UInt16)
    ensures SizeInBits(Int32) == SizeInBits(UInt32)
    ensures SizeInBits(Int64) == SizeInBits(UInt64)
  {
  }

  lemma {:induction false} Pow2Add(a: nat, b: nat)
    ensures Pow2(a + b) == Pow2(a) * Pow2(b)
    decreases a
  {
    if a > 0 {
      Pow2Add(a - 1, b);
    }
  }

  /** The powers of two the narrow widths need. */
  lemma Pow2Small()
    ensures Pow2(0) == 1 && Pow2(1) == 2 && Pow2(2) == 4 && Pow2(4) == 16
    ensures Pow2(7) == 128 && Pow2(8) == 256
    ensures Pow2(15) == 32_768 && Pow2(16) == 65_536
  {
    assert Pow2(4) == 16;
    Pow2Add(3, 4);
    Pow2Add(4, 4);
    Pow2Add(7, 8);
    Pow2Add(8, 8);
  }

  /** The powers of two the 32- and 64-bit widths need. */
  lemma Pow2Large()
    ensures Pow2(31) == 2_147_483_648 && Pow2(32) == 4_294_967_296
    ensures Pow2(63) == 9_223_372_036_854_775_808 && Pow2(64) == 18_446_744_073_709_551_616
  {
    Pow2Small();
    Pow2Add(15, 16);
    Pow2Add(16, 16);
    Pow2Add(31, 32);
    Pow2Add(32, 32);
  }

  /**
   * The table agrees with the bit widths: an unsigned N-bit kind ranges over
   * [0, 2^N - 1], a signed one over [-2^(N-1), 2^(N-1) - 1].
   */
  lemma ValueRangeMatchesWidth(t: PrimitiveType)
    ensures !t.IsSigned() ==> ValueRange(t) == (0, Pow2(SizeInBits(t)) - 1)
    ensures t.IsSigned() ==>
      ValueRange(t) == (-(Pow2(SizeInBits(t) - 1) as int), Pow2(SizeInBits(t) - 1) - 1)
    ensures ValueRange(t).0 <= ValueRange(t).1
    ensures ValueRange(t).1 - ValueRange(t).0 + 1 == Pow2(SizeInBits(t))
  {
    Pow2Small();
    Pow2Large();
    match t
    case Bit =>
    case UInt2 =>
    case UInt4 =>
    case UInt8 =>
    case UInt16 =>
    case UInt32 =>
    case UInt64 =>
    case Int8 =>
    case Int16 =>
    case Int32 =>
    case Int64 =>
  }
}
