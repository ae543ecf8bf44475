/**
 * The host's named binary tags (NBT), as far as the item-stack helpers read and
 * write them: bytes, ints, strings, lists and compounds. A compound tag is
 * modelled by value as the map of its entries.
 */
module Nbt {
  /** Java `byte` and `int`. */
  type Int8 = x: int | -0x80 <= x < 0x80
  type Int32 = x: int | -0x8000_0000 <= x < 0x8000_0000

  datatype Value =
    | Byte(b: Int8)
    | Int(n: Int32)
    | Str(s: string)
    | List(items: seq<Value>)
    | Compound(entries: map<string, Value>)

  /** The entries of a compound tag. */
  type Tag = map<string, Value>

  // Type ids of the host's tag classes, as `CompoundTag.contains` takes them.
  const BYTE := 1
  const INT := 3
  const STRING := 8
  const LIST := 9
  const COMPOUND := 10
  /** Asks `contains` for any numeric tag. */
  const NUMBER := 99

  function TypeId(v: Value): int {
    match v
    case Byte(_) => BYTE
    case Int(_) => INT
    case Str(_) => STRING
    case List(_) => LIST
    case Compound(_) => COMPOUND
  }

  /** `CompoundTag.contains(key, type)`: the entry exists and has that type, or is numeric when asked for NUMBER. */
  predicate Contains(t: Tag, key: string, typeId: int)
    ensures Contains(t, key, typeId) ==> key in t
  {
    key in t && (TypeId(t[key]) == typeId || (typeId == NUMBER && (t[key].Byte? || t[key].Int?)))
  }

  /** Asking for NUMBER accepts a byte or an int entry; asking for BYTE accepts only a byte entry. */
  lemma ContainsNumberOrByte(t: Tag, key: string)
    ensures Contains(t, key, NUMBER) <==> key in t && (t[key].Byte? || t[key].Int?)
    ensures Contains(t, key, BYTE) <==> key in t && t[key].Byte?
  {
  }

  /** `CompoundTag.getInt`: a numeric entry as an int, otherwise 0. */
  function GetInt(t: Tag, key: string): (n: Int32)
    ensures !Contains(t, key, NUMBER) ==> n == 0
  {
    if key in t && t[key].Int? then t[key].n
    else if key in t && t[key].Byte? then t[key].b
    else 0
  }

  /**
   * `CompoundTag.getBoolean` on a byte entry: the byte is not 0. The helpers
   * only call it after `contains(key, BYTE)`, so its narrowing of int
   * entries is not modelled, and any other entry reads as false.
   */
  predicate GetBoolean(t: Tag, key: string)
    ensures GetBoolean(t, key) ==> Contains(t, key, BYTE)
  {
    key in t && t[key].Byte? && t[key].b != 0
  }

  /** `CompoundTag.getCompound`: the compound entry, or a new empty one. */
  function GetCompound(t: Tag, key: string): (c: Tag)
    ensures Contains(t, key, COMPOUND) ==> Compound(c) == t[key]
    ensures !Contains(t, key, COMPOUND) ==> c == map[]
  {
    if key in t && t[key].Compound? then t[key].entries else map[]
  }

  /** The 32 bits of a Java int, two's complement. */
  function ToBits(n: Int32): bv32 {
    (if n < 0 then n + 0x1_0000_0000 else n) as bv32
  }

  /** The Java int whose two's-complement bits are `b`. */
  function FromBits(b: bv32): Int32 {
    var u := b as int;
    if u < 0x8000_0000 then u else u - 0x1_0000_0000
  }

  /** Converting a Java int's bits back to an int is lossless. */
  lemma BitsRoundTrip(b: bv32)
    ensures ToBits(FromBits(b)) == b
  {
  }
}
