/** Scalar payloads that the plist value trees carry and that are only ever copied. */
module Primitives {

  /** Swift's `Int` on the 64-bit platforms the tool runs on. */
  type Int64 = x: int | -0x8000_0000_0000_0000 <= x < 0x8000_0000_0000_0000

  /** A Swift `Double`, kept as its IEEE 754 bit pattern: the mappers copy it and never compute with it. */
  datatype Double = Double(bits: bv64)

  type Byte = bv8

  /** Foundation's `Data`: the opaque bytes a serialiser produces. */
  type Data = seq<Byte>
}
