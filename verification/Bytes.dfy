/** What frame headers and masking share. */
module Bytes {

  type Byte = bv8

  /** A masking key is four bytes in memory order; its value as an integer never matters. */
  type Key = k: seq<Byte> | |k| == 4 witness [0, 0, 0, 0]

  /** How the machine lays out a value of several bytes in memory. */
  datatype ByteOrder = LittleEndian | BigEndian
}
