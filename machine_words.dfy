/** Fixed-width unsigned integers of the controller's firmware. Every value the
    firmware keeps lives in one of these, so a narrowing cast or a subtraction
    that could wrap shows up as a proof obligation. */
module MachineWords {
  newtype uint8 = x: int | 0 <= x < 0x100
  newtype uint16 = x: int | 0 <= x < 0x1_0000
  newtype uint32 = x: int | 0 <= x < 0x1_0000_0000

  /** Every byte is a 7-bit ASCII code (and so one UTF-8 character each). */
  predicate IsAscii(bytes: seq<uint8>) {
    forall k :: 0 <= k < |bytes| ==> bytes[k] < 128
  }

  /** The text an ASCII byte string decodes to under UTF-8. */
  function Text(bytes: seq<uint8>): (s: string)
    requires IsAscii(bytes)
    ensures |s| == |bytes|
  {
    seq(|bytes|, k requires 0 <= k < |bytes| => bytes[k] as int as char)
  }

  /** The ASCII encoding of a string literal. */
  function Bytes(s: string): (bytes: seq<uint8>)
    requires forall k :: 0 <= k < |s| ==> s[k] as int < 128
    ensures |bytes| == |s|
  {
    seq(|s|, k requires 0 <= k < |s| => s[k] as int as uint8)
  }
}
