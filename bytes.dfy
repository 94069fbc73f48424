/** Python's `int.to_bytes(length, 'big')` and `int.from_bytes(bs, 'big')`,
    which SpooledBuffer uses for the not-before header of a spool record. */
module Bytes {
  import opened Wrappers
  import opened Positional

  type byte = x: nat | x < 256

  /** 2^64: the first value that no longer fits in an 8-byte header. */
  const U64_LIMIT: nat := 0x1_0000_0000_0000_0000

  lemma EightBytesLimit()
    ensures Pow(256, 8) == U64_LIMIT
  {}

  /** `n.to_bytes(length, 'big')`: raises OverflowError for a negative value
      and for one that needs more than `length` bytes. */
  function ToBytes(n: int, length: nat): (r: Result<seq<byte>>)
    ensures r.Ok? <==> 0 <= n < Pow(256, length)
    ensures r.Ok? ==> |r.value| == length
  {
    if 0 <= n < Pow(256, length) then Ok(ToDigits(n, 256, length)) else Err(OverflowError)
  }

  /** `int.from_bytes(bs, 'big')`: any number of bytes, none giving 0. */
  function FromBytes(bs: seq<byte>): (r: nat)
    ensures r < Pow(256, |bs|)
  {
    FromDigitsBound(bs, 256);
    FromDigits(bs, 256)
  }

  /** Reading back an encoded value gives that value. */
  lemma {:induction false} FromToBytes(n: int, length: nat)
    requires 0 <= n < Pow(256, length)
    ensures ToBytes(n, length).Ok? && FromBytes(ToBytes(n, length).value) == n
  {
    FromToDigits(n, 256, length);
  }

  /** Re-encoding the value of `length` bytes gives those bytes. */
  lemma {:induction false} ToFromBytes(bs: seq<byte>)
    ensures ToBytes(FromBytes(bs), |bs|) == Ok(bs)
  {
    ToFromDigits(bs, 256);
  }
}
