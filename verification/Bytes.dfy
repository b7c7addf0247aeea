/** Bytes, the 32-bit fields of the wire format, and the reading of a byte stream. */
module Bytes {
  type byte = x: int | 0 <= x < 256
  type u32 = x: int | 0 <= x < 0x1_0000_0000

  type Bytes = seq<byte>

  datatype Option<+T> = None | Some(value: T) {
    function GetOr(default: T): T {
      match this
      case Some(v) => v
      case None => default
    }
  }

  /** A conversion of `size_t` to `uint32_t`. */
  function ToU32(n: nat): u32 {
    n % 0x1_0000_0000
  }

  function Min(a: int, b: int): int {
    if a <= b then a else b
  }

  function Zeros(n: nat): (z: Bytes)
    ensures |z| == n
  {
    seq(n, _ => 0)
  }

  /**
   * What a zero-initialised buffer of `n` bytes holds after it was filled from
   * `stream`, and what is left of the stream.  When the stream ends too early the
   * socket closes and the tail of the buffer keeps its zeros.
   */
  datatype Taken = Taken(data: Bytes, rest: Bytes, closed: bool)

  function Take(stream: Bytes, n: nat): (t: Taken)
    ensures |t.data| == n
    ensures |t.rest| <= |stream|
    ensures !t.closed ==> stream == t.data + t.rest
    ensures t.closed ==> t.rest == [] && |stream| < n
  {
    if n <= |stream| then Taken(stream[..n], stream[n..], false)
    else Taken(stream + Zeros(n - |stream|), [], true)
  }

  lemma TakeExactly(data: Bytes, rest: Bytes)
    ensures Take(data + rest, |data|) == Taken(data, rest, false)
  {
    assert (data + rest)[..|data|] == data;
    assert (data + rest)[|data|..] == rest;
  }

  /** Short streams are padded with zeros. */
  lemma TakePads(stream: Bytes, n: nat)
    ensures var t := Take(stream, n);
      && (t.closed <==> |stream| < n)
      && forall i | 0 <= i < n :: t.data[i] == if i < |stream| then stream[i] else 0
  {}

  /** The conversion keeps the number modulo 2^32. */
  lemma ToU32Wraps(n: nat)
    ensures exists k: nat :: n == k * 0x1_0000_0000 + ToU32(n)
  {
    assert n == (n / 0x1_0000_0000) * 0x1_0000_0000 + ToU32(n);
  }
}
