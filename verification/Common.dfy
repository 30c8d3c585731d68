/** Types shared by every module of the model. */
module Common {
  datatype Option<+T> = None | Some(value: T) {
    function GetOr(default: T): T {
      match this
      case Some(v) => v
      case None => default
    }
  }

  /** One octet of a blob or of UTF-8 text. */
  type Byte = b: int | 0 <= b < 256
  type Bytes = seq<Byte>

  /** Go's `uint64` range. */
  const TWO_64: int := 0x1_0000_0000_0000_0000
  const TWO_63: int := 0x8000_0000_0000_0000
  type UInt64 = n: int | 0 <= n < TWO_64

  /** Go's conversion to a 64-bit signed `int`: the two's-complement reading of n modulo 2^64. */
  function ToInt64(n: int): (r: int)
    ensures -TWO_63 <= r < TWO_63
    ensures (r - n) % TWO_64 == 0
  {
    (n + TWO_63) % TWO_64 - TWO_63
  }

  function Max(a: int, b: int): (m: int)
    ensures m >= a && m >= b && (m == a || m == b)
  {
    if a < b then b else a
  }

  method Pick<T>(s: set<T>) returns (x: T)
    requires s != {}
    ensures x in s
  {
    x :| x in s;
  }
}
