// Scalars and small helpers shared by every module of the trading core. Prices, costs and
// notionals are integers in thousandths of a dollar.

module Types {

  datatype Option<+T> = None | Some(value: T)

  // pt_side_t: sides travel as plain integers, so that values other than the two
  // named ones take the branches the code gives them.
  const BID: int := 1
  const ASK: int := 2

  // The range of the 64-bit unsigned counters, where a subtraction may wrap.
  const TWO_64: int := 0x1_0000_0000_0000_0000

  function Min(a: int, b: int): (m: int)
    ensures m <= a && m <= b && (m == a || m == b)
  {
    if a < b then a else b
  }

  function Max(a: int, b: int): (m: int)
    ensures a <= m && b <= m && (m == a || m == b)
  {
    if a < b then b else a
  }

  // Conversion of a latency in milliseconds to whole nanoseconds. A negative one has no
  // value on unsigned clocks; it counts as none.
  function WholeNs(ms: real): nat {
    if ms < 0.0 then 0 else (ms * 1000000.0).Floor
  }

  // Scaled thousandths as dollars.
  function Dollars(scaled: int): real {
    scaled as real / 1000.0
  }
}
