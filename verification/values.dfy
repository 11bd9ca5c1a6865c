/** Scalar values the two services pass around. */
module Values {

  /** One byte of a Go string. */
  newtype byte = x: int | 0 <= x < 256

  /** A Go `string` as the bytes it holds: `len` counts these. */
  type Bytes = seq<byte>

  /** A `time.Time` as a count of ticks after Go's zero instant; 0 is the value
      `IsZero` reports. */
  type Time = nat

  /** A `float64` price. The core copies it and never computes with it. */
  type Price = real
}
