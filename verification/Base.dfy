/** Vocabulary shared by every module. */
module Base {

  datatype Option<+T> = None | Some(value: T)

  /** An instant, in nanoseconds since the Unix epoch. */
  type Time = int

  const SECOND: int := 1_000_000_000
  const MINUTE: int := 60 * SECOND
  const HOUR: int := 60 * MINUTE
  const DAY: int := 24 * HOUR

  /** The largest value of a signed 64-bit integer. */
  const MAX_INT64: int := 0x7FFF_FFFF_FFFF_FFFF

  lemma Associate<T>(a: seq<T>, b: seq<T>, c: seq<T>)
    ensures (a + b) + c == a + (b + c)
  {
  }
}
