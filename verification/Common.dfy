/** Shared vocabulary: optional values, calendar time and ordering keys. */
module Common {

  datatype Option<+T> = None | Some(value: T)

  /** A calendar instant in microseconds since the smallest representable datetime.
      The code falls back on that smallest datetime when a date is missing. */
  type Time = nat

  const HOUR: Time := 3_600_000_000
  const DAY: Time := 24 * HOUR

  function OrMinimum(t: Option<Time>): Time {
    if t.Some? then t.value else 0
  }

  /** A sort key of up to three instants, compared lexicographically. */
  datatype Key = Key(first: Time, second: Time, third: Time)

  predicate Less(x: Key, y: Key) {
    x.first < y.first
    || (x.first == y.first && x.second < y.second)
    || (x.first == y.first && x.second == y.second && x.third < y.third)
  }

  function Max(x: int, y: int): int {
    if x < y then y else x
  }

  function One(b: bool): nat {
    if b then 1 else 0
  }

  /** How many of the marks are set. */
  function Count(marks: seq<bool>): nat
    decreases |marks|
  {
    if marks == [] then 0 else One(marks[0]) + Count(marks[1..])
  }

  ghost predicate Distinct<T>(xs: seq<T>) {
    forall i, j | 0 <= i < j < |xs| :: xs[i] != xs[j]
  }
}
