/** A TIME value as the database client hands it over, and its conversion to
    microseconds. */
module Clock {
  import opened Bytes

  const MICROS := 1_000_000

  /** The fields are unsigned 32-bit numbers in the client library. */
  datatype MySqlTime = MySqlTime(neg: bool, hour: nat, minute: nat, second: nat, micro: nat)

  predicate Representable(t: MySqlTime) {
    t.hour < TWO32 && t.minute < TWO32 && t.second < TWO32 && t.micro < TWO32
  }

  /** The seconds are added up in unsigned 32-bit arithmetic. */
  function WrappedSeconds(t: MySqlTime): (s: nat)
    ensures s < TWO32
  {
    (t.second + t.minute * 60 + t.hour * 3600) % TWO32
  }

  function ToTimeCAS(t: MySqlTime): int {
    var timeVal := t.micro + MICROS * WrappedSeconds(t);
    if t.neg then -timeVal else timeVal
  }
}
