/** The protocol constants shared by every subsystem, and the timestamp conversion. */
module Helper {
  import opened Wire

  /** The one-byte discriminators that open every datagram. */
  const REQUEST_LIST_MESSAGE: Int8 := 1
  const ELEVATOR_STATE_MESSAGE: Int8 := 2
  const FLOOR_REQUEST_MESSAGE: Int8 := 3
  const EMPTY_REPLY_MESSAGE: Int8 := 4
  const REGISTER_MESSAGE: Int8 := 5
  const TERMINATE: Int8 := 6

  /** The fixed ports of the scheduler and of the floor subsystem. */
  const SCHEDULER_PORT: Int32 := 50
  const FLOOR_PORT: Int32 := 60

  /** The six discriminators, in the order the constants are declared. */
  function Headers(): (r: seq<Int8>)
    ensures |r| == 6
    ensures forall i, j :: 0 <= i < j < |r| ==> r[i] != r[j]
    ensures forall i :: 0 <= i < |r| ==> r[i] == i + 1
  {
    [REQUEST_LIST_MESSAGE, ELEVATOR_STATE_MESSAGE, FLOOR_REQUEST_MESSAGE,
     EMPTY_REPLY_MESSAGE, REGISTER_MESSAGE, TERMINATE]
  }

  const HOURS_TO_MILLISECONDS: int := 3600000
  const MINUTES_TO_MILLISECONDS: int := 60000
  const SECONDS_TO_MILLISECONDS: int := 1000

  /**
   * The milliseconds of "h:m:s" once its three fields are parsed: `hours` and
   * `minutes` as integers and `secondsMillis`, the seconds field already
   * scaled by 1000 and truncated, as an integer.  Every product and the sum
   * are Java `int` arithmetic.
   */
  function TimeStringToMilliseconds(hours: Int32, minutes: Int32, secondsMillis: Int32): (r: Int32)
    ensures r == Wrap32(hours * HOURS_TO_MILLISECONDS + minutes * MINUTES_TO_MILLISECONDS + secondsMillis)
  {
    var h := Wrap32(hours * HOURS_TO_MILLISECONDS);
    var m := Wrap32(minutes * MINUTES_TO_MILLISECONDS);
    WrapSum(hours * HOURS_TO_MILLISECONDS, minutes * MINUTES_TO_MILLISECONDS, secondsMillis);
    Wrap32(Wrap32(h + m) + secondsMillis)
  }

  /** Wrapping each partial result of a sum wraps the whole sum. */
  lemma WrapSum(a: int, b: int, c: int)
    ensures Wrap32(Wrap32(Wrap32(a) + Wrap32(b)) + c) == Wrap32(a + b + c)
  {
    var x := Wrap32(Wrap32(a) + Wrap32(b)) + c;
    assert (x - (a + b + c)) % 0x1_0000_0000 == 0;
    WrapCongruent(x, a + b + c);
  }

  /** Two integers congruent modulo 2^32 wrap to the same Java `int`. */
  lemma WrapCongruent(x: int, y: int)
    requires (x - y) % 0x1_0000_0000 == 0
    ensures Wrap32(x) == Wrap32(y)
  {
    var k := (x - y) / 0x1_0000_0000;
    assert x == y + k * 0x1_0000_0000;
    assert x % 0x1_0000_0000 == y % 0x1_0000_0000;
  }

  /** For a time of day the conversion is exact and stays below one day of milliseconds. */
  lemma TimeOfDayExact(hours: Int32, minutes: Int32, secondsMillis: Int32)
    requires 0 <= hours < 24 && 0 <= minutes < 60 && 0 <= secondsMillis < 60000
    ensures TimeStringToMilliseconds(hours, minutes, secondsMillis)
            == hours * 3600000 + minutes * 60000 + secondsMillis
    ensures 0 <= TimeStringToMilliseconds(hours, minutes, secondsMillis) < 86400000
  {
  }

  /** "14:05:15.0" of the floor test, with its seconds already scaled to 15000 milliseconds. */
  lemma TimestampExample()
    ensures TimeStringToMilliseconds(14, 5, 15000) == 50715000
  {
  }
}
