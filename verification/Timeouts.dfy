/** `Timeout` and `Deadline` (src/util.rs). Durations and instants are nanoseconds. */
module Timeouts {
  const NANOS_PER_MILLI: nat := 1_000_000
  const I32_RANGE: nat := 0x1_0000_0000
  const I32_LIMIT: nat := 0x8000_0000

  /** Rust's `as i32` on a non-negative integer: keep the low 32 bits, read them as signed. */
  function TruncateToI32(n: nat): int {
    var low := n % I32_RANGE;
    if low < I32_LIMIT then low else low - I32_RANGE
  }

  datatype Timeout = After(nanos: nat) | Never {

    /** The derived order: every `After` is below `Never`. */
    predicate AtMost(other: Timeout) {
      other.Never? || (After? && nanos <= other.nanos)
    }

    /** `std::cmp::min`: the first argument wins a tie. */
    function Min(other: Timeout): Timeout {
      if AtMost(other) then this else other
    }

    /** What is handed to librdkafka, which reads -1 as "block for ever". */
    function AsMillis(): int {
      match this
      case After(d) => TruncateToI32(d / NANOS_PER_MILLI)
      case Never => -1
    }

    function SaturatingSub(rhs: nat): Timeout {
      match this
      case After(d) => After(if d <= rhs then 0 else d - rhs)
      case Never => Never
    }

    predicate IsZero() {
      After? && nanos == 0
    }

    /** Short enough to survive the conversion to 32-bit milliseconds. */
    predicate FitsI32() {
      After? && nanos / NANOS_PER_MILLI < I32_LIMIT
    }
  }

  datatype Deadline = At(instant: nat) | NoDeadline {

    static function From(t: Timeout, now: nat): Deadline {
      match t
      case After(d) => At(now + d)
      case Never => NoDeadline
    }

    /** Instant subtraction saturates at zero; without a deadline there is always time left. */
    function Remaining(now: nat): Timeout {
      match this
      case At(i) => After(if i <= now then 0 else i - now)
      case NoDeadline => Never
    }

    predicate Elapsed(now: nat) {
      Remaining(now).IsZero()
    }
  }

  /** The conversion is exact, and rounds down, precisely on durations that fit; otherwise the value
      passed on differs from the one asked for. */
  lemma AsMillisExactness(t: Timeout)
    requires t.After?
    ensures t.AsMillis() == t.nanos / NANOS_PER_MILLI <==> t.FitsI32()
    ensures t.FitsI32() ==> 0 <= t.AsMillis() * NANOS_PER_MILLI <= t.nanos
  {
    var ms := t.nanos / NANOS_PER_MILLI;
    assert ms % I32_RANGE < I32_RANGE;
    if !t.FitsI32() && ms < I32_RANGE {
      assert ms % I32_RANGE == ms;
    }
  }

  /** A shorter timeout fits when a longer one does. */
  lemma FitsDownwards(a: Timeout, b: Timeout)
    requires a.AtMost(b) && b.FitsI32()
    ensures a.FitsI32()
  {
    if b.nanos / NANOS_PER_MILLI < a.nanos / NANOS_PER_MILLI {
      assert false;
    }
  }
}
