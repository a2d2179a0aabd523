/**
 * Shared vocabulary of the Monkey HTTP server model: an optional value (a
 * nullable C pointer), the C integer widths the modelled code relies on,
 * the scheduler modes and the process exit statuses.
 */
module Common {

  /** A value that may be absent; stands for a nullable C pointer. */
  datatype Option<+T> = None | Some(value: T) {

    /** The value, or `default` when absent (the `if (!p) x = DEFAULT` idiom). */
    function GetOr(default: T): T {
      match this
      case Some(v) => v
      case None => default
    }
  }

  const TwoTo32: int := 0x1_0000_0000
  const TwoTo64: int := 0x1_0000_0000_0000_0000

  /** C `int` (32 bits). */
  type Int32 = x: int | -0x8000_0000 <= x < 0x8000_0000

  /** C `unsigned int`. */
  type Uint32 = x: int | 0 <= x < 0x1_0000_0000

  /** C `long` on an LP64 target. */
  type Long = x: int | -0x8000_0000_0000_0000 <= x < 0x8000_0000_0000_0000

  /** C `size_t` / `unsigned long long` on an LP64 target. */
  type Uint64 = x: int | 0 <= x < 0x1_0000_0000_0000_0000

  /** Conversion of a C `int` to `unsigned int` (reduction modulo 2^32). */
  function AsUnsigned(x: Int32): (r: Uint32)
    ensures x >= 0 ==> r == x
    ensures x < 0 ==> r == x + TwoTo32
  {
    x % TwoTo32
  }

  /** How the scheduler distributes connections (MK_SCHEDULER_*). */
  datatype SchedulerMode = FairBalancing | ReusePort

  const ExitSuccess: int := 0
  const ExitFailure: int := 1
}
