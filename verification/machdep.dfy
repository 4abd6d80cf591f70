/** The contract every sampler backend implements: the sample record
    (`memtime_info_t`), the values a backend reads from the kernel, and the
    conversions the backends share. */
module Machdep {
  import opened Optional
  import opened Word
  import opened Arith

  /** `memtime_info_t`: CPU times in milliseconds, memory in kilobytes. */
  datatype Info = Info(utimeMs: nat, stimeMs: nat, vsizeKb: nat, rssKb: nat)

  /** `main` clears the record with `memset` before the first sample. */
  const ZeroInfo: Info := Info(0, 0, 0, 0)

  /** What `get_sample` leaves behind: its return value (1 is `ok`) and the
      record as it stands afterwards, possibly partly written. */
  datatype SampleResult = SampleResult(ok: bool, info: Info)

  /** `struct timeval`. */
  datatype TimeVal = TimeVal(sec: nat, usec: nat)

  /** `struct timespec`. */
  datatype TimeSpec = TimeSpec(sec: nat, nsec: nat)

  /** The two CPU times of a `struct rusage`. */
  datatype Rusage = Rusage(utime: TimeVal, stime: TimeVal)

  /** The kernel never hands out a `timeval` with a microsecond part of a
      whole second or more. */
  predicate NormalTimeVal(tv: TimeVal) {
    tv.usec < 1_000_000
  }

  predicate NormalTimeSpec(ts: TimeSpec) {
    ts.nsec < 1_000_000_000
  }

  /** `a` is no later than `b`. */
  predicate Earlier(a: TimeVal, b: TimeVal) {
    a.sec < b.sec || (a.sec == b.sec && a.usec <= b.usec)
  }

  /** `tv_sec * 1000 + tv_usec / 1000`: whole milliseconds of a `timeval`,
      the conversion every backend writes out for `get_time` and most for
      the CPU times. */
  function Millis(tv: TimeVal): nat {
    tv.sec * 1000 + tv.usec / 1000
  }

  /** The conversion loses only the sub-millisecond part: the seconds come
      back out of the quotient and the milliseconds out of the remainder. */
  lemma {:induction false} MillisSplits(tv: TimeVal)
    requires NormalTimeVal(tv)
    ensures Millis(tv) / 1000 == tv.sec
    ensures Millis(tv) % 1000 == tv.usec / 1000
  {
    var ms := tv.usec / 1000;
    assert ms < 1000;
    assert Millis(tv) == tv.sec * 1000 + ms;
  }

  /** A later `timeval` never converts to fewer milliseconds. */
  lemma {:induction false} MillisMonotone(a: TimeVal, b: TimeVal)
    requires NormalTimeVal(a) && NormalTimeVal(b)
    requires Earlier(a, b)
    ensures Millis(a) <= Millis(b)
  {
    if a.sec < b.sec {
      assert a.usec / 1000 < 1000;
      MulMonotone(a.sec + 1, b.sec, 1000);
    }
  }

  /** `1000 * tv_sec + tv_nsec / 1000000`: milliseconds of a `timespec`. */
  function MillisOfSpec(ts: TimeSpec): nat {
    1000 * ts.sec + ts.nsec / 1_000_000
  }

  lemma {:induction false} MillisOfSpecSplits(ts: TimeSpec)
    requires NormalTimeSpec(ts)
    ensures MillisOfSpec(ts) / 1000 == ts.sec
    ensures MillisOfSpec(ts) % 1000 == ts.nsec / 1_000_000
  {
    var ms := ts.nsec / 1_000_000;
    assert ms < 1000;
    assert MillisOfSpec(ts) == ts.sec * 1000 + ms;
  }

  /** `get_time`, identical in every backend: the wall clock in milliseconds,
      or 0 when `gettimeofday` fails (`now` is `None`). */
  function GetTime(now: Option<TimeVal>): (ms: nat)
    ensures now.None? ==> ms == 0
    ensures now.Some? && NormalTimeVal(now.value) ==> ms / 1000 == now.value.sec
    ensures now.Some? && NormalTimeVal(now.value) ==> ms % 1000 == now.value.usec / 1000
  {
    match now
    case None => 0
    case Some(tv) => Millis(tv)
  }

  /** `get_time` of the Minix and Solaris backends, whose result type is 32
      bits wide (`unsigned long` on i386, `unsigned int` on Solaris): the
      same clock, modulo 2^32. */
  function GetTime32(now: Option<TimeVal>): (ms: nat)
    ensures ms < UINT_MODULUS
    ensures now.None? ==> ms == 0
    ensures (GetTime(now) - ms) % UINT_MODULUS == 0
  {
    UInt(GetTime(now))
  }

  /** For the Minix and Solaris builds, whose clock is 32 bits wide: the
      truncated clock still measures intervals shorter than 2^32
      milliseconds (about 49 days), provided the difference is also taken
      modulo 2^32. */
  lemma {:induction false} ElapsedModulo(a: TimeVal, b: TimeVal)
    requires NormalTimeVal(a) && NormalTimeVal(b) && Earlier(a, b)
    requires Millis(b) - Millis(a) < UINT_MODULUS
    ensures UInt(GetTime32(Some(b)) - GetTime32(Some(a))) == Millis(b) - Millis(a)
  {
    MillisMonotone(a, b);
    var x := Millis(a);
    var y := Millis(b);
    var d := y - x;
    var xr := x % UINT_MODULUS;
    var yr := y % UINT_MODULUS;
    assert x == (x / UINT_MODULUS) * UINT_MODULUS + xr;
    assert y == (y / UINT_MODULUS) * UINT_MODULUS + yr;
    assert yr - xr == d - (y / UINT_MODULUS - x / UINT_MODULUS) * UINT_MODULUS;
    ModuloShift(yr - xr, d, y / UINT_MODULUS - x / UINT_MODULUS);
  }

  lemma {:induction false} ModuloShift(a: int, d: nat, k: int)
    requires d < UINT_MODULUS
    requires a == d - k * UINT_MODULUS
    ensures a % UINT_MODULUS == d
  {
  }

  /** `ticks * (1000 / hz)`, the tick conversion of the Linux and Minix
      backends, never overstates the time: it is at most the exact
      `ticks * 1000 / hz`, and equal to it when `hz` divides 1000. */
  lemma {:induction false} TickMillisBound(ticks: nat, hz: nat)
    requires hz > 0
    ensures ticks * (1000 / hz) <= ticks * 1000 / hz
    ensures 1000 % hz == 0 ==> ticks * (1000 / hz) == ticks * 1000 / hz
  {
    var f := 1000 / hz;
    DivMulBelow(1000, hz);
    assert f * hz <= 1000;
    assert ticks * f * hz <= ticks * 1000;
    FloorBelow(ticks * f, ticks * 1000, hz);
    if 1000 % hz == 0 {
      assert ticks * 1000 == (ticks * f) * hz;
    }
  }

  /** A CPU counter in clock ticks of `tickRate` per second, multiplied by
      the integer `1000 / tickRate` computed first, in an unsigned type of
      `modulus` values. */
  function TickMillis(ticks: nat, tickRate: nat, modulus: nat): (ms: nat)
    requires tickRate > 0 && modulus > 0
    ensures ms < modulus
    ensures tickRate > 1000 ==> ms == 0
    ensures ticks * 1000 < modulus ==> ms <= ticks * 1000 / tickRate
    ensures ticks * 1000 < modulus && 1000 % tickRate == 0 ==> ms == ticks * 1000 / tickRate
  {
    var product := ticks * (1000 / tickRate);
    TickFactor(ticks, tickRate);
    SmallRemainder(product, modulus);
    product % modulus
  }

  lemma {:induction false} TickFactor(ticks: nat, tickRate: nat)
    requires tickRate > 0
    ensures ticks * (1000 / tickRate) <= ticks * 1000
    ensures tickRate > 1000 ==> ticks * (1000 / tickRate) == 0
    ensures ticks * (1000 / tickRate) <= ticks * 1000 / tickRate
    ensures 1000 % tickRate == 0 ==> ticks * (1000 / tickRate) == ticks * 1000 / tickRate
  {
    TickMillisBound(ticks, tickRate);
    MulMonotone(1000 / tickRate, 1000, ticks);
    assert (1000 / tickRate) * ticks == ticks * (1000 / tickRate);
  }

  lemma {:induction false} SmallRemainder(x: nat, m: nat)
    requires m > 0
    ensures x < m ==> x % m == x
  {
  }

  /** A process id the kernel hands out: always positive. */
  type Pid = n: int | n > 0 witness 1

  /** The three ways `fork` returns. */
  datatype Fork = ForkFailed | InChild | InParent(child: Pid)

  /** `sampling_fork` of the Linux, DragonFly and (corrected) NetBSD
      backends: a failed fork and the child pass `fork`'s result through;
      the parent gets the child's pid only when the per-child handle it
      opens after the fork (the stat file, the kvm descriptor) opened. */
  function ForkThenOpen(f: Fork, handleOpened: bool): (r: int)
    ensures r == -1 <==> f.ForkFailed? || (f.InParent? && !handleOpened)
    ensures r == 0 <==> f.InChild?
    ensures r > 0 <==> f.InParent? && handleOpened
    ensures r > 0 ==> r == f.child
  {
    match f
    case ForkFailed => -1
    case InChild => 0
    case InParent(child) => if handleOpened then child else -1
  }

  /** The resource a limit is placed on. */
  datatype Resource = AddressSpace | VirtualMemory | CpuTime

  /** A `struct rlimit` handed to `setrlimit`, with the resource it is for. */
  datatype Rlimit = Rlimit(resource: Resource, soft: nat, hard: nat)

  /** The `setrlimit` rule every request must keep to: the soft limit may not
      exceed the hard one. */
  predicate Consistent(rl: Rlimit) {
    rl.soft <= rl.hard
  }

  /** The limit most backends request: soft and hard both at `n`. */
  function Exact(resource: Resource, n: nat): (rl: Rlimit)
    ensures Consistent(rl)
    ensures rl.resource == resource && rl.soft == n && rl.hard == n
  {
    Rlimit(resource, n, n)
  }

  /** `set_cpu_limit`, identical in the five backends that have one (Minix
      has none): soft and hard limit both `maxseconds`. */
  function CpuLimit(maxseconds: nat): (rl: Rlimit)
    ensures Consistent(rl)
    ensures rl == Rlimit(CpuTime, maxseconds, maxseconds)
  {
    Exact(CpuTime, maxseconds)
  }

  /** The kernel lets the limited resource grow to `amount` (bytes of
      address space, seconds of CPU time) without refusing it or sending
      SIGXCPU: the amount is within the soft limit. */
  predicate Admits(rl: Rlimit, amount: nat) {
    amount <= rl.soft
  }

  /** The largest `unsigned long` that stays non-negative when cast to
      `long int`, plus one. */
  const LONG_MODULUS_HALF: nat := 0x8000_0000_0000_0000

  /** `set_mem_limit` of the Darwin and Linux backends: the address space,
      hard limit at `maxbytes`, soft limit `(long int)maxbytes * 0.95`
      stored back into the unsigned `rlim_cur`. The product is taken in
      floating point; here it is its exact value truncated toward zero. Below
      2^63 that is 95% of `maxbytes`. From 2^63 on the cast makes the operand
      negative, and the negative soft limit wraps round to just under 2^64,
      above the hard limit. */
  function NinetyFivePercent(maxbytes: nat): (rl: Rlimit)
    requires maxbytes <= ULONG_MAX
    ensures rl.resource == AddressSpace && rl.hard == maxbytes && rl.soft <= ULONG_MAX
    ensures maxbytes < LONG_MODULUS_HALF ==> rl.soft * 100 <= 95 * maxbytes < (rl.soft + 1) * 100
    ensures maxbytes >= LONG_MODULUS_HALF ==> (rl.soft + 95 * (ULONG_MODULUS - maxbytes) / 100) % ULONG_MODULUS == 0
    ensures Consistent(rl) <==> maxbytes < LONG_MODULUS_HALF || maxbytes == ULONG_MAX
  {
    if maxbytes < LONG_MODULUS_HALF then
      Rlimit(AddressSpace, 95 * maxbytes / 100, maxbytes)
    else
      var below := ULONG_MODULUS - maxbytes;
      Rlimit(AddressSpace, ULong(-(95 * below / 100)), maxbytes)
  }

  /** `-m -1` asks for 2^64 - 1024 bytes: the soft limit becomes
      2^64 - 972, above the hard limit, and `setrlimit` refuses the pair. */
  lemma {:induction false} NegativeLimitInverted()
    ensures NinetyFivePercent(ULONG_MODULUS - 1024).soft == ULONG_MODULUS - 972
    ensures !Consistent(NinetyFivePercent(ULONG_MODULUS - 1024))
  {
  }

}
