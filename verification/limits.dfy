/** The limits the child sets on itself before `execvp`, held against the
    tests the sampling loop applies when it polls instead (memtime.c:211-218
    against memtime.c:273-280). The loop compares kilobytes and
    milliseconds; the kernel compares bytes and seconds. */
module Limits {
  import opened Optional
  import opened Word
  import opened Arith
  import opened Machdep
  import opened Options
  import opened Monitor
  import DragonFly
  import NetBSD
  import SunOS5

  /** The byte count `main` hands to `set_mem_limit` is the kilobyte limit
      times 1024, when the product fits an `unsigned long`. */
  lemma {:induction false} MemLimitBytes(cfg: Config, caps: Caps)
    requires caps.rlimitVsize && cfg.maxKbytes > 0
    requires cfg.maxKbytes * 1024 <= ULONG_MAX
    ensures SpawnFrom(cfg, caps, 0).memLimitBytes == Some(cfg.maxKbytes * 1024)
  {
  }

  /** DragonFly's native limit admits an address space of `kb` kilobytes
      exactly when the polled test `max_vsize > maxkbytes` would let it
      be. */
  lemma {:induction false} DragonFlyMemLimitAgrees(cfg: Config, caps: Caps, kb: nat)
    requires caps.rlimitVsize && cfg.maxKbytes > 0
    requires cfg.maxKbytes * 1024 <= ULONG_MAX
    ensures var s := SpawnFrom(cfg, caps, 0);
      && s.memLimitBytes.Some?
      && (Admits(DragonFly.MemLimit(s.memLimitBytes.value), kb * 1024) <==> !(kb > cfg.maxKbytes))
  {
    MemLimitBytes(cfg, caps);
    ScaleOrder(kb, cfg.maxKbytes, 1024);
  }

  /** The same agreement for NetBSD 5 and later, the only releases that
      have `set_mem_limit`. */
  lemma {:induction false} NetBSDMemLimitAgrees(cfg: Config, caps: Caps, kb: nat)
    requires caps.rlimitVsize && cfg.maxKbytes > 0
    requires cfg.maxKbytes * 1024 <= ULONG_MAX
    ensures var s := SpawnFrom(cfg, caps, 0);
      && s.memLimitBytes.Some?
      && NetBSD.MemLimit(s.memLimitBytes.value, true).Some?
      && (Admits(NetBSD.MemLimit(s.memLimitBytes.value, true).value, kb * 1024) <==> !(kb > cfg.maxKbytes))
  {
    MemLimitBytes(cfg, caps);
    ScaleOrder(kb, cfg.maxKbytes, 1024);
  }

  /** The same agreement for Solaris, whose limit is on virtual memory
      (`RLIMIT_VMEM`). */
  lemma {:induction false} SunOS5MemLimitAgrees(cfg: Config, caps: Caps, kb: nat)
    requires caps.rlimitVsize && cfg.maxKbytes > 0
    requires cfg.maxKbytes * 1024 <= ULONG_MAX
    ensures var s := SpawnFrom(cfg, caps, 0);
      && s.memLimitBytes.Some?
      && (Admits(SunOS5.MemLimit(s.memLimitBytes.value), kb * 1024) <==> !(kb > cfg.maxKbytes))
  {
    MemLimitBytes(cfg, caps);
    ScaleOrder(kb, cfg.maxKbytes, 1024);
  }

  /** Darwin and Linux are stricter than polling: the hard limit is the
      polled limit, but the soft limit already refuses sizes above 95% of
      it. Everything the soft limit admits the polled test would have
      let be, and everything within 95% of the limit is admitted. */
  lemma {:induction false} NinetyFivePercentStricter(cfg: Config, caps: Caps, kb: nat)
    requires caps.rlimitVsize && cfg.maxKbytes > 0
    requires cfg.maxKbytes * 1024 < LONG_MODULUS_HALF
    ensures var s := SpawnFrom(cfg, caps, 0);
      && s.memLimitBytes.Some?
      && var rl := NinetyFivePercent(s.memLimitBytes.value);
      && Consistent(rl)
      && (kb * 1024 <= rl.hard <==> !(kb > cfg.maxKbytes))
      && (Admits(rl, kb * 1024) ==> !(kb > cfg.maxKbytes))
      && (kb * 1024 * 100 <= 95 * (cfg.maxKbytes * 1024) ==> Admits(rl, kb * 1024))
  {
    MemLimitBytes(cfg, caps);
    ScaleOrder(kb, cfg.maxKbytes, 1024);
    var rl := NinetyFivePercent(cfg.maxKbytes * 1024);
    if kb * 1024 > rl.soft {
      MulMonotone(rl.soft + 1, kb * 1024, 100);
    }
  }

  /** `-m -1`, which the option check accepts as 2^64 - 1 kilobytes, gives
      Darwin and Linux a soft limit above the hard one: `setrlimit` refuses
      it, `main` ignores the refusal, and the command runs with no native
      memory limit at all. */
  lemma {:induction false} NegativeMemoryLimitRefused(cfg: Config, caps: Caps)
    requires caps.rlimitVsize && cfg.maxKbytes == ULONG_MAX
    ensures var s := SpawnFrom(cfg, caps, 0);
      && s.memLimitBytes == Some(ULONG_MODULUS - 1024)
      && !Consistent(NinetyFivePercent(s.memLimitBytes.value))
  {
    assert ULONG_MAX * 1024 == 1023 * ULONG_MODULUS + (ULONG_MODULUS - 1024);
    NegativeLimitInverted();
  }

  /** The native CPU limit admits `secs` seconds of CPU exactly when the
      polled test `utime_ms > maxmillis` would let that many be used. */
  lemma {:induction false} CpuLimitAgrees(cfg: Config, caps: Caps, secs: nat)
    requires caps.rlimitCpu && cfg.maxSeconds > 0
    requires cfg.maxMillis == ULong(1000 * cfg.maxSeconds)
    requires 1000 * cfg.maxSeconds <= ULONG_MAX
    ensures var s := SpawnFrom(cfg, caps, 0);
      && s.cpuLimitSeconds.Some?
      && (Admits(CpuLimit(s.cpuLimitSeconds.value), secs) <==> !(secs * 1000 > cfg.maxMillis))
  {
    ScaleOrder(secs, cfg.maxSeconds, 1000);
  }
}
