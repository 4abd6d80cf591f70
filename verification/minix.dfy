/** The Minix 3 backend, minix.c: samples come from the kernel's and the
    process manager's process tables, and a substitute `wait4` makes up the
    child's usage from `times`. Minix runs on 32-bit i386, where `long` and
    `unsigned long` are 32 bits wide, so the products below wrap modulo
    2^32; `get_time` is `Machdep.GetTime32`. */
module Minix {
  import opened Optional
  import opened Word
  import opened Arith
  import opened Machdep

  /** Clock ticks to a `timeval`, as the substitute `wait4` does it: whole
      seconds by division, and the leftover ticks scaled by the integer
      `1000000 / hz`. */
  function TicksToTimeVal(ticks: nat, hz: nat): (tv: TimeVal)
    requires hz > 0
    ensures NormalTimeVal(tv)
    ensures tv.sec * hz <= ticks < (tv.sec + 1) * hz
    ensures tv.usec == (ticks % hz) * (1_000_000 / hz)
  {
    var sec := ticks / hz;
    DivMulBelow(ticks, hz);
    RemainderScaled(ticks, hz, 1_000_000);
    TimeVal(sec, (ticks - sec * hz) * (1_000_000 / hz))
  }

  /** When the tick rate divides a million the conversion loses nothing:
      the `timeval` holds exactly `ticks` ticks' worth of microseconds. */
  lemma {:induction false} TicksToTimeValExact(ticks: nat, hz: nat)
    requires hz > 0 && 1_000_000 % hz == 0
    ensures TicksToTimeVal(ticks, hz).sec * 1_000_000 + TicksToTimeVal(ticks, hz).usec == ticks * (1_000_000 / hz)
  {
    var q := 1_000_000 / hz;
    var sec := ticks / hz;
    var left := ticks - sec * hz;
    assert hz * q == 1_000_000;
    assert sec * 1_000_000 == sec * hz * q;
    assert left * q == ticks * q - sec * hz * q;
  }

  /** What the substitute `wait4` leaves: `waitpid`'s result, and the usage
      record if it was written. */
  datatype WaitOutcome = WaitOutcome(ret: int, usage: Option<Rusage>)

  /** The substitute `wait4`. `waitpidRet` is what `waitpid` returned and
      `cutime`/`cstime` the children's times `times` reported. The usage is
      written only when the caller asked for it and `waitpid` returned the
      requested pid. */
  function Wait4(pid: int, waitpidRet: int, wantUsage: bool, cutime: nat, cstime: nat, hz: nat): (w: WaitOutcome)
    requires hz > 0
    ensures w.ret == waitpidRet
    ensures w.usage.Some? <==> wantUsage && waitpidRet == pid
    ensures w.usage.Some? ==>
      && NormalTimeVal(w.usage.value.utime) && NormalTimeVal(w.usage.value.stime)
      && w.usage.value.utime.sec * hz <= cutime < (w.usage.value.utime.sec + 1) * hz
      && w.usage.value.stime.sec * hz <= cstime < (w.usage.value.stime.sec + 1) * hz
  {
    if wantUsage && waitpidRet == pid then
      WaitOutcome(waitpidRet, Some(Rusage(TicksToTimeVal(cutime, hz), TicksToTimeVal(cstime, hz))))
    else
      WaitOutcome(waitpidRet, None)
  }

  /** `times` cannot tell one child from another: the usage reported for a
      child is the total of every child reaped so far, whichever pid was
      waited for. */
  lemma {:induction false} UsageIsCumulative(p: int, q: int, cutime: nat, cstime: nat, hz: nat)
    requires hz > 0
    ensures Wait4(p, p, true, cutime, cstime, hz).usage == Wait4(q, q, true, cutime, cstime, hz).usage
    ensures Wait4(p, p, true, cutime, cstime, hz).usage.Some?
  {
  }

  /** The table sizes and the memory click size of the kernel build. */
  datatype MinixConf = MinixConf(hz: nat, nrTasks: nat, nrProcs: nat, clickShift: nat)

  /** The part of a kernel process-table slot the sampler reads. */
  datatype KProc = KProc(empty: bool, userTicks: nat, sysTicks: nat, textClicks: nat, dataClicks: nat)

  /** The part of a process-manager slot the sampler reads. */
  datatype MProc = MProc(pid: int)

  /** The kernel table has `NR_TASKS + NR_PROCS` slots, the process
      manager's `NR_PROCS`. */
  predicate TablesFit(conf: MinixConf, kproc: seq<KProc>, mproc: seq<MProc>) {
    |kproc| == conf.nrTasks + conf.nrProcs && |mproc| == conf.nrProcs
  }

  /** Slot `i` of the process manager describes the child, and the kernel
      slot `i + NR_TASKS` is in use. */
  predicate IsChildSlot(conf: MinixConf, kproc: seq<KProc>, mproc: seq<MProc>, pid: int, i: int)
    requires TablesFit(conf, kproc, mproc)
  {
    0 <= i < conf.nrProcs && !kproc[i + conf.nrTasks].empty && mproc[i].pid == pid
  }

  predicate FirstChildSlot(conf: MinixConf, kproc: seq<KProc>, mproc: seq<MProc>, pid: int, i: int)
    requires TablesFit(conf, kproc, mproc)
  {
    IsChildSlot(conf, kproc, mproc, pid, i) &&
    forall j :: 0 <= j < i ==> !IsChildSlot(conf, kproc, mproc, pid, j)
  }

  /** The search loop of `get_sample`: the first matching slot, or
      `NR_PROCS` when there is none. */
  method FindSlot(conf: MinixConf, kproc: seq<KProc>, mproc: seq<MProc>, pid: int) returns (i: nat)
    requires TablesFit(conf, kproc, mproc)
    ensures i <= conf.nrProcs
    ensures i < conf.nrProcs ==> FirstChildSlot(conf, kproc, mproc, pid, i)
    ensures i == conf.nrProcs ==> forall j :: 0 <= j < conf.nrProcs ==> !IsChildSlot(conf, kproc, mproc, pid, j)
  {
    i := 0;
    while i < conf.nrProcs
      invariant i <= conf.nrProcs
      invariant forall j :: 0 <= j < i ==> !IsChildSlot(conf, kproc, mproc, pid, j)
    {
      if !kproc[i + conf.nrTasks].empty && mproc[i].pid == pid {
        break;
      }
      i := i + 1;
    }
  }

  /** The unit conversions of `get_sample`: CPU ticks times the integer
      `1000 / hz`, and the text and data segment clicks shifted to bytes
      and divided down to kilobytes; the resident size is reported as the
      virtual size. */
  function Convert(conf: MinixConf, p: KProc): (i: Info)
    requires conf.hz > 0
    ensures i.rssKb == i.vsizeKb
    ensures i.utimeMs == TickMillis(p.userTicks, conf.hz, UINT_MODULUS)
    ensures i.stimeMs == TickMillis(p.sysTicks, conf.hz, UINT_MODULUS)
    ensures i.vsizeKb * 1024 <= UInt((p.textClicks + p.dataClicks) * Pow2(conf.clickShift)) < (i.vsizeKb + 1) * 1024
  {
    var vsize := UInt((p.textClicks + p.dataClicks) * Pow2(conf.clickShift)) / 1024;
    Info(TickMillis(p.userTicks, conf.hz, UINT_MODULUS), TickMillis(p.sysTicks, conf.hz, UINT_MODULUS), vsize, vsize)
  }

  /** With clicks of a kilobyte or more, and a segment size that fits the
      32-bit `unsigned long`, the virtual size is exact: the clicks times
      the click size in kilobytes. */
  lemma {:induction false} ConvertVsizeExact(conf: MinixConf, p: KProc)
    requires conf.hz > 0
    requires conf.clickShift >= 10
    requires (p.textClicks + p.dataClicks) * Pow2(conf.clickShift) < UINT_MODULUS
    ensures Convert(conf, p).vsizeKb == (p.textClicks + p.dataClicks) * Pow2(conf.clickShift - 10)
  {
    var clicks := p.textClicks + p.dataClicks;
    Pow2Kilo(conf.clickShift);
    DivExact(clicks, Pow2(conf.clickShift - 10), 1024);
  }

  /** `get_sample`. `kproc` and `mproc` are the two `getsysinfo` results,
      `None` when the call failed; either failure, like a child missing from
      the tables, returns 0 with the record untouched. */
  method GetSample(conf: MinixConf, pid: int, info: Info, kproc: Option<seq<KProc>>, mproc: Option<seq<MProc>>)
    returns (r: SampleResult)
    requires conf.hz > 0
    requires kproc.Some? && mproc.Some? ==> TablesFit(conf, kproc.value, mproc.value)
    ensures kproc.None? || mproc.None? ==> r == SampleResult(false, info)
    ensures !r.ok ==> r.info == info
    ensures kproc.Some? && mproc.Some? ==>
      (r.ok <==> exists j :: IsChildSlot(conf, kproc.value, mproc.value, pid, j))
    ensures r.ok ==>
      && kproc.Some? && mproc.Some?
      && exists j :: FirstChildSlot(conf, kproc.value, mproc.value, pid, j) && r.info == Convert(conf, kproc.value[j + conf.nrTasks])
  {
    if kproc.None? || mproc.None? {
      return SampleResult(false, info);
    }
    var i := FindSlot(conf, kproc.value, mproc.value, pid);
    if i == conf.nrProcs {
      return SampleResult(false, info);
    }
    r := SampleResult(true, Convert(conf, kproc.value[i + conf.nrTasks]));
  }

  /** `sampling_fork` passes `fork`'s result through unchanged. */
  function SamplingFork(f: Fork): (r: int)
    ensures f.ForkFailed? <==> r == -1
    ensures f.InChild? <==> r == 0
    ensures f.InParent? <==> r > 0
    ensures f.InParent? ==> r == f.child
  {
    match f
    case ForkFailed => -1
    case InChild => 0
    case InParent(child) => child
  }
}
