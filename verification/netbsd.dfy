/** The NetBSD backend, netbsd.c: samples come from `kvm_getproc2`. The
    time fields of `struct kinfo_proc2` are 32-bit unsigned, so the
    millisecond products are `unsigned int` arithmetic. `set_cpu_limit` is
    `Machdep.CpuLimit`. */
module NetBSD {
  import opened Optional
  import opened Word
  import opened Machdep

  /** The part of `struct kinfo_proc2` the sampler reads; sizes in pages. */
  datatype Kinfo2 = Kinfo2(
    uutimeSec: nat, uutimeUsec: nat, ustimeSec: nat, ustimeUsec: nat,
    msize: nat, tsize: nat, dsize: nat, ssize: nat, rssize: nat)

  /** `sampling_fork` as written: a failed fork returns 0, the value the
      child gets, instead of -1. The parent gets the child's pid only when
      `kvm_openfiles` succeeded. */
  function SamplingForkAsWritten(f: Fork, kvmOpened: bool): (r: int)
    ensures !f.InParent? ==> r == 0
    ensures f.InParent? ==> (r == f.child <==> kvmOpened) && (r == -1 <==> !kvmOpened)
  {
    match f
    case ForkFailed => 0
    case InChild => 0
    case InParent(child) => if kvmOpened then child else -1
  }

  /** A failed fork is indistinguishable from being the child: `main`
      would carry on as the child and run the command in place of the
      monitor. */
  lemma {:induction false} AsWrittenForkFailureLooksLikeChild(kvmOpened: bool)
    ensures SamplingForkAsWritten(ForkFailed, kvmOpened) == SamplingForkAsWritten(InChild, kvmOpened) == 0
  {
  }

  /** `sampling_fork` as evidently intended, and as the Linux and DragonFly
      backends do it: a failed fork returns -1, and every other outcome is
      the one the written code already gives. */
  function SamplingFork(f: Fork, kvmOpened: bool): (r: int)
    ensures r == -1 <==> f.ForkFailed? || SamplingForkAsWritten(f, kvmOpened) == -1
    ensures r == 0 <==> f.InChild?
    ensures r != SamplingForkAsWritten(f, kvmOpened) <==> f.ForkFailed?
  {
    ForkThenOpen(f, kvmOpened)
  }

  /** Milliseconds of a 32-bit seconds and microseconds pair, in
      `unsigned int` arithmetic. */
  function Millis32(sec: nat, usec: nat): (ms: nat)
    ensures ms < UINT_MODULUS
    ensures (Millis(TimeVal(sec, usec)) - ms) % UINT_MODULUS == 0
  {
    UInt(Millis(TimeVal(sec, usec)))
  }

  /** Below about 49 days of CPU time nothing wraps, and the seconds come
      back out of the milliseconds. */
  lemma {:induction false} Millis32Exact(sec: nat, usec: nat)
    requires usec < 1_000_000
    requires sec < 4_294_967
    ensures Millis32(sec, usec) == Millis(TimeVal(sec, usec))
    ensures Millis32(sec, usec) / 1000 == sec
  {
    MillisSplits(TimeVal(sec, usec));
  }

  /** `get_sample`. `records` is what `kvm_getproc2` returned, `None` for
      the null pointer; anything but exactly one record returns 0 with the
      record untouched. `v5` says whether the system is NetBSD 5 or later,
      which has a single mapped-size figure. */
  function GetSample(info: Info, records: Option<seq<Kinfo2>>, pageSize: nat, v5: bool): (r: SampleResult)
    ensures r.ok <==> records.Some? && |records.value| == 1
    ensures !r.ok ==> r.info == info
    ensures r.ok ==>
      var k := records.value[0];
      && r.info.utimeMs == Millis32(k.uutimeSec, k.uutimeUsec)
      && r.info.stimeMs == Millis32(k.ustimeSec, k.ustimeUsec)
      && r.info.rssKb * 1024 <= k.rssize * pageSize < (r.info.rssKb + 1) * 1024
      && (v5 ==> r.info.vsizeKb * 1024 <= k.msize * pageSize < (r.info.vsizeKb + 1) * 1024)
      && (!v5 ==> r.info.vsizeKb * 1024 <= (k.tsize + k.dsize + k.ssize) * pageSize < (r.info.vsizeKb + 1) * 1024)
  {
    match records
    case None => SampleResult(false, info)
    case Some(rs) =>
      if |rs| != 1 then
        SampleResult(false, info)
      else
        var k := rs[0];
        var pages := if v5 then k.msize else k.tsize + k.dsize + k.ssize;
        SampleResult(true, Info(
          Millis32(k.uutimeSec, k.uutimeUsec),
          Millis32(k.ustimeSec, k.ustimeUsec),
          pages * pageSize / 1024,
          k.rssize * pageSize / 1024))
  }

  /** `set_mem_limit`, compiled only on NetBSD 5 and later: the address
      space, soft and hard limit both `maxbytes`. `None` where the function
      does not exist. */
  function MemLimit(maxbytes: nat, v5: bool): (rl: Option<Rlimit>)
    ensures rl.Some? <==> v5
    ensures rl.Some? ==> Consistent(rl.value) && rl.value == Rlimit(AddressSpace, maxbytes, maxbytes)
  {
    if v5 then Some(Exact(AddressSpace, maxbytes)) else None
  }
}
