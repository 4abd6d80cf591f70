/** The Mac OS X 10.5 backend, darwin9.c: the memory figures come from the
    child's Mach task, the CPU times from `getrusage`. The Mach port
    handshake that obtains the task is reduced to the success of each of its
    steps. `set_mem_limit` and `set_cpu_limit` are the shared
    `Machdep.NinetyFivePercent` and `Machdep.CpuLimit`. */
module Darwin9 {
  import opened Optional
  import opened Machdep

  /** The part of `struct task_basic_info` the sampler reads, in bytes. */
  datatype TaskBasicInfo = TaskBasicInfo(residentSize: nat, virtualSize: nat)

  /** `virtual_size` with the shared text and data regions taken out, in
      kilobytes. `shared` is `SHARED_TEXT_REGION_SIZE +
      SHARED_DATA_REGION_SIZE` from the system header, which is not part of
      this model. The regions are only taken out of a size strictly larger
      than they are, so the subtraction never goes below zero. */
  function CorrectedVsizeKb(virtualSize: nat, shared: nat): (kb: nat)
    ensures virtualSize > shared ==> kb * 1024 <= virtualSize - shared < (kb + 1) * 1024
    ensures virtualSize <= shared ==> kb * 1024 <= virtualSize < (kb + 1) * 1024
  {
    var bytes := if virtualSize > shared then virtualSize - shared else virtualSize;
    bytes / 1024
  }

  /** `get_sample`. The memory fields are written first, whatever happens
      next; `selfUsage` is the result of `getrusage(RUSAGE_SELF)`, `None`
      when it fails, in which case the CPU fields keep their old values and
      the sample is reported as failed. */
  function GetSample(info: Info, task: TaskBasicInfo, shared: nat, selfUsage: Option<Rusage>): (r: SampleResult)
    requires selfUsage.Some? ==> NormalTimeVal(selfUsage.value.utime) && NormalTimeVal(selfUsage.value.stime)
    ensures r.ok <==> selfUsage.Some?
    ensures r.info.rssKb * 1024 <= task.residentSize < (r.info.rssKb + 1) * 1024
    ensures r.info.vsizeKb == CorrectedVsizeKb(task.virtualSize, shared)
    ensures !r.ok ==> r.info.utimeMs == info.utimeMs && r.info.stimeMs == info.stimeMs
    ensures r.ok ==>
      && r.info.utimeMs / 1000 == selfUsage.value.utime.sec
      && r.info.stimeMs / 1000 == selfUsage.value.stime.sec
      && r.info.utimeMs % 1000 == selfUsage.value.utime.usec / 1000
      && r.info.stimeMs % 1000 == selfUsage.value.stime.usec / 1000
  {
    var withMemory := info.(rssKb := task.residentSize / 1024, vsizeKb := CorrectedVsizeKb(task.virtualSize, shared));
    match selfUsage
    case None => SampleResult(false, withMemory)
    case Some(u) =>
      MillisSplits(u.utime);
      MillisSplits(u.stime);
      SampleResult(true, withMemory.(utimeMs := Millis(u.utime), stimeMs := Millis(u.stime)))
  }

  /** `sampling_fork`. The three port set-up steps run before the fork, and
      a failure in any of them returns -1 without forking (`fork` is then
      not consulted). In the child, failing to send the task port returns
      -1; in the parent, failing to receive it returns -1. */
  function SamplingFork(portAllocated: bool, rightInserted: bool, bootstrapSet: bool, f: Fork,
                        sent: bool, received: bool): (r: int)
    ensures !(portAllocated && rightInserted && bootstrapSet) ==> r == -1
    ensures portAllocated && rightInserted && bootstrapSet ==>
      match f
      case ForkFailed => r == -1
      case InChild => (r == 0 <==> sent) && (r == -1 <==> !sent)
      case InParent(child) => (r == child <==> received) && (r == -1 <==> !received)
  {
    if !portAllocated || !rightInserted || !bootstrapSet then -1
    else
      match f
      case ForkFailed => -1
      case InChild => if sent then 0 else -1
      case InParent(child) => if received then child else -1
  }

  /** Darwin forks as the other backends do, with the received task port
      as the per-child handle, whenever the port set-up succeeded and the
      child sent its port; where the two differ, Darwin reports a failure
      the others would not. */
  lemma {:induction false} SamplingForkLikeOthers(portAllocated: bool, rightInserted: bool, bootstrapSet: bool, f: Fork,
                                                  sent: bool, received: bool)
    ensures var r := SamplingFork(portAllocated, rightInserted, bootstrapSet, f, sent, received);
      r == ForkThenOpen(f, received) <==>
        (portAllocated && rightInserted && bootstrapSet && (f.InChild? ==> sent)) || ForkThenOpen(f, received) == -1
    ensures var r := SamplingFork(portAllocated, rightInserted, bootstrapSet, f, sent, received);
      r != ForkThenOpen(f, received) ==> r == -1
  {
  }

  /** The CPU times are those of the sampling process itself, not of the
      child: however much CPU the child uses, the sample depends only on
      `selfUsage`. */
  lemma {:induction false} CpuTimesAreOwn(info: Info, t1: TaskBasicInfo, t2: TaskBasicInfo, shared: nat, u: Rusage)
    requires NormalTimeVal(u.utime) && NormalTimeVal(u.stime)
    ensures GetSample(info, t1, shared, Some(u)).info.utimeMs == GetSample(info, t2, shared, Some(u)).info.utimeMs
    ensures GetSample(info, t1, shared, Some(u)).info.stimeMs == GetSample(info, t2, shared, Some(u)).info.stimeMs
  {
  }

  /** The corrected size never exceeds the uncorrected one, and it grows
      with the mapping as long as both sizes lie on the same side of the
      shared regions. */
  lemma {:induction false} CorrectedVsizeMonotone(a: nat, b: nat, shared: nat)
    requires a <= b
    requires a > shared || b <= shared
    ensures CorrectedVsizeKb(a, shared) <= CorrectedVsizeKb(b, shared)
    ensures CorrectedVsizeKb(a, shared) <= a / 1024
  {
  }

  /** Across the threshold the correction is not monotone: a mapping just
      the size of the shared regions reports all of it, one byte more
      reports nothing. */
  lemma {:induction false} CorrectionJumpsAtThreshold(shared: nat)
    requires shared >= 1024
    ensures CorrectedVsizeKb(shared, shared) == shared / 1024 >= 1
    ensures CorrectedVsizeKb(shared + 1, shared) == 0
  {
  }
}
