/** The Solaris backend, sunos5.c: samples come from the `psinfo` and
    `status` files of the child's `/proc` directory. `get_time`, which here
    returns `unsigned int`, is `Machdep.GetTime32`, and `set_cpu_limit` is
    `Machdep.CpuLimit`. */
module SunOS5 {
  import opened Optional
  import opened Word
  import opened Machdep

  /** The part of `psinfo_t` the sampler reads; both sizes are already in
      kilobytes. */
  datatype PsInfo = PsInfo(rssize: nat, size: nat)

  /** The part of `pstatus_t` the sampler reads. */
  datatype PStatus = PStatus(utime: TimeSpec, stime: TimeSpec)

  /** The two descriptors `init_machdep` leaves in `psinfo_fd` and
      `pstatus_fd`: open, or -1. */
  datatype Procfs = Procfs(psinfoOpen: bool, statusOpen: bool)

  /** `init_machdep`: both files are opened, the second even when the first
      failed, and the result says whether both opened. */
  function InitMachdep(psinfoOpened: bool, statusOpened: bool): (r: (Procfs, bool))
    ensures r.0 == Procfs(psinfoOpened, statusOpened)
    ensures r.1 <==> r.0.psinfoOpen && r.0.statusOpen
  {
    (Procfs(psinfoOpened, statusOpened), psinfoOpened && statusOpened)
  }

  /** `pread` on one of the descriptors: -1 (`None`) when the descriptor is
      -1, otherwise whatever the read of the file gave. */
  function Pread<T>(open: bool, data: Option<T>): (r: Option<T>)
    ensures r.Some? <==> open && data.Some?
    ensures r.Some? ==> r == data
  {
    if open then data else None
  }

  /** What `init_machdep` reports decides whether sampling can work: after
      a success a sample succeeds exactly when both files read; after a
      failure no sample ever succeeds, whatever the files hold. */
  lemma {:induction false} InitMachdepDecidesSampling(psinfoOpened: bool, statusOpened: bool, info: Info,
                                                      psinfo: Option<PsInfo>, status: Option<PStatus>)
    requires status.Some? ==> NormalTimeSpec(status.value.utime) && NormalTimeSpec(status.value.stime)
    ensures var (fds, ok) := InitMachdep(psinfoOpened, statusOpened);
      var r := GetSample(info, Pread(fds.psinfoOpen, psinfo), Pread(fds.statusOpen, status));
      && (ok ==> (r.ok <==> psinfo.Some? && status.Some?))
      && (!ok ==> !r.ok && r.info == info)
  {
  }

  /** `get_sample`. `psinfo` and `status` are the two `pread` results,
      `None` when the read failed. Both reads happen before anything is
      written, so either failure leaves the record untouched. */
  function GetSample(info: Info, psinfo: Option<PsInfo>, status: Option<PStatus>): (r: SampleResult)
    requires status.Some? ==> NormalTimeSpec(status.value.utime) && NormalTimeSpec(status.value.stime)
    ensures r.ok <==> psinfo.Some? && status.Some?
    ensures !r.ok ==> r.info == info
    ensures r.ok ==>
      && r.info.rssKb == psinfo.value.rssize
      && r.info.vsizeKb == psinfo.value.size
      && r.info.utimeMs / 1000 == status.value.utime.sec
      && r.info.stimeMs / 1000 == status.value.stime.sec
      && r.info.utimeMs % 1000 == status.value.utime.nsec / 1_000_000
      && r.info.stimeMs % 1000 == status.value.stime.nsec / 1_000_000
  {
    match psinfo
    case None => SampleResult(false, info)
    case Some(p) =>
      match status
      case None => SampleResult(false, info)
      case Some(s) =>
        MillisOfSpecSplits(s.utime);
        MillisOfSpecSplits(s.stime);
        SampleResult(true, Info(MillisOfSpec(s.utime), MillisOfSpec(s.stime), p.size, p.rssize))
  }

  /** `set_mem_limit`: the virtual memory (`RLIMIT_VMEM`), soft and hard
      limit both `maxbytes`. */
  function MemLimit(maxbytes: nat): (rl: Rlimit)
    ensures Consistent(rl)
    ensures rl == Rlimit(VirtualMemory, maxbytes, maxbytes)
  {
    Exact(VirtualMemory, maxbytes)
  }
}
