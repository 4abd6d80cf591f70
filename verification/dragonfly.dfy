/** The DragonFly BSD backend, dragonfly.c: samples come from
    `kvm_getprocs`, whose CPU figures are microsecond counters.
    `sampling_fork` is `Machdep.ForkThenOpen`, the handle being the kvm
    descriptor, and `set_cpu_limit` is `Machdep.CpuLimit`. */
module DragonFly {
  import opened Optional
  import opened Machdep
  import Arith

  /** The part of `struct kinfo_proc` the sampler reads: CPU times in
      microseconds, the map size in bytes, the resident size in pages. */
  datatype Kinfo = Kinfo(uticks: nat, sticks: nat, mapSize: nat, rssize: nat)

  /** `get_sample`. `records` is what `kvm_getprocs` returned, `None` for
      the null pointer; anything but exactly one record returns 0 with the
      record untouched. */
  function GetSample(info: Info, records: Option<seq<Kinfo>>, pageSize: nat): (r: SampleResult)
    ensures r.ok <==> records.Some? && |records.value| == 1
    ensures !r.ok ==> r.info == info
    ensures r.ok ==>
      var k := records.value[0];
      && r.info.utimeMs * 1000 <= k.uticks < (r.info.utimeMs + 1) * 1000
      && r.info.stimeMs * 1000 <= k.sticks < (r.info.stimeMs + 1) * 1000
      && r.info.vsizeKb * 1024 <= k.mapSize < (r.info.vsizeKb + 1) * 1024
      && r.info.rssKb * 1024 <= k.rssize * pageSize < (r.info.rssKb + 1) * 1024
  {
    match records
    case None => SampleResult(false, info)
    case Some(rs) =>
      if |rs| != 1 then
        SampleResult(false, info)
      else
        var k := rs[0];
        SampleResult(true, Info(k.uticks / 1000, k.sticks / 1000, k.mapSize / 1024, k.rssize * pageSize / 1024))
  }

  /** A child whose counters and sizes have not shrunk never shows a
      smaller sample: the conversions keep the order of their inputs. */
  lemma {:induction false} SampleMonotone(info: Info, a: Kinfo, b: Kinfo, pageSize: nat)
    requires a.uticks <= b.uticks && a.sticks <= b.sticks
    requires a.mapSize <= b.mapSize && a.rssize <= b.rssize
    ensures var ra := GetSample(info, Some([a]), pageSize).info;
      var rb := GetSample(info, Some([b]), pageSize).info;
      && ra.utimeMs <= rb.utimeMs && ra.stimeMs <= rb.stimeMs
      && ra.vsizeKb <= rb.vsizeKb && ra.rssKb <= rb.rssKb
  {
    Arith.DivMonotone(a.uticks, b.uticks, 1000);
    Arith.DivMonotone(a.sticks, b.sticks, 1000);
    Arith.DivMonotone(a.mapSize, b.mapSize, 1024);
    Arith.MulMonotone(a.rssize, b.rssize, pageSize);
    Arith.DivMonotone(a.rssize * pageSize, b.rssize * pageSize, 1024);
  }

  /** `set_mem_limit`: the address space, soft and hard limit both
      `maxbytes`. */
  function MemLimit(maxbytes: nat): (rl: Rlimit)
    ensures Consistent(rl)
    ensures rl == Rlimit(AddressSpace, maxbytes, maxbytes)
  {
    Exact(AddressSpace, maxbytes)
  }
}
