/** The Linux backend, linux.c: samples come from the text of
    `/proc/<pid>/stat`, whose fields are separated by single blanks (the
    layout of the proc(5) manual page). The scanner walks from blank to
    blank with `strchr` and reads two numbers at a time with `sscanf`.
    `sampling_fork` is `Machdep.ForkThenOpen`, the handle being the stat
    file; `set_mem_limit` and `set_cpu_limit` are `Machdep.NinetyFivePercent`
    and `Machdep.CpuLimit`. */
module Linux {
  import opened Optional
  import opened Word
  import opened Machdep
  import opened Strtoul
  import Arith

  /** The size of the static buffer the stat line is read into. */
  const BUFFER_SIZE: nat := 2048

  /** What `read(proc_fd, buffer, 2048)` returns: -1, or the bytes read. */
  datatype ReadResult = ReadFailed | ReadBytes(bytes: string)

  /** The scanner does not check what it finds: when the text lacks the
      blanks or numbers it expects, the C code dereferences a null pointer,
      reads uninitialised variables or writes past the buffer. Such runs are
      `Undefined` here; every other run yields the sample record. */
  datatype LinuxSample = Sampled(result: SampleResult) | Undefined

  /** The text a C string function sees in a buffer: everything before the
      first NUL. */
  function CString(s: string): (c: string)
    ensures |c| <= |s| && c == s[..|c|]
    ensures forall i :: 0 <= i < |c| ==> c[i] != '\0'
    ensures |c| < |s| ==> s[|c|] == '\0'
  {
    if |s| == 0 || s[0] == '\0' then [] else [s[0]] + CString(s[1..])
  }

  /** `strchr(s, ' ')` as an offset, `None` for the null pointer. */
  function FirstSpace(s: string): (r: Option<nat>)
    ensures r.Some? ==> r.value < |s| && s[r.value] == ' '
    ensures r.Some? ==> forall k :: 0 <= k < r.value ==> s[k] != ' '
    ensures r.None? ==> forall k :: 0 <= k < |s| ==> s[k] != ' '
  {
    if |s| == 0 then None
    else if s[0] == ' ' then Some(0)
    else match FirstSpace(s[1..])
      case None => None
      case Some(p) => Some(p + 1)
  }

  /** `k` rounds of `tmp = strchr(tmp + 1, ' ')`, following the text at
      `tmp + 1`: each round moves just past the next blank. `None` when a
      round finds no blank, after which the C code would dereference the
      null pointer. */
  function DropFields(s: string, k: nat): (r: Option<string>)
    ensures r.Some? ==> |r.value| + k <= |s|
  {
    if k == 0 then Some(s)
    else match FirstSpace(s)
      case None => None
      case Some(p) => DropFields(s[p + 1..], k - 1)
  }

  /** The two `sscanf` calls of `get_sample` on the text in the buffer:
      `utime` and `stime` after the 13th blank, `vsize` and `rss` after the
      22nd. The first `strchr` starts one past the start of the text. */
  function ScanStat(text: string): (r: Option<((nat, nat), (nat, nat))>)
    ensures r.Some? ==> |text| > 0
    ensures r.Some? ==> r.value.0.0 <= ULONG_MAX && r.value.0.1 <= ULONG_MAX
    ensures r.Some? ==> r.value.1.0 <= ULONG_MAX && r.value.1.1 <= ULONG_MAX
  {
    if |text| == 0 then None
    else
      match DropFields(text[1..], 13)
      case None => None
      case Some(atTimes) =>
        match ScanTwo(atTimes)
        case None => None
        case Some(times) =>
          match DropFields(atTimes, 9)
          case None => None
          case Some(atSizes) =>
            match ScanTwo(atSizes)
            case None => None
            case Some(sizes) => Some((times, sizes))
  }

  /** The `CLOCKS_PER_SEC` the X/Open System Interfaces require, and the
      value current C libraries on Linux define. */
  const CLOCKS_PER_SEC: nat := 1_000_000

  /** The unit conversions of `get_sample`: CPU ticks to milliseconds,
      `vsize` from bytes and `rss` from pages to kilobytes. */
  function Convert(times: (nat, nat), sizes: (nat, nat), tickRate: nat, pageSize: nat): (i: Info)
    requires tickRate > 0
    requires sizes.0 <= ULONG_MAX
    ensures i.utimeMs == TickMillis(times.0, tickRate, ULONG_MODULUS) && i.stimeMs == TickMillis(times.1, tickRate, ULONG_MODULUS)
    ensures i.vsizeKb * 1024 <= sizes.0 < (i.vsizeKb + 1) * 1024
    ensures i.rssKb * 1024 <= ULong(sizes.1 * pageSize) < (i.rssKb + 1) * 1024
  {
    Info(TickMillis(times.0, tickRate, ULONG_MODULUS), TickMillis(times.1, tickRate, ULONG_MODULUS), sizes.0 / 1024, ULong(sizes.1 * pageSize) / 1024)
  }

  /** `get_sample` with the CPU counters converted at the kernel's clock
      tick rate `tickRate` (`HZ`, as `<asm/param.h>` defines it), as
      evidently intended. `pageSize` is the result of `getpagesize()`. A
      failed read leaves the record untouched; a read that fills the whole
      buffer makes the terminator land one past its end. */
  function GetSample(info: Info, read: ReadResult, tickRate: nat, pageSize: nat): (g: LinuxSample)
    requires tickRate > 0
    requires read.ReadBytes? ==> |read.bytes| <= BUFFER_SIZE
    ensures read.ReadFailed? ==> g == Sampled(SampleResult(false, info))
    ensures read.ReadBytes? && |read.bytes| == BUFFER_SIZE ==> g.Undefined?
    ensures read.ReadBytes? && g.Sampled? ==> g.result.ok
    ensures read.ReadBytes? && |read.bytes| < BUFFER_SIZE ==>
      (g.Sampled? <==> ScanStat(CString(read.bytes)).Some?)
  {
    match read
    case ReadFailed => Sampled(SampleResult(false, info))
    case ReadBytes(bytes) =>
      if |bytes| == BUFFER_SIZE then
        Undefined
      else
        match ScanStat(CString(bytes))
        case None => Undefined
        case Some(numbers) => Sampled(SampleResult(true, Convert(numbers.0, numbers.1, tickRate, pageSize)))
  }

  /** `get_sample` as written: the CPU counters are converted with
      `1000 / CLOCKS_PER_SEC`, which is 0, so every sample reports no CPU
      time at all. */
  function GetSampleAsWritten(info: Info, read: ReadResult, pageSize: nat): (g: LinuxSample)
    requires read.ReadBytes? ==> |read.bytes| <= BUFFER_SIZE
    ensures g.Sampled? && g.result.ok ==> g.result.info.utimeMs == 0 && g.result.info.stimeMs == 0
  {
    GetSample(info, read, CLOCKS_PER_SEC, pageSize)
  }

  /** A stat line: the fields written out with one blank between each two. */
  function Join(fs: seq<string>): (s: string)
    requires |fs| > 0
  {
    if |fs| == 1 then fs[0] else fs[0] + " " + Join(fs[1..])
  }

  /** A field of a well-formed stat line: not empty, no blank, no NUL. */
  predicate PlainField(f: string) {
    |f| > 0 && forall i :: 0 <= i < |f| ==> f[i] != ' ' && f[i] != '\0'
  }

  /** A field holding a number an `unsigned long` can store. */
  predicate NumberField(f: string) {
    AllDigits(f) && DecValue(f) <= ULONG_MAX
  }

  lemma {:induction false} FirstSpaceAfterField(f: string, rest: string)
    requires forall i :: 0 <= i < |f| ==> f[i] != ' '
    ensures FirstSpace(f + " " + rest) == Some(|f|)
    decreases |f|
  {
    if |f| > 0 {
      assert (f + " " + rest)[1..] == f[1..] + " " + rest;
      FirstSpaceAfterField(f[1..], rest);
    }
  }

  /** Skipping `k` blanks of a stat line lands on its field `k`. */
  lemma {:induction false} DropJoin(fs: seq<string>, k: nat)
    requires k < |fs|
    requires forall j :: 0 <= j < |fs| ==> PlainField(fs[j])
    ensures DropFields(Join(fs), k) == Some(Join(fs[k..]))
  {
    if k > 0 {
      var rest := Join(fs[1..]);
      assert Join(fs) == fs[0] + " " + rest;
      FirstSpaceAfterField(fs[0], rest);
      assert (fs[0] + " " + rest)[|fs[0]| + 1..] == rest;
      DropJoin(fs[1..], k - 1);
      assert fs[1..][k - 1..] == fs[k..];
    }
  }

  lemma {:induction false} JoinHasNoNul(fs: seq<string>)
    requires |fs| > 0
    requires forall j :: 0 <= j < |fs| ==> PlainField(fs[j])
    ensures forall i :: 0 <= i < |Join(fs)| ==> Join(fs)[i] != '\0'
    decreases |fs|
  {
    if |fs| > 1 {
      JoinHasNoNul(fs[1..]);
    }
  }

  lemma {:induction false} CStringOfPlain(s: string)
    requires forall i :: 0 <= i < |s| ==> s[i] != '\0'
    ensures CString(s) == s
    decreases |s|
  {
    if |s| > 0 {
      CStringOfPlain(s[1..]);
    }
  }

  /** Dropping the first character of the pid field keeps the line's shape:
      the first `strchr` starts one past the start of the buffer. */
  lemma {:induction false} JoinTail(fs: seq<string>)
    requires |fs| > 1 && |fs[0]| > 0
    ensures Join(fs)[1..] == Join([fs[0][1..]] + fs[1..])
  {
    var gs := [fs[0][1..]] + fs[1..];
    assert gs[1..] == fs[1..];
    assert Join(gs) == fs[0][1..] + " " + Join(fs[1..]);
  }

  /** Field `k` and `k + 1` of a stat line, followed by the rest of it. */
  lemma {:induction false} JoinSplitsTwo(fs: seq<string>, k: nat)
    requires k + 2 < |fs|
    ensures Join(fs[k..]) == fs[k] + " " + fs[k + 1] + (" " + Join(fs[k + 2..]))
  {
    assert fs[k..][1..] == fs[k + 1..];
    assert fs[k + 1..][1..] == fs[k + 2..];
    assert Join(fs[k..]) == fs[k] + " " + (fs[k + 1] + " " + Join(fs[k + 2..]));
  }

  /** Thirteen rounds of `strchr` from one past the start of a stat line
      land on field 14. */
  lemma {:induction false} SkipToTimes(fs: seq<string>)
    requires |fs| > 13
    requires forall j :: 0 <= j < |fs| ==> PlainField(fs[j])
    ensures |Join(fs)| > 0
    ensures DropFields(Join(fs)[1..], 13) == Some(Join(fs[13..]))
  {
    JoinTail(fs);
    var gs := [fs[0][1..]] + fs[1..];
    var tail := fs[1..];
    assert forall j :: 0 <= j < |tail| ==> PlainField(tail[j]);
    assert tail[12..] == fs[13..];
    if |fs[0]| == 1 {
      // a one-character pid: the cursor starts on the first blank
      var none: string := [];
      assert Join(gs) == none + " " + Join(tail);
      FirstSpaceAfterField(none, Join(tail));
      assert (none + " " + Join(tail))[1..] == Join(tail);
      DropJoin(tail, 12);
    } else {
      assert forall j :: 1 <= j < |gs| ==> gs[j] == fs[j];
      DropJoin(gs, 13);
      assert gs[13..] == fs[13..];
    }
  }

  /** `sscanf("%lu %lu")` at field `k` of a stat line reads fields `k` and
      `k + 1`. */
  lemma {:induction false} ScanTwoAt(fs: seq<string>, k: nat)
    requires k + 2 < |fs|
    requires NumberField(fs[k]) && NumberField(fs[k + 1])
    requires |fs[k]| > 0 && |fs[k + 1]| > 0
    ensures ScanTwo(Join(fs[k..])) == Some((DecValue(fs[k]), DecValue(fs[k + 1])))
  {
    JoinSplitsTwo(fs, k);
    ScanTwoDigits(fs[k], fs[k + 1], " " + Join(fs[k + 2..]));
  }

  /** Nine more rounds of `strchr` from field 14 land on field 23. */
  lemma {:induction false} SkipToSizes(fs: seq<string>)
    requires |fs| > 22
    requires forall j :: 0 <= j < |fs| ==> PlainField(fs[j])
    ensures DropFields(Join(fs[13..]), 9) == Some(Join(fs[22..]))
  {
    var from13 := fs[13..];
    assert forall j :: 0 <= j < |from13| ==> PlainField(from13[j]);
    DropJoin(from13, 9);
    assert from13[9..] == fs[22..];
  }

  /** The scanner reads the numbers of the stat line where proc(5) puts
      them: `utime` and `stime` are fields 14 and 15, `vsize` and `rss`
      fields 23 and 24 (counting from 1). */
  lemma {:induction false} ScanStatJoin(fs: seq<string>)
    requires |fs| > 25
    requires forall j :: 0 <= j < |fs| ==> PlainField(fs[j])
    requires NumberField(fs[13]) && NumberField(fs[14]) && NumberField(fs[22]) && NumberField(fs[23])
    ensures ScanStat(Join(fs)) == Some(((DecValue(fs[13]), DecValue(fs[14])), (DecValue(fs[22]), DecValue(fs[23]))))
  {
    assert PlainField(fs[13]) && PlainField(fs[14]) && PlainField(fs[22]) && PlainField(fs[23]);
    SkipToTimes(fs);
    ScanTwoAt(fs, 13);
    SkipToSizes(fs);
    ScanTwoAt(fs, 22);
  }

  /** Read back from a stat line that fits the buffer with room for its
      terminator, the sample holds the converted fields 14, 15, 23 and 24. */
  lemma {:induction false} StatLineRoundTrip(info: Info, fs: seq<string>, tickRate: nat, pageSize: nat)
    requires tickRate > 0
    requires |fs| > 25
    requires forall j :: 0 <= j < |fs| ==> PlainField(fs[j])
    requires NumberField(fs[13]) && NumberField(fs[14]) && NumberField(fs[22]) && NumberField(fs[23])
    requires |Join(fs)| < BUFFER_SIZE
    ensures GetSample(info, ReadBytes(Join(fs)), tickRate, pageSize) ==
      Sampled(SampleResult(true, Info(
        TickMillis(DecValue(fs[13]), tickRate, ULONG_MODULUS),
        TickMillis(DecValue(fs[14]), tickRate, ULONG_MODULUS),
        DecValue(fs[22]) / 1024,
        ULong(DecValue(fs[23]) * pageSize) / 1024)))
  {
    JoinHasNoNul(fs);
    CStringOfPlain(Join(fs));
    ScanStatJoin(fs);
  }

  /** What the wrong divisor costs: with the usual tick rate of 100 per
      second, a stat line saying the child ran for 250 ticks (2.5 seconds)
      is reported as 2500 milliseconds by the corrected sampler and as 0 by
      the sampler as written. */
  lemma {:induction false} AsWrittenLosesCpuTime(info: Info, fs: seq<string>, pageSize: nat)
    requires |fs| > 25
    requires forall j :: 0 <= j < |fs| ==> PlainField(fs[j])
    requires NumberField(fs[13]) && NumberField(fs[14]) && NumberField(fs[22]) && NumberField(fs[23])
    requires DecValue(fs[13]) == 250
    requires |Join(fs)| < BUFFER_SIZE
    ensures var g := GetSample(info, ReadBytes(Join(fs)), 100, pageSize);
      g.Sampled? && g.result.ok && g.result.info.utimeMs == 2500
    ensures var g := GetSampleAsWritten(info, ReadBytes(Join(fs)), pageSize);
      g.Sampled? && g.result.ok && g.result.info.utimeMs == 0
  {
    StatLineRoundTrip(info, fs, 100, pageSize);
    StatLineRoundTrip(info, fs, CLOCKS_PER_SEC, pageSize);
  }
}
