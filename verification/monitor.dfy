/** The supervising part of memtime.c's `main`: the fork, one pass of the
    sampling loop, signal delivery between passes, and the exit that mirrors
    the child's. Every system call is an input: the sample `get_sample`
    left in the record, the clock reading, what `wait4` returned. */
module Monitor {
  import opened Optional
  import opened Word
  import opened Arith
  import opened Machdep
  import opened Options
  import opened SignalRelay

  /** Which limits the platform enforces with `setrlimit` in the child
      (`CAN_USE_RLIMIT_VSIZE`, `CAN_USE_RLIMIT_CPU`); a limit the platform
      cannot enforce is polled by the loop instead. */
  datatype Caps = Caps(rlimitVsize: bool, rlimitCpu: bool)

  /** The memory limit is polled: set, and not enforced by the kernel. */
  predicate MemoryPolled(cfg: Config, caps: Caps) {
    !caps.rlimitVsize && cfg.maxKbytes > 0
  }

  /** The CPU limit is polled: the millisecond limit is non-zero and the
      kernel does not enforce the limit. */
  predicate CpuPolled(cfg: Config, caps: Caps) {
    !caps.rlimitCpu && cfg.maxMillis > 0
  }

  /** What `main` does with the result of `sampling_fork`: give up, become
      the command (after setting the native limits: bytes for
      `set_mem_limit`, seconds for `set_cpu_limit`), or supervise the
      child. */
  datatype Spawn =
    | SpawnFailed
    | ExecChild(memLimitBytes: Option<nat>, cpuLimitSeconds: Option<nat>)
    | Supervise(kid: Pid)

  function SpawnFrom(cfg: Config, caps: Caps, forkResult: int): (s: Spawn)
    requires forkResult >= -1
    ensures forkResult == -1 <==> s.SpawnFailed?
    ensures forkResult == 0 <==> s.ExecChild?
    ensures forkResult > 0 <==> s.Supervise?
    ensures s.Supervise? ==> s.kid == forkResult
    ensures s.ExecChild? ==>
      && (s.memLimitBytes.Some? <==> caps.rlimitVsize && cfg.maxKbytes > 0)
      && (s.memLimitBytes.Some? ==> s.memLimitBytes.value <= ULONG_MAX)
      && (s.memLimitBytes.Some? ==> s.memLimitBytes.value % ULONG_MODULUS == (cfg.maxKbytes * 1024) % ULONG_MODULUS)
      && (s.cpuLimitSeconds.Some? <==> caps.rlimitCpu && cfg.maxSeconds > 0)
      && (s.cpuLimitSeconds.Some? ==> s.cpuLimitSeconds.value == cfg.maxSeconds)
  {
    if forkResult == -1 then
      SpawnFailed
    else if forkResult == 0 then
      ExecChild(
        if caps.rlimitVsize && cfg.maxKbytes > 0 then Some(ULong(cfg.maxKbytes * 1024)) else None,
        if caps.rlimitCpu && cfg.maxSeconds > 0 then Some(cfg.maxSeconds) else None)
    else
      Supervise(forkResult)
  }

  /** Each limit goes to at most one path: handed to the child for
      `setrlimit`, or polled in the loop, never both. A memory limit above 0,
      and a CPU limit whose millisecond value does not wrap to 0, go to
      exactly one. Where the platform cannot enforce CPU time natively, a
      limit whose milliseconds wrap to 0 goes to neither. Which path a limit
      takes is all this states: a limit handed to the child can still be
      refused by `setrlimit` (see `Limits.NegativeMemoryLimitRefused`). */
  lemma {:induction false} EachLimitOneWay(cfg: Config, caps: Caps)
    requires cfg.maxMillis == ULong(1000 * cfg.maxSeconds)
    ensures var s := SpawnFrom(cfg, caps, 0);
      && !(s.memLimitBytes.Some? && MemoryPolled(cfg, caps))
      && (cfg.maxKbytes > 0 ==> s.memLimitBytes.Some? || MemoryPolled(cfg, caps))
      && !(s.cpuLimitSeconds.Some? && CpuPolled(cfg, caps))
      && (cfg.maxMillis > 0 ==> s.cpuLimitSeconds.Some? || CpuPolled(cfg, caps))
      && (cfg.maxSeconds > 0 && cfg.maxMillis == 0 && !caps.rlimitCpu ==> s.cpuLimitSeconds.None? && !CpuPolled(cfg, caps))
  {
  }

  /** The byte count handed to `set_mem_limit` is an `unsigned long`
      product too: a limit of 2^54 kilobytes becomes a limit of 0 bytes. */
  lemma {:induction false} HugeMemoryLimitWrapsToZero(cfg: Config, caps: Caps)
    requires caps.rlimitVsize
    requires cfg.maxKbytes == 0x40_0000_0000_0000
    ensures SpawnFrom(cfg, caps, 0).memLimitBytes == Some(0)
  {
  }

  /** The loop's variables: the report counter `time`, `print_stats`, the
      running maxima, and the sample record. */
  datatype Monitor = Monitor(time: nat, printStats: bool, maxVsize: nat, maxRss: nat, info: Info)

  /** Everything zero, as `main` initialises it. */
  const Initial: Monitor := Monitor(0, false, 0, 0, ZeroInfo)

  /** What stays fixed while the loop runs. `start` is the clock reading
      taken just before the fork. */
  datatype Setup = Setup(kid: Pid, cfg: Config, caps: Caps, start: nat)

  /** A wait status: normal exit with its code, death by a signal, or
      anything else (a stopped or continued child). */
  datatype Status = Exited(code: nat) | Signaled(sig: Sig) | Suspended(sig: Sig)

  /** What `wait4(kid, &status, WNOHANG, &usage)` returned: 0 (nothing to
      report yet), a pid with its status and usage, or -1 with `errno`
      either `EINTR` or something else. */
  datatype WaitResult = NoChange | Reported(pid: int, status: Status, usage: Rusage) | Failed(interrupted: bool)

  /** The loop's exit test: `wait4` returned the child, and it exited or
      was killed. */
  predicate Reaps(kid: int, w: WaitResult) {
    w.Reported? && w.pid == kid && (w.status.Exited? || w.status.Signaled?)
  }

  /** A `wait4` failure other than an interruption, on which the monitor
      aborts. */
  predicate Fatal(w: WaitResult) {
    w == Failed(false)
  }

  /** What one pass of the loop sees: the record after `get_sample`, the
      clock (read only when a report is printed) and `wait4`'s result. */
  datatype TickInput = TickInput(info: Info, now: nat, wait: WaitResult)

  /** A progress line: CPU times from the sample, elapsed wall time, memory
      of the sample. */
  datatype Report = Report(utimeMs: nat, stimeMs: nat, elapsedMs: nat, vsizeKb: nat, rssKb: nat)

  /** How a pass ends: loop again, leave the loop with the reaped child's
      status and usage, or abort. */
  datatype Next = Continue | Reaped(status: Status, usage: Rusage) | Abort

  /** The outcome of one pass: the new variables, the report printed if
      any, the `kill(kid, SIGKILL)` calls made by the polling fallback, and
      how the pass ends. */
  datatype Tick = Tick(state: Monitor, report: Option<Report>, killForMemory: bool, killForCpu: bool, next: Next)

  /** The report period in passes: `10 * sample_time`, an `unsigned long`
      product. */
  function Period(sampleTime: nat): nat {
    ULong(10 * sampleTime)
  }

  /** The period the counter actually keeps: a product that wrapped to 0
      makes every pass report, as a period of 1 would. */
  function EffectivePeriod(sampleTime: nat): (p: nat)
    ensures p >= 1
  {
    if Period(sampleTime) == 0 then 1 else Period(sampleTime)
  }

  /** The report counter: the new `time`, and whether a report falls due.
      With `sample_time` 0 the counter stands still. */
  function Count(sampleTime: nat, time: nat): (r: (nat, bool))
    ensures sampleTime == 0 ==> r == (time, false)
    ensures sampleTime > 0 && time < EffectivePeriod(sampleTime) ==>
      && r.0 < EffectivePeriod(sampleTime)
      && (r.1 ==> r.0 == 0 && time + 1 == EffectivePeriod(sampleTime))
      && (!r.1 ==> r.0 == time + 1)
  {
    if sampleTime == 0 then (time, false)
    else if time + 1 >= Period(sampleTime) then (0, true)
    else (time + 1, false)
  }

  /** One pass of the `do … while` loop. */
  function Step(setup: Setup, st: Monitor, input: TickInput): (t: Tick)
    ensures t.state.info == input.info
    ensures t.state.maxVsize >= st.maxVsize && t.state.maxVsize >= input.info.vsizeKb
    ensures t.state.maxVsize == st.maxVsize || t.state.maxVsize == input.info.vsizeKb
    ensures t.state.maxRss >= st.maxRss && t.state.maxRss >= input.info.rssKb
    ensures t.state.maxRss == st.maxRss || t.state.maxRss == input.info.rssKb
    ensures !t.state.printStats
    ensures t.report.Some? <==> st.printStats || Count(setup.cfg.sampleTime, st.time).1
    ensures t.report.Some? ==>
      && t.report.value.utimeMs == input.info.utimeMs && t.report.value.stimeMs == input.info.stimeMs
      && t.report.value.vsizeKb == input.info.vsizeKb && t.report.value.rssKb == input.info.rssKb
      && (setup.start <= input.now < setup.start + ULONG_MODULUS ==> t.report.value.elapsedMs == input.now - setup.start)
    ensures t.state.time == Count(setup.cfg.sampleTime, st.time).0
    ensures t.next.Abort? <==> Fatal(input.wait)
    ensures t.next.Reaped? <==> Reaps(setup.kid, input.wait)
    ensures t.next.Reaped? ==> t.next.status == input.wait.status && t.next.usage == input.wait.usage
    ensures t.killForMemory <==> !Fatal(input.wait) && MemoryPolled(setup.cfg, setup.caps) && t.state.maxVsize > setup.cfg.maxKbytes
    ensures t.killForCpu <==> !Fatal(input.wait) && CpuPolled(setup.cfg, setup.caps) && input.info.utimeMs > setup.cfg.maxMillis
  {
    var info := input.info;
    var maxVsize := Max(info.vsizeKb, st.maxVsize);
    var maxRss := Max(info.rssKb, st.maxRss);
    var (time, due) := Count(setup.cfg.sampleTime, st.time);
    var report :=
      if st.printStats || due then
        Some(Report(info.utimeMs, info.stimeMs, ULong(input.now - setup.start), info.vsizeKb, info.rssKb))
      else None;
    var state := Monitor(time, false, maxVsize, maxRss, info);
    if Fatal(input.wait) then
      Tick(state, report, false, false, Abort)
    else
      var next := if Reaps(setup.kid, input.wait) then Reaped(input.wait.status, input.wait.usage) else Continue;
      Tick(state, report,
        MemoryPolled(setup.cfg, setup.caps) && maxVsize > setup.cfg.maxKbytes,
        CpuPolled(setup.cfg, setup.caps) && info.utimeMs > setup.cfg.maxMillis,
        next)
  }

  /** A zero limit never kills: with no memory limit the loop never kills
      for memory, and with no CPU limit never for CPU time. */
  lemma {:induction false} ZeroLimitsNeverKill(setup: Setup, st: Monitor, input: TickInput)
    requires setup.cfg.maxMillis == ULong(1000 * setup.cfg.maxSeconds)
    ensures setup.cfg.maxKbytes == 0 ==> !Step(setup, st, input).killForMemory
    ensures setup.cfg.maxSeconds == 0 ==> !Step(setup, st, input).killForCpu
  {
  }

  /** The memory fallback compares the running maximum, so once the child
      has exceeded the limit in some sample, every later pass kills it
      again, whatever the current sample says. */
  lemma {:induction false} MemoryKillIsSticky(setup: Setup, st: Monitor, input: TickInput)
    requires MemoryPolled(setup.cfg, setup.caps)
    requires st.maxVsize > setup.cfg.maxKbytes
    requires !Fatal(input.wait)
    ensures Step(setup, st, input).killForMemory
  {
  }

  /** Because the millisecond limit is a wrapped product, a CPU limit of
      2^61 seconds is a limit of 0 milliseconds, and the polling fallback
      never fires although a limit was given. */
  lemma {:induction false} HugeCpuLimitDisablesPolling(setup: Setup, st: Monitor, input: TickInput)
    requires setup.cfg.maxSeconds == 0x2000_0000_0000_0000
    requires setup.cfg.maxMillis == ULong(1000 * setup.cfg.maxSeconds)
    ensures setup.cfg.maxMillis == 0
    ensures !Step(setup, st, input).killForCpu
  {
  }

  /** The outcome of several passes: the final variables, how the last pass
      ended, how many passes ran and how many printed a report. */
  datatype RunResult = RunResult(state: Monitor, next: Next, ticks: nat, reports: nat)

  /** The loop over a sequence of passes, stopping at the first one that
      reaps the child or aborts. */
  function Run(setup: Setup, st: Monitor, inputs: seq<TickInput>): (r: RunResult)
    ensures r.ticks <= |inputs|
    ensures r.reports <= r.ticks
    ensures r.next.Continue? ==> r.ticks == |inputs|
    ensures !r.next.Continue? ==>
      && r.ticks > 0
      && (Reaps(setup.kid, inputs[r.ticks - 1].wait) || Fatal(inputs[r.ticks - 1].wait))
      && (r.next.Abort? <==> Fatal(inputs[r.ticks - 1].wait))
    ensures forall i :: 0 <= i < r.ticks - 1 ==> !Reaps(setup.kid, inputs[i].wait) && !Fatal(inputs[i].wait)
    ensures r.next.Continue? ==> forall i :: 0 <= i < |inputs| ==> !Reaps(setup.kid, inputs[i].wait) && !Fatal(inputs[i].wait)
    decreases |inputs|
  {
    if |inputs| == 0 then
      RunResult(st, Continue, 0, 0)
    else
      var t := Step(setup, st, inputs[0]);
      var counted := if t.report.Some? then 1 else 0;
      if !t.next.Continue? then
        RunResult(t.state, t.next, 1, counted)
      else
        var rest := Run(setup, t.state, inputs[1..]);
        assert forall i :: 1 <= i < |inputs| ==> inputs[i] == inputs[1..][i - 1];
        RunResult(rest.state, rest.next, rest.ticks + 1, rest.reports + counted)
  }

  /** A pass that continues hands its variables on to the rest of the run. */
  lemma {:induction false} RunUnfold(setup: Setup, st: Monitor, inputs: seq<TickInput>)
    requires |inputs| > 0
    requires Step(setup, st, inputs[0]).next.Continue?
    ensures var t := Step(setup, st, inputs[0]);
      var rest := Run(setup, t.state, inputs[1..]);
      Run(setup, st, inputs) == RunResult(rest.state, rest.next, rest.ticks + 1, rest.reports + (if t.report.Some? then 1 else 0))
  {
  }

  /** The running maxima: after any number of passes, `max_vsize` and
      `max_rss` are the largest of their starting value and of every sample
      taken (for the initial state, the maximum of 0 and the samples). */
  lemma {:induction false} RunMaxima(setup: Setup, st: Monitor, inputs: seq<TickInput>)
    ensures var r := Run(setup, st, inputs);
      && r.state.maxVsize >= st.maxVsize
      && (forall i :: 0 <= i < r.ticks ==> inputs[i].info.vsizeKb <= r.state.maxVsize)
      && (r.state.maxVsize == st.maxVsize || exists i :: 0 <= i < r.ticks && inputs[i].info.vsizeKb == r.state.maxVsize)
      && r.state.maxRss >= st.maxRss
      && (forall i :: 0 <= i < r.ticks ==> inputs[i].info.rssKb <= r.state.maxRss)
      && (r.state.maxRss == st.maxRss || exists i :: 0 <= i < r.ticks && inputs[i].info.rssKb == r.state.maxRss)
    decreases |inputs|
  {
    if |inputs| > 0 {
      var t := Step(setup, st, inputs[0]);
      if t.next.Continue? {
        var tail := inputs[1..];
        RunMaxima(setup, t.state, tail);
        RunUnfold(setup, st, inputs);
        var r := Run(setup, st, inputs);
        assert forall i :: 1 <= i < |inputs| ==> inputs[i] == tail[i - 1];
        if r.state.maxVsize != st.maxVsize {
          if r.state.maxVsize == t.state.maxVsize {
            assert inputs[0].info.vsizeKb == r.state.maxVsize;
          } else {
            var j :| 0 <= j < r.ticks - 1 && tail[j].info.vsizeKb == r.state.maxVsize;
            assert inputs[j + 1].info.vsizeKb == r.state.maxVsize;
          }
        }
        if r.state.maxRss != st.maxRss {
          if r.state.maxRss == t.state.maxRss {
            assert inputs[0].info.rssKb == r.state.maxRss;
          } else {
            var j :| 0 <= j < r.ticks - 1 && tail[j].info.rssKb == r.state.maxRss;
            assert inputs[j + 1].info.rssKb == r.state.maxRss;
          }
        }
      }
    }
  }

  /** One pass of the counter: a pass either prints the periodic report
      and resets `time`, or advances `time` by one. */
  lemma {:induction false} StepCounter(setup: Setup, st: Monitor, input: TickInput)
    requires setup.cfg.sampleTime > 0
    requires !st.printStats
    requires st.time < EffectivePeriod(setup.cfg.sampleTime)
    ensures var t := Step(setup, st, input);
      && t.state.time < EffectivePeriod(setup.cfg.sampleTime)
      && (if t.report.Some? then 1 else 0) * EffectivePeriod(setup.cfg.sampleTime) + t.state.time == st.time + 1
  {
  }

  /** The report counter: with a non-zero interval and no report pending,
      `time` stays below the period and every `EffectivePeriod` passes
      print exactly one report. */
  lemma {:induction false} RunCounter(setup: Setup, st: Monitor, inputs: seq<TickInput>)
    requires setup.cfg.sampleTime > 0
    requires !st.printStats
    requires st.time < EffectivePeriod(setup.cfg.sampleTime)
    ensures var r := Run(setup, st, inputs);
      && r.state.time < EffectivePeriod(setup.cfg.sampleTime)
      && r.reports * EffectivePeriod(setup.cfg.sampleTime) + r.state.time == st.time + r.ticks
    decreases |inputs|
  {
    var p := EffectivePeriod(setup.cfg.sampleTime);
    if |inputs| > 0 {
      var t := Step(setup, st, inputs[0]);
      var counted := if t.report.Some? then 1 else 0;
      StepCounter(setup, st, inputs[0]);
      if t.next.Continue? {
        var rest := Run(setup, t.state, inputs[1..]);
        RunCounter(setup, t.state, inputs[1..]);
        RunUnfold(setup, st, inputs);
        MulAddRight(rest.reports, counted, p);
      }
    }
  }

  /** Starting from a cleared counter, `n` passes print `n / EffectivePeriod`
      periodic reports: their number is pinned between the two multiples of
      the period around `n`. */
  lemma {:induction false} RunReportCount(setup: Setup, inputs: seq<TickInput>)
    requires setup.cfg.sampleTime > 0
    ensures var r := Run(setup, Initial, inputs);
      var p := EffectivePeriod(setup.cfg.sampleTime);
      r.reports * p <= r.ticks < (r.reports + 1) * p
  {
    var r := Run(setup, Initial, inputs);
    RunCounter(setup, Initial, inputs);
    MulAddRight(r.reports, 1, EffectivePeriod(setup.cfg.sampleTime));
  }

  /** With interval 0 the counter never moves and, without signals, no
      report is ever printed. */
  lemma {:induction false} RunWithoutInterval(setup: Setup, st: Monitor, inputs: seq<TickInput>)
    requires setup.cfg.sampleTime == 0
    requires !st.printStats
    ensures Run(setup, st, inputs).reports == 0
    ensures Run(setup, st, inputs).state.time == st.time
    decreases |inputs|
  {
    if |inputs| > 0 {
      var t := Step(setup, st, inputs[0]);
      if t.next.Continue? {
        RunWithoutInterval(setup, t.state, inputs[1..]);
      }
    }
  }

  /** A signal arriving between two passes: the relay handler's action, as
      written, and `print_stats` raised by SIGPROF. Nothing else in the
      loop's variables changes. */
  function Deliver(setup: Setup, saved: map<Sig, Handler>, st: Monitor, s: Sig): (r: (Monitor, Option<Delivery>))
    ensures r.1 == HandleAsWritten(setup.kid, saved, s)
    ensures r.0.printStats <==> st.printStats || s == PROF
    ensures r.0.(printStats := st.printStats) == st
  {
    var d := HandleAsWritten(setup.kid, saved, s);
    (if d.Some? && d.value.setPrintStats then st.(printStats := true) else st, d)
  }

  /** SIGPROF makes the next pass print a report, whatever the counter
      says, and the report is not repeated on the pass after. */
  lemma {:induction false} ProfilingForcesReport(setup: Setup, saved: map<Sig, Handler>, st: Monitor, input: TickInput, later: TickInput)
    ensures Step(setup, Deliver(setup, saved, st, PROF).0, input).report.Some?
    ensures var t := Step(setup, Deliver(setup, saved, st, PROF).0, input);
      Step(setup, t.state, later).report.Some? <==> Count(setup.cfg.sampleTime, t.state.time).1
  {
  }

  /** The two closing lines: the child's status, its usage from `wait4`,
      the elapsed time, and the maxima after one more update with the last
      sample. */
  datatype Summary = Summary(status: Status, usage: Rusage, elapsedMs: nat, maxVsize: nat, maxRss: nat)

  function Finish(setup: Setup, st: Monitor, status: Status, usage: Rusage, end: nat): (s: Summary)
    ensures s.status == status && s.usage == usage
    ensures s.maxVsize >= st.maxVsize && s.maxVsize >= st.info.vsizeKb
    ensures s.maxRss >= st.maxRss && s.maxRss >= st.info.rssKb
    ensures setup.start <= end < setup.start + ULONG_MODULUS ==> s.elapsedMs == end - setup.start
  {
    Summary(status, usage, ULong(end - setup.start), Max(st.info.vsizeKb, st.maxVsize), Max(st.info.rssKb, st.maxRss))
  }

  /** The update after the loop changes nothing: the record still holds the
      sample the last pass already took into account. */
  lemma {:induction false} FinalUpdateIdempotent(setup: Setup, st: Monitor, input: TickInput, end: nat)
    requires Reaps(setup.kid, input.wait)
    ensures var t := Step(setup, st, input);
      var s := Finish(setup, t.state, t.next.status, t.next.usage, end);
      s.maxVsize == t.state.maxVsize && s.maxRss == t.state.maxRss
  {
  }

  /** How `main` ends: with the child's exit code, by raising the child's
      signal again, or by `abort` after a diagnostic. */
  datatype Termination = ExitWith(code: nat) | Reraise(sig: Sig) | AbortWith(sig: Sig)

  /** The signals `main` raises again. */
  const Reraised: set<Sig> := {HUP, INT, USR1, USR2, KILL, ALRM, TERM, PIPE}

  function Terminate(status: Status): (t: Termination)
    requires status.Exited? || status.Signaled?
    ensures t.ExitWith? <==> status.Exited?
    ensures t.ExitWith? ==> t.code == status.code
    ensures t.Reraise? <==> status.Signaled? && status.sig in Reraised
    ensures t.AbortWith? <==> status.Signaled? && status.sig !in Reraised
    ensures !t.ExitWith? ==> t.sig == status.sig
  {
    match status
    case Exited(code) => ExitWith(code)
    case Signaled(s) => if s in Reraised then Reraise(s) else AbortWith(s)
  }

  /** The status memtime's own parent sees, given memtime's dispositions at
      the end: an exit code is truncated to 8 bits; a raised signal kills
      memtime when its action is the default (and SIGKILL always does),
      otherwise `raise` returns and `abort` follows. */
  function Observed(t: Termination, d: Dispositions): (s: Status)
    ensures s.Exited? <==> t.ExitWith?
    ensures s.Signaled? && s.sig != ABRT ==> t.Reraise? && s.sig == t.sig
  {
    match t
    case ExitWith(c) => Exited(c % 256)
    case Reraise(s) => if s == KILL || Lookup(d, s) == Default then Signaled(s) else Signaled(ABRT)
    case AbortWith(_) => Signaled(ABRT)
  }

  /** Exit mirroring: run with dispositions `d`, memtime installs its relay,
      restores `d` after the loop, and then ends just as the child did: with
      the same exit code, or killed by the same signal when that signal is
      one it re-raises and whose action in `d` is the default. */
  lemma {:induction false} ExitMirrorsChild(d: Dispositions, status: Status)
    requires (status.Exited? && status.code < 256) ||
             (status.Signaled? && status.sig in Reraised && (status.sig == KILL || Lookup(d, status.sig) == Default))
    ensures Observed(Terminate(status), Restore(Install(d))) == status
  {
    RestoreUndoesInstall(d);
  }

  /** Any other signal ends memtime with SIGABRT instead. */
  lemma {:induction false} OtherSignalsAbort(d: Dispositions, s: Sig)
    requires s !in Reraised
    ensures Observed(Terminate(Signaled(s)), d) == Signaled(ABRT)
  {
  }
}
