# memtime, modelled in Dafny

memtime runs a command as a child process and watches it. Every tenth of a
second the monitor samples the child's CPU time and memory through a
platform backend (`get_sample`). It keeps the largest virtual and resident
sizes seen and prints a progress line every `10 * sample_time` passes or on
SIGPROF. Optionally it enforces a memory limit (`-m`, kilobytes) and a CPU
limit (`-c`, seconds). A platform that can apply a limit with `setrlimit`
sets it in the child before `exec`. Elsewhere the loop polls the limit and
sends SIGKILL. SIGINT, SIGTERM, SIGHUP, SIGUSR1 and SIGUSR2 are relayed to
the child. When the child is reaped, memtime prints a summary and ends the
way the child ended: the same exit code, or the same signal raised again.

The model is functional. Every system call is an input value:
- what `fork` returned;
- the text read from `/proc`;
- the records `kvm_getprocs` or `getsysinfo` filled in;
- the clock reading;
- what `wait4` reported.

Every C integer type is written out at its width: `unsigned long` as
64-bit (LP64), 32-bit `unsigned int` on Solaris `get_time`, and every
`long` on Minix, which runs on 32-bit i386.

| file | module | models |
|---|---|---|
| `base.dfy` | `Optional`, `Word`, `Arith` | option type, C integer widths, division facts |
| `machdep.dfy` | `Machdep` | the sample record, `timeval`/`timespec` conversions, tick conversion, `rlimit` values, and the backend functions several backends share |
| `strtoul.dfy` | `Strtoul` | `strtoul(s, &end, 10)` and the `%lu %lu` directive of `sscanf` |
| `options.dfy` | `Options` | option checking in `main` |
| `relay.dfy` | `SignalRelay` | the six signal handlers, installing and restoring them |
| `monitor.dfy` | `Monitor` | spawning with limits, one loop pass, runs of passes, summary and exit |
| `limits.dfy` | `Limits` | the limits the child sets natively, held against the tests the loop polls with |
| `darwin9.dfy` … `dragonfly.dfy` | one module per backend | what each backend does its own way of `sampling_fork`, `get_sample`, `get_time`, `set_mem_limit` |

Code that several backends share is modelled once, in `Machdep`; the row citing it
names the other backends' lines. `get_time` is identical in darwin9.c, linux.c,
netbsd.c and dragonfly.c (`Machdep.GetTime`); Minix and Solaris truncate the
same value to 32 bits (`Machdep.GetTime32`). `set_cpu_limit` is identical in
the five backends that have one (`Machdep.CpuLimit`), the 95% address-space
limit is shared by Darwin and Linux (`Machdep.NinetyFivePercent`), and
Linux, DragonFly and the corrected NetBSD fork the same way
(`Machdep.ForkThenOpen`).

## Model

| member | source | states |
|---|---|---|
| Machdep.GetTime | darwin9.c:150-162 | the clock is 0 when `gettimeofday` fails; otherwise the millisecond value divided by 1000 is the seconds and its remainder the whole milliseconds of `tv_usec` |
| Machdep.MillisSplits | darwin9.c:142-145 | `sec * 1000 + usec / 1000` loses only the sub-millisecond part: quotient by 1000 is the seconds, remainder the milliseconds of `usec` |
| Machdep.MillisMonotone | linux.c:105 | a later `timeval` never converts to fewer milliseconds |
| Machdep.MillisOfSpecSplits | sunos5.c:74-77 | `1000 * sec + nsec / 1000000` keeps the seconds in the quotient and the milliseconds of `nsec` in the remainder |
| Machdep.TickMillisBound | minix.c:124-125 | `ticks * (1000 / hz)` never overstates `ticks * 1000 / hz`, and equals it when `hz` divides 1000 |
| Machdep.TickMillis | linux.c:84-85 | the tick conversion in a C unsigned type: below the modulus; 0 for any tick rate above 1000; without wrap-around at most, and for a divisor of 1000 exactly, the true milliseconds |
| Strtoul.StrToUL | memtime.c:148 | the end offset stays inside the text, the value fits an `unsigned long`, and an overflow saturates at `ULONG_MAX` after converting something |
| Strtoul.FromDigits | memtime.c:171 | a digit run converts to its value exactly when that fits, saturates and flags overflow otherwise |
| Strtoul.DigitsConvert | memtime.c:159 | white space, then a maximal digit run: converts to the run's value and stops right after the run |
| Strtoul.ScanTwo | linux.c:77 | assigns nothing when no number starts the text; when it assigns both, the first is what `strtoul` reads at the start and the second what it reads where the first stopped, both within `unsigned long` |
| Strtoul.ScanTwoDigits | linux.c:77 | two digit runs separated by a blank scan back as their two values |
| Options.ParseArgument | memtime.c:146-156 | an accepted argument is non-empty and its value fits an `unsigned long` |
| Options.ParseArgumentRoundTrip | memtime.c:146-156 | every `unsigned long` typed in decimal is accepted as itself |
| Options.ParseArgumentRejectsTrailing | memtime.c:152-155 | a number followed by a non-digit is rejected, and so is the empty argument |
| Options.ParseArgumentRejectsOverflow | memtime.c:149-151 | a number beyond `ULONG_MAX` sets `errno` and is rejected |
| Options.ParseArgumentNegativeWraps | memtime.c:157-167 | `-m -n` is accepted as `2^64 - n`, because `strtoul` negates modulo 2^64 |
| Options.ApplyOptions | memtime.c:139-188 | the option loop stops only to show usage or reject, never to start |
| Options.ApplyOptionsRunsIff | memtime.c:139-188 | the option loop runs through exactly when every option is `-e` or a numeric option with a valid argument |
| Options.ApplyOptionsKeeps | memtime.c:142-144 | the millisecond limit stays the 64-bit product `1000 * maxseconds`, and echoing is on exactly when some option is `-e` |
| Options.ApplyOptionsLastWins | memtime.c:146-180 | each numeric setting holds its last occurrence's value, or its starting value when the option never occurs |
| Options.Configure | memtime.c:134-193 | fewer than two arguments, or no command after the options, never starts the command |
| Options.ConfigureStartsIff | memtime.c:134-193 | the command is started exactly when there is an argument, every option is accepted and a command follows |
| Options.CpuLimitWraps | memtime.c:179 | `-c 18446744073709552` gives a millisecond limit of 384 |
| SignalRelay.Install | memtime.c:228-233 | the six signals get memtime's handlers, each previous disposition is saved, and every other signal keeps its disposition |
| SignalRelay.Restore | memtime.c:286-291 | every signal with a saved handler gets that handler back; every other signal keeps its current disposition |
| SignalRelay.RestoreUndoesInstall | memtime.c:286-291 | after restoring, every signal has exactly its disposition from before the install |
| SignalRelay.HandleAsWritten | memtime.c:56-63 | the handlers as written act exactly on the six intercepted signals; a relayed signal is sent on to the child exactly when `kid` is non-zero, SIGPROF only raises `print_stats`, and the saved handler is called exactly when it is neither `SIG_DFL` nor the handler itself, so `SIG_IGN` too |
| SignalRelay.AsWrittenChainsToIgnore | memtime.c:61-62 | as written, a signal inherited ignored makes its handler call `SIG_IGN`, and in a fresh process image only then does it chain |
| SignalRelay.Handle | memtime.c:56-112 | a relayed signal is sent to `kid` with the same number exactly when `kid != 0`, never raises `print_stats`, and chains only to a real previous handler; SIGPROF only raises `print_stats` |
| SignalRelay.HandleAgreesExceptIgnore | memtime.c:66-103 | the corrected and the written handlers agree whenever the previous disposition is the default or a function |
| SignalRelay.RelayRoundTrip | memtime.c:56-63 | a relayed signal reaches the child unchanged, and a handler installed before memtime still runs |
| Darwin9.CorrectedVsizeKb | darwin9.c:131-134 | the shared regions are subtracted only from a larger size, so nothing goes below zero; the result is that size in whole kilobytes |
| Darwin9.GetSample | darwin9.c:122-148 | success exactly when `getrusage` succeeds; memory fields always written; CPU fields unchanged on failure, otherwise the monitor's own times in milliseconds |
| Darwin9.SamplingFork | darwin9.c:74-120 | -1 when a port set-up step fails or fork fails; otherwise 0 in the child if the task port was sent, the pid in the parent if it was received, and -1 when not |
| Darwin9.SamplingForkLikeOthers | darwin9.c:74-120 | with the ports set up and the task port sent, Darwin's result is the shared fork-then-open result with the received port as the handle; wherever the two differ Darwin returns -1 |
| Machdep.NinetyFivePercent | darwin9.c:164-172 | address-space limit with hard limit `maxbytes`; below 2^63 the soft limit is the floor of 95% of it, from 2^63 on the `long int` cast makes it minus 95% of the distance to 2^64, wrapped; the pair is consistent exactly below 2^63 or at `ULONG_MAX`; the same code is at linux.c:108-115 |
| Limits.NinetyFivePercentStricter | linux.c:108-115 | for a limit below 2^63 bytes the pair is consistent, the hard limit admits exactly the sizes the polled test accepts, the soft limit admits only such sizes, and admits every size within 95% of the limit; the same code is at darwin9.c:164-172 |
| Limits.NegativeMemoryLimitRefused | memtime.c:211-212 | `-m` of 2^64 - 1 kilobytes hands Darwin and Linux a soft limit above the hard one, which `setrlimit` refuses |
| Limits.CpuLimitAgrees | darwin9.c:174-181 | without wrap-around, the native CPU limit admits a number of seconds exactly when the polled test `utime_ms > maxmillis` accepts it; the same code is at linux.c:117-123, netbsd.c:107-114, sunos5.c:105-112, dragonfly.c:102-109 |
| Darwin9.CpuTimesAreOwn | darwin9.c:136-145 | the CPU figures do not depend on the child's task at all |
| Darwin9.CorrectedVsizeMonotone | darwin9.c:131-134 | on one side of the shared-region size, a larger mapping never reports less, and the correction never adds |
| Darwin9.CorrectionJumpsAtThreshold | darwin9.c:132-133 | a mapping exactly the shared size reports all of it; one byte more reports 0 |
| Linux.CString | linux.c:72 | the text before the first NUL: a NUL-free prefix ending at the terminator or the buffer's end |
| Linux.FirstSpace | linux.c:75 | `strchr(s, ' ')`: the offset of the first blank, or none when there is no blank |
| Linux.DropFields | linux.c:74-80 | skipping `k` blanks consumes at least `k` characters |
| Linux.ScanStat | linux.c:74-82 | a scan only succeeds on non-empty text and yields four `unsigned long` values |
| Linux.Convert | linux.c:84-88 | CPU times through the tick conversion; `vsize` bytes and `rss * pagesize` (64-bit) floored to kilobytes |
| Linux.GetSample | linux.c:58-91 | a failed read leaves the record untouched; a full 2048-byte read is undefined; otherwise a sample exactly when the scan finds its four numbers |
| Linux.GetSampleAsWritten | linux.c:84-85 | as written, every successful sample reports zero CPU time |
| Linux.DropJoin | linux.c:74-75 | on a stat line of plain fields, skipping `k` blanks lands on field `k` |
| Linux.SkipToTimes | linux.c:74-75 | thirteen rounds of `strchr` from one past the start land on field 14 |
| Linux.SkipToSizes | linux.c:79-80 | nine more rounds land on field 23 |
| Linux.ScanTwoAt | linux.c:77 | `sscanf("%lu %lu")` at a field reads that field and the next |
| Linux.ScanStatJoin | linux.c:74-82 | the scanner returns fields 14, 15, 23 and 24 of the stat line, as proc(5) lays them out |
| Linux.StatLineRoundTrip | linux.c:58-91 | a stat line that fits the buffer reads back as the converted fields 14, 15, 23 and 24 |
| Linux.AsWrittenLosesCpuTime | linux.c:84-85 | 250 ticks at 100 per second are 2500 ms when corrected and 0 ms as written |
| Machdep.ForkThenOpen | linux.c:42-56 | -1 exactly on fork failure or when the per-child handle opened after the fork did not open, 0 exactly in the child, otherwise the child's pid; the handle is the stat file here and the kvm descriptor at dragonfly.c:42-58 |
| Minix.TicksToTimeVal | minix.c:65-73 | for `hz > 0`: `usec` is below a million, the seconds are the floor of `ticks / hz`, and `usec` is the leftover ticks times `1000000 / hz` |
| Minix.TicksToTimeValExact | minix.c:65-66 | when `hz` divides a million, the `timeval` holds exactly the ticks' microseconds |
| Minix.Wait4 | minix.c:55-77 | returns `waitpid`'s result; fills the usage exactly when asked for and the pid matches, with normal `timeval`s bracketing the tick counts |
| Minix.UsageIsCumulative | minix.c:50-54 | the usage reported is the same whichever child was waited for |
| Minix.FindSlot | minix.c:114-122 | the first slot below `NR_PROCS` that is in use and holds the pid, or `NR_PROCS` when none does |
| Minix.Convert | minix.c:124-129 | CPU times through the 32-bit tick conversion; `rss_kb` equals `vsize_kb`, the 32-bit shifted segment size floored to kilobytes |
| Minix.ConvertVsizeExact | minix.c:127-128 | with clicks of at least a kilobyte and no wrap-around, `vsize_kb` is exactly clicks times click kilobytes |
| Minix.GetSample | minix.c:102-132 | either `getsysinfo` failure returns 0 untouched; otherwise success exactly when some slot matches, converting the first matching slot |
| Minix.SamplingFork | minix.c:80-99 | `fork`'s result is passed through |
| Machdep.GetTime32 | minix.c:134-147 | the millisecond clock reduced to 32 bits, 0 when `gettimeofday` fails; the same clock, as `unsigned int`, is at sunos5.c:82-95 |
| NetBSD.SamplingForkAsWritten | netbsd.c:40-53 | as written, 0 both in the child and on fork failure; the pid or -1 in the parent depending on `kvm_openfiles` |
| NetBSD.AsWrittenForkFailureLooksLikeChild | netbsd.c:44-47 | as written, a failed fork returns the child's value 0 |
| NetBSD.SamplingFork | netbsd.c:40-53 | corrected: -1 exactly on fork failure or where the written code gives -1, 0 exactly in the child, and different from the written result exactly on fork failure |
| NetBSD.Millis32 | netbsd.c:65-68 | `sec * 1000 + usec / 1000` in 32-bit unsigned arithmetic |
| NetBSD.Millis32Exact | netbsd.c:65-68 | below about 49 days nothing wraps and the seconds come back out |
| NetBSD.GetSample | netbsd.c:55-79 | success exactly with one record, record untouched otherwise; CPU in 32-bit milliseconds; vsize from `msize` on NetBSD 5 and later, from text+data+stack before; rss from pages |
| Limits.NetBSDMemLimitAgrees | netbsd.c:96-105 | on NetBSD 5 and later, without wrap-around, the native limit admits an address space of whole kilobytes exactly when the polled test `max_vsize > maxkbytes` accepts it |
| SunOS5.InitMachdepDecidesSampling | sunos5.c:41-51 | after `init_machdep` succeeds a sample succeeds exactly when both reads return data; after it fails, with either descriptor -1, no sample succeeds and the record is untouched |
| SunOS5.GetSample | sunos5.c:53-80 | success exactly when both reads succeed, record untouched otherwise; sizes copied; CPU times split back into seconds and milliseconds |
| Machdep.ElapsedModulo | sunos5.c:82-95 | the 32-bit clock still measures intervals below 2^32 ms exactly, if differences are taken modulo 2^32 |
| Limits.SunOS5MemLimitAgrees | sunos5.c:97-103 | without wrap-around, the virtual-memory limit admits a size of whole kilobytes exactly when the polled test accepts it |
| DragonFly.GetSample | dragonfly.c:60-76 | success exactly with one record, record untouched otherwise; microseconds, bytes and pages floored to milliseconds and kilobytes |
| DragonFly.SampleMonotone | dragonfly.c:69-73 | counters that have not shrunk never give a smaller sample |
| Limits.DragonFlyMemLimitAgrees | dragonfly.c:93-100 | without wrap-around, the native limit admits an address space of whole kilobytes exactly when the polled test accepts it |
| Monitor.SpawnFrom | memtime.c:204-226 | -1 gives up, 0 execs with the native limits (`maxkbytes * 1024` reduced to an `unsigned long`, `maxseconds`) exactly when set and supported, a pid is supervised |
| Limits.MemLimitBytes | memtime.c:211-212 | without wrap-around the byte count handed to `set_mem_limit` is exactly `maxkbytes * 1024` |
| Monitor.EachLimitOneWay | memtime.c:210-281 | each limit goes to at most one path, the child's `setrlimit` or polling; a memory limit above 0 and a CPU limit whose milliseconds do not wrap to 0 go to exactly one; without native CPU limits, a CPU limit whose milliseconds wrap to 0 goes to neither |
| Monitor.HugeMemoryLimitWrapsToZero | memtime.c:211-212 | `-m 2^54` asks the kernel for a limit of 0 bytes |
| Monitor.Count | memtime.c:241-247 | with interval 0 the counter stands still; otherwise it stays below the period, and resets and reports exactly when it reaches it |
| Monitor.Step | memtime.c:235-282 | maxima are bounds attained by the old maximum or the sample; a report exactly when pending or due, with the sample's figures and the elapsed time; `print_stats` cleared; abort exactly on a non-EINTR failure; leaves exactly on reaping; SIGKILL exactly when a polled limit is exceeded |
| Monitor.ZeroLimitsNeverKill | memtime.c:272-281 | a zero memory or CPU limit never kills |
| Monitor.MemoryKillIsSticky | memtime.c:273-275 | once the running maximum exceeds the polled memory limit, every later pass kills again |
| Monitor.HugeCpuLimitDisablesPolling | memtime.c:278-280 | `-c 2^61` wraps the millisecond limit to 0, and polling never kills |
| Monitor.Run | memtime.c:235-282 | the loop stops exactly at the first pass that reaps or aborts; earlier passes did neither |
| Monitor.RunMaxima | memtime.c:238-239 | after any run, each maximum is at least its start and every sample taken, and equals its start or some sample |
| Monitor.StepCounter | memtime.c:241-247 | one pass either reports and resets or advances the counter by one |
| Monitor.RunCounter | memtime.c:241-260 | the counter stays below the period, and reports times the period plus the counter grow by one per pass |
| Monitor.RunReportCount | memtime.c:241-247 | from the start, `n` passes print between `n / period` rounded down and fewer than one more periodic report |
| Monitor.RunWithoutInterval | memtime.c:241-249 | with interval 0 and no SIGPROF, nothing is ever reported and the counter never moves |
| Monitor.Deliver | memtime.c:105-112 | a signal between passes does what the handler as written does, chaining to `SIG_IGN` included; only SIGPROF raises `print_stats`, nothing else in the loop changes |
| Monitor.ProfilingForcesReport | memtime.c:109 | after SIGPROF the next pass reports, and the pass after reports only if due |
| Monitor.Finish | memtime.c:299-310 | the summary carries the child's status and usage, maxima covering the last sample, and the elapsed time |
| Monitor.FinalUpdateIdempotent | memtime.c:300-301 | the update after the loop leaves the maxima unchanged |
| Monitor.Terminate | memtime.c:313-325 | exit with the code after a normal exit; re-raise exactly the eight listed signals; abort on any other |
| Monitor.Observed | memtime.c:313-325 | memtime's own parent sees an exit exactly after `exit`, and a signal other than SIGABRT only when it was re-raised |
| Monitor.ExitMirrorsChild | memtime.c:286-325 | after install and restore, memtime ends with the child's exit code, or its signal when that one is re-raised and its disposition is the default |
| Monitor.OtherSignalsAbort | memtime.c:316-324 | any other signal ends memtime with SIGABRT |

## Left out

- Process creation: `fork`, `execvp` and the failure messages are left out. Their results are inputs (`Fork`, the `int` handed to `Monitor.SpawnFrom`).
- The Mach port handshake (darwin9.c:16-72) is left out. Its steps are reduced to whether each succeeded.
- Minix privilege dropping in the child (minix.c:85-96) is left out; the child only calls exec afterwards.
- Kernel and file reads are inputs, not modelled calls: `read`, `pread`, `lseek`, `kvm_*`, `getsysinfo`, `task_info`. Darwin's unchecked `task_info` result is taken as a valid record.
- Timing and asynchronous delivery are left out: `usleep`, `kill`, `raise` and `abort` are recorded as actions. Signals arrive only between passes (`Monitor.Deliver`); one arriving during a pass is not modelled.
- Floating point is left out: the `%.2f` report lines and the `double` conversion of the child's usage. Reports carry integer milliseconds.
- Machdep.NinetyFivePercent: the soft limit `(long int)maxbytes * 0.95`, computed in `double` by the Darwin and Linux backends, is modelled as the exact product truncated toward zero. Rounding in `double` can differ from it above 2^53.
- Monitor.EachLimitOneWay: states which path each limit is assigned to, not that it takes effect. `-c 2^61` without native CPU limits is enforced neither way (`Monitor.HugeCpuLimitDisablesPolling`). `-m -1` on Darwin or Linux is handed to `setrlimit`, which refuses it, and is not polled (`Limits.NegativeMemoryLimitRefused`).
- Limits.CpuLimitAgrees: compares the thresholds only. The kernel counts user plus system time against the limit, while the polled test looks at user time alone.
- machdep.h is not part of this model. The backend prototypes are taken from the backend files, and `CAN_USE_RLIMIT_VSIZE`/`CAN_USE_RLIMIT_CPU` are the booleans of `Monitor.Caps`.
- Darwin9.CorrectedVsizeKb: `SHARED_TEXT_REGION_SIZE + SHARED_DATA_REGION_SIZE` comes from a system header. It is a parameter, not a constant.
- Minix.Wait4: requires `hz > 0`. A failed `getsysinfo_up` in `sampling_fork` would leave `sys_hz` at 0 and divide by zero. `Minix.TicksToTimeVal`, `Minix.Convert` and `Minix.GetSample` carry the same precondition.
- Linux.GetSample: a stat line missing the expected blanks or numbers makes the C code use a null pointer or uninitialised variables. That case, and a 2048-byte read, give `Undefined` rather than a particular outcome.
- Linux.StatLineRoundTrip: requires fields without blanks. A command name containing blanks (field 2 in parentheses) shifts every later field, exactly as in the C scanner.
- NetBSD.GetSample: the page products `pages * pagesize` are not reduced to a C width. On NetBSD they are computed in 64-bit types and cannot wrap for real page counts.
- DragonFly.GetSample: the page product `rssize * pagesize` is not reduced to a C width, for the same reason.
- Machdep.ForkThenOpen: when the parent cannot open the stat file, `main` exits and leaves the already-forked child running. That child is not part of the model. The same holds for DragonFly and NetBSD when `kvm_openfiles` fails.
- Monitor.Step: the effect of `kill` (the child dying) appears only through later `wait4` results in the inputs.
- `Monitor.Run` is written for LP64 platforms: the report counter and the limits use 64-bit `unsigned long`. The 32-bit Minix build would reduce them modulo 2^32.

## Findings

| source | as written | input that shows it | evidently intended | confidence | as-written member | corrected member |
|---|---|---|---|---|---|---|
| memtime.c:61-62 | the previous handler is called when it is not `NULL` and not the handler itself; `SIG_IGN` passes that test | memtime started with SIGINT ignored (as a shell does for background jobs, or `nohup` for SIGHUP) receives SIGINT: after forwarding it, the handler jumps to the address `SIG_IGN` | chain only to a real handler function | high; not executed | SignalRelay.HandleAsWritten, SignalRelay.AsWrittenChainsToIgnore | SignalRelay.Handle |
| netbsd.c:45-47 | a failed `fork` returns 0, the child's value | `fork` fails (process limit reached): `main` takes the child branch and `execvp`s the command in place of the monitor | return -1, as the other backends do | high; not executed | NetBSD.SamplingForkAsWritten, NetBSD.AsWrittenForkFailureLooksLikeChild | NetBSD.SamplingFork |
| linux.c:84-85 | CPU ticks are multiplied by `1000 / CLOCKS_PER_SEC`, which is 0 because `CLOCKS_PER_SEC` is 1000000 | any stat line, e.g. `utime` 250 at 100 ticks per second: reported as 0 ms instead of 2500 ms | multiply by `1000 / HZ`, the kernel's clock-tick rate | high; not executed | Linux.GetSampleAsWritten, Linux.AsWrittenLosesCpuTime | Linux.GetSample |
