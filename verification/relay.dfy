/** The signal relay of memtime.c: the six handlers `handle_sigint` …
    `handle_sigprof`, the `*_prev` variables that remember what they
    replaced, and the restoring of those after the loop. */
module SignalRelay {
  import opened Optional

  /** The signals the monitor mentions by name; the numbers differ between
      platforms, so they are kept symbolic. */
  datatype Sig = HUP | INT | PIPE | ALRM | TERM | USR1 | USR2 | KILL | PROF | ABRT | Other(number: nat)

  /** The signals relayed to the child. */
  const Forwarded: set<Sig> := {INT, TERM, HUP, USR1, USR2}

  /** The signals memtime installs a handler for: the relayed ones and
      SIGPROF, which asks for a report instead. */
  const Intercepted: set<Sig> := Forwarded + {PROF}

  /** A signal disposition as `signal` returns it: `SIG_DFL` (the null
      pointer), `SIG_IGN` (a non-null constant that is not a function), a
      handler function someone else installed, or memtime's own handler for
      the named signal. */
  datatype Handler = Default | Ignore | Function(id: nat) | Memtime(sig: Sig)

  /** The process's dispositions; a signal not in the map has `SIG_DFL`. */
  type Dispositions = map<Sig, Handler>

  function Lookup(d: Dispositions, s: Sig): Handler {
    if s in d then d[s] else Default
  }

  /** A process image fresh from `exec` has only default or ignored
      dispositions: `exec` resets every caught signal. */
  predicate FreshFromExec(d: Dispositions) {
    forall s :: s in d ==> d[s] == Default || d[s] == Ignore
  }

  /** The six `signal` calls before the loop: the new dispositions, and the
      previous handlers kept in `sigint_prev` … `sigprof_prev`. */
  datatype Relay = Relay(now: Dispositions, saved: map<Sig, Handler>)

  function Install(d: Dispositions): (r: Relay)
    ensures r.saved.Keys == Intercepted
    ensures forall s :: s in Intercepted ==> Lookup(r.now, s) == Memtime(s) && r.saved[s] == Lookup(d, s)
    ensures forall s :: s !in Intercepted ==> Lookup(r.now, s) == Lookup(d, s)
  {
    Relay(d + map s | s in Intercepted :: Memtime(s), map s | s in Intercepted :: Lookup(d, s))
  }

  /** The six `signal` calls after the loop, putting the saved handlers
      back. */
  function Restore(r: Relay): (d: Dispositions)
    ensures forall s :: s in r.saved ==> Lookup(d, s) == r.saved[s]
    ensures forall s :: s !in r.saved ==> Lookup(d, s) == Lookup(r.now, s)
  {
    r.now + r.saved
  }

  /** After the loop every signal has exactly the disposition it had before
      the relay was installed: the relay leaves nothing behind. */
  lemma {:induction false} RestoreUndoesInstall(d: Dispositions)
    ensures forall s :: Lookup(Restore(Install(d)), s) == Lookup(d, s)
  {
    var r := Install(d);
    forall s
      ensures Lookup(Restore(r), s) == Lookup(d, s)
    {
      if s in Intercepted {
        assert s in r.saved;
      }
    }
  }

  /** What a handler does when its signal arrives: possibly `kill(kid, sig)`,
      possibly raise `print_stats`, possibly call the previous handler. */
  datatype Delivery = Delivery(killChild: Option<(int, Sig)>, setPrintStats: bool, chain: Option<Handler>)

  /** The common part of all six handlers; `chain` is the previous handler
      to call, if any. */
  function Act(kid: int, s: Sig, chain: Option<Handler>): Delivery {
    if s == PROF then Delivery(None, true, chain)
    else Delivery(if kid != 0 then Some((kid, s)) else None, false, chain)
  }

  function Previous(saved: map<Sig, Handler>, s: Sig): Handler {
    if s in saved then saved[s] else Default
  }

  /** The handlers as written: the previous handler is called when it is not
      the null pointer and not the handler itself. `SIG_IGN` passes that
      test, so it is "called" although it is not a function. */
  function HandleAsWritten(kid: int, saved: map<Sig, Handler>, s: Sig): (r: Option<Delivery>)
    ensures r.None? <==> s !in Intercepted
    ensures r.Some? ==> (r.value.chain.Some? <==> Previous(saved, s) != Default && Previous(saved, s) != Memtime(s))
    ensures r.Some? && r.value.chain.Some? ==> r.value.chain.value == Previous(saved, s)
    ensures r.Some? && s in Forwarded ==>
      && !r.value.setPrintStats
      && (r.value.killChild.Some? <==> kid != 0)
      && (r.value.killChild.Some? ==> r.value.killChild.value == (kid, s))
    ensures r.Some? && s == PROF ==> r.value.killChild.None? && r.value.setPrintStats
  {
    if s !in Intercepted then
      None
    else
      var prev := Previous(saved, s);
      Some(Act(kid, s, if prev != Default && prev != Memtime(s) then Some(prev) else None))
  }

  /** Started with a signal ignored (as `nohup` does for SIGHUP), the
      handler as written jumps to `SIG_IGN` after forwarding. With the
      dispositions a fresh process image can have, that is the only thing it
      ever chains to. */
  lemma {:induction false} AsWrittenChainsToIgnore(kid: int, d: Dispositions, s: Sig)
    requires FreshFromExec(d)
    requires s in Intercepted
    ensures HandleAsWritten(kid, Install(d).saved, s).value.chain.Some? <==> Lookup(d, s) == Ignore
    ensures Lookup(d, s) == Ignore ==> HandleAsWritten(kid, Install(d).saved, s).value.chain == Some(Ignore)
  {
  }

  /** The handlers as evidently intended: only a real handler function is
      chained to. */
  function Handle(kid: int, saved: map<Sig, Handler>, s: Sig): (r: Option<Delivery>)
    ensures r.None? <==> s !in Intercepted
    ensures r.Some? && r.value.chain.Some? ==> r.value.chain.value.Function?
    ensures r.Some? ==> (r.value.chain.Some? <==> Previous(saved, s).Function?)
    ensures r.Some? && s in Forwarded ==>
      && !r.value.setPrintStats
      && (r.value.killChild.Some? <==> kid != 0)
      && (r.value.killChild.Some? ==> r.value.killChild.value == (kid, s))
    ensures r.Some? && s == PROF ==> r.value.killChild.None? && r.value.setPrintStats
  {
    if s !in Intercepted then
      None
    else
      var prev := Previous(saved, s);
      Some(Act(kid, s, if prev.Function? then Some(prev) else None))
  }

  /** The two agree whenever the previous disposition is the default or a
      real function; they differ only on `SIG_IGN`. */
  lemma {:induction false} HandleAgreesExceptIgnore(kid: int, saved: map<Sig, Handler>, s: Sig)
    requires Previous(saved, s).Default? || Previous(saved, s).Function?
    ensures Handle(kid, saved, s) == HandleAsWritten(kid, saved, s)
  {
  }

  /** Relay round trip: a forwarded signal reaches the running child as the
      same signal, and a handler someone installed before memtime still runs
      afterwards. */
  lemma {:induction false} RelayRoundTrip(kid: int, d: Dispositions, s: Sig, f: nat)
    requires kid != 0
    requires s in Forwarded
    requires Lookup(d, s) == Function(f)
    ensures Handle(kid, Install(d).saved, s) == Some(Delivery(Some((kid, s)), false, Some(Function(f))))
  {
  }
}
