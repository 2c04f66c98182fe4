/**
 The bounded-liveness promise of the driver contract: a receiver that produces no frame, by silence,
 junk, corrupt samples or read errors in any mix, makes the stream give up within a computable time;
 and exactly when the stall timeout lets that happen for a silent one.
 */
module BoundedLiveness {
  import opened Wrappers
  import opened StreamParsing
  import opened BatchDecoding
  import opened SimulatedReceiver
  import opened StreamLoop

  /** Each iteration reaches its recovery within `latency` of the end of the one before, and a
      recovery takes at most `repair`. */
  predicate Timely(fmt: Format, timeout: real, run: Run, ticks: seq<Tick>, latency: real, repair: real)
    requires fmt.Valid() && run.loop.parser.Valid(fmt)
    decreases |ticks|
  {
    ticks == [] || !run.loop.running ||
    (var t := ticks[0].times;
     && t.Follows(run.now) && t.recover - run.now <= latency && t.after - t.recover <= repair
     && Timely(fmt, timeout, Advance(fmt, timeout, run, ticks[0]), ticks[1..], latency, repair))
  }

  /** The iteration is ended from outside: by the operator, or by the receiver saying that it stopped. */
  predicate Stops(fmt: Format, loop: Loop, tick: Tick)
    requires fmt.Valid() && loop.parser.Valid(fmt)
  {
    tick.stop ||
    (tick.read.Got? &&
     var o := Decode(fmt, loop.parser, tick.read.bytes);
     o.fault.None? && SaysStopped(o.items))
  }

  predicate NobodyStops(fmt: Format, timeout: real, run: Run, ticks: seq<Tick>)
    requires fmt.Valid() && run.loop.parser.Valid(fmt)
    decreases |ticks|
  {
    ticks == [] || !run.loop.running ||
    (!Stops(fmt, run.loop, ticks[0]) && NobodyStops(fmt, timeout, Advance(fmt, timeout, run, ticks[0]), ticks[1..]))
  }

  /** A stretch without frames: `base` recoveries came before it, it began with a frame at `since`, and
      these are the stall timeout and the latencies during it. */
  datatype Stretch = Stretch(base: nat, since: real, timeout: real, latency: real, repair: real) {
    /** From one recovery to the next demand. */
    function Span(): real { timeout + latency + repair }

    function Spans(k: int): real {
      if k <= 0 then 0.0 else if k == 1 then Span() else if k == 2 then Span() + Span() else Span() + Span() + Span()
    }

    predicate Fits() {
      timeout >= 0.0 && latency >= 0.0 && repair >= 0.0 && Spans(3) <= RESET_WINDOW
    }
  }

  lemma {:induction false} FramesOnlyGrow(fmt: Format, timeout: real, run: Run, ticks: seq<Tick>)
    requires fmt.Valid() && run.loop.parser.Valid(fmt)
    ensures |run.frames| <= |Stream(fmt, timeout, run, ticks).frames|
    decreases |ticks|
  {
    if ticks != [] && run.loop.running {
      FramesOnlyGrow(fmt, timeout, Advance(fmt, timeout, run, ticks[0]), ticks[1..]);
    }
  }

  /** Where a frameless stretch stands after some iterations. */
  predicate Waiting(run: Run, st: Stretch) {
    var k := |run.recoveries| - st.base;
    && 0 <= k <= RESET_BUDGET
    && run.loop.lastFrame <= st.since + st.Spans(k)
    && run.loop.lastFrame <= run.now <= run.loop.lastFrame + st.timeout
    && InDeque(run.loop.resets, run.recoveries, st.base)
    && (k > 0 ==>
      && run.loop.lastFrame <= run.recoveries[|run.recoveries| - 1] + st.repair
      && run.recoveries[|run.recoveries| - 1] - run.recoveries[st.base] <= st.Spans(k - 1))
  }

  /** The recoveries from `base` on are all in the deque. */
  predicate InDeque(resets: seq<real>, recoveries: seq<real>, base: nat) {
    && base <= |recoveries|
    && |resets| >= |recoveries| - base
    && resets[|resets| - (|recoveries| - base)..] == recoveries[base..]
  }

  /** The escalation happened, and in time. */
  predicate Escalated(run: Run, st: Stretch) {
    && run.fatal.Some? && !run.loop.running
    && run.fatal.value <= st.since + st.Spans(3) + st.timeout + st.latency
    && |run.recoveries| <= st.base + RESET_BUDGET
  }

  /** At the next demand the recoveries of the stretch are all still in the window. */
  lemma NoneOfTheStretchExpires(run: Run, st: Stretch, now: real)
    requires Waiting(run, st) && st.Fits() && now - run.now <= st.latency
    ensures Expired(run.loop.resets, now) <= |run.loop.resets| - (|run.recoveries| - st.base)
    ensures |run.recoveries| > st.base ==> now - run.recoveries[st.base] <= st.Spans(|run.recoveries| - st.base)
  {
    var resets, recs, k := run.loop.resets, run.recoveries, |run.recoveries| - st.base;
    if k > 0 {
      assert resets[|resets| - k] == resets[|resets| - k..][0] == recs[st.base];
      assert now <= recs[|recs| - 1] + st.Span();
      assert st.Spans(k) == st.Span() + st.Spans(k - 1);
    }
  }

  lemma DequeGrows(resets: seq<real>, recoveries: seq<real>, base: nat, e: nat, now: real)
    requires InDeque(resets, recoveries, base) && e <= |resets| - (|recoveries| - base)
    ensures InDeque(resets[e..] + [now], recoveries + [now], base)
  {
    var kept, k := resets[e..], |recoveries| - base;
    assert kept[|kept| - k..] == resets[|resets| - k..];
    assert (kept + [now])[|kept| - k..] == kept[|kept| - k..] + [now];
    assert (recoveries + [now])[base..] == recoveries[base..] + [now];
  }

  /** A recovery demanded in a frameless stretch: the next one of at most three, or the escalation. */
  lemma DemandWhileWaiting(run: Run, loop: Loop, t: Times, st: Stretch)
    requires Waiting(run, st) && st.Fits() && run.fatal.None?
    requires loop.resets == run.loop.resets && loop.running
    requires t.Follows(run.now) && t.recover - run.now <= st.latency && t.after - t.recover <= st.repair
    ensures var r := Logged(run, Recovered(loop, t, []), t);
      if r.loop.running then Waiting(r, st) && r.fatal.None? else Escalated(r, st)
  {
    NoneOfTheStretchExpires(run, st, t.recover);
    var e := Expired(run.loop.resets, t.recover);
    var r := Logged(run, Recovered(loop, t, []), t);
    RecoveredLogged(run, loop, t);
    hide Expired, Recovered, Logged, InDeque;
    if |run.loop.resets| - e < RESET_BUDGET {
      RecoveryWhileWaiting(run, r, t, st, e);
    } else {
      SpansGrow(st, |run.recoveries| - st.base);
    }
  }

  /** A frameless recovery in the log. */
  lemma RecoveredLogged(run: Run, loop: Loop, t: Times)
    requires loop.resets == run.loop.resets && loop.running && run.fatal.None?
    ensures var r := Logged(run, Recovered(loop, t, []), t);
      var e := Expired(run.loop.resets, t.recover);
      if |run.loop.resets| - e < RESET_BUDGET then
        && r.loop.running && r.fatal.None?
        && r.recoveries == run.recoveries + [t.recover] && r.loop.resets == run.loop.resets[e..] + [t.recover]
        && r.loop.lastFrame == r.now == t.after
      else r.fatal == Some(t.recover) && r.recoveries == run.recoveries && !r.loop.running
  {
    hide Expired;
  }

  lemma SpansGrow(st: Stretch, k: int)
    requires st.Fits() && k <= 3
    ensures st.Spans(k) <= st.Spans(3)
  {
  }

  lemma RecoveryWhileWaiting(run: Run, r: Run, t: Times, st: Stretch, e: nat)
    requires Waiting(run, st) && st.Fits()
    requires t.Follows(run.now) && t.recover - run.now <= st.latency && t.after - t.recover <= st.repair
    requires e <= |run.loop.resets| - (|run.recoveries| - st.base) && |run.loop.resets| - e < RESET_BUDGET
    requires |run.recoveries| > st.base ==> t.recover - run.recoveries[st.base] <= st.Spans(|run.recoveries| - st.base)
    requires r.recoveries == run.recoveries + [t.recover] && r.loop.resets == run.loop.resets[e..] + [t.recover]
    requires r.loop.lastFrame == r.now == t.after
    ensures Waiting(r, st)
  {
    DequeGrows(run.loop.resets, run.recoveries, st.base, e, t.recover);
    hide InDeque;
    var k := |run.recoveries| - st.base;
    assert st.Spans(k + 1) == st.Spans(k) + st.Span();
    assert k > 0 ==> r.recoveries[st.base] == run.recoveries[st.base];
  }

  lemma AdvanceWhileWaiting(fmt: Format, run: Run, tick: Tick, st: Stretch)
    requires fmt.Valid() && run.loop.parser.Valid(fmt) && run.loop.running && run.fatal.None?
    requires Waiting(run, st) && st.Fits()
    requires var t := tick.times;
      t.Follows(run.now) && t.recover - run.now <= st.latency && t.after - t.recover <= st.repair
    requires LoopStep(fmt, st.timeout, run.loop, tick).frames == [] && !Stops(fmt, run.loop, tick)
    ensures var r := Advance(fmt, st.timeout, run, tick);
      if r.loop.running then Waiting(r, st) && r.fatal.None? else Escalated(r, st)
  {
    hide LoopStep, Recovered, Waiting, Escalated;
    var s := LoopStep(fmt, st.timeout, run.loop, tick);
    if s.move.Stay? {
      StayLogged(fmt, run, tick, st);
      JustLater(run, Advance(fmt, st.timeout, run, tick), st);
    } else {
      var asking, frames := Demand(fmt, st.timeout, run.loop, tick);
      FramesOfDemand(asking, tick.times, frames);
      DemandWhileWaiting(run, asking, tick.times, st);
    }
  }

  lemma FramesOfDemand(loop: Loop, t: Times, frames: seq<seq<nat>>)
    ensures Recovered(loop, t, frames).frames == frames
  {
    hide Expired;
  }

  /** An iteration without frame and recovery moves only the clock, and not past the timeout. */
  lemma StayLogged(fmt: Format, run: Run, tick: Tick, st: Stretch)
    requires fmt.Valid() && run.loop.parser.Valid(fmt) && run.fatal.None?
    requires var s := LoopStep(fmt, st.timeout, run.loop, tick); s.move.Stay? && s.frames == []
    requires !Stops(fmt, run.loop, tick)
    ensures var r := Advance(fmt, st.timeout, run, tick);
      && r.loop.running && r.fatal.None? && r.now == tick.times.check && r.recoveries == run.recoveries
      && r.loop.resets == run.loop.resets && r.loop.lastFrame == run.loop.lastFrame
      && r.now <= r.loop.lastFrame + st.timeout
  {
    hide Decode, SweepsOf, SaysStopped, Expired;
  }

  lemma JustLater(run: Run, r: Run, st: Stretch)
    requires Waiting(run, st) && run.now <= r.now <= r.loop.lastFrame + st.timeout
    requires r.recoveries == run.recoveries
    requires r.loop.resets == run.loop.resets && r.loop.lastFrame == run.loop.lastFrame
    ensures Waiting(r, st)
  {
    hide InDeque;
  }

  /** A stream that has ended stays as it is. */
  lemma EndedStays(fmt: Format, timeout: real, run: Run, ticks: seq<Tick>)
    requires fmt.Valid() && run.loop.parser.Valid(fmt) && !run.loop.running
    ensures Stream(fmt, timeout, run, ticks) == run
  {
  }

  /** How a frameless stretch that nobody stops can stand: still waiting and not yet long, or given up. */
  predicate WaitingOrEscalated(run: Run, st: Stretch) {
    && |run.recoveries| <= st.base + RESET_BUDGET
    && if run.loop.running then run.now <= st.since + st.Spans(3) + st.timeout else Escalated(run, st)
  }

  /**
   Bounded liveness: if three times the stall timeout plus the latencies fit in the window, a stretch
   without frames leads to at most three recoveries, and, unless someone stops the stream, to giving up
   within the bound.
   */
  lemma {:induction false} EscalatesInTime(fmt: Format, run: Run, ticks: seq<Tick>, st: Stretch)
    requires fmt.Valid() && run.loop.parser.Valid(fmt) && run.loop.running && run.fatal.None?
    requires Waiting(run, st) && st.Fits()
    requires Timely(fmt, st.timeout, run, ticks, st.latency, st.repair) && NobodyStops(fmt, st.timeout, run, ticks)
    requires Stream(fmt, st.timeout, run, ticks).frames == run.frames
    ensures WaitingOrEscalated(Stream(fmt, st.timeout, run, ticks), st)
    decreases |ticks|
  {
    if ticks != [] {
      var next := Advance(fmt, st.timeout, run, ticks[0]);
      NoFrameInFirst(fmt, st.timeout, run, ticks);
      AdvanceWhileWaiting(fmt, run, ticks[0], st);
      if next.loop.running {
        EscalatesInTime(fmt, next, ticks[1..], st);
      } else {
        EndedStays(fmt, st.timeout, next, ticks[1..]);
      }
    }
  }

  lemma NoFrameInFirst(fmt: Format, timeout: real, run: Run, ticks: seq<Tick>)
    requires fmt.Valid() && run.loop.parser.Valid(fmt) && run.loop.running && ticks != []
    requires Stream(fmt, timeout, run, ticks).frames == run.frames
    ensures LoopStep(fmt, timeout, run.loop, ticks[0]).frames == []
    ensures Advance(fmt, timeout, run, ticks[0]).frames == run.frames
  {
    FramesOnlyGrow(fmt, timeout, Advance(fmt, timeout, run, ticks[0]), ticks[1..]);
    assert run.frames + [] == run.frames;
  }

  /** The same from the start of a stream: a receiver that never produces a frame. */
  lemma MuteReceiverIsFatal(
    fmt: Format, sweepsPerSecond: real, start: real, ticks: seq<Tick>, latency: real, repair: real)
    requires fmt.Valid() && latency >= 0.0 && repair >= 0.0
    requires var timeout := NoDataTimeout(sweepsPerSecond);
      && 3.0 * (timeout + latency + repair) <= RESET_WINDOW
      && Timely(fmt, timeout, Begin(start), ticks, latency, repair)
      && NobodyStops(fmt, timeout, Begin(start), ticks)
      && Stream(fmt, timeout, Begin(start), ticks).frames == []
    ensures var timeout := NoDataTimeout(sweepsPerSecond);
      var r := Stream(fmt, timeout, Begin(start), ticks);
      && (r.now > start + 3.0 * (timeout + latency + repair) + timeout ==> r.fatal.Some?)
      && (r.fatal.Some? ==> r.fatal.value <= start + 3.0 * (timeout + latency + repair) + timeout + latency)
      && |r.recoveries| <= 3
  {
    var timeout := NoDataTimeout(sweepsPerSecond);
    var st := Stretch(0, start, timeout, latency, repair);
    assert st.Spans(3) == 3.0 * (timeout + latency + repair);
    EscalatesInTime(fmt, Begin(start), ticks, st);
    var r := Stream(fmt, timeout, Begin(start), ticks);
    RunningIsNotFatal(fmt, timeout, Begin(start), ticks);
  }

  lemma {:induction false} RunningIsNotFatal(fmt: Format, timeout: real, run: Run, ticks: seq<Tick>)
    requires fmt.Valid() && run.loop.parser.Valid(fmt) && (run.loop.running ==> run.fatal.None?)
    ensures var r := Stream(fmt, timeout, run, ticks); r.loop.running ==> r.fatal.None?
    decreases |ticks|
  {
    if ticks != [] && run.loop.running {
      RunningIsNotFatal(fmt, timeout, Advance(fmt, timeout, run, ticks[0]), ticks[1..]);
    }
  }

  // ---- A silent receiver and the window ----

  predicate Silent(ticks: seq<Tick>) {
    forall i :: 0 <= i < |ticks| ==> ticks[i].read == Got("") && !ticks[i].stop
  }

  /** Resets more than 20 s apart, and the last of them not after the last sign of life. */
  predicate Spaced(loop: Loop) {
    && (forall i :: 0 <= i < |loop.resets| - 1 ==> loop.resets[i + 1] - loop.resets[i] > 20.0)
    && (loop.resets != [] ==> loop.resets[|loop.resets| - 1] <= loop.lastFrame)
    && |loop.resets| <= RESET_BUDGET
  }

  lemma SilentDemandIsSpaced(loop: Loop, t: Times)
    requires Spaced(loop) && loop.running && t.recover - loop.lastFrame > 20.0 && t.recover <= t.after
    ensures var s := Recovered(loop, t, []); !s.move.GiveUp? && !s.move.Stay? && Spaced(s.loop) && s.loop.running
  {
    hide Expired;
    var resets := loop.resets;
    var e := Expired(resets, t.recover);
    if |resets| == RESET_BUDGET {
      assert resets[1] - resets[0] > 20.0 && resets[2] - resets[1] > 20.0;
      assert e >= 1;
    }
    var kept := resets[e..];
    var next := kept + [t.recover];
    forall i | 0 <= i < |next| - 1
      ensures next[i + 1] - next[i] > 20.0
    {
      if i + 1 < |kept| {
        assert next[i + 1] == resets[e + i + 1] && next[i] == resets[e + i];
      } else {
        assert next[i] == resets[|resets| - 1];
      }
    }
  }

  /** With a stall timeout of 20 s or more, silence alone never leads to giving up: the resets never fill the window. */
  lemma {:induction false} SilenceNeverFatal(fmt: Format, timeout: real, run: Run, ticks: seq<Tick>)
    requires fmt.Valid() && run.loop.parser.Valid(fmt) && timeout >= 20.0
    requires Silent(ticks) && Clocked(fmt, timeout, run, ticks)
    requires run.loop.running && run.fatal.None? && Spaced(run.loop)
    ensures var r := Stream(fmt, timeout, run, ticks); r.loop.running && r.fatal.None?
    decreases |ticks|
  {
    if ticks != [] {
      var t := ticks[0].times;
      assert ticks[0].read == Got("") && !ticks[0].stop;
      assert LoopStep(fmt, timeout, run.loop, ticks[0])
        == if t.check - run.loop.lastFrame > timeout then Recovered(run.loop, t, []) else Step(run.loop, [], Stay);
      if t.check - run.loop.lastFrame > timeout {
        SilentDemandIsSpaced(run.loop, t);
      }
      SilenceNeverFatal(fmt, timeout, Advance(fmt, timeout, run, ticks[0]), ticks[1..]);
    }
  }

  /** A silent tick, `n` times 20 s after the start. */
  function SilentTick(start: real, n: nat): Tick {
    var now := start + 20.0 * n as real;
    Tick(Got(""), false, Times(now, now, now, now))
  }

  /** The silent ticks from number `n` on, four in all. */
  function SilentTicks(start: real, n: nat): (ticks: seq<Tick>)
    requires 1 <= n <= RESET_BUDGET + 2
    ensures Silent(ticks)
    decreases RESET_BUDGET + 2 - n
  {
    if n == RESET_BUDGET + 2 then [] else [SilentTick(start, n)] + SilentTicks(start, n + 1)
  }

  function SilentResets(start: real, n: nat): (resets: seq<real>)
    ensures |resets| == n && forall i :: 0 <= i < n ==> resets[i] == start + 20.0 * (i + 1) as real
  {
    seq(n, i => start + 20.0 * (i + 1) as real)
  }

  /** A stall timeout below 20 s, and a demand every 20 s: the fourth falls into the window of the first. */
  lemma {:induction false} SilentDemands(fmt: Format, timeout: real, start: real, run: Run, n: nat)
    requires fmt.Valid() && run.loop.parser.Valid(fmt) && timeout < 20.0 && n <= RESET_BUDGET
    requires run.loop.running && run.fatal.None? && run.loop.lastFrame == run.now == start + 20.0 * n as real
    requires run.loop.resets == SilentResets(start, n)
    ensures var ticks := SilentTicks(start, n + 1);
      Clocked(fmt, timeout, run, ticks) && Stream(fmt, timeout, run, ticks).fatal.Some?
    decreases RESET_BUDGET - n
  {
    var tick, ticks := SilentTick(start, n + 1), SilentTicks(start, n + 1);
    assert ticks[0] == tick && ticks[1..] == SilentTicks(start, n + 2);
    SilentAdvance(fmt, timeout, start, run, n);
    hide Advance, SilentResets;
    var next := Advance(fmt, timeout, run, tick);
    if n < RESET_BUDGET {
      SilentDemands(fmt, timeout, start, next, n + 1);
    } else {
      EndedStays(fmt, timeout, next, ticks[1..]);
    }
  }

  /** One silent tick: a recovery that keeps all resets, or the end. */
  lemma SilentAdvance(fmt: Format, timeout: real, start: real, run: Run, n: nat)
    requires fmt.Valid() && run.loop.parser.Valid(fmt) && timeout < 20.0 && n <= RESET_BUDGET
    requires run.loop.running && run.fatal.None? && run.loop.lastFrame == run.now == start + 20.0 * n as real
    requires run.loop.resets == SilentResets(start, n)
    ensures var next := Advance(fmt, timeout, run, SilentTick(start, n + 1));
      if n < RESET_BUDGET then
        && next.loop.running && next.fatal.None?
        && next.loop.lastFrame == next.now == start + 20.0 * (n + 1) as real
        && next.loop.resets == SilentResets(start, n + 1)
      else !next.loop.running && next.fatal.Some?
  {
    var tick := SilentTick(start, n + 1);
    SilentStep(fmt, timeout, run.loop, tick);
    hide LoopStep, Expired;
    assert Expired(run.loop.resets, tick.times.recover) == 0;
    assert run.loop.resets[0..] == run.loop.resets;
    assert SilentResets(start, n) + [tick.times.recover] == SilentResets(start, n + 1);
  }

  lemma SilentStep(fmt: Format, timeout: real, loop: Loop, tick: Tick)
    requires fmt.Valid() && loop.parser.Valid(fmt) && loop.running
    requires tick.read == Got("") && !tick.stop && tick.times.check - loop.lastFrame > timeout
    ensures LoopStep(fmt, timeout, loop, tick) == Recovered(loop, tick.times, [])
  {
    hide Expired;
  }

  /** Some silent run, its clock never running backwards, leads to giving up. */
  ghost predicate SilenceCanBeFatal(fmt: Format, timeout: real, start: real)
    requires fmt.Valid()
  {
    exists ticks: seq<Tick> ::
      && Silent(ticks) && Clocked(fmt, timeout, Begin(start), ticks)
      && Stream(fmt, timeout, Begin(start), ticks).fatal.Some?
  }

  /** Silence alone can lead to giving up exactly when the stall timeout is below 20 s. */
  lemma SilenceIsFatalExactlyBelowTwentySeconds(fmt: Format, timeout: real, start: real)
    requires fmt.Valid()
    ensures SilenceCanBeFatal(fmt, timeout, start) <==> timeout < 20.0
  {
    if timeout < 20.0 {
      assert SilentResets(start, 0) == [];
      SilentDemands(fmt, timeout, start, Begin(start), 0);
      assert Silent(SilentTicks(start, 1));
    } else {
      forall ticks: seq<Tick> | Silent(ticks) && Clocked(fmt, timeout, Begin(start), ticks)
        ensures Stream(fmt, timeout, Begin(start), ticks).fatal.None?
      {
        SilenceNeverFatal(fmt, timeout, Begin(start), ticks);
      }
    }
  }

  lemma TimeoutBelowTwentySeconds(sweepsPerSecond: real)
    ensures NoDataTimeout(sweepsPerSecond) < 20.0 <==> sweepsPerSecond > 0.25
  {
    var rate := Max(sweepsPerSecond, 0.1);
    var wait := STALL_SWEEPS / rate;
    assert wait * rate == 5.0;
    assert wait >= 20.0 ==> wait * rate >= 20.0 * rate;
    assert wait < 20.0 ==> wait * rate < 20.0 * rate;
  }

  /** A silent receiver can be given up exactly at more than a quarter of a sweep per second. */
  lemma EscalationNeedsMoreThanAQuarterHertz(fmt: Format, sweepsPerSecond: real, start: real)
    requires fmt.Valid()
    ensures SilenceCanBeFatal(fmt, NoDataTimeout(sweepsPerSecond), start) <==> sweepsPerSecond > 0.25
  {
    TimeoutBelowTwentySeconds(sweepsPerSecond);
    SilenceIsFatalExactlyBelowTwentySeconds(fmt, NoDataTimeout(sweepsPerSecond), start);
  }
}
