/**
 The streaming loop of the driver (drivers/callisto/driver.py, `stream` and `_recover`), against an
 arbitrary receiver: any read may fail or give any bytes, and the clock readings are any
 nondecreasing times. This is the specification that the driver class follows, and what it promises
 about whole runs: the reset budget and the bounded time to escalation.
 */
module StreamLoop {
  import opened Wrappers
  import opened StreamParsing
  import opened BatchDecoding
  import opened CallistoProtocol
  import opened SimulatedReceiver

  const RESET_WINDOW := 60.0
  const RESET_BUDGET: nat := 3
  const MIN_NO_DATA := 3.0
  const STALL_SWEEPS := 5.0

  function Max(a: real, b: real): real { if a < b then b else a }

  /** How long the loop waits for a frame. */
  function NoDataTimeout(sweepsPerSecond: real): (t: real)
    ensures t >= MIN_NO_DATA
  {
    Max(MIN_NO_DATA, STALL_SWEEPS / Max(sweepsPerSecond, 0.1))
  }

  /** Five sweeps of silence, but at least three seconds, and at most fifty however slow the receiver is. */
  lemma TimeoutIsFiveSweeps(rate: real)
    ensures var t := NoDataTimeout(rate);
      && (3.0 * rate >= 5.0 ==> t == 3.0)
      && (rate >= 0.1 && 3.0 * rate <= 5.0 ==> t * rate == 5.0)
      && (rate <= 0.1 ==> t == 50.0)
  {
    if rate > 0.1 {
      var wait := 5.0 / rate;
      assert wait * rate == 5.0;
      assert 3.0 * rate >= 5.0 ==> wait <= 3.0;
      assert 3.0 * rate <= 5.0 ==> wait >= 3.0;
    }
  }

  /** The clock readings of one iteration: at the last sweep of the chunk, at the stall check, on
      entry to the recovery, and after it. */
  datatype Times = Times(frame: real, check: real, recover: real, after: real) {
    predicate Follows(now: real) { now <= frame <= check <= recover <= after }
  }

  /** One iteration as its surroundings see it. `stop` is an operator's stop that arrives during it. */
  datatype Tick = Tick(read: Read, stop: bool, times: Times)

  /** What the iteration does to the port. */
  datatype Move = Stay | SoftReset | Reopen | GiveUp

  datatype Loop = Loop(running: bool, parser: State, resets: seq<real>, lastFrame: real)

  datatype Step = Step(loop: Loop, frames: seq<seq<nat>>, move: Move)

  /** How many of the oldest resets have left the window. */
  function Expired(resets: seq<real>, now: real): (k: nat)
    ensures k <= |resets|
    ensures forall i :: 0 <= i < k ==> now - resets[i] > RESET_WINDOW
    ensures k < |resets| ==> now - resets[k] <= RESET_WINDOW
  {
    if resets != [] && now - resets[0] > RESET_WINDOW then 1 + Expired(resets[1..], now) else 0
  }

  /** The recovery decision: give up past the budget, else reset softly first and reopen the port after that. */
  function Recovered(loop: Loop, t: Times, frames: seq<seq<nat>>): Step {
    var kept := loop.resets[Expired(loop.resets, t.recover)..];
    if |kept| >= RESET_BUDGET then Step(loop.(running := false, resets := kept), frames, GiveUp)
    else
      Step(Loop(loop.running, START, kept + [t.recover], t.after), frames, if |kept| >= 1 then Reopen else SoftReset)
  }

  predicate SaysStopped(items: seq<Item>) {
    exists i :: 0 <= i < |items| && items[i].Message? && Contains(items[i].text, "Stopped")
  }

  /** The part of the iteration after the chunk has been parsed without a fault. */
  function Accepted(timeout: real, loop: Loop, o: Outcome, stop: bool, t: Times): Step {
    var frames := SweepsOf(o.items);
    var last := if frames != [] then t.frame else loop.lastFrame;
    var next := Loop(!stop && !SaysStopped(o.items), o.state, loop.resets, last);
    if next.running && t.check - last > timeout then Recovered(next, t, frames) else Step(next, frames, Stay)
  }

  function LoopStep(fmt: Format, timeout: real, loop: Loop, tick: Tick): (s: Step)
    requires fmt.Valid() && loop.parser.Valid(fmt)
    ensures s.loop.parser.Valid(fmt)
  {
    match tick.read
    case Failed => Recovered(loop.(running := !tick.stop), tick.times, [])
    case Got(chunk) =>
      var o := Decode(fmt, loop.parser, chunk);
      if o.fault.Some? then Recovered(loop.(running := !tick.stop), tick.times, [])
      else Accepted(timeout, loop, o, tick.stop, tick.times)
  }

  /** A run so far: `now` is the last clock reading, `recoveries` the times of the recoveries and `moves` what each
      of them did, `fatal` the time at which the loop gave up. */
  datatype Run = Run(
    loop: Loop, now: real, frames: seq<seq<nat>>, recoveries: seq<real>, moves: seq<Move>, fatal: Option<real>)

  function Begin(now: real): Run {
    Run(Loop(true, START, [], now), now, [], [], [], None)
  }

  function Logged(run: Run, s: Step, t: Times): Run {
    match s.move
    case Stay => Run(s.loop, t.check, run.frames + s.frames, run.recoveries, run.moves, run.fatal)
    case GiveUp => Run(s.loop, t.after, run.frames + s.frames, run.recoveries, run.moves, Some(t.recover))
    case _ =>
      Run(s.loop, t.after, run.frames + s.frames, run.recoveries + [t.recover], run.moves + [s.move], run.fatal)
  }

  function Advance(fmt: Format, timeout: real, run: Run, tick: Tick): (r: Run)
    requires fmt.Valid() && run.loop.parser.Valid(fmt)
    ensures r.loop.parser.Valid(fmt)
  {
    Logged(run, LoopStep(fmt, timeout, run.loop, tick), tick.times)
  }

  /** The whole stream: iterations until it ends. */
  function Stream(fmt: Format, timeout: real, run: Run, ticks: seq<Tick>): (r: Run)
    requires fmt.Valid() && run.loop.parser.Valid(fmt)
    ensures r.loop.parser.Valid(fmt)
    decreases |ticks|
  {
    if ticks == [] || !run.loop.running then run
    else Stream(fmt, timeout, Advance(fmt, timeout, run, ticks[0]), ticks[1..])
  }

  /** Time never runs backwards. */
  predicate Clocked(fmt: Format, timeout: real, run: Run, ticks: seq<Tick>)
    requires fmt.Valid() && run.loop.parser.Valid(fmt)
    decreases |ticks|
  {
    ticks == [] || !run.loop.running ||
    (ticks[0].times.Follows(run.now) && Clocked(fmt, timeout, Advance(fmt, timeout, run, ticks[0]), ticks[1..]))
  }

  // ---- Chunks ----

  /** The frames that a chunk gives: all of its sweeps, or none when it holds a corrupt sample. */
  function ChunkFrames(fmt: Format, parser: State, chunk: string): seq<seq<nat>>
    requires fmt.Valid() && parser.Valid(fmt)
  {
    var o := Decode(fmt, parser, chunk);
    if o.fault.Some? then [] else SweepsOf(o.items)
  }

  /** The frames of two chunks in a row; after a corrupt sample the rest is not read with this parser. */
  function TwoChunkFrames(fmt: Format, parser: State, a: string, b: string): seq<seq<nat>>
    requires fmt.Valid() && parser.Valid(fmt)
  {
    var o := Decode(fmt, parser, a);
    ChunkFrames(fmt, parser, a) + if o.fault.Some? then [] else ChunkFrames(fmt, o.state, b)
  }

  /**
   The parser does not care how the bytes are cut, but the driver does: the cut changes the frames
   exactly when a corrupt sample comes in the second part and a sweep was completed in the first.
   Read in one chunk, that sweep is lost with the corrupt one.
   */
  lemma CutMattersExactlyBeforeCorruption(fmt: Format, parser: State, a: string, b: string)
    requires fmt.Valid() && parser.Valid(fmt)
    ensures ChunkFrames(fmt, parser, a + b) != TwoChunkFrames(fmt, parser, a, b)
      <==> var o := Decode(fmt, parser, a);
           o.fault.None? && SweepsOf(o.items) != [] && Decode(fmt, o.state, b).fault.Some?
  {
    hide Decode;
    DecodeConcat(fmt, parser, a, b);
    var o := Decode(fmt, parser, a);
    if o.fault.None? {
      ItemsConcat(o.items, Decode(fmt, o.state, b).items);
    }
  }

  // ---- The reset budget ----

  predicate Sorted(times: seq<real>) {
    forall i, j :: 0 <= i <= j < |times| ==> times[i] <= times[j]
  }

  predicate NoneAfter(times: seq<real>, now: real) {
    forall i :: 0 <= i < |times| ==> times[i] <= now
  }

  /** The deque is the tail of all recoveries; what was dropped from it had left the window by the last recovery. */
  predicate Bookkept(run: Run, dropped: nat) {
    && dropped <= |run.recoveries|
    && run.loop.resets == run.recoveries[dropped..]
    && |run.loop.resets| <= RESET_BUDGET
    && Sorted(run.recoveries) && NoneAfter(run.recoveries, run.now)
    && (run.fatal.None? ==> forall i :: 0 <= i < dropped ==> run.now - run.recoveries[i] > RESET_WINDOW)
  }

  /** No four recoveries lie within one closed window. */
  predicate AtMostThreePerWindow(recoveries: seq<real>) {
    forall i, j :: 0 <= i <= j < |recoveries| && recoveries[j] - recoveries[i] <= 60.0 ==> j - i < 3
  }

  /** No earlier recovery lies within the window before recovery `j`. */
  predicate FirstInWindow(recoveries: seq<real>, j: nat)
    requires j < |recoveries|
  {
    forall i :: 0 <= i < j ==> recoveries[j] - recoveries[i] > 60.0
  }

  /** The first recovery of a window is the soft one; every other one reopens the port. */
  predicate SoftExactlyFirst(recoveries: seq<real>, moves: seq<Move>) {
    && |moves| == |recoveries|
    && forall j :: 0 <= j < |moves| ==> moves[j] == if FirstInWindow(recoveries, j) then SoftReset else Reopen
  }

  /** Giving up happens only on the fourth demand within the window. */
  predicate GaveUpRightly(run: Run) {
    run.fatal.Some? ==>
      && !run.loop.running
      && |run.recoveries| >= 3
      && run.fatal.value - run.recoveries[|run.recoveries| - 3] <= 60.0
  }

  predicate WithinBudget(run: Run) {
    && AtMostThreePerWindow(run.recoveries)
    && SoftExactlyFirst(run.recoveries, run.moves)
    && GaveUpRightly(run)
  }

  /** At a recovery, exactly the recoveries still in the window are kept. */
  lemma KeptAreInWindow(recoveries: seq<real>, dropped: nat, now: real) returns (dropped': nat)
    requires dropped <= |recoveries| && Sorted(recoveries)
    requires forall i :: 0 <= i < dropped ==> now - recoveries[i] > RESET_WINDOW
    ensures dropped <= dropped' <= |recoveries|
    ensures recoveries[dropped..][Expired(recoveries[dropped..], now)..] == recoveries[dropped'..]
    ensures forall i :: 0 <= i < dropped' ==> now - recoveries[i] > RESET_WINDOW
    ensures forall i :: dropped' <= i < |recoveries| ==> now - recoveries[i] <= RESET_WINDOW
  {
    var resets := recoveries[dropped..];
    var k := Expired(resets, now);
    dropped' := dropped + k;
    forall i | dropped <= i < dropped'
      ensures now - recoveries[i] > RESET_WINDOW
    {
      assert resets[i - dropped] == recoveries[i];
    }
    forall i | dropped' <= i < |recoveries|
      ensures now - recoveries[i] <= RESET_WINDOW
    {
      assert resets[k] == recoveries[dropped'] && recoveries[dropped'] <= recoveries[i];
    }
  }

  lemma OneMoreRecovery(recoveries: seq<real>, moves: seq<Move>, kept: nat, now: real, move: Move)
    requires AtMostThreePerWindow(recoveries) && SoftExactlyFirst(recoveries, moves)
    requires kept <= |recoveries| && |recoveries| - kept < RESET_BUDGET
    requires forall i :: 0 <= i < kept ==> now - recoveries[i] > RESET_WINDOW
    requires forall i :: kept <= i < |recoveries| ==> now - recoveries[i] <= RESET_WINDOW
    requires move == if kept == |recoveries| then SoftReset else Reopen
    ensures AtMostThreePerWindow(recoveries + [now]) && SoftExactlyFirst(recoveries + [now], moves + [move])
  {
    var all, n := recoveries + [now], |recoveries|;
    assert FirstInWindow(all, n) <==> kept == n by {
      if kept < n {
        assert all[n] - all[kept] <= RESET_WINDOW;
      }
    }
    forall j | 0 <= j < n
      ensures FirstInWindow(all, j) == FirstInWindow(recoveries, j)
    {
      if FirstInWindow(all, j) {
        forall i | 0 <= i < j ensures recoveries[j] - recoveries[i] > RESET_WINDOW {
          assert all[j] - all[i] > RESET_WINDOW;
        }
      }
    }
  }

  lemma RecoveryKeepsBudget(run: Run, loop: Loop, frames: seq<seq<nat>>, t: Times, dropped: nat) returns (dropped': nat)
    requires Bookkept(run, dropped) && WithinBudget(run) && run.fatal.None?
    requires run.now <= t.recover <= t.after && loop.resets == run.loop.resets
    ensures Bookkept(Logged(run, Recovered(loop, t, frames), t), dropped')
    ensures WithinBudget(Logged(run, Recovered(loop, t, frames), t))
  {
    dropped' := KeptAreInWindow(run.recoveries, dropped, t.recover);
    if |run.recoveries| - dropped' >= RESET_BUDGET {
      GivingUp(run, loop, frames, t, dropped');
    } else {
      Recovering(run, loop, frames, t, dropped');
    }
  }

  /** What holds when the deque has just been pruned. */
  predicate Pruned(run: Run, loop: Loop, t: Times, kept: nat) {
    && kept <= |run.recoveries|
    && loop.resets[Expired(loop.resets, t.recover)..] == run.recoveries[kept..]
    && (forall i :: 0 <= i < kept ==> t.recover - run.recoveries[i] > RESET_WINDOW)
    && (forall i :: kept <= i < |run.recoveries| ==> t.recover - run.recoveries[i] <= RESET_WINDOW)
  }

  lemma GivingUp(run: Run, loop: Loop, frames: seq<seq<nat>>, t: Times, kept: nat)
    requires exists dropped :: Bookkept(run, dropped)
    requires WithinBudget(run) && Pruned(run, loop, t, kept) && loop.resets == run.loop.resets
    requires run.now <= t.recover <= t.after && |run.recoveries| - kept >= RESET_BUDGET
    ensures Bookkept(Logged(run, Recovered(loop, t, frames), t), kept)
    ensures WithinBudget(Logged(run, Recovered(loop, t, frames), t))
  {
    var r := Logged(run, Recovered(loop, t, frames), t);
    assert r == Run(loop.(running := false, resets := run.recoveries[kept..]), t.after, run.frames + frames,
                    run.recoveries, run.moves, Some(t.recover));
  }

  lemma Recovering(run: Run, loop: Loop, frames: seq<seq<nat>>, t: Times, kept: nat)
    requires Sorted(run.recoveries) && NoneAfter(run.recoveries, run.now)
    requires WithinBudget(run) && Pruned(run, loop, t, kept) && run.fatal.None?
    requires run.now <= t.recover <= t.after && |run.recoveries| - kept < RESET_BUDGET
    ensures Bookkept(Logged(run, Recovered(loop, t, frames), t), kept)
    ensures WithinBudget(Logged(run, Recovered(loop, t, frames), t))
  {
    var recs := run.recoveries;
    var move := if |recs| - kept >= 1 then Reopen else SoftReset;
    var r := Logged(run, Recovered(loop, t, frames), t);
    assert r == Run(Loop(loop.running, START, recs[kept..] + [t.recover], t.after), t.after, run.frames + frames,
                    recs + [t.recover], run.moves + [move], None);
    OneMoreRecovery(recs, run.moves, kept, t.recover, move);
    SortedAppend(recs, t.recover, t.after);
    assert recs[kept..] + [t.recover] == (recs + [t.recover])[kept..];
    assert forall i :: 0 <= i < kept ==> (recs + [t.recover])[i] == recs[i];
  }

  lemma SortedAppend(times: seq<real>, next: real, now: real)
    requires Sorted(times) && NoneAfter(times, next) && next <= now
    ensures Sorted(times + [next]) && NoneAfter(times + [next], now)
  {
  }

  lemma {:induction false} RunKeepsBudget(fmt: Format, timeout: real, run: Run, ticks: seq<Tick>, dropped: nat)
    returns (dropped': nat)
    requires fmt.Valid() && run.loop.parser.Valid(fmt) && Clocked(fmt, timeout, run, ticks)
    requires Bookkept(run, dropped) && WithinBudget(run)
    ensures Bookkept(Stream(fmt, timeout, run, ticks), dropped')
    ensures WithinBudget(Stream(fmt, timeout, run, ticks))
    decreases |ticks|
  {
    dropped' := dropped;
    if ticks != [] && run.loop.running {
      dropped' := AdvanceKeepsBudget(fmt, timeout, run, ticks[0], dropped);
      dropped' := RunKeepsBudget(fmt, timeout, Advance(fmt, timeout, run, ticks[0]), ticks[1..], dropped');
    }
  }

  lemma AdvanceKeepsBudget(fmt: Format, timeout: real, run: Run, tick: Tick, dropped: nat) returns (dropped': nat)
    requires fmt.Valid() && run.loop.parser.Valid(fmt) && run.loop.running && tick.times.Follows(run.now)
    requires Bookkept(run, dropped) && WithinBudget(run)
    ensures Bookkept(Advance(fmt, timeout, run, tick), dropped')
    ensures WithinBudget(Advance(fmt, timeout, run, tick))
  {
    hide LoopStep, Recovered, Decode, AtMostThreePerWindow, SoftExactlyFirst;
    var s := LoopStep(fmt, timeout, run.loop, tick);
    if s.move.Stay? {
      dropped' := dropped;
      StayKeepsBudget(fmt, timeout, run, tick, dropped);
    } else {
      var loop, frames := Demand(fmt, timeout, run.loop, tick);
      dropped' := RecoveryKeepsBudget(run, loop, frames, tick.times, dropped);
    }
  }

  lemma StayKeepsBudget(fmt: Format, timeout: real, run: Run, tick: Tick, dropped: nat)
    requires fmt.Valid() && run.loop.parser.Valid(fmt) && run.loop.running && tick.times.Follows(run.now)
    requires Bookkept(run, dropped) && WithinBudget(run)
    requires LoopStep(fmt, timeout, run.loop, tick).move.Stay?
    ensures Bookkept(Advance(fmt, timeout, run, tick), dropped)
    ensures WithinBudget(Advance(fmt, timeout, run, tick))
  {
    hide Decode, SaysStopped, SweepsOf;
    assert LoopStep(fmt, timeout, run.loop, tick).loop.resets == run.loop.resets;
  }

  /** Every step that touches the port is a recovery that starts from the same deque. */
  lemma Demand(fmt: Format, timeout: real, loop: Loop, tick: Tick) returns (asking: Loop, frames: seq<seq<nat>>)
    requires fmt.Valid() && loop.parser.Valid(fmt) && !LoopStep(fmt, timeout, loop, tick).move.Stay?
    ensures asking.resets == loop.resets && (!tick.stop ==> asking.running)
    ensures LoopStep(fmt, timeout, loop, tick) == Recovered(asking, tick.times, frames)
    ensures frames == [] ==> asking.lastFrame == loop.lastFrame
  {
    asking, frames := loop.(running := !tick.stop), [];
    if tick.read.Got? {
      var o := Decode(fmt, loop.parser, tick.read.bytes);
      if o.fault.None? {
        frames := SweepsOf(o.items);
        asking := Loop(!tick.stop && !SaysStopped(o.items), o.state, loop.resets,
          if frames != [] then tick.times.frame else loop.lastFrame);
      }
    }
  }

  /**
   Reset budget over whole runs: whatever the receiver and the clock do, no four recoveries of a
   stream lie within one closed 60 s interval, the first of a window is the soft one and every other
   one reopens the port, the deque stays sorted and within the budget, and the stream gives up only
   when three recoveries lie in the 60 s before.
   */
  lemma ResetBudget(fmt: Format, timeout: real, start: real, ticks: seq<Tick>)
    requires fmt.Valid() && Clocked(fmt, timeout, Begin(start), ticks)
    ensures var r := Stream(fmt, timeout, Begin(start), ticks);
      && WithinBudget(r)
      && |r.loop.resets| <= RESET_BUDGET
      && Sorted(r.loop.resets)
  {
    var d := RunKeepsBudget(fmt, timeout, Begin(start), ticks, 0);
  }

  // ---- When the loop recovers ----

  /**
   Until the stream is stopped, every read is sound and no check comes more than `timeout` after the latest frame;
   `last` is the time of the latest frame so far.
   */
  predicate Fed(fmt: Format, timeout: real, parser: State, last: real, ticks: seq<Tick>)
    requires fmt.Valid() && parser.Valid(fmt)
    decreases |ticks|
  {
    ticks == [] || (
      var tick := ticks[0];
      && tick.read.Got?
      && var o := Decode(fmt, parser, tick.read.bytes);
        && o.fault.None?
        && (tick.stop || SaysStopped(o.items) || (
          var latest := if SweepsOf(o.items) == [] then last else tick.times.frame;
          tick.times.check <= latest + timeout && Fed(fmt, timeout, o.state, latest, ticks[1..]))))
  }

  lemma {:induction false} RecoveriesOnlyGrow(fmt: Format, timeout: real, run: Run, ticks: seq<Tick>)
    requires fmt.Valid() && run.loop.parser.Valid(fmt)
    ensures |Stream(fmt, timeout, run, ticks).recoveries| >= |run.recoveries|
    ensures run.fatal.Some? ==> Stream(fmt, timeout, run, ticks).fatal.Some?
    decreases |ticks|
  {
    hide LoopStep;
    if ticks != [] && run.loop.running {
      RecoveriesOnlyGrow(fmt, timeout, Advance(fmt, timeout, run, ticks[0]), ticks[1..]);
    }
  }

  /** A recovery, or giving up, shows in the run. */
  lemma RecoveryShows(run: Run, loop: Loop, frames: seq<seq<nat>>, t: Times)
    ensures var r := Logged(run, Recovered(loop, t, frames), t);
      |r.recoveries| > |run.recoveries| || r.fatal.Some?
  {
  }

  /** A stream goes through without recovery exactly when it is fed: frames, and nothing else, put off the stall. */
  lemma {:induction false} FedExactlyWithoutRecovery(fmt: Format, timeout: real, run: Run, ticks: seq<Tick>)
    requires fmt.Valid() && run.loop.parser.Valid(fmt) && run.loop.running && run.fatal.None?
    ensures var r := Stream(fmt, timeout, run, ticks);
      Fed(fmt, timeout, run.loop.parser, run.loop.lastFrame, ticks)
      <==> |r.recoveries| == |run.recoveries| && r.fatal.None?
    decreases |ticks|
  {
    hide Decode, SaysStopped, SweepsOf, Recovered, Expired;
    if ticks != [] {
      var tick := ticks[0];
      var next := Advance(fmt, timeout, run, tick);
      RecoveriesOnlyGrow(fmt, timeout, next, ticks[1..]);
      if LoopStep(fmt, timeout, run.loop, tick).move.Stay? {
        FedStep(fmt, timeout, run, ticks);
        if next.loop.running {
          FedExactlyWithoutRecovery(fmt, timeout, next, ticks[1..]);
        }
      } else {
        UnfedStep(fmt, timeout, run, ticks);
      }
    }
  }

  lemma FedStep(fmt: Format, timeout: real, run: Run, ticks: seq<Tick>)
    requires fmt.Valid() && run.loop.parser.Valid(fmt) && run.loop.running && run.fatal.None? && ticks != []
    requires LoopStep(fmt, timeout, run.loop, ticks[0]).move.Stay?
    ensures var next := Advance(fmt, timeout, run, ticks[0]);
      && next.recoveries == run.recoveries && next.fatal.None?
      && (Fed(fmt, timeout, run.loop.parser, run.loop.lastFrame, ticks)
          <==> !next.loop.running || Fed(fmt, timeout, next.loop.parser, next.loop.lastFrame, ticks[1..]))
  {
    hide Decode, SaysStopped, SweepsOf, Expired;
  }

  lemma UnfedStep(fmt: Format, timeout: real, run: Run, ticks: seq<Tick>)
    requires fmt.Valid() && run.loop.parser.Valid(fmt) && run.loop.running && ticks != []
    requires !LoopStep(fmt, timeout, run.loop, ticks[0]).move.Stay?
    ensures var next := Advance(fmt, timeout, run, ticks[0]);
      && (|next.recoveries| > |run.recoveries| || next.fatal.Some?)
      && !Fed(fmt, timeout, run.loop.parser, run.loop.lastFrame, ticks)
  {
    hide Decode, SaysStopped, SweepsOf, Expired;
    var loop, frames := Demand(fmt, timeout, run.loop, ticks[0]);
    RecoveryShows(run, loop, frames, ticks[0].times);
  }
}
