/**
 What a recovery achieves: after a reset of a healthy receiver the next sweep comes through whole, within
 a number of reads that depends on its length only.
 */
module SelfHealing {
  import opened Wrappers
  import opened StreamParsing
  import opened BatchDecoding
  import opened InterferedEncoding
  import opened CallistoProtocol
  import opened SimulatedReceiver
  import opened StreamLoop
  import opened CallistoSession
  import opened BarrenLines
  import opened ClosedLoop

  /** No fault is injected, nobody stops the stream, and the stall timeout does not run out. */
  predicate Calm(ev: Event, since: real, timeout: real) {
    ev.faults == [] && !ev.stop && since <= ev.times.frame && ev.times.check - since <= timeout
  }

  predicate AllCalm(host: Host, script: seq<Event>, since: real) {
    forall i :: 0 <= i < |script| ==> Calm(script[i], since, NoDataTimeout(host.sweepsPerSecond))
  }

  /** A stream with whole sweeps on its line and nothing wrong with it. */
  predicate Flowing(host: Host, sys: System, pending: seq<seq<nat>>, since: real) {
    && sys.rx == "" && sys.dev.readErrors == 0
    && sys.run.loop.running && sys.run.loop.lastFrame >= since
    && LineInStep(host, sys.dev, sys.run.loop.parser, pending)
    && SoundPrefix(host.Fmt(), pending) == |pending|
  }

  /** A stream whose receiver has just been reset and, unless it is dead, armed. */
  predicate Healed(host: Host, sys: System) {
    && sys.rx == "" && sys.dev.readErrors == 0
    && sys.run.loop.running && sys.run.loop.parser == START
    && BackInStep(host, sys.dev)
  }

  predicate BackInStep(host: Host, dev: Device) {
    && LineInStep(host, dev, START, [])
    && (!dev.dead ==> dev.running && !dev.noise && dev.out == STARTED + [DATA_START])
  }

  /** What a reset without a read error leaves at the port. */
  lemma MoveHeals(host: Host, dev: Device, move: Move)
    requires host.Fmt().Valid() && Matches(host, dev) && dev.readErrors == 0
    requires move.SoftReset? || move.Reopen?
    ensures var (d, rx) := Moved(dev, "", move, host);
      && rx == "" && d.readErrors == 0 && BackInStep(host, d)
      && d.dead == dev.dead && d.corruptNext == dev.corruptNext && d.version == dev.version
      && d.nchannels == SetLength(dev, host.nchannels)
  {
    hide LineInStep, SoftlyReset, Written, Armed;
    MoveRealigns(host, dev, move);
    var found := if move.SoftReset? then dev else Closed(dev);
    SoftResetReceiver(found, "", host);
    ArmedReceiver(found.(running := false, out := ""), host);
    assert "" + STARTED + [DATA_START] == STARTED + [DATA_START];
  }

  function ReadsFor(length: nat): nat { (length + READ_CHUNK - 1) / READ_CHUNK }

  /** A line whose pending sweeps are all sound is read without a fault, wherever it is cut. */
  lemma SoundLineHasNoFault(host: Host, dev: Device, parser: State, chunk: string, rest: string, pending: seq<seq<nat>>)
    requires LineInStep(host, dev, parser, pending) && dev.out == chunk + rest
    requires SoundPrefix(host.Fmt(), pending) == |pending|
    ensures Decode(host.Fmt(), parser, chunk).fault.None?
  {
    hide Decode, SweepsOf, Barren, SaysStopped;
    DecodeConcat(host.Fmt(), parser, chunk, rest);
  }

  /** One calm read of a line that is not empty. */
  lemma CalmRead(host: Host, sys: System, ev: Event, pending: seq<seq<nat>>, since: real) returns (k: nat)
    requires Flowing(host, sys, pending, since) && sys.dev.out != ""
    requires Calm(ev, since, NoDataTimeout(host.sweepsPerSecond))
    ensures var next := PlayOne(host, sys, ev);
      && k <= |pending|
      && Flowing(host, next, pending[k..], since)
      && next.dev == sys.dev.(out := Drop(sys.dev.out, READ_CHUNK))
      && next.emitted == sys.emitted
      && next.run.frames == sys.run.frames + Images(host.Fmt(), pending[..k])
  {
    hide Decode, SweepsOf, SaysStopped, SoundPrefix, Images, LineInStep, PlayOne, Written, SoftlyReset;
    var fmt, parser := host.Fmt(), sys.run.loop.parser;
    LineIsValid(host, sys.dev, parser, pending);
    var chunk, rest := Take(sys.dev.out, READ_CHUNK), Drop(sys.dev.out, READ_CHUNK);
    assert chunk + rest == sys.dev.out && sys.rx + chunk == chunk;
    SoundLineHasNoFault(host, sys.dev, parser, chunk, rest, pending);
    ReadStaysInStep(host, sys.dev, parser, chunk, rest, pending);
    var o := Decode(fmt, parser, chunk);
    k := |SweepsOf(o.items)|;
    SoundPrefixDrop(fmt, pending, k);
    assert Filled(sys.dev, ev.level) == sys.dev;
    hide Filled;
    PlayOneInParts(host, sys, ev);
    var s := Accepted(NoDataTimeout(host.sweepsPerSecond), sys.run.loop, o, false, ev.times);
    assert s.move.Stay?;
  }

  /** A line that is empty has nothing pending. */
  lemma EmptyLineHasNothingPending(host: Host, sys: System, pending: seq<seq<nat>>, since: real)
    requires Flowing(host, sys, pending, since) && sys.dev.out == ""
    ensures pending == []
  {
    EmptyLine(host, sys.dev, sys.run.loop.parser, pending);
  }

  /** A calm line is read out completely, and every sweep on it is delivered. */
  lemma {:induction false} LineIsReadOut(
    host: Host, sys: System, script: seq<Event>, pending: seq<seq<nat>>, since: real)
    requires Flowing(host, sys, pending, since) && AllCalm(host, script, since)
    requires |script| == ReadsFor(|sys.dev.out|)
    ensures var r := Play(host, sys, script);
      && Flowing(host, r, [], since)
      && r.dev == sys.dev.(out := "")
      && r.emitted == sys.emitted
      && r.run.frames == sys.run.frames + Images(host.Fmt(), pending)
    decreases |script|
  {
    if sys.dev.out == "" {
      EmptyLineHasNothingPending(host, sys, pending, since);
      assert sys.run.frames + [] == sys.run.frames;
    } else {
      var k := CalmRead(host, sys, script[0], pending, since);
      var next := PlayOne(host, sys, script[0]);
      OneReadLess(sys.dev.out);
      LineIsReadOut(host, next, script[1..], pending[k..], since);
      ImagesInParts(host.Fmt(), sys.run.frames, pending, k);
    }
  }

  lemma OneReadLess(line: string)
    requires line != ""
    ensures ReadsFor(|line|) == 1 + ReadsFor(|Drop(line, READ_CHUNK)|)
  {
  }

  lemma ImagesInParts(fmt: Format, frames: seq<seq<nat>>, pending: seq<seq<nat>>, k: nat)
    requires k <= |pending|
    ensures (frames + Images(fmt, pending[..k])) + Images(fmt, pending[k..]) == frames + Images(fmt, pending)
  {
    var a, b, all := Images(fmt, pending[..k]), Images(fmt, pending[k..]), Images(fmt, pending);
    forall i | 0 <= i < |pending|
      ensures (a + b)[i] == all[i]
    {
      if i < k {
        assert pending[..k][i] == pending[i];
      } else {
        assert pending[k..][i - k] == pending[i];
      }
    }
    assert a + b == all;
    assert (frames + a) + b == frames + (a + b);
  }

  /** Filling the line can be looked at as a step of its own, before the read. */
  lemma FillFirst(host: Host, sys: System, ev: Event)
    requires SystemValid(host, sys) && ev.faults == [] && Emits(sys.dev)
    ensures var emitted := sys.emitted + [SweepSamples(sys.dev, ev.level)];
      var filled := sys.(dev := Filled(sys.dev, ev.level), emitted := emitted);
      PlayOne(host, sys, ev) == PlayOne(host, filled, ev)
  {
    var filled := Filled(sys.dev, ev.level);
    assert filled.out != "";
    assert ReadStep(sys.dev, READ_CHUNK, ev.level) == ReadStep(filled, READ_CHUNK, ev.level);
    var emitted := sys.emitted + [SweepSamples(sys.dev, ev.level)];
    assert emitted + [] == emitted;
  }

  /** The samples depend on the receiver's settings only, not on what it has waiting. */
  lemma SameSamples(a: Device, b: Device, level: nat -> nat)
    requires a.nchannels == b.nchannels > 0 && a.version == b.version && !a.corruptNext && !b.corruptNext
    ensures SweepSamples(a, level) == SweepSamples(b, level)
    ensures forall i :: 0 <= i < a.nchannels ==> SweepSamples(a, level)[i] <= a.version.MaxValue()
  {
  }

  lemma OneSound(fmt: Format, raw: seq<nat>)
    requires Sound(fmt, raw)
    ensures SoundPrefix(fmt, [raw]) == 1
  {
    var tail := [raw][1..];
    assert tail == [];
  }

  /**
   Self-healing: once a healthy receiver has been reset and armed, one read takes its announcement and
   the reads that its first sweep needs deliver exactly that sweep, whatever happened before.
   */
  lemma NextSweepComesThrough(host: Host, sys: System, script: seq<Event>, since: real)
    requires Flowing(host, sys, [], since) && sys.run.loop.parser == START
    requires sys.dev.running && sys.dev.out == STARTED + [DATA_START]
    requires sys.dev.nchannels == host.nchannels && !sys.dev.corruptNext && !sys.dev.noise
    requires AllCalm(host, script, since) && |script| == 1 + ReadsFor(4 * host.nchannels)
    ensures var r := Play(host, sys, script);
      && Flowing(host, r, [], since)
      && r.run.frames == sys.run.frames + [Image(host.Fmt(), SweepSamples(sys.dev, script[1].level))]
  {
    hide Decode, Encode, SweepSamples, Written, Aligned, LoopStep, ReadStep, Logged;
    var k := CalmRead(host, sys, script[0], [], since);
    var armed := PlayOne(host, sys, script[0]);
    assert Images(host.Fmt(), []) == [] && sys.run.frames + [] == sys.run.frames;
    var later := script[1..];
    var raw := SweepSamples(armed.dev, later[0].level);
    SameSamples(armed.dev, sys.dev, script[1].level);
    var filled := armed.(dev := Filled(armed.dev, later[0].level), emitted := armed.emitted + [raw]);
    FillFirst(host, armed, later[0]);
    FillingStaysInStep(host, armed.dev, armed.run.loop.parser, [], later[0].level);
    assert [] + [raw] == [raw];
    OneSound(host.Fmt(), raw);
    assert Play(host, armed, later) == Play(host, filled, later);
    LineIsReadOut(host, filled, later, [raw], since);
    assert Images(host.Fmt(), [raw]) == [Image(host.Fmt(), raw)];
  }

  /** The frame shows the antenna: channel by channel the eight bits of its level, cut off at the bit depth. */
  predicate Shows(host: Host, frame: seq<nat>, level: nat -> nat) {
    var tenBit := host.firmware.data10bit;
    var top := if tenBit then 1023 else 255;
    && |frame| == host.nchannels
    && forall ch: nat :: ch < host.nchannels ==>
      EightBitsOf(tenBit, if level(ch) <= top then level(ch) else top, frame[ch])
  }

  /** A stream that goes on with one more frame, the next sweep of its receiver. */
  predicate NextFrame(host: Host, sys: System, r: System, level: nat -> nat) {
    var n := |sys.run.frames|;
    && r.run.loop.running
    && |r.run.frames| == n + 1 && r.run.frames[..n] == sys.run.frames && Shows(host, r.run.frames[n], level)
  }

  lemma SweepShows(host: Host, dev: Device, level: nat -> nat)
    requires Healthy(host, dev) && host.nchannels > 0 && dev.version.TenBit() == host.firmware.data10bit
    ensures Shows(host, Image(host.Fmt(), SweepSamples(dev, level)), level)
  {
    hide To8Bit, EightBitsOf, SweepSamples;
    var raw := SweepSamples(dev, level);
    forall ch: nat | ch < host.nchannels
      ensures var top := if host.firmware.data10bit then 1023 else 255;
        EightBitsOf(host.firmware.data10bit, if level(ch) <= top then level(ch) else top, Image(host.Fmt(), raw)[ch])
    {
      SampleIsTheLevel(dev, level, ch);
      SampleIsKept(host.Fmt(), raw[ch]);
    }
  }

  /** The same from any stream that has just healed. */
  lemma HealedDelivers(host: Host, sys: System, script: seq<Event>)
    requires Healed(host, sys) && Healthy(host, sys.dev)
    requires AllCalm(host, script, sys.run.loop.lastFrame) && |script| == 1 + ReadsFor(4 * host.nchannels)
    ensures NextFrame(host, sys, Play(host, sys, script), script[1].level)
  {
    LineMatches(host, sys.dev);
    hide LineInStep, Play, SweepSamples, Shows;
    NextSweepComesThrough(host, sys, script, sys.run.loop.lastFrame);
    SweepShows(host, sys.dev, script[1].level);
  }

  lemma LineMatches(host: Host, dev: Device)
    requires LineInStep(host, dev, START, [])
    ensures host.Fmt().Valid() && Matches(host, dev)
  {
  }

  /** A receiver that can stream whole and sound sweeps of the configured length. */
  predicate Healthy(host: Host, dev: Device) {
    !dev.dead && !dev.corruptNext && dev.nchannels == host.nchannels
  }

  /** The receiver is alive, takes the driver's length, and any pending corruption leaves it with this read. */
  predicate Curable(host: Host, dev: Device) {
    !dev.dead && (dev.corruptNext ==> Emits(dev)) && SetLength(dev, host.nchannels) == host.nchannels
  }

  /** The iteration ends with a reset of the port. */
  predicate Resets(host: Host, sys: System, ev: Event)
    requires SystemValid(host, sys)
  {
    var s := LoopStep(host.Fmt(), NoDataTimeout(host.sweepsPerSecond), sys.run.loop, TickOf(sys, ev));
    s.move.SoftReset? || s.move.Reopen?
  }

  /** An iteration that resets the port without a read error in the drain heals the stream. */
  lemma RecoveryHeals(host: Host, sys: System, ev: Event, source: seq<nat>, settled: nat)
    requires InStep(host, sys, source, settled) && Resets(host, sys, ev) && !ev.stop
    requires Inject(sys.dev, ev.faults).readErrors <= 1
    ensures var next := PlayOne(host, sys, ev);
      && Healed(host, next) && next.run.loop.lastFrame == ev.times.after
      && (Curable(host, Inject(sys.dev, ev.faults)) ==> Healthy(host, next.dev))
  {
    hide Inject, ReadStep, Written, Moved, LoopStep, LineInStep, BackInStep, InStep, Matches, Curable, TickOf;
    InStepMatches(host, sys, source, settled);
    ReadOfStruck(host, sys.dev, ev.faults, ev.level);
    ResetStep(host, sys, ev);
    PlayOneInParts(host, sys, ev);
    hide PlayOne;
    var (dev, r) := ReadStep(Inject(sys.dev, ev.faults), READ_CHUNK, ev.level);
    var s := LoopStep(host.Fmt(), NoDataTimeout(host.sweepsPerSecond), sys.run.loop, TickOf(sys, ev));
    MoveHeals(host, dev, s.move);
  }

  lemma ResetStep(host: Host, sys: System, ev: Event)
    requires SystemValid(host, sys) && Resets(host, sys, ev) && !ev.stop
    ensures var s := LoopStep(host.Fmt(), NoDataTimeout(host.sweepsPerSecond), sys.run.loop, TickOf(sys, ev));
      s.loop.running && s.loop.parser == START && s.loop.lastFrame == ev.times.after
  {
    hide LoopStep, ReadStep;
    var asking, frames :=
      Demand(host.Fmt(), NoDataTimeout(host.sweepsPerSecond), sys.run.loop, TickOf(sys, ev));
  }

  /** What the read leaves of a receiver that the faults have left alive. */
  lemma ReadOfStruck(host: Host, dev: Device, faults: seq<Fault>, level: nat -> nat)
    requires Matches(host, dev) && Inject(dev, faults).readErrors <= 1
    ensures var (d, r) := ReadStep(Inject(dev, faults), READ_CHUNK, level);
      && Matches(host, d) && d.readErrors == 0
      && (Curable(host, Inject(dev, faults)) ==>
        !d.dead && !d.corruptNext && SetLength(d, host.nchannels) == host.nchannels)
  {
    hide Inject, SweepSamples, Encode;
    InjectIsSilent(dev, faults);
  }

  lemma InStepMatches(host: Host, sys: System, source: seq<nat>, settled: nat)
    requires InStep(host, sys, source, settled)
    ensures SystemValid(host, sys) && Matches(host, sys.dev) && sys.rx == ""
  {
  }

  /**
   From a fault to the next frame: whatever made the driver reset the port, a failed read, a corrupt sample or a stall,
   if no read fails in the drain and the receiver is otherwise healthy, the reads that a sweep needs then deliver one.
   */
  lemma FaultToNextFrame(
    host: Host, sys: System, ev: Event, script: seq<Event>, source: seq<nat>, settled: nat)
    requires InStep(host, sys, source, settled) && sys.run.loop.running
    requires Resets(host, sys, ev) && !ev.stop
    requires Inject(sys.dev, ev.faults).readErrors <= 1 && Curable(host, Inject(sys.dev, ev.faults))
    requires AllCalm(host, script, ev.times.after) && |script| == 1 + ReadsFor(4 * host.nchannels)
    ensures var next := PlayOne(host, sys, ev);
      NextFrame(host, next, Play(host, sys, [ev] + script), script[1].level)
  {
    hide LoopStep, PlayOne, Healed, Inject, AllCalm, SweepSamples, LineInStep, Delivered, NextFrame;
    InStepMatches(host, sys, source, settled);
    RecoveryHeals(host, sys, ev, source, settled);
    HealedDelivers(host, PlayOne(host, sys, ev), script);
    assert ([ev] + script)[1..] == script;
  }
}
