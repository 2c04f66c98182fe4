/**
 Driver, parser and simulated receiver as one system (driver.py `stream` against simulator.py), under
 arbitrary faults: stalls, a dead receiver, junk, corrupt samples and read errors, at any time.
 */
module ClosedLoop {
  import opened Wrappers
  import opened StreamParsing
  import opened BatchDecoding
  import opened InterferedEncoding
  import opened CallistoProtocol
  import opened SimulatedReceiver
  import opened StreamLoop
  import opened CallistoSession
  import opened BarrenLines

  datatype Fault = Stall | Dead | ReadErrors(times: nat) | Corruption | Noise

  function InjectOne(dev: Device, fault: Fault): Device {
    match fault
    case Stall => dev.(running := false)
    case Dead => dev.(dead := true, running := false)
    case ReadErrors(times) => dev.(readErrors := times)
    case Corruption => dev.(corruptNext := true)
    case Noise => dev.(noise := true)
  }

  /**
   What an injected fault does to a receiver that streams and has sent everything: it falls silent, and a dead one stays
   so whatever is written to it; that many reads fail; the next sample is corrupt; or junk comes instead of a sweep.
   */
  lemma FaultShows(dev: Device, fault: Fault, size: nat, level: nat -> nat, data: string)
    requires Emits(dev) && size >= 4
    ensures var d := InjectOne(dev, fault);
      var (next, read) := ReadStep(d, size, level);
      match fault
      case Stall => read == Got("") && next == d && !d.running
      case Dead => read == Got("") && next == d && !Written(d, data).running
      case ReadErrors(times) => times > 0 ==> read == Failed && next == d.(readErrors := times - 1)
      case Corruption => read.Got? && "3FFF" <= read.bytes && !next.corruptNext
      case Noise => read == Got("....") && next.running
  {
    hide Encode, SweepSamples, Written;
    if fault.Dead? {
      DeadStaysSilent(InjectOne(dev, fault), data);
    } else if fault.Corruption? {
      CorruptSampleFirst(InjectOne(dev, fault), level);
    }
  }

  lemma {:induction false} DeadStaysSilent(dev: Device, data: string)
    requires dev.dead && !dev.running
    ensures Written(dev, data).dead && !Written(dev, data).running
    decreases |data|
  {
    hide Parse;
    if data != "" {
      DeadStaysSilent(WriteByte(dev, data[0]), data[1..]);
    }
  }

  lemma CorruptSampleFirst(dev: Device, level: nat -> nat)
    requires dev.nchannels > 0 && dev.corruptNext
    ensures "3FFF" <= Encode(SweepSamples(dev, level))
  {
    var raw := SweepSamples(dev, level);
    assert raw[0] == 0x3FFF;
    assert Hex4(0x3FFF) == "3FFF";
    hide SweepSamples, Hex4;
    assert Encode(raw)[..4] == Hex4(raw[0]);
  }

  function Inject(dev: Device, faults: seq<Fault>): Device
    decreases |faults|
  {
    if faults == [] then dev else Inject(InjectOne(dev, faults[0]), faults[1..])
  }

  /** One iteration of the stream: the faults injected before it, the antenna levels, an operator's stop, the clock. */
  datatype Event = Event(faults: seq<Fault>, level: nat -> nat, stop: bool, times: Times)

  /** `emitted` logs every sweep the receiver has put on the line, as raw samples. */
  datatype System = System(dev: Device, rx: string, run: Run, emitted: seq<seq<nat>>)

  /** What the loop reads: bytes held back from earlier come first. */
  function Received(rx: string, r: Read): Read {
    if r.Failed? then Failed else Got(rx + r.bytes)
  }

  /** The port operation of an iteration. */
  function Moved(dev: Device, rx: string, move: Move, host: Host): (Device, string) {
    match move
    case SoftReset => SoftlyReset(dev, rx, host)
    case Reopen => SoftlyReset(Closed(dev), rx, host)
    case _ => (dev, rx)
  }

  predicate SystemValid(host: Host, sys: System) {
    host.Fmt().Valid() && sys.run.loop.parser.Valid(host.Fmt())
  }

  /** The iteration's read, as the loop sees it. */
  function TickOf(sys: System, ev: Event): Tick {
    var (dev, r) := ReadStep(Inject(sys.dev, ev.faults), READ_CHUNK, ev.level);
    Tick(Received(sys.rx, r), ev.stop, ev.times)
  }

  function PlayOne(host: Host, sys: System, ev: Event): (next: System)
    requires SystemValid(host, sys)
    ensures SystemValid(host, next)
  {
    var before := Inject(sys.dev, ev.faults);
    var (dev, r) := ReadStep(before, READ_CHUNK, ev.level);
    var timeout := NoDataTimeout(host.sweepsPerSecond);
    var tick := TickOf(sys, ev);
    var move := LoopStep(host.Fmt(), timeout, sys.run.loop, tick).move;
    var stopped := if ev.stop then Written(dev, STOP) else dev;
    var (dev', rx') := Moved(stopped, if r.Failed? then sys.rx else "", move, host);
    System(dev', rx', Advance(host.Fmt(), timeout, sys.run, tick),
      sys.emitted + if Emits(before) then [SweepSamples(before, ev.level)] else [])
  }

  /** The port and the bytes held back after an iteration that ends with `move`. */
  function PortAfter(host: Host, sys: System, ev: Event, move: Move): (Device, string) {
    var (d, r) := ReadStep(Inject(sys.dev, ev.faults), READ_CHUNK, ev.level);
    Moved(if ev.stop then Written(d, STOP) else d, if r.Failed? then sys.rx else "", move, host)
  }

  lemma PlayOneInParts(host: Host, sys: System, ev: Event)
    requires SystemValid(host, sys)
    ensures var s := LoopStep(host.Fmt(), NoDataTimeout(host.sweepsPerSecond), sys.run.loop, TickOf(sys, ev));
      var next := PlayOne(host, sys, ev);
      && (next.dev, next.rx) == PortAfter(host, sys, ev, s.move) && next.run == Logged(sys.run, s, ev.times)
      && (!Emits(Inject(sys.dev, ev.faults)) ==> next.emitted == sys.emitted)
  {
    assert sys.emitted + [] == sys.emitted;
  }

  /** The whole stream. */
  function Play(host: Host, sys: System, script: seq<Event>): (r: System)
    requires SystemValid(host, sys)
    ensures SystemValid(host, r)
    decreases |script|
  {
    if script == [] || !sys.run.loop.running then sys
    else Play(host, PlayOne(host, sys, script[0]), script[1..])
  }

  /** The reads that the loop sees in a play. */
  function Ticks(host: Host, sys: System, script: seq<Event>): seq<Tick>
    requires SystemValid(host, sys)
    decreases |script|
  {
    if script == [] || !sys.run.loop.running then []
    else [TickOf(sys, script[0])] + Ticks(host, PlayOne(host, sys, script[0]), script[1..])
  }

  /** Seen from the loop, a play is a stream like any other: the reset budget and the bounded liveness hold for it. */
  lemma {:induction false} PlayIsAStream(host: Host, sys: System, script: seq<Event>)
    requires SystemValid(host, sys)
    ensures Play(host, sys, script).run
      == Stream(host.Fmt(), NoDataTimeout(host.sweepsPerSecond), sys.run, Ticks(host, sys, script))
    decreases |script|
  {
    if script != [] && sys.run.loop.running {
      PlayIsAStream(host, PlayOne(host, sys, script[0]), script[1..]);
    }
  }

  // ---- What is on the line ----

  /** A sweep all of whose samples fit the bit depth. */
  predicate Sound(fmt: Format, raw: seq<nat>) {
    |raw| == fmt.nchannels && forall i :: 0 <= i < |raw| ==> raw[i] <= fmt.Mask()
  }

  /** How many sweeps precede the first corrupt one. */
  function SoundPrefix(fmt: Format, sweeps: seq<seq<nat>>): (k: nat)
    ensures k <= |sweeps|
    ensures forall i :: 0 <= i < k ==> Sound(fmt, sweeps[i])
    ensures k < |sweeps| ==> !Sound(fmt, sweeps[k])
  {
    if sweeps == [] || !Sound(fmt, sweeps[0]) then 0 else 1 + SoundPrefix(fmt, sweeps[1..])
  }

  predicate AtSweepBoundary(st: State) { !st.inMessage && st.hexbuf == "" && st.sweep == [] }

  predicate NobodySaysStopped(items: seq<Item>) { !SaysStopped(items) }

  /**
   The bytes not yet read, `line`, are aligned with the parser: decoding them yields the images of the
   pending sweeps up to the first corrupt one, faults exactly at that one, and ends at a sweep boundary.
   */
  predicate Aligned(fmt: Format, parser: State, line: string, pending: seq<seq<nat>>)
    requires fmt.Valid() && parser.Valid(fmt)
  {
    var o := Decode(fmt, parser, line);
    var k := SoundPrefix(fmt, pending);
    && SweepsOf(o.items) == Images(fmt, pending[..k])
    && (o.fault.Some? <==> k < |pending|)
    && (o.fault.None? ==> AtSweepBoundary(o.state))
    && NobodySaysStopped(o.items)
  }

  /** The parser will be inside a transmission when the line is read. */
  predicate InTransmission(fmt: Format, parser: State, line: string)
    requires fmt.Valid() && parser.Valid(fmt)
  {
    Decode(fmt, parser, line).state.inData
  }

  /** How the frames delivered so far come from the sweeps emitted: frame `k` is the image of sweep `source[k]`. */
  predicate Delivered(fmt: Format, frames: seq<seq<nat>>, emitted: seq<seq<nat>>, source: seq<nat>, settled: nat) {
    && |source| == |frames| && settled <= |emitted|
    && (forall k :: 0 <= k < |source| ==> source[k] < settled)
    && (forall j, k :: 0 <= j < k < |source| ==> source[j] < source[k])
    && (forall k :: 0 <= k < |source| ==>
      Sound(fmt, emitted[source[k]]) && frames[k] == Image(fmt, emitted[source[k]]))
  }

  /**
   How frames are drawn from sweeps: one sweep each, in order and none twice, channel by channel the eight bits that the
   receiver's bit depth leaves of the sample.
   */
  predicate Drawn(host: Host, frames: seq<seq<nat>>, emitted: seq<seq<nat>>, source: seq<nat>) {
    && |source| == |frames|
    && (forall j, k :: 0 <= j < k < |source| ==> source[j] < source[k])
    && (forall k :: 0 <= k < |source| ==>
      && source[k] < |emitted| && |frames[k]| == |emitted[source[k]]| == host.nchannels
      && forall ch :: 0 <= ch < host.nchannels ==>
        EightBitsOf(host.firmware.data10bit, emitted[source[k]][ch], frames[k][ch]))
  }

  /** Every frame is the 8-bit image of a sound emitted sweep, in order, no sweep twice. */
  ghost predicate Faithful(host: Host, sys: System) {
    exists source: seq<nat> :: Drawn(host, sys.run.frames, sys.emitted, source)
  }

  lemma DeliveredIsDrawn(host: Host, frames: seq<seq<nat>>, emitted: seq<seq<nat>>, source: seq<nat>)
    requires Delivered(host.Fmt(), frames, emitted, source, |emitted|)
    ensures Drawn(host, frames, emitted, source)
  {
    hide To8Bit, EightBitsOf;
    forall k, ch | 0 <= k < |source| && 0 <= ch < host.nchannels
      ensures EightBitsOf(host.firmware.data10bit, emitted[source[k]][ch], frames[k][ch])
    {
      SampleIsKept(host.Fmt(), emitted[source[k]][ch]);
    }
  }

  /**
   The line is in step with the parser; `pending` are the sweeps emitted and not yet delivered or lost. A parser that
   started afresh in the middle of the line would find no sweep in it.
   */
  predicate LineInStep(host: Host, dev: Device, parser: State, pending: seq<seq<nat>>) {
    && host.Fmt().Valid() && parser.Valid(host.Fmt())
    && Matches(host, dev)
    && Aligned(host.Fmt(), parser, dev.out, pending)
    && (dev.running ==> InTransmission(host.Fmt(), parser, dev.out))
    && Barren(host.Fmt(), dev.out)
  }

  /** The receiver is the one the driver was configured for. */
  predicate Matches(host: Host, dev: Device) {
    && dev.version.TenBit() == host.firmware.data10bit
    && dev.cmd == ""
    && (dev.nchannels == host.nchannels || dev.nchannels <= 0)
  }

  /** The invariant of a running stream. */
  predicate InStep(host: Host, sys: System, source: seq<nat>, settled: nat) {
    && sys.rx == "" && sys.dev.readErrors == 0
    && Delivered(host.Fmt(), sys.run.frames, sys.emitted, source, settled)
    && LineInStep(host, sys.dev, sys.run.loop.parser, sys.emitted[settled..])
  }

  // ---- Emitting and reading ----

  /** A sweep written to an aligned, empty line keeps it aligned. */
  lemma SweepOnTheLine(fmt: Format, parser: State, raw: seq<nat>)
    requires fmt.Valid() && parser.Valid(fmt) && AtSweepBoundary(parser) && parser.inData
    requires |raw| == fmt.nchannels && Encodable(raw)
    requires Sound(fmt, raw) || (raw[0] == CORRUPT_SAMPLE)
    ensures Aligned(fmt, parser, Encode(raw), [raw]) && InTransmission(fmt, parser, Encode(raw))
  {
    hide Decode, Encode, Groups, GoodGroups, Samples;
    GroupsOfEncode(raw);
    HexRun(fmt, parser, Encode(raw));
    var o := Decode(fmt, parser, Encode(raw));
    StaysInTransmission(fmt, parser, Encode(raw));
    assert NobodySaysStopped(o.items) by {
      NoTextsNoStop(o.items);
    }
    assert [raw][1..] == [];
    if Sound(fmt, raw) {
      SoundIsGood(fmt, raw);
      assert raw[..|raw|] == raw && Encode(raw)[4 * |raw|..] == "";
      assert [] + Image(fmt, raw) == Image(fmt, raw);
      ChopWhole(Image(fmt, raw), [], fmt.nchannels);
      assert Image(fmt, raw) + [] == Image(fmt, raw);
      assert SoundPrefix(fmt, [raw]) == 1 && [raw][..1] == [raw];
      assert Images(fmt, [raw]) == [Image(fmt, raw)];
    } else {
      CorruptFirst(fmt, raw);
      assert raw[..0] == [];
      assert SoundPrefix(fmt, [raw]) == 0 && [raw][..0] == [];
    }
  }

  lemma CorruptFirst(fmt: Format, raw: seq<nat>)
    requires raw != [] && raw[0] == CORRUPT_SAMPLE
    ensures GoodGroups(fmt, raw) == 0 && Samples(raw[..0]) == []
  {
    assert raw[..0] == [];
  }

  lemma {:induction false} NoTextsNoStop(items: seq<Item>)
    requires TextsOf(items) == []
    ensures NobodySaysStopped(items)
  {
    if items != [] {
      NoTextsNoStop(items[1..]);
      forall i | 0 <= i < |items|
        ensures !items[i].Message?
      {
        if i > 0 {
          assert items[i] == items[1..][i - 1];
        }
        AllSweeps(items, i);
      }
    }
  }

  lemma {:induction false} AllSweeps(items: seq<Item>, i: nat)
    requires TextsOf(items) == [] && i < |items|
    ensures items[i].Sweep?
  {
    if i > 0 {
      AllSweeps(items[1..], i - 1);
    }
  }

  lemma {:induction false} SoundIsGood(fmt: Format, raw: seq<nat>)
    requires forall i :: 0 <= i < |raw| ==> raw[i] <= fmt.Mask()
    ensures GoodGroups(fmt, raw) == |raw| && Samples(raw) == raw
  {
    if raw != [] {
      SoundIsGood(fmt, raw[1..]);
    }
  }

  /** Hex digits never end a transmission. */
  lemma {:induction false} StaysInTransmission(fmt: Format, st: State, digits: string)
    requires fmt.Valid() && st.Valid(fmt) && !st.inMessage && st.inData && AllHex(digits)
    ensures Decode(fmt, st, digits).state.inData
    decreases |digits|
  {
    if digits != "" {
      ByteStepValid(fmt, st, digits[0]);
      var o := ByteStep(fmt, st, digits[0]);
      if o.fault.None? {
        StaysInTransmission(fmt, o.state, digits[1..]);
      }
    }
  }

  /** Junk on the line has no effect at all. */
  lemma JunkOnTheLine(fmt: Format, parser: State)
    requires fmt.Valid() && parser.Valid(fmt) && AtSweepBoundary(parser) && parser.inData
    ensures Aligned(fmt, parser, JUNK, []) && InTransmission(fmt, parser, JUNK)
  {
    NoiseIsIgnored(fmt, parser, JUNK);
    assert HexOnly(JUNK) == "" by {
      assert JUNK == ['.', '.', '.', '.'];
    }
  }

  /** Reading a part of the line without a fault delivers the images of the first pending sweeps. */
  lemma ReadOnTheLine(fmt: Format, parser: State, chunk: string, rest: string, pending: seq<seq<nat>>)
    requires fmt.Valid() && parser.Valid(fmt)
    requires Aligned(fmt, parser, chunk + rest, pending)
    requires Decode(fmt, parser, chunk).fault.None?
    ensures var o := Decode(fmt, parser, chunk);
      var frames := SweepsOf(o.items);
      && |frames| <= SoundPrefix(fmt, pending)
      && frames == Images(fmt, pending[..|frames|])
      && Aligned(fmt, o.state, rest, pending[|frames|..])
      && NobodySaysStopped(o.items)
      && (InTransmission(fmt, parser, chunk + rest) ==> InTransmission(fmt, o.state, rest))
  {
    hide Decode, SweepsOf, SaysStopped, SoundPrefix;
    DecodeConcat(fmt, parser, chunk, rest);
    var o := Decode(fmt, parser, chunk);
    var p := Decode(fmt, o.state, rest);
    ItemsConcat(o.items, p.items);
    var frames, more := SweepsOf(o.items), SweepsOf(p.items);
    var k := SoundPrefix(fmt, pending);
    assert frames + more == Images(fmt, pending[..k]);
    assert frames == Images(fmt, pending[..k])[..|frames|] == Images(fmt, pending[..|frames|]);
    var later := pending[|frames|..];
    SoundPrefixDrop(fmt, pending, |frames|);
    assert pending[..k][|frames|..] == later[..k - |frames|];
    assert more == Images(fmt, pending[..k])[|frames|..] == Images(fmt, later[..k - |frames|]);
    StopInParts(o.items, p.items);
  }

  lemma StopInParts(a: seq<Item>, b: seq<Item>)
    requires NobodySaysStopped(a + b)
    ensures NobodySaysStopped(a) && NobodySaysStopped(b)
  {
    forall i | 0 <= i < |a| && a[i].Message?
      ensures !Contains(a[i].text, "Stopped")
    {
      assert (a + b)[i] == a[i];
    }
    forall i | 0 <= i < |b| && b[i].Message?
      ensures !Contains(b[i].text, "Stopped")
    {
      assert (a + b)[|a| + i] == b[i];
    }
  }

  lemma {:induction false} SoundPrefixDrop(fmt: Format, sweeps: seq<seq<nat>>, n: nat)
    requires n <= SoundPrefix(fmt, sweeps)
    ensures SoundPrefix(fmt, sweeps[n..]) == SoundPrefix(fmt, sweeps) - n
    decreases n
  {
    if n == 0 {
      assert sweeps[0..] == sweeps;
    } else {
      SoundPrefixDrop(fmt, sweeps[1..], n - 1);
      assert sweeps[1..][n - 1..] == sweeps[n..];
    }
  }

  /** Nothing is pending on an empty line, and the parser stands at a sweep boundary. */
  lemma EmptyLine(host: Host, dev: Device, parser: State, pending: seq<seq<nat>>)
    requires LineInStep(host, dev, parser, pending) && dev.out == ""
    ensures pending == [] && AtSweepBoundary(parser) && (dev.running ==> parser.inData)
  {
    hide Barren, SoundPrefix;
    assert |Images(host.Fmt(), pending[..SoundPrefix(host.Fmt(), pending)])| == |SweepsOf([])|;
  }

  /** A read that finds the line empty fills it, and it stays in step. */
  lemma FillingStaysInStep(host: Host, dev: Device, parser: State, pending: seq<seq<nat>>, level: nat -> nat)
    requires LineInStep(host, dev, parser, pending) && dev.readErrors == 0
    ensures LineInStep(host, Filled(dev, level), parser,
      pending + if Emits(dev) then [SweepSamples(dev, level)] else [])
  {
    hide Aligned, InTransmission, Barren, Encode;
    var fmt := host.Fmt();
    assert pending + [] == pending;
    if dev.running && dev.out == "" && dev.nchannels > 0 {
      EmptyLine(host, dev, parser, pending);
      if dev.noise {
        JunkOnTheLine(fmt, parser);
        NothingSentYet(fmt, JUNK);
      } else {
        var raw := SweepSamples(dev, level);
        assert Sound(fmt, raw) || raw[0] == CORRUPT_SAMPLE;
        SweepOnTheLine(fmt, parser, raw);
        DigitsAreBarren(fmt, Encode(raw));
        assert pending + [raw] == [raw];
      }
    }
  }

  /** The frames are the images of the first pending sweeps, all of them sound. */
  predicate FirstOf(fmt: Format, frames: seq<seq<nat>>, pending: seq<seq<nat>>) {
    |frames| <= SoundPrefix(fmt, pending) && frames == Images(fmt, pending[..|frames|])
  }

  /** Frames read off the line are the next sweeps emitted, in order. */
  lemma DeliverMore(
    fmt: Format, frames: seq<seq<nat>>, emitted: seq<seq<nat>>, source: seq<nat>, settled: nat, more: seq<seq<nat>>)
    returns (source': seq<nat>)
    requires Delivered(fmt, frames, emitted, source, settled)
    requires FirstOf(fmt, more, emitted[settled..])
    ensures settled + |more| <= |emitted|
    ensures Delivered(fmt, frames + more, emitted, source', settled + |more|)
  {
    var added := seq(|more|, i requires 0 <= i < |more| => settled + i);
    source' := source + added;
    forall k | 0 <= k < |source'|
      ensures source'[k] < settled + |more|
      ensures Sound(fmt, emitted[source'[k]]) && (frames + more)[k] == Image(fmt, emitted[source'[k]])
    {
      if k >= |source| {
        var i := k - |source|;
        assert source'[k] == settled + i && emitted[settled..][i] == emitted[settled + i];
        assert emitted[settled..][..|more|][i] == emitted[settled..][i];
      }
    }
  }

  lemma SettledIsEmitted(
    fmt: Format, frames: seq<seq<nat>>, emitted: seq<seq<nat>>, source: seq<nat>, settled: nat)
    requires Delivered(fmt, frames, emitted, source, settled)
    ensures settled <= |emitted|
  {
  }

  /** Sweeps lost on the line are lost for good: everything emitted so far may be settled. */
  lemma SettleAll(fmt: Format, frames: seq<seq<nat>>, emitted: seq<seq<nat>>, source: seq<nat>, settled: nat)
    requires Delivered(fmt, frames, emitted, source, settled)
    ensures Delivered(fmt, frames, emitted, source, |emitted|)
  {
  }

  lemma EmitMore(
    fmt: Format, frames: seq<seq<nat>>, emitted: seq<seq<nat>>, source: seq<nat>, settled: nat, more: seq<seq<nat>>)
    requires Delivered(fmt, frames, emitted, source, settled)
    ensures Delivered(fmt, frames, emitted + more, source, settled)
    ensures (emitted + more)[settled..] == emitted[settled..] + more
  {
  }

  // ---- Recovering ----

  lemma StartedDecodes(fmt: Format)
    requires fmt.Valid()
    ensures Decode(fmt, START, STARTED) == Outcome(START, [Message("CRX:Started")], None)
  {
    hide Decode, DecodeAscii;
    var body := "CRX:Started";
    StartedText(body);
    WholeMessage(fmt, START, body);
  }

  lemma StartedText(body: string)
    requires body == "CRX:Started"
    ensures STARTED == [MESSAGE_START] + body + [MESSAGE_END]
    ensures DecodeAscii(body) == body && MESSAGE_END !in body
  {
  }

  lemma {:induction false} NotContained(s: string, t: string)
    requires forall i :: 0 <= i <= |s| ==> !(t <= s[i..])
    ensures !Contains(s, t)
    decreases |s|
  {
    assert s[0..] == s;
    if s != "" {
      forall i | 0 <= i <= |s[1..]|
        ensures !(t <= s[1..][i..])
      {
        assert s[1..][i..] == s[i + 1..];
      }
      NotContained(s[1..], t);
    }
  }

  lemma StartedIsNotStopped()
    ensures !Contains("CRX:Started", "Stopped")
  {
    var s, t := "CRX:Started", "Stopped";
    forall i | 0 <= i <= |s|
      ensures !(t <= s[i..])
    {
      if i + 2 < |s| {
        assert s[i..][0] == s[i] && s[i..][2] == s[i + 2];
      }
    }
    NotContained(s, t);
  }

  lemma StartedIsBarren(fmt: Format, alive: bool)
    requires fmt.Valid()
    ensures Barren(fmt, if alive then STARTED + [DATA_START] else STARTED)
  {
    assert forall i :: 0 <= i < |STARTED| ==> STARTED[i] != DATA_START;
    NothingSentYet(fmt, if alive then STARTED + [DATA_START] else STARTED);
  }

  /** A line of messages without a stop keeps everything in step, and so does a start of a transmission behind it. */
  lemma QuietLine(fmt: Format, line: string, items: seq<Item>)
    requires fmt.Valid() && Decode(fmt, START, line) == Outcome(START, items, None)
    requires SweepsOf(items) == [] && NobodySaysStopped(items)
    ensures Aligned(fmt, START, line, [])
    ensures Aligned(fmt, START, line + [DATA_START], []) && InTransmission(fmt, START, line + [DATA_START])
  {
    DecodeConcat(fmt, START, line, [DATA_START]);
    OneByte(fmt, START, DATA_START);
    hide Decode, SweepsOf, SaysStopped;
    assert items + [] == items && Images(fmt, []) == [];
  }

  /** What the receiver says on a fresh start: a message, and the start of a transmission unless it is dead. */
  lemma StartedLine(fmt: Format, alive: bool)
    requires fmt.Valid()
    ensures var line := if alive then STARTED + [DATA_START] else STARTED;
      Aligned(fmt, START, line, []) && (alive ==> InTransmission(fmt, START, line))
  {
    hide Decode, Aligned, InTransmission;
    var items := [Message("CRX:Started")];
    StartedDecodes(fmt);
    StartedIsNotStopped();
    assert items[1..] == [] && SweepsOf(items) == [] && NobodySaysStopped(items);
    QuietLine(fmt, STARTED, items);
  }

  /** Arming a quiet receiver of the right kind puts the line in step with a fresh parser. */
  lemma ArmedLine(host: Host, quiet: Device)
    requires host.Fmt().Valid() && quiet.version.TenBit() == host.firmware.data10bit
    requires quiet.cmd == "" && quiet.out == "" && !quiet.running
    requires var n := SetLength(quiet, host.nchannels); n == host.nchannels || n <= 0
    ensures var d := Armed(quiet, host);
      && LineInStep(host, d, START, [])
      && d.readErrors == quiet.readErrors && d.running == !quiet.dead
      && d.out == if quiet.dead then STARTED else STARTED + [DATA_START]
  {
    hide Aligned, InTransmission, Barren, Armed, SetLength;
    ArmedReceiver(quiet, host);
    StartedLine(host.Fmt(), !quiet.dead);
    StartedIsBarren(host.Fmt(), !quiet.dead);
    assert "" + STARTED == STARTED && "" + STARTED + [DATA_START] == STARTED + [DATA_START];
  }

  /** A soft reset without a read error in its drain puts the line back in step with a fresh parser. */
  lemma ResetRealigns(host: Host, dev: Device)
    requires host.Fmt().Valid() && Matches(host, dev) && dev.readErrors == 0
    ensures var (d, rx) := SoftlyReset(dev, "", host);
      && rx == "" && d.readErrors == 0
      && LineInStep(host, d, START, [])
      && d.running == !dev.dead
  {
    hide LineInStep, SoftlyReset, Armed, Decode, Written;
    SoftResetReceiver(dev, "", host);
    ArmedLine(host, dev.(running := false, out := ""));
  }

  /** The receiver streams again, in step, exactly when no read error falls into the drain. */
  lemma RecoveryWorksExactlyWithoutDrainError(host: Host, dev: Device)
    requires host.Fmt().Valid() && Matches(host, dev) && !dev.dead
    ensures var (d, rx) := SoftlyReset(dev, "", host);
      (d.running && rx == "" && LineInStep(host, d, START, [])) <==> dev.readErrors == 0
  {
    if dev.readErrors == 0 {
      ResetRealigns(host, dev);
    } else {
      SoftResetReceiver(dev, "", host);
    }
  }

  // ---- One iteration ----

  /** Faults that are injected one read error at a time, so that none is left for the drain. */
  predicate SingleErrors(faults: seq<Fault>) {
    forall i :: 0 <= i < |faults| && faults[i].ReadErrors? ==> faults[i].times <= 1
  }

  /** No fault says anything on the line, or starts a receiver. */
  lemma {:induction false} InjectIsSilent(dev: Device, faults: seq<Fault>)
    ensures var d := Inject(dev, faults);
      && d.out == dev.out && d.cmd == dev.cmd && d.version == dev.version && d.nchannels == dev.nchannels
      && (d.running ==> dev.running)
      && (dev.readErrors <= 1 && SingleErrors(faults) ==> d.readErrors <= 1)
    decreases |faults|
  {
    if faults != [] {
      InjectIsSilent(InjectOne(dev, faults[0]), faults[1..]);
    }
  }

  lemma InjectStaysInStep(host: Host, dev: Device, faults: seq<Fault>, parser: State, pending: seq<seq<nat>>)
    requires LineInStep(host, dev, parser, pending)
    ensures LineInStep(host, Inject(dev, faults), parser, pending)
    ensures Inject(dev, faults).out == dev.out
  {
    hide Aligned, InTransmission, Barren, Inject;
    InjectIsSilent(dev, faults);
  }

  /** Whatever the loop does to the port after a recovery, the line is in step afterwards. */
  lemma MoveRealigns(host: Host, dev: Device, move: Move)
    requires host.Fmt().Valid() && Matches(host, dev) && dev.readErrors == 0
    requires move.SoftReset? || move.Reopen?
    ensures var (d, rx) := Moved(dev, "", move, host);
      rx == "" && d.readErrors == 0 && LineInStep(host, d, START, [])
  {
    ResetRealigns(host, dev);
    ResetRealigns(host, Closed(dev));
  }

  /**
   A stream after a reset whose drain has failed: the receiver is quiet, and the bytes it left behind yield no sweep,
   not even to a parser that starts afresh among them.
   */
  predicate Stranded(host: Host, dev: Device, parser: State) {
    && host.Fmt().Valid() && parser.Valid(host.Fmt())
    && Matches(host, dev) && !dev.running
    && Sweepless(host.Fmt(), parser, dev.out) && Barren(host.Fmt(), dev.out)
  }

  /** A running stream is in step or stranded, and its frames so far are faithful. */
  predicate Going(host: Host, sys: System, source: seq<nat>, settled: nat) {
    || InStep(host, sys, source, settled)
    || (&& sys.rx == "" && Delivered(host.Fmt(), sys.run.frames, sys.emitted, source, settled)
        && Stranded(host, sys.dev, sys.run.loop.parser))
  }

  /** What an iteration promises: deliveries stay faithful, and the stream goes on in one of the two ways. */
  predicate Kept(host: Host, next: System, source: seq<nat>, settled: nat) {
    && Delivered(host.Fmt(), next.run.frames, next.emitted, source, settled)
    && (next.run.loop.running ==> Going(host, next, source, settled))
  }

  /** The same, in step, and the stream only ends on a stop or by giving up. */
  predicate KeptInStep(host: Host, next: System, source: seq<nat>, settled: nat, stop: bool) {
    && Delivered(host.Fmt(), next.run.frames, next.emitted, source, settled)
    && (next.run.loop.running ==> InStep(host, next, source, settled))
    && (!next.run.loop.running ==> stop || next.run.fatal.Some?)
  }

  lemma FailedResetStrands(host: Host, dev: Device)
    requires host.Fmt().Valid() && Matches(host, dev) && Barren(host.Fmt(), dev.out) && dev.readErrors > 0
    ensures var (d, rx) := SoftlyReset(dev, "", host);
      rx == "" && Stranded(host, d, START) && d.readErrors == dev.readErrors - 1
  {
    hide SoftlyReset, Sweepless, Barren, Decode;
    FailedReset(dev, "", host);
    AnswerAppended(dev.out, dev.running);
    BarrenWithAnswer(host.Fmt(), dev.out, dev.running);
    BarrenFromStart(host.Fmt(), dev.out + ResetAnswer(dev.running));
  }

  /** A recovery that starts on a line with nothing but leftovers: in step without a read error, else stranded. */
  lemma MoveRealignsOrStrands(host: Host, dev: Device, move: Move)
    requires host.Fmt().Valid() && Matches(host, dev) && Barren(host.Fmt(), dev.out)
    requires move.SoftReset? || move.Reopen?
    ensures var (d, rx) := Moved(dev, "", move, host);
      && rx == ""
      && (if dev.readErrors == 0 then d.readErrors == 0 && LineInStep(host, d, START, []) else Stranded(host, d, START))
  {
    hide LineInStep, SoftlyReset, Stranded, Barren;
    if dev.readErrors == 0 {
      MoveRealigns(host, dev, move);
    } else {
      FailedResetStrands(host, dev);
      FailedResetStrands(host, Closed(dev));
    }
  }

  lemma AnswerAppended(line: string, open: bool)
    ensures line + (if open then [DATA_END] + STOPPED else "") + ID_RESPONSE == line + ResetAnswer(open)
  {
  }

  lemma BarrenFromStart(fmt: Format, line: string)
    requires fmt.Valid() && Barren(fmt, line)
    ensures Sweepless(fmt, START, line)
  {
    assert line[0..] == line;
  }

  /** An iteration whose read fails, from either kind of stream. */
  lemma FailedRead(host: Host, sys: System, ev: Event, source: seq<nat>, settled: nat)
    requires Going(host, sys, source, settled) && sys.run.loop.running
    requires Inject(sys.dev, ev.faults).readErrors > 0
    ensures Kept(host, PlayOne(host, sys, ev), source, |sys.emitted|)
    ensures Inject(sys.dev, ev.faults).readErrors == 1 || ev.stop ==>
      KeptInStep(host, PlayOne(host, sys, ev), source, |sys.emitted|, ev.stop)
    ensures var next := PlayOne(host, sys, ev); !next.run.loop.running ==> ev.stop || next.run.fatal.Some?
  {
    hide Inject, Aligned, InTransmission, Written, SoftlyReset, Decode, Filled, Barren, Sweepless;
    var fmt := host.Fmt();
    InjectIsSilent(sys.dev, ev.faults);
    var before := Inject(sys.dev, ev.faults);
    var dev := before.(readErrors := before.readErrors - 1);
    assert ReadStep(before, READ_CHUNK, ev.level) == (dev, Failed);
    SettleAll(fmt, sys.run.frames, sys.emitted, source, settled);
    hide Delivered;
    assert sys.run.frames + [] == sys.run.frames && sys.emitted + [] == sys.emitted;
    assert sys.emitted[|sys.emitted|..] == [];
    var s := Recovered(sys.run.loop.(running := !ev.stop), ev.times, []);
    if !ev.stop && !s.move.GiveUp? {
      MoveRealignsOrStrands(host, dev, s.move);
    }
  }

  lemma CorruptChunkKeepsStep(host: Host, sys: System, ev: Event, source: seq<nat>, settled: nat)
    requires InStep(host, sys, source, settled)
    requires Inject(sys.dev, ev.faults).readErrors == 0
    requires var read := TickOf(sys, ev).read;
      read.Got? && Decode(host.Fmt(), sys.run.loop.parser, read.bytes).fault.Some?
    ensures KeptInStep(host, PlayOne(host, sys, ev), source, |PlayOne(host, sys, ev).emitted|, ev.stop)
  {
    hide Inject, Aligned, InTransmission, Written, SoftlyReset, Decode, Encode, SweepSamples, Barren;
    var fmt := host.Fmt();
    InjectStaysInStep(host, sys.dev, ev.faults, sys.run.loop.parser, sys.emitted[settled..]);
    hide Delivered;
    var before := Inject(sys.dev, ev.faults);
    var (dev, r) := ReadStep(before, READ_CHUNK, ev.level);
    var more := if Emits(before) then [SweepSamples(before, ev.level)] else [];
    EmitMore(fmt, sys.run.frames, sys.emitted, source, settled, more);
    SettleAll(fmt, sys.run.frames, sys.emitted + more, source, settled);
    assert sys.run.frames + [] == sys.run.frames;
    assert (sys.emitted + more)[|sys.emitted + more|..] == [];
    var s := Recovered(sys.run.loop.(running := !ev.stop), ev.times, []);
    if !ev.stop && !s.move.GiveUp? {
      MoveRealigns(host, dev, s.move);
    }
  }

  /** What a fault-free read takes off a line in step, and what it leaves there. */
  lemma ReadStaysInStep(host: Host, dev: Device, parser: State, chunk: string, rest: string, pending: seq<seq<nat>>)
    requires LineInStep(host, dev, parser, pending) && dev.out == chunk + rest
    requires Decode(host.Fmt(), parser, chunk).fault.None?
    ensures var o := Decode(host.Fmt(), parser, chunk);
      var frames := SweepsOf(o.items);
      && FirstOf(host.Fmt(), frames, pending)
      && LineInStep(host, dev.(out := rest), o.state, pending[|frames|..])
      && NobodySaysStopped(o.items)
  {
    hide Decode, SweepsOf, SaysStopped, SoundPrefix, Aligned, InTransmission, Barren;
    BarrenRest(host.Fmt(), chunk, rest);
    ReadOnTheLine(host.Fmt(), parser, chunk, rest, pending);
  }

  lemma LineIsValid(host: Host, dev: Device, parser: State, pending: seq<seq<nat>>)
    requires LineInStep(host, dev, parser, pending)
    ensures host.Fmt().Valid() && parser.Valid(host.Fmt())
  {
  }

  lemma TakeAndDrop(s: string, size: nat)
    ensures Take(s, size) + Drop(s, size) == s
  {
  }

  /** A chunk has been read off a line in step: the frames it completed are delivered, and the line is still in step. */
  predicate ChunkDelivered(
    host: Host, dev: Device, parser: State, frames: seq<seq<nat>>, emitted: seq<seq<nat>>, source: seq<nat>,
    settled: nat)
    requires host.Fmt().Valid() && parser.Valid(host.Fmt())
  {
    var o := Decode(host.Fmt(), parser, Take(dev.out, READ_CHUNK));
    var more := SweepsOf(o.items);
    && NobodySaysStopped(o.items)
    && settled + |more| <= |emitted|
    && Delivered(host.Fmt(), frames + more, emitted, source, settled + |more|)
    && LineInStep(host, dev.(out := Drop(dev.out, READ_CHUNK)), o.state, emitted[settled + |more|..])
  }

  lemma DropTwice<T>(s: seq<T>, a: nat, b: nat)
    requires a + b <= |s|
    ensures s[a..][b..] == s[a + b..]
  {
  }

  lemma ChunkIsDelivered(
    host: Host, dev: Device, parser: State, frames: seq<seq<nat>>, emitted: seq<seq<nat>>, source: seq<nat>,
    settled: nat)
    returns (source': seq<nat>)
    requires Delivered(host.Fmt(), frames, emitted, source, settled)
    requires LineInStep(host, dev, parser, emitted[settled..])
    requires Decode(host.Fmt(), parser, Take(dev.out, READ_CHUNK)).fault.None?
    ensures ChunkDelivered(host, dev, parser, frames, emitted, source', settled)
  {
    hide *;
    SettledIsEmitted(host.Fmt(), frames, emitted, source, settled);
    var chunk, pending := Take(dev.out, READ_CHUNK), emitted[settled..];
    LineIsValid(host, dev, parser, pending);
    TakeAndDrop(dev.out, READ_CHUNK);
    ReadStaysInStep(host, dev, parser, chunk, Drop(dev.out, READ_CHUNK), pending);
    var more := SweepsOf(Decode(host.Fmt(), parser, chunk).items);
    source' := DeliverMore(host.Fmt(), frames, emitted, source, settled, more);
    DropTwice(emitted, settled, |more|);
    ChunkIsWhole(host, dev, parser, frames, emitted, source', settled, more);
  }

  lemma ChunkIsWhole(
    host: Host, dev: Device, parser: State, frames: seq<seq<nat>>, emitted: seq<seq<nat>>, source: seq<nat>,
    settled: nat, more: seq<seq<nat>>)
    requires host.Fmt().Valid() && parser.Valid(host.Fmt()) && settled + |more| <= |emitted|
    requires var o := Decode(host.Fmt(), parser, Take(dev.out, READ_CHUNK));
      && more == SweepsOf(o.items) && NobodySaysStopped(o.items)
      && LineInStep(host, dev.(out := Drop(dev.out, READ_CHUNK)), o.state, emitted[settled + |more|..])
    requires Delivered(host.Fmt(), frames + more, emitted, source, settled + |more|)
    ensures ChunkDelivered(host, dev, parser, frames, emitted, source, settled)
  {
    hide Decode, LineInStep, Delivered, SweepsOf, SaysStopped;
  }

  /** After a good chunk, with the sweep that the read made the receiver emit. */
  lemma GoodChunkIsDelivered(host: Host, sys: System, before: Device, level: nat -> nat, source: seq<nat>, settled: nat)
    returns (source': seq<nat>)
    requires Delivered(host.Fmt(), sys.run.frames, sys.emitted, source, settled)
    requires before.readErrors == 0 && LineInStep(host, before, sys.run.loop.parser, sys.emitted[settled..])
    requires Decode(host.Fmt(), sys.run.loop.parser, Take(Filled(before, level).out, READ_CHUNK)).fault.None?
    ensures var emitted := sys.emitted + if Emits(before) then [SweepSamples(before, level)] else [];
      ChunkDelivered(host, Filled(before, level), sys.run.loop.parser, sys.run.frames, emitted, source', settled)
  {
    hide LineInStep, Filled, Take, Delivered, Decode, SweepSamples, ChunkDelivered;
    var parser := sys.run.loop.parser;
    var more := if Emits(before) then [SweepSamples(before, level)] else [];
    EmitMore(host.Fmt(), sys.run.frames, sys.emitted, source, settled, more);
    FillingStaysInStep(host, before, parser, sys.emitted[settled..], level);
    source' := ChunkIsDelivered(
      host, Filled(before, level), parser, sys.run.frames, sys.emitted + more, source, settled);
  }

  /** What the port operation leaves when nobody has stopped the stream. */
  predicate Rearmed(host: Host, dev: Device, rx: string, move: Move, dev': Device, rx': string) {
    if move.SoftReset? || move.Reopen? then rx' == "" && dev'.readErrors == 0 && LineInStep(host, dev', START, [])
    else dev' == dev && rx' == rx
  }

  lemma MoveRearms(host: Host, dev: Device, move: Move)
    requires host.Fmt().Valid() && Matches(host, dev) && dev.readErrors == 0
    ensures var (dev', rx') := Moved(dev, "", move, host); Rearmed(host, dev, "", move, dev', rx')
  {
    if move.SoftReset? || move.Reopen? {
      MoveRealigns(host, dev, move);
    }
  }

  /** The rest of the iteration after a good chunk: nothing, or a recovery because of a stall. */
  lemma AcceptedKeepsStep(
    host: Host, run: Run, loop: Loop, dev: Device, o: Outcome, emitted: seq<seq<nat>>, ev: Event, source: seq<nat>,
    settled: nat, dev': Device, rx': string)
    returns (settled': nat)
    requires host.Fmt().Valid() && o.state.Valid(host.Fmt()) && dev.readErrors == 0 && NobodySaysStopped(o.items)
    requires Delivered(host.Fmt(), run.frames + SweepsOf(o.items), emitted, source, settled)
    requires LineInStep(host, dev, o.state, emitted[settled..])
    requires var s := Accepted(NoDataTimeout(host.sweepsPerSecond), loop, o, ev.stop, ev.times);
      !ev.stop ==> Rearmed(host, dev, "", s.move, dev', rx')
    ensures var s := Accepted(NoDataTimeout(host.sweepsPerSecond), loop, o, ev.stop, ev.times);
      KeptInStep(host, System(dev', rx', Logged(run, s, ev.times), emitted), source, settled', ev.stop)
  {
    var s := Accepted(NoDataTimeout(host.sweepsPerSecond), loop, o, ev.stop, ev.times);
    settled' := settled;
    if s.move.SoftReset? || s.move.Reopen? {
      SettleAll(host.Fmt(), run.frames + SweepsOf(o.items), emitted, source, settled);
      settled' := |emitted|;
      assert emitted[settled'..] == [];
    }
  }

  lemma GoodChunkKeepsStep(host: Host, sys: System, ev: Event, source: seq<nat>, settled: nat)
    returns (source': seq<nat>, settled': nat)
    requires InStep(host, sys, source, settled)
    requires Inject(sys.dev, ev.faults).readErrors == 0
    requires var read := TickOf(sys, ev).read;
      read.Got? && Decode(host.Fmt(), sys.run.loop.parser, read.bytes).fault.None?
    ensures KeptInStep(host, PlayOne(host, sys, ev), source', settled', ev.stop)
  {
    hide Inject, Aligned, InTransmission, Written, SoftlyReset, Decode, KeptInStep, SweepSamples, Barren;
    InjectStaysInStep(host, sys.dev, ev.faults, sys.run.loop.parser, sys.emitted[settled..]);
    hide Delivered;
    var before := Inject(sys.dev, ev.faults);
    var (dev, r) := ReadStep(before, READ_CHUNK, ev.level);
    assert sys.rx + r.bytes == r.bytes;
    source' := GoodChunkIsDelivered(host, sys, before, ev.level, source, settled);
    var o := Decode(host.Fmt(), sys.run.loop.parser, r.bytes);
    var emitted := sys.emitted + if Emits(before) then [SweepSamples(before, ev.level)] else [];
    var s := Accepted(NoDataTimeout(host.sweepsPerSecond), sys.run.loop, o, ev.stop, ev.times);
    var (dev', rx') := Moved(if ev.stop then Written(dev, STOP) else dev, "", s.move, host);
    MoveRearms(host, dev, s.move);
    settled' := AcceptedKeepsStep(
      host, sys.run, sys.run.loop, dev, o, emitted, ev, source', settled + |SweepsOf(o.items)|, dev', rx');
  }

  /** One iteration of a stream that is in step. */
  lemma IterationFromInStep(host: Host, sys: System, ev: Event, source: seq<nat>, settled: nat)
    returns (source': seq<nat>, settled': nat)
    requires InStep(host, sys, source, settled) && sys.run.loop.running
    ensures var next := PlayOne(host, sys, ev);
      && Kept(host, next, source', settled')
      && (!next.run.loop.running ==> ev.stop || next.run.fatal.Some?)
      && (SingleErrors(ev.faults) ==> KeptInStep(host, next, source', settled', ev.stop))
  {
    if Inject(sys.dev, ev.faults).readErrors > 0 {
      source', settled' := source, |sys.emitted|;
      InjectIsSilent(sys.dev, ev.faults);
      FailedRead(host, sys, ev, source, settled);
    } else if Decode(host.Fmt(), sys.run.loop.parser, TickOf(sys, ev).read.bytes).fault.Some? {
      source', settled' := source, |PlayOne(host, sys, ev).emitted|;
      CorruptChunkKeepsStep(host, sys, ev, source, settled);
    } else {
      source', settled' := GoodChunkKeepsStep(host, sys, ev, source, settled);
    }
  }

  /** What a read takes off a stranded line, and what it leaves there. */
  lemma StrandedChunk(host: Host, dev: Device, parser: State, chunk: string, rest: string)
    requires Stranded(host, dev, parser) && dev.out == chunk + rest
    ensures var o := Decode(host.Fmt(), parser, chunk);
      && (o.fault.None? ==> SweepsOf(o.items) == [] && Stranded(host, dev.(out := rest), o.state))
      && Barren(host.Fmt(), rest)
  {
    hide Decode, Barren, SweepsOf;
    BarrenRest(host.Fmt(), chunk, rest);
    SweeplessParts(host.Fmt(), parser, chunk, rest);
  }

  /** The step that a chunk without a whole sweep leads to: no frame, and the parser is left behind or starts afresh. */
  lemma FramelessStep(fmt: Format, timeout: real, loop: Loop, tick: Tick)
    requires fmt.Valid() && loop.parser.Valid(fmt) && tick.read.Got?
    requires var o := Decode(fmt, loop.parser, tick.read.bytes); o.fault.None? ==> SweepsOf(o.items) == []
    ensures var s := LoopStep(fmt, timeout, loop, tick);
      && s.frames == []
      && (s.move.Stay? ==>
        (var o := Decode(fmt, loop.parser, tick.read.bytes); o.fault.None? && s.loop.parser == o.state))
      && (s.move.SoftReset? || s.move.Reopen? ==> s.loop.parser == START)
      && (s.move.GiveUp? ==> !s.loop.running)
      && (s.loop.running ==> !tick.stop)
  {
    hide Decode, SweepsOf, SaysStopped, Expired;
  }

  /** A read of a stranded line: no frame, and either a recovery that works, or less of the same. */
  lemma StrandedRead(host: Host, sys: System, ev: Event, source: seq<nat>, settled: nat)
    requires sys.rx == "" && Delivered(host.Fmt(), sys.run.frames, sys.emitted, source, settled)
    requires Stranded(host, sys.dev, sys.run.loop.parser) && Inject(sys.dev, ev.faults).readErrors == 0
    ensures Kept(host, PlayOne(host, sys, ev), source, |sys.emitted|)
  {
    hide Inject, Written, SoftlyReset, Decode, SweepsOf, LoopStep, ReadStep, Matches, LineInStep, Barren, Sweepless;
    var fmt, parser := host.Fmt(), sys.run.loop.parser;
    SettleAll(fmt, sys.run.frames, sys.emitted, source, settled);
    hide Delivered;
    var before := Inject(sys.dev, ev.faults);
    var chunk, rest := Take(before.out, READ_CHUNK), Drop(before.out, READ_CHUNK);
    ReadOfStranded(host, sys, ev);
    StrandedChunk(host, before, parser, chunk, rest);
    FramelessStep(fmt, NoDataTimeout(host.sweepsPerSecond), sys.run.loop, TickOf(sys, ev));
    PlayOneInParts(host, sys, ev);
    hide PlayOne, Stranded;
    assert sys.run.frames + [] == sys.run.frames;
    var s := LoopStep(fmt, NoDataTimeout(host.sweepsPerSecond), sys.run.loop, TickOf(sys, ev));
    if s.loop.running && (s.move.SoftReset? || s.move.Reopen?) {
      MoveRealigns(host, before.(out := rest), s.move);
      assert sys.emitted[|sys.emitted|..] == [];
    }
  }

  /** Nothing is emitted, and the read takes its bytes off the line as it was. */
  lemma ReadOfStranded(host: Host, sys: System, ev: Event)
    requires sys.rx == "" && Stranded(host, sys.dev, sys.run.loop.parser) && Inject(sys.dev, ev.faults).readErrors == 0
    ensures var before := Inject(sys.dev, ev.faults);
      var chunk, rest := Take(before.out, READ_CHUNK), Drop(before.out, READ_CHUNK);
      && chunk + rest == before.out && !Emits(before)
      && Stranded(host, before, sys.run.loop.parser) && Matches(host, before.(out := rest))
      && ReadStep(before, READ_CHUNK, ev.level) == (before.(out := rest), Got(chunk))
      && TickOf(sys, ev) == Tick(Got(chunk), ev.stop, ev.times)
  {
    hide Inject, Sweepless, Barren;
    InjectIsSilent(sys.dev, ev.faults);
    var chunk := Take(Inject(sys.dev, ev.faults).out, READ_CHUNK);
    assert sys.rx + chunk == chunk;
  }

  /** One iteration, whatever read, fault, stall and recovery it meets. */
  lemma IterationKeepsFaith(host: Host, sys: System, ev: Event, source: seq<nat>, settled: nat)
    returns (source': seq<nat>, settled': nat)
    requires Going(host, sys, source, settled) && sys.run.loop.running
    ensures Kept(host, PlayOne(host, sys, ev), source', settled')
  {
    if Inject(sys.dev, ev.faults).readErrors > 0 {
      source', settled' := source, |sys.emitted|;
      FailedRead(host, sys, ev, source, settled);
    } else if InStep(host, sys, source, settled) {
      source', settled' := IterationFromInStep(host, sys, ev, source, settled);
    } else {
      source', settled' := source, |sys.emitted|;
      StrandedRead(host, sys, ev, source, settled);
    }
  }

  // ---- Whole runs ----

  predicate ScriptSingleErrors(script: seq<Event>) {
    forall i :: 0 <= i < |script| ==> SingleErrors(script[i].faults)
  }

  predicate SomeStop(script: seq<Event>) {
    exists i :: 0 <= i < |script| && script[i].stop
  }

  /** The invariant over every run, from a stream in step or stranded. */
  lemma {:induction false} PlayKeepsFaith(host: Host, sys: System, script: seq<Event>, source: seq<nat>, settled: nat)
    returns (source': seq<nat>, settled': nat)
    requires Going(host, sys, source, settled) && sys.run.loop.running
    ensures Kept(host, Play(host, sys, script), source', settled')
    decreases |script|
  {
    source', settled' := source, settled;
    if script != [] {
      source', settled' := IterationKeepsFaith(host, sys, script[0], source, settled);
      hide Going, PlayOne;
      var next := PlayOne(host, sys, script[0]);
      if next.run.loop.running {
        source', settled' := PlayKeepsFaith(host, next, script[1..], source', settled');
      } else {
        assert Play(host, next, script[1..]) == next;
      }
    }
  }

  /** With read errors that come one at a time the stream stays in step as long as it runs. */
  lemma {:induction false} PlayKeepsStep(host: Host, sys: System, script: seq<Event>, source: seq<nat>, settled: nat)
    returns (source': seq<nat>, settled': nat)
    requires InStep(host, sys, source, settled) && sys.run.loop.running && ScriptSingleErrors(script)
    ensures KeptInStep(host, Play(host, sys, script), source', settled', SomeStop(script))
    decreases |script|
  {
    source', settled' := source, settled;
    if script != [] {
      source', settled' := IterationFromInStep(host, sys, script[0], source, settled);
      hide InStep, PlayOne;
      var next := PlayOne(host, sys, script[0]);
      if next.run.loop.running {
        source', settled' := PlayKeepsStep(host, next, script[1..], source', settled');
        if SomeStop(script[1..]) {
          var i :| 0 <= i < |script[1..]| && script[1..][i].stop;
          assert script[i + 1].stop;
        }
      } else {
        assert Play(host, next, script[1..]) == next;
        assert script[0].stop ==> SomeStop(script);
      }
    }
  }

  /**
   The closed loop, over every run: under any mix of stalls, a dying receiver, junk, corrupt samples
   and read errors, every frame delivered is the 8-bit image of one whole sweep the receiver emitted,
   none of them corrupt, in the order of emission and none twice. When read errors come one at a time,
   the stream ends only when it is stopped or gives up.
   */
  lemma EveryFrameIsAnEmittedSweep(host: Host, sys: System, script: seq<Event>)
    requires InStep(host, sys, [], |sys.emitted|) && sys.run.loop.running && sys.run.frames == []
    ensures var r := Play(host, sys, script);
      && Faithful(host, r)
      && (ScriptSingleErrors(script) && !r.run.loop.running ==> SomeStop(script) || r.run.fatal.Some?)
  {
    var source, settled := PlayKeepsFaith(host, sys, script, [], |sys.emitted|);
    var r := Play(host, sys, script);
    SettleAll(host.Fmt(), r.run.frames, r.emitted, source, settled);
    DeliveredIsDrawn(host, r.run.frames, r.emitted, source);
    assert Faithful(host, r);
    if ScriptSingleErrors(script) {
      var _, _ := PlayKeepsStep(host, sys, script, [], |sys.emitted|);
    }
  }
}
