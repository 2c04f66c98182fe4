/**
 The Callisto driver (drivers/callisto/driver.py) on a simulated receiver. Every method changes the
 driver and the receiver in place as the source does, and is proved to follow its specification:
 the session functions for the handshake and the resets, and `ClosedLoop.Play` for the stream.
 */
module CallistoDriving {
  import opened Wrappers
  import opened StreamParsing
  import opened BatchDecoding
  import opened CallistoProtocol
  import opened SimulatedReceiver
  import opened StreamLoop
  import opened CallistoSession
  import opened SetupCommands
  import opened BarrenLines
  import opened ClosedLoop
  import opened Handshake

  /** The resets that have not left the window. */
  method PruneResets(resets: seq<real>, now: real) returns (kept: seq<real>)
    ensures kept == resets[Expired(resets, now)..]
  {
    kept := resets;
    while kept != [] && now - kept[0] > RESET_WINDOW
      invariant kept[Expired(kept, now)..] == resets[Expired(resets, now)..]
      decreases |kept|
    {
      kept := kept[1..];
    }
  }

  /** What `configure` ends with. */
  datatype Configuration = Configured | NoChannels | NotAcknowledged(answer: Answer)

  lemma InitEndsWithReturn(cfg: Config, rate: int, i: nat)
    requires i < |InitCommands(cfg, rate)|
    ensures var cmd := InitCommands(cfg, rate)[i]; |cmd| > 0 && cmd[|cmd| - 1] == '\r'
  {
  }

  lemma ChannelEndsWithReturn(index: nat, freq: real, fw: Firmware, lo: real, chargepump: bool)
    requires fw.ifInit >= 0.0
    ensures var cmd := ChannelCommand(index, freq, fw, lo, chargepump); |cmd| > 0 && cmd[|cmd| - 1] == '\r'
  {
  }

  lemma StartEndsWithReturn(focuscode: int, nchannels: nat)
    ensures var cmd := StartCommands(focuscode, nchannels); |cmd| > 0 && cmd[|cmd| - 1] == '\r'
  {
  }

  lemma OneMoreChannel(host: Host, freqs: seq<real>, k: nat)
    requires host.firmware.ifInit >= 0.0 && k < |freqs|
    ensures ChannelCommands(host, freqs[..k + 1]) == ChannelCommands(host, freqs[..k])
      + ChannelCommand(k, freqs[k], host.firmware, host.cfg.localOscillator, host.cfg.chargepump)
  {
    hide ChannelCommand;
    assert freqs[..k + 1][..k] == freqs[..k];
  }

  lemma ResetInParts(heard: string, host: Host)
    ensures heard + RESET + SetUp(host) + StartCommands(host.cfg.focuscode, host.nchannels)
      == heard + ResetCommands(host, true)
    ensures heard + RESET == heard + ResetCommands(host, false)
  {
    hide SetUp, StartCommands;
  }

  class CallistoDriver {
    const conn: SimulatedCallisto
    const cfg: Config
    var firmware: Firmware
    var nchannels: nat
    var sweepsPerSecond: real
    var running: bool
    var rx: string

    ghost predicate Valid()
      reads this, conn
    {
      conn.Valid() && conn.cmd == "" && firmware.ifInit >= 0.0
    }

    /** The settings as the specifications take them. */
    ghost function Settings(): Host
      reads this
    {
      Host(cfg, firmware, nchannels, sweepsPerSecond)
    }

    constructor (conn: SimulatedCallisto, cfg: Config)
      requires conn.Valid() && conn.cmd == ""
      ensures Valid() && this.conn == conn && this.cfg == cfg
      ensures !running && rx == "" && Settings() == Host(cfg, FIRMWARE_15, 0, 1.0)
    {
      this.conn, this.cfg := conn, cfg;
      firmware, nchannels, sweepsPerSecond, running, rx := FIRMWARE_15, 0, 1.0, false, "";
    }

    // ---- Reading ----

    /** Appends what a read gives; `got` is how many bytes came. */
    method Fill(level: nat -> nat) returns (ok: bool, got: nat)
      requires Valid()
      modifies `rx, conn
      ensures Valid()
      ensures var (d, r) := ReadStep(old(conn.Current()), READ_CHUNK, level);
        && conn.Current() == d
        && ok == r.Got?
        && rx == old(rx) + (if ok then r.bytes else "")
        && got == (if ok then |r.bytes| else 0)
      ensures conn.heard == old(conn.heard)
    {
      var r := conn.Read(READ_CHUNK, level);
      if r.Failed? {
        assert rx + "" == rx;
        return false, 0;
      }
      rx := rx + r.bytes;
      return true, |r.bytes|;
    }

    method ReadChunk(level: nat -> nat) returns (read: Read)
      requires Valid()
      modifies `rx, conn
      ensures Valid()
      ensures var (d, r) := ReadStep(old(conn.Current()), READ_CHUNK, level);
        && conn.Current() == d
        && read == Received(old(rx), r)
        && rx == if r.Failed? then old(rx) else ""
      ensures conn.heard == old(conn.heard)
    {
      var ok, got := Fill(level);
      if !ok {
        assert rx == old(rx);
        return Failed;
      }
      read := Got(rx);
      rx := "";
    }

    /** Throws away everything that a silent receiver still has to say. */
    method Drain() returns (ok: bool)
      requires Valid() && !conn.running
      modifies `rx, conn
      ensures Valid()
      ensures var dev := old(conn.Current());
        if dev.readErrors > 0 then !ok && rx == old(rx) && conn.Current() == dev.(readErrors := dev.readErrors - 1)
        else ok && conn.Current() == dev.(out := "") && rx == if dev.out == "" then old(rx) else ""
      ensures conn.heard == old(conn.heard)
    {
      ghost var before := conn.Current();
      var got;
      ok, got := Fill(ch => 0);
      while ok && got > 0
        invariant Valid() && !conn.running && conn.heard == old(conn.heard)
        invariant !ok ==> before.readErrors > 0 && rx == old(rx)
        invariant !ok ==> conn.Current() == before.(readErrors := before.readErrors - 1)
        invariant ok ==> before.readErrors == 0 && conn.Current() == before.(out := conn.out)
        invariant ok && got > 0 ==> before.out != ""
        invariant ok && got == 0 ==> conn.out == "" && rx == if before.out == "" then old(rx) else ""
        decreases ok, |conn.out| + got
      {
        rx := "";
        ok, got := Fill(ch => 0);
      }
    }

    /** Waits for `marker` and takes it and everything before it; `polls` looks at the clock precede the deadline. */
    method Await(marker: char, polls: nat, level: nat -> nat) returns (answer: Answer)
      requires Valid()
      modifies `rx, conn
      ensures Valid()
      ensures (conn.Current(), rx, answer) == Awaited(old(conn.Current()), old(rx), marker, polls, level)
      ensures conn.heard == old(conn.heard)
    {
      var left: nat := polls;
      while left > 0
        invariant Valid() && left <= polls && conn.heard == old(conn.heard)
        invariant Awaited(conn.Current(), rx, marker, left, level)
          == Awaited(old(conn.Current()), old(rx), marker, polls, level)
      {
        var i := IndexOf(rx, marker);
        if i < |rx| {
          answer := Answer(rx[..i]);
          rx := rx[i + 1..];
          return;
        }
        ghost var held := rx;
        assert held + "" == held;
        var ok, got := Fill(level);
        if !ok {
          return Broken;
        }
        left := left - 1;
      }
      assert left == 0;
      answer := Mute;
    }

    // ---- The lifecycle ----

    /** RESET, and drain the answers. */
    method Connect() returns (ok: bool)
      requires Valid()
      modifies `rx, conn
      ensures Valid()
      ensures (conn.Current(), rx, ok) == Drained(old(conn.Current()), old(rx))
      ensures ok == (old(conn.readErrors) == 0) && conn.heard == old(conn.heard) + RESET
    {
      ghost var dev := conn.Current();
      WriteEndsClean(dev, RESET);
      ResetReceiver(dev, RESET);
      conn.Write(RESET);
      ok := Drain();
    }

    method Identify(polls: nat, level: nat -> nat) returns (id: Identity)
      requires Valid()
      modifies `rx, `firmware, conn
      ensures Valid()
      ensures (conn.Current(), rx, id) == Identification(old(conn.Current()), old(rx), polls, level)
      ensures firmware == if id.Identified? then id.firmware else old(firmware)
    {
      hide Written, Awaited;
      WriteEndsClean(conn.Current(), ID_QUERY);
      conn.Write(ID_QUERY);
      var a := Await('\r', polls, level);
      if !a.Answer? {
        return if a.Mute? then NoAnswer else ReadError;
      }
      if DecodeAscii(a.bytes) + "\r" != ID_RESPONSE {
        return NotCallisto(DecodeAscii(a.bytes));
      }
      WriteEndsClean(conn.Current(), STATUS_QUERY);
      conn.Write(STATUS_QUERY);
      var b := Await('\r', polls, level);
      if !b.Answer? {
        return if b.Mute? then NoAnswer else ReadError;
      }
      firmware := DetectFirmware(DecodeAscii(b.bytes));
      id := Identified(firmware);
    }

    /** Programs the channels one by one, each acknowledged, then clock and gain. */
    method Configure(freqs: seq<real>, rate: real, polls: nat, level: nat -> nat) returns (result: Configuration)
      requires Valid()
      modifies `rx, `nchannels, `sweepsPerSecond, conn
      ensures Valid()
      ensures freqs == [] ==>
        result == NoChannels && Settings() == old(Settings()) && rx == old(rx) && conn.Current() == old(conn.Current())
      ensures freqs != [] ==>
        && Settings() == old(Settings()).(nchannels := |freqs|, sweepsPerSecond := rate)
        && var (d, rx', a) := ChannelsWritten(old(conn.Current()), old(rx), Settings(), freqs, 0, polls, level);
           && rx == rx'
           && result == (if a.Answer? then Configured else NotAcknowledged(a))
           && conn.Current() == if a.Answer? then WrittenAll(d, InitCommands(cfg, Settings().Pixels())) else d
      ensures result.Configured? ==>
        conn.heard == old(conn.heard) + ChannelCommands(Settings(), freqs) + SetUp(Settings())
    {
      hide Written, Awaited, ChannelCommand, InitCommands, SetUp;
      if freqs == [] {
        return NoChannels;
      }
      nchannels := |freqs|;
      sweepsPerSecond := rate;
      ghost var host := Settings();
      ghost var goal := ChannelsWritten(conn.Current(), rx, host, freqs, 0, polls, level);
      for index := 0 to |freqs|
        modifies `rx, conn
        invariant Valid() && Settings() == host
        invariant ChannelsWritten(conn.Current(), rx, host, freqs, index, polls, level) == goal
        invariant conn.heard == old(conn.heard) + ChannelCommands(host, freqs[..index])
      {
        var cmd := ChannelCommand(index, freqs[index], firmware, cfg.localOscillator, cfg.chargepump);
        ChannelEndsWithReturn(index, freqs[index], firmware, cfg.localOscillator, cfg.chargepump);
        WriteEndsClean(conn.Current(), cmd);
        conn.Write(cmd);
        var a := Await(EEPROM_READY, polls, level);
        if !a.Answer? {
          return NotAcknowledged(a);
        }
        OneMoreChannel(host, freqs, index);
        assert old(conn.heard) + ChannelCommands(host, freqs[..index]) + cmd
          == old(conn.heard) + (ChannelCommands(host, freqs[..index]) + cmd);
      }
      assert freqs[..|freqs|] == freqs;
      WriteInit();
      result := Configured;
    }

    method WriteInit()
      requires Valid()
      modifies conn
      ensures Valid()
      ensures conn.Current() == WrittenAll(old(conn.Current()), InitCommands(cfg, Settings().Pixels()))
      ensures conn.heard == old(conn.heard) + SetUp(Settings())
    {
      hide InitCommands, Host.Pixels, Written;
      var cmds := InitCommands(cfg, Host(cfg, firmware, nchannels, sweepsPerSecond).Pixels());
      ghost var goal := WrittenAll(conn.Current(), cmds);
      for i := 0 to |cmds|
        modifies conn
        invariant Valid()
        invariant WrittenAll(conn.Current(), cmds[i..]) == goal
        invariant conn.heard + Flatten(cmds[i..]) == old(conn.heard) + Flatten(cmds)
      {
        assert cmds[i..][1..] == cmds[i + 1..];
        InitEndsWithReturn(cfg, Host(cfg, firmware, nchannels, sweepsPerSecond).Pixels(), i);
        WriteEndsClean(conn.Current(), cmds[i]);
        assert conn.heard + (cmds[i] + Flatten(cmds[i + 1..])) == conn.heard + cmds[i] + Flatten(cmds[i + 1..]);
        conn.Write(cmds[i]);
      }
      assert conn.heard + [] == conn.heard;
    }

    method WriteStart()
      requires Valid()
      modifies conn
      ensures Valid()
      ensures conn.Current() == Written(old(conn.Current()), StartCommands(cfg.focuscode, nchannels))
      ensures conn.heard == old(conn.heard) + StartCommands(cfg.focuscode, nchannels)
    {
      StartEndsWithReturn(cfg.focuscode, nchannels);
      WriteEndsClean(conn.Current(), StartCommands(cfg.focuscode, nchannels));
      conn.Write(StartCommands(cfg.focuscode, nchannels));
    }

    /** Refused before `Configure`. */
    method Start() returns (ok: bool)
      requires Valid()
      modifies `running, conn
      ensures Valid() && ok == (nchannels >= 1)
      ensures ok ==> running && conn.Current() == Written(old(conn.Current()), StartCommands(cfg.focuscode, nchannels))
      ensures !ok ==> running == old(running) && conn.Current() == old(conn.Current())
      ensures conn.heard == old(conn.heard) + if ok then StartCommands(cfg.focuscode, nchannels) else ""
    {
      assert conn.heard + "" == conn.heard;
      if nchannels < 1 {
        return false;
      }
      WriteStart();
      running := true;
      ok := true;
    }

    method Stop()
      requires Valid()
      modifies `running, conn
      ensures Valid() && !running && conn.Current() == Written(old(conn.Current()), STOP)
      ensures conn.heard == old(conn.heard) + STOP
    {
      running := false;
      WriteEndsClean(conn.Current(), STOP);
      conn.Write(STOP);
    }

    method Close()
      requires Valid()
      modifies `running, conn
      ensures Valid() && !running && conn.Current() == Closed(Written(old(conn.Current()), HALT))
      ensures conn.heard == old(conn.heard) + HALT
    {
      running := false;
      WriteEndsClean(conn.Current(), HALT);
      conn.Write(HALT);
      conn.Close();
    }

    // ---- Recovery ----

    /** Reset, init, start over the open port; a read error in the drain ends it there. */
    method SoftReset()
      requires Valid()
      modifies `rx, conn
      ensures Valid()
      ensures (conn.Current(), rx) == SoftlyReset(old(conn.Current()), old(rx), Settings())
      ensures conn.heard == old(conn.heard) + ResetCommands(Settings(), old(conn.readErrors) == 0)
    {
      hide SetUp, StartCommands, InitCommands, Written, WrittenAll;
      ghost var heard := conn.heard;
      var ok := Connect();
      if ok {
        WriteInit();
        WriteStart();
      }
      ResetInParts(heard, Settings());
    }

    /** The same over a port that is closed and opened again. */
    method ReopenPort()
      requires Valid()
      modifies `rx, conn
      ensures Valid()
      ensures (conn.Current(), rx) == SoftlyReset(Closed(old(conn.Current())), old(rx), Settings())
      ensures conn.heard == old(conn.heard) + ResetCommands(Settings(), old(conn.readErrors) == 0)
    {
      conn.Close();
      SoftReset();
    }

    /** The recovery: prune the deque, give up past the budget, else reset, softly only if first in the window. */
    method Recover(resets: seq<real>, t: Times, ghost loop: Loop) returns (kept: seq<real>, move: Move)
      requires Valid() && loop.resets == resets && loop.running == running
      modifies `rx, `running, conn
      ensures Valid()
      ensures var s := Recovered(loop, t, []);
        && kept == s.loop.resets && move == s.move && running == s.loop.running
        && (conn.Current(), rx) == Moved(old(conn.Current()), old(rx), s.move, Settings())
      ensures conn.heard
        == old(conn.heard) + if move.GiveUp? then "" else ResetCommands(Settings(), old(conn.readErrors) == 0)
    {
      hide Written, SoftlyReset, Expired, ResetCommands;
      assert conn.heard + "" == conn.heard;
      kept := PruneResets(resets, t.recover);
      if |kept| >= RESET_BUDGET {
        running := false;
        return kept, GiveUp;
      }
      var escalate := |kept| >= 1;
      kept := kept + [t.recover];
      if escalate {
        move := Reopen;
        ReopenPort();
      } else {
        move := StreamLoop.SoftReset;
        SoftReset();
      }
    }

    // ---- Streaming ----

    method InjectAll(faults: seq<Fault>)
      requires Valid()
      modifies conn
      ensures Valid() && conn.Current() == Inject(old(conn.Current()), faults)
    {
      for i := 0 to |faults|
        modifies conn
        invariant Valid() && Inject(conn.Current(), faults[i..]) == Inject(old(conn.Current()), faults)
      {
        assert faults[i..][1..] == faults[i + 1..];
        match faults[i]
        case Stall => conn.Stall();
        case Dead => conn.MakeDead();
        case ReadErrors(times) => conn.InjectReadError(times);
        case Corruption => conn.InjectCorruption();
        case Noise => conn.EmitNoise();
      }
    }

    /** Goes through the items of a chunk: sweeps become frames, a message about a stop ends the stream. */
    method TakeItems(items: seq<Item>) returns (frames: seq<seq<nat>>)
      modifies `running
      ensures frames == SweepsOf(items)
      ensures running == (old(running) && !SaysStopped(items))
    {
      frames := [];
      for k := 0 to |items|
        modifies `running
        invariant frames == SweepsOf(items[..k])
        invariant running == (old(running) && !SaysStopped(items[..k]))
      {
        assert items[..k + 1] == items[..k] + [items[k]];
        ItemsConcat(items[..k], [items[k]]);
        OneItem(items[k]);
        OneItemMore(items, k);
        match items[k]
        case Sweep(values) => frames := frames + [values];
        case Message(text) =>
          if Contains(text, "Stopped") {
            running := false;
          }
      }
      assert items[..|items|] == items;
    }

    /**
     The stream, iteration by iteration; the frames it yields come out, and the time at which it gave
     up, if it did. `script` is what the surroundings do in each iteration, `log` the system it describes.
     */
    method Stream(script: seq<Event>, start: real)
      returns (frames: seq<seq<nat>>, fatal: Option<real>, ghost log: System)
      requires Valid() && nchannels >= 1 && running
      modifies `rx, `running, conn
      ensures Valid()
      ensures log == Play(Settings(), System(old(conn.Current()), old(rx), Begin(start), []), script)
      ensures conn.Current() == log.dev && rx == log.rx && running == log.run.loop.running
      ensures frames == log.run.frames && fatal == log.run.fatal
    {
      var parser := new StreamParser(nchannels, firmware.data10bit);
      var lastFrame, resets := start, [];
      frames, fatal := [], None;
      log := System(conn.Current(), rx, Begin(start), []);
      ghost var host, whole := Settings(), Play(Settings(), log, script);
      var i := 0;
      while i < |script| && running
        invariant 0 <= i <= |script| && Valid() && Settings() == host && fresh(parser)
        invariant Tracks(log, parser, lastFrame, resets) && Play(host, log, script[i..]) == whole
        invariant frames == log.run.frames && fatal == log.run.fatal
      {
        assert script[i..][1..] == script[i + 1..];
        var more, move;
        ghost var next := PlayOne(host, log, script[i]);
        parser, lastFrame, resets, more, move := IterateTracked(script[i], parser, lastFrame, resets, log);
        frames := frames + more;
        if move == GiveUp {
          fatal := Some(script[i].times.recover);
        }
        log := next;
        i := i + 1;
      }
    }

    /** The driver's variables are where the system's log says they are. */
    ghost predicate Tracks(log: System, parser: StreamParser, lastFrame: real, resets: seq<real>)
      reads this, conn, parser
    {
      && nchannels >= 1 && SystemValid(Settings(), log)
      && parser.Valid() && parser.fmt == Settings().Fmt()
      && conn.Current() == log.dev && rx == log.rx
      && running == log.run.loop.running
      && (running ==> log.run.loop == Loop(true, parser.Current(), resets, lastFrame))
    }

    method IterateTracked(ev: Event, parser: StreamParser, lastFrame: real, resets: seq<real>, ghost log: System)
      returns (parser': StreamParser, last: real, kept: seq<real>, frames: seq<seq<nat>>, move: Move)
      requires Valid() && running && Tracks(log, parser, lastFrame, resets)
      modifies `rx, `running, conn, parser
      ensures Valid() && (parser' == parser || fresh(parser'))
      ensures var next := PlayOne(Settings(), log, ev);
        && Tracks(next, parser', last, kept)
        && next.run.frames == log.run.frames + frames
        && next.run.fatal == if move == GiveUp then Some(ev.times.recover) else log.run.fatal
    {
      parser', last, kept, frames, move := Iterate(ev, parser, lastFrame, resets, log);
      PlayOneInParts(Settings(), log, ev);
    }

    /** The first half of an iteration: read a chunk and parse it. */
    method ReadAndParse(ev: Event, parser: StreamParser, ghost log: System)
      returns (faulty: bool, frames: seq<seq<nat>>)
      requires Valid() && running && SystemValid(Settings(), log)
      requires parser.Valid() && parser.fmt == Settings().Fmt()
      requires conn.Current() == log.dev && rx == log.rx && parser.Current() == log.run.loop.parser
      modifies `rx, `running, conn, parser
      ensures Valid() && parser.Valid()
      ensures var (d, r) := ReadStep(Inject(log.dev, ev.faults), READ_CHUNK, ev.level);
        && conn.Current() == d && rx == if r.Failed? then log.rx else ""
      ensures Parsed(parser.fmt, log.run.loop.parser, TickOf(log, ev).read, faulty, frames, running, parser.Current())
    {
      hide Inject, Decode, SweepsOf, SaysStopped;
      InjectAll(ev.faults);
      var read := ReadChunk(ev.level);
      faulty, frames := true, [];
      if read.Got? {
        var items, fault := parser.Feed(read.bytes);
        if fault.None? {
          frames := TakeItems(items);
          faulty := false;
        }
      }
    }

    /** The second half: the recovery, if there is a fault or the frames have stalled. */
    method Finish(ev: Event, faulty: bool, frames: seq<seq<nat>>, parser: StreamParser, last: real, resets: seq<real>)
      returns (parser': StreamParser, last': real, kept: seq<real>, move: Move)
      requires Valid() && nchannels >= 1 && parser.Valid() && parser.fmt == Settings().Fmt()
      modifies `rx, `running, conn
      ensures Valid()
      ensures parser' == parser || fresh(parser')
      ensures parser'.Valid() && parser'.fmt == parser.fmt
      ensures var s := Finished(NoDataTimeout(sweepsPerSecond), faulty, frames,
                                Loop(old(running), old(parser.Current()), resets, last), ev.times);
        Landed(s, running, kept, frames, move, parser'.Current(), last')
      ensures (conn.Current(), rx) == Moved(old(conn.Current()), old(rx), move, Settings())
    {
      hide SoftlyReset, Expired;
      parser', last', kept, move := parser, last, resets, Stay;
      if faulty || (running && ev.times.check - last > NoDataTimeout(sweepsPerSecond)) {
        kept, move := Recover(resets, ev.times, Loop(running, parser.Current(), resets, last));
        if move != GiveUp {
          parser' := new StreamParser(nchannels, firmware.data10bit);
          last' := ev.times.after;
        }
      }
    }

    /** The first half, in which an operator's stop may come. */
    method Listen(ev: Event, parser: StreamParser, ghost log: System)
      returns (faulty: bool, frames: seq<seq<nat>>, ghost going: bool)
      requires Valid() && running && SystemValid(Settings(), log)
      requires parser.Valid() && parser.fmt == Settings().Fmt()
      requires conn.Current() == log.dev && rx == log.rx && parser.Current() == log.run.loop.parser
      modifies `rx, `running, conn, parser
      ensures Valid() && parser.Valid() && running == (going && !ev.stop)
      ensures (conn.Current(), rx) == PortAfter(Settings(), log, ev, Stay)
      ensures Parsed(parser.fmt, log.run.loop.parser, TickOf(log, ev).read, faulty, frames, going, parser.Current())
    {
      hide ReadStep, Inject, Written, Parsed, TickOf;
      faulty, frames := ReadAndParse(ev, parser, log);
      going := running;
      if ev.stop {
        Stop();
      }
    }

    /** One iteration of the stream. */
    method Iterate(ev: Event, parser: StreamParser, lastFrame: real, resets: seq<real>, ghost log: System)
      returns (parser': StreamParser, last: real, kept: seq<real>, frames: seq<seq<nat>>, move: Move)
      requires Valid() && nchannels >= 1 && running && SystemValid(Settings(), log)
      requires parser.Valid() && parser.fmt == Settings().Fmt()
      requires conn.Current() == log.dev && rx == log.rx
      requires log.run.loop == Loop(true, parser.Current(), resets, lastFrame)
      modifies `rx, `running, conn, parser
      ensures Valid()
      ensures parser' == parser || fresh(parser')
      ensures parser'.Valid() && parser'.fmt == parser.fmt
      ensures Landed(LoopStep(Settings().Fmt(), NoDataTimeout(sweepsPerSecond), log.run.loop, TickOf(log, ev)),
                     running, kept, frames, move, parser'.Current(), last)
      ensures (conn.Current(), rx) == PortAfter(Settings(), log, ev, move)
    {
      hide PortAfter, ReadStep, Inject, LoopStep, Moved, NoDataTimeout, Parsed, Finished, Landed;
      var faulty;
      ghost var going;
      faulty, frames, going := Listen(ev, parser, log);
      last := if frames != [] then ev.times.frame else lastFrame;
      ghost var left := parser.Current();
      parser', last, kept, move := Finish(ev, faulty, frames, parser, last, resets);
      PortAfterMove(Settings(), log, ev, move);
      FinishedIsTheStep(Settings().Fmt(), NoDataTimeout(sweepsPerSecond), log.run.loop, TickOf(log, ev), faulty,
                        frames, going, left, running, kept, move, parser'.Current(), last);
    }
  }

  /** The first half of a handshake: a receiver that answers is identified and left idle. */
  method Meet(driver: CallistoDriver, polls: nat, level: nat -> nat) returns (id: Identity)
    requires driver.Valid() && polls >= 2 && driver.conn.readErrors == 0
    modifies driver`rx, driver`firmware, driver.conn
    ensures driver.Valid() && driver.rx == "" && id == Identified(driver.firmware)
    ensures driver.firmware == DetectFirmware(Status(driver.conn.version))
    ensures driver.conn.Current() == old(driver.conn.Current()).(running := false, out := "")
  {
    DrainQuiets(driver.conn.Current(), driver.rx);
    var ok := driver.Connect();
    IdentifiesReceiver(driver.conn.Current(), polls, level, "$CRX:Stopped", Status(driver.conn.version));
    id := driver.Identify(polls, level);
  }

  /** The second half: every channel is acknowledged and the receiver armed. */
  method Arm(driver: CallistoDriver, freqs: seq<real>, rate: real, polls: nat, level: nat -> nat)
    requires driver.Valid() && freqs != [] && polls >= 2 && driver.rx == "" && Idle(driver.conn.Current())
    modifies driver`rx, driver`running, driver`nchannels, driver`sweepsPerSecond, driver.conn
    ensures driver.Valid() && driver.rx == "" && driver.running
    ensures driver.Settings() == old(driver.Settings()).(nchannels := |freqs|, sweepsPerSecond := rate)
    ensures driver.conn.Current() == Armed(old(driver.conn.Current()), driver.Settings())
  {
    ghost var host := driver.Settings().(nchannels := |freqs|, sweepsPerSecond := rate);
    ChannelsAreWritten(driver.conn.Current(), host, freqs, 0, polls, level);
    var configured := driver.Configure(freqs, rate, polls, level);
    var ok := driver.Start();
  }

  /** The system as a handshake with the receiver `dev` leaves it. */
  function Opened(host: Host, dev: Device, start: real): System {
    System(Armed(dev.(running := false, out := ""), host), "", Begin(start), [])
  }

  /** `log` is what becomes of the script after a handshake with the receiver `dev`. */
  predicate PlaysOut(host: Host, dev: Device, start: real, script: seq<Event>, log: System) {
    host.Fmt().Valid() && log == Play(host, Opened(host, dev, start), script)
  }

  lemma OpenedIsFaithful(host: Host, dev: Device, start: real, script: seq<Event>)
    requires host.Fmt().Valid() && dev.cmd == "" && dev.readErrors == 0
    requires dev.version.TenBit() == host.firmware.data10bit
    requires host.nchannels != 13200 || dev.nchannels <= 0
    ensures var r := Play(host, Opened(host, dev, start), script);
      && Faithful(host, r)
      && (ScriptSingleErrors(script) && !r.run.loop.running ==> SomeStop(script) || r.run.fatal.Some?)
  {
    hide Play, Armed, Faithful, SomeStop, ScriptSingleErrors, LineInStep;
    var sys := Opened(host, dev, start);
    ArmedInStep(dev.(running := false, out := ""), host, start);
    assert sys.emitted[0..] == [];
    EveryFrameIsAnEmittedSweep(host, sys, script);
  }

  /**
   A recording session as the record loop drives it: the handshake, then the stream. With a receiver
   that answers, every frame that comes out is the image of one whole sweep that the receiver emitted,
   in order and none twice, whatever faults the script holds; and when read errors come one at a time
   the stream ends only when it is stopped or gives up.
   */
  method Session(
    driver: CallistoDriver, freqs: seq<real>, rate: real, polls: nat, level: nat -> nat, script: seq<Event>,
    start: real)
    returns (frames: seq<seq<nat>>, fatal: Option<real>, ghost log: System)
    requires driver.Valid() && freqs != [] && polls >= 2
    requires driver.conn.readErrors == 0
    requires |freqs| != 13200 || driver.conn.nchannels <= 0
    modifies driver`rx, driver`running, driver`firmware, driver`nchannels, driver`sweepsPerSecond, driver.conn
    ensures driver.Valid()
    ensures driver.firmware.data10bit == driver.conn.version.TenBit() && driver.nchannels == |freqs|
    ensures PlaysOut(driver.Settings(), old(driver.conn.Current()), start, script, log)
    ensures frames == log.run.frames && fatal == log.run.fatal && Faithful(driver.Settings(), log)
    ensures ScriptSingleErrors(script) && !driver.running ==> SomeStop(script) || fatal.Some?
  {
    hide Play, Awaited, Armed, Identification, DetectFirmware, Faithful, SomeStop, ScriptSingleErrors, Written;
    ghost var dev := driver.conn.Current();
    var id := Meet(driver, polls, level);
    DetectedFormat(driver.conn.version, Status(driver.conn.version));
    Arm(driver, freqs, rate, polls, level);
    OpenedIsFaithful(driver.Settings(), dev, start, script);
    frames, fatal, log := driver.Stream(script, start);
  }

  /** What is left of an iteration once the chunk has been read and parsed. */
  function Finished(timeout: real, faulty: bool, frames: seq<seq<nat>>, loop: Loop, t: Times): Step {
    if faulty || (loop.running && t.check - loop.lastFrame > timeout) then Recovered(loop, t, frames)
    else Step(loop, frames, Stay)
  }

  /** The variables of the loop are where the step leads; a loop that has ended needs neither parser nor clock. */
  predicate Landed(
    s: Step, running: bool, kept: seq<real>, frames: seq<seq<nat>>, move: Move, parser: State, last: real)
  {
    && running == s.loop.running && kept == s.loop.resets && frames == s.frames && move == s.move
    && (running ==> s.loop == Loop(true, parser, kept, last))
  }

  lemma PortAfterMove(host: Host, sys: System, ev: Event, move: Move)
    ensures var (dev, rx) := PortAfter(host, sys, ev, Stay);
      PortAfter(host, sys, ev, move) == Moved(dev, rx, move, host)
  {
    hide Inject, Written, SoftlyReset;
  }

  /** What reading and parsing a chunk has to find out. */
  predicate Parsed(
    fmt: Format, parser: State, read: Read, faulty: bool, frames: seq<seq<nat>>, running: bool, left: State)
    requires fmt.Valid() && parser.Valid(fmt)
  {
    if read.Failed? then faulty && frames == [] && running
    else
      var o := Decode(fmt, parser, read.bytes);
      if o.fault.Some? then faulty && frames == [] && running
      else !faulty && frames == SweepsOf(o.items) && running == !SaysStopped(o.items) && left == o.state
  }

  /** The parser that a recovery leaves behind does not matter. */
  lemma FinishedIsTheStep(
    fmt: Format, timeout: real, loop: Loop, tick: Tick, faulty: bool, frames: seq<seq<nat>>, going: bool, left: State,
    running: bool, kept: seq<real>, move: Move, parser: State, last: real)
    requires fmt.Valid() && loop.parser.Valid(fmt) && loop.running
    requires Parsed(fmt, loop.parser, tick.read, faulty, frames, going, left)
    requires var seen := if frames != [] then tick.times.frame else loop.lastFrame;
      Landed(Finished(timeout, faulty, frames, Loop(going && !tick.stop, left, loop.resets, seen), tick.times),
             running, kept, frames, move, parser, last)
    ensures Landed(LoopStep(fmt, timeout, loop, tick), running, kept, frames, move, parser, last)
  {
    hide Decode, SweepsOf, SaysStopped, Expired;
  }

  lemma OneItem(item: Item)
    ensures SweepsOf([item]) == if item.Sweep? then [item.values] else []
  {
    var tail := [item][1..];
    assert tail == [];
  }

  lemma OneItemMore(items: seq<Item>, k: nat)
    requires k < |items|
    ensures SaysStopped(items[..k + 1])
      <==> SaysStopped(items[..k]) || (items[k].Message? && Contains(items[k].text, "Stopped"))
  {
    if SaysStopped(items[..k]) {
      var i :| 0 <= i < k && items[..k][i].Message? && Contains(items[..k][i].text, "Stopped");
      assert items[..k + 1][i] == items[..k][i];
    }
    if SaysStopped(items[..k + 1]) {
      var i :| 0 <= i <= k && items[..k + 1][i].Message? && Contains(items[..k + 1][i].text, "Stopped");
      assert i < k ==> items[..k][i] == items[..k + 1][i];
    }
    if items[k].Message? && Contains(items[k].text, "Stopped") {
      assert items[..k + 1][k] == items[k];
    }
  }
}
