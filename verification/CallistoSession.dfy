/**
 What the driver's conversations do to the receiver (drivers/callisto/driver.py): the handshake, the
 soft reset, and the reads that wait for a marker. These are the specifications the driver class
 follows, with the lemmas on what a simulated receiver does in them.
 */
module CallistoSession {
  import opened Wrappers
  import opened StreamParsing
  import opened Decimal
  import opened CallistoProtocol
  import opened SimulatedReceiver

  const READ_CHUNK: nat := 4096

  /** The driver's settings of a recording. */
  datatype Host = Host(cfg: Config, firmware: Firmware, nchannels: nat, sweepsPerSecond: real) {
    function Fmt(): Format { Format(nchannels, firmware.data10bit) }

    /** The clock counts pixels: sweeps times channels, at least one. */
    function Pixels(): (p: int)
      ensures p >= 1
    {
      var p := RoundHalfEven(sweepsPerSecond * nchannels as real);
      if p < 1 then 1 else p
    }
  }

  function WrittenAll(dev: Device, cmds: seq<string>): Device
    decreases |cmds|
  {
    if cmds == [] then dev else WrittenAll(Written(dev, cmds[0]), cmds[1..])
  }

  /** Clock and gain set-up, then the start sequence. */
  function Armed(dev: Device, host: Host): Device {
    Written(WrittenAll(dev, InitCommands(host.cfg, host.Pixels())), StartCommands(host.cfg.focuscode, host.nchannels))
  }

  /** RESET and drain: the device and the bytes the driver holds after it, and whether all reads succeeded. */
  function Drained(dev: Device, rx: string): (Device, string, bool) {
    var d := Written(dev, RESET);
    if d.readErrors > 0 then (d.(readErrors := d.readErrors - 1), rx, false)
    else (d.(out := ""), if d.out == "" then rx else "", true)
  }

  /** Reset, init, start; after a read error in the drain nothing more is sent. */
  function SoftlyReset(dev: Device, rx: string, host: Host): (Device, string) {
    var (d, rx', ok) := Drained(dev, rx);
    if ok then (Armed(d, host), rx') else (d, rx')
  }

  /** What a wait for a marker ends with: the bytes before it, nothing in time, or a read error. */
  datatype Answer = Answer(bytes: string) | Mute | Broken

  /** Reads until `marker` is there; `polls` is how many looks at the clock come before the deadline. */
  function Awaited(dev: Device, rx: string, marker: char, polls: nat, level: nat -> nat): (Device, string, Answer)
    decreases polls
  {
    if polls == 0 then (dev, rx, Mute)
    else
      var i := IndexOf(rx, marker);
      if i < |rx| then (dev, rx[i + 1..], Answer(rx[..i]))
      else
        var (d, r) := ReadStep(dev, READ_CHUNK, level);
        if r.Failed? then (d, rx, Broken) else Awaited(d, rx + r.bytes, marker, polls - 1, level)
  }

  /** One channel written and acknowledged. */
  function ChannelWritten(dev: Device, rx: string, host: Host, index: nat, freq: real, polls: nat, level: nat -> nat)
    : (Device, string, Answer)
    requires host.firmware.ifInit >= 0.0
  {
    var cmd := ChannelCommand(index, freq, host.firmware, host.cfg.localOscillator, host.cfg.chargepump);
    Awaited(Written(dev, cmd), rx, EEPROM_READY, polls, level)
  }

  /** The channels from `index` on, until one is not acknowledged. */
  function ChannelsWritten(
    dev: Device, rx: string, host: Host, freqs: seq<real>, index: nat, polls: nat, level: nat -> nat)
    : (Device, string, Answer)
    requires host.firmware.ifInit >= 0.0 && index <= |freqs|
    decreases |freqs| - index
  {
    if index == |freqs| then (dev, rx, Answer(""))
    else
      var (d, rx', a) := ChannelWritten(dev, rx, host, index, freqs[index], polls, level);
      if a.Answer? then ChannelsWritten(d, rx', host, freqs, index + 1, polls, level) else (d, rx', a)
  }

  // ---- What the simulated receiver does ----

  lemma DigitsHaveNoReturn(s: string)
    requires AllDigits(s)
    ensures '\r' !in s
  {
  }

  lemma ShowIntHasNoReturn(i: int, width: nat)
    ensures '\r' !in ShowInt(i, width)
  {
  }

  /** A command the receiver acknowledges silently. */
  predicate Silent(dev: Device, token: string) {
    '\r' !in token && Handled(dev, token) == dev
  }

  lemma SilentByFirstLetter(dev: Device, token: string)
    requires '\r' !in token && token != "" && token[0] in "TOCD"
    ensures Silent(dev, token)
  {
  }

  /** Commands in one write, each with its terminator. */
  function Lines(tokens: seq<string>): string {
    if tokens == [] then "" else tokens[0] + "\r" + Lines(tokens[1..])
  }

  function HandledAll(dev: Device, tokens: seq<string>): Device
    decreases |tokens|
  {
    if tokens == [] then dev else HandledAll(Handled(dev, tokens[0]), tokens[1..])
  }

  lemma {:induction false} WriteLines(dev: Device, tokens: seq<string>)
    requires dev.cmd == "" && forall i :: 0 <= i < |tokens| ==> '\r' !in tokens[i]
    ensures Written(dev, Lines(tokens)) == HandledAll(dev, tokens)
    decreases |tokens|
  {
    if tokens != [] {
      WriteCommand(dev, tokens[0], Lines(tokens[1..]));
      WriteLines(Handled(dev, tokens[0]), tokens[1..]);
    }
  }

  lemma HandledThree(dev: Device, a: string, b: string, c: string)
    ensures HandledAll(dev, [a, b, c]) == Handled(Handled(Handled(dev, a), b), c)
  {
    assert [a, b, c][1..] == [b, c] && [b, c][1..] == [c] && [c][1..] == [];
    assert HandledAll(Handled(dev, a), [b, c]) == HandledAll(Handled(Handled(dev, a), b), [c]);
  }

  lemma LinesOfThree(a: string, b: string, c: string)
    ensures Lines([a, b, c]) == a + "\r" + (b + "\r" + (c + "\r"))
  {
    assert [a, b, c][1..] == [b, c] && [b, c][1..] == [c] && [c][1..] == [];
    assert Lines([c]) == c + "\r" + "";
    assert Lines([b, c]) == b + "\r" + Lines([c]);
  }

  lemma GainIsSilent(dev: Device, t: string, o: string, c: string)
    requires dev.cmd == "" && Silent(dev, t) && Silent(dev, o) && Silent(dev, c)
    ensures Written(dev, t + "\r" + o + "\r" + c + "\r") == dev
  {
    hide Written, Handled, HandledAll, Lines;
    WriteLines(dev, [t, o, c]);
    HandledThree(dev, t, o, c);
    LinesOfThree(t, o, c);
    assert t + "\r" + o + "\r" + c + "\r" == t + "\r" + (o + "\r" + (c + "\r"));
  }

  /** The clock divider and T/O/C leave the receiver as it is. */
  lemma InitIsSilent(dev: Device, cfg: Config, rate: int)
    requires dev.cmd == ""
    ensures WrittenAll(dev, InitCommands(cfg, rate)) == dev
  {
    hide Written, Handled, ShowInt;
    var t, o := "T" + ShowInt(cfg.clocksource, 0), "O" + ShowInt(cfg.agclevel, 3);
    var c := "C" + (if cfg.chargepump then "1" else "0");
    ShowIntHasNoReturn(cfg.clocksource, 0);
    ShowIntHasNoReturn(cfg.agclevel, 3);
    SilentByFirstLetter(dev, t);
    SilentByFirstLetter(dev, o);
    SilentByFirstLetter(dev, c);
    GainIsSilent(dev, t, o, c);
    var gain := GainCommand(cfg);
    assert gain == t + "\r" + o + "\r" + c + "\r";
    var clock := ClockCommand(cfg.clocksource, rate);
    if clock.Some? {
      ClockIsSilent(dev, cfg.clocksource, rate);
      assert [clock.value, gain][1..] == [gain];
    }
    assert [gain][1..] == [];
    assert WrittenAll(dev, [gain]) == dev;
  }

  lemma ClockIsSilent(dev: Device, clocksource: int, rate: int)
    requires dev.cmd == "" && ClockCommand(clocksource, rate).Some?
    ensures Written(dev, ClockCommand(clocksource, rate).value) == dev
  {
    var r := if rate < 1 then 1 else rate;
    var ticks := if clocksource == 1 then 86400 / r - 1 else 500000 / r - 1;
    var digits := ShowInt(ticks, 0);
    var token := (if clocksource == 1 then "GS" else "GA") + digits;
    assert ClockCommand(clocksource, rate).value == token + "\r";
    ShowIntHasNoReturn(ticks, 0);
    hide ClockCommand, ShowInt;
    assert token[1] == 'S' || token[1] == 'A';
    assert token + "\r" + "" == token + "\r";
    WriteCommand(dev, token, "");
  }

  lemma ParsesLength(text: string, digits: string)
    requires text == "L" + digits
    ensures Parse(text) == NewLength(digits)
  {
    assert text[0] == 'L' && text[1..] == digits;
    assert !("FE" <= text) && "L" <= text;
    assert text != "S0" && text != "GD" && text != "?";
  }

  lemma LengthIsSet(dev: Device, nchannels: nat)
    ensures Handled(dev, "L" + Show(nchannels))
      == if nchannels == OVERVIEW_LENGTH then dev else dev.(nchannels := nchannels)
  {
    ParseOfShowInt(nchannels, 0);
    var text := "L" + Show(nchannels);
    ParsesLength(text, Show(nchannels));
    hide Parse;
  }

  /** The length the receiver ends up with: the overview's length is not taken for one. */
  function SetLength(dev: Device, nchannels: nat): int {
    if nchannels == OVERVIEW_LENGTH then dev.nchannels else nchannels
  }

  lemma StartInLines(focuscode: int, nchannels: nat)
    ensures StartCommands(focuscode, nchannels)
      == Lines([FocusToken(focuscode)] + (["L" + Show(nchannels)] + START_TOKENS))
  {
    hide ShowInt, Show;
    var length := "L" + Show(nchannels);
    LinesOfTwo("S1", "GE");
    var tail := [length] + START_TOKENS;
    assert tail[1..] == START_TOKENS;
    assert ([FocusToken(focuscode)] + tail)[1..] == tail;
    assert Lines([FocusToken(focuscode)] + tail) == FocusToken(focuscode) + "\r" + (length + "\r" + "S1\rGE\r");
  }

  lemma LinesOfTwo(a: string, b: string)
    ensures Lines([a, b]) == a + "\r" + b + "\r"
  {
    assert [a, b][1..] == [b] && [b][1..] == [];
    assert Lines([b]) == b + "\r" + "";
  }

  const START_TOKENS := ["S1", "GE"]

  function FocusToken(focuscode: int): string {
    "FS" + ShowInt(focuscode, 2) + ShowInt(focuscode - 1, 2)
  }

  lemma FocusIsSilent(dev: Device, focuscode: int)
    ensures Silent(dev, FocusToken(focuscode))
  {
    ShowIntHasNoReturn(focuscode, 2);
    ShowIntHasNoReturn(focuscode - 1, 2);
    assert FocusToken(focuscode)[1] == 'S';
  }

  /** What `S1` and `GE` do. */
  function Started(dev: Device): Device {
    if dev.dead then dev.(out := dev.out + STARTED)
    else dev.(running := true, noise := false, sweep := 0, out := dev.out + STARTED + [DATA_START])
  }

  lemma StartTokensStart(dev: Device)
    ensures HandledAll(dev, START_TOKENS) == Started(dev)
  {
    HandledTwo(dev, "S1", "GE");
    hide HandledAll;
    var s, g := "S1", "GE";
    assert s[0] == 'S' && s[1] == '1' && g[0] == 'G' && g[1] == 'E';
    assert Parse(s) == StartMachine && Parse(g) == EnableData;
  }

  lemma HandledTwo(dev: Device, a: string, b: string)
    ensures HandledAll(dev, [a, b]) == Handled(Handled(dev, a), b)
  {
    hide Handled;
    assert [a, b][1..] == [b] && [b][1..] == [];
    assert HandledAll(Handled(dev, a), [b]) == HandledAll(Handled(Handled(dev, a), b), []);
  }

  /** Arming a receiver: it announces that it started, and, unless it is dead, opens a transmission. */
  lemma ArmedReceiver(dev: Device, host: Host)
    requires dev.cmd == ""
    ensures Armed(dev, host) == Started(dev.(nchannels := SetLength(dev, host.nchannels)))
  {
    hide Written, Handled, FocusToken, Show, InitCommands, StartCommands;
    InitIsSilent(dev, host.cfg, host.Pixels());
    var focus, length := FocusToken(host.cfg.focuscode), "L" + Show(host.nchannels);
    FocusIsSilent(dev, host.cfg.focuscode);
    LengthIsSet(dev, host.nchannels);
    StartInLines(host.cfg.focuscode, host.nchannels);
    var tail := [length] + START_TOKENS;
    var tokens := [focus] + tail;
    assert tokens[1..] == tail && tail[1..] == START_TOKENS;
    DigitsHaveNoReturn(Show(host.nchannels));
    WriteLines(dev, tokens);
    StartTokensStart(Handled(dev, length));
    assert HandledAll(dev, tokens) == HandledAll(dev, tail);
  }

  lemma ResetInLines()
    ensures RESET == Lines(RESET_TOKENS)
  {
    LinesOfThree("D0", "GD", "S0");
  }

  lemma ResetTokensHaveNoReturn()
    ensures forall i :: 0 <= i < |RESET_TOKENS| ==> '\r' !in RESET_TOKENS[i]
  {
  }

  const RESET_TOKENS := ["D0", "GD", "S0"]

  /** What `D0`, `GD` and `S0` do. */
  function Quieted(dev: Device): Device {
    dev.(running := false, out := dev.out + (if dev.running then [DATA_END] + STOPPED else "") + ID_RESPONSE)
  }

  lemma ResetTokensQuiet(dev: Device)
    ensures HandledAll(dev, RESET_TOKENS) == Quieted(dev)
  {
    HandledThree(dev, "D0", "GD", "S0");
    hide HandledAll;
    SilentByFirstLetter(dev, "D0");
    assert !dev.running ==> dev.out + "" == dev.out;
    assert dev.out + ([DATA_END] + STOPPED) == dev.out + [DATA_END] + STOPPED;
  }

  /** RESET stops a running receiver and makes it say so, always at least once. */
  lemma ResetReceiver(dev: Device, reset: string)
    requires dev.cmd == "" && reset == RESET
    ensures Written(dev, reset) == Quieted(dev)
  {
    hide Written, Handled, HandledAll, Lines;
    ResetTokensHaveNoReturn();
    ResetInLines();
    WriteLines(dev, RESET_TOKENS);
    ResetTokensQuiet(dev);
  }

  lemma StopReceiver(dev: Device)
    requires dev.cmd == ""
    ensures Written(dev, STOP)
      == if dev.running then dev.(running := false, out := dev.out + [DATA_END] + STOPPED) else dev
  {
    assert STOP == "GD" + "\r" + "";
    WriteCommand(dev, "GD", "");
  }

  /** A read error in the drain: the receiver is quiet, its answer is still unread, and nothing more was sent. */
  lemma FailedReset(dev: Device, rx: string, host: Host)
    requires dev.cmd == "" && dev.readErrors > 0
    ensures SoftlyReset(dev, rx, host) == (Quieted(dev).(readErrors := dev.readErrors - 1), rx)
  {
    hide Written, Armed;
    ResetReceiver(dev, RESET);
  }

  /** What a soft reset leaves: without a read error in the drain, nothing of before is left over. */
  lemma SoftResetReceiver(dev: Device, rx: string, host: Host)
    requires dev.cmd == ""
    ensures var (d, rx') := SoftlyReset(dev, rx, host);
      && d.cmd == ""
      && (dev.readErrors == 0 ==>
        && rx' == ""
        && d == Armed(dev.(running := false, out := ""), host))
      && (dev.readErrors > 0 ==>
        && rx' == rx
        && !d.running && d.readErrors == dev.readErrors - 1
        && d.out == dev.out + (if dev.running then [DATA_END] + STOPPED else "") + ID_RESPONSE)
  {
    hide Armed, Written;
    ResetReceiver(dev, RESET);
    ArmedReceiver(dev.(running := false, out := ""), host);
    hide Quieted;
    assert dev.readErrors == 0 ==> Quieted(dev).(out := "") == dev.(running := false, out := "");
  }
}
