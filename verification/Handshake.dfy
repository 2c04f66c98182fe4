/**
 The handshake of a recording (driver.py `connect`, `identify`, `configure`, `start`): with a receiver
 that answers, it ends with driver, parser and line in step and the right sample format chosen.
 */
module Handshake {
  import opened Wrappers
  import opened StreamParsing
  import opened Decimal
  import opened CallistoProtocol
  import opened SimulatedReceiver
  import opened StreamLoop
  import opened CallistoSession
  import opened BarrenLines
  import opened ClosedLoop

  /** What `identify` ends with. */
  datatype Identity = Identified(firmware: Firmware) | NotCallisto(line: string) | NoAnswer | ReadError

  function Unanswered(a: Answer): Identity {
    if a.Mute? then NoAnswer else ReadError
  }

  /** The ID and status queries. */
  function Identification(dev: Device, rx: string, polls: nat, level: nat -> nat): (Device, string, Identity) {
    var (d, rx', a) := Awaited(Written(dev, ID_QUERY), rx, '\r', polls, level);
    if !a.Answer? then (d, rx', Unanswered(a))
    else if DecodeAscii(a.bytes) + "\r" != ID_RESPONSE then (d, rx', NotCallisto(DecodeAscii(a.bytes)))
    else
      var (d', rx'', b) := Awaited(Written(d, STATUS_QUERY), rx', '\r', polls, level);
      if !b.Answer? then (d', rx'', Unanswered(b))
      else (d', rx'', Identified(DetectFirmware(DecodeAscii(b.bytes))))
  }

  /** Without a line held back: no look at the clock is no answer, and a read error at the first look is reported. */
  lemma UnansweredIdentity(dev: Device, rx: string, polls: nat, level: nat -> nat)
    requires '\r' !in rx
    ensures polls == 0 ==> Identification(dev, rx, polls, level).2 == NoAnswer
    ensures polls > 0 && Written(dev, ID_QUERY).readErrors > 0 ==>
      Identification(dev, rx, polls, level).2 == ReadError
  {
    hide Written, DetectFirmware, DecodeAscii;
    IndexOfNone(rx, '\r');
  }

  /** A receiver that waits for commands. */
  predicate Idle(dev: Device) {
    dev.cmd == "" && dev.out == "" && !dev.running && dev.readErrors == 0
  }

  /** A reply that is there at once is found at the second look, and nothing of it is left over. */
  lemma ReplyIsRead(dev: Device, reply: string, marker: char, polls: nat, level: nat -> nat)
    requires Idle(dev.(out := "")) && dev.out == reply + [marker] && marker !in reply
    requires |reply| < READ_CHUNK && polls >= 2
    ensures Awaited(dev, "", marker, polls, level) == (dev.(out := ""), "", Answer(reply))
  {
    assert IndexOf("", marker) == 0;
    assert Filled(dev, level) == dev;
    var read := dev.(out := "");
    assert Take(dev.out, READ_CHUNK) == dev.out && Drop(dev.out, READ_CHUNK) == "";
    assert ReadStep(dev, READ_CHUNK, level) == (read, Got(dev.out));
    var rx := dev.out;
    assert "" + rx == rx && rx == reply + [marker] + "";
    IndexOfAfter(reply, marker, "");
    assert rx[|reply| + 1..] == "" && rx[..|reply|] == reply;
    assert Awaited(read, rx, marker, polls - 1, level) == (read, "", Answer(reply));
  }

  lemma QueryIsAnswered(dev: Device, query: string, token: string, reply: string, polls: nat, level: nat -> nat)
    requires Idle(dev) && query == token + "\r" && '\r' !in token && '\r' !in reply
    requires Handled(dev, token) == dev.(out := reply + "\r") && |reply| < READ_CHUNK && polls >= 2
    ensures Awaited(Written(dev, query), "", '\r', polls, level) == (dev, "", Answer(reply))
  {
    WriteOne(dev, token);
    ReplyIsRead(dev.(out := reply + "\r"), reply, '\r', polls, level);
  }

  /** The status line without its terminator. */
  function Status(v: Version): string {
    match v
    case V15 => "$CRX:ChargePump=on"
    case V17 => "$CRX:Debug=off"
    case V18 => "$CRX:V1.8 / 25.43MHz"
  }

  lemma StatusFound(s: string, t: string, k: nat)
    requires k <= |s| && t <= s[k..]
    ensures Contains(s, t)
    decreases k
  {
    if k > 0 {
      assert s[1..][k - 1..] == s[k..];
      StatusFound(s[1..], t, k - 1);
    }
  }

  /** A text without the character `t[at]` does not contain `t`. */
  lemma MissingLetter(s: string, t: string, at: nat)
    requires at < |t| && t[at] !in s
    ensures !Contains(s, t)
  {
    forall i | 0 <= i <= |s|
      ensures !(t <= s[i..])
    {
      if i + at < |s| {
        assert s[i..][at] == s[i + at];
      }
    }
    NotContained(s, t);
  }

  lemma Detects15(s: string)
    requires s == "$CRX:ChargePump=on"
    ensures DetectFirmware(s) == FIRMWARE_15
  {
    hide Contains;
    assert "ChargePump" <= s[5..];
    StatusFound(s, "ChargePump", 5);
  }

  lemma Detects17(s: string)
    requires s == "$CRX:Debug=off"
    ensures DetectFirmware(s) == FIRMWARE_17
  {
    hide Contains;
    MissingLetter(s, "ChargePump", 1);
    MissingLetter(s, "V1.8", 0);
    assert "Debug" <= s[5..];
    StatusFound(s, "Debug", 5);
  }

  lemma Detects18(s: string)
    requires s == "$CRX:V1.8 / 25.43MHz"
    ensures DetectFirmware(s) == FIRMWARE_18
  {
    hide Contains;
    MissingLetter(s, "ChargePump", 1);
    assert "V1.8" <= s[5..];
    StatusFound(s, "V1.8", 5);
  }

  /** A text stands in the line, at some place. */
  ghost predicate Occurs(line: string, t: string) { exists i :: 0 <= i <= |line| && t <= line[i..] }

  lemma {:induction false} ContainsExactly(line: string, t: string)
    ensures Contains(line, t) <==> Occurs(line, t)
    decreases |line|
  {
    if Occurs(line, t) {
      var i :| 0 <= i <= |line| && t <= line[i..];
      StatusFound(line, t, i);
    }
    if Contains(line, t) {
      if t <= line {
        assert line[0..] == line;
      } else {
        ContainsExactly(line[1..], t);
        var i :| 0 <= i <= |line[1..]| && t <= line[1..][i..];
        assert line[1..][i..] == line[i + 1..];
      }
    }
  }

  /**
   Every status line has a profile: `ChargePump` means 8-bit samples, of the others `V1.8` alone has the lower
   oscillator, and a line that says nothing known is taken for a 10-bit receiver.
   */
  lemma ProfileOfLine(line: string)
    ensures var fw := DetectFirmware(line);
      && (fw.data10bit <==> !Occurs(line, "ChargePump"))
      && fw.ifInit == (if !Occurs(line, "ChargePump") && Occurs(line, "V1.8") then 36.13 else 37.7)
  {
    hide Contains, Occurs;
    ContainsExactly(line, "ChargePump");
    ContainsExactly(line, "V1.8");
  }

  /** The profile that the driver detects has the sample format that the receiver uses. */
  lemma DetectedFormat(v: Version, status: string)
    requires status == Status(v)
    ensures IsProfile(DetectFirmware(status)) && DetectFirmware(status).data10bit == v.TenBit()
  {
    match v
    case V15 => Detects15(status);
    case V17 => Detects17(status);
    case V18 => Detects18(status);
  }

  /** A printable line: ASCII, and no terminator in it. */
  predicate Plain(s: string) {
    |s| < 32 && forall i :: 0 <= i < |s| ==> 32 <= s[i] as int < 128
  }

  lemma PlainIsALine(s: string)
    requires Plain(s)
    ensures '\r' !in s && DecodeAscii(s) == s && |s| < READ_CHUNK
  {
    assert forall i :: 0 <= i < |s| ==> DecodeAscii(s)[i] == s[i];
  }

  lemma StatusIsPlain(v: Version, status: string)
    requires status == Status(v)
    ensures Plain(status) && v.StatusLine() == status + "\r"
  {
    match v
    case V15 => assert v.StatusLine() == status + "\r";
    case V17 => assert v.StatusLine() == status + "\r";
    case V18 => assert v.StatusLine() == status + "\r";
  }

  lemma IdentifiesReceiver(dev: Device, polls: nat, level: nat -> nat, stopped: string, status: string)
    requires Idle(dev) && polls >= 2
    requires stopped == "$CRX:Stopped" && status == Status(dev.version)
    ensures Identification(dev, "", polls, level) == (dev, "", Identified(DetectFirmware(status)))
  {
    assert ID_RESPONSE == stopped + "\r" && Plain(stopped);
    StatusIsPlain(dev.version, status);
    PlainIsALine(stopped);
    PlainIsALine(status);
    assert "" + (stopped + "\r") == stopped + "\r" && "" + (status + "\r") == status + "\r";
    QueryIsAnswered(dev, ID_QUERY, "S0", stopped, polls, level);
    QueryIsAnswered(dev, STATUS_QUERY, "?", status, polls, level);
  }

  /** The command without its terminator. */
  function ChannelToken(index: nat, freq: real, fw: Firmware, lo: real, chargepump: bool): string
    requires fw.ifInit >= 0.0
  {
    var cmd := ChannelCommand(index, freq, fw, lo, chargepump);
    cmd[..|cmd| - 1]
  }

  lemma ChannelTokenIsACommand(index: nat, freq: real, fw: Firmware, lo: real, chargepump: bool)
    requires fw.ifInit >= 0.0
    ensures var token := ChannelToken(index, freq, fw, lo, chargepump);
      && ChannelCommand(index, freq, fw, lo, chargepump) == token + "\r"
      && '\r' !in token && "FE" <= token
  {
    var effective := Abs(freq - lo);
    var (hi, low) := DividerBytes(effective, fw.ifInit);
    var control := if fw.data10bit || chargepump then CONTROL_BASE + CONTROL_CHARGEPUMP else CONTROL_BASE;
    FiveNumbers(Show(index + 1), Padded(hi, 3), Padded(low, 3), Padded(control, 3), Padded(BandFor(effective), 3));
  }

  lemma FiveNumbers(a: string, b: string, c: string, d: string, e: string)
    requires AllDigits(a) && AllDigits(b) && AllDigits(c) && AllDigits(d) && AllDigits(e)
    ensures var cmd := "FE" + a + "," + b + "," + c + "," + d + "," + e + "\r";
      var token := cmd[..|cmd| - 1];
      cmd == token + "\r" && '\r' !in token && "FE" <= token
  {
    var token := "FE" + a + "," + b + "," + c + "," + d + "," + e;
    var cmd := token + "\r";
    assert cmd[..|cmd| - 1] == token;
  }

  /** Every channel is written and acknowledged, and nothing is left over. */
  lemma {:induction false} ChannelsAreWritten(
    dev: Device, host: Host, freqs: seq<real>, index: nat, polls: nat, level: nat -> nat)
    requires Idle(dev) && host.firmware.ifInit >= 0.0 && index <= |freqs| && polls >= 2
    ensures ChannelsWritten(dev, "", host, freqs, index, polls, level) == (dev, "", Answer(""))
    decreases |freqs| - index
  {
    hide ChannelCommand, ChannelToken, Written, Handled, Awaited;
    if index < |freqs| {
      var cfg := host.cfg;
      var token := ChannelToken(index, freqs[index], host.firmware, cfg.localOscillator, cfg.chargepump);
      ChannelTokenIsACommand(index, freqs[index], host.firmware, cfg.localOscillator, cfg.chargepump);
      WriteOne(dev, token);
      AcknowledgesChannel(dev, token);
      ReplyIsRead(dev.(out := "" + [EEPROM_READY]), "", EEPROM_READY, polls, level);
      ChannelsAreWritten(dev, host, freqs, index + 1, polls, level);
    }
  }

  lemma AcknowledgesChannel(dev: Device, token: string)
    requires Idle(dev) && "FE" <= token
    ensures Handled(dev, token) == dev.(out := "" + [EEPROM_READY])
  {
    assert token[0] == 'F' && token[1] == 'E';
    assert Parse(token) == WriteChannel;
  }

  /**
   A handshake with a receiver that answers succeeds, whatever state the receiver was in: step by step
   it leaves the receiver idle, chooses the firmware profile that decodes what this receiver sends,
   has every channel acknowledged, and starts the stream in step.
   */
  lemma HandshakeSteps(dev: Device, rx: string, host: Host, freqs: seq<real>, polls: nat, level: nat -> nat, now: real)
    requires dev.cmd == "" && dev.readErrors == 0 && polls >= 2
    requires host.firmware == DetectFirmware(Status(dev.version))
    requires host.nchannels == |freqs| >= 1
    requires host.nchannels != OVERVIEW_LENGTH || dev.nchannels <= 0
    ensures host.firmware.ifInit >= 0.0 && host.firmware.data10bit == dev.version.TenBit()
    ensures var quiet := dev.(running := false, out := "");
      && Drained(dev, rx) == (quiet, "", true)
      && Identification(quiet, "", polls, level) == (quiet, "", Identified(host.firmware))
      && ChannelsWritten(quiet, "", host, freqs, 0, polls, level) == (quiet, "", Answer(""))
      && InStep(host, System(Armed(quiet, host), "", Begin(now), []), [], 0)
      && Armed(quiet, host).running == !dev.dead
      && Armed(quiet, host).out == if dev.dead then STARTED else STARTED + [DATA_START]
  {
    DrainQuiets(dev, rx);
    var quiet := dev.(running := false, out := "");
    var status := Status(dev.version);
    DetectedFormat(dev.version, status);
    IdentifiesReceiver(quiet, polls, level, "$CRX:Stopped", status);
    ChannelsAreWritten(quiet, host, freqs, 0, polls, level);
    ArmedInStep(quiet, host, now);
  }

  lemma DrainQuiets(dev: Device, rx: string)
    requires dev.cmd == "" && dev.readErrors == 0
    ensures Drained(dev, rx) == (dev.(running := false, out := ""), "", true)
  {
    ResetReceiver(dev, RESET);
  }

  lemma ArmedInStep(dev: Device, host: Host, now: real)
    requires Idle(dev) && host.Fmt().Valid() && dev.version.TenBit() == host.firmware.data10bit
    requires host.nchannels != OVERVIEW_LENGTH || dev.nchannels <= 0
    ensures var d := Armed(dev, host);
      && InStep(host, System(d, "", Begin(now), []), [], 0)
      && d.running == !dev.dead
      && d.out == if dev.dead then STARTED else STARTED + [DATA_START]
  {
    hide LineInStep, Armed;
    ArmedLine(host, dev);
    assert System(Armed(dev, host), "", Begin(now), []).emitted[0..] == [];
  }
}
