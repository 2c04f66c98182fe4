/**
 The in-memory receiver at the other end of the link (drivers/callisto/simulator.py): command
 handling, sweep encoding and fault injection. `Device` with its functions is the specification;
 the class `SimulatedCallisto` updates its fields in place and is proved to follow it.
 */
module SimulatedReceiver {
  import opened Wrappers
  import opened StreamParsing
  import opened BatchDecoding
  import opened InterferedEncoding
  import opened Decimal
  import opened CallistoProtocol

  datatype Version = V15 | V17 | V18 {
    predicate TenBit() { !V15? }
    function MaxValue(): nat { if TenBit() then 1023 else 255 }
    function StatusLine(): string {
      match this
      case V15 => "$CRX:ChargePump=on\r"
      case V17 => "$CRX:Debug=off\r"
      case V18 => "$CRX:V1.8 / 25.43MHz\r"
    }
  }

  const STOPPED := "$CRX:Stopped\r"
  const STARTED := "$CRX:Started\r"
  const JUNK := "...."
  const CORRUPT_SAMPLE: nat := 0x3FFF
  const OVERVIEW_LENGTH := 13200

  /** What a read gives: an I/O error, or the bytes that were there. */
  datatype Read = Failed | Got(bytes: string)

  datatype Device = Device(
    version: Version, cmd: string, out: string, running: bool, nchannels: int, sweep: nat,
    dead: bool, readErrors: nat, corruptNext: bool, noise: bool)

  function Fresh(version: Version): Device {
    Device(version, "", "", false, 0, 0, false, 0, false, false)
  }

  function WithChannels(dev: Device, rest: string): (d: Device)
    ensures d.cmd == dev.cmd
  {
    match ParseInt(rest)
    case None => dev
    case Some(n) => if n != OVERVIEW_LENGTH then dev.(nchannels := n) else dev
  }

  /** The commands that have an effect on a stream; the others are acknowledged silently. */
  datatype Command =
    | SayId | Halt | SayStatus | WriteChannel | NewLength(rest: string) | StartMachine | EnableData | Unheard

  function Parse(text: string): Command {
    if text == "S0" then SayId
    else if text == "GD" then Halt
    else if text == "?" then SayStatus
    else if "FE" <= text then WriteChannel
    else if "L" <= text then NewLength(text[1..])
    else if text == "S1" then StartMachine
    else if text == "GE" then EnableData
    else Unheard
  }

  function Obeyed(dev: Device, c: Command): (d: Device)
    ensures d.cmd == dev.cmd
  {
    match c
    case SayId => dev.(out := dev.out + ID_RESPONSE)
    case Halt => if dev.running then dev.(running := false, out := dev.out + [DATA_END] + STOPPED) else dev
    case SayStatus => dev.(out := dev.out + dev.version.StatusLine())
    case WriteChannel => dev.(out := dev.out + [EEPROM_READY])
    case NewLength(rest) => WithChannels(dev, rest)
    case StartMachine => dev.(out := dev.out + STARTED)
    case EnableData =>
      if dev.dead then dev else dev.(running := true, noise := false, sweep := 0, out := dev.out + [DATA_START])
    case Unheard => dev
  }

  /** One complete command. */
  function Handled(dev: Device, text: string): Device { Obeyed(dev, Parse(text)) }

  function WriteByte(dev: Device, c: char): Device {
    if c == '\r' then Handled(dev.(cmd := ""), dev.cmd) else dev.(cmd := dev.cmd + [c])
  }

  function Written(dev: Device, data: string): Device
    decreases |data|
  {
    if data == "" then dev else Written(WriteByte(dev, data[0]), data[1..])
  }

  /** The samples of the next sweep; `level` is what the antenna gives, channel by channel. */
  function SweepSamples(dev: Device, level: nat -> nat): (raw: seq<nat>)
    requires dev.nchannels > 0
    ensures |raw| == dev.nchannels
    ensures Encodable(raw)
  {
    seq(dev.nchannels, ch requires 0 <= ch < dev.nchannels =>
      if dev.corruptNext && ch == 0 then CORRUPT_SAMPLE else SampleAt(dev, level, ch))
  }

  function SampleAt(dev: Device, level: nat -> nat, ch: nat): (v: nat)
    ensures v <= dev.version.MaxValue()
  {
    if level(ch) < dev.version.MaxValue() then level(ch) else dev.version.MaxValue()
  }

  /** A sample is the antenna level, cut off at 255 or at 1023; an injected corruption sets the first one to 0x3FFF. */
  lemma SampleIsTheLevel(dev: Device, level: nat -> nat, ch: nat)
    requires dev.nchannels > 0 && ch < dev.nchannels
    ensures var sample, top := SweepSamples(dev, level)[ch], if dev.version.V15? then 255 else 1023;
      sample == if dev.corruptNext && ch == 0 then 0x3FFF else if level(ch) <= top then level(ch) else top
  {
  }

  /** A read emits when the device is streaming and all earlier output has been read. */
  predicate Emits(dev: Device) {
    dev.readErrors == 0 && dev.running && dev.out == "" && dev.nchannels > 0 && !dev.noise
  }

  /** The output waiting when the read takes its bytes. */
  function Filled(dev: Device, level: nat -> nat): Device {
    if dev.running && dev.out == "" && dev.nchannels > 0 then
      if dev.noise then dev.(out := JUNK)
      else dev.(out := Encode(SweepSamples(dev, level)), corruptNext := false, sweep := dev.sweep + 1)
    else dev
  }

  function Take(s: string, size: nat): string { if |s| < size then s else s[..size] }

  function Drop(s: string, size: nat): string { if |s| < size then "" else s[size..] }

  function ReadStep(dev: Device, size: nat, level: nat -> nat): (Device, Read) {
    if dev.readErrors > 0 then (dev.(readErrors := dev.readErrors - 1), Failed)
    else
      var d := Filled(dev, level);
      (d.(out := Drop(d.out, size)), Got(Take(d.out, size)))
  }

  function Closed(dev: Device): Device { dev.(running := false) }

  // ---- Writing commands ----

  lemma {:induction false} WriteConcat(dev: Device, a: string, b: string)
    ensures Written(dev, a + b) == Written(Written(dev, a), b)
    decreases |a|
  {
    if a == "" {
      assert a + b == b;
    } else {
      assert (a + b)[1..] == a[1..] + b;
      WriteConcat(WriteByte(dev, a[0]), a[1..], b);
    }
  }

  lemma {:induction false} WriteToken(dev: Device, token: string)
    requires '\r' !in token
    ensures Written(dev, token + "\r") == Handled(dev.(cmd := ""), dev.cmd + token)
    decreases |token|
  {
    hide Handled;
    if token == "" {
      assert dev.cmd + token == dev.cmd;
      assert token + "\r" == ['\r'];
      assert Written(Handled(dev.(cmd := ""), dev.cmd), "") == Handled(dev.(cmd := ""), dev.cmd);
    } else {
      assert (token + "\r")[1..] == token[1..] + "\r";
      assert token[0] in token && forall c <- token[1..] :: c in token;
      WriteToken(dev.(cmd := dev.cmd + [token[0]]), token[1..]);
      assert dev.cmd + [token[0]] + token[1..] == dev.cmd + token;
    }
  }

  /** Whole commands in one write are handled one after the other. */
  lemma WriteCommand(dev: Device, token: string, rest: string)
    requires '\r' !in token && dev.cmd == ""
    ensures Written(dev, token + "\r" + rest) == Written(Handled(dev, token), rest)
    ensures Handled(dev, token).cmd == ""
  {
    hide Parse, Written, WithChannels;
    WriteConcat(dev, token + "\r", rest);
    WriteToken(dev, token);
    assert "" + token == token;
  }

  /** Bytes without a command end only wait. */
  lemma {:induction false} WriteWaits(dev: Device, data: string)
    requires '\r' !in data
    ensures Written(dev, data) == dev.(cmd := dev.cmd + data)
    decreases |data|
  {
    if data == "" {
      assert dev.cmd + data == dev.cmd;
    } else {
      assert data[0] in data && forall c <- data[1..] :: c in data;
      WriteWaits(dev.(cmd := dev.cmd + [data[0]]), data[1..]);
      assert dev.cmd + [data[0]] + data[1..] == dev.cmd + data;
    }
  }

  /** A single whole command. */
  lemma WriteOne(dev: Device, token: string)
    requires '\r' !in token && dev.cmd == ""
    ensures Written(dev, token + "\r") == Handled(dev, token)
  {
    hide Handled, Written;
    WriteToken(dev, token);
    assert "" + token == token;
  }

  /** After a command's terminator nothing waits. */
  lemma WriteEndsClean(dev: Device, data: string)
    requires |data| > 0 && data[|data| - 1] == '\r'
    ensures Written(dev, data).cmd == ""
  {
    hide Parse, WithChannels;
    var a := data[..|data| - 1];
    assert data == a + "\r";
    WriteConcat(dev, a, "\r");
    var d := Written(dev, a);
    assert Written(d, "\r") == Written(WriteByte(d, '\r'), "");
  }

  class SimulatedCallisto {
    const version: Version
    var cmd: string
    var out: string
    var running: bool
    var nchannels: int
    var sweep: nat
    var dead: bool
    var readErrors: nat
    var corruptNext: bool
    var noise: bool
    /** Every byte that was ever written to the port. */
    ghost var heard: string

    ghost function Current(): Device
      reads this
    {
      Device(version, cmd, out, running, nchannels, sweep, dead, readErrors, corruptNext, noise)
    }

    ghost predicate Valid()
      reads this
    {
      '\r' !in cmd
    }

    constructor (version: Version)
      ensures Valid() && Current() == Fresh(version) && heard == ""
    {
      this.version := version;
      cmd, out, running, nchannels, sweep := "", "", false, 0, 0;
      dead, readErrors, corruptNext, noise, heard := false, 0, false, false, "";
    }

    method Stall()
      modifies this
      ensures heard == old(heard)
      ensures Current() == old(Current()).(running := false)
    {
      running := false;
    }

    method MakeDead()
      modifies this
      ensures heard == old(heard)
      ensures Current() == old(Current()).(dead := true, running := false)
    {
      dead, running := true, false;
    }

    method InjectReadError(times: nat)
      modifies this
      ensures heard == old(heard)
      ensures Current() == old(Current()).(readErrors := times)
    {
      readErrors := times;
    }

    method InjectCorruption()
      modifies this
      ensures heard == old(heard)
      ensures Current() == old(Current()).(corruptNext := true)
    {
      corruptNext := true;
    }

    method EmitNoise()
      modifies this
      ensures heard == old(heard)
      ensures Current() == old(Current()).(noise := true)
    {
      noise := true;
    }

    method Close()
      modifies this
      ensures heard == old(heard)
      ensures Current() == Closed(old(Current()))
    {
      running := false;
    }

    method SetChannels(rest: string)
      modifies this
      ensures heard == old(heard)
      ensures Current() == WithChannels(old(Current()), rest)
    {
      var n := ParseInt(rest);
      if n.None? {
        return;
      }
      if n.value != OVERVIEW_LENGTH {
        nchannels := n.value;
      }
    }

    method Handle(text: string)
      modifies this
      ensures heard == old(heard)
      ensures Current() == Handled(old(Current()), text)
    {
      if text == "S0" {
        out := out + ID_RESPONSE;
      } else if text == "GD" {
        if running {
          running := false;
          out := out + [DATA_END] + STOPPED;
        }
      } else if text == "?" {
        out := out + version.StatusLine();
      } else if "FE" <= text {
        out := out + [EEPROM_READY];
      } else if "L" <= text {
        SetChannels(text[1..]);
      } else if text == "S1" {
        out := out + STARTED;
      } else if text == "GE" {
        if !dead {
          running, noise, sweep := true, false, 0;
          out := out + [DATA_START];
        }
      }
    }

    method Write(data: string)
      requires Valid()
      modifies this
      ensures Valid()
      ensures Current() == Written(old(Current()), data)
      ensures heard == old(heard) + data
    {
      hide Written, Handled, IndexOf;
      ghost var before := Current();
      WriteWaits(before.(cmd := ""), before.cmd);
      assert "" + before.cmd == before.cmd;
      WriteConcat(before.(cmd := ""), before.cmd, data);
      heard := heard + data;
      cmd := cmd + data;
      while '\r' in cmd
        invariant heard == old(heard) + data
        invariant Written(Current().(cmd := ""), cmd) == Written(before, data)
        decreases |cmd|
      {
        assert cmd[..|cmd|] == cmd;
        var idx := IndexOf(cmd, '\r');
        var token := cmd[..idx];
        ghost var waiting := Current().(cmd := "");
        assert cmd == token + "\r" + cmd[idx + 1..];
        WriteCommand(waiting, token, cmd[idx + 1..]);
        var rest := cmd[idx + 1..];
        cmd := "";
        Handle(token);
        cmd := rest;
      }
      WriteWaits(Current().(cmd := ""), cmd);
      assert "" + cmd == cmd;
    }

    method EmitSweep(level: nat -> nat)
      requires nchannels > 0
      modifies this
      ensures heard == old(heard)
      ensures Current() == old(Current()).(
        out := old(out) + Encode(SweepSamples(old(Current()), level)), corruptNext := false, sweep := old(sweep) + 1)
    {
      hide Encode, Hex4;
      ghost var raw := SweepSamples(Current(), level);
      ghost var before := Current();
      for ch := 0 to nchannels
        modifies `out
        invariant out == before.out + Encode(raw[..ch])
      {
        var value := if level(ch) < version.MaxValue() then level(ch) else version.MaxValue();
        if corruptNext && ch == 0 {
          value := CORRUPT_SAMPLE;
        }
        assert value == raw[ch];
        EncodeOneMore(raw, ch);
        assert out + Hex4(value) == before.out + (Encode(raw[..ch]) + Hex4(value));
        out := out + Hex4(value);
      }
      assert raw[..nchannels] == raw;
      corruptNext := false;
      sweep := sweep + 1;
    }

    method Read(size: nat, level: nat -> nat) returns (r: Read)
      modifies this
      ensures heard == old(heard)
      ensures (Current(), r) == ReadStep(old(Current()), size, level)
    {
      if readErrors > 0 {
        readErrors := readErrors - 1;
        return Failed;
      }
      if running && out == "" && nchannels > 0 {
        if noise {
          out := out + JUNK;
          assert out == JUNK;
        } else {
          EmitSweep(level);
          assert out == Encode(SweepSamples(old(Current()), level));
        }
      }
      r := Got(Take(out, size));
      out := Drop(out, size);
    }
  }
}
