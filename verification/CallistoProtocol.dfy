/** The commands of the Callisto receiver and its firmware profiles (drivers/callisto/protocol.py). */
module CallistoProtocol {
  import opened Wrappers
  import opened Decimal

  const SYNTHESIZER_RESOLUTION := 0.0625
  const LOW_BAND := 171.0
  const MID_BAND := 450.0
  const CONTROL_BASE: nat := 0x86
  const CONTROL_CHARGEPUMP: nat := 0x40

  const RESET := "D0\rGD\rS0\r"
  const ID_QUERY := "S0\r"
  const ID_RESPONSE := "$CRX:Stopped\r"
  const STATUS_QUERY := "?\r"
  const STOP := "GD\r"
  const HALT := "S0\r"
  const EEPROM_READY := ']'

  datatype Firmware = Firmware(version: string, ifInit: real, data10bit: bool)

  const FIRMWARE_15 := Firmware("1.5", 37.7, false)
  const FIRMWARE_17 := Firmware("1.7", 37.7, true)
  const FIRMWARE_18 := Firmware("1.8", 36.13, true)
  const FIRMWARE_DEFAULT := Firmware("default", 37.7, true)

  predicate Contains(s: string, t: string) {
    t <= s || (s != "" && Contains(s[1..], t))
  }

  function DetectFirmware(line: string): Firmware {
    if Contains(line, "ChargePump") then FIRMWARE_15
    else if Contains(line, "V1.8") then FIRMWARE_18
    else if Contains(line, "Debug") then FIRMWARE_17
    else FIRMWARE_DEFAULT
  }

  /** One of the four profiles that `DetectFirmware` can give. */
  predicate IsProfile(fw: Firmware) {
    fw == FIRMWARE_15 || fw == FIRMWARE_17 || fw == FIRMWARE_18 || fw == FIRMWARE_DEFAULT
  }

  function BandFor(freq: real): nat {
    if freq <= LOW_BAND then 1 else if freq <= MID_BAND then 2 else 4
  }

  /** The synthesizer divider of a tuner frequency. */
  function Divider(freq: real, ifInit: real): (d: nat)
    requires freq >= 0.0 && ifInit >= 0.0
  {
    ((freq + ifInit) / SYNTHESIZER_RESOLUTION).Floor
  }

  function DividerBytes(freq: real, ifInit: real): (nat, nat)
    requires freq >= 0.0 && ifInit >= 0.0
  {
    var divider := Divider(freq, ifInit);
    (divider / 256 % 256, divider % 256)
  }

  /** The EEPROM write of one channel. The control bits are disjoint, so `|` is `+`. */
  function ChannelCommand(index: nat, freq: real, fw: Firmware, lo: real, chargepump: bool): string
    requires fw.ifInit >= 0.0
  {
    var effective := Abs(freq - lo);
    var (hi, low) := DividerBytes(effective, fw.ifInit);
    var control := if fw.data10bit || chargepump then CONTROL_BASE + CONTROL_CHARGEPUMP else CONTROL_BASE;
    "FE" + Show(index + 1) + "," + Padded(hi, 3) + "," + Padded(low, 3) + "," + Padded(control, 3) + ","
    + Padded(BandFor(effective), 3) + "\r"
  }

  function ClockCommand(clocksource: int, rate: int): Option<string> {
    var r := if rate < 1 then 1 else rate;
    if clocksource == 1 then Some("GS" + ShowInt(86400 / r - 1, 0) + "\r")
    else if clocksource == 2 then Some("GA" + ShowInt(500000 / r - 1, 0) + "\r")
    else None
  }

  /** Host settings that are not part of the frequency plan. */
  datatype Config = Config(focuscode: int, agclevel: int, chargepump: bool, clocksource: int, localOscillator: real)

  function InitCommands(cfg: Config, rate: int): seq<string> {
    var clock := ClockCommand(cfg.clocksource, rate);
    (if clock.Some? then [clock.value] else []) + [GainCommand(cfg)]
  }

  function GainCommand(cfg: Config): string {
    "T" + ShowInt(cfg.clocksource, 0) + "\rO" + ShowInt(cfg.agclevel, 3) + "\rC"
    + (if cfg.chargepump then "1" else "0") + "\r"
  }

  function StartCommands(focuscode: int, nchannels: nat): string {
    "FS" + ShowInt(focuscode, 2) + ShowInt(focuscode - 1, 2) + "\rL" + Show(nchannels) + "\rS1\rGE\r"
  }

  /** The synthesizer word sent for a frequency tunes less than one synthesizer step below the request, never above it,
      exactly when it fits its two bytes: below 4096 MHz, the oscillator of the receiver included. */
  lemma TunedWithinOneStep(freq: real, fw: Firmware)
    requires freq >= 0.0 && fw.ifInit >= 0.0
    ensures var (hi, low) := DividerBytes(freq, fw.ifInit);
      var tuned := (256 * hi + low) as real / 16.0 - fw.ifInit;
      && hi < 256 && low < 256
      && (freq - 0.0625 < tuned <= freq <==> freq + fw.ifInit < 4096.0)
  {
    var d := Divider(freq, fw.ifInit);
    var x := (freq + fw.ifInit) / SYNTHESIZER_RESOLUTION;
    assert x == (freq + fw.ifInit) * 16.0;
    assert d as real <= x < d as real + 1.0;
    LowBytes(d);
  }

  lemma LowBytes(d: nat)
    ensures var word := 256 * (d / 256 % 256) + d % 256; word < 65536 && (d < 65536 ==> word == d)
  {
  }
}
