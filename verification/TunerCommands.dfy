/** What a channel command carries: read back field by field, it programs the channel that was asked for. */
module TunerCommands {
  import opened Wrappers
  import opened Decimal
  import opened TextLines
  import opened CallistoProtocol

  /** The numbers behind the two letters of a command, in front of its terminator. */
  function Fields(cmd: string): seq<Option<int>>
    requires |cmd| >= 3
  {
    Map(ParseInt, Columns(cmd[2..|cmd| - 1]))
  }

  function Control(fw: Firmware, chargepump: bool): nat {
    if fw.data10bit || chargepump then CONTROL_BASE + CONTROL_CHARGEPUMP else CONTROL_BASE
  }

  lemma Regroup(p: string, x: string, y: string, z: string)
    ensures p + (x + y + z) == p + x + y + z
  {
  }

  lemma Inner(letters: string, body: string, end: string)
    requires |letters| == 2 && |end| == 1
    ensures var cmd := letters + body + end; cmd[2..|cmd| - 1] == body
  {
  }

  lemma FiveColumns(letters: string, a: string, b: string, c: string, d: string, e: string, s: string)
    requires |letters| == 2 && s == [',']
    ensures letters + a + s + b + s + c + s + d + s + e == letters + JoinColumns([a, b, c, d, e])
  {
    assert [a, b, c, d, e][1..] == [b, c, d, e] && [b, c, d, e][1..] == [c, d, e];
    assert [c, d, e][1..] == [d, e] && [d, e][1..] == [e];
    var de := d + s + e;
    var cde := c + s + de;
    var bcde := b + s + cde;
    assert JoinColumns([d, e]) == de;
    assert JoinColumns([c, d, e]) == cde;
    assert JoinColumns([b, c, d, e]) == bcde;
    assert JoinColumns([a, b, c, d, e]) == a + s + bcde;
    hide JoinColumns;
    Regroup(letters, a, s, bcde);
    Regroup(letters + a + s, b, s, cde);
    Regroup(letters + a + s + b + s, c, s, de);
    Regroup(letters + a + s + b + s + c + s, d, s, e);
  }

  lemma NumeralReads(n: nat, width: nat)
    ensures ParseInt(Padded(n, width)) == Some(n) && ',' !in Padded(n, width)
  {
    ParseOfShowInt(n, width);
    assert AllDigits(Padded(n, width));
  }

  lemma FieldsOf(cmd: string, letters: string, cols: seq<string>, end: string)
    requires cols != [] && |letters| == 2 && |end| == 1 && cmd == letters + JoinColumns(cols) + end
    requires forall i :: 0 <= i < |cols| ==> ',' !in cols[i]
    ensures |cmd| >= 3 && Columns(cmd[2..|cmd| - 1]) == cols && Fields(cmd) == Map(ParseInt, cols)
  {
    hide Columns, JoinColumns, ParseInt;
    Inner(letters, JoinColumns(cols), end);
    ColumnsOfJoin(cols);
    LongEnough(letters, cols, end);
  }

  lemma LongEnough(letters: string, cols: seq<string>, end: string)
    requires |letters| == 2 && |end| == 1 && cols != []
    ensures |letters + JoinColumns(cols) + end| >= 3
  {
  }

  /** The five columns of a command as they are printed. */
  function Printed(index: nat, hi: nat, low: nat, control: nat, band: nat): seq<string> {
    [Padded(index + 1, 0), Padded(hi, 3), Padded(low, 3), Padded(control, 3), Padded(band, 3)]
  }

  lemma PrintedReads(index: nat, hi: nat, low: nat, control: nat, band: nat)
    ensures var cols := Printed(index, hi, low, control, band);
      && (forall i :: 0 <= i < |cols| ==> ',' !in cols[i])
      && Map(ParseInt, cols) == [Some(index + 1), Some(hi), Some(low), Some(control), Some(band)]
  {
    NumeralReads(index + 1, 0);
    NumeralReads(hi, 3);
    NumeralReads(low, 3);
    NumeralReads(control, 3);
    NumeralReads(band, 3);
    hide ParseInt, Padded, AllDigits, Map;
    FiveNumerals(Padded(index + 1, 0), Padded(hi, 3), Padded(low, 3), Padded(control, 3), Padded(band, 3));
  }

  lemma FiveNumerals(a: string, b: string, c: string, d: string, e: string)
    requires ',' !in a && ',' !in b && ',' !in c && ',' !in d && ',' !in e
    ensures var cols := [a, b, c, d, e];
      && (forall i :: 0 <= i < |cols| ==> ',' !in cols[i])
      && Map(ParseInt, cols) == [ParseInt(a), ParseInt(b), ParseInt(c), ParseInt(d), ParseInt(e)]
  {
    hide ParseInt;
  }

  lemma ThreeCharacters(n: nat)
    requires n < 256
    ensures |Padded(n, 3)| == 3
  {
    ThreeDigits(n);
  }

  /**
   A command carries the one-based channel number, the divider, the control byte and the band, in this order, the last
   four in three digits each.
   */
  lemma CommandCarriesItsFields(index: nat, freq: real, fw: Firmware, lo: real, chargepump: bool)
    requires fw.ifInit >= 0.0
    ensures var cmd, tuner := ChannelCommand(index, freq, fw, lo, chargepump), Abs(freq - lo);
      var (hi, low) := DividerBytes(tuner, fw.ifInit);
      && |cmd| >= 3
      && Fields(cmd) == [Some(index + 1), Some(hi), Some(low), Some(Control(fw, chargepump)), Some(BandFor(tuner))]
      && var cols := Columns(cmd[2..|cmd| - 1]);
        |cols| == 5 && |cols[1]| == 3 && |cols[2]| == 3 && |cols[3]| == 3 && |cols[4]| == 3
  {
    hide BandFor, DividerBytes, Abs, ParseInt, Padded, Fields, JoinColumns;
    var tuner := Abs(freq - lo);
    var (hi, low) := DividerBytes(tuner, fw.ifInit);
    var control, band := Control(fw, chargepump), BandFor(tuner);
    BytesAreBytes(tuner, fw);
    ThreeCharacters(hi);
    ThreeCharacters(low);
    ThreeCharacters(control);
    ThreeCharacters(band);
    var cols := Printed(index, hi, low, control, band);
    PlainIsUnpadded(index + 1);
    FiveColumns("FE", cols[0], cols[1], cols[2], cols[3], cols[4], ",");
    assert ChannelCommand(index, freq, fw, lo, chargepump) == "FE" + JoinColumns(cols) + "\r";
    PrintedReads(index, hi, low, control, band);
    hide ChannelCommand, Printed;
    FieldsOf(ChannelCommand(index, freq, fw, lo, chargepump), "FE", cols, "\r");
  }

  lemma BytesAreBytes(tuner: real, fw: Firmware)
    requires tuner >= 0.0 && fw.ifInit >= 0.0
    ensures var (hi, low) := DividerBytes(tuner, fw.ifInit); hi < 256 && low < 256 && BandFor(tuner) < 256
  {
    TunedWithinOneStep(tuner, fw);
  }

  lemma PlainIsUnpadded(n: nat)
    ensures Padded(n, 0) == Show(n)
  {
  }

  /**
   The synthesizer that obeys the command runs less than one step below the frequency asked for, and never above it,
   exactly when tuner frequency and oscillator together stay below 4096 MHz; the band and the charge pump are those of
   the tuner at any frequency.
   */
  lemma CommandTunesTheReceiver(index: nat, freq: real, fw: Firmware, lo: real, chargepump: bool)
    requires IsProfile(fw)
    ensures var cmd, tuner := ChannelCommand(index, freq, fw, lo, chargepump), Abs(freq - lo);
      && |cmd| >= 3 && |Fields(cmd)| == 5 && (forall k :: 0 <= k < 5 ==> Fields(cmd)[k].Some?)
      && (var f := Fields(cmd);
          var tuned := (256 * f[1].value + f[2].value) as real / 16.0 - fw.ifInit;
          && f[0].value == index + 1
          && (tuner - 0.0625 < tuned <= tuner <==> tuner + fw.ifInit < 4096.0)
          && (tuner <= 171.0 ==> f[4].value == 1) && (171.0 < tuner <= 450.0 ==> f[4].value == 2)
          && (tuner > 450.0 ==> f[4].value == 4)
          && (fw.data10bit || chargepump ==> f[3].value == 0xC6)
          && (!fw.data10bit && !chargepump ==> f[3].value == 0x86))
  {
    assert fw.ifInit >= 0.0;
    CommandCarriesItsFields(index, freq, fw, lo, chargepump);
    TunedWithinOneStep(Abs(freq - lo), fw);
    hide ChannelCommand, Fields, DividerBytes, Abs, IsProfile;
  }
}
