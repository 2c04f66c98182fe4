/**
 What the driver tells the receiver besides the channels (drivers/callisto/driver.py, drivers/callisto/protocol.py): the
 clock divider, the gain and the start. The simulated receiver acknowledges most of it silently; here the bytes are
 read back, command by command and field by field.
 */
module SetupCommands {
  import opened Wrappers
  import opened Decimal
  import opened CallistoProtocol
  import opened CallistoSession

  /** The bytes of the clock and gain set-up. */
  function SetUp(host: Host): string { Flatten(InitCommands(host.cfg, host.Pixels())) }

  /** The bytes that write all channels. */
  function ChannelCommands(host: Host, freqs: seq<real>): string
    requires host.firmware.ifInit >= 0.0
  {
    if freqs == [] then ""
    else
      var k := |freqs| - 1;
      ChannelCommands(host, freqs[..k])
      + ChannelCommand(k, freqs[k], host.firmware, host.cfg.localOscillator, host.cfg.chargepump)
  }

  /** The bytes of a reset: all of them, or RESET only when the drain fails. */
  function ResetCommands(host: Host, drained: bool): string {
    RESET + if drained then SetUp(host) + StartCommands(host.cfg.focuscode, host.nchannels) else ""
  }

  // ---- Reading commands back ----

  /** The commands in a byte string, each without its terminator. */
  function Heard(bytes: string): seq<string>
    decreases |bytes|
  {
    var i := IndexOf(bytes, '\r');
    if i == |bytes| then [] else [bytes[..i]] + Heard(bytes[i + 1..])
  }

  lemma HeardFirst(token: string, rest: string)
    requires '\r' !in token
    ensures Heard(token + "\r" + rest) == [token] + Heard(rest)
  {
    IndexOfAfter(token, '\r', rest);
    var bytes := token + "\r" + rest;
    assert bytes[..|token|] == token && bytes[|token| + 1..] == rest;
  }

  lemma {:induction false} HeardLines(tokens: seq<string>, rest: string)
    requires forall i :: 0 <= i < |tokens| ==> '\r' !in tokens[i]
    ensures Heard(Lines(tokens) + rest) == tokens + Heard(rest)
  {
    hide Heard;
    if tokens == [] {
      assert "" + rest == rest && tokens + Heard(rest) == Heard(rest);
    } else {
      var later := Lines(tokens[1..]) + rest;
      HeardFirst(tokens[0], later);
      HeardLines(tokens[1..], rest);
      assert Lines(tokens) + rest == tokens[0] + "\r" + later;
      assert tokens == [tokens[0]] + tokens[1..];
    }
  }

  /** The command carries the number behind its letters. */
  predicate Carries(token: string, letters: string, n: int) {
    letters <= token && ParseInt(token[|letters|..]) == Some(n)
  }

  /** The integer nearest to `x`, of two as near the even one; 1 for all that lies below. */
  predicate NearestPositive(x: real, p: int) {
    if x < 1.5 then p == 1
    else p as real - 0.5 <= x <= p as real + 0.5 && (x - p as real == 0.5 || x - p as real == -0.5 ==> p % 2 == 0)
  }

  /** The divider `d` makes a clock of `ticks` per second at least as fast as `p` pixels per second, but only just. */
  predicate Divides(ticks: int, p: int, d: int) { (d + 1) * p <= ticks < (d + 2) * p }

  /** The clock command for a sweep rate and a number of channels. */
  ghost predicate SetsClock(host: Host, token: string) {
    exists p: int, d: int :: SetsClockTo(host, token, p, d)
  }

  /** The same for `p` pixels per second and the divider `d`. */
  predicate SetsClockTo(host: Host, token: string, p: int, d: int) {
    && NearestPositive(host.sweepsPerSecond * host.nchannels as real, p)
    && (if host.cfg.clocksource == 1 then Carries(token, "GS", d) && Divides(86400, p, d)
        else Carries(token, "GA", d) && Divides(500000, p, d))
  }

  /** Clock source, gain and charge pump, in this order. */
  predicate SetsGain(cfg: Config, tokens: seq<string>) {
    && |tokens| == 3
    && Carries(tokens[0], "T", cfg.clocksource)
    && Carries(tokens[1], "O", cfg.agclevel) && |tokens[1]| >= 4
    && (0 <= cfg.agclevel < 1000 ==> |tokens[1]| == 4)
    && tokens[2] == if cfg.chargepump then "C1" else "C0"
  }

  /** Focus code twice, the second one lower by one; the length; the state machine; the data. */
  ghost predicate Starts(host: Host, tokens: seq<string>) {
    && |tokens| == 4
    && (exists a, b :: SetsFocus(host.cfg.focuscode, tokens[0], a, b))
    && Carries(tokens[1], "L", host.nchannels)
    && tokens[2] == "S1" && tokens[3] == "GE"
  }

  predicate SetsFocus(focuscode: int, token: string, a: string, b: string) {
    && token == "FS" + a + b && |a| >= 2 && |b| >= 2 && (1 <= focuscode < 100 ==> |a| == 2 && |b| == 2)
    && ParseInt(a) == Some(focuscode) && ParseInt(b) == Some(focuscode - 1)
  }

  // ---- The fields ----

  lemma CarriesWhatIsShown(letters: string, n: int, width: nat)
    ensures Carries(letters + ShowInt(n, width), letters, n) && '\r' !in ShowInt(n, width)
    ensures |ShowInt(n, width)| >= width
  {
    ParseOfShowInt(n, width);
    ShowIntHasNoReturn(n, width);
    var token := letters + ShowInt(n, width);
    assert token[|letters|..] == ShowInt(n, width);
  }

  lemma ShowIntFills(n: int, width: nat)
    requires width >= 1
    ensures 0 <= n < Pow10(width) ==> |ShowInt(n, width)| == width
  {
    if 0 <= n < Pow10(width) {
      PaddedFills(n, width);
    }
  }

  lemma QuotientDivides(ticks: int, p: int)
    requires p >= 1 && ticks >= 0
    ensures Divides(ticks, p, ticks / p - 1)
  {
    var q := ticks / p;
    assert ticks == q * p + ticks % p;
    assert (q - 1 + 1) * p == q * p && (q - 1 + 2) * p == q * p + p;
  }

  lemma PixelsAreNearest(host: Host)
    ensures NearestPositive(host.sweepsPerSecond * host.nchannels as real, host.Pixels())
  {
    var x := host.sweepsPerSecond * host.nchannels as real;
    var k := RoundHalfEven(x);
    assert k as real - 0.5 <= x <= k as real + 0.5;
  }

  lemma ClockCommandSetsClock(host: Host)
    ensures var clock, source := ClockCommand(host.cfg.clocksource, host.Pixels()), host.cfg.clocksource;
      && (clock.Some? <==> source == 1 || source == 2)
      && (clock.Some? ==>
        var token := clock.value[..|clock.value| - 1];
        clock.value == token + "\r" && '\r' !in token && SetsClock(host, token))
  {
    var p := host.Pixels();
    PixelsAreNearest(host);
    hide Host.Pixels, ShowInt, ParseInt, NearestPositive, Carries, Divides;
    if host.cfg.clocksource == 1 {
      Numeral("GS", 86400 / p - 1);
      QuotientDivides(86400, p);
      ClockIsSet(host, "GS" + ShowInt(86400 / p - 1, 0), p, 86400 / p - 1);
    } else if host.cfg.clocksource == 2 {
      Numeral("GA", 500000 / p - 1);
      QuotientDivides(500000, p);
      ClockIsSet(host, "GA" + ShowInt(500000 / p - 1, 0), p, 500000 / p - 1);
    }
  }

  lemma ClockIsSet(host: Host, token: string, p: int, d: int)
    requires NearestPositive(host.sweepsPerSecond * host.nchannels as real, p)
    requires if host.cfg.clocksource == 1 then Carries(token, "GS", d) && Divides(86400, p, d)
             else Carries(token, "GA", d) && Divides(500000, p, d)
    ensures SetsClock(host, token)
  {
    assert SetsClockTo(host, token, p, d);
  }

  lemma Numeral(letters: string, n: int)
    requires letters == "GS" || letters == "GA"
    ensures var token := letters + ShowInt(n, 0);
      && Carries(token, letters, n) && '\r' !in token
      && (token + "\r")[..|token + "\r"| - 1] == token
  {
    CarriesWhatIsShown(letters, n, 0);
    hide ShowInt, ParseInt;
  }

  lemma ThreeHeard(t: string, o: string, c: string, rest: string)
    requires '\r' !in t && '\r' !in o && '\r' !in c
    ensures Heard(t + "\r" + o + "\r" + c + "\r" + rest) == [t, o, c] + Heard(rest)
  {
    hide Heard;
    var tokens := [t, o, c];
    LinesOfThree(t, o, c);
    HeardLines(tokens, rest);
    assert t + "\r" + o + "\r" + c + "\r" + rest == Lines(tokens) + rest;
  }

  lemma GainIsHeard(cfg: Config, rest: string)
    ensures Heard(GainCommand(cfg) + rest) == GainTokens(cfg) + Heard(rest)
  {
    var t, o := "T" + ShowInt(cfg.clocksource, 0), "O" + ShowInt(cfg.agclevel, 3);
    var c := "C" + (if cfg.chargepump then "1" else "0");
    ShowIntHasNoReturn(cfg.clocksource, 0);
    ShowIntHasNoReturn(cfg.agclevel, 3);
    hide ShowInt, Heard;
    assert GainCommand(cfg) == t + "\r" + o + "\r" + c + "\r";
    hide GainCommand;
    ThreeHeard(t, o, c, rest);
  }

  lemma GainTokensSetGain(cfg: Config)
    ensures SetsGain(cfg, GainTokens(cfg))
  {
    hide ShowInt, ParseInt, Carries;
    CarriesWhatIsShown("T", cfg.clocksource, 0);
    CarriesWhatIsShown("O", cfg.agclevel, 3);
    LevelFills(cfg.agclevel);
    assert "C" + "1" == "C1" && "C" + "0" == "C0";
  }

  lemma LevelFills(n: int)
    ensures 0 <= n < 1000 ==> |"O" + ShowInt(n, 3)| == 4
  {
    assert Pow10(3) == 1000;
    ShowIntFills(n, 3);
  }

  function GainTokens(cfg: Config): seq<string> {
    ["T" + ShowInt(cfg.clocksource, 0), "O" + ShowInt(cfg.agclevel, 3), "C" + (if cfg.chargepump then "1" else "0")]
  }

  /**
   The set-up, read back as a receiver reads it: with a clock of its own first the divider that fits the pixel rate,
   then clock source, gain and charge pump; nothing else.
   */
  lemma SetupCarriesItsFields(host: Host, rest: string)
    ensures var commands, source := Heard(SetUp(host) + rest), host.cfg.clocksource;
      var k := if source == 1 || source == 2 then 1 else 0;
      && |commands| == k + 3 + |Heard(rest)| && commands[k + 3..] == Heard(rest)
      && (k == 1 ==> SetsClock(host, commands[0]))
      && SetsGain(host.cfg, commands[k..k + 3])
  {
    hide *;
    var clock := ClockCommand(host.cfg.clocksource, host.Pixels());
    ClockCommandSetsClock(host);
    GainIsHeard(host.cfg, rest);
    GainTokensSetGain(host.cfg);
    ClockIsHeard(clock, GainCommand(host.cfg) + rest);
    SetUpInParts(host, rest);
    GainTokensAreThree(host.cfg);
    var token := if clock.Some? then [clock.value[..|clock.value| - 1]] else [];
    InThreeParts(host, token, GainTokens(host.cfg), Heard(rest));
  }

  lemma GainTokensAreThree(cfg: Config)
    ensures |GainTokens(cfg)| == 3
  {
  }

  lemma SetUpInParts(host: Host, rest: string)
    ensures var clock := ClockCommand(host.cfg.clocksource, host.Pixels());
      SetUp(host) + rest == (if clock.Some? then clock.value else "") + (GainCommand(host.cfg) + rest)
  {
    hide GainCommand, ClockCommand, Host.Pixels;
    var clock, gain := ClockCommand(host.cfg.clocksource, host.Pixels()), GainCommand(host.cfg);
    FlattenOfSetup(clock, gain);
    hide Flatten;
    var first := if clock.Some? then clock.value else "";
    assert SetUp(host) == first + gain;
    assert first + gain + rest == first + (gain + rest);
  }

  lemma InThreeParts(host: Host, token: seq<string>, tokens: seq<string>, later: seq<string>)
    requires |token| == (if host.cfg.clocksource == 1 || host.cfg.clocksource == 2 then 1 else 0)
    requires |tokens| == 3 && SetsGain(host.cfg, tokens) && (token != [] ==> SetsClock(host, token[0]))
    ensures var commands, k := token + (tokens + later), |token|;
      && |commands| == k + 3 + |later| && commands[k + 3..] == later
      && (k == 1 ==> SetsClock(host, commands[0]))
      && SetsGain(host.cfg, commands[k..k + 3])
  {
    hide SetsClock, SetsGain;
    Slices(token, tokens, later);
  }

  lemma ClockIsHeard(clock: Option<string>, later: string)
    requires clock.Some? ==>
      |clock.value| >= 1 && '\r' !in clock.value[..|clock.value| - 1] && clock.value[|clock.value| - 1] == '\r'
    ensures Heard((if clock.Some? then clock.value else "") + later)
      == (if clock.Some? then [clock.value[..|clock.value| - 1]] else []) + Heard(later)
  {
    hide Heard;
    if clock.Some? {
      var token := clock.value[..|clock.value| - 1];
      HeardFirst(token, later);
      assert clock.value + later == token + "\r" + later;
    } else {
      assert "" + later == later && [] + Heard(later) == Heard(later);
    }
  }

  lemma Slices(a: seq<string>, b: seq<string>, c: seq<string>)
    ensures var all := a + (b + c);
      |all| == |a| + |b| + |c| && all[..|a|] == a && all[|a|..|a| + |b|] == b && all[|a| + |b|..] == c
    ensures [] + (b + c) == b + c
  {
  }

  lemma FlattenOfSetup(clock: Option<string>, gain: string)
    ensures Flatten((if clock.Some? then [clock.value] else []) + [gain])
      == (if clock.Some? then clock.value else "") + gain
  {
    assert [gain][1..] == [];
    assert Flatten([gain]) == gain + Flatten([]) == gain;
    if clock.Some? {
      var both := [clock.value] + [gain];
      assert both[0] == clock.value && both[1..] == [gain];
      assert Flatten(both) == clock.value + Flatten([gain]);
    } else {
      assert [] + [gain] == [gain];
      assert "" + gain == gain;
    }
  }

  lemma StartIsHeard(host: Host)
    ensures Heard(StartCommands(host.cfg.focuscode, host.nchannels))
      == [FocusToken(host.cfg.focuscode), "L" + Show(host.nchannels), "S1", "GE"]
  {
    var focus, length := FocusToken(host.cfg.focuscode), "L" + Show(host.nchannels);
    ShowIntHasNoReturn(host.cfg.focuscode, 2);
    ShowIntHasNoReturn(host.cfg.focuscode - 1, 2);
    StartInLines(host.cfg.focuscode, host.nchannels);
    DigitsHaveNoReturn(Show(host.nchannels));
    assert '\r' !in focus && '\r' !in length;
    hide ShowInt, Show, Heard, StartCommands, FocusToken;
    var tokens := [focus] + ([length] + START_TOKENS);
    assert tokens == [focus, length, "S1", "GE"];
    HeardLines(tokens, "");
    NothingHeard();
    hide Lines;
    assert Lines(tokens) + "" == Lines(tokens) && tokens + [] == tokens;
  }

  /** The start sequence, read back. */
  lemma StartCarriesItsFields(host: Host)
    ensures Starts(host, Heard(StartCommands(host.cfg.focuscode, host.nchannels)))
  {
    StartIsHeard(host);
    hide Heard, StartCommands;
    TokensStart(host, FocusToken(host.cfg.focuscode), "L" + Show(host.nchannels));
  }

  lemma TokensStart(host: Host, focus: string, length: string)
    requires focus == FocusToken(host.cfg.focuscode) && length == "L" + Show(host.nchannels)
    ensures Starts(host, [focus, length, "S1", "GE"])
  {
    hide ShowInt, ParseInt, Show, Carries, FocusToken, SetsFocus;
    FocusIsSet(host.cfg.focuscode);
    CarriesWhatIsShown("L", host.nchannels, 0);
    PaddedToNothing(host.nchannels);
    var tokens := [focus, length, "S1", "GE"];
    var a, b :| SetsFocus(host.cfg.focuscode, focus, a, b);
    assert SetsFocus(host.cfg.focuscode, tokens[0], a, b);
    assert Carries(tokens[1], "L", host.nchannels);
  }

  lemma FocusIsSet(focuscode: int)
    ensures exists a, b :: SetsFocus(focuscode, FocusToken(focuscode), a, b)
  {
    var a, b := ShowInt(focuscode, 2), ShowInt(focuscode - 1, 2);
    ParseOfShowInt(focuscode, 2);
    ParseOfShowInt(focuscode - 1, 2);
    CarriesWhatIsShown("", focuscode, 2);
    CarriesWhatIsShown("", focuscode - 1, 2);
    ShowIntFills(focuscode, 2);
    ShowIntFills(focuscode - 1, 2);
    assert Pow10(2) == 100;
    hide ShowInt, ParseInt;
    assert SetsFocus(focuscode, FocusToken(focuscode), a, b);
  }

  lemma PaddedToNothing(n: nat)
    ensures ShowInt(n, 0) == Show(n)
  {
    assert Padded(n, 0) == Show(n);
  }

  lemma NothingHeard()
    ensures Heard("") == []
  {
  }

  /** A whole reset, read back: RESET, the set-up, the start. */
  lemma ResetCarriesItsFields(host: Host)
    ensures var commands, source := Heard(ResetCommands(host, true)), host.cfg.clocksource;
      var k := if source == 1 || source == 2 then 1 else 0;
      && |commands| == k + 10 && commands[..3] == ["D0", "GD", "S0"]
      && (k == 1 ==> SetsClock(host, commands[3]))
      && SetsGain(host.cfg, commands[k + 3..k + 6])
      && Starts(host, commands[k + 6..])
  {
    var start := StartCommands(host.cfg.focuscode, host.nchannels);
    ResetTokensHaveNoReturn();
    ResetInLines();
    hide Heard, SetsClock, SetsGain, Starts, StartCommands, SetUp;
    HeardLines(RESET_TOKENS, SetUp(host) + start);
    SetupCarriesItsFields(host, start);
    StartCarriesItsFields(host);
    var commands := Heard(SetUp(host) + start);
    assert RESET_TOKENS == ["D0", "GD", "S0"];
    var all := RESET_TOKENS + commands;
    var k := if host.cfg.clocksource == 1 || host.cfg.clocksource == 2 then 1 else 0;
    assert all[k + 3..k + 6] == commands[k..k + 3] && all[k + 6..] == commands[k + 3..];
    assert |Heard(start)| == 4 by { StartIsFour(host); }
  }

  lemma StartIsFour(host: Host)
    ensures |Heard(StartCommands(host.cfg.focuscode, host.nchannels))| == 4
  {
    StartCarriesItsFields(host);
    hide Heard, StartCommands;
  }
}
