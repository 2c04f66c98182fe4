/**
 What the receiver writes, and what may come between: samples as four hex digits after a `2`, with
 messages cut in anywhere, even inside a sample, with line noise, and with end markers between the
 samples. The parser recovers exactly the samples and exactly the messages.
 */
module InterferedEncoding {
  import opened Wrappers
  import opened StreamParsing
  import opened BatchDecoding

  function HexDigit(v: nat): (c: char)
    requires v < 16
    ensures IsHexDigit(c) && HexValue(c) == v
  {
    if v < 10 then '0' + v as char else 'A' + (v - 10) as char
  }

  /** The `04X` format. */
  function Hex4(v: nat): (s: string)
    requires v < 0x10000
    ensures |s| == 4 && AllHex(s)
  {
    [HexDigit(v / 4096), HexDigit(v / 256 % 16), HexDigit(v / 16 % 16), HexDigit(v % 16)]
  }

  lemma HexNumberOfHex4(v: nat)
    requires v < 0x10000
    ensures HexNumber(Hex4(v)) == v
  {
    var s := Hex4(v);
    assert s[..3][..2][..1][..0] == "";
    assert s[..3][..2][..1] == [s[0]] && s[..3][..2] == [s[0], s[1]] && s[..3] == [s[0], s[1], s[2]];
    assert HexNumber([s[0]]) == v / 4096;
    assert HexNumber([s[0], s[1]]) == v / 256;
    assert HexNumber([s[0], s[1], s[2]]) == v / 16;
  }

  predicate Encodable(groups: seq<nat>) { forall i :: 0 <= i < |groups| ==> groups[i] < 0x10000 }

  /** The digits of a run of groups. */
  function Encode(groups: seq<nat>): (s: string)
    requires Encodable(groups)
    ensures AllHex(s) && |s| == 4 * |groups|
  {
    if groups == [] then "" else Hex4(groups[0]) + Encode(groups[1..])
  }

  lemma {:induction false} GroupsOfEncode(groups: seq<nat>)
    requires Encodable(groups)
    ensures Groups(Encode(groups)) == groups
  {
    if groups != [] {
      HexNumberOfHex4(groups[0]);
      assert Encode(groups)[..4] == Hex4(groups[0]) && Encode(groups)[4..] == Encode(groups[1..]);
      GroupsOfEncode(groups[1..]);
    }
  }

  lemma {:induction false} EncodeConcat(a: seq<nat>, b: seq<nat>)
    requires Encodable(a) && Encodable(b)
    ensures Encodable(a + b) && Encode(a + b) == Encode(a) + Encode(b)
  {
    if a == [] {
      assert a + b == b;
    } else {
      assert (a + b)[1..] == a[1..] + b;
      EncodeConcat(a[1..], b);
      var first, tail, after := Hex4(a[0]), Encode(a[1..]), Encode(b);
      assert Encode(a + b) == first + (tail + after);
      assert first + (tail + after) == (first + tail) + after;
    }
  }

  lemma EncodeOneMore(raw: seq<nat>, k: nat)
    requires Encodable(raw) && k < |raw|
    ensures Encode(raw[..k + 1]) == Encode(raw[..k]) + Hex4(raw[k])
  {
    assert raw[..k + 1] == raw[..k] + [raw[k]];
    EncodeConcat(raw[..k], [raw[k]]);
    assert Encode([raw[k]]) == Hex4(raw[k]) + Encode([]);
  }

  /** A group a healthy receiver sends: a sample of the bit depth, or the end marker. */
  predicate Healthy(fmt: Format, groups: seq<nat>) {
    forall i :: 0 <= i < |groups| ==> groups[i] <= fmt.Mask() || groups[i] == END_MARKER
  }

  /** No legal sample can be taken for the end marker. */
  lemma MarkerIsNoSample(fmt: Format, sample: nat)
    requires sample <= fmt.Mask()
    ensures sample < 0x10000 && !fmt.Corrupt(sample) && Samples([sample]) == [sample]
  {
    assert [sample][1..] == [];
  }

  lemma {:induction false} HealthyIsGood(fmt: Format, groups: seq<nat>)
    requires Healthy(fmt, groups)
    ensures GoodGroups(fmt, groups) == |groups|
  {
    if groups != [] {
      HealthyIsGood(fmt, groups[1..]);
    }
  }

  /** One piece of what arrives while a transmission is under way. */
  datatype Piece = Text(body: string) | Noise(c: char) | Digit(c: char)

  function Wire(p: Piece): string {
    match p
    case Text(body) => [MESSAGE_START] + body + [MESSAGE_END]
    case Noise(c) => [c]
    case Digit(c) => [c]
  }

  function Render(ps: seq<Piece>): string {
    if ps == [] then "" else Wire(ps[0]) + Render(ps[1..])
  }

  function PlainOf(p: Piece): string { if p.Text? then "" else [p.c] }

  function DigitsOf(p: Piece): string { if p.Digit? then [p.c] else "" }

  function TextOf(p: Piece): seq<string> { if p.Text? then [DecodeAscii(p.body)] else [] }

  /** The bytes of the pieces that are not messages. */
  function Plain(ps: seq<Piece>): string {
    if ps == [] then "" else PlainOf(ps[0]) + Plain(ps[1..])
  }

  function Digits(ps: seq<Piece>): string {
    if ps == [] then "" else DigitsOf(ps[0]) + Digits(ps[1..])
  }

  function Texts(ps: seq<Piece>): seq<string> {
    if ps == [] then [] else TextOf(ps[0]) + Texts(ps[1..])
  }

  /** A message body has no terminator, and noise is no framing byte. */
  predicate HarmlessPiece(p: Piece) {
    match p
    case Text(body) => MESSAGE_END !in body
    case Noise(c) => !IsHexDigit(c) && c != MESSAGE_START && c != DATA_END
    case Digit(c) => IsHexDigit(c)
  }

  predicate Harmless(ps: seq<Piece>) { forall i :: 0 <= i < |ps| ==> HarmlessPiece(ps[i]) }

  predicate NoDigits(ps: seq<Piece>) { forall i :: 0 <= i < |ps| ==> !ps[i].Digit? }

  /** What is sent before and during one transmission; `groups` is what the receiver meant to send. */
  datatype Sending = Sending(lead: seq<Piece>, body: seq<Piece>, groups: seq<nat>) {
    predicate Valid(fmt: Format) {
      && Harmless(lead) && Harmless(body)
      && NoDigits(lead)
      && Encodable(groups) && Healthy(fmt, groups)
      && Digits(body) == Encode(groups)
    }

    function OnTheWire(): string {
      Render(lead) + [DATA_START] + Render(body) + [DATA_END]
    }
  }

  function Received(sendings: seq<Sending>): string {
    if sendings == [] then "" else sendings[0].OnTheWire() + Received(sendings[1..])
  }

  function SentSweeps(fmt: Format, sendings: seq<Sending>): seq<seq<nat>>
    requires fmt.Valid()
  {
    if sendings == [] then []
    else Chop(Image(fmt, Samples(sendings[0].groups)), fmt.nchannels) + SentSweeps(fmt, sendings[1..])
  }

  function SentTexts(sendings: seq<Sending>): seq<string> {
    if sendings == [] then [] else Texts(sendings[0].lead) + Texts(sendings[0].body) + SentTexts(sendings[1..])
  }

  /** What is left of the wire when the messages are out. */
  function PlainReceived(sendings: seq<Sending>): string {
    if sendings == [] then ""
    else Plain(sendings[0].lead) + [DATA_START] + Plain(sendings[0].body) + [DATA_END] + PlainReceived(sendings[1..])
  }

  // ---- Messages ----

  lemma StripMessage(body: string, after: string)
    requires MESSAGE_END !in body
    ensures Strip([MESSAGE_START] + body + [MESSAGE_END] + after) == Strip(after)
    ensures Messages([MESSAGE_START] + body + [MESSAGE_END] + after) == [DecodeAscii(body)] + Messages(after)
  {
    var bytes := [MESSAGE_START] + body + [MESSAGE_END] + after;
    assert MESSAGE_END !in [MESSAGE_START] + body;
    IndexOfAfter([MESSAGE_START] + body, MESSAGE_END, after);
    assert bytes[1..|body| + 1] == body && bytes[|body| + 2..] == after;
  }

  lemma StripByte(c: char, after: string)
    requires c != MESSAGE_START
    ensures Strip([c] + after) == [c] + Strip(after)
    ensures Messages([c] + after) == Messages(after)
  {
    assert ([c] + after)[1..] == after;
  }

  lemma StripPiece(p: Piece, after: string)
    requires HarmlessPiece(p)
    ensures Strip(Wire(p) + after) == PlainOf(p) + Strip(after)
    ensures Messages(Wire(p) + after) == TextOf(p) + Messages(after)
  {
    match p
    case Text(body) => StripMessage(body, after);
    case Noise(c) => StripByte(c, after);
    case Digit(c) => StripByte(c, after);
  }

  lemma {:induction false} StripRender(ps: seq<Piece>, after: string)
    requires Harmless(ps)
    ensures Strip(Render(ps) + after) == Plain(ps) + Strip(after)
    ensures Messages(Render(ps) + after) == Texts(ps) + Messages(after)
  {
    hide Strip, Messages, PlainOf, TextOf;
    if ps == [] {
      assert "" + after == after;
    } else {
      hide Wire, HarmlessPiece;
      var rest := Render(ps[1..]) + after;
      assert Render(ps) + after == Wire(ps[0]) + rest;
      StripPiece(ps[0], rest);
      StripRender(ps[1..], after);
    }
  }

  lemma StripSending(fmt: Format, s: Sending, after: string)
    requires s.Valid(fmt)
    ensures Strip(s.OnTheWire() + after)
      == Plain(s.lead) + [DATA_START] + Plain(s.body) + [DATA_END] + Strip(after)
    ensures Messages(s.OnTheWire() + after) == Texts(s.lead) + Texts(s.body) + Messages(after)
  {
    hide Strip, Messages, Plain, Texts, Render, Encode, Harmless, Healthy;
    var third := [DATA_END] + after;
    var second := Render(s.body) + third;
    var first := [DATA_START] + second;
    assert s.OnTheWire() + after == Render(s.lead) + first;
    StripRender(s.lead, first);
    StripByte(DATA_START, second);
    StripRender(s.body, third);
    StripByte(DATA_END, after);
  }

  lemma {:induction false} StripReceived(fmt: Format, sendings: seq<Sending>)
    requires forall s <- sendings :: s.Valid(fmt)
    ensures Strip(Received(sendings)) == PlainReceived(sendings)
    ensures Messages(Received(sendings)) == SentTexts(sendings)
  {
    if sendings != [] {
      assert sendings[0] in sendings;
      StripSending(fmt, sendings[0], Received(sendings[1..]));
      StripReceived(fmt, sendings[1..]);
    }
  }

  // ---- Transmissions ----

  lemma {:induction false} PlainNoise(ps: seq<Piece>)
    requires Harmless(ps)
    ensures HexOnly(Plain(ps)) == Digits(ps)
    ensures DATA_END !in Plain(ps)
    ensures NoDigits(ps) ==> DATA_START !in Plain(ps)
  {
    if ps != [] {
      PlainNoise(ps[1..]);
      if ps[0].Text? {
        assert Plain(ps) == Plain(ps[1..]);
      } else {
        assert Plain(ps)[1..] == Plain(ps[1..]);
      }
    }
  }

  lemma TransmissionsOfOne(lead: string, body: string, after: string)
    requires DATA_START !in lead && DATA_END !in body
    ensures Transmissions(lead + [DATA_START] + body + [DATA_END] + after) == [HexOnly(body)] + Transmissions(after)
  {
    var bytes := lead + [DATA_START] + body + [DATA_END] + after;
    var rest := body + [DATA_END] + after;
    assert bytes == lead + [DATA_START] + rest;
    IndexOfAfter(lead, DATA_START, rest);
    assert bytes[|lead| + 1..] == rest;
    IndexOfAfter(body, DATA_END, after);
    assert rest[..|body|] == body && rest[|body| + 1..] == after;
  }

  lemma {:induction false} TransmissionsOfReceived(fmt: Format, sendings: seq<Sending>)
    requires fmt.Valid() && forall s <- sendings :: s.Valid(fmt)
    ensures var ts := Transmissions(PlainReceived(sendings));
      BatchSweeps(fmt, ts) == SentSweeps(fmt, sendings) && BatchFault(fmt, ts) == None
  {
    if sendings != [] {
      var s, after := sendings[0], PlainReceived(sendings[1..]);
      assert s in sendings;
      PlainNoise(s.lead);
      PlainNoise(s.body);
      TransmissionsOfOne(Plain(s.lead), Plain(s.body), after);
      GroupsOfEncode(s.groups);
      HealthyIsGood(fmt, s.groups);
      assert s.groups[..|s.groups|] == s.groups;
      assert ([Digits(s.body)] + Transmissions(after))[1..] == Transmissions(after);
      TransmissionsOfReceived(fmt, sendings[1..]);
    }
  }

  /**
   Round trip under interference: whatever harmless noise and messages are mixed in, the parser
   raises no fault, yields exactly the sweeps that were sent, transmission by transmission, and
   exactly the messages.
   */
  lemma RoundTrip(fmt: Format, sendings: seq<Sending>)
    requires fmt.Valid() && forall s <- sendings :: s.Valid(fmt)
    ensures var o := Decode(fmt, START, Received(sendings));
      && o.fault == None
      && SweepsOf(o.items) == SentSweeps(fmt, sendings)
      && TextsOf(o.items) == SentTexts(sendings)
  {
    ParserIsTheBatchDecoder(fmt, Received(sendings));
    StripReceived(fmt, sendings);
    TransmissionsOfReceived(fmt, sendings);
  }

  function Images(fmt: Format, sweeps: seq<seq<nat>>): (r: seq<seq<nat>>)
    ensures |r| == |sweeps|
    ensures forall i :: 0 <= i < |r| ==> r[i] == Image(fmt, sweeps[i])
  {
    seq(|sweeps|, i requires 0 <= i < |sweeps| => Image(fmt, sweeps[i]))
  }

  /** Samples that make up whole sweeps are chopped into the images of these sweeps. */
  lemma {:induction false} SweepsOfSamples(fmt: Format, sweeps: seq<seq<nat>>)
    requires fmt.Valid() && forall i :: 0 <= i < |sweeps| ==> |sweeps[i]| == fmt.nchannels
    ensures Chop(Image(fmt, Flatten(sweeps)), fmt.nchannels) == Images(fmt, sweeps)
  {
    if sweeps != [] {
      ImageConcat(fmt, sweeps[0], Flatten(sweeps[1..]));
      ChopWhole(Image(fmt, sweeps[0]), Image(fmt, Flatten(sweeps[1..])), fmt.nchannels);
      SweepsOfSamples(fmt, sweeps[1..]);
      assert Images(fmt, sweeps) == [Image(fmt, sweeps[0])] + Images(fmt, sweeps[1..]);
    }
  }

  /** The samples of a transmission, end markers left out, make up whole sweeps. */
  predicate Carries(fmt: Format, s: Sending, sweeps: seq<seq<nat>>) {
    Samples(s.groups) == Flatten(sweeps) && forall i :: 0 <= i < |sweeps| ==> |sweeps[i]| == fmt.nchannels
  }

  lemma {:induction false} CarriedSweepsAreSent(fmt: Format, sendings: seq<Sending>, sweeps: seq<seq<seq<nat>>>)
    requires fmt.Valid() && |sweeps| == |sendings|
    requires forall i :: 0 <= i < |sendings| ==> Carries(fmt, sendings[i], sweeps[i])
    ensures SentSweeps(fmt, sendings) == Images(fmt, Flatten(sweeps))
    decreases |sendings|
  {
    if sendings != [] {
      assert Carries(fmt, sendings[0], sweeps[0]);
      SweepsOfSamples(fmt, sweeps[0]);
      hide Carries, Chop, Samples, Image;
      CarriedSweepsAreSent(fmt, sendings[1..], sweeps[1..]);
      ImagesConcat(fmt, sweeps[0], Flatten(sweeps[1..]));
    }
  }

  lemma ImagesConcat(fmt: Format, a: seq<seq<nat>>, b: seq<seq<nat>>)
    ensures Images(fmt, a + b) == Images(fmt, a) + Images(fmt, b)
  {
  }

  /** Healthy groups carry samples within the bit depth. */
  lemma {:induction false} SamplesFit(fmt: Format, groups: seq<nat>)
    requires Healthy(fmt, groups)
    ensures forall i :: 0 <= i < |Samples(groups)| ==> Samples(groups)[i] <= fmt.Mask()
  {
    if groups != [] {
      SamplesFit(fmt, groups[1..]);
    }
  }

  /** All samples of the sweeps are within the bit depth. */
  predicate Fit(fmt: Format, sweeps: seq<seq<nat>>) {
    forall i, ch :: 0 <= i < |sweeps| && 0 <= ch < |sweeps[i]| ==> sweeps[i][ch] <= fmt.Mask()
  }

  lemma {:induction false} FlattenedFit(fmt: Format, sweeps: seq<seq<nat>>)
    requires forall i :: 0 <= i < |Flatten(sweeps)| ==> Flatten(sweeps)[i] <= fmt.Mask()
    ensures Fit(fmt, sweeps)
  {
    if sweeps != [] {
      var all, head, tail := Flatten(sweeps), sweeps[0], Flatten(sweeps[1..]);
      assert forall i :: 0 <= i < |head| ==> head[i] == all[i];
      assert forall i :: 0 <= i < |tail| ==> tail[i] == all[|head| + i];
      FlattenedFit(fmt, sweeps[1..]);
      assert forall i :: 0 < i < |sweeps| ==> sweeps[i] == sweeps[1..][i - 1];
    }
  }

  lemma {:induction false} CarriedFit(fmt: Format, sendings: seq<Sending>, sweeps: seq<seq<seq<nat>>>)
    requires fmt.Valid() && |sweeps| == |sendings|
    requires forall i :: 0 <= i < |sendings| ==> Healthy(fmt, sendings[i].groups)
    requires forall i :: 0 <= i < |sendings| ==> Carries(fmt, sendings[i], sweeps[i])
    ensures Fit(fmt, Flatten(sweeps))
    decreases |sendings|
  {
    if sendings != [] {
      assert Carries(fmt, sendings[0], sweeps[0]);
      SamplesFit(fmt, sendings[0].groups);
      FlattenedFit(fmt, sweeps[0]);
      hide Carries, Samples, Healthy;
      CarriedFit(fmt, sendings[1..], sweeps[1..]);
    }
  }

  lemma ImagesKeepEightBits(fmt: Format, sweeps: seq<seq<nat>>)
    requires Fit(fmt, sweeps)
    ensures EightBits(fmt, Images(fmt, sweeps), sweeps)
  {
    hide To8Bit, EightBitsOf;
    forall i, ch | 0 <= i < |sweeps| && 0 <= ch < |sweeps[i]|
      ensures EightBitsOf(fmt.data10bit, sweeps[i][ch], Images(fmt, sweeps)[i][ch])
    {
      SampleIsKept(fmt, sweeps[i][ch]);
    }
  }

  /** Sweep by sweep and channel by channel, `values` is what eight bits keep of `sweeps`. */
  predicate EightBits(fmt: Format, values: seq<seq<nat>>, sweeps: seq<seq<nat>>) {
    && |values| == |sweeps|
    && forall i :: 0 <= i < |sweeps| ==>
      && |values[i]| == |sweeps[i]|
      && forall ch :: 0 <= ch < |sweeps[i]| ==> EightBitsOf(fmt.data10bit, sweeps[i][ch], values[i][ch])
  }

  /**
   Whole sweeps come back: whatever messages, noise and end markers arrive between their digits, the parser yields
   exactly the sweeps that were sent, in order, over all transmissions, of each sample the eight bits that are kept.
   */
  lemma WholeSweepsComeBack(fmt: Format, sendings: seq<Sending>, sweeps: seq<seq<seq<nat>>>)
    requires fmt.Valid() && forall s <- sendings :: s.Valid(fmt)
    requires |sweeps| == |sendings| && forall i :: 0 <= i < |sendings| ==> Carries(fmt, sendings[i], sweeps[i])
    ensures var o := Decode(fmt, START, Received(sendings));
      && o.fault == None
      && EightBits(fmt, SweepsOf(o.items), Flatten(sweeps))
      && TextsOf(o.items) == SentTexts(sendings)
  {
    RoundTrip(fmt, sendings);
    CarriedSweepsAreSent(fmt, sendings, sweeps);
    assert forall i :: 0 <= i < |sendings| ==> sendings[i].Valid(fmt) ==> Healthy(fmt, sendings[i].groups);
    assert forall i :: 0 <= i < |sendings| ==> sendings[i] in sendings;
    hide Decode, SentSweeps, SentTexts, Carries, Healthy, Received;
    CarriedFit(fmt, sendings, sweeps);
    ImagesKeepEightBits(fmt, Flatten(sweeps));
  }
}
