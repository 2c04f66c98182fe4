/**
 The incremental decoder of the Callisto byte stream (drivers/callisto/parser.py).

 A byte is a `char` here, so that the framing characters read as they do on the wire. `Decode` is
 the specification of the parser: a fold of its per-byte step that stops at the first corrupt
 sample. The class `StreamParser` is the parser itself and is proved to compute `Decode`.
 */
module StreamParsing {
  import opened Wrappers

  const MESSAGE_START := '$'
  const MESSAGE_END := '\r'
  const DATA_START := '2'
  const DATA_END := '&'
  const END_MARKER: nat := 0x2323

  datatype Item = Message(text: string) | Sweep(values: seq<nat>)

  /** What a parser is created with. */
  datatype Format = Format(nchannels: nat, data10bit: bool) {
    predicate Valid() { nchannels >= 1 }

    /** The largest raw sample that fits the bit depth. */
    function Mask(): nat { if data10bit then 0x3FF else 0xFF }

    /** A raw group the parser refuses: high bits set, and not the end marker. */
    predicate Corrupt(raw: nat) { raw != END_MARKER && raw > Mask() }
  }

  function To8Bit(raw: nat, data10bit: bool): nat {
    if data10bit then raw / 4 else raw % 256
  }

  /** `v` is what eight bits keep of a sample within the bit depth: all of eight bits, the upper eight of ten. */
  predicate EightBitsOf(data10bit: bool, raw: nat, v: nat) {
    if data10bit then raw < 1024 && 4 * v <= raw < 4 * v + 4 else raw < 256 && v == raw
  }

  lemma SampleIsKept(fmt: Format, raw: nat)
    requires raw <= fmt.Mask()
    ensures EightBitsOf(fmt.data10bit, raw, To8Bit(raw, fmt.data10bit))
  {
  }

  /** A group is refused exactly when it has bits above the eight or ten of a sample, the end marker aside. */
  lemma CorruptHasHighBits(fmt: Format, raw: nat)
    ensures fmt.Corrupt(raw) <==> raw != 0x2323 && raw / (if fmt.data10bit then 1024 else 256) > 0
  {
  }

  /** The 8-bit image of raw samples. */
  function Image(fmt: Format, raw: seq<nat>): (r: seq<nat>)
    ensures |r| == |raw|
  {
    seq(|raw|, i requires 0 <= i < |raw| => To8Bit(raw[i], fmt.data10bit))
  }

  datatype State = State(inData: bool, inMessage: bool, message: string, hexbuf: string, sweep: seq<nat>) {
    predicate Valid(fmt: Format) {
      && (!inMessage ==> message == "")
      && |hexbuf| < 4
      && AllHex(hexbuf)
      && |sweep| < fmt.nchannels
      && (forall i :: 0 <= i < |sweep| ==> sweep[i] <= 255)
    }
  }

  const START := State(false, false, "", "", [])

  /** What feeding bytes produces: the state reached, the items yielded, and the corrupt sample if one was met. */
  datatype Outcome = Outcome(state: State, items: seq<Item>, fault: Option<nat>)

  predicate IsHexDigit(c: char) { '0' <= c <= '9' || 'A' <= c <= 'F' }

  predicate AllHex(s: string) { forall i :: 0 <= i < |s| ==> IsHexDigit(s[i]) }

  function HexValue(c: char): (v: nat)
    requires IsHexDigit(c)
    ensures v < 16
  {
    if c <= '9' then c as int - '0' as int else c as int - 'A' as int + 10
  }

  function HexNumber(s: string): nat
    requires AllHex(s)
  {
    if s == "" then 0 else 16 * HexNumber(s[..|s| - 1]) + HexValue(s[|s| - 1])
  }

  /** ASCII decoding with the replacement character for every byte outside ASCII. */
  function DecodeAscii(bytes: string): (text: string)
    ensures |text| == |bytes|
  {
    seq(|bytes|, i requires 0 <= i < |bytes| => if bytes[i] as int < 128 then bytes[i] else '\U{FFFD}')
  }

  /** ASCII stays, every other byte becomes the replacement character. */
  lemma AsciiStays(bytes: string, i: nat)
    requires i < |bytes|
    ensures bytes[i] <= '\U{007F}' ==> DecodeAscii(bytes)[i] == bytes[i]
    ensures bytes[i] > '\U{007F}' ==> DecodeAscii(bytes)[i] == '\U{FFFD}'
  {
  }

  /** One hex digit of sample data. */
  function HexStep(fmt: Format, st: State, c: char): Outcome
    requires IsHexDigit(c) && AllHex(st.hexbuf)
  {
    var hexbuf := st.hexbuf + [c];
    if |hexbuf| < 4 then Outcome(st.(hexbuf := hexbuf), [], None)
    else
      var raw := HexNumber(hexbuf);
      var st' := st.(hexbuf := "");
      if raw == END_MARKER then Outcome(st', [], None)
      else if fmt.Corrupt(raw) then Outcome(st', [], Some(raw))
      else
        var sweep := st.sweep + [To8Bit(raw, fmt.data10bit)];
        if |sweep| == fmt.nchannels then Outcome(st'.(sweep := []), [Sweep(sweep)], None)
        else Outcome(st'.(sweep := sweep), [], None)
  }

  /** One byte. */
  function ByteStep(fmt: Format, st: State, c: char): Outcome
    requires AllHex(st.hexbuf)
  {
    if st.inMessage then
      if c == MESSAGE_END then
        Outcome(st.(inMessage := false, message := ""), [Message(DecodeAscii(st.message))], None)
      else Outcome(st.(message := st.message + [c]), [], None)
    else if c == MESSAGE_START then Outcome(st.(inMessage := true, message := ""), [], None)
    else if !st.inData && c == DATA_START then
      Outcome(st.(inData := true, hexbuf := "", sweep := []), [], None)
    else if st.inData && c == DATA_END then Outcome(st.(inData := false), [], None)
    else if st.inData && IsHexDigit(c) then HexStep(fmt, st, c)
    else Outcome(st, [], None)
  }

  lemma ByteStepValid(fmt: Format, st: State, c: char)
    requires fmt.Valid() && st.Valid(fmt)
    ensures ByteStep(fmt, st, c).state.Valid(fmt)
    ensures forall it <- ByteStep(fmt, st, c).items :: it.Sweep? ==>
      |it.values| == fmt.nchannels && forall i :: 0 <= i < fmt.nchannels ==> it.values[i] <= 255
  {
  }

  /** All bytes of `data`, up to the first corrupt sample. */
  function Decode(fmt: Format, st: State, data: string): (o: Outcome)
    requires fmt.Valid() && st.Valid(fmt)
    ensures o.state.Valid(fmt)
    decreases |data|
  {
    if data == "" then Outcome(st, [], None)
    else
      ByteStepValid(fmt, st, data[0]);
      var o := ByteStep(fmt, st, data[0]);
      if o.fault.Some? then o
      else
        var r := Decode(fmt, o.state, data[1..]);
        r.(items := o.items + r.items)
  }

  lemma OneByte(fmt: Format, st: State, c: char)
    requires fmt.Valid() && st.Valid(fmt)
    ensures Decode(fmt, st, [c]) == ByteStep(fmt, st, c)
  {
    var o := ByteStep(fmt, st, c);
    ByteStepValid(fmt, st, c);
    assert o.items + [] == o.items;
  }

  /** Outcomes in sequence: the second part is only reached when the first has no fault. */
  function Then(fmt: Format, o: Outcome, data: string): Outcome
    requires fmt.Valid() && o.state.Valid(fmt)
  {
    if o.fault.Some? then o
    else
      var r := Decode(fmt, o.state, data);
      r.(items := o.items + r.items)
  }

  /** Chunk independence: cutting the bytes anywhere changes neither the items, nor the fault, nor the state. */
  lemma {:induction false} DecodeConcat(fmt: Format, st: State, a: string, b: string)
    requires fmt.Valid() && st.Valid(fmt)
    ensures Decode(fmt, st, a + b) == Then(fmt, Decode(fmt, st, a), b)
    decreases |a|
  {
    if a == "" {
      assert a + b == b;
    } else {
      hide ByteStep, Decode, Then;
      FirstByte(fmt, st, a);
      FirstByte(fmt, st, a + b);
      assert (a + b)[1..] == a[1..] + b;
      var o := ByteStep(fmt, st, a[0]);
      if o.fault.None? {
        DecodeConcat(fmt, o.state, a[1..], b);
        ThenBehind(fmt, o.items, Decode(fmt, o.state, a[1..]), b);
      } else {
        FaultStays(fmt, o, b);
      }
    }
  }

  function Behind(items: seq<Item>, o: Outcome): Outcome { o.(items := items + o.items) }

  /** The first byte, then the others. */
  lemma FirstByte(fmt: Format, st: State, data: string)
    requires fmt.Valid() && st.Valid(fmt) && data != ""
    ensures var o := ByteStep(fmt, st, data[0]);
      && o.state.Valid(fmt)
      && Decode(fmt, st, data) == if o.fault.Some? then o else Behind(o.items, Decode(fmt, o.state, data[1..]))
  {
    ByteStepValid(fmt, st, data[0]);
    hide ByteStep;
  }

  lemma ThenBehind(fmt: Format, items: seq<Item>, o: Outcome, data: string)
    requires fmt.Valid() && o.state.Valid(fmt)
    ensures Then(fmt, Behind(items, o), data) == Behind(items, Then(fmt, o, data))
  {
    hide Decode;
    if o.fault.None? {
      var more := Decode(fmt, o.state, data).items;
      assert items + (o.items + more) == (items + o.items) + more;
    }
  }

  lemma FaultStays(fmt: Format, o: Outcome, data: string)
    requires fmt.Valid() && o.state.Valid(fmt) && o.fault.Some?
    ensures Then(fmt, o, data) == o
  {
  }

  /** Feeding chunk after chunk, as the driver does. */
  function DecodeChunks(fmt: Format, st: State, chunks: seq<string>): (o: Outcome)
    requires fmt.Valid() && st.Valid(fmt)
    ensures o.state.Valid(fmt)
    decreases |chunks|
  {
    if chunks == [] then Outcome(st, [], None)
    else
      var o := Decode(fmt, st, chunks[0]);
      if o.fault.Some? then o
      else
        var r := DecodeChunks(fmt, o.state, chunks[1..]);
        r.(items := o.items + r.items)
  }

  /** Any split of a byte string decodes as the whole string does. */
  lemma {:induction false} AnySplitDecodesAlike(fmt: Format, st: State, chunks: seq<string>)
    requires fmt.Valid() && st.Valid(fmt)
    ensures DecodeChunks(fmt, st, chunks) == Decode(fmt, st, Flatten(chunks))
    decreases |chunks|
  {
    if chunks != [] {
      DecodeConcat(fmt, st, chunks[0], Flatten(chunks[1..]));
      var o := Decode(fmt, st, chunks[0]);
      if o.fault.None? {
        AnySplitDecodesAlike(fmt, o.state, chunks[1..]);
      }
    }
  }

  /** Every sweep the parser can ever yield has one value per channel, each of them an 8-bit value. */
  lemma {:induction false} SweepsAreWhole(fmt: Format, st: State, data: string)
    requires fmt.Valid() && st.Valid(fmt)
    ensures forall it <- Decode(fmt, st, data).items :: it.Sweep? ==>
      |it.values| == fmt.nchannels && forall i :: 0 <= i < fmt.nchannels ==> it.values[i] <= 255
    decreases |data|
  {
    if data != "" {
      ByteStepValid(fmt, st, data[0]);
      var o := ByteStep(fmt, st, data[0]);
      if o.fault.None? {
        SweepsAreWhole(fmt, o.state, data[1..]);
      }
    }
  }

  /** The parser: the fields change with every byte. */
  class StreamParser {
    const fmt: Format
    var inData: bool
    var inMessage: bool
    var message: string
    var hexbuf: string
    var sweep: seq<nat>

    ghost predicate Valid()
      reads this
    {
      fmt.Valid() && Current().Valid(fmt)
    }

    ghost function Current(): State
      reads this
    {
      State(inData, inMessage, message, hexbuf, sweep)
    }

    constructor (nchannels: nat, data10bit: bool)
      requires nchannels >= 1
      ensures Valid() && fmt == Format(nchannels, data10bit) && Current() == START
    {
      fmt := Format(nchannels, data10bit);
      inData, inMessage, message, hexbuf, sweep := false, false, "", "", [];
    }

    method ConsumeHex(c: char) returns (items: seq<Item>, fault: Option<nat>)
      requires Valid() && IsHexDigit(c)
      modifies this
      ensures Outcome(Current(), items, fault) == HexStep(fmt, old(Current()), c)
    {
      hexbuf := hexbuf + [c];
      if |hexbuf| < 4 {
        return [], None;
      }
      var raw := HexNumber(hexbuf);
      hexbuf := "";
      if raw == END_MARKER {
        return [], None;
      }
      if raw > fmt.Mask() {
        return [], Some(raw);
      }
      sweep := sweep + [To8Bit(raw, fmt.data10bit)];
      if |sweep| == fmt.nchannels {
        items, fault := [Sweep(sweep)], None;
        sweep := [];
      } else {
        items, fault := [], None;
      }
    }

    method Consume(c: char) returns (items: seq<Item>, fault: Option<nat>)
      requires Valid()
      modifies this
      ensures Valid()
      ensures Outcome(Current(), items, fault) == ByteStep(fmt, old(Current()), c)
    {
      ByteStepValid(fmt, Current(), c);
      items, fault := [], None;
      if inMessage {
        if c == MESSAGE_END {
          items := [Message(DecodeAscii(message))];
          inMessage, message := false, "";
        } else {
          message := message + [c];
        }
        return;
      }
      if c == MESSAGE_START {
        inMessage, message := true, "";
        return;
      }
      if !inData && c == DATA_START {
        inData, hexbuf, sweep := true, "", [];
        return;
      }
      if inData && c == DATA_END {
        inData := false;
        return;
      }
      if inData && IsHexDigit(c) {
        items, fault := ConsumeHex(c);
      }
    }

    /** Feed the bytes in; the items yielded come out, up to the first corrupt sample. */
    method Feed(data: string) returns (items: seq<Item>, fault: Option<nat>)
      requires Valid()
      modifies this
      ensures Valid()
      ensures Outcome(Current(), items, fault) == Decode(fmt, old(Current()), data)
    {
      items, fault := [], None;
      var i := 0;
      while i < |data| && fault.None?
        invariant 0 <= i <= |data|
        invariant Valid()
        invariant fault.None? ==>
          Decode(fmt, old(Current()), data) == Then(fmt, Outcome(Current(), items, None), data[i..])
        invariant fault.Some? ==> Decode(fmt, old(Current()), data) == Outcome(Current(), items, fault)
      {
        ghost var before := Outcome(Current(), items, None);
        ghost var o := ByteStep(fmt, before.state, data[i]);
        ByteStepValid(fmt, before.state, data[i]);
        var more;
        more, fault := Consume(data[i]);
        items := items + more;
        assert data[i..][1..] == data[i + 1..];
        if fault.None? {
          ghost var r := Decode(fmt, o.state, data[i + 1..]);
          assert before.items + (more + r.items) == items + r.items;
        }
        i := i + 1;
      }
    }
  }
}
