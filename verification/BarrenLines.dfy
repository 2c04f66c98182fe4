/**
 Lines that a fresh parser can pick up at any point without finding a whole sweep in what is left. A reset whose drain
 fails leaves such a line behind, and its bytes then meet a parser that knows nothing of them.
 */
module BarrenLines {
  import opened Wrappers
  import opened StreamParsing
  import opened BatchDecoding
  import opened InterferedEncoding
  import opened CallistoProtocol
  import opened SimulatedReceiver

  /** The bytes yield no sweep. */
  predicate Sweepless(fmt: Format, st: State, bytes: string)
    requires fmt.Valid() && st.Valid(fmt)
  {
    SweepsOf(Decode(fmt, st, bytes).items) == []
  }

  predicate Barren(fmt: Format, line: string)
    requires fmt.Valid()
  {
    forall k :: 0 <= k <= |line| ==> Sweepless(fmt, START, line[k..])
  }

  lemma BarrenRest(fmt: Format, chunk: string, rest: string)
    requires fmt.Valid() && Barren(fmt, chunk + rest)
    ensures Barren(fmt, rest)
  {
    forall k | 0 <= k <= |rest|
      ensures Sweepless(fmt, START, rest[k..])
    {
      assert (chunk + rest)[|chunk| + k..] == rest[k..];
    }
  }

  /** Two parts in a row. */
  lemma SweeplessParts(fmt: Format, st: State, a: string, b: string)
    requires fmt.Valid() && st.Valid(fmt)
    ensures var o := Decode(fmt, st, a);
      Sweepless(fmt, st, a + b) <==> Sweepless(fmt, st, a) && (o.fault.None? ==> Sweepless(fmt, o.state, b))
  {
    hide Decode, SweepsOf;
    DecodeConcat(fmt, st, a, b);
    var o := Decode(fmt, st, a);
    if o.fault.None? {
      ItemsConcat(o.items, Decode(fmt, o.state, b).items);
    }
  }

  lemma NoSweepInOneItem(fmt: Format, st: State, c: char)
    requires fmt.Valid() && st.Valid(fmt) && (st.inMessage || !st.inData || !IsHexDigit(c))
    ensures Sweepless(fmt, st, [c]) && Decode(fmt, st, [c]).fault.None?
  {
    OneByte(fmt, st, c);
    hide HexStep, DecodeAscii;
    var o := ByteStep(fmt, st, c);
    assert o.fault.None? && (o.items == [] || (|o.items| == 1 && o.items[0].Message?));
    hide Decode, ByteStep;
    assert o.items != [] ==> o.items[1..] == [];
    assert SweepsOf(o.items) == [];
  }

  /** Bytes without a start of a transmission never yield a sweep outside one. */
  lemma {:induction false} NothingStarts(fmt: Format, st: State, bytes: string)
    requires fmt.Valid() && st.Valid(fmt) && !st.inData && forall i :: 0 <= i < |bytes| ==> bytes[i] != DATA_START
    ensures Sweepless(fmt, st, bytes) && Decode(fmt, st, bytes).fault.None? && !Decode(fmt, st, bytes).state.inData
    decreases |bytes|
  {
    if bytes != "" {
      var c, later := bytes[0], bytes[1..];
      assert bytes == [c] + later;
      OneByte(fmt, st, c);
      NoSweepInOneItem(fmt, st, c);
      var o := Decode(fmt, st, [c]);
      assert !o.state.inData;
      hide ByteStep, Sweepless;
      DecodeConcat(fmt, st, [c], later);
      SweeplessParts(fmt, st, [c], later);
      NothingStarts(fmt, o.state, later);
    }
  }

  /** The digits that the parser has collected towards a sweep. */
  function Load(st: State): nat { 4 * |st.sweep| + |st.hexbuf| }

  lemma DigitLoads(fmt: Format, st: State, c: char)
    requires fmt.Valid() && st.Valid(fmt) && !st.inMessage && st.inData
    requires IsHexDigit(c) && Load(st) + 1 < 4 * fmt.nchannels
    ensures var o := ByteStep(fmt, st, c);
      o.items == [] && !o.state.inMessage && o.state.inData && Load(o.state) <= Load(st) + 1
  {
    hide HexNumber;
  }

  /** Fewer digits than a sweep has yield none, and a transmission that starts among them has lost one. */
  lemma {:induction false} FewDigitsYieldNoSweep(fmt: Format, st: State, digits: string)
    requires fmt.Valid() && st.Valid(fmt) && !st.inMessage && AllHex(digits)
    requires if st.inData then Load(st) + |digits| < 4 * fmt.nchannels else |digits| <= 4 * fmt.nchannels
    ensures Sweepless(fmt, st, digits)
    decreases |digits|
  {
    if digits != "" {
      var c, later := digits[0], digits[1..];
      assert digits == [c] + later;
      OneByte(fmt, st, c);
      ByteStepValid(fmt, st, c);
      var o := ByteStep(fmt, st, c);
      assert IsHexDigit(c);
      if st.inData {
        DigitLoads(fmt, st, c);
      }
      assert o.items == [] && (o.fault.None? ==> !o.state.inMessage);
      assert !st.inData && c != DATA_START ==> o.state == st;
      assert !st.inData && c == DATA_START ==> Load(o.state) == 0;
      hide ByteStep, HexStep, Decode;
      SweeplessParts(fmt, st, [c], later);
      if o.fault.None? {
        FewDigitsYieldNoSweep(fmt, o.state, later);
      }
    }
  }

  /** A complete message yields no sweep from anywhere and leaves the parser outside messages. */
  lemma MessageFromAnywhere(fmt: Format, st: State, body: string)
    requires fmt.Valid() && st.Valid(fmt) && MESSAGE_END !in body
    ensures var o := Decode(fmt, st, [MESSAGE_START] + body + [MESSAGE_END]);
      o.fault.None? && SweepsOf(o.items) == [] && !o.state.inMessage
  {
    var whole := [MESSAGE_START] + body + [MESSAGE_END];
    if st.inMessage {
      var inside := [MESSAGE_START] + body;
      assert MESSAGE_END !in inside;
      InsideMessage(fmt, st, inside);
      DecodeConcat(fmt, st, inside, [MESSAGE_END]);
      var begun := st.(message := st.message + inside);
      OneByte(fmt, begun, MESSAGE_END);
      var m := [Message(DecodeAscii(begun.message))];
      hide Decode;
      assert [] + m == m && m[1..] == [];
    } else {
      WholeMessage(fmt, st, body);
      var m := [Message(DecodeAscii(body))];
      assert m[1..] == [];
    }
  }

  /** What RESET makes a receiver say; `open` when it was streaming. */
  function ResetAnswer(open: bool): string { (if open then [DATA_END] + STOPPED else "") + ID_RESPONSE }

  lemma StoppedIsAMessage(body: string)
    requires body == "CRX:Stopped"
    ensures STOPPED == [MESSAGE_START] + body + [MESSAGE_END] && ID_RESPONSE == STOPPED && MESSAGE_END !in body
  {
  }

  lemma SweeplessNothing(fmt: Format, st: State)
    requires fmt.Valid() && st.Valid(fmt)
    ensures Sweepless(fmt, st, "")
  {
  }

  /** The answer yields no sweep, whatever the parser was in the middle of. */
  lemma AnswerFromAnywhere(fmt: Format, st: State, open: bool)
    requires fmt.Valid() && st.Valid(fmt)
    ensures Sweepless(fmt, st, ResetAnswer(open)) && Decode(fmt, st, ResetAnswer(open)).fault.None?
  {
    hide Decode, SweepsOf, DecodeAscii;
    var body := "CRX:Stopped";
    StoppedIsAMessage(body);
    var message := [MESSAGE_START] + body + [MESSAGE_END];
    if open {
      var a, b := [DATA_END], message + message;
      NoSweepInOneItem(fmt, st, DATA_END);
      var st' := Decode(fmt, st, a).state;
      MessageFromAnywhere(fmt, st', body);
      MessageFromAnywhere(fmt, Decode(fmt, st', message).state, body);
      SweeplessParts(fmt, st', message, message);
      SweeplessParts(fmt, st, a, b);
      DecodeConcat(fmt, st', message, message);
      DecodeConcat(fmt, st, a, b);
      assert ResetAnswer(open) == a + b;
    } else {
      MessageFromAnywhere(fmt, st, body);
      assert ResetAnswer(open) == message;
    }
  }

  lemma AnswerStartsNothing(open: bool)
    ensures forall i :: 0 <= i < |ResetAnswer(open)| ==> ResetAnswer(open)[i] != DATA_START
  {
    assert forall i :: 0 <= i < |STOPPED| ==> STOPPED[i] != DATA_START;
  }

  /** A barren line stays barren when the answer to RESET is appended. */
  lemma BarrenWithAnswer(fmt: Format, line: string, open: bool)
    requires fmt.Valid() && Barren(fmt, line)
    ensures Barren(fmt, line + ResetAnswer(open))
  {
    var answer := ResetAnswer(open);
    AnswerStartsNothing(open);
    hide Decode, ResetAnswer, Sweepless;
    forall k | 0 <= k <= |line + answer|
      ensures Sweepless(fmt, START, (line + answer)[k..])
    {
      if k <= |line| {
        assert (line + answer)[k..] == line[k..] + answer;
        AnswerFromAnywhere(fmt, Decode(fmt, START, line[k..]).state, open);
        SweeplessParts(fmt, START, line[k..], answer);
      } else {
        assert (line + answer)[k..] == answer[k - |line|..];
        NothingStarts(fmt, START, answer[k - |line|..]);
      }
    }
  }

  /** The digits of one sweep are a barren line: whoever comes in the middle misses some of them. */
  lemma DigitsAreBarren(fmt: Format, digits: string)
    requires fmt.Valid() && AllHex(digits) && |digits| <= 4 * fmt.nchannels
    ensures Barren(fmt, digits)
  {
    hide Decode, Sweepless;
    forall k | 0 <= k <= |digits|
      ensures Sweepless(fmt, START, digits[k..])
    {
      FewDigitsYieldNoSweep(fmt, START, digits[k..]);
    }
  }

  /** A line in which at most the last byte starts a transmission is barren. */
  lemma NothingSentYet(fmt: Format, line: string)
    requires fmt.Valid() && forall i :: 0 <= i < |line| - 1 ==> line[i] != DATA_START
    ensures Barren(fmt, line)
  {
    hide Decode, Sweepless;
    SweeplessNothing(fmt, START);
    forall k | 0 <= k <= |line|
      ensures Sweepless(fmt, START, line[k..])
    {
      if k == |line| {
        assert line[k..] == "";
      } else {
        var head, last := line[k..|line| - 1], line[|line| - 1];
        assert line[k..] == head + [last];
        NothingStarts(fmt, START, head);
        NoSweepInOneItem(fmt, Decode(fmt, START, head).state, last);
        SweeplessParts(fmt, START, head, [last]);
      }
    }
  }
}
