/**
 An independent definition of what a received byte string means, in whole-string passes: take the
 messages out, cut what is left into transmissions, keep their hex digits, group them by four, drop
 the end markers, and cut the samples into sweeps. The byte-at-a-time parser is proved to compute
 exactly this, and to stop exactly at the first corrupt group.
 */
module BatchDecoding {
  import opened Wrappers
  import opened StreamParsing

  /** The bytes outside `$ ... \r` messages. */
  function Strip(bytes: string): string {
    if bytes == "" then ""
    else if bytes[0] != MESSAGE_START then [bytes[0]] + Strip(bytes[1..])
    else
      var k := IndexOf(bytes, MESSAGE_END);
      if k == |bytes| then "" else Strip(bytes[k + 1..])
  }

  /** The texts of the complete messages. */
  function Messages(bytes: string): seq<string> {
    if bytes == "" then []
    else if bytes[0] != MESSAGE_START then Messages(bytes[1..])
    else
      var k := IndexOf(bytes, MESSAGE_END);
      if k == |bytes| then [] else [DecodeAscii(bytes[1..k])] + Messages(bytes[k + 1..])
  }

  function HexOnly(s: string): (h: string)
    ensures AllHex(h)
  {
    if s == "" then "" else (if IsHexDigit(s[0]) then [s[0]] else "") + HexOnly(s[1..])
  }

  /** The hex digits of each transmission: from a `2` to the next `&`, or to the end. */
  function Transmissions(bytes: string): (ts: seq<string>)
    ensures forall t <- ts :: AllHex(t)
    decreases |bytes|
  {
    var i := IndexOf(bytes, DATA_START);
    if i == |bytes| then [] else TransmissionsAfterStart(bytes[i + 1..])
  }

  /** The same, for bytes whose `2` has just been taken off. */
  function TransmissionsAfterStart(rest: string): (ts: seq<string>)
    ensures forall t <- ts :: AllHex(t)
    decreases |rest|
  {
    var j := IndexOf(rest, DATA_END);
    [HexOnly(rest[..j])] + if j == |rest| then [] else Transmissions(rest[j + 1..])
  }

  /** The four-digit groups of a transmission; fewer than four digits at the end are no group. */
  function Groups(digits: string): (groups: seq<nat>)
    requires AllHex(digits)
    ensures |groups| == |digits| / 4
  {
    if |digits| < 4 then [] else [HexNumber(digits[..4])] + Groups(digits[4..])
  }

  /** The groups that are samples. */
  function Samples(groups: seq<nat>): seq<nat> {
    if groups == [] then [] else (if groups[0] == END_MARKER then [] else [groups[0]]) + Samples(groups[1..])
  }

  /** `s` cut into pieces of `n`; a shorter rest is dropped. */
  function Chop(s: seq<nat>, n: nat): seq<seq<nat>>
    requires n >= 1
  {
    if |s| < n then [] else [s[..n]] + Chop(s[n..], n)
  }

  /** The rest that `Chop` drops. */
  function Rest(s: seq<nat>, n: nat): seq<nat>
    requires n >= 1
  {
    if |s| < n then s else Rest(s[n..], n)
  }

  /** How many groups precede the first corrupt one. */
  function GoodGroups(fmt: Format, groups: seq<nat>): (k: nat)
    ensures k <= |groups|
    ensures forall i :: 0 <= i < k ==> !fmt.Corrupt(groups[i])
    ensures k < |groups| ==> fmt.Corrupt(groups[k])
  {
    if groups == [] || fmt.Corrupt(groups[0]) then 0 else 1 + GoodGroups(fmt, groups[1..])
  }

  /** The sweeps of one transmission. */
  function SweepsOfGroups(fmt: Format, groups: seq<nat>): seq<seq<nat>>
    requires fmt.Valid()
  {
    Chop(Image(fmt, Samples(groups[..GoodGroups(fmt, groups)])), fmt.nchannels)
  }

  /** The sweeps of all transmissions up to the first corrupt group; no sweep spans two transmissions. */
  function BatchSweeps(fmt: Format, ts: seq<string>): seq<seq<nat>>
    requires fmt.Valid() && forall t <- ts :: AllHex(t)
  {
    if ts == [] then []
    else
      var groups := Groups(ts[0]);
      SweepsOfGroups(fmt, groups) +
      if GoodGroups(fmt, groups) < |groups| then [] else BatchSweeps(fmt, ts[1..])
  }

  /** The first corrupt group of all transmissions. */
  function BatchFault(fmt: Format, ts: seq<string>): Option<nat>
    requires forall t <- ts :: AllHex(t)
  {
    if ts == [] then None
    else
      var groups := Groups(ts[0]);
      var k := GoodGroups(fmt, groups);
      if k < |groups| then Some(groups[k]) else BatchFault(fmt, ts[1..])
  }

  function SweepsOf(items: seq<Item>): seq<seq<nat>> {
    if items == [] then []
    else (if items[0].Sweep? then [items[0].values] else []) + SweepsOf(items[1..])
  }

  function TextsOf(items: seq<Item>): seq<string> {
    if items == [] then []
    else (if items[0].Message? then [items[0].text] else []) + TextsOf(items[1..])
  }

  lemma {:induction false} ItemsConcat(a: seq<Item>, b: seq<Item>)
    ensures SweepsOf(a + b) == SweepsOf(a) + SweepsOf(b)
    ensures TextsOf(a + b) == TextsOf(a) + TextsOf(b)
  {
    if a == [] {
      assert a + b == b;
    } else {
      hide SweepsOf, TextsOf;
      assert (a + b)[1..] == a[1..] + b && (a + b)[0] == a[0];
      ItemsConcat(a[1..], b);
      FirstItem(a);
      FirstItem(a + b);
    }
  }

  lemma FirstItem(items: seq<Item>)
    requires items != []
    ensures SweepsOf(items) == (if items[0].Sweep? then [items[0].values] else []) + SweepsOf(items[1..])
    ensures TextsOf(items) == (if items[0].Message? then [items[0].text] else []) + TextsOf(items[1..])
  {
  }

  // ---- Pass one: messages ----

  /** Inside a message every byte but the terminator is kept. */
  lemma {:induction false} InsideMessage(fmt: Format, st: State, body: string)
    requires fmt.Valid() && st.Valid(fmt) && st.inMessage && MESSAGE_END !in body
    ensures Decode(fmt, st, body) == Outcome(st.(message := st.message + body), [], None)
    decreases |body|
  {
    hide Decode, ByteStep, AllHex;
    if body == "" {
      DecodeNothing(fmt, st);
      assert st.message + body == st.message;
    } else {
      NotInTail(MESSAGE_END, body);
      OneByteInside(fmt, st, body);
      InsideMessage(fmt, st.(message := st.message + [body[0]]), body[1..]);
      assert st.message + [body[0]] + body[1..] == st.message + body;
    }
  }

  lemma NotInTail(c: char, s: string)
    requires c !in s && s != ""
    ensures s[0] != c && c !in s[1..]
  {
    assert s[0] in s;
  }

  lemma DecodeNothing(fmt: Format, st: State)
    requires fmt.Valid() && st.Valid(fmt)
    ensures Decode(fmt, st, "") == Outcome(st, [], None)
  {
  }

  lemma OneByteInside(fmt: Format, st: State, bytes: string)
    requires fmt.Valid() && st.Valid(fmt) && st.inMessage && bytes != "" && bytes[0] != MESSAGE_END
    ensures Decode(fmt, st, bytes) == Decode(fmt, st.(message := st.message + [bytes[0]]), bytes[1..])
  {
    hide Decode, ByteStep, Behind, AllHex;
    FirstByte(fmt, st, bytes);
    ByteInside(fmt, st, bytes[0]);
    NothingBehind(Decode(fmt, ByteStep(fmt, st, bytes[0]).state, bytes[1..]));
  }

  lemma ByteInside(fmt: Format, st: State, c: char)
    requires AllHex(st.hexbuf) && st.inMessage && c != MESSAGE_END
    ensures ByteStep(fmt, st, c) == Outcome(st.(message := st.message + [c]), [], None)
  {
  }

  lemma NothingBehind(o: Outcome)
    ensures Behind([], o) == o
  {
  }

  /** A complete message leaves the state as it was and yields its text. */
  lemma {:induction false} WholeMessage(fmt: Format, st: State, body: string)
    requires fmt.Valid() && st.Valid(fmt) && !st.inMessage && MESSAGE_END !in body
    ensures Decode(fmt, st, [MESSAGE_START] + body + [MESSAGE_END]) == Outcome(st, [Message(DecodeAscii(body))], None)
  {
    hide Decode, DecodeAscii;
    var begun := st.(inMessage := true, message := "");
    assert [MESSAGE_START] + body + [MESSAGE_END] == [MESSAGE_START] + (body + [MESSAGE_END]);
    DecodeConcat(fmt, st, [MESSAGE_START], body + [MESSAGE_END]);
    DecodeConcat(fmt, begun, body, [MESSAGE_END]);
    OneByte(fmt, st, MESSAGE_START);
    InsideMessage(fmt, begun, body);
    assert "" + body == body;
    OneByte(fmt, begun.(message := body), MESSAGE_END);
  }

  lemma NoTextOutsideMessages(fmt: Format, st: State, c: char)
    requires AllHex(st.hexbuf) && !st.inMessage && c != MESSAGE_START
    ensures TextsOf(ByteStep(fmt, st, c).items) == [] && !ByteStep(fmt, st, c).state.inMessage
  {
  }

  /** Messages may be taken out first: sweeps and faults come from the stripped bytes alone. */
  lemma {:induction false} StripFirst(fmt: Format, st: State, bytes: string)
    requires fmt.Valid() && st.Valid(fmt) && !st.inMessage
    ensures var o, p := Decode(fmt, st, bytes), Decode(fmt, st, Strip(bytes));
      && SweepsOf(o.items) == SweepsOf(p.items)
      && o.fault == p.fault
      && (o.fault.None? ==> TextsOf(o.items) == Messages(bytes))
    decreases |bytes|
  {
    hide DecodeAscii;
    if bytes == "" {
    } else if bytes[0] != MESSAGE_START {
      ByteStepValid(fmt, st, bytes[0]);
      var o := ByteStep(fmt, st, bytes[0]);
      assert Strip(bytes)[1..] == Strip(bytes[1..]);
      if o.fault.None? {
        NoTextOutsideMessages(fmt, st, bytes[0]);
        hide HexStep, ByteStep;
        StripFirst(fmt, o.state, bytes[1..]);
        ItemsConcat(o.items, Decode(fmt, o.state, bytes[1..]).items);
        ItemsConcat(o.items, Decode(fmt, o.state, Strip(bytes[1..])).items);
      }
    } else {
      hide HexStep, ByteStep;
      var k := IndexOf(bytes, MESSAGE_END);
      var body := bytes[1..k];
      assert forall c <- body :: c in bytes[..k];
      if k == |bytes| {
        InsideMessage(fmt, st.(inMessage := true, message := ""), bytes[1..]);
      } else {
        WholeMessage(fmt, st, body);
        var head := [MESSAGE_START] + body + [MESSAGE_END];
        assert bytes == head + bytes[k + 1..];
        DecodeConcat(fmt, st, head, bytes[k + 1..]);
        StripFirst(fmt, st, bytes[k + 1..]);
        ItemsConcat([Message(DecodeAscii(body))], Decode(fmt, st, bytes[k + 1..]).items);
      }
    }
  }

  // ---- Pass two: transmissions ----

  /** Outside a transmission nothing but `2` and `$` has an effect. */
  lemma {:induction false} OutsideData(fmt: Format, st: State, bytes: string)
    requires fmt.Valid() && st.Valid(fmt) && !st.inMessage && !st.inData
    requires MESSAGE_START !in bytes && DATA_START !in bytes
    ensures Decode(fmt, st, bytes) == Outcome(st, [], None)
    decreases |bytes|
  {
    if bytes != "" {
      assert bytes[0] in bytes;
      assert forall c <- bytes[1..] :: c in bytes;
      OutsideData(fmt, st, bytes[1..]);
    }
  }

  /** Inside a transmission only hex digits have an effect. */
  lemma {:induction false} NoiseIsIgnored(fmt: Format, st: State, bytes: string)
    requires fmt.Valid() && st.Valid(fmt) && !st.inMessage && st.inData
    requires MESSAGE_START !in bytes && DATA_END !in bytes
    ensures Decode(fmt, st, bytes) == Decode(fmt, st, HexOnly(bytes))
    decreases |bytes|
  {
    if bytes != "" {
      assert bytes[0] in bytes;
      assert forall c <- bytes[1..] :: c in bytes;
      ByteStepValid(fmt, st, bytes[0]);
      InsideDataStep(fmt, st, bytes[0]);
      hide ByteStep, HexStep;
      var o := ByteStep(fmt, st, bytes[0]);
      if IsHexDigit(bytes[0]) {
        assert HexOnly(bytes)[1..] == HexOnly(bytes[1..]);
        if o.fault.None? {
          NoiseIsIgnored(fmt, o.state, bytes[1..]);
        }
      } else {
        assert HexOnly(bytes) == HexOnly(bytes[1..]);
        NoiseIsIgnored(fmt, st, bytes[1..]);
      }
    }
  }

  lemma InsideDataStep(fmt: Format, st: State, c: char)
    requires AllHex(st.hexbuf) && !st.inMessage && st.inData && c != MESSAGE_START && c != DATA_END
    ensures var o := ByteStep(fmt, st, c);
      && o.state.inData && !o.state.inMessage
      && (!IsHexDigit(c) ==> o == Outcome(st, [], None))
  {
  }

  // ---- Pass three: groups, samples and sweeps ----

  predicate Collecting(fmt: Format, st: State) {
    fmt.Valid() && st.Valid(fmt) && !st.inMessage && st.inData
  }

  lemma {:induction false} FewerThanFour(fmt: Format, st: State, digits: string)
    requires Collecting(fmt, st) && st.hexbuf == "" && AllHex(digits) && |digits| < 4
    ensures Decode(fmt, st, digits) == Outcome(st.(hexbuf := digits), [], None)
  {
    if digits != "" {
      var last := |digits| - 1;
      FewerThanFour(fmt, st, digits[..last]);
      assert digits == digits[..last] + [digits[last]];
      DecodeConcat(fmt, st, digits[..last], [digits[last]]);
      OneByte(fmt, st.(hexbuf := digits[..last]), digits[last]);
    }
  }

  /** What one group does to the sweep under way. */
  function GroupStep(fmt: Format, st: State, raw: nat): Outcome
    requires fmt.Valid()
  {
    if raw == END_MARKER then Outcome(st, [], None)
    else if fmt.Corrupt(raw) then Outcome(st, [], Some(raw))
    else
      var sweep := st.sweep + [To8Bit(raw, fmt.data10bit)];
      if |sweep| == fmt.nchannels then Outcome(st.(sweep := []), [Sweep(sweep)], None)
      else Outcome(st.(sweep := sweep), [], None)
  }

  lemma OneGroup(fmt: Format, st: State, digits: string)
    requires Collecting(fmt, st) && st.hexbuf == "" && AllHex(digits) && |digits| == 4
    ensures Decode(fmt, st, digits) == GroupStep(fmt, st, HexNumber(digits))
  {
    assert digits == digits[..3] + [digits[3]];
    DecodeConcat(fmt, st, digits[..3], [digits[3]]);
    FewerThanFour(fmt, st, digits[..3]);
    OneByte(fmt, st.(hexbuf := digits[..3]), digits[3]);
  }

  lemma {:induction false} SamplesConcat(a: seq<nat>, b: seq<nat>)
    ensures Samples(a + b) == Samples(a) + Samples(b)
  {
    if a == [] {
      assert a + b == b;
    } else {
      assert (a + b)[1..] == a[1..] + b;
      SamplesConcat(a[1..], b);
    }
  }

  lemma ImageConcat(fmt: Format, a: seq<nat>, b: seq<nat>)
    ensures Image(fmt, a + b) == Image(fmt, a) + Image(fmt, b)
  {
  }

  /** The samples that are complete after the good groups of a run of digits. */
  function Collected(fmt: Format, st: State, groups: seq<nat>): seq<nat>
    requires fmt.Valid()
  {
    st.sweep + Image(fmt, Samples(groups[..GoodGroups(fmt, groups)]))
  }

  /** What a run of hex digits from the start of a group on must produce. */
  predicate HexRunOutcome(fmt: Format, st: State, digits: string, o: Outcome)
    requires Collecting(fmt, st) && AllHex(digits)
  {
    var groups := Groups(digits);
    var k := GoodGroups(fmt, groups);
    && SweepsOf(o.items) == Chop(Collected(fmt, st, groups), fmt.nchannels)
    && TextsOf(o.items) == []
    && o.fault == (if k < |groups| then Some(groups[k]) else None)
    && (o.fault.None? ==>
      o.state == st.(hexbuf := digits[4 * |groups|..], sweep := Rest(Collected(fmt, st, groups), fmt.nchannels)))
  }

  lemma {:induction false} HexRun(fmt: Format, st: State, digits: string)
    requires Collecting(fmt, st) && st.hexbuf == "" && AllHex(digits)
    ensures HexRunOutcome(fmt, st, digits, Decode(fmt, st, digits))
    decreases |digits|
  {
    if |digits| < 4 {
      FewerThanFour(fmt, st, digits);
      assert Collected(fmt, st, []) == st.sweep;
    } else {
      assert digits == digits[..4] + digits[4..];
      DecodeConcat(fmt, st, digits[..4], digits[4..]);
      OneGroup(fmt, st, digits[..4]);
      var raw := HexNumber(digits[..4]);
      var o := GroupStep(fmt, st, raw);
      if o.fault.Some? {
        assert Collected(fmt, st, Groups(digits)) == st.sweep;
      } else {
        HexRun(fmt, o.state, digits[4..]);
        PrependGroup(fmt, st, digits, Decode(fmt, o.state, digits[4..]));
      }
    }
  }

  /** A group that is no fault only adds to the sweep, and yields at most a sweep. */
  lemma GroupStepCollects(fmt: Format, st: State, raw: nat)
    requires Collecting(fmt, st) && GroupStep(fmt, st, raw).fault.None?
    ensures var o := GroupStep(fmt, st, raw);
      && !fmt.Corrupt(raw) && Collecting(fmt, o.state)
      && o.state == st.(sweep := o.state.sweep) && TextsOf(o.items) == []
  {
  }

  lemma PrependGroup(fmt: Format, st: State, digits: string, r: Outcome)
    requires Collecting(fmt, st) && st.hexbuf == "" && AllHex(digits) && |digits| >= 4
    requires var o := GroupStep(fmt, st, HexNumber(digits[..4]));
      o.fault.None? && HexRunOutcome(fmt, o.state, digits[4..], r)
    ensures HexRunOutcome(fmt, st, digits, r.(items := GroupStep(fmt, st, HexNumber(digits[..4])).items + r.items))
  {
    hide HexNumber, Chop, Rest, Samples, Image, GroupStep;
    var raw := HexNumber(digits[..4]);
    var o := GroupStep(fmt, st, raw);
    GroupStepCollects(fmt, st, raw);
    var groups, more := Groups(digits), Groups(digits[4..]);
    assert groups == [raw] + more && groups[1..] == more;
    var k, j := GoodGroups(fmt, groups), GoodGroups(fmt, more);
    assert k == 1 + j;
    assert groups[..k] == [raw] + more[..j];
    FirstGroup(fmt, st, raw, groups[..k], more[..j]);
    ItemsConcat(o.items, r.items);
    assert digits[4..][4 * |more|..] == digits[4 * |groups|..];
  }

  /** Chopping the samples of `[raw] + more` is one group step and then the rest. */
  lemma FirstGroup(fmt: Format, st: State, raw: nat, groups: seq<nat>, more: seq<nat>)
    requires fmt.Valid() && st.Valid(fmt) && !fmt.Corrupt(raw) && groups == [raw] + more
    ensures var o := GroupStep(fmt, st, raw);
      var s, t := st.sweep + Image(fmt, Samples(groups)), o.state.sweep + Image(fmt, Samples(more));
      && Chop(s, fmt.nchannels) == SweepsOf(o.items) + Chop(t, fmt.nchannels)
      && Rest(s, fmt.nchannels) == Rest(t, fmt.nchannels)
  {
    hide Chop, Rest, Samples, Image, SweepsOf;
    ImageOfGroup(fmt, raw, groups, more);
    var tail := Image(fmt, Samples(more));
    NoSweep();
    assert [] + tail == tail;
    if raw == END_MARKER {
      assert st.sweep + ([] + tail) == st.sweep + tail;
    } else {
      var sweep := st.sweep + [To8Bit(raw, fmt.data10bit)];
      assert st.sweep + ([To8Bit(raw, fmt.data10bit)] + tail) == sweep + tail;
      if |sweep| == fmt.nchannels {
        ChopWhole(sweep, tail, fmt.nchannels);
        OneSweep(sweep);
      }
    }
  }

  lemma ImageOfGroup(fmt: Format, raw: nat, groups: seq<nat>, more: seq<nat>)
    requires groups == [raw] + more
    ensures Image(fmt, Samples(groups))
      == (if raw == END_MARKER then [] else [To8Bit(raw, fmt.data10bit)]) + Image(fmt, Samples(more))
  {
    SamplesFirst(raw, groups, more);
    hide Samples;
    ImageConcat(fmt, if raw == END_MARKER then [] else [raw], Samples(more));
    assert Image(fmt, [raw]) == [To8Bit(raw, fmt.data10bit)] && Image(fmt, []) == [];
  }

  lemma SamplesFirst(raw: nat, groups: seq<nat>, more: seq<nat>)
    requires groups == [raw] + more
    ensures Samples(groups) == (if raw == END_MARKER then [] else [raw]) + Samples(more)
  {
    assert groups[1..] == more;
  }

  lemma NoSweep()
    ensures SweepsOf([]) == [] && forall ss: seq<seq<nat>> :: SweepsOf([]) + ss == ss
  {
  }

  lemma OneSweep(sweep: seq<nat>)
    ensures SweepsOf([Sweep(sweep)]) == [sweep]
  {
    assert [Sweep(sweep)][1..] == [];
  }

  lemma ChopWhole(sweep: seq<nat>, tail: seq<nat>, n: nat)
    requires n >= 1 && |sweep| == n
    ensures Chop(sweep + tail, n) == [sweep] + Chop(tail, n)
    ensures Rest(sweep + tail, n) == Rest(tail, n)
  {
    assert (sweep + tail)[..n] == sweep && (sweep + tail)[n..] == tail;
  }

  /** The part of a transmission between its `2` and its `&`. */
  lemma OneTransmission(fmt: Format, st: State, bytes: string)
    requires fmt.Valid() && st.Valid(fmt) && !st.inMessage && !st.inData
    requires MESSAGE_START !in bytes && DATA_END !in bytes
    ensures var o := Decode(fmt, st, [DATA_START] + bytes);
      var groups := Groups(HexOnly(bytes));
      var k := GoodGroups(fmt, groups);
      && SweepsOf(o.items) == SweepsOfGroups(fmt, groups)
      && TextsOf(o.items) == []
      && o.fault == (if k < |groups| then Some(groups[k]) else None)
      && (o.fault.None? ==> o.state.inData && !o.state.inMessage)
  {
    var begun := st.(inData := true, hexbuf := "", sweep := []);
    assert ([DATA_START] + bytes)[1..] == bytes;
    var o := Decode(fmt, begun, bytes);
    assert [] + o.items == o.items;
    NoiseIsIgnored(fmt, begun, bytes);
    HexRun(fmt, begun, HexOnly(bytes));
    var groups := Groups(HexOnly(bytes));
    var samples := Image(fmt, Samples(groups[..GoodGroups(fmt, groups)]));
    assert [] + samples == samples;
  }

  /** The bytes before the first transmission do nothing. */
  lemma SkipToTransmission(fmt: Format, st: State, before: string, bytes: string)
    requires fmt.Valid() && st.Valid(fmt) && !st.inMessage && !st.inData
    requires MESSAGE_START !in before && DATA_START !in before
    ensures Decode(fmt, st, before + bytes) == Decode(fmt, st, bytes)
  {
    OutsideData(fmt, st, before);
    DecodeConcat(fmt, st, before, bytes);
    assert [] + Decode(fmt, st, bytes).items == Decode(fmt, st, bytes).items;
  }

  lemma CloseTransmission(fmt: Format, st: State, after: string)
    requires Collecting(fmt, st)
    ensures Decode(fmt, st, [DATA_END] + after) == Decode(fmt, st.(inData := false), after)
  {
    assert ([DATA_END] + after)[1..] == after;
    var o := Decode(fmt, st.(inData := false), after);
    assert [] + o.items == o.items;
  }

  /** A transmission that is closed, and what follows it. */
  lemma ClosedTransmission(fmt: Format, st: State, body: string, after: string)
    requires fmt.Valid() && st.Valid(fmt) && !st.inMessage && !st.inData
    requires MESSAGE_START !in body && DATA_END !in body
    ensures var o := Decode(fmt, st, [DATA_START] + body);
      Decode(fmt, st, [DATA_START] + body + [DATA_END] + after)
      == if o.fault.Some? then o else Then(fmt, o.(state := o.state.(inData := false)), after)
  {
    assert [DATA_START] + body + [DATA_END] + after == ([DATA_START] + body) + ([DATA_END] + after);
    DecodeConcat(fmt, st, [DATA_START] + body, [DATA_END] + after);
    OneTransmission(fmt, st, body);
    var o := Decode(fmt, st, [DATA_START] + body);
    if o.fault.None? {
      CloseTransmission(fmt, o.state, after);
    }
  }

  predicate AsBatch(fmt: Format, o: Outcome, ts: seq<string>)
    requires fmt.Valid() && forall t <- ts :: AllHex(t)
  {
    SweepsOf(o.items) == BatchSweeps(fmt, ts) && o.fault == BatchFault(fmt, ts)
  }

  lemma PrependTransmission(fmt: Format, o: Outcome, r: Outcome, digits: string, ts: seq<string>)
    requires fmt.Valid() && AllHex(digits) && forall t <- ts :: AllHex(t)
    requires var groups := Groups(digits);
      var k := GoodGroups(fmt, groups);
      && SweepsOf(o.items) == SweepsOfGroups(fmt, groups)
      && o.fault == (if k < |groups| then Some(groups[k]) else None)
    requires AsBatch(fmt, r, ts)
    ensures forall t <- [digits] + ts :: AllHex(t)
    ensures AsBatch(fmt, if o.fault.Some? then o else r.(items := o.items + r.items), [digits] + ts)
  {
    assert ([digits] + ts)[1..] == ts;
    ItemsConcat(o.items, r.items);
  }

  /** From outside a transmission, message-free bytes decode as the batch passes say. */
  lemma {:induction false} TransmissionsDecode(fmt: Format, st: State, bytes: string)
    requires fmt.Valid() && st.Valid(fmt) && !st.inMessage && !st.inData && MESSAGE_START !in bytes
    ensures AsBatch(fmt, Decode(fmt, st, bytes), Transmissions(bytes))
    decreases |bytes|
  {
    hide Decode, BatchSweeps, BatchFault;
    var i := IndexOf(bytes, DATA_START);
    assert forall c <- bytes[..i] :: c in bytes;
    if i == |bytes| {
      OutsideData(fmt, st, bytes);
      NothingIsBatch(fmt, st);
    } else {
      hide AsBatch;
      var rest := bytes[i + 1..];
      assert bytes == bytes[..i] + ([DATA_START] + rest);
      SkipToTransmission(fmt, st, bytes[..i], [DATA_START] + rest);
      assert forall c <- rest :: c in bytes;
      StartedTransmissionsDecode(fmt, st, rest);
    }
  }

  lemma NothingIsBatch(fmt: Format, st: State)
    requires fmt.Valid()
    ensures AsBatch(fmt, Outcome(st, [], None), [])
  {
  }

  lemma NotInParts(c: char, s: string, j: nat)
    requires c !in s && j <= |s|
    ensures c !in s[..j] && (j < |s| ==> c !in s[j + 1..])
  {
    assert forall d <- s[..j] :: d in s;
    if j < |s| {
      assert forall d <- s[j + 1..] :: d in s;
    }
  }

  lemma {:induction false} StartedTransmissionsDecode(fmt: Format, st: State, rest: string)
    requires fmt.Valid() && st.Valid(fmt) && !st.inMessage && !st.inData && MESSAGE_START !in rest
    ensures AsBatch(fmt, Decode(fmt, st, [DATA_START] + rest), TransmissionsAfterStart(rest))
    decreases |rest|
  {
    hide Decode, BatchSweeps, BatchFault, SweepsOfGroups, HexOnly, IndexOf, Groups, GoodGroups;
    var j := IndexOf(rest, DATA_END);
    var body := rest[..j];
    NotInParts(MESSAGE_START, rest, j);
    OneTransmission(fmt, st, body);
    var o := Decode(fmt, st, [DATA_START] + body);
    NothingIsBatch(fmt, o.state);
    if j == |rest| {
      assert body == rest;
      PrependTransmission(fmt, o, Outcome(o.state, [], None), HexOnly(body), []);
      assert o.items + [] == o.items;
    } else {
      var after := rest[j + 1..];
      assert [DATA_START] + rest == [DATA_START] + body + [DATA_END] + after;
      ClosedTransmission(fmt, st, body, after);
      if o.fault.Some? {
        PrependTransmission(fmt, o, Outcome(o.state, [], None), HexOnly(body), []);
        BatchStopsAtFault(fmt, HexOnly(body), Transmissions(after));
      } else {
        var closed := o.state.(inData := false);
        TransmissionsDecode(fmt, closed, after);
        PrependTransmission(fmt, o, Decode(fmt, closed, after), HexOnly(body), Transmissions(after));
      }
    }
  }

  /** Nothing after a corrupt transmission matters. */
  lemma BatchStopsAtFault(fmt: Format, digits: string, ts: seq<string>)
    requires fmt.Valid() && AllHex(digits) && forall t <- ts :: AllHex(t)
    requires GoodGroups(fmt, Groups(digits)) < |Groups(digits)|
    ensures forall t <- [digits] + ts :: AllHex(t)
    ensures BatchSweeps(fmt, [digits] + ts) == BatchSweeps(fmt, [digits] + [])
    ensures BatchFault(fmt, [digits] + ts) == BatchFault(fmt, [digits] + [])
  {
  }

  lemma {:induction false} StripRemovesMessages(bytes: string)
    ensures MESSAGE_START !in Strip(bytes)
    decreases |bytes|
  {
    if bytes == "" {
    } else if bytes[0] != MESSAGE_START {
      StripRemovesMessages(bytes[1..]);
    } else {
      var k := IndexOf(bytes, MESSAGE_END);
      if k < |bytes| {
        StripRemovesMessages(bytes[k + 1..]);
      }
    }
  }

  /**
   The incremental parser computes the batch decoding of any byte string: the same sweeps, a fault
   exactly at the first corrupt group, and, when there is none, the same messages.
   */
  lemma ParserIsTheBatchDecoder(fmt: Format, bytes: string)
    requires fmt.Valid()
    ensures var o, ts := Decode(fmt, START, bytes), Transmissions(Strip(bytes));
      && SweepsOf(o.items) == BatchSweeps(fmt, ts)
      && o.fault == BatchFault(fmt, ts)
      && (o.fault.None? ==> TextsOf(o.items) == Messages(bytes))
  {
    StripFirst(fmt, START, bytes);
    StripRemovesMessages(bytes);
    TransmissionsDecode(fmt, START, Strip(bytes));
  }

  /** A fault is raised exactly when some transmission holds a group above the bit depth other than 0x2323. */
  lemma {:induction false} FaultExactlyOnACorruptGroup(fmt: Format, ts: seq<string>)
    requires forall t <- ts :: AllHex(t)
    ensures BatchFault(fmt, ts).Some?
      <==> exists t <- ts, raw <- Groups(t) :: raw >= (if fmt.data10bit then 1024 else 256) && raw != 0x2323
  {
    if ts != [] {
      FaultExactlyOnACorruptGroup(fmt, ts[1..]);
      var groups := Groups(ts[0]);
      var k := GoodGroups(fmt, groups);
      hide Groups, AllHex;
      if k < |groups| {
        assert ts[0] in ts && groups[k] in Groups(ts[0]);
      } else {
        assert forall raw <- groups :: !(raw > fmt.Mask() && raw != END_MARKER);
        assert forall t <- ts :: t == ts[0] || t in ts[1..];
        assert forall t <- ts[1..] :: t in ts;
      }
    }
  }
}
