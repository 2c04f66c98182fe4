/**
 What read errors in a row lead to. Every second one falls into the drain of a reset, which then sends no more
 commands and leaves the receiver's answer on the line; a calm read takes that answer for the end of the transmission.
 Whether the stream heals, ends as if the operator had stopped it, or gives up depends on the parity of the errors, on
 the recoveries left in the window, and on what was still on the line.
 */
module ErrorsInARow {
  import opened Wrappers
  import opened StreamParsing
  import opened BatchDecoding
  import opened CallistoProtocol
  import opened SimulatedReceiver
  import opened StreamLoop
  import opened CallistoSession
  import opened BarrenLines
  import opened ClosedLoop
  import opened SelfHealing

  // ---- The receiver's answer, read by a fresh parser ----

  /** A fresh parser finds no corrupt sample on the line. */
  predicate Clean(fmt: Format, line: string)
    requires fmt.Valid()
  {
    Decode(fmt, START, line).fault.None?
  }

  /** Read without a fault, the bytes say that the receiver has stopped. */
  predicate Says(fmt: Format, st: State, bytes: string)
    requires fmt.Valid() && st.Valid(fmt)
  {
    var o := Decode(fmt, st, bytes);
    o.fault.None? ==> SaysStopped(o.items)
  }

  lemma {:induction false} ContainsAtEnd(head: string, t: string)
    ensures Contains(head + t, t)
    decreases |head|
  {
    if head == "" {
      assert head + t == t;
    } else {
      assert (head + t)[1..] == head[1..] + t;
      ContainsAtEnd(head[1..], t);
    }
  }

  lemma AsciiInParts(head: string, tail: string)
    requires forall i :: 0 <= i < |tail| ==> tail[i] as int < 128
    ensures DecodeAscii(head + tail) == DecodeAscii(head) + tail
  {
  }

  /** A message that ends in "Stopped" says so, even when it runs on from another one. */
  lemma StoppedFromAnywhere(fmt: Format, st: State, body: string)
    requires fmt.Valid() && st.Valid(fmt) && body == "CRX:Stopped"
    ensures Says(fmt, st, [MESSAGE_START] + body + [MESSAGE_END])
  {
    hide Decode, DecodeAscii, Contains;
    var stopped := "Stopped";
    var head := if st.inMessage then st.message + [MESSAGE_START] + "CRX:" else "CRX:";
    AsciiInParts(head, stopped);
    ContainsAtEnd(DecodeAscii(head), stopped);
    var whole := [MESSAGE_START] + body + [MESSAGE_END];
    if st.inMessage {
      var inside := [MESSAGE_START] + body;
      InsideMessage(fmt, st, inside);
      DecodeConcat(fmt, st, inside, [MESSAGE_END]);
      var begun := st.(message := st.message + inside);
      OneByte(fmt, begun, MESSAGE_END);
      assert begun.message == head + stopped;
      var m := [Message(DecodeAscii(begun.message))];
      assert [] + m == m && m[0].Message?;
      assert SaysStopped(Decode(fmt, st, whole).items);
    } else {
      WholeMessage(fmt, st, body);
      assert body == head + stopped;
      var m := [Message(DecodeAscii(body))];
      assert m[0].Message?;
      assert SaysStopped(Decode(fmt, st, whole).items);
    }
  }

  /** What is said at the end is said. */
  lemma SaysInParts(fmt: Format, st: State, a: string, b: string)
    requires fmt.Valid() && st.Valid(fmt)
    requires var o := Decode(fmt, st, a); o.fault.None? ==> Says(fmt, o.state, b)
    ensures Says(fmt, st, a + b)
  {
    hide Decode;
    DecodeConcat(fmt, st, a, b);
    var o := Decode(fmt, st, a);
    if o.fault.None? && Decode(fmt, o.state, b).fault.None? {
      var p := Decode(fmt, o.state, b);
      var i :| 0 <= i < |p.items| && p.items[i].Message? && Contains(p.items[i].text, "Stopped");
      assert (o.items + p.items)[|o.items| + i] == p.items[i];
    }
  }

  lemma AnswerSaysStopped(fmt: Format, st: State, open: bool)
    requires fmt.Valid() && st.Valid(fmt)
    ensures Says(fmt, st, ResetAnswer(open))
  {
    hide Decode, Says;
    var body := "CRX:Stopped";
    StoppedIsAMessage(body);
    var head := if open then [DATA_END] + STOPPED else "";
    StoppedFromAnywhere(fmt, Decode(fmt, st, head).state, body);
    SaysInParts(fmt, st, head, ID_RESPONSE);
  }

  /** What the answer to RESET does to a line that a fresh parser is going to read. */
  lemma AnswerBehind(fmt: Format, line: string, open: bool)
    requires fmt.Valid() && Barren(fmt, line)
    ensures var longer := line + ResetAnswer(open);
      && Barren(fmt, longer) && Says(fmt, START, longer)
      && Clean(fmt, longer) == Clean(fmt, line)
      && |longer| <= |line| + ANSWER_LENGTH
  {
    hide Decode, Says, Barren;
    var answer := ResetAnswer(open);
    BarrenWithAnswer(fmt, line, open);
    var st := Decode(fmt, START, line).state;
    AnswerFromAnywhere(fmt, st, open);
    AnswerSaysStopped(fmt, st, open);
    SaysInParts(fmt, START, line, answer);
    DecodeConcat(fmt, START, line, answer);
  }

  /** The longest answer to RESET. */
  const ANSWER_LENGTH: nat := 27

  // ---- How a run of read errors ends ----

  /** Nothing new goes wrong, nobody stops the stream, and a recovery comes within the window that began at `since`. */
  predicate Undisturbed(ev: Event, since: real) {
    ev.faults == [] && !ev.stop && since <= ev.times.recover <= since + RESET_WINDOW
  }

  predicate AllUndisturbed(script: seq<Event>, since: real) {
    forall i :: 0 <= i < |script| ==> Undisturbed(script[i], since)
  }

  /** The recoveries that the budget still allows. */
  function Left(sys: System): nat
    requires |sys.run.loop.resets| <= RESET_BUDGET
  {
    RESET_BUDGET - |sys.run.loop.resets|
  }

  /** A running stream with recoveries of one window only, and a line that one read takes whole. */
  predicate Suspended(host: Host, sys: System, since: real) {
    && SystemValid(host, sys) && sys.rx == "" && sys.run.loop.running && sys.run.fatal.None?
    && Matches(host, sys.dev) && Barren(host.Fmt(), sys.dev.out)
    && |sys.run.loop.resets| <= RESET_BUDGET
    && (forall i :: 0 <= i < |sys.run.loop.resets| ==> since <= sys.run.loop.resets[i])
    && |sys.dev.out| + ANSWER_LENGTH * Left(sys) <= READ_CHUNK
  }

  /** The answer to a reset whose drain has failed is waiting for a fresh parser. */
  predicate AnswerWaits(host: Host, sys: System)
    requires SystemValid(host, sys)
  {
    sys.run.loop.parser == START && !sys.dev.running && Says(host.Fmt(), START, sys.dev.out)
  }

  /** The iterations until all errors have been met and the line has been read. */
  function RoundsFor(errors: nat): nat { errors / 2 + 1 }

  datatype Ending = Heals | EndsSilently | GivesUp

  function EndingOf(errors: nat, left: nat, clean: bool): Ending {
    if errors % 2 == 0 && errors / 2 <= left && clean then EndsSilently
    else if errors / 2 < left then Heals
    else GivesUp
  }

  predicate EndsAs(host: Host, r: System, ending: Ending) {
    match ending
    case Heals => Healed(host, r) && r.run.fatal.None?
    case EndsSilently => !r.run.loop.running && r.run.fatal.None?
    case GivesUp => !r.run.loop.running && r.run.fatal.Some?
  }

  /** Within one window no recovery leaves the deque. */
  lemma NothingExpires(resets: seq<real>, since: real, now: real)
    requires forall i :: 0 <= i < |resets| ==> since <= resets[i]
    requires now <= since + RESET_WINDOW
    ensures resets[Expired(resets, now)..] == resets
  {
    assert Expired(resets, now) == 0;
  }

  /** A recovery in the window: past the budget the stream gives up, else the port is reset. */
  lemma RecoveryInWindow(loop: Loop, ev: Event, since: real)
    requires loop.running && |loop.resets| <= RESET_BUDGET && Undisturbed(ev, since)
    requires forall i :: 0 <= i < |loop.resets| ==> since <= loop.resets[i]
    ensures var s := Recovered(loop, ev.times, []);
      && s.frames == []
      && (|loop.resets| == RESET_BUDGET ==> s.move == GiveUp && !s.loop.running)
      && (|loop.resets| < RESET_BUDGET ==>
        && (s.move == SoftReset || s.move == Reopen)
        && s.loop == Loop(true, START, loop.resets + [ev.times.recover], ev.times.after))
  {
    hide Expired;
    NothingExpires(loop.resets, since, ev.times.recover);
  }

  /** An iteration with a recovery that finds `dev` at the port. */
  lemma RecoveringIteration(host: Host, sys: System, ev: Event, since: real, dev: Device)
    requires Suspended(host, sys, since) && Undisturbed(ev, since)
    requires LoopStep(host.Fmt(), NoDataTimeout(host.sweepsPerSecond), sys.run.loop, TickOf(sys, ev))
      == Recovered(sys.run.loop, ev.times, [])
    requires forall move: Move :: PortAfter(host, sys, ev, move) == Moved(dev, "", move, host)
    ensures var next := PlayOne(host, sys, ev);
      && next.run.frames == sys.run.frames
      && (Left(sys) == 0 ==> EndsAs(host, next, GivesUp))
      && (Left(sys) > 0 ==>
        && next.run.loop == Loop(true, START, sys.run.loop.resets + [ev.times.recover], ev.times.after)
        && next.run.fatal.None?
        && exists move: Move :: (move.SoftReset? || move.Reopen?) && (next.dev, next.rx) == Moved(dev, "", move, host))
  {
    hide LoopStep, TickOf, Moved, PlayOne, Recovered, PortAfter;
    PlayOneInParts(host, sys, ev);
    RecoveryInWindow(sys.run.loop, ev, since);
    assert sys.run.frames + [] == sys.run.frames;
    var s := Recovered(sys.run.loop, ev.times, []);
    assert PortAfter(host, sys, ev, s.move) == Moved(dev, "", s.move, host);
  }

  /** A failed read, and what the recovery makes of it. */
  lemma FailedRound(host: Host, sys: System, ev: Event, since: real)
    requires Suspended(host, sys, since) && Undisturbed(ev, since) && sys.dev.readErrors > 0
    ensures var next := PlayOne(host, sys, ev);
      && next.run.frames == sys.run.frames
      && (Left(sys) == 0 ==> EndsAs(host, next, GivesUp))
      && (Left(sys) > 0 && sys.dev.readErrors == 1 ==> EndsAs(host, next, Heals))
      && (Left(sys) > 0 && sys.dev.readErrors > 1 ==>
        && Suspended(host, next, since) && AnswerWaits(host, next)
        && Left(next) == Left(sys) - 1 && next.dev.readErrors == sys.dev.readErrors - 2
        && Clean(host.Fmt(), next.dev.out) == Clean(host.Fmt(), sys.dev.out))
  {
    hide Written, SoftlyReset, Decode, Filled, Barren, Says, Clean, LineInStep, PlayOne, Recovered;
    var dev := sys.dev.(readErrors := sys.dev.readErrors - 1);
    assert ReadStep(Inject(sys.dev, ev.faults), READ_CHUNK, ev.level) == (dev, Failed);
    assert sys.run.loop.(running := true) == sys.run.loop;
    RecoveringIteration(host, sys, ev, since, dev);
    if Left(sys) > 0 {
      var next := PlayOne(host, sys, ev);
      var move: Move :| (move.SoftReset? || move.Reopen?) && (next.dev, next.rx) == Moved(dev, "", move, host);
      if sys.dev.readErrors == 1 {
        MoveHeals(host, dev, move);
      } else {
        DrainFails(host, dev, move);
      }
    }
  }

  /** A drain that fails leaves a quiet receiver and its answer behind what was on the line. */
  lemma DrainFails(host: Host, dev: Device, move: Move)
    requires host.Fmt().Valid() && Matches(host, dev) && Barren(host.Fmt(), dev.out) && dev.readErrors > 0
    requires move.SoftReset? || move.Reopen?
    ensures var (d, rx) := Moved(dev, "", move, host);
      && rx == "" && Matches(host, d) && !d.running && d.readErrors == dev.readErrors - 1
      && Barren(host.Fmt(), d.out) && Says(host.Fmt(), START, d.out)
      && Clean(host.Fmt(), d.out) == Clean(host.Fmt(), dev.out)
      && |d.out| <= |dev.out| + ANSWER_LENGTH
  {
    hide Written, SoftlyReset, Decode, Barren, Says, Clean, ResetAnswer;
    var found := if move.SoftReset? then dev else Closed(dev);
    FailedReset(found, "", host);
    AnswerAppended(dev.out, found.running);
    AnswerBehind(host.Fmt(), dev.out, found.running);
  }

  /** The calm read of a waiting answer. */
  lemma AnswerIsRead(host: Host, sys: System, ev: Event, since: real)
    requires Suspended(host, sys, since) && Undisturbed(ev, since) && sys.dev.readErrors == 0 && AnswerWaits(host, sys)
    ensures var next := PlayOne(host, sys, ev);
      && next.run.frames == sys.run.frames
      && EndsAs(host, next, EndingOf(0, Left(sys), Clean(host.Fmt(), sys.dev.out)))
  {
    hide Written, SoftlyReset, Decode, Barren, LineInStep, PlayOne, SweepsOf, SaysStopped, Recovered;
    var line := sys.dev.out;
    assert Filled(sys.dev, ev.level) == sys.dev && Inject(sys.dev, ev.faults) == sys.dev;
    assert Take(line, READ_CHUNK) == line && Drop(line, READ_CHUNK) == "" && sys.rx + line == line;
    var dev := sys.dev.(out := "");
    assert ReadStep(sys.dev, READ_CHUNK, ev.level) == (dev, Got(line));
    BarrenFromStart(host.Fmt(), line);
    assert TickOf(sys, ev).read == Got(line);
    hide Filled;
    var o := Decode(host.Fmt(), START, line);
    if o.fault.Some? {
      assert sys.run.loop.(running := true) == sys.run.loop;
      RecoveringIteration(host, sys, ev, since, dev);
      if Left(sys) > 0 {
        var next := PlayOne(host, sys, ev);
        var move: Move :| (move.SoftReset? || move.Reopen?) && (next.dev, next.rx) == Moved(dev, "", move, host);
        MoveHeals(host, dev, move);
      }
    } else {
      PlayOneInParts(host, sys, ev);
      assert sys.run.frames + [] == sys.run.frames;
    }
  }

  lemma {:induction false} ErrorsAreMet(host: Host, sys: System, script: seq<Event>, since: real)
    requires Suspended(host, sys, since) && AllUndisturbed(script, since)
    requires |script| == RoundsFor(sys.dev.readErrors) && (sys.dev.readErrors == 0 ==> AnswerWaits(host, sys))
    ensures var r := Play(host, sys, script);
      && r.run.frames == sys.run.frames
      && EndsAs(host, r, EndingOf(sys.dev.readErrors, Left(sys), Clean(host.Fmt(), sys.dev.out)))
    decreases |script|
  {
    hide Clean, PlayOne, Healed, AnswerWaits, Undisturbed, Barren;
    var next, later := PlayOne(host, sys, script[0]), script[1..];
    assert Undisturbed(script[0], since);
    assert Play(host, sys, script) == Play(host, next, later);
    if sys.dev.readErrors == 0 {
      AnswerIsRead(host, sys, script[0], since);
      assert later == [];
    } else {
      FailedRound(host, sys, script[0], since);
      if Left(sys) > 0 && sys.dev.readErrors > 1 {
        ErrorsAreMet(host, next, later, since);
      } else {
        assert Left(sys) > 0 ==> later == [];
      }
    }
  }

  /** The injection can be looked at as a step of its own. */
  lemma StruckFirst(host: Host, sys: System, ev: Event, errors: nat)
    requires SystemValid(host, sys) && ev.faults == [ReadErrors(errors)]
    ensures PlayOne(host, sys, ev) == PlayOne(host, sys.(dev := sys.dev.(readErrors := errors)), ev.(faults := []))
  {
    var none := ev.faults[1..];
    assert none == [];
    assert Inject(sys.dev, ev.faults) == sys.dev.(readErrors := errors);
    hide Moved, LoopStep, ReadStep, Written, Emits, SweepSamples;
  }

  /**
   Read errors in a row, followed by calm reads: what becomes of the stream, in every case. With an odd number of errors
   the last recovery meets none of them, and the stream heals as long as the budget lasts. With an even number the drain
   of the last recovery fails too, and the next read takes the receiver's answer for an end of the transmission: the
   stream ends without a stop and without giving up, however healthy the receiver is, unless the bytes in front of the
   answer hold what a fresh parser takes for a corrupt sample, which is one more reason to recover.
   */
  lemma ReadErrorsInARow(host: Host, sys: System, errors: nat, script: seq<Event>, since: real)
    requires Suspended(host, sys, since) && errors > 0
    requires |script| == RoundsFor(errors) && script[0].faults == [ReadErrors(errors)]
    requires AllUndisturbed([script[0].(faults := [])] + script[1..], since)
    ensures var r := Play(host, sys, script);
      && r.run.frames == sys.run.frames
      && EndsAs(host, r, EndingOf(errors, Left(sys), Clean(host.Fmt(), sys.dev.out)))
  {
    hide Clean, Healed, AllUndisturbed, Decode, LoopStep, Barren;
    var struck := sys.(dev := sys.dev.(readErrors := errors));
    var first := script[0].(faults := []);
    var calm := [first] + script[1..];
    assert calm[1..] == script[1..];
    StruckFirst(host, sys, script[0], errors);
    hide PlayOne;
    ErrorsAreMet(host, struck, calm, since);
  }

  lemma NothingIsClean(fmt: Format)
    requires fmt.Valid()
    ensures Clean(fmt, "")
  {
  }

  /** Two read errors in a row on an idle line, and the stream ends by itself. */
  lemma DrainErrorEndsTheStream(host: Host, sys: System, script: seq<Event>, since: real)
    requires Suspended(host, sys, since) && sys.dev.out == "" && Left(sys) > 0
    requires |script| == 2 && script[0].faults == [ReadErrors(2)]
    requires AllUndisturbed([script[0].(faults := [])] + script[1..], since)
    ensures var r := Play(host, sys, script);
      !r.run.loop.running && r.run.fatal.None? && r.run.frames == sys.run.frames
  {
    hide Play, PlayOne, Clean, Healed, AllUndisturbed;
    ReadErrorsInARow(host, sys, 2, script, since);
    NothingIsClean(host.Fmt());
  }
}
