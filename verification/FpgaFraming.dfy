/**
 The framing of the FPGA receiver (drivers/sdr/fpga.py): each sweep is STX and one byte per channel. The payload
 may contain STX bytes; the reader must not take them for the start of a sweep.
 */
module FpgaFraming {
  import opened Wrappers

  const STX := 2

  /** The position of the first STX, or the length when there is none. */
  function Find(rx: seq<int>): (k: nat)
    ensures k <= |rx| && (k < |rx| ==> rx[k] == STX)
    ensures forall i :: 0 <= i < k ==> rx[i] != STX
  {
    if rx == [] || rx[0] == STX then 0 else 1 + Find(rx[1..])
  }

  predicate HasFrame(n: nat, rx: seq<int>) { Find(rx) + 1 + n <= |rx| }

  /** The first payload in the buffer. */
  function Payload(n: nat, rx: seq<int>): (p: seq<int>)
    requires HasFrame(n, rx)
    ensures |p| == n
  {
    rx[Find(rx) + 1..Find(rx) + 1 + n]
  }

  /** The buffer behind the first frame. */
  function Behind(n: nat, rx: seq<int>): (rest: seq<int>)
    requires HasFrame(n, rx)
    ensures |rest| < |rx|
  {
    rx[Find(rx) + 1 + n..]
  }

  /** All payloads of a byte string. */
  function Frames(n: nat, rx: seq<int>): seq<seq<int>>
    decreases |rx|
  {
    if HasFrame(n, rx) then [Payload(n, rx)] + Frames(n, Behind(n, rx)) else []
  }

  lemma FindInPrefix(a: seq<int>, b: seq<int>)
    requires Find(a) < |a|
    ensures Find(a + b) == Find(a)
  {
    var k, m := Find(a), Find(a + b);
    assert (a + b)[k] == STX;
    if m < k {
      assert a[m] == STX;
    }
  }

  /** A frame that has arrived is the first one, whatever follows it. */
  lemma FrameStays(n: nat, a: seq<int>, b: seq<int>)
    requires HasFrame(n, a)
    ensures HasFrame(n, a + b) && Payload(n, a + b) == Payload(n, a) && Behind(n, a + b) == Behind(n, a) + b
  {
    FindInPrefix(a, b);
  }

  // ---- Reader and device ----

  /** A connection that hands out what has arrived, chunk by chunk; an empty chunk is a read that timed out. */
  class Connection {
    var pending: seq<seq<int>>

    constructor (pending: seq<seq<int>>)
      ensures this.pending == pending
    {
      this.pending := pending;
    }

    method Read() returns (chunk: seq<int>)
      modifies this
      ensures old(pending) == [] ==> chunk == [] && pending == []
      ensures old(pending) != [] ==> chunk == old(pending)[0] && pending == old(pending)[1..]
    {
      if pending == [] {
        return [];
      }
      chunk := pending[0];
      pending := pending[1..];
    }
  }

  class FpgaSdrDriver {
    const connection: Connection
    const n: nat
    var rx: seq<int>

    constructor (connection: Connection, channels: nat)
      ensures this.connection == connection && n == channels && rx == []
    {
      this.connection, n, rx := connection, channels, [];
    }

    /** All that is buffered or still to arrive. */
    function Ahead(): seq<int>
      reads this, connection
    {
      rx + Flatten(connection.pending)
    }

    /** The next payload; nothing when a read comes back empty, and then nothing is lost either. */
    method ReadFrame() returns (frame: Option<seq<int>>)
      modifies this`rx, connection
      ensures frame.Some? ==> Frames(n, old(Ahead())) == [frame.value] + Frames(n, Ahead())
      ensures frame.None? ==> Ahead() == old(Ahead()) && !HasFrame(n, rx)
      ensures frame.None? ==> |connection.pending| < |old(connection.pending)| || connection.pending == []
      ensures |connection.pending| <= |old(connection.pending)|
    {
      while true
        invariant Ahead() == old(Ahead())
        invariant |connection.pending| <= |old(connection.pending)|
        decreases |connection.pending|
      {
        hide Frames;
        var stx := Find(rx);
        if stx < |rx| && |rx| - stx - 1 >= n {
          TakeFirst(n, rx, Flatten(connection.pending));
          var payload := Payload(n, rx);
          rx := Behind(n, rx);
          return Some(payload);
        }
        assert !HasFrame(n, rx);
        hide Find, HasFrame;
        ghost var chunks := connection.pending;
        var chunk := connection.Read();
        TakeChunk(rx, chunk, chunks, connection.pending);
        hide Flatten;
        if chunk == [] {
          return None;
        }
        rx := rx + chunk;
      }
    }

    /** The stream loop for a number of rounds: what it yields is what is missing from what lies ahead. */
    method Stream(rounds: nat) returns (frames: seq<seq<int>>)
      modifies this`rx, connection
      ensures frames + Frames(n, Ahead()) == Frames(n, old(Ahead()))
      ensures rounds >= |old(connection.pending)| + |Frames(n, old(Ahead()))| ==> frames == Frames(n, old(Ahead()))
    {
      hide Frames, HasFrame, Flatten;
      frames := [];
      ghost var all := Frames(n, Ahead());
      for k := 0 to rounds
        invariant frames + Frames(n, Ahead()) == all
        invariant |connection.pending| + |Frames(n, Ahead())| + k <= |old(connection.pending)| + |all|
                  || (connection.pending == [] && Frames(n, Ahead()) == [])
      {
        var frame := ReadFrame();
        if frame.Some? {
          assert frames + ([frame.value] + Frames(n, Ahead())) == frames + [frame.value] + Frames(n, Ahead());
          frames := frames + [frame.value];
        } else if connection.pending == [] {
          NothingAhead(n, rx, connection.pending);
        }
      }
      assert frames + [] == frames;
    }
  }

  lemma NothingAhead(n: nat, rx: seq<int>, pending: seq<seq<int>>)
    requires !HasFrame(n, rx) && pending == []
    ensures Frames(n, rx + Flatten(pending)) == []
  {
    assert rx + Flatten(pending) == rx;
  }

  lemma TakeFirst(n: nat, rx: seq<int>, tail: seq<int>)
    requires HasFrame(n, rx)
    ensures Frames(n, rx + tail) == [Payload(n, rx)] + Frames(n, Behind(n, rx) + tail)
  {
    FrameStays(n, rx, tail);
  }

  lemma TakeChunk(rx: seq<int>, chunk: seq<int>, before: seq<seq<int>>, after: seq<seq<int>>)
    requires if before == [] then chunk == [] && after == [] else chunk == before[0] && after == before[1..]
    ensures rx + Flatten(before) == rx + chunk + Flatten(after)
    ensures chunk == [] ==> Flatten(before) == Flatten(after)
  {
    if before != [] {
      assert rx + (chunk + Flatten(after)) == rx + chunk + Flatten(after);
      assert chunk == [] ==> chunk + Flatten(after) == Flatten(after);
    } else {
      assert rx + [] + Flatten(after) == rx + Flatten(before);
    }
  }

  // ---- The encoder, and the round trip ----

  function Encode(payloads: seq<seq<int>>): seq<int> {
    if payloads == [] then [] else [STX] + payloads[0] + Encode(payloads[1..])
  }

  predicate Uniform(n: nat, payloads: seq<seq<int>>) {
    forall i :: 0 <= i < |payloads| ==> |payloads[i]| == n
  }

  lemma FirstOfEncoded(n: nat, p: seq<int>, tail: seq<int>)
    requires |p| == n
    ensures var rx := [STX] + p + tail; HasFrame(n, rx) && Payload(n, rx) == p && Behind(n, rx) == tail
  {
    var rx := [STX] + p + tail;
    assert rx[0] == STX;
    assert rx[1..1 + n] == p && rx[1 + n..] == tail;
  }

  /** How many frames of one STX and `n` bytes are whole in `len` bytes. */
  function Whole(len: nat, n: nat): nat { if len <= n then 0 else 1 + Whole(len - n - 1, n) }

  /** Whatever part of an encoding has arrived, the payloads that are whole in it are read, in order, and no others. */
  lemma {:induction false} FramesOfEncoded(n: nat, payloads: seq<seq<int>>, arrived: seq<int>)
    requires Uniform(n, payloads) && arrived <= Encode(payloads)
    ensures Whole(|arrived|, n) <= |payloads|
    ensures Frames(n, arrived) == payloads[..Whole(|arrived|, n)]
    decreases |payloads|
  {
    hide HasFrame, Payload, Behind;
    if |arrived| <= n {
      TooShort(n, arrived);
    } else {
      var p, tail := payloads[0], arrived[n + 1..];
      PeelFrame(n, p, Encode(payloads[1..]), arrived);
      FirstOfEncoded(n, p, tail);
      FramesOfEncoded(n, payloads[1..], tail);
      assert Frames(n, arrived) == [p] + Frames(n, tail);
      hide Encode, Uniform, Frames;
      var m := Whole(|tail|, n);
      assert payloads[..m + 1] == [p] + payloads[1..][..m];
    }
  }

  lemma TooShort(n: nat, rx: seq<int>)
    requires |rx| <= n
    ensures !HasFrame(n, rx)
  {
  }

  lemma PeelFrame(n: nat, p: seq<int>, later: seq<int>, arrived: seq<int>)
    requires |p| == n && |arrived| > n && arrived <= [STX] + p + later
    ensures arrived == [STX] + p + arrived[n + 1..] && arrived[n + 1..] <= later
  {
    var all := [STX] + p + later;
    assert arrived == all[..|arrived|];
    assert all[..n + 1] == [STX] + p && all[n + 1..] == later;
  }

  lemma {:induction false} AllAreWhole(n: nat, payloads: seq<seq<int>>)
    requires Uniform(n, payloads)
    ensures Whole(|Encode(payloads)|, n) == |payloads|
  {
    if payloads != [] {
      AllAreWhole(n, payloads[1..]);
    }
  }

  /** The round trip: all payloads come back, even when they contain STX bytes. */
  lemma {:induction false} RoundTrip(n: nat, payloads: seq<seq<int>>)
    requires Uniform(n, payloads)
    ensures Frames(n, Encode(payloads)) == payloads
  {
    AllAreWhole(n, payloads);
    FramesOfEncoded(n, payloads, Encode(payloads));
  }

  /** Bytes in front of the first STX are skipped. */
  lemma {:induction false} NoiseIsSkipped(n: nat, noise: seq<int>, rx: seq<int>)
    requires forall i :: 0 <= i < |noise| ==> noise[i] != STX
    ensures Frames(n, noise + rx) == Frames(n, rx)
  {
    if noise == [] {
      assert noise + rx == rx;
    } else {
      NoiseIsSkipped(n, noise[1..], rx);
      assert (noise + rx)[1..] == noise[1..] + rx;
      SkipOne(n, noise + rx);
    }
  }

  lemma SkipOne(n: nat, rx: seq<int>)
    requires rx != [] && rx[0] != STX
    ensures Frames(n, rx) == Frames(n, rx[1..])
  {
    assert Find(rx) == 1 + Find(rx[1..]);
    if HasFrame(n, rx) {
      assert Payload(n, rx) == Payload(n, rx[1..]) && Behind(n, rx) == Behind(n, rx[1..]);
    }
  }

  /** The simulated device; `levels` are the power values of each sweep. */
  class SimulatedFpga {
    const n: nat
    const levels: nat -> seq<int>
    var out: seq<int>
    var running: bool
    var sweep: nat
    ghost var sent: seq<int>

    constructor (channels: nat, levels: nat -> seq<int>)
      requires forall k: nat :: |levels(k)| == channels
      ensures n == channels && this.levels == levels && Valid() && sent == [] && !running
    {
      n, this.levels, out, running, sweep, sent := channels, levels, [], false, 0, [];
      new;
      assert Swept() == [];
    }

    ghost function Swept(): seq<seq<int>>
      reads this
    {
      seq(sweep, k requires k >= 0 => levels(k))
    }

    /** What was sent and what waits is the encoding of the sweeps made so far. */
    ghost predicate Valid()
      reads this
    {
      (forall k: nat :: |levels(k)| == n) && sent + out == Encode(Swept())
    }

    method Write(start: bool, stop: bool)
      requires Valid()
      modifies this`running
      ensures Valid() && running == (if stop then false else old(running) || start)
    {
      if start {
        running := true;
      }
      if stop {
        running := false;
      }
    }

    /** A sweep is made only when nothing waits; at most `size` bytes leave. */
    method Read(size: nat) returns (chunk: seq<int>)
      requires Valid()
      modifies this`out, this`sweep, this`sent
      ensures Valid() && sent == old(sent) + chunk && |chunk| <= size
      ensures chunk == [] <==> size == 0 || (old(out) == [] && !running)
    {
      hide Encode;
      if running && out == [] {
        EncodeOneMore(Swept(), levels(sweep));
        ghost var before := Swept();
        assert sent + [] == sent;
        out := [STX] + levels(sweep);
        sweep := sweep + 1;
        assert Swept() == before + [levels(sweep - 1)];
      }
      var k := if size < |out| then size else |out|;
      chunk := out[..k];
      out := out[k..];
      sent := sent + chunk;
      assert sent + out == old(sent) + (chunk + out);
    }
  }

  lemma {:induction false} EncodeOneMore(payloads: seq<seq<int>>, p: seq<int>)
    ensures Encode(payloads + [p]) == Encode(payloads) + ([STX] + p)
  {
    if payloads == [] {
      assert payloads + [p] == [p] && [p][1..] == [];
    } else {
      assert (payloads + [p])[1..] == payloads[1..] + [p];
      EncodeOneMore(payloads[1..], p);
    }
  }

  /**
   Driver and device: whatever the device has sent, in whatever chunks, the driver's stream is the sweeps that were
   sent whole, in order, each once.
   */
  lemma StreamIsTheSweeps(device: SimulatedFpga, chunks: seq<seq<int>>)
    requires device.Valid() && Flatten(chunks) == device.sent
    ensures var whole := Whole(|device.sent|, device.n);
      whole <= device.sweep && Frames(device.n, [] + Flatten(chunks)) == device.Swept()[..whole]
  {
    assert [] + Flatten(chunks) == device.sent;
    FramesOfEncoded(device.n, device.Swept(), device.sent);
  }
}
