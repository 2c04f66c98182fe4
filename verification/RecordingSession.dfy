/**
 The record loop (services/acquisition.py) over the Callisto driver (drivers/callisto/driver.py) and the simulated
 receiver: what ends up in the files of a recording.
 */
module RecordingSession {
  import opened Wrappers
  import opened StreamParsing
  import opened SimulatedReceiver
  import opened StreamLoop
  import opened CallistoSession
  import opened ClosedLoop
  import A = Acquisition
  import C = CallistoDriving

  /** The sweeps of a stream as the frames that the record loop handles. */
  function Framed(sweeps: seq<seq<nat>>, stamp: nat -> int): (r: seq<A.Frame>)
    ensures |r| == |sweeps|
  {
    seq(|sweeps|, i requires 0 <= i < |sweeps| => A.Frame(stamp(i), sweeps[i]))
  }

  function ValuesOf(frames: seq<A.Frame>): seq<seq<int>> {
    Map((f: A.Frame) => f.values, frames)
  }

  lemma FramedValues(sweeps: seq<seq<nat>>, stamp: nat -> int)
    ensures ValuesOf(Framed(sweeps, stamp)) == sweeps
  {
  }

  /** A watchdog for eight bits or more passes every frame that is faithful. */
  lemma {:induction false} NothingIsFlagged(dog: Option<A.Watchdog>, frames: seq<A.Frame>)
    requires dog.Some? ==> dog.value.maxValue >= 255
    requires forall k, i :: 0 <= k < |frames| && 0 <= i < |frames[k].values| ==> 0 <= frames[k].values[i] <= 255
    ensures A.GoodCount(dog, frames) == |frames|
  {
    if frames != [] {
      NothingIsFlagged(dog, frames[1..]);
    }
  }

  lemma FaithfulFramesPass(host: Host, log: System, dog: Option<A.Watchdog>, stamp: nat -> int)
    requires Faithful(host, log) && (dog.Some? ==> dog.value.maxValue >= 255)
    ensures A.GoodCount(dog, Framed(log.run.frames, stamp)) == |log.run.frames|
  {
    hide A.GoodCount;
    var source: seq<nat> :| Drawn(host, log.run.frames, log.emitted, source);
    forall k, i | 0 <= k < |log.run.frames| && 0 <= i < |log.run.frames[k]|
      ensures log.run.frames[k][i] <= 255
    {
      assert EightBitsOf(host.firmware.data10bit, log.emitted[source[k]][i], log.run.frames[k][i]);
    }
    NothingIsFlagged(dog, Framed(log.run.frames, stamp));
  }

  /** How `frames` lie in the files: all of them in order, every file but the last one full. */
  predicate Filed(frames: seq<A.Frame>, products: seq<seq<A.Frame>>, perFile: nat) {
    && Flatten(products) == frames
    && A.RoundedUp(|frames|, perFile, |products|)
    && (forall i :: 0 <= i < |products| ==> 0 < |products[i]| <= perFile)
    && (forall i :: 0 <= i < |products| - 1 ==> |products[i]| == perFile)
  }

  /** A stream in which the watchdog finds nothing goes into the files as it is. */
  method FileStream(
    frames: seq<A.Frame>, ending: A.Ending, around: A.Surroundings, perFile: nat, dog: Option<A.Watchdog>)
    returns (r: A.Result)
    requires perFile >= 1 && A.GoodCount(dog, frames) == |frames|
    requires around.products == [] && around.published == []
    requires around.filesReported == 0 && around.lossesReported == 0
    modifies around
    ensures around.published == frames && Filed(frames, around.products, perFile)
    ensures around.filesReported == |around.products| && around.lossesReported == 0
    ensures r == if ending.Raises? then A.Failed else A.Recorded(|around.products|)
  {
    hide A.GoodCount, A.RoundedUp, Flatten, A.Slices;
    var stream := new A.Driver(frames, ending, None);
    assert frames[..|frames|] == frames;
    r := A.RecordContinuous(stream, around, perFile, dog);
  }

  /**
   One recording from the handshake to the last file: whatever faults the script holds, the files hold exactly the
   frames of the stream, each the image of one whole emitted sweep; the watchdog never cuts the recording short; and the
   recording fails exactly when the stream gives up, with everything until then in its files. The record loop is run
   over the finished stream; when the script is over, the operator stops it.
   */
  method RecordCallisto(
    driver: C.CallistoDriver, around: A.Surroundings, freqs: seq<real>, rate: real, perFile: nat,
    dog: Option<A.Watchdog>, polls: nat, level: nat -> nat, script: seq<Event>, start: real, stamp: nat -> int)
    returns (r: A.Result, ghost log: System)
    requires driver.Valid() && freqs != [] && polls >= 2 && perFile >= 1
    requires driver.conn.readErrors == 0
    requires |freqs| != 13200 || driver.conn.nchannels <= 0
    requires dog.Some? ==> dog.value.maxValue >= 255
    requires around.products == [] && around.published == []
    requires around.filesReported == 0 && around.lossesReported == 0
    modifies driver`rx, driver`running, driver`firmware, driver`nchannels, driver`sweepsPerSecond, driver.conn, around
    ensures driver.Valid() && !driver.running && driver.nchannels == |freqs|
    ensures C.PlaysOut(driver.Settings(), old(driver.conn.Current()), start, script, log)
    ensures Faithful(driver.Settings(), log)
    ensures ValuesOf(around.published) == log.run.frames && Filed(around.published, around.products, perFile)
    ensures around.filesReported == |around.products| && around.lossesReported == 0
    ensures r == if log.run.fatal.Some? then A.Failed else A.Recorded(|around.products|)
  {
    hide C.PlaysOut, Faithful, A.GoodCount, A.RoundedUp, Flatten;
    var sweeps, fatal;
    sweeps, fatal, log := C.Session(driver, freqs, rate, polls, level, script, start);
    ghost var host := driver.Settings();
    FaithfulFramesPass(host, log, dog, stamp);
    FramedValues(sweeps, stamp);
    hide *;
    r := FileStream(Framed(sweeps, stamp), if fatal.Some? then A.Raises else A.Exhausted, around, perFile, dog);
    driver.Stop();
    driver.Close();
  }
}
