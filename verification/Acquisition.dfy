/**
 The record loop (services/acquisition.py) and the watchdog it asks (services/watchdog.py): one stream
 cut into files, flushed on every ending. Drivers and writers are the loop's surroundings: a driver
 here is any finite stream with any ending, a writer keeps the products it is given.
 */
module Acquisition {
  import opened Wrappers
  import StreamParsing
  import BatchDecoding

  /** A spectrum; only the values matter to the loop. */
  datatype Frame = Frame(stamp: int, values: seq<int>)

  datatype Watchdog = Watchdog(maxValue: int) {
    /** Some value lies outside the product range. */
    predicate Flags(values: seq<int>) {
      exists i :: 0 <= i < |values| && (values[i] < 0 || values[i] > maxValue)
    }

    method Check(values: seq<int>) returns (corrupt: bool)
      ensures corrupt <==> Flags(values)
    {
      for i := 0 to |values|
        invariant forall j :: 0 <= j < i ==> 0 <= values[j] <= maxValue
      {
        if values[i] < 0 || values[i] > maxValue {
          return true;
        }
      }
      return false;
    }
  }

  /** The watchdog of the record loop never fires on sweeps of the Callisto parser, whatever bytes it was fed. */
  lemma {:induction false} WatchdogIsSilentOnCallisto(
    fmt: StreamParsing.Format, st: StreamParsing.State, data: string, k: nat)
    requires fmt.Valid() && st.Valid(fmt)
    requires k < |BatchDecoding.SweepsOf(StreamParsing.Decode(fmt, st, data).items)|
    ensures !Watchdog(255).Flags(BatchDecoding.SweepsOf(StreamParsing.Decode(fmt, st, data).items)[k])
  {
    var items := StreamParsing.Decode(fmt, st, data).items;
    StreamParsing.SweepsAreWhole(fmt, st, data);
    var i := SweepComesFromItem(items, k);
    assert items[i] in items;
  }

  lemma {:induction false} SweepComesFromItem(items: seq<StreamParsing.Item>, k: nat) returns (i: nat)
    requires k < |BatchDecoding.SweepsOf(items)|
    ensures i < |items| && items[i].Sweep? && items[i].values == BatchDecoding.SweepsOf(items)[k]
  {
    if items[0].Sweep? && k == 0 {
      i := 0;
    } else {
      i := SweepComesFromItem(items[1..], if items[0].Sweep? then k - 1 else k);
      i := i + 1;
    }
  }

  predicate Bad(dog: Option<Watchdog>, frame: Frame) {
    dog.Some? && dog.value.Flags(frame.values)
  }

  /** How many frames precede the first one the watchdog flags. */
  function GoodCount(dog: Option<Watchdog>, frames: seq<Frame>): (k: nat)
    ensures k <= |frames|
    ensures forall i :: 0 <= i < k ==> !Bad(dog, frames[i])
    ensures k < |frames| ==> Bad(dog, frames[k])
  {
    if frames == [] || Bad(dog, frames[0]) then 0 else 1 + GoodCount(dog, frames[1..])
  }

  /** The good frames are those in front of the first one with a value outside 0 to the watchdog's limit. */
  lemma GoodUntilOutOfRange(dog: Option<Watchdog>, frames: seq<Frame>, k: nat)
    requires k < |frames|
    ensures var good := GoodCount(dog, frames);
      && (dog.None? ==> k < good)
      && (dog.Some? && k < good ==> forall v <- frames[k].values :: 0 <= v && v <= dog.value.maxValue)
      && (k == good ==> dog.Some? && exists v <- frames[k].values :: v < 0 || v > dog.value.maxValue)
  {
    var values := frames[k].values;
    if k == GoodCount(dog, frames) {
      var i :| 0 <= i < |values| && (values[i] < 0 || values[i] > dog.value.maxValue);
      assert values[i] in values;
    }
  }

  /** How a stream ends when all its frames have been taken. */
  datatype Ending = Exhausted | Raises

  /** The calls of the handshake; each may fail. */
  datatype Stage = Connecting | Identifying | Configuring | Starting

  datatype Pull = Yield(frame: Frame) | End | Fault

  /** Any instrument: a stream that gives `frames` and then ends as `ending` says. */
  class Driver {
    const frames: seq<Frame>
    const ending: Ending
    const refuses: Option<Stage>
    var pos: nat
    var stops: nat
    var closes: nat

    constructor (frames: seq<Frame>, ending: Ending, refuses: Option<Stage>)
      ensures this.frames == frames && this.ending == ending && this.refuses == refuses
      ensures pos == 0 && stops == 0 && closes == 0
    {
      this.frames, this.ending, this.refuses := frames, ending, refuses;
      pos, stops, closes := 0, 0, 0;
    }

    /** Connect, identify, configure, start: true when all of them pass. */
    method Handshake() returns (ok: bool)
      ensures ok == refuses.None?
    {
      ok := refuses.None?;
    }

    method Next() returns (p: Pull)
      requires pos <= |frames|
      modifies `pos
      ensures old(pos) < |frames| ==> p == Yield(frames[old(pos)]) && pos == old(pos) + 1
      ensures old(pos) == |frames| ==> p == (if ending.Raises? then Fault else End) && pos == old(pos)
    {
      if pos < |frames| {
        p := Yield(frames[pos]);
        pos := pos + 1;
      } else {
        p := if ending.Raises? then Fault else End;
      }
    }

    method Stop()
      modifies `stops
      ensures stops == old(stops) + 1
    {
      stops := stops + 1;
    }

    method Close()
      modifies `closes
      ensures closes == old(closes) + 1
    {
      closes := closes + 1;
    }
  }

  /**
   What the loop does to its surroundings besides the driver: products written, frames published, files and data loss
   reported.
   */
  class Surroundings {
    var products: seq<seq<Frame>>
    var published: seq<Frame>
    var filesReported: nat
    var lossesReported: nat

    constructor ()
      ensures products == [] && published == [] && filesReported == 0 && lossesReported == 0
    {
      products, published, filesReported, lossesReported := [], [], 0, 0;
    }

    method OnFrame(frame: Frame)
      modifies `published
      ensures published == old(published) + [frame]
    {
      published := published + [frame];
    }

    method OnDataLoss()
      modifies `lossesReported
      ensures lossesReported == old(lossesReported) + 1
    {
      lossesReported := lossesReported + 1;
    }

    method Write(frames: seq<Frame>)
      modifies `products
      ensures products == old(products) + [frames]
    {
      products := products + [frames];
    }

    method OnFile()
      modifies `filesReported
      ensures filesReported == old(filesReported) + 1
    {
      filesReported := filesReported + 1;
    }
  }

  /** `s` in pieces of `n`, the last one shorter if need be. */
  function Slices(s: seq<Frame>, n: nat): seq<seq<Frame>>
    requires n >= 1
  {
    if s == [] then [] else if |s| <= n then [s] else [s[..n]] + Slices(s[n..], n)
  }

  /** Why a batch is over. */
  datatype BatchEnd = Full | Flagged | Ended | Raised

  /** What one batch from `pos` on collects. */
  function Batch(dog: Option<Watchdog>, frames: seq<Frame>, pos: nat, n: nat): (k: nat)
    requires pos <= |frames|
    ensures k <= n && pos + k <= |frames|
  {
    var good := GoodCount(dog, frames[pos..]);
    if good < n then good else n
  }

  /** Why it ends there. */
  function WhyOver(dog: Option<Watchdog>, frames: seq<Frame>, pos: nat, n: nat, ending: Ending): BatchEnd
    requires pos <= |frames|
  {
    var good := GoodCount(dog, frames[pos..]);
    if good >= n then Full
    else if pos + good < |frames| then Flagged
    else if ending.Raises? then Raised
    else Ended
  }

  /** Takes up to `n` frames off the stream; a flagged frame, the end of the stream or a fault ends the batch. */
  method CollectBatch(driver: Driver, around: Surroundings, n: nat, dog: Option<Watchdog>)
    returns (collected: seq<Frame>, over: BatchEnd)
    requires driver.pos <= |driver.frames|
    modifies driver`pos, around`published, around`lossesReported
    ensures driver.pos <= |driver.frames|
    ensures var k := Batch(dog, driver.frames, old(driver.pos), n);
      && collected == driver.frames[old(driver.pos)..old(driver.pos) + k]
      && (over.Full? ==> driver.pos == old(driver.pos) + k)
    ensures over == WhyOver(dog, driver.frames, old(driver.pos), n, driver.ending)
    ensures around.published == old(around.published) + collected
    ensures around.lossesReported == old(around.lossesReported) + if over.Flagged? then 1 else 0
  {
    hide Watchdog.Flags, GoodCount;
    collected, over := [], Full;
    ghost var from, frames := driver.pos, driver.frames;
    while |collected| < n && over.Full?
      invariant driver.pos <= |frames|
      invariant from + |collected| <= |frames| && collected == frames[from..from + |collected|]
      invariant |collected| <= n && |collected| <= GoodCount(dog, frames[from..])
      invariant over.Full? ==> driver.pos == from + |collected|
      invariant !over.Full? ==>
        |collected| == GoodCount(dog, frames[from..]) < n && over == WhyOver(dog, frames, from, n, driver.ending)
      invariant around.published == old(around.published) + collected
      invariant around.lossesReported == old(around.lossesReported) + if over.Flagged? then 1 else 0
      decreases over.Full?, n - |collected|
    {
      var p := driver.Next();
      match p
      case End => over := Ended;
      case Fault => over := Raised;
      case Yield(frame) =>
        assert frame == frames[from..][|collected|];
        var corrupt := false;
        if dog.Some? {
          corrupt := dog.value.Check(frame.values);
        }
        if corrupt {
          around.OnDataLoss();
          over := Flagged;
        } else {
          around.OnFrame(frame);
          collected := collected + [frame];
        }
    }
  }

  /** What `record_continuous` ends with: the paths of its files, a fault that goes on to the caller, or a refusal. */
  datatype Result = Recorded(files: nat) | Failed | InvalidSize

  /** Records until the stream ends, one file for every `framesPerFile` frames. */
  method RecordContinuous(driver: Driver, around: Surroundings, framesPerFile: int, dog: Option<Watchdog>)
    returns (r: Result)
    requires driver.pos == 0 && around.products == [] && around.published == []
    requires around.filesReported == 0 && around.lossesReported == 0
    modifies driver, around
    ensures framesPerFile < 1 ==>
      && r == InvalidSize && around.products == []
      && driver.stops == old(driver.stops) && driver.closes == old(driver.closes)
    ensures framesPerFile >= 1 ==> driver.stops == old(driver.stops) + 1 && driver.closes == old(driver.closes) + 1
    ensures framesPerFile >= 1 && driver.refuses.Some? ==> r == Failed && around.products == []
    ensures framesPerFile >= 1 && driver.refuses.None? ==>
      var good := GoodCount(dog, driver.frames);
      && around.products == Slices(driver.frames[..good], framesPerFile)
      && Flatten(around.products) == driver.frames[..good] && RoundedUp(good, framesPerFile, |around.products|)
      && (forall i :: 0 <= i < |around.products| ==> 0 < |around.products[i]| <= framesPerFile)
      && (forall i :: 0 <= i < |around.products| - 1 ==> |around.products[i]| == framesPerFile)
      && around.published == driver.frames[..good]
      && around.filesReported == |around.products|
      && around.lossesReported == (if good < |driver.frames| then 1 else 0)
      && r == if good == |driver.frames| && driver.ending.Raises? then Failed else Recorded(|around.products|)
  {
    if framesPerFile < 1 {
      return InvalidSize;
    }
    var n: nat := framesPerFile;
    var ok := driver.Handshake();
    if !ok {
      driver.Stop();
      driver.Close();
      return Failed;
    }
    ghost var frames, good := driver.frames, GoodCount(dog, driver.frames);
    var over := Full;
    assert frames[0..good] == frames[..good];
    while over.Full?
      modifies driver`pos, around
      invariant Progress(driver, around, n, dog, over)
      decreases over.Full?, good - driver.pos
    {
      over := RecordBatch(driver, around, n, dog);
    }
    driver.Stop();
    driver.Close();
    SlicesConserve(frames[..good], n);
    hide Flatten, RoundedUp;
    r := if over.Raised? then Failed else Recorded(|around.products|);
  }

  /** Where the continuous recording stands between two batches. */
  ghost predicate Progress(driver: Driver, around: Surroundings, n: nat, dog: Option<Watchdog>, over: BatchEnd)
    requires n >= 1
    reads driver, around
  {
    && driver.pos <= |driver.frames|
    && around.filesReported == |around.products|
    && Stands(driver.frames, driver.ending, GoodCount(dog, driver.frames), n, driver.pos, around.products,
              around.published, around.lossesReported, over)
  }

  ghost predicate Stands(
    frames: seq<Frame>, ending: Ending, good: nat, n: nat, pos: nat,
    products: seq<seq<Frame>>, published: seq<Frame>, losses: nat, over: BatchEnd)
    requires n >= 1 && good <= |frames| && pos <= |frames|
  {
    if over.Full? then
      && pos <= good
      && products + Slices(frames[pos..good], n) == Slices(frames[..good], n)
      && published == frames[..pos]
      && losses == 0
    else
      && products == Slices(frames[..good], n)
      && published == frames[..good]
      && losses == (if good < |frames| then 1 else 0)
      && over == (if good < |frames| then Flagged else if ending.Raises? then Raised else Ended)
  }

  /** The flush of a batch: nothing is written when nothing was collected. */
  method Flush(around: Surroundings, collected: seq<Frame>)
    modifies around`products, around`filesReported
    ensures around.products == old(around.products) + FileOf(collected)
    ensures around.filesReported == old(around.filesReported) + |FileOf(collected)|
  {
    if collected != [] {
      around.Write(collected);
      around.OnFile();
    }
  }

  function FileOf(collected: seq<Frame>): seq<seq<Frame>> {
    if collected == [] then [] else [collected]
  }

  /** One batch: collect, and flush what was collected, however the batch ended. */
  method RecordBatch(driver: Driver, around: Surroundings, n: nat, dog: Option<Watchdog>) returns (over: BatchEnd)
    requires n >= 1 && Progress(driver, around, n, dog, Full)
    modifies driver`pos, around
    ensures Progress(driver, around, n, dog, over)
    ensures over.Full? ==> driver.pos > old(driver.pos)
  {
    hide Stands, FileOf, GoodCount, Batch, WhyOver;
    ghost var from, products, published := driver.pos, around.products, around.published;
    ghost var losses := around.lossesReported;
    var collected;
    collected, over := CollectBatch(driver, around, n, dog);
    BatchAdvances(
      dog, driver.frames, driver.ending, n, from, products, published, losses, collected, over, driver.pos);
    Flush(around, collected);
  }

  /** A batch in terms of all good frames of the stream. */
  lemma BatchInTerms(dog: Option<Watchdog>, frames: seq<Frame>, from: nat, n: nat, ending: Ending)
    requires from <= GoodCount(dog, frames)
    ensures var good := GoodCount(dog, frames);
      && Batch(dog, frames, from, n) == (if good - from < n then good - from else n)
      && WhyOver(dog, frames, from, n, ending)
         == if good - from >= n then Full else if good < |frames| then Flagged
            else if ending.Raises? then Raised else Ended
  {
    GoodCountDrop(dog, frames, from);
  }

  /** How a batch moves the recording on; `pos` is where the driver stands after it. */
  lemma BatchAdvances(
    dog: Option<Watchdog>, frames: seq<Frame>, ending: Ending, n: nat, from: nat, products: seq<seq<Frame>>,
    published: seq<Frame>, losses: nat, collected: seq<Frame>, over: BatchEnd, pos: nat)
    requires n >= 1 && from <= |frames| && pos <= |frames|
    requires Stands(frames, ending, GoodCount(dog, frames), n, from, products, published, losses, Full)
    requires collected == frames[from..from + Batch(dog, frames, from, n)]
    requires over == WhyOver(dog, frames, from, n, ending) && (over.Full? ==> pos == from + |collected|)
    ensures Stands(frames, ending, GoodCount(dog, frames), n, pos, products + FileOf(collected), published + collected,
                   losses + (if over.Flagged? then 1 else 0), over)
    ensures over.Full? ==> |collected| == n
  {
    hide Slices, FileOf, GoodCount, Batch, WhyOver;
    BatchInTerms(dog, frames, from, n, ending);
    StandsAfter(frames, ending, GoodCount(dog, frames), n, from, products, |collected|);
    assert published == frames[..from];
  }

  /** The same with the number of good frames given, `k` of them in the batch. */
  lemma StandsAfter(
    frames: seq<Frame>, ending: Ending, good: nat, n: nat, from: nat, products: seq<seq<Frame>>, k: nat)
    requires n >= 1 && from <= good <= |frames| && k == if good - from < n then good - from else n
    requires products + Slices(frames[from..good], n) == Slices(frames[..good], n)
    ensures var collected := frames[from..from + k];
      var now, later := products + FileOf(collected), Slices(frames[from + k..good], n);
      && frames[..from] + collected == frames[..from + k]
      && now + later == Slices(frames[..good], n)
      && (from + k == good ==> now == Slices(frames[..good], n))
  {
    NextSlice(frames, from, good, k, n);
    hide Slices, FileOf;
    var collected := frames[from..from + k];
    SlicesAdvance(products, collected, Slices(frames[from..good], n), Slices(frames[from + k..good], n));
    assert frames[..from] + collected == frames[..from + k];
  }

  lemma SlicesAdvance(before: seq<seq<Frame>>, collected: seq<Frame>, whole: seq<seq<Frame>>, later: seq<seq<Frame>>)
    requires whole == FileOf(collected) + later
    ensures (before + FileOf(collected)) + later == before + whole
    ensures later == [] ==> before + FileOf(collected) == before + whole
  {
  }

  /** The slices from `from` on begin with the batch that was collected there. */
  lemma NextSlice(frames: seq<Frame>, from: nat, good: nat, k: nat, n: nat)
    requires n >= 1 && from + k <= good <= |frames| && (k == n || (k < n && from + k == good))
    ensures Slices(frames[from..good], n) == FileOf(frames[from..from + k]) + Slices(frames[from + k..good], n)
    ensures from + k == good ==> Slices(frames[from + k..good], n) == []
  {
    var s := frames[from..good];
    if k == n {
      SliceOff(s, n);
      assert s[..n] == frames[from..from + k] && s[n..] == frames[from + k..good];
    } else if k > 0 {
      SliceOff(s, n);
      assert frames[from..from + k] == s;
    }
  }

  lemma {:induction false} GoodCountDrop(dog: Option<Watchdog>, frames: seq<Frame>, k: nat)
    requires k <= GoodCount(dog, frames)
    ensures GoodCount(dog, frames[k..]) == GoodCount(dog, frames) - k
    decreases k
  {
    if k == 0 {
      assert frames[0..] == frames;
    } else {
      GoodCountDrop(dog, frames[1..], k - 1);
      assert frames[1..][k - 1..] == frames[k..];
    }
  }

  /** Taking one full slice off the front. */
  lemma SliceOff(s: seq<Frame>, n: nat)
    requires n >= 1
    ensures |s| >= n ==> Slices(s, n) == [s[..n]] + Slices(s[n..], n)
    ensures 0 < |s| < n ==> Slices(s, n) == [s]
  {
    if |s| == n {
      assert s[..n] == s && s[n..] == [];
    }
  }

  /**
   Conservation: the slices put together are the frames, none is empty, every one but the last is
   full, and there are as many as the quotient rounded up.
   */
  lemma {:induction false} SlicesConserve(s: seq<Frame>, n: nat)
    requires n >= 1
    ensures var files := Slices(s, n);
      && Flatten(files) == s
      && (forall i :: 0 <= i < |files| ==> 0 < |files[i]| <= n)
      && (forall i :: 0 <= i < |files| - 1 ==> |files[i]| == n)
      && RoundedUp(|s|, n, |files|)
    decreases |s|
  {
    if s == [] {
      assert 0 * n == 0;
    } else if |s| <= n {
      var none := [s][1..];
      assert none == [] && Flatten([s]) == s + Flatten(none);
      assert s + [] == s && 1 * n == n && 0 * n == 0;
    } else {
      SlicesConserve(s[n..], n);
      var files, later := Slices(s, n), Slices(s[n..], n);
      assert files[1..] == later;
      assert s == s[..n] + s[n..];
      OneMoreFile(|s|, n, |later|);
    }
  }

  /** `files` is the quotient of `frames` by `n`, rounded up. */
  predicate RoundedUp(frames: nat, n: nat, files: nat) {
    frames <= files * n && (files > 0 ==> (files - 1) * n < frames)
  }

  lemma OneMoreFile(frames: nat, n: nat, files: nat)
    requires frames > n >= 1 && RoundedUp(frames - n, n, files)
    ensures RoundedUp(frames, n, files + 1)
  {
    assert (files + 1) * n == files * n + n;
    assert files > 0 ==> (files - 1) * n == files * n - n;
  }

  /** What `record` ends with. */
  datatype SingleResult = Written(frames: seq<Frame>) | DataLoss | Raising | InvalidLimit

  /**
   Records at most `maxFrames` frames into one product; unlike the continuous loop it loses what it has when the
   stream raises.
   */
  method Record(driver: Driver, around: Surroundings, maxFrames: int, dog: Option<Watchdog>) returns (r: SingleResult)
    requires driver.pos == 0 && around.products == []
    modifies driver, around
    ensures maxFrames < 1 ==>
      r == InvalidLimit && driver.stops == old(driver.stops) && driver.closes == old(driver.closes)
    ensures maxFrames >= 1 ==> driver.stops == old(driver.stops) + 1 && driver.closes == old(driver.closes) + 1
    ensures maxFrames >= 1 && driver.refuses.Some? ==> r == Raising
    ensures maxFrames >= 1 && driver.refuses.None? ==>
      var good := GoodCount(dog, driver.frames);
      var taken := driver.frames[..if good < maxFrames then good else maxFrames];
      r == if good == |driver.frames| < maxFrames && driver.ending.Raises? then Raising
           else if taken == [] then DataLoss else Written(taken)
    ensures around.products == if r.Written? then [r.frames] else []
  {
    if maxFrames < 1 {
      return InvalidLimit;
    }
    var ok := driver.Handshake();
    var collected, over := [], Raised;
    if ok {
      assert driver.frames[0..] == driver.frames;
      collected, over := CollectBatch(driver, around, maxFrames, dog);
    }
    driver.Stop();
    driver.Close();
    if over.Raised? {
      return Raising;
    }
    if collected == [] {
      return DataLoss;
    }
    around.Write(collected);
    r := Written(collected);
  }
}
