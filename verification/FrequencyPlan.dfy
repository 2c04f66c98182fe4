/**
 Channel placement around an excluded band (services/freqgen.py), in exact arithmetic. The method
 loops as the source does; `Pick` is the unsnapped frequency of each channel.
 */
module FrequencyPlan {
  import opened Wrappers
  import opened Decimal
  import opened CallistoProtocol

  datatype Point = Point(freq: real, amplitude: real)

  datatype Mode = Quiet | Even

  /** A half-open band `[lo, hi)`. */
  datatype Band = Band(lo: real, hi: real)

  /** To the nearest multiple of the synthesizer step, halves to the even one. */
  function Snap(freq: real): real {
    RoundHalfEven(freq / SYNTHESIZER_RESOLUTION) as real * SYNTHESIZER_RESOLUTION
  }

  predicate Excluded(band: Option<Band>, freq: real) {
    band.Some? && band.value.lo <= freq < band.value.hi
  }

  predicate OnGrid(freq: real) {
    (freq * 16.0).Floor as real == freq * 16.0
  }

  function Larger(a: real, b: real): real { if a < b then b else a }

  function Smaller(a: real, b: real): real { if a < b then a else b }

  /** The width that the exclusion takes out of the band. */
  function ExcludedWidth(band: Option<Band>, start: real, stop: real): (w: real)
    ensures w >= 0.0
  {
    if band.None? then 0.0
    else Larger(0.0, Smaller(band.value.hi, stop) - Larger(band.value.lo, start))
  }

  /** The exclusion leaves nothing of `[start, stop)`. */
  predicate Covers(band: Option<Band>, start: real, stop: real) {
    band.Some? && band.value.lo <= start && stop <= band.value.hi
  }

  /** A generation request that the source accepts. */
  datatype Request = Request(
    overview: seq<Point>, start: real, stop: real, channels: int, mode: Mode, exclude: Option<Band>, pinned: int) {
    predicate Accepted() {
      channels >= 1 && start < stop && 0 <= pinned < channels
    }

    /** The channels that are not pinned to the start. */
    function Linear(): int { channels - pinned }

    function Step(): real
      requires Accepted()
    {
      (stop - start - ExcludedWidth(exclude, start, stop)) / Linear() as real
    }
  }

  /** The points of the bin `[lo, hi)` outside the exclusion. */
  function Window(points: seq<Point>, lo: real, hi: real, band: Option<Band>): (w: seq<Point>)
    ensures forall p <- w :: p in points && lo <= p.freq < hi && !Excluded(band, p.freq)
  {
    if points == [] then []
    else
      var p := points[0];
      (if lo <= p.freq < hi && !Excluded(band, p.freq) then [p] else []) + Window(points[1..], lo, hi, band)
  }

  /** The first point of least amplitude. */
  function Quietest(points: seq<Point>): (q: Point)
    requires points != []
    ensures q in points
    ensures forall p <- points :: q.amplitude <= p.amplitude
  {
    if |points| == 1 then points[0]
    else
      var q := Quietest(points[1..]);
      if points[0].amplitude <= q.amplitude then points[0] else q
  }

  /** The frequency recorded for the bin `[lo, lo + step)`, before it is snapped. */
  function Selected(points: seq<Point>, r: Request, lo: real): real
    requires r.Accepted()
  {
    var window := Window(points, lo, lo + r.Step(), r.exclude);
    if r.mode.Even? || window == [] then lo else Quietest(window).freq
  }

  /** Where the bin starts: past the exclusion, if it would start inside. */
  function SkipGap(r: Request, freq: real): real {
    if Excluded(r.exclude, freq) then r.exclude.value.hi else freq
  }

  /** Points sorted as the source sorts pairs: by frequency, then by amplitude. */
  predicate Before(a: Point, b: Point) {
    a.freq < b.freq || (a.freq == b.freq && a.amplitude <= b.amplitude)
  }

  function Insert(p: Point, points: seq<Point>): seq<Point> {
    if points == [] || Before(p, points[0]) then [p] + points else [points[0]] + Insert(p, points[1..])
  }

  function SortedPoints(points: seq<Point>): seq<Point> {
    if points == [] then [] else Insert(points[0], SortedPoints(points[1..]))
  }

  /** What one bin yields: a selection in the bin, outside the exclusion, and the next bin after it. */
  lemma SelectionInBin(points: seq<Point>, r: Request, freq: real)
    requires r.Accepted() && !Covers(r.exclude, r.start, r.stop)
    ensures var lo := SkipGap(r, freq);
      && r.Step() > 0.0
      && lo <= Selected(points, r, lo) < lo + r.Step()
      && !Excluded(r.exclude, Selected(points, r, lo))
      && freq <= lo
  {
    StepIsPositive(r);
    var lo := SkipGap(r, freq);
    var window := Window(points, lo, lo + r.Step(), r.exclude);
    if window != [] {
      assert Quietest(window) in window;
    }
  }

  lemma StepIsPositive(r: Request)
    requires r.Accepted()
    ensures r.Step() > 0.0 <==> !Covers(r.exclude, r.start, r.stop)
    ensures r.Step() * r.Linear() as real == r.stop - r.start - ExcludedWidth(r.exclude, r.start, r.stop)
    ensures Covers(r.exclude, r.start, r.stop) ==> r.Step() == 0.0
  {
    var n := r.Linear() as real;
    var w := r.stop - r.start - ExcludedWidth(r.exclude, r.start, r.stop);
    assert n >= 1.0;
    assert w > 0.0 <==> !Covers(r.exclude, r.start, r.stop);
    assert (w / n) * n == w;
    assert w >= 0.0;
    assert w / n > 0.0 <==> w > 0.0;
  }

  /** The unsnapped frequencies of the bins from number `k` on, the first of them starting at `freq`. */
  function Picks(points: seq<Point>, r: Request, k: int, freq: real): (picks: seq<real>)
    requires r.Accepted() && 0 <= k <= r.Linear()
    ensures |picks| == r.Linear() - k
    decreases r.Linear() - k
  {
    if k == r.Linear() then []
    else
      var lo := SkipGap(r, freq);
      [Selected(points, r, lo)] + Picks(points, r, k + 1, lo + r.Step())
  }

  /** The unsnapped frequencies of a request. */
  function AllPicks(r: Request): seq<real>
    requires r.Accepted()
  {
    Picks(SortedPoints(r.overview), r, 0, r.start)
  }

  /** The plan: the pinned channels, then the snapped picks. */
  function Plan(r: Request): (plan: seq<real>)
    requires r.Accepted()
    ensures |plan| == r.channels
  {
    seq(r.pinned, i => Snap(r.start)) + Map(Snap, AllPicks(r))
  }

  lemma SnapOneMore(pinned: seq<real>, picks: seq<real>, k: nat)
    requires k < |picks|
    ensures pinned + Map(Snap, picks[..k]) + [Snap(picks[k])] == pinned + Map(Snap, picks[..k + 1])
  {
    assert Map(Snap, picks[..k]) + [Snap(picks[k])] == Map(Snap, picks[..k + 1]);
  }

  /** The bin edge, or in quiet mode the quietest point of the bin that is not excluded. */
  method SelectInBin(points: seq<Point>, r: Request, lo: real, step: real) returns (selected: real)
    requires r.Accepted() && step == r.Step()
    ensures selected == Selected(points, r, lo)
  {
    selected := lo;
    if r.mode.Quiet? {
      var window := Window(points, lo, lo + step, r.exclude);
      if window != [] {
        selected := Quietest(window).freq;
      }
    }
  }

  method GenerateFrequencies(r: Request) returns (result: Option<seq<real>>)
    ensures result == if r.Accepted() then Some(Plan(r)) else None
  {
    if r.channels < 1 || r.stop <= r.start || !(0 <= r.pinned < r.channels) {
      return None;
    }
    hide Snap, Selected, ExcludedWidth;
    var points := SortedPoints(r.overview);
    var plan := seq(r.pinned, i => Snap(r.start));
    ghost var pinned, picks := plan, AllPicks(r);
    var linear := r.channels - r.pinned;
    var step := (r.stop - r.start - ExcludedWidth(r.exclude, r.start, r.stop)) / linear as real;
    var freq := r.start;
    for k := 0 to linear
      invariant plan == pinned + Map(Snap, picks[..k])
      invariant Picks(points, r, k, freq) == picks[k..]
    {
      if Excluded(r.exclude, freq) {
        freq := r.exclude.value.hi;
      }
      var selected := SelectInBin(points, r, freq, step);
      assert selected == picks[k..][0] == picks[k] && picks[k..][1..] == picks[k + 1..];
      SnapOneMore(pinned, picks, k);
      plan := plan + [Snap(selected)];
      freq := freq + step;
    }
    assert picks[..linear] == picks;
    result := Some(plan);
  }

  // ---- Where the picks lie ----

  /** How far the bins have come after `k` of them: the gap is still ahead or irrelevant, or has been skipped. */
  predicate Position(r: Request, k: int, freq: real)
    requires r.Accepted()
  {
    r.start <= freq && Reached(r, BinStart(r, k), freq)
  }

  /** Where bin `k` starts when nothing is skipped. */
  function BinStart(r: Request, k: int): real
    requires r.Accepted()
  {
    r.start + k as real * r.Step()
  }

  /** The bin that would start at `at` starts at `freq`, perhaps behind the gap. */
  predicate Reached(r: Request, at: real, freq: real) {
    || freq == at
    || (r.exclude.Some? && r.exclude.value.hi <= freq <= at + ExcludedWidth(r.exclude, r.start, r.stop))
  }

  lemma BinEnd(r: Request, k: int)
    requires r.Accepted() && 0 <= k < r.Linear() && !Covers(r.exclude, r.start, r.stop)
    ensures BinStart(r, k + 1) == BinStart(r, k) + r.Step() && BinStart(r, k) >= r.start
    ensures BinStart(r, k + 1) + ExcludedWidth(r.exclude, r.start, r.stop) <= r.stop
  {
    StepIsPositive(r);
    var step := r.Step();
    assert (k + 1) as real <= r.Linear() as real;
    assert (r.Linear() as real - (k + 1) as real) * step >= 0.0;
    assert (r.Linear() as real - (k + 1) as real) * step == r.Linear() as real * step - (k + 1) as real * step;
  }

  /** A bin that would start in the gap starts at its end, and never ends past the band. */
  lemma BinInBand(r: Request, k: int, freq: real)
    requires r.Accepted() && !Covers(r.exclude, r.start, r.stop) && 0 <= k < r.Linear() && Position(r, k, freq)
    ensures var lo := SkipGap(r, freq);
      && r.start <= lo && lo + r.Step() <= r.stop
      && Position(r, k + 1, lo + r.Step())
  {
    BinEnd(r, k);
    StepIsPositive(r);
    hide Request.Step, BinStart, Reached, ExcludedWidth, SkipGap;
    SkippedBin(r, BinStart(r, k), r.Step(), freq);
  }

  /** The same for a bin of any width that would start at `at`. */
  lemma SkippedBin(r: Request, at: real, step: real, freq: real)
    requires r.start <= at && step > 0.0 && at + step + ExcludedWidth(r.exclude, r.start, r.stop) <= r.stop
    requires r.start <= freq && Reached(r, at, freq)
    ensures var lo := SkipGap(r, freq);
      r.start <= lo && lo + step <= r.stop && Reached(r, at + step, lo + step)
  {
  }

  /** Every pick lies in the band, not before `from`, outside the exclusion, and the picks never decrease. */
  predicate WellPlaced(picks: seq<real>, r: Request, from: real) {
    && (forall i :: 0 <= i < |picks| ==> from <= picks[i] && r.start <= picks[i] < r.stop)
    && (forall i :: 0 <= i < |picks| ==> !Excluded(r.exclude, picks[i]))
    && (forall i, j :: 0 <= i < j < |picks| ==> picks[i] <= picks[j])
  }

  lemma PlacedBefore(first: real, later: seq<real>, r: Request, from: real, next: real)
    requires WellPlaced(later, r, next)
    requires from <= first < next && r.start <= first < r.stop && !Excluded(r.exclude, first)
    ensures WellPlaced([first] + later, r, from)
  {
  }

  /** Placement: when the exclusion does not cover the whole band, the unsnapped picks are well placed. */
  lemma {:induction false} PicksAreWellPlaced(points: seq<Point>, r: Request, k: int, freq: real)
    requires r.Accepted() && !Covers(r.exclude, r.start, r.stop) && 0 <= k <= r.Linear() && Position(r, k, freq)
    ensures WellPlaced(Picks(points, r, k, freq), r, freq)
    decreases r.Linear() - k
  {
    if k < r.Linear() {
      SelectionInBin(points, r, freq);
      BinInBand(r, k, freq);
      hide Request.Step, Selected, SkipGap, Position;
      var lo := SkipGap(r, freq);
      PicksAreWellPlaced(points, r, k + 1, lo + r.Step());
      PlacedBefore(Selected(points, r, lo), Picks(points, r, k + 1, lo + r.Step()), r, freq, lo + r.Step());
    }
  }

  lemma AllPicksAreWellPlaced(r: Request)
    requires r.Accepted() && !Covers(r.exclude, r.start, r.stop)
    ensures WellPlaced(AllPicks(r), r, r.start)
  {
    assert 0 as real * r.Step() == 0.0;
    PicksAreWellPlaced(SortedPoints(r.overview), r, 0, r.start);
  }

  /** The picks stay in the band exactly when the exclusion does not cover it. */
  lemma InBandExactlyWithoutFullCover(r: Request)
    requires r.Accepted()
    ensures var picks := AllPicks(r);
      (forall i :: 0 <= i < |picks| ==> r.start <= picks[i] < r.stop) <==> !Covers(r.exclude, r.start, r.stop)
  {
    var points, picks := SortedPoints(r.overview), AllPicks(r);
    if Covers(r.exclude, r.start, r.stop) {
      StepIsPositive(r);
      var lo := SkipGap(r, r.start);
      EmptyWindow(points, lo, r.exclude);
      assert picks[0] == lo >= r.stop;
    } else {
      AllPicksAreWellPlaced(r);
    }
  }

  lemma {:induction false} EmptyWindow(points: seq<Point>, lo: real, band: Option<Band>)
    ensures Window(points, lo, lo + 0.0, band) == []
  {
    if points != [] {
      EmptyWindow(points[1..], lo, band);
    }
  }

  // ---- The snapped plan ----

  lemma SnapIsOnGrid(freq: real)
    ensures OnGrid(Snap(freq))
    ensures OnGrid(freq) ==> Snap(freq) == freq
  {
    var k := RoundHalfEven(freq / SYNTHESIZER_RESOLUTION);
    assert Snap(freq) * 16.0 == k as real;
    assert (k as real).Floor == k;
    assert freq / SYNTHESIZER_RESOLUTION == freq * 16.0;
    if OnGrid(freq) {
      RoundOfInteger((freq * 16.0).Floor);
    }
  }

  lemma SnapIsMonotone(a: real, b: real)
    requires a <= b
    ensures Snap(a) <= Snap(b)
  {
    RoundIsMonotone(a / SYNTHESIZER_RESOLUTION, b / SYNTHESIZER_RESOLUTION);
  }

  /**
   The plan: exactly the channels asked for, all on the synthesizer grid, never decreasing; and when the
   edges of the exclusion are on the grid, no channel but a pinned one lies strictly inside it, even after snapping.
   */
  lemma PlanIsWellPlaced(r: Request)
    requires r.Accepted() && !Covers(r.exclude, r.start, r.stop)
    ensures var plan := Plan(r);
      && |plan| == r.channels
      && (forall i :: 0 <= i < |plan| ==> OnGrid(plan[i]))
      && (forall i, j :: 0 <= i < j < |plan| ==> plan[i] <= plan[j])
      && (r.exclude.Some? && OnGrid(r.exclude.value.lo) && OnGrid(r.exclude.value.hi) ==>
        forall i :: r.pinned <= i < |plan| ==> !(r.exclude.value.lo < plan[i] < r.exclude.value.hi))
  {
    var plan, picks := Plan(r), AllPicks(r);
    AllPicksAreWellPlaced(r);
    assert forall i :: 0 <= i < r.pinned ==> plan[i] == Snap(r.start);
    assert forall i :: r.pinned <= i < |plan| ==> plan[i] == Snap(picks[i - r.pinned]);
    hide AllPicks, Snap, OnGrid, Plan;
    forall i | 0 <= i < |plan|
      ensures OnGrid(plan[i])
    {
      SnapIsOnGrid(r.start);
      if i >= r.pinned {
        SnapIsOnGrid(picks[i - r.pinned]);
      }
    }
    forall i, j | 0 <= i < j < |plan|
      ensures plan[i] <= plan[j]
    {
      SnapIsMonotone(if i < r.pinned then r.start else picks[i - r.pinned],
                     if j < r.pinned then r.start else picks[j - r.pinned]);
    }
    if r.exclude.Some? && OnGrid(r.exclude.value.lo) && OnGrid(r.exclude.value.hi) {
      forall i | r.pinned <= i < |plan|
        ensures !(r.exclude.value.lo < plan[i] < r.exclude.value.hi)
      {
        StaysOutside(r.exclude.value, picks[i - r.pinned]);
      }
    }
  }

  /** Snapping does not cross an edge that is itself on the grid. */
  lemma StaysOutside(band: Band, freq: real)
    requires OnGrid(band.lo) && OnGrid(band.hi) && !Excluded(Some(band), freq)
    ensures !(band.lo < Snap(freq) < band.hi)
  {
    hide Snap, OnGrid;
    SnapIsOnGrid(band.lo);
    SnapIsOnGrid(band.hi);
    if freq < band.lo {
      SnapIsMonotone(freq, band.lo);
    } else {
      SnapIsMonotone(band.hi, freq);
    }
  }

  // ---- Which exclusions keep channels out ----

  /** The first grid point above a frequency. */
  function GridAbove(freq: real): real { ((freq * 16.0).Floor + 1) as real / 16.0 }

  /**
   No frequency outside the band is snapped strictly into it: not up over the lower edge, which takes a grid point in
   the band less than half a step above that edge, and not down over the upper edge.
   */
  predicate Safe(b: Band) {
    && !(GridAbove(b.lo) < b.hi && GridAbove(b.lo) - b.lo < SYNTHESIZER_RESOLUTION / 2.0)
    && !(b.lo < Snap(b.hi) < b.hi)
  }

  predicate StrictlyInside(b: Band, freq: real) { b.lo < freq < b.hi }

  /** No request with this exclusion that it does not cover puts a channel strictly inside, the pinned ones aside. */
  ghost predicate KeepsChannelsOut(b: Band) {
    forall r: Request, i: nat | r.Accepted() && r.exclude == Some(b) && !Covers(r.exclude, r.start, r.stop)
                                && r.pinned <= i < r.channels :: !StrictlyInside(b, Plan(r)[i])
  }

  lemma SnapIsNear(freq: real)
    ensures freq - SYNTHESIZER_RESOLUTION / 2.0 <= Snap(freq) <= freq + SYNTHESIZER_RESOLUTION / 2.0
  {
    assert freq / SYNTHESIZER_RESOLUTION == freq * 16.0;
  }

  lemma GridAboveIsNext(freq: real, point: real)
    requires OnGrid(point) && point > freq
    ensures freq < GridAbove(freq) <= point
  {
    var k, x := (point * 16.0).Floor, freq * 16.0;
    IntegerAbove(k, x);
    var above := (x.Floor + 1) as real;
    assert x < above <= k as real;
    assert GridAbove(freq) == above / 16.0 && point == k as real / 16.0;
  }

  lemma IntegerAbove(k: int, x: real)
    requires k as real > x
    ensures k >= x.Floor + 1
  {
  }

  /** From outside a safe band no frequency is snapped into it. */
  lemma SafeKeepsOut(b: Band, freq: real)
    requires Safe(b) && !Excluded(Some(b), freq)
    ensures !StrictlyInside(b, Snap(freq))
  {
    SnapIsOnGrid(freq);
    SnapIsNear(freq);
    if StrictlyInside(b, Snap(freq)) {
      hide Snap;
      if freq < b.lo {
        GridAboveIsNext(b.lo, Snap(freq));
      } else {
        SnapIsMonotone(b.hi, freq);
        SnapIsOnGrid(Snap(freq));
        SnapIsMonotone(Snap(freq), b.hi);
      }
    }
  }

  /** The plan of one evenly placed channel whose bin starts outside the exclusion: the start, snapped. */
  lemma OneChannel(start: real, stop: real, b: Band)
    requires start < stop && !Excluded(Some(b), start)
    ensures var r := Request([], start, stop, 1, Even, Some(b), 0); r.Accepted() && Plan(r)[0] == Snap(start)
  {
    var r := Request([], start, stop, 1, Even, Some(b), 0);
    hide Snap, Request.Step;
    assert Picks([], r, 0, start)[0] == start;
    assert AllPicks(r)[0] == start;
  }

  /** A grid point just above the lower edge draws in a start just below the edge. */
  lemma LowerEdgeIsCrossed(b: Band) returns (start: real)
    requires GridAbove(b.lo) < b.hi && GridAbove(b.lo) - b.lo < SYNTHESIZER_RESOLUTION / 2.0
    ensures start < b.lo && Snap(start) == GridAbove(b.lo) && StrictlyInside(b, Snap(start))
  {
    var k := (b.lo * 16.0).Floor + 1;
    start := (b.lo + GridAbove(b.lo) - SYNTHESIZER_RESOLUTION / 2.0) / 2.0;
    assert start / SYNTHESIZER_RESOLUTION == start * 16.0;
    assert k as real - 0.5 < start * 16.0 < k as real;
    assert RoundHalfEven(start * 16.0) == k;
  }

  /** The bands that keep channels out, by their edges alone: exactly the safe ones. */
  lemma OutsideExactlyWhenSafe(b: Band)
    ensures Safe(b) <==> KeepsChannelsOut(b)
  {
    if Safe(b) {
      forall r: Request, i: nat | r.Accepted() && r.exclude == Some(b) && !Covers(r.exclude, r.start, r.stop)
                                  && r.pinned <= i < r.channels
        ensures !StrictlyInside(b, Plan(r)[i])
      {
        AllPicksAreWellPlaced(r);
        SafeKeepsOut(b, AllPicks(r)[i - r.pinned]);
      }
    } else if b.lo < Snap(b.hi) < b.hi {
      var r := Request([], b.hi, b.hi + 1.0, 1, Even, Some(b), 0);
      OneChannel(b.hi, b.hi + 1.0, b);
      assert StrictlyInside(b, Plan(r)[0]);
    } else {
      var start := LowerEdgeIsCrossed(b);
      var r := Request([], start, b.hi + 1.0, 1, Even, Some(b), 0);
      OneChannel(start, b.hi + 1.0, b);
      assert StrictlyInside(b, Plan(r)[0]);
    }
  }

  /** Edges on the grid are safe. */
  lemma EdgesOnTheGridAreSafe(b: Band)
    requires OnGrid(b.lo) && OnGrid(b.hi)
    ensures Safe(b)
  {
    SnapIsOnGrid(b.hi);
    hide Snap;
    assert GridAbove(b.lo) - b.lo == SYNTHESIZER_RESOLUTION;
  }

  /** The pinned channels pay no heed to the exclusion: they are inside exactly when the snapped start is. */
  lemma PinnedChannelsFollowTheStart(r: Request, b: Band)
    requires r.Accepted() && r.exclude == Some(b)
    ensures (exists i :: 0 <= i < r.pinned && StrictlyInside(b, Plan(r)[i]))
       <==> r.pinned > 0 && StrictlyInside(b, Snap(r.start))
  {
    assert forall i :: 0 <= i < r.pinned ==> Plan(r)[i] == Snap(r.start);
    hide Snap, Plan;
    if r.pinned > 0 && StrictlyInside(b, Snap(r.start)) {
      assert StrictlyInside(b, Plan(r)[0]);
    }
  }

  /** An edge off the grid that is crossed: here the pick lies below the exclusion and its snapped channel inside. */
  lemma EdgeOffTheGridIsCrossed()
    ensures var r := Request([], 100.035, 300.0, 1, Even, Some(Band(100.04, 200.0)), 0);
      && r.Accepted() && !Covers(r.exclude, r.start, r.stop)
      && r.exclude.value.lo < Plan(r)[0] < r.exclude.value.hi
  {
    var r := Request([], 100.035, 300.0, 1, Even, Some(Band(100.04, 200.0)), 0);
    assert AllPicks(r)[0] == 100.035;
    assert 100.035 / SYNTHESIZER_RESOLUTION == 1600.56;
    assert RoundHalfEven(1600.56) == 1601;
  }

  // ---- Which point a quiet bin takes ----

  predicate InOrder(points: seq<Point>) {
    forall i, j :: 0 <= i < j < |points| ==> Before(points[i], points[j])
  }

  lemma {:induction false} InsertKeepsOrder(p: Point, points: seq<Point>)
    requires InOrder(points)
    ensures InOrder(Insert(p, points))
    ensures forall q :: q in Insert(p, points) <==> q == p || q in points
  {
    if points != [] && !Before(p, points[0]) {
      InsertKeepsOrder(p, points[1..]);
      var tail := Insert(p, points[1..]);
      forall j | 0 <= j < |tail|
        ensures Before(points[0], tail[j])
      {
        assert tail[j] in tail;
        if tail[j] != p {
          var i :| 0 <= i < |points[1..]| && points[1..][i] == tail[j];
          assert points[i + 1] == tail[j];
        }
      }
      assert forall q :: q in points <==> q == points[0] || q in points[1..];
    } else if points != [] {
      forall j | 0 <= j < |points|
        ensures Before(p, points[j])
      {
        assert j > 0 ==> Before(points[0], points[j]);
      }
    }
  }

  lemma {:induction false} SortingSorts(points: seq<Point>)
    ensures InOrder(SortedPoints(points))
    ensures forall q :: q in SortedPoints(points) <==> q in points
  {
    if points != [] {
      SortingSorts(points[1..]);
      InsertKeepsOrder(points[0], SortedPoints(points[1..]));
    }
  }

  /** The least of the window in the order amplitude, then frequency. */
  predicate Quieter(a: Point, b: Point) {
    a.amplitude < b.amplitude || (a.amplitude == b.amplitude && a.freq <= b.freq)
  }

  lemma {:induction false} WindowHasTheBin(points: seq<Point>, lo: real, hi: real, band: Option<Band>, p: Point)
    requires p in points && lo <= p.freq < hi && !Excluded(band, p.freq)
    ensures p in Window(points, lo, hi, band)
  {
    if p != points[0] {
      WindowHasTheBin(points[1..], lo, hi, band, p);
    }
  }

  lemma {:induction false} WindowKeepsOrder(points: seq<Point>, lo: real, hi: real, band: Option<Band>)
    requires InOrder(points)
    ensures InOrder(Window(points, lo, hi, band))
  {
    if points != [] {
      WindowKeepsOrder(points[1..], lo, hi, band);
      var tail := Window(points[1..], lo, hi, band);
      forall j | 0 <= j < |tail|
        ensures Before(points[0], tail[j])
      {
        assert tail[j] in tail;
        var i :| 0 <= i < |points[1..]| && points[1..][i] == tail[j];
        assert points[i + 1] == tail[j];
      }
    }
  }

  lemma {:induction false} FirstOfTheQuietest(points: seq<Point>)
    requires points != [] && InOrder(points)
    ensures forall p <- points :: Quieter(Quietest(points), p)
  {
    if |points| > 1 {
      FirstOfTheQuietest(points[1..]);
      var q := Quietest(points[1..]);
      var i :| 0 <= i < |points[1..]| && points[1..][i] == q;
      assert points[i + 1] == q && Before(points[0], points[i + 1]);
      forall p | p in points
        ensures Quieter(Quietest(points), p)
      {
        assert p == points[0] || p in points[1..];
      }
    }
  }

  lemma QuietestOfBin(points: seq<Point>, lo: real, hi: real, band: Option<Band>, p: Point)
    requires InOrder(points) && p in points && lo <= p.freq < hi && !Excluded(band, p.freq)
    ensures var window := Window(points, lo, hi, band);
      && window != [] && Quietest(window) in points && Quieter(Quietest(window), p)
      && lo <= Quietest(window).freq < hi && !Excluded(band, Quietest(window).freq)
  {
    var window := Window(points, lo, hi, band);
    WindowHasTheBin(points, lo, hi, band, p);
    WindowKeepsOrder(points, lo, hi, band);
    FirstOfTheQuietest(window);
    assert Quietest(window) in window;
  }

  /**
   In quiet mode a bin with measured points takes the quietest of them outside the exclusion, of several the lowest.
   */
  lemma QuietBinTakesTheQuietest(r: Request, lo: real, p: Point)
    requires r.Accepted() && r.mode.Quiet?
    requires p in r.overview && lo <= p.freq < lo + r.Step() && !Excluded(r.exclude, p.freq)
    ensures exists q :: (
      && q in r.overview && Quieter(q, p) && q.freq == Selected(SortedPoints(r.overview), r, lo)
      && lo <= q.freq < lo + r.Step() && !Excluded(r.exclude, q.freq))
  {
    hide Request.Step, InOrder, SortedPoints, Window, Quietest, Quieter, Excluded;
    var points := SortedPoints(r.overview);
    SortingSorts(r.overview);
    QuietestOfBin(points, lo, lo + r.Step(), r.exclude, p);
    var q := Quietest(Window(points, lo, lo + r.Step(), r.exclude));
    assert q in r.overview && q.freq == Selected(points, r, lo);
  }

  // ---- Where the channels lie, in numbers ----

  /** `channel` is the point of the 1/16 MHz grid nearest to `freq`, of two as near the one with the even number. */
  predicate NearestOnGrid(channel: real, freq: real) {
    var k := (channel * 16.0).Floor;
    && k as real == channel * 16.0
    && -0.5 <= freq * 16.0 - k as real <= 0.5
    && (freq * 16.0 - k as real == 0.5 || freq * 16.0 - k as real == -0.5 ==> k % 2 == 0)
  }

  lemma SnapIsNearest(freq: real)
    ensures NearestOnGrid(Snap(freq), freq)
  {
    var x := freq / SYNTHESIZER_RESOLUTION;
    assert x == freq * 16.0;
    assert Snap(freq) * 16.0 == RoundHalfEven(x) as real;
    assert (RoundHalfEven(x) as real).Floor == RoundHalfEven(x);
  }

  /** The part of the band that the exclusion takes, and the width of a bin in what is left. */
  predicate EvenlyLeft(r: Request, gap: real, step: real) {
    && (r.exclude.None? ==> gap == 0.0)
    && (r.exclude.Some? ==>
      var lo := if r.exclude.value.lo < r.start then r.start else r.exclude.value.lo;
      var hi := if r.exclude.value.hi < r.stop then r.exclude.value.hi else r.stop;
      gap == if lo < hi then hi - lo else 0.0)
    && step * (r.channels - r.pinned) as real == r.stop - r.start - gap
  }

  /** After `j` even steps from the start a bin would begin inside the exclusion. */
  predicate Lands(r: Request, step: real, j: int) {
    r.exclude.Some? && r.exclude.value.lo <= r.start + j as real * step < r.exclude.value.hi
  }

  lemma EvenStep(r: Request, gap: real, step: real)
    requires r.Accepted() && EvenlyLeft(r, gap, step)
    ensures step == r.Step() && step >= 0.0
  {
    StepIsPositive(r);
    assert gap == ExcludedWidth(r.exclude, r.start, r.stop);
    var n := (r.channels - r.pinned) as real;
    hide Request.Step, ExcludedWidth;
    assert r.Linear() as real == n;
    assert r.Step() * n == r.stop - r.start - gap;
    SameFactor(step, r.Step(), n);
  }

  lemma SameFactor(x: real, y: real, n: real)
    requires x * n == y * n && n >= 1.0
    ensures x == y
  {
    assert (x - y) * n == 0.0;
  }

  lemma StepsAdd(freq: real, step: real, i: int)
    ensures (freq + step) + (i - 1) as real * step == freq + i as real * step
    ensures freq + 0 as real * step == freq
  {
  }

  lemma StepsForward(freq: real, step: real, i: nat)
    requires step >= 0.0
    ensures freq + i as real * step >= freq
  {
  }

  /** Even bins that never begin inside the exclusion. */
  lemma {:induction false} EvenPicksAhead(points: seq<Point>, r: Request, k: int, freq: real, i: nat)
    requires r.Accepted() && r.mode.Even? && 0 <= k && k + i < r.Linear()
    requires forall j {:trigger Stepped(freq, r.Step(), j)} :: 0 <= j <= i ==>
      !Excluded(r.exclude, Stepped(freq, r.Step(), j))
    ensures Picks(points, r, k, freq)[i] == Stepped(freq, r.Step(), i)
    decreases i
  {
    var step := r.Step();
    hide Request.Step, Excluded;
    StepsAdd(freq, step, 0);
    assert Stepped(freq, step, 0) == freq;
    if i > 0 {
      var next := freq + step;
      forall j | 0 <= j <= i - 1
        ensures Stepped(next, step, j) == Stepped(freq, step, j + 1)
      {
        StepsAdd(freq, step, j + 1);
      }
      hide Stepped;
      EvenPicksAhead(points, r, k + 1, next, i - 1);
    }
  }

  /** `j` steps on. */
  function Stepped(freq: real, step: real, j: int): real { freq + j as real * step }

  /** The first even bin that would begin inside the exclusion, number `j` from here, begins at its end. */
  lemma {:induction false} EvenPicksBehind(points: seq<Point>, r: Request, k: int, freq: real, j: nat, i: nat)
    requires r.Accepted() && r.mode.Even? && 0 <= k && j <= i && k + i < r.Linear() && r.Step() >= 0.0
    requires Excluded(r.exclude, Stepped(freq, r.Step(), j))
    requires forall m {:trigger Stepped(freq, r.Step(), m)} :: 0 <= m < j ==>
      !Excluded(r.exclude, Stepped(freq, r.Step(), m))
    ensures Picks(points, r, k, freq)[i] == Stepped(r.exclude.value.hi, r.Step(), i - j)
    decreases j
  {
    var step := r.Step();
    hide Request.Step;
    StepsAdd(freq, step, 0);
    assert Stepped(freq, step, 0) == freq;
    if j > 0 {
      var next := freq + step;
      forall m | 0 <= m <= j - 1
        ensures Stepped(next, step, m) == Stepped(freq, step, m + 1)
      {
        StepsAdd(freq, step, m + 1);
      }
      hide Stepped;
      EvenPicksBehind(points, r, k + 1, next, j - 1, i - 1);
    } else {
      EvenPicksFromGap(points, r, k, freq, i);
    }
  }

  lemma EvenPicksFromGap(points: seq<Point>, r: Request, k: int, freq: real, i: nat)
    requires r.Accepted() && r.mode.Even? && 0 <= k && k + i < r.Linear() && r.Step() >= 0.0
    requires Excluded(r.exclude, freq)
    ensures Picks(points, r, k, freq)[i] == Stepped(r.exclude.value.hi, r.Step(), i)
  {
    var step, hi := r.Step(), r.exclude.value.hi;
    hide Request.Step;
    FirstPick(points, r, k, freq);
    StepsAdd(hi, step, i);
    StepsAdd(hi, step, 0);
    hide Picks;
    if i > 0 {
      var next := hi + step;
      forall m | 0 <= m <= i - 1
        ensures !Excluded(r.exclude, Stepped(next, step, m))
      {
        StepsForward(next, step, m);
      }
      EvenPicksAhead(points, r, k + 1, next, i - 1);
    }
  }

  /** Bin `j` is the first that would begin inside the exclusion. */
  predicate FirstLands(r: Request, step: real, j: int) {
    Lands(r, step, j) && forall m :: 0 <= m < j ==> !Lands(r, step, m)
  }

  predicate NoneLands(r: Request, step: real, i: int) { forall j :: 0 <= j <= i ==> !Lands(r, step, j) }

  lemma LandsIsExcluded(r: Request, step: real, j: int)
    ensures Excluded(r.exclude, Stepped(r.start, step, j)) <==> Lands(r, step, j)
  {
  }

  lemma EvenPickAhead(r: Request, step: real, i: nat)
    requires r.Accepted() && r.mode.Even? && step == r.Step() && i < r.Linear() && NoneLands(r, step, i)
    ensures AllPicks(r)[i] == Stepped(r.start, step, i)
  {
    forall j | 0 <= j <= i
      ensures !Excluded(r.exclude, Stepped(r.start, step, j))
    {
      LandsIsExcluded(r, step, j);
    }
    hide Request.Step, Excluded, Lands, Stepped, Picks;
    EvenPicksAhead(SortedPoints(r.overview), r, 0, r.start, i);
  }

  lemma EvenPickBehind(r: Request, step: real, i: nat, j: nat)
    requires r.Accepted() && r.mode.Even? && step == r.Step() && step >= 0.0 && j <= i < r.Linear()
    requires FirstLands(r, step, j)
    ensures AllPicks(r)[i] == Stepped(r.exclude.value.hi, step, i - j)
  {
    LandsIsExcluded(r, step, j);
    forall m | 0 <= m < j
      ensures !Excluded(r.exclude, Stepped(r.start, step, m))
    {
      LandsIsExcluded(r, step, m);
    }
    hide Request.Step, Excluded, Lands, Stepped, Picks;
    EvenPicksBehind(SortedPoints(r.overview), r, 0, r.start, j, i);
  }

  /**
   An even plan, channel by channel: the pinned channels lie at the start, the others at even steps of the band with the
   gap taken out. They begin at the start; the first that would begin inside the exclusion begins at its end, and the
   steps go on from there.
   */
  lemma EvenPlanSteps(r: Request, gap: real, step: real, i: nat, j: nat)
    requires r.Accepted() && r.mode.Even? && EvenlyLeft(r, gap, step) && j <= i < r.channels - r.pinned
    ensures forall p :: 0 <= p < r.pinned ==> NearestOnGrid(Plan(r)[p], r.start)
    ensures NoneLands(r, step, i) ==> NearestOnGrid(Plan(r)[r.pinned + i], r.start + i as real * step)
    ensures FirstLands(r, step, j) ==>
      NearestOnGrid(Plan(r)[r.pinned + i], r.exclude.value.hi + (i - j) as real * step)
  {
    EvenStep(r, gap, step);
    PlanIsNearest(r, i);
    EvenPick(r, step, i, j);
    hide Snap, Plan, NearestOnGrid, Request.Step, EvenlyLeft, FirstLands, NoneLands, AllPicks;
  }

  lemma EvenPick(r: Request, step: real, i: nat, j: nat)
    requires r.Accepted() && r.mode.Even? && step == r.Step() && step >= 0.0 && j <= i < r.Linear()
    ensures NoneLands(r, step, i) ==> AllPicks(r)[i] == r.start + i as real * step
    ensures FirstLands(r, step, j) ==>
      r.exclude.Some? && AllPicks(r)[i] == r.exclude.value.hi + (i - j) as real * step
  {
    if NoneLands(r, step, i) {
      EvenPickAhead(r, step, i);
    }
    if FirstLands(r, step, j) {
      EvenPickBehind(r, step, i, j);
    }
    hide Request.Step, AllPicks;
  }

  /** The plan is the grid's nearest to the start, then to the picks. */
  lemma PlanIsNearest(r: Request, i: nat)
    requires r.Accepted() && i < r.channels - r.pinned
    ensures forall p :: 0 <= p < r.pinned ==> NearestOnGrid(Plan(r)[p], r.start)
    ensures NearestOnGrid(Plan(r)[r.pinned + i], AllPicks(r)[i])
  {
    SnapIsNearest(r.start);
    SnapIsNearest(AllPicks(r)[i]);
    hide NearestOnGrid, Snap, AllPicks;
  }

  lemma {:induction false} EvenPicksIgnorePoints(
    a: seq<Point>, b: seq<Point>, r: Request, v: Request, k: int, freq: real)
    requires r.Accepted() && r.mode.Even? && v == r.(overview := v.overview) && 0 <= k <= r.Linear()
    ensures Picks(a, r, k, freq) == Picks(b, v, k, freq)
    decreases r.Linear() - k
  {
    if k < r.Linear() {
      assert r.Step() == v.Step();
      hide Request.Step;
      EvenPicksIgnorePoints(a, b, r, v, k + 1, SkipGap(r, freq) + r.Step());
    }
  }

  /** An even plan does not depend on what was measured. */
  lemma EvenPlanIgnoresTheOverview(r: Request, overview: seq<Point>)
    requires r.Accepted() && r.mode.Even?
    ensures Plan(r) == Plan(r.(overview := overview))
  {
    var v := r.(overview := overview);
    EvenPicksIgnorePoints(SortedPoints(r.overview), SortedPoints(overview), r, v, 0, r.start);
    hide Snap, Picks;
  }

  /** A measured point of the bin that begins at `edge`, outside the exclusion. */
  predicate InBin(r: Request, edge: real, step: real, p: Point) {
    && p in r.overview && edge <= p.freq < edge + step
    && !(r.exclude.Some? && r.exclude.value.lo <= p.freq < r.exclude.value.hi)
  }

  lemma FirstPick(points: seq<Point>, r: Request, k: int, freq: real)
    requires r.Accepted() && 0 <= k < r.Linear()
    ensures var lo := SkipGap(r, freq);
      Picks(points, r, k, freq) == [Selected(points, r, lo)] + Picks(points, r, k + 1, lo + r.Step())
  {
  }

  lemma EvenBinIsItsEdge(points: seq<Point>, r: Request, freq: real)
    requires r.Accepted()
    ensures var v := r.(mode := Even); var lo := SkipGap(r, freq);
      v.Accepted() && v.Linear() == r.Linear() && v.Step() == r.Step()
      && SkipGap(v, freq) == lo && Selected(points, v, lo) == lo
  {
  }

  lemma {:induction false} QuietPicksInEvenBins(points: seq<Point>, r: Request, v: Request, k: int, freq: real, i: nat)
    requires r.Accepted() && v == r.(mode := Even) && 0 <= k && k + i < r.Linear()
    ensures Picks(points, r, k, freq)[i] == Selected(points, r, Picks(points, v, k, freq)[i])
    decreases i
  {
    hide Request.Step, SkipGap, Selected, Picks;
    EvenBinIsItsEdge(points, r, freq);
    FirstPick(points, r, k, freq);
    FirstPick(points, v, k, freq);
    var next := SkipGap(r, freq) + r.Step();
    if i > 0 {
      QuietPicksInEvenBins(points, r, v, k + 1, next, i - 1);
    }
  }

  /** Nothing was measured in the bin outside the exclusion. */
  predicate Unmeasured(r: Request, edge: real, step: real) { forall p <- r.overview :: !InBin(r, edge, step, p) }

  /** Of the bin's points outside the exclusion none is quieter than `q`, and none as quiet is lower. */
  predicate QuietestThere(r: Request, edge: real, step: real, q: Point) {
    InBin(r, edge, step, q) && forall p <- r.overview :: InBin(r, edge, step, p) ==> Quieter(q, p)
  }

  /**
   A quiet plan against the even one of the same request: its bins begin where the even picks lie, and of each bin it
   takes the quietest measured point outside the exclusion, of several the lowest; without such a point the bin's lower
   edge.
   */
  lemma QuietPlanAgainstEven(r: Request, gap: real, step: real, i: nat)
    requires r.Accepted() && r.mode.Quiet? && EvenlyLeft(r, gap, step) && i < r.channels - r.pinned
    ensures var edge, channel := AllPicks(r.(mode := Even))[i], Plan(r)[r.pinned + i];
      if Unmeasured(r, edge, step) then NearestOnGrid(channel, edge)
      else exists q :: QuietestThere(r, edge, step, q) && NearestOnGrid(channel, q.freq)
  {
    EvenStep(r, gap, step);
    PlanIsNearest(r, i);
    QuietPicksInEvenBins(SortedPoints(r.overview), r, r.(mode := Even), 0, r.start, i);
    hide Snap, Plan, NearestOnGrid, Request.Step, EvenlyLeft, Picks, Unmeasured, QuietestThere, Selected;
    var edge := AllPicks(r.(mode := Even))[i];
    if Unmeasured(r, edge, step) {
      UnmeasuredTakesTheEdge(r, edge);
    } else {
      var q := MeasuredTakesTheQuietest(r, edge);
    }
  }

  lemma UnmeasuredTakesTheEdge(r: Request, edge: real)
    requires r.Accepted() && Unmeasured(r, edge, r.Step())
    ensures Selected(SortedPoints(r.overview), r, edge) == edge
  {
    var window := Window(SortedPoints(r.overview), edge, edge + r.Step(), r.exclude);
    SortingSorts(r.overview);
    hide Request.Step, InOrder, SortedPoints, Window, Quietest;
    assert window != [] ==> window[0] in window && InBin(r, edge, r.Step(), window[0]);
  }

  lemma MeasuredTakesTheQuietest(r: Request, edge: real) returns (q: Point)
    requires r.Accepted() && r.mode.Quiet? && !Unmeasured(r, edge, r.Step())
    ensures QuietestThere(r, edge, r.Step(), q) && Selected(SortedPoints(r.overview), r, edge) == q.freq
  {
    hide Request.Step, InOrder, SortedPoints, Window, Quietest, Quieter, InBin;
    var step := r.Step();
    var p :| p in r.overview && InBin(r, edge, step, p);
    NoneIsQuieter(r, edge, p);
    q := Quietest(Window(SortedPoints(r.overview), edge, edge + step, r.exclude));
    forall p | p in r.overview && InBin(r, edge, step, p)
      ensures Quieter(q, p)
    {
      NoneIsQuieter(r, edge, p);
    }
  }

  lemma NoneIsQuieter(r: Request, edge: real, p: Point)
    requires r.Accepted() && r.mode.Quiet? && InBin(r, edge, r.Step(), p)
    ensures var window := Window(SortedPoints(r.overview), edge, edge + r.Step(), r.exclude);
      && window != [] && Quieter(Quietest(window), p) && InBin(r, edge, r.Step(), Quietest(window))
      && Selected(SortedPoints(r.overview), r, edge) == Quietest(window).freq
  {
    SortingSorts(r.overview);
    hide Request.Step, InOrder, SortedPoints, Window, Quietest, Quieter;
    QuietestOfBin(SortedPoints(r.overview), edge, edge + r.Step(), r.exclude, p);
  }
}
