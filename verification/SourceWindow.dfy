/**
 The daily observable window of a tracked source other than the Sun (services/scheduler.py): extracted from elevation
 samples over the UT day. Times are minutes; the samples come from the ephemeris, which is not modelled.
 */
module SourceWindow {
  import opened Wrappers

  const DAY := 1440

  datatype Sample = Sample(time: int, elevation: real)

  datatype Window = Window(start: int, stop: int)

  predicate IsDesired(w: Option<Window>, now: int) {
    w.Some? && w.value.start <= now < w.value.stop
  }

  /** Samples in time order over one day, midnight to midnight. */
  predicate OverOneDay(s: seq<Sample>) {
    && s != []
    && (forall i, j :: 0 <= i < j < |s| ==> s[i].time < s[j].time)
    && s[|s| - 1].time <= s[0].time + DAY
  }

  predicate Rises(s: seq<Sample>, h: real, i: nat) {
    0 < i < |s| && s[i - 1].elevation < h <= s[i].elevation
  }

  predicate Sets(s: seq<Sample>, h: real, i: nat) {
    0 < i < |s| && s[i - 1].elevation >= h > s[i].elevation
  }

  /** The first rise from index `i` on; the length when there is none. */
  function FirstRise(s: seq<Sample>, h: real, i: nat): (r: nat)
    requires i <= |s|
    ensures i <= r <= |s| && (r < |s| ==> Rises(s, h, r))
    ensures forall k :: i <= k < r ==> !Rises(s, h, k)
    decreases |s| - i
  {
    if i == |s| || Rises(s, h, i) then i else FirstRise(s, h, i + 1)
  }

  /** The last set before index `i`; zero when there is none. */
  function LastSet(s: seq<Sample>, h: real, i: nat): (r: nat)
    requires i <= |s|
    ensures r <= i && (r > 0 ==> r < i && Sets(s, h, r))
    ensures forall k :: r < k < i ==> !Sets(s, h, k)
  {
    if i == 0 then 0 else if Sets(s, h, i - 1) then i - 1 else LastSet(s, h, i - 1)
  }

  predicate EverAbove(s: seq<Sample>, h: real) { exists i :: 0 <= i < |s| && s[i].elevation > h }

  function Trimmed(start: int, stop: int, margin: int): Option<Window> {
    if stop - margin > start + margin then Some(Window(start + margin, stop - margin)) else None
  }

  function WindowOf(s: seq<Sample>, h: real, margin: int): Option<Window>
    requires OverOneDay(s)
  {
    var rise, set_ := FirstRise(s, h, 0), LastSet(s, h, |s|);
    if rise < |s| && set_ > rise then Trimmed(s[rise].time, s[set_].time, margin)
    else if EverAbove(s, h) then Trimmed(s[0].time, s[0].time + DAY, margin)
    else None
  }

  lemma LastSetStep(s: seq<Sample>, h: real, i: nat)
    requires i < |s|
    ensures LastSet(s, h, i + 1) == if Sets(s, h, i) then i else LastSet(s, h, i)
  {
  }

  method GetSourceWindow(s: seq<Sample>, h: real, margin: int) returns (w: Option<Window>)
    requires OverOneDay(s)
    ensures w == WindowOf(s, h, margin)
  {
    var rise, set_, above := |s|, 0, s[0].elevation > h;
    for i := 1 to |s|
      invariant if rise < |s| then rise == FirstRise(s, h, 0) else rise == |s| && FirstRise(s, h, 0) >= i
      invariant set_ == LastSet(s, h, i)
      invariant above <==> exists k :: 0 <= k < i && s[k].elevation > h
    {
      hide FirstRise, LastSet;
      assert LastSet(s, h, i + 1) == (if Sets(s, h, i) then i else LastSet(s, h, i)) by { LastSetStep(s, h, i); }
      var before, now := s[i - 1].elevation, s[i].elevation;
      assert Rises(s, h, i) <==> before < h <= now;
      if rise == |s| && before < h <= now {
        rise := i;
      }
      if before >= h > now {
        set_ := i;
      }
      if now > h {
        above := true;
      }
    }
    if rise < |s| && set_ > 0 && s[set_].time > s[rise].time {
      w := Trimmed(s[rise].time, s[set_].time, margin);
    } else if above {
      w := Trimmed(s[0].time, s[0].time + DAY, margin);
    } else {
      w := None;
    }
  }

  /** Below the horizon at `i`, and no rise up to `j`: still below at `j`. */
  lemma {:induction false} StaysDown(s: seq<Sample>, h: real, i: nat, j: nat)
    requires i <= j < |s| && s[i].elevation < h && forall k :: i < k <= j ==> !Rises(s, h, k)
    ensures s[j].elevation < h
    decreases j
  {
    if i < j {
      StaysDown(s, h, i, j - 1);
      assert !Rises(s, h, j);
    }
  }

  /** At or above the horizon at `i`, and no set up to `j`: still there at `j`. */
  lemma {:induction false} StaysUp(s: seq<Sample>, h: real, i: nat, j: nat)
    requires i <= j < |s| && s[i].elevation >= h && forall k :: i < k <= j ==> !Sets(s, h, k)
    ensures s[j].elevation >= h
    decreases j
  {
    if i < j {
      StaysUp(s, h, i, j - 1);
      assert !Sets(s, h, j);
    }
  }

  predicate AtMostOne(s: seq<Sample>, h: real) {
    && (forall i, j :: 0 <= i < j < |s| ==> !(Rises(s, h, i) && Rises(s, h, j)))
    && (forall i, j :: 0 <= i < j < |s| ==> !(Sets(s, h, i) && Sets(s, h, j)))
  }

  /** The source rises before it sets. */
  predicate RisesFirst(s: seq<Sample>, h: real) {
    var rise, set_ := FirstRise(s, h, 0), LastSet(s, h, |s|);
    rise < |s| && set_ > rise
  }

  /** With one rise in front of one set, the window holds exactly the samples at or above the horizon. */
  lemma ExactlyTheRisenSamples(s: seq<Sample>, h: real, i: nat)
    requires OverOneDay(s) && AtMostOne(s, h) && RisesFirst(s, h) && i < |s|
    ensures IsDesired(WindowOf(s, h, 0), s[i].time) <==> s[i].elevation >= h
  {
    var rise, set_ := FirstRise(s, h, 0), LastSet(s, h, |s|);
    assert Rises(s, h, rise) && Sets(s, h, set_);
    assert s[rise].time < s[set_].time;
    if i < rise {
      if s[i].elevation >= h {
        SomeSet(s, h, i, rise - 1);
      }
      assert s[i].time < s[rise].time;
    } else if i < set_ {
      StaysUp(s, h, rise, i);
      assert i > rise ==> s[rise].time < s[i].time;
      assert s[i].time < s[set_].time;
    } else {
      StaysDown(s, h, set_, i);
      assert i > set_ ==> s[set_].time < s[i].time;
    }
  }

  /** From up to down there is a set on the way. */
  lemma SomeSet(s: seq<Sample>, h: real, i: nat, j: nat)
    requires i <= j < |s| && s[i].elevation >= h > s[j].elevation
    ensures exists k :: i < k <= j && Sets(s, h, k)
  {
    if forall k :: i < k <= j ==> !Sets(s, h, k) {
      StaysUp(s, h, i, j);
    }
  }

  /** With at most one rise and one set, the window holds every sample of the UT day above the horizon. */
  lemma EverySampleAboveIsCovered(s: seq<Sample>, h: real, i: nat)
    requires OverOneDay(s) && AtMostOne(s, h) && i < |s|
    requires s[i].elevation > h && s[i].time < s[0].time + DAY
    ensures IsDesired(WindowOf(s, h, 0), s[i].time)
  {
    if RisesFirst(s, h) {
      ExactlyTheRisenSamples(s, h, i);
    } else {
      assert i > 0 ==> s[0].time < s[i].time;
    }
  }

  /** Every sample of the UT day above the horizon is in the window. */
  predicate CoversAllAbove(s: seq<Sample>, h: real)
    requires OverOneDay(s)
  {
    forall i :: 0 <= i < |s| && s[i].elevation > h && s[i].time < s[0].time + DAY ==>
      IsDesired(WindowOf(s, h, 0), s[i].time)
  }

  /** The source is above the horizon before its first rise, or again after its last set. */
  predicate UpOutside(s: seq<Sample>, h: real)
    requires OverOneDay(s)
  {
    || (exists i :: 0 <= i < FirstRise(s, h, 0) && i < |s| && s[i].elevation > h)
    || (exists i :: LastSet(s, h, |s|) < i < |s| && s[i].elevation > h && s[i].time < s[0].time + DAY)
  }

  /**
   The window covers all that is above the horizon exactly unless the source rises before it sets and is up before its
   first rise or up again after its last set: the window runs from the first rise to the last set only.
   */
  lemma CoversExactlyOneSpan(s: seq<Sample>, h: real)
    requires OverOneDay(s)
    ensures CoversAllAbove(s, h) <==> !(RisesFirst(s, h) && UpOutside(s, h))
  {
    var rise, last := FirstRise(s, h, 0), LastSet(s, h, |s|);
    if RisesFirst(s, h) {
      forall i | 0 <= i < |s|
        ensures IsDesired(WindowOf(s, h, 0), s[i].time) <==> rise <= i < last
      {
        assert s[rise].time < s[last].time;
        assert i < rise ==> s[i].time < s[rise].time;
        assert rise < i ==> s[rise].time < s[i].time;
        assert i < last ==> s[i].time < s[last].time;
        assert last < i ==> s[last].time < s[i].time;
      }
      assert s[last].elevation < h && (rise > 0 ==> s[rise - 1].elevation < h);
      forall i | 0 <= i < rise
        ensures s[i].time < s[0].time + DAY
      {
        assert s[i].time < s[|s| - 1].time;
      }
      hide WindowOf, IsDesired, FirstRise, LastSet;
    } else {
      assert forall i :: 0 < i < |s| ==> s[0].time < s[i].time;
    }
  }

  /** A source that sets, rises and sets: its first pass is lost. */
  lemma PassBeforeTheRiseIsLost()
    ensures var s := [Sample(0, 1.0), Sample(10, -1.0), Sample(20, 1.0), Sample(30, -1.0)];
      OverOneDay(s) && !IsDesired(WindowOf(s, 0.0, 0), 0) && IsDesired(WindowOf(s, 0.0, 0), 20)
  {
    var s := [Sample(0, 1.0), Sample(10, -1.0), Sample(20, 1.0), Sample(30, -1.0)];
    assert Rises(s, 0.0, 2) && Sets(s, 0.0, 3) && !Rises(s, 0.0, 0) && !Rises(s, 0.0, 1);
    assert FirstRise(s, 0.0, 0) == 2 && LastSet(s, 0.0, 4) == 3;
  }

  /** A source that rises, sets and rises: its last pass is lost. */
  lemma PassAfterTheSetIsLost()
    ensures var s := [Sample(0, -1.0), Sample(10, 1.0), Sample(20, -1.0), Sample(30, 1.0)];
      OverOneDay(s) && IsDesired(WindowOf(s, 0.0, 0), 10) && !IsDesired(WindowOf(s, 0.0, 0), 30)
  {
    var s := [Sample(0, -1.0), Sample(10, 1.0), Sample(20, -1.0), Sample(30, 1.0)];
    assert Rises(s, 0.0, 1) && Sets(s, 0.0, 2) && !Rises(s, 0.0, 0) && !Sets(s, 0.0, 3);
    assert FirstRise(s, 0.0, 0) == 1 && LastSet(s, 0.0, 4) == 2;
  }

  /** A window that is given is never empty, and none is given exactly when nothing is left of it. */
  lemma WindowIsNeverEmpty(s: seq<Sample>, h: real, margin: int)
    requires OverOneDay(s) && margin >= 0
    ensures WindowOf(s, h, margin).Some? <==> exists now :: IsDesired(WindowOf(s, h, margin), now)
    ensures var whole := WindowOf(s, h, 0);
      WindowOf(s, h, margin).Some? <==> whole.Some? && whole.value.stop - whole.value.start > 2 * margin
  {
    var w := WindowOf(s, h, margin);
    if w.Some? {
      assert IsDesired(w, w.value.start);
    }
  }

  /** Without margin there is no window exactly when no sample is above the horizon and no rise comes before a set. */
  lemma NoWindowExactlyBelow(s: seq<Sample>, h: real)
    requires OverOneDay(s)
    ensures WindowOf(s, h, 0).None? <==>
      && (forall i :: 0 <= i < |s| ==> s[i].elevation <= h)
      && (forall i, j :: 0 < i < j < |s| && Rises(s, h, i) ==> !Sets(s, h, j))
  {
    var rise, set_ := FirstRise(s, h, 0), LastSet(s, h, |s|);
    assert rise < set_ ==> Rises(s, h, rise) && Sets(s, h, set_);
    hide FirstRise, LastSet;
    forall i, j | 0 < i < j < |s| && Rises(s, h, i) && Sets(s, h, j)
      ensures rise < set_
    {
      assert rise <= i && j <= set_;
    }
  }

  /** A source above the horizon all day has the whole day, midnight to midnight. */
  lemma AboveAllDay(s: seq<Sample>, h: real)
    requires OverOneDay(s) && forall i :: 0 <= i < |s| ==> s[i].elevation > h
    ensures WindowOf(s, h, 0) == Some(Window(s[0].time, s[0].time + 1440))
  {
    assert forall i :: 0 <= i < |s| ==> !Sets(s, h, i) && !Rises(s, h, i);
    assert s[0].elevation > h;
  }

  /** A margin only ever takes time away, the same at both ends. */
  lemma MarginTrims(s: seq<Sample>, h: real, margin: int, now: int)
    requires OverOneDay(s) && margin >= 0
    ensures IsDesired(WindowOf(s, h, margin), now)
       <==> IsDesired(WindowOf(s, h, 0), now - margin) && IsDesired(WindowOf(s, h, 0), now + margin)
  {
  }
}
