/**
 What the supervision keeps over whole runs: the operator's intent, the daily overview, and why a tick stops a job.
 */
module SupervisionRuns {
  import opened Wrappers
  import opened Supervision

  // ---- A tick visits every instrument on its own ----

  /** What concerns one instrument. */
  datatype Part = Part(job: Option<Job>, row: Runtime, overview: Option<nat>)

  function PartOf(w: World, i: nat): Part {
    Part(if i in w.jobs then Some(w.jobs[i]) else None, RowOf(w.rows, i),
         if i in w.overviews then Some(w.overviews[i]) else None)
  }

  lemma DecisionsAreLocal(cfg: Config, w: World, v: World, i: nat, t: Tick)
    requires i in cfg.instruments && PartOf(w, i) == PartOf(v, i)
    ensures var inst := cfg.instruments[i];
      && Desired(inst, w.rows, i, t) == Desired(inst, v.rows, i, t)
      && IsRecording(w.jobs, i) == IsRecording(v.jobs, i)
      && OverviewDue(inst, Reconciled(w.jobs, i), w.overviews, i, t)
         == OverviewDue(inst, Reconciled(v.jobs, i), v.overviews, i, t)
      && PartOf(w.(jobs := Reconciled(w.jobs, i)), i) == PartOf(v.(jobs := Reconciled(v.jobs, i)), i)
  {
    hide GateOk, MinuteOfDay, Date, InWindow;
    assert i in w.jobs <==> i in v.jobs;
    assert i in w.overviews <==> i in v.overviews;
  }

  /** A visit looks only at its own instrument, and changes only what concerns it. */
  lemma VisitIsLocal(cfg: Config, w: World, v: World, i: nat, t: Tick)
    requires i in cfg.instruments && PartOf(w, i) == PartOf(v, i)
    ensures PartOf(Visited(cfg, w, i, t).0, i) == PartOf(Visited(cfg, v, i, t).0, i)
    ensures Visited(cfg, w, i, t).1 == Visited(cfg, v, i, t).1
  {
    DecisionsAreLocal(cfg, w, v, i, t);
    hide GateOk, Date, OverviewDue, Desired, Reconciled, PartOf;
    var inst, jobs := cfg.instruments[i], Reconciled(w.jobs, i);
    if Desired(inst, w.rows, i, t) && GateOk(cfg, t) && !IsRecording(jobs, i) {
      StartIsLocal(w.(jobs := jobs), v.(jobs := Reconciled(v.jobs, i)), i);
    } else if !Desired(inst, w.rows, i, t) && IsRecording(jobs, i) {
      StopIsLocal(w.(jobs := jobs), v.(jobs := Reconciled(v.jobs, i)), i);
    } else {
      OverviewIsLocal(w.(jobs := jobs), v.(jobs := Reconciled(v.jobs, i)), i, t);
    }
  }

  lemma StartIsLocal(w: World, v: World, i: nat)
    requires PartOf(w, i) == PartOf(v, i)
    ensures PartOf(w.(jobs := Started(w.jobs, i), rows := Reported(w.rows, i, Recording)), i)
         == PartOf(v.(jobs := Started(v.jobs, i), rows := Reported(v.rows, i, Recording)), i)
  {
  }

  lemma StopIsLocal(w: World, v: World, i: nat)
    requires PartOf(w, i) == PartOf(v, i)
    ensures IsRecording(w.jobs, i) == IsRecording(v.jobs, i)
    ensures PartOf(w.(jobs := AskedToStop(w.jobs, i)), i) == PartOf(v.(jobs := AskedToStop(v.jobs, i)), i)
  {
    assert i in w.jobs <==> i in v.jobs;
  }

  lemma OverviewIsLocal(w: World, v: World, i: nat, t: Tick)
    requires PartOf(w, i) == PartOf(v, i)
    ensures IsRecording(w.jobs, i) == IsRecording(v.jobs, i)
    ensures PartOf(w.(overviews := w.overviews[i := Date(t.now)], done := w.done + [(i, Date(t.now))]), i)
         == PartOf(v.(overviews := v.overviews[i := Date(t.now)], done := v.done + [(i, Date(t.now))]), i)
  {
    hide Date;
    assert i in w.jobs <==> i in v.jobs;
  }

  lemma VisitChangesNoOther(cfg: Config, w: World, i: nat, t: Tick)
    requires i in cfg.instruments
    ensures forall j: nat :: j != i ==> PartOf(Visited(cfg, w, i, t).0, j) == PartOf(w, j)
  {
    hide GateOk, Date, OverviewDue, Desired;
  }

  predicate Distinct(ids: seq<nat>) { forall i, j :: 0 <= i < j < |ids| ==> ids[i] != ids[j] }

  predicate Known(cfg: Config, ids: seq<nat>) { forall k :: 0 <= k < |ids| ==> ids[k] in cfg.instruments }

  /** What a tour leaves of an instrument: its visit from the state before the tour, if it came to it. */
  lemma {:induction false} TourVisitsOnce(cfg: Config, w: World, ids: seq<nat>, t: Tick, i: nat)
    requires Known(cfg, ids) && Distinct(ids)
    ensures var (next, finished) := Toured(cfg, w, ids, t);
      var visits := i in ids && cfg.instruments[i].enabled;
      && (PartOf(next, i) == PartOf(w, i) || (visits && PartOf(next, i) == PartOf(Visited(cfg, w, i, t).0, i)))
      && (finished && visits ==> PartOf(next, i) == PartOf(Visited(cfg, w, i, t).0, i) && Visited(cfg, w, i, t).1)
    decreases |ids|
  {
    hide Visited, PartOf;
    if ids != [] {
      var j := ids[0];
      if cfg.instruments[j].enabled {
        var (next, ok) := Visited(cfg, w, j, t);
        VisitChangesNoOther(cfg, w, j, t);
        if ok {
          TourVisitsOnce(cfg, next, ids[1..], t, i);
          if i in cfg.instruments && i != j {
            VisitIsLocal(cfg, next, w, i, t);
          }
        }
      } else {
        TourVisitsOnce(cfg, w, ids[1..], t, i);
      }
    }
  }

  /** A tick runs to its end exactly when no overview that is due fails. */
  lemma {:induction false} TourFinishes(cfg: Config, w: World, ids: seq<nat>, t: Tick)
    requires Known(cfg, ids) && Distinct(ids)
    ensures Toured(cfg, w, ids, t).1 <==>
      forall k :: 0 <= k < |ids| && cfg.instruments[ids[k]].enabled ==> Visited(cfg, w, ids[k], t).1
    decreases |ids|
  {
    hide Visited, PartOf;
    if ids != [] {
      var j := ids[0];
      if cfg.instruments[j].enabled {
        var (next, ok) := Visited(cfg, w, j, t);
        TourFinishes(cfg, next, ids[1..], t);
        forall k | 0 < k < |ids|
          ensures Visited(cfg, next, ids[k], t).1 == Visited(cfg, w, ids[k], t).1
        {
          VisitChangesNoOther(cfg, w, j, t);
          VisitIsLocal(cfg, next, w, ids[k], t);
        }
      } else {
        TourFinishes(cfg, w, ids[1..], t);
      }
      assert forall k :: 0 < k < |ids| ==> ids[1..][k - 1] == ids[k];
    }
  }

  /** The overview that would end the tick here. */
  predicate OverviewFails(cfg: Config, w: World, i: nat, t: Tick)
    requires i in cfg.instruments
  {
    var inst, jobs := cfg.instruments[i], Reconciled(w.jobs, i);
    && OverviewDue(inst, jobs, w.overviews, i, t) && i !in t.succeeds
    && !(Desired(inst, w.rows, i, t) && GateOk(cfg, t))
  }

  /**
   A tick reaches every enabled instrument exactly when none of them has an overview due that fails while it is not
   being started; a failing one leaves the instruments behind it unattended.
   */
  lemma TickIsCompleteExactlyWithoutFailingOverview(cfg: Config, w: World, t: Tick)
    requires cfg.Valid()
    ensures Toured(cfg, w, cfg.order, t).1 <==>
      forall i <- cfg.instruments :: cfg.instruments[i].enabled ==> !OverviewFails(cfg, w, i, t)
  {
    TourFinishes(cfg, w, cfg.order, t);
    forall i | i in cfg.instruments
      ensures Visited(cfg, w, i, t).1 <==> !OverviewFails(cfg, w, i, t)
    {
      hide GateOk, MinuteOfDay, Date, InWindow;
    }
    hide Visited, OverviewFails, Toured;
    forall i | i in cfg.instruments && cfg.instruments[i].enabled
      ensures exists k :: 0 <= k < |cfg.order| && cfg.order[k] == i
    {
      assert i in cfg.order;
    }
  }

  /** Only loss of intent makes a tick stop a recording, whatever the clock says, and then it does. */
  lemma TickStopsExactlyOnLossOfIntent(cfg: Config, w: World, t: Tick, i: nat)
    requires cfg.Valid() && i in cfg.instruments && cfg.instruments[i].enabled
    requires i in w.jobs && w.jobs[i] == Job(Recording, true, false)
    ensures var (next, finished) := Toured(cfg, w, cfg.order, t);
      var desired := Desired(cfg.instruments[i], w.rows, i, t);
      && i in next.jobs
      && (desired ==> next.jobs[i] == w.jobs[i])
      && (!desired && finished ==> next.jobs[i] == w.jobs[i].(stopping := true))
  {
    TourVisitsOnce(cfg, w, cfg.order, t, i);
    hide Toured, GateOk, OverviewDue, InWindow;
    assert PartOf(w, i).job.Some?;
  }

  /** After a complete tick the recordings are what is wanted, as far as the clock allows starting them. */
  lemma TickConverges(cfg: Config, w: World, t: Tick, i: nat)
    requires cfg.Valid() && i in cfg.instruments && cfg.instruments[i].enabled && Toured(cfg, w, cfg.order, t).1
    ensures var next := Toured(cfg, w, cfg.order, t).0;
      var desired := Desired(cfg.instruments[i], w.rows, i, t);
      && (desired && GateOk(cfg, t) ==> IsRecording(next.jobs, i) && next.jobs[i].alive)
      && (!desired ==> IsRecording(next.jobs, i) ==> next.jobs[i].stopping)
      && (!desired || !GateOk(cfg, t) ==> IsRecording(next.jobs, i) ==> IsRecording(w.jobs, i))
  {
    TourVisitsOnce(cfg, w, cfg.order, t, i);
    hide Toured, GateOk, OverviewDue, InWindow;
    assert i in cfg.order;
    var next := Visited(cfg, w, i, t).0;
    assert PartOf(Toured(cfg, w, cfg.order, t).0, i) == PartOf(next, i);
    assert IsRecording(next.jobs, i) <==> PartOf(next, i).job.Some? && PartOf(next, i).job.value.state.Recording?;
  }

  // ---- A tick in seconds ----

  /** Wanted by today's window, in seconds, or by the flag in the row. */
  predicate Wanted(inst: Instrument, w: World, i: nat, t: Tick) {
    if inst.windowed then i in t.windows && t.windows[i].start <= t.now && t.now < t.windows[i].stop
    else i in w.rows && w.rows[i].desired
  }

  /** A clock known to be out of step where that matters, or off by more than a positive limit. */
  predicate ClockIsBad(cfg: Config, t: Tick) {
    || (cfg.requireSync && t.synced.Some? && !t.synced.value)
    || (cfg.maxOffset > 0.0 && t.offset.Some?
        && (t.offset.value > cfg.maxOffset || t.offset.value < 0.0 - cfg.maxOffset))
  }

  predicate Live(p: Part) { p.job.Some? && p.job.value.state.Recording? && p.job.value.alive }

  /** What a visit at the second `second` of the day `today` leaves of an instrument. */
  predicate Attended(inst: Instrument, before: Part, after: Part, wanted: bool, clockIsBad: bool,
                     today: nat, second: nat, succeeds: bool)
  {
    var starts := wanted && !clockIsBad;
    var dead := before.job.Some? && before.job.value.state.Recording? && !before.job.value.alive;
    var due := && inst.windowed && inst.overviewAt.Some? && second >= 60 * inst.overviewAt.value
               && before.overview != Some(today) && !Live(before) && !starts;
    && (Live(before) && wanted ==> after.job == before.job)
    && (Live(before) && !wanted ==> after.job == Some(before.job.value.(stopping := true)))
    && (!Live(before) && starts ==> after.job == Some(Job(Recording, true, false)))
    && (dead && !starts ==> after.job == Some(before.job.value.(state := Error)))
    && (!Live(before) && !dead && !starts ==> after.job == before.job)
    && after.row == before.row.(state := if !Live(before) && starts then Recording else before.row.state)
    && after.overview == if due && succeeds then Some(today) else before.overview
  }

  /**
   A complete tick starts, stops and leaves alone as its window in seconds, the flag, and the reading of the clock
   say, and runs the overview of the day exactly from its minute on.
   */
  lemma TickAttends(cfg: Config, w: World, t: Tick, i: nat, today: nat, second: nat)
    requires cfg.Valid() && i in cfg.instruments && cfg.instruments[i].enabled && Toured(cfg, w, cfg.order, t).1
    requires t.now == 86400 * today + second && second < 86400
    ensures var inst := cfg.instruments[i];
      Attended(inst, PartOf(w, i), PartOf(Toured(cfg, w, cfg.order, t).0, i),
               Wanted(inst, w, i, t), ClockIsBad(cfg, t), today, second, true)
  {
    TourVisitsOnce(cfg, w, cfg.order, t, i);
    assert i in cfg.order;
    hide Toured;
    VisitAttends(cfg, w, t, i, today, second, true);
    hide *;
  }

  /** A visit does so whether its overview succeeds or fails and ends the tick. */
  lemma VisitAttends(cfg: Config, w: World, t: Tick, i: nat, today: nat, second: nat, succeeds: bool)
    requires i in cfg.instruments && (succeeds == (i in t.succeeds) || (succeeds && Visited(cfg, w, i, t).1))
    requires t.now == 86400 * today + second && second < 86400
    ensures var inst := cfg.instruments[i];
      Attended(inst, PartOf(w, i), PartOf(Visited(cfg, w, i, t).0, i),
               Wanted(inst, w, i, t), ClockIsBad(cfg, t), today, second, succeeds)
  {
    var inst, jobs := cfg.instruments[i], Reconciled(w.jobs, i);
    assert Desired(inst, w.rows, i, t) == Wanted(inst, w, i, t);
    assert GateOk(cfg, t) == !ClockIsBad(cfg, t);
    SecondsOfTheDay(t.now, today, second);
    hide Desired, Wanted, GateOk, ClockIsBad, Date, MinuteOfDay;
    assert IsRecording(jobs, i) == Live(PartOf(w, i));
  }

  lemma SecondsOfTheDay(now: nat, today: nat, second: nat)
    requires now == 86400 * today + second && second < 86400
    ensures Date(now) == today
    ensures forall m: nat :: MinuteOfDay(now) >= m <==> second >= 60 * m
  {
  }

  // ---- Runs ----

  /** What happens to the supervision; a process start with a new boot id is a reboot. */
  datatype Event =
    | Record(i: nat)
    | Stop(i: nat)
    | Ticked(t: Tick)
    | JobEnded(i: nat, failed: bool)
    | ThreadDied(i: nat)
    | ProcessStarted(bootId: string)

  /** A job's thread ends by reporting its last state; a job without a living thread reports nothing more. */
  function Ended(w: World, i: nat, failed: bool): World {
    if i in w.jobs && w.jobs[i].alive then
      var s := if failed then Error else Idle;
      w.(jobs := w.jobs[i := w.jobs[i].(state := s, alive := false)], rows := Reported(w.rows, i, s))
    else w
  }

  function Step(cfg: Config, w: World, e: Event): World
    requires cfg.Valid()
  {
    match e
    case Record(i) => if i in cfg.instruments then w.(rows := Wished(w.rows, i, true)) else w
    case Stop(i) => w.(rows := Wished(w.rows, i, false), jobs := AskedToStop(w.jobs, i))
    case Ticked(t) => Toured(cfg, w, cfg.order, t).0
    case JobEnded(i, failed) => Ended(w, i, failed)
    case ThreadDied(i) => if i in w.jobs then w.(jobs := w.jobs[i := w.jobs[i].(alive := false)]) else w
    case ProcessStarted(bootId) => Booted(cfg, w, bootId)
  }

  function Run(cfg: Config, w: World, events: seq<Event>): World
    requires cfg.Valid()
    decreases |events|
  {
    if events == [] then w else Step(cfg, Run(cfg, w, events[..|events| - 1]), events[|events| - 1])
  }

  /** An operator's stop reaches the recording it names, and nobody else's; so does the death of a thread. */
  lemma EventsReachOneJob(cfg: Config, w: World, i: nat, j: nat)
    requires cfg.Valid() && i in w.jobs && w.jobs[i].state.Recording? && j != i
    ensures var v := Step(cfg, w, Stop(i));
      && i in v.jobs && v.jobs[i] == w.jobs[i].(stopping := true) && !RowOf(v.rows, i).desired
      && PartOf(v, j) == PartOf(w, j)
    ensures var v := Step(cfg, w, ThreadDied(i));
      && i in v.jobs && v.jobs[i] == w.jobs[i].(alive := false)
      && PartOf(v, j) == PartOf(w, j)
  {
  }

  // ---- The operator's intent ----

  /** The boot id that the last process start has left. */
  function LastBoot(marker: Option<string>, events: seq<Event>): Option<string>
    decreases |events|
  {
    if events == [] then marker
    else
      var e := events[|events| - 1];
      if e.ProcessStarted? then Some(e.bootId) else LastBoot(marker, events[..|events| - 1])
  }

  /** The last command since the last reboot, else the boot flag, else what was there before. */
  function LastIntent(inst: Instrument, i: nat, w: World, events: seq<Event>): bool
    decreases |events|
  {
    if events == [] then RowOf(w.rows, i).desired
    else
      var e, before := events[|events| - 1], events[..|events| - 1];
      if e == Record(i) then true
      else if e == Stop(i) then false
      else if e.ProcessStarted? && LastBoot(w.marker, before) != Some(e.bootId) then inst.startOnBoot
      else LastIntent(inst, i, w, before)
  }

  lemma {:induction false} BootMarker(cfg: Config, w: World, events: seq<Event>)
    requires cfg.Valid()
    ensures Run(cfg, w, events).marker == LastBoot(w.marker, events)
    decreases |events|
  {
    hide Visited;
    if events != [] {
      BootMarker(cfg, w, events[..|events| - 1]);
      var e := events[|events| - 1];
      if e.Ticked? {
        TourKeepsIntent(cfg, Run(cfg, w, events[..|events| - 1]), cfg.order, e.t, 0);
      }
    }
  }

  /** No tick touches an intent or the boot marker. */
  lemma {:induction false} TourKeepsIntent(cfg: Config, w: World, ids: seq<nat>, t: Tick, i: nat)
    requires Known(cfg, ids)
    ensures RowOf(Toured(cfg, w, ids, t).0.rows, i).desired == RowOf(w.rows, i).desired
    ensures Toured(cfg, w, ids, t).0.marker == w.marker
    decreases |ids|
  {
    if ids != [] && !cfg.instruments[ids[0]].enabled {
      TourKeepsIntent(cfg, w, ids[1..], t, i);
    } else if ids != [] {
      var (next, ok) := Visited(cfg, w, ids[0], t);
      assert RowOf(next.rows, i).desired == RowOf(w.rows, i).desired && next.marker == w.marker;
      hide Visited;
      if ok {
        TourKeepsIntent(cfg, next, ids[1..], t, i);
      }
    }
  }

  lemma {:induction false} SeededFlags(cfg: Config, rows: map<nat, Runtime>, ids: seq<nat>, i: nat)
    requires Known(cfg, ids)
    ensures RowOf(Seeded(cfg, rows, ids), i).desired
         == if i in ids && !cfg.instruments[i].windowed then cfg.instruments[i].startOnBoot else RowOf(rows, i).desired
    ensures RowOf(Seeded(cfg, rows, ids), i).state == RowOf(rows, i).state
    decreases |ids|
  {
    if ids != [] {
      var inst := cfg.instruments[ids[0]];
      SeededFlags(cfg, if inst.windowed then rows else Wished(rows, ids[0], inst.startOnBoot), ids[1..], i);
    }
  }

  /**
   Intent over restarts: whatever commands, ticks, ending jobs, restarts and reboots happen, the flag of an instrument
   without a window is its last command since the last reboot, or its boot flag if there was none.
   */
  lemma {:induction false} IntentOverRestarts(cfg: Config, w: World, events: seq<Event>, i: nat)
    requires cfg.Valid() && i in cfg.instruments && !cfg.instruments[i].windowed
    ensures RowOf(Run(cfg, w, events).rows, i).desired == LastIntent(cfg.instruments[i], i, w, events)
    decreases |events|
  {
    if events != [] {
      var before, e := events[..|events| - 1], events[|events| - 1];
      IntentOverRestarts(cfg, w, before, i);
      BootMarker(cfg, w, before);
      hide Step;
      IntentAfter(cfg, Run(cfg, w, before), e, i);
    }
  }

  /** What one event makes of an intent. */
  lemma IntentAfter(cfg: Config, w: World, e: Event, i: nat)
    requires cfg.Valid() && i in cfg.instruments && !cfg.instruments[i].windowed
    ensures RowOf(Step(cfg, w, e).rows, i).desired
      == if e == Record(i) then true
         else if e == Stop(i) then false
         else if e.ProcessStarted? && w.marker != Some(e.bootId) then cfg.instruments[i].startOnBoot
         else RowOf(w.rows, i).desired
  {
    hide Run, Toured, Visited;
    if e.Ticked? {
      TourKeepsIntent(cfg, w, cfg.order, e.t, i);
    } else if e.ProcessStarted? {
      SeededFlags(cfg, Settled(w.rows), cfg.order, i);
      assert i in cfg.order;
    }
  }

  // ---- What the persisted rows say ----

  /** A job that records is shown as recording. */
  predicate Shown(w: World) { forall i <- w.jobs :: w.jobs[i].state.Recording? ==> RowOf(w.rows, i).state.Recording? }

  /** Right after a process start nothing records, and no row says that it does; errors stay on show. */
  lemma NothingRecordsAfterStart(cfg: Config, w: World, bootId: string, i: nat)
    requires cfg.Valid()
    ensures var v := Booted(cfg, w, bootId);
      && v.jobs == map[]
      && RowOf(v.rows, i).state == if RowOf(w.rows, i).state.Error? then Error else Idle
  {
    SeededFlags(cfg, Settled(w.rows), cfg.order, i);
  }

  /**
   How a recording ended stays on show, an error as an error, through everything that follows but a tick: commands,
   process starts, and further reports of the same job, which has ended.
   */
  lemma {:induction false} EndStaysOnShow(cfg: Config, w: World, i: nat, failed: bool, events: seq<Event>)
    requires cfg.Valid() && i in w.jobs && w.jobs[i].alive && forall e <- events :: !e.Ticked?
    ensures var v := Run(cfg, Step(cfg, w, JobEnded(i, failed)), events);
      && (i in v.jobs ==> !v.jobs[i].alive)
      && RowOf(v.rows, i).state == if failed then Error else Idle
    decreases |events|
  {
    if events != [] {
      var before, e := events[..|events| - 1], events[|events| - 1];
      EndStaysOnShow(cfg, w, i, failed, before);
      hide Step, RowOf;
      EndStays(cfg, Run(cfg, Step(cfg, w, JobEnded(i, failed)), before), e, i);
    } else {
      hide Toured, Booted;
    }
  }

  lemma EndStays(cfg: Config, v: World, e: Event, i: nat)
    requires cfg.Valid() && !e.Ticked? && (i in v.jobs ==> !v.jobs[i].alive) && !RowOf(v.rows, i).state.Recording?
    ensures var u := Step(cfg, v, e);
      (i in u.jobs ==> !u.jobs[i].alive) && RowOf(u.rows, i).state == RowOf(v.rows, i).state
  {
    hide Toured, Visited, Seeded, Settled, Run;
    if e.ProcessStarted? {
      NothingRecordsAfterStart(cfg, v, e.bootId, i);
    }
  }

  lemma {:induction false} TourKeepsShown(cfg: Config, w: World, ids: seq<nat>, t: Tick)
    requires Known(cfg, ids) && Shown(w)
    ensures Shown(Toured(cfg, w, ids, t).0)
    decreases |ids|
  {
    if ids != [] && !cfg.instruments[ids[0]].enabled {
      TourKeepsShown(cfg, w, ids[1..], t);
    } else if ids != [] {
      VisitKeepsShown(cfg, w, ids[0], t);
      hide Visited, Shown;
      var (next, ok) := Visited(cfg, w, ids[0], t);
      if ok {
        TourKeepsShown(cfg, next, ids[1..], t);
      }
    }
  }

  lemma VisitKeepsShown(cfg: Config, w: World, i: nat, t: Tick)
    requires i in cfg.instruments && Shown(w)
    ensures Shown(Visited(cfg, w, i, t).0)
  {
    hide GateOk, OverviewDue, Desired, Date;
  }

  /** Over every run, a recording instrument is shown as recording to the other processes. */
  lemma {:induction false} RecordingsAreShown(cfg: Config, w: World, events: seq<Event>)
    requires cfg.Valid() && Shown(w)
    ensures Shown(Run(cfg, w, events))
    decreases |events|
  {
    hide Step, Shown;
    if events != [] {
      RecordingsAreShown(cfg, w, events[..|events| - 1]);
      StepKeepsShown(cfg, Run(cfg, w, events[..|events| - 1]), events[|events| - 1]);
    }
  }

  lemma StepKeepsShown(cfg: Config, w: World, e: Event)
    requires cfg.Valid() && Shown(w)
    ensures Shown(Step(cfg, w, e))
  {
    hide Run, Toured, Visited, Seeded, Settled, Wished;
    match e
    case Record(i) => WishKeepsShown(w, i, true);
    case Stop(i) => WishKeepsShown(w, i, false);
    case Ticked(t) => TourKeepsShown(cfg, w, cfg.order, t);
    case JobEnded(i, failed) =>
    case ThreadDied(i) =>
    case ProcessStarted(bootId) =>
  }

  lemma WishKeepsShown(w: World, i: nat, desired: bool)
    requires Shown(w)
    ensures Shown(w.(rows := Wished(w.rows, i, desired)))
    ensures Shown(w.(rows := Wished(w.rows, i, desired), jobs := AskedToStop(w.jobs, i)))
  {
  }

  // ---- The scheduled overview ----

  /** The ticks come in time order. */
  predicate InTime(start: nat, events: seq<Event>)
    decreases |events|
  {
    events == [] || (
      && InTime(start, events[..|events| - 1])
      && (events[|events| - 1].Ticked? ==> LastTick(start, events[..|events| - 1]) <= events[|events| - 1].t.now))
  }

  function LastTick(start: nat, events: seq<Event>): nat
    decreases |events|
  {
    if events == [] then start
    else if events[|events| - 1].Ticked? then events[|events| - 1].t.now
    else LastTick(start, events[..|events| - 1])
  }

  /** The overviews of one instrument were done on later and later dates, the last of them remembered. */
  predicate OncePerDay(w: World, now: nat) { Increasing(w, now) && Remembered(w) }

  predicate Increasing(w: World, now: nat) {
    && (forall a, b :: 0 <= a < b < |w.done| && w.done[a].0 == w.done[b].0 ==> w.done[a].1 < w.done[b].1)
    && (forall a :: 0 <= a < |w.done| ==> w.done[a].0 in w.overviews && w.done[a].1 <= w.overviews[w.done[a].0])
    && (forall i <- w.overviews :: w.overviews[i] <= Date(now))
  }

  predicate Remembered(w: World) { forall i <- w.overviews :: (i, w.overviews[i]) in w.done }

  lemma VisitKeepsOncePerDay(cfg: Config, w: World, i: nat, t: Tick)
    requires i in cfg.instruments && OncePerDay(w, t.now)
    ensures OncePerDay(Visited(cfg, w, i, t).0, t.now)
  {
    hide GateOk, Desired, Date, MinuteOfDay, Increasing, Remembered;
    var v := Visited(cfg, w, i, t).0;
    if |v.done| > |w.done| {
      assert v.done == w.done + [(i, Date(t.now))];
      assert v.overviews == w.overviews[i := Date(t.now)];
      assert i in w.overviews ==> w.overviews[i] != Date(t.now);
      OverviewKeepsIncreasing(w, v, i, t.now);
      OverviewKeepsRemembered(w, v, i, t.now);
    } else {
      assert v.done == w.done && v.overviews == w.overviews;
      SameOverviews(w, v, t.now);
    }
  }

  lemma OverviewKeepsIncreasing(w: World, v: World, i: nat, now: nat)
    requires Increasing(w, now) && (i in w.overviews ==> w.overviews[i] != Date(now))
    requires v.done == w.done + [(i, Date(now))] && v.overviews == w.overviews[i := Date(now)]
    ensures Increasing(v, now)
  {
    hide Date;
  }

  lemma OverviewKeepsRemembered(w: World, v: World, i: nat, now: nat)
    requires Remembered(w)
    requires v.done == w.done + [(i, Date(now))] && v.overviews == w.overviews[i := Date(now)]
    ensures Remembered(v)
  {
    hide Date;
    assert (i, Date(now)) == v.done[|w.done|];
    forall j | j in v.overviews && j != i
      ensures (j, v.overviews[j]) in v.done
    {
      assert (j, w.overviews[j]) in w.done;
    }
  }

  lemma {:induction false} TourKeepsOncePerDay(cfg: Config, w: World, ids: seq<nat>, t: Tick)
    requires Known(cfg, ids) && OncePerDay(w, t.now)
    ensures OncePerDay(Toured(cfg, w, ids, t).0, t.now)
    decreases |ids|
  {
    if ids != [] && !cfg.instruments[ids[0]].enabled {
      TourKeepsOncePerDay(cfg, w, ids[1..], t);
    } else if ids != [] {
      VisitKeepsOncePerDay(cfg, w, ids[0], t);
      hide Visited, OncePerDay;
      var (next, ok) := Visited(cfg, w, ids[0], t);
      if ok {
        TourKeepsOncePerDay(cfg, next, ids[1..], t);
      }
    }
  }

  lemma {:induction false} DatesAreMonotone(a: nat, b: nat)
    requires a <= b
    ensures Date(a) <= Date(b)
  {
  }

  /**
   Over every run whose ticks come in time order, restarts included, each instrument has at most one scheduled
   overview per UT date.
   */
  lemma {:induction false} OneOverviewPerDay(cfg: Config, w: World, start: nat, events: seq<Event>)
    requires cfg.Valid() && OncePerDay(w, start) && InTime(start, events)
    ensures OncePerDay(Run(cfg, w, events), LastTick(start, events))
    decreases |events|
  {
    if events != [] {
      var before, e := events[..|events| - 1], events[|events| - 1];
      hide OncePerDay, Step;
      OneOverviewPerDay(cfg, w, start, before);
      StepKeepsOncePerDay(cfg, Run(cfg, w, before), e, LastTick(start, before));
    }
  }

  lemma StepKeepsOncePerDay(cfg: Config, w: World, e: Event, now: nat)
    requires cfg.Valid() && OncePerDay(w, now) && (e.Ticked? ==> now <= e.t.now)
    ensures OncePerDay(Step(cfg, w, e), if e.Ticked? then e.t.now else now)
  {
    if e.Ticked? {
      DatesAreMonotone(now, e.t.now);
      hide Date;
      assert OncePerDay(w, e.t.now);
      TourKeepsOncePerDay(cfg, w, cfg.order, e.t);
    } else {
      hide Toured, Visited, Seeded, Settled, Wished, Reported, AskedToStop;
      assert Step(cfg, w, e).done == w.done && Step(cfg, w, e).overviews == w.overviews;
      SameOverviews(w, Step(cfg, w, e), now);
    }
  }

  lemma SameOverviews(w: World, v: World, now: nat)
    requires OncePerDay(w, now) && v.done == w.done && v.overviews == w.overviews
    ensures OncePerDay(v, now)
  {
  }
}
