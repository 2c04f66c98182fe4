/**
 The scheduler's intent state machine: the job registry (services/recorder.py), the persisted intent
 (services/recorder_state.py) and the tick and start-up of services/scheduler_service.py, over whole runs
 of commands, ticks, ending jobs, restarts and reboots. The configuration is fixed.
 */
module Supervision {
  import opened Wrappers

  datatype State = Idle | Recording | Error

  /** A job: its reported state, whether its thread lives, and whether its driver was asked to stop. */
  datatype Job = Job(state: State, alive: bool, stopping: bool)

  /** The persisted row of an instrument. */
  datatype Runtime = Runtime(state: State, desired: bool)

  const NO_ROW := Runtime(Idle, false)

  /** An instrument; `windowed` when an enabled schedule owns the intent, `overviewAt` in minutes of the day. */
  datatype Instrument = Instrument(enabled: bool, startOnBoot: bool, windowed: bool, overviewAt: Option<nat>)

  /** The instruments and the order in which they are visited. */
  datatype Config = Config(instruments: map<nat, Instrument>, order: seq<nat>, requireSync: bool, maxOffset: real) {
    predicate Valid() {
      && (forall i :: 0 <= i < |order| ==> order[i] in instruments)
      && (forall i, j :: 0 <= i < j < |order| ==> order[i] != order[j])
      && (forall id <- instruments :: id in order)
    }
  }

  datatype Window = Window(start: nat, stop: nat)

  /** The moment of a tick in seconds, the state of the clock, today's windows, and which overviews would succeed. */
  datatype Tick = Tick(
    now: nat, synced: Option<bool>, offset: Option<real>, windows: map<nat, Window>, succeeds: set<nat>)

  function Date(now: nat): nat { now / 86400 }

  function MinuteOfDay(now: nat): nat { now % 86400 / 60 }

  /** Recording may start unless the clock is known to be bad. */
  predicate GateOk(cfg: Config, t: Tick) {
    && !(cfg.requireSync && t.synced == Some(false))
    && (cfg.maxOffset <= 0.0 || t.offset.None? || -cfg.maxOffset <= t.offset.value <= cfg.maxOffset)
  }

  /**
   Everything the supervision keeps: the jobs of the process, and what survives it. `done` records every scheduled
   overview that completed, as instrument and date.
   */
  datatype World = World(
    jobs: map<nat, Job>, rows: map<nat, Runtime>, marker: Option<string>, overviews: map<nat, nat>,
    done: seq<(nat, nat)>)

  function RowOf(rows: map<nat, Runtime>, i: nat): Runtime { if i in rows then rows[i] else NO_ROW }

  function Reported(rows: map<nat, Runtime>, i: nat, s: State): map<nat, Runtime> {
    rows[i := RowOf(rows, i).(state := s)]
  }

  function Wished(rows: map<nat, Runtime>, i: nat, desired: bool): map<nat, Runtime> {
    rows[i := RowOf(rows, i).(desired := desired)]
  }

  predicate IsRecording(jobs: map<nat, Job>, i: nat) { i in jobs && jobs[i].state.Recording? }

  /** A job that claims to record but whose thread has died is an error. */
  function Reconciled(jobs: map<nat, Job>, i: nat): map<nat, Job> {
    if IsRecording(jobs, i) && !jobs[i].alive then jobs[i := jobs[i].(state := Error)] else jobs
  }

  function Started(jobs: map<nat, Job>, i: nat): map<nat, Job> { jobs[i := Job(Recording, true, false)] }

  function AskedToStop(jobs: map<nat, Job>, i: nat): map<nat, Job> {
    if IsRecording(jobs, i) then jobs[i := jobs[i].(stopping := true)] else jobs
  }

  /** The registry of running recordings. */
  class RecorderService {
    var jobs: map<nat, Job>

    constructor ()
      ensures jobs == map[]
    {
      jobs := map[];
    }

    method Status(i: nat) returns (s: State)
      modifies this
      ensures jobs == Reconciled(old(jobs), i)
      ensures s == if i in jobs then jobs[i].state else Idle
    {
      if i !in jobs {
        return Idle;
      }
      if jobs[i].state.Recording? && !jobs[i].alive {
        jobs := jobs[i := jobs[i].(state := Error)];
      }
      s := jobs[i].state;
    }

    /** Refused while the instrument records. */
    method Start(i: nat) returns (ok: bool)
      modifies this
      ensures ok == !IsRecording(old(jobs), i)
      ensures jobs == if ok then Started(old(jobs), i) else old(jobs)
    {
      if i in jobs && jobs[i].state.Recording? {
        return false;
      }
      jobs := jobs[i := Job(Recording, true, false)];
      ok := true;
    }

    method Stop(i: nat)
      modifies this
      ensures jobs == AskedToStop(old(jobs), i)
    {
      if i in jobs && jobs[i].state.Recording? {
        jobs := jobs[i := jobs[i].(stopping := true)];
      }
    }

    method Finish(i: nat, failed: bool)
      modifies this
      ensures jobs == if i in old(jobs)
        then old(jobs)[i := old(jobs)[i].(state := if failed then Error else Idle)] else old(jobs)
    {
      if i in jobs {
        jobs := jobs[i := jobs[i].(state := if failed then Error else Idle)];
      }
    }
  }

  /** What survives the process: the runtime rows, the boot marker, and the date of each last scheduled overview. */
  class Database {
    var rows: map<nat, Runtime>
    var marker: Option<string>
    var overviews: map<nat, nat>
    ghost var done: seq<(nat, nat)>

    method Write(i: nat, s: State)
      modifies this`rows
      ensures rows == Reported(old(rows), i, s)
    {
      var row := if i in rows then rows[i] else NO_ROW;
      rows := rows[i := row.(state := s)];
    }

    method SetDesired(i: nat, desired: bool)
      modifies this`rows
      ensures rows == Wished(old(rows), i, desired)
    {
      var row := if i in rows then rows[i] else NO_ROW;
      rows := rows[i := row.(desired := desired)];
    }
  }

  // ---- One tick ----

  predicate InWindow(window: Option<Window>, now: nat) {
    window.Some? && window.value.start <= now < window.value.stop
  }

  function WindowOf(t: Tick, i: nat): Option<Window> { if i in t.windows then Some(t.windows[i]) else None }

  /** The window of a scheduled instrument is its intent; of any other, the operator's flag. */
  predicate Desired(inst: Instrument, rows: map<nat, Runtime>, i: nat, t: Tick) {
    if inst.windowed then InWindow(WindowOf(t, i), t.now) else RowOf(rows, i).desired
  }

  predicate OverviewDue(inst: Instrument, jobs: map<nat, Job>, overviews: map<nat, nat>, i: nat, t: Tick) {
    && inst.windowed && inst.overviewAt.Some?
    && !(i in overviews && overviews[i] == Date(t.now))
    && MinuteOfDay(t.now) >= inst.overviewAt.value
    && !IsRecording(jobs, i)
  }

  /** The visit of one enabled instrument; `false` when its overview fails and the tick ends there. */
  function Visited(cfg: Config, w: World, i: nat, t: Tick): (World, bool)
    requires i in cfg.instruments
  {
    var inst := cfg.instruments[i];
    var jobs := Reconciled(w.jobs, i);
    var desired := Desired(inst, w.rows, i, t);
    if desired && GateOk(cfg, t) && !IsRecording(jobs, i) then
      (w.(jobs := Started(jobs, i), rows := Reported(w.rows, i, Recording)), true)
    else if !desired && IsRecording(jobs, i) then
      (w.(jobs := AskedToStop(jobs, i)), true)
    else if OverviewDue(inst, jobs, w.overviews, i, t) then
      if i in t.succeeds then
        (w.(jobs := jobs, overviews := w.overviews[i := Date(t.now)], done := w.done + [(i, Date(t.now))]), true)
      else (w.(jobs := jobs), false)
    else (w.(jobs := jobs), true)
  }

  /** The visits of the instruments `ids`, in turn; `false` when the tick was cut short. */
  function Toured(cfg: Config, w: World, ids: seq<nat>, t: Tick): (World, bool)
    requires forall k :: 0 <= k < |ids| ==> ids[k] in cfg.instruments
    decreases |ids|
  {
    if ids == [] then (w, true)
    else if !cfg.instruments[ids[0]].enabled then Toured(cfg, w, ids[1..], t)
    else
      var (next, ok) := Visited(cfg, w, ids[0], t);
      if ok then Toured(cfg, next, ids[1..], t) else (next, false)
  }

  /** Rows left over from the process that was killed no longer say that they record. */
  function Settled(rows: map<nat, Runtime>): map<nat, Runtime> {
    map i | i in rows :: if rows[i].state.Recording? then rows[i].(state := Idle) else rows[i]
  }

  /** After a reboot every instrument without a window starts with its boot flag. */
  function Seeded(cfg: Config, rows: map<nat, Runtime>, ids: seq<nat>): map<nat, Runtime>
    requires forall k :: 0 <= k < |ids| ==> ids[k] in cfg.instruments
    decreases |ids|
  {
    if ids == [] then rows
    else
      var inst := cfg.instruments[ids[0]];
      Seeded(cfg, if inst.windowed then rows else Wished(rows, ids[0], inst.startOnBoot), ids[1..])
  }

  function Booted(cfg: Config, w: World, bootId: string): World
    requires cfg.Valid()
  {
    var rows := Settled(w.rows);
    if w.marker == Some(bootId) then w.(jobs := map[], rows := rows)
    else w.(jobs := map[], rows := Seeded(cfg, rows, cfg.order), marker := Some(bootId))
  }

  /** The scheduler of the acquiring process. */
  class SchedulerService {
    const cfg: Config
    const recorder: RecorderService
    const db: Database

    constructor (cfg: Config, recorder: RecorderService, db: Database)
      ensures this.cfg == cfg && this.recorder == recorder && this.db == db
    {
      this.cfg, this.recorder, this.db := cfg, recorder, db;
    }

    ghost function Now(): World
      reads recorder, db
    {
      World(recorder.jobs, db.rows, db.marker, db.overviews, db.done)
    }

    /** Runs the scheduled overview of the day if it is due; `false` when it fails. */
    method MaybeOverview(i: nat, inst: Instrument, t: Tick) returns (ok: bool)
      requires Reconciled(recorder.jobs, i) == recorder.jobs
      modifies recorder, db`overviews, db`done
      ensures recorder.jobs == old(recorder.jobs)
      ensures var due := OverviewDue(inst, recorder.jobs, old(db.overviews), i, t);
        && ok == (due ==> i in t.succeeds)
        && db.overviews == (if due && ok then old(db.overviews)[i := Date(t.now)] else old(db.overviews))
        && db.done == if due && ok then old(db.done) + [(i, Date(t.now))] else old(db.done)
    {
      ok := true;
      if !inst.windowed || inst.overviewAt.None? {
        return;
      }
      var today := Date(t.now);
      if i in db.overviews && db.overviews[i] == today {
        return;
      }
      if MinuteOfDay(t.now) < inst.overviewAt.value {
        return;
      }
      var state := recorder.Status(i);
      if state.Recording? {
        return;
      }
      ok := i in t.succeeds;
      if ok {
        db.overviews := db.overviews[i := today];
        db.done := db.done + [(i, today)];
      }
    }

    method Visit(i: nat, t: Tick) returns (ok: bool)
      requires i in cfg.instruments
      modifies recorder, db
      ensures (Now(), ok) == Visited(cfg, old(Now()), i, t)
    {
      var inst := cfg.instruments[i];
      var desired := if inst.windowed then InWindow(WindowOf(t, i), t.now) else i in db.rows && db.rows[i].desired;
      var state := recorder.Status(i);
      ok := true;
      if desired && GateOk(cfg, t) && !state.Recording? {
        var _ := recorder.Start(i);
        db.Write(i, Recording);
      } else if !desired && state.Recording? {
        recorder.Stop(i);
      } else {
        ok := MaybeOverview(i, inst, t);
      }
    }

    method RunTick(t: Tick) returns (ok: bool)
      requires cfg.Valid()
      modifies recorder, db
      ensures (Now(), ok) == Toured(cfg, old(Now()), cfg.order, t)
    {
      ok := true;
      var k := 0;
      while ok && k < |cfg.order|
        invariant 0 <= k <= |cfg.order|
        invariant ok ==> Toured(cfg, Now(), cfg.order[k..], t) == Toured(cfg, old(Now()), cfg.order, t)
        invariant !ok ==> (Now(), false) == Toured(cfg, old(Now()), cfg.order, t)
        decreases |cfg.order| - k
      {
        hide Visited;
        var i := cfg.order[k];
        assert cfg.order[k..][1..] == cfg.order[k + 1..];
        if cfg.instruments[i].enabled {
          ok := Visit(i, t);
        }
        k := k + 1;
      }
    }

    /** A new process: nothing records in it; the intent is seeded afresh only when the machine was rebooted. */
    method SeedDesiredFromBoot(bootId: string)
      requires cfg.Valid() && recorder.jobs == map[]
      modifies db
      ensures Now() == Booted(cfg, old(Now()), bootId)
    {
      db.rows := map i | i in db.rows :: if db.rows[i].state.Recording? then db.rows[i].(state := Idle) else db.rows[i];
      if db.marker == Some(bootId) {
        return;
      }
      db.marker := Some(bootId);
      ghost var rows := db.rows;
      for k := 0 to |cfg.order|
        invariant Seeded(cfg, db.rows, cfg.order[k..]) == Seeded(cfg, rows, cfg.order)
        invariant db.marker == Some(bootId) && db.overviews == old(db.overviews) && db.done == old(db.done)
      {
        assert cfg.order[k..][1..] == cfg.order[k + 1..];
        var i := cfg.order[k];
        if !cfg.instruments[i].windowed {
          db.SetDesired(i, cfg.instruments[i].startOnBoot);
        }
      }
    }
  }
}
