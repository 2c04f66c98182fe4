/**
 Opt-in automated recovery (services/auto_recover.py): a stalled instrument is power-cycled through the host
 hook at most `budget` times per window, then a human is alerted once.
 */
module AutoRecovery {
  import opened Wrappers

  datatype Settings = Settings(enabled: bool, grace: real, window: real, budget: int)

  const STALL_SWEEPS := 8.0

  /** The persisted row of a recorder: its last frame heartbeat, if any, and when it was last written. */
  datatype Row = Row(lastFrame: Option<real>, updated: real)

  /** One look at an instrument that should be recording. */
  datatype Look = Look(inst: nat, rate: real, now: real, row: Option<Row>)

  /** What a look does: nothing at all, note that frames flow, call the hook, alert, or keep a raised alert. */
  datatype Act = Nothing | Healthy | Hook | Alert | Silent

  /** What is kept about one instrument: its hook calls within the window, and whether its alert stands. */
  datatype Watch = Watch(history: seq<real>, alerted: bool)

  const UNWATCHED := Watch([], false)

  function StallBound(s: Settings, rate: real): real {
    var byCadence := if rate > 0.0 then STALL_SWEEPS / rate else 0.0;
    if byCadence > s.grace then byCadence else s.grace
  }

  predicate Stalled(s: Settings, look: Look)
    requires look.row.Some?
  {
    var row := look.row.value;
    var since := if row.lastFrame.Some? then row.lastFrame.value else row.updated;
    look.now - since > StallBound(s, look.rate)
  }

  function Prune(history: seq<real>, cutoff: real): seq<real> {
    if history != [] && history[0] < cutoff then Prune(history[1..], cutoff) else history
  }

  lemma {:induction false} PruneDrops(history: seq<real>, cutoff: real) returns (n: nat)
    ensures n <= |history| && Prune(history, cutoff) == history[n..]
    ensures n < |history| ==> history[n] >= cutoff
    ensures forall i :: 0 <= i < n ==> history[i] < cutoff
  {
    if history != [] && history[0] < cutoff {
      var m := PruneDrops(history[1..], cutoff);
      n := m + 1;
    } else {
      n := 0;
    }
  }

  /** One look at one instrument. */
  function Considered(s: Settings, w: Watch, look: Look): (Watch, Act) {
    if !s.enabled || look.row.None? then (w, Nothing)
    else if !Stalled(s, look) then (w.(alerted := false), Healthy)
    else
      var kept := Prune(w.history, look.now - s.window);
      if |kept| >= s.budget then (Watch(kept, true), if w.alerted then Silent else Alert)
      else (w.(history := kept + [look.now]), Hook)
  }

  method DropOld(history: seq<real>, cutoff: real) returns (kept: seq<real>)
    ensures kept == Prune(history, cutoff)
  {
    kept := history;
    while kept != [] && kept[0] < cutoff
      invariant Prune(kept, cutoff) == Prune(history, cutoff)
      decreases |kept|
    {
      kept := kept[1..];
    }
  }

  /** The log of one instrument: what each look did, and when the hook was called. */
  datatype Log = Log(watch: Watch, acts: seq<Act>, hooks: seq<real>, now: real)

  function Fresh(start: real): Log { Log(UNWATCHED, [], [], start) }

  function Noted(s: Settings, log: Log, look: Look): Log {
    var (watch, act) := Considered(s, log.watch, look);
    Log(watch, log.acts + [act], if act.Hook? then log.hooks + [look.now] else log.hooks, look.now)
  }

  /** The logs of all instruments after one look. */
  function NotedAmong(s: Settings, logs: nat -> Log, look: Look): nat -> Log {
    (i: nat) => if i == look.inst then Noted(s, logs(i), look) else logs(i)
  }

  class AutoRecover {
    var history: map<nat, seq<real>>
    var alerted: set<nat>
    ghost var logs: nat -> Log

    constructor (ghost start: real)
      ensures Valid() && logs == (i => Fresh(start))
    {
      history, alerted := map[], {};
      logs := i => Fresh(start);
    }

    /** The fields hold what the logs end with. */
    ghost predicate Valid()
      reads this
    {
      forall i: nat :: logs(i).watch == WatchOf(i)
    }

    function WatchOf(i: nat): Watch
      reads this
    {
      Watch(if i in history then history[i] else [], i in alerted)
    }

    /** What is known of the instrument changes as specified; what is known of the others stays. */
    method Consider(s: Settings, look: Look) returns (act: Act)
      requires Valid()
      modifies this
      ensures Valid() && logs == NotedAmong(s, old(logs), look)
      ensures act == Considered(s, old(WatchOf(look.inst)), look).1
    {
      ghost var before := logs;
      act := LookAt(s, look);
      hide Considered;
      logs := NotedAmong(s, before, look);
    }

    method LookAt(s: Settings, look: Look) returns (act: Act)
      modifies this`history, this`alerted
      ensures (WatchOf(look.inst), act) == Considered(s, old(WatchOf(look.inst)), look)
      ensures forall j: nat :: j != look.inst ==> WatchOf(j) == old(WatchOf(j))
    {
      hide Stalled, StallBound;
      if !s.enabled || look.row.None? {
        return Nothing;
      }
      if !Stalled(s, look) {
        alerted := alerted - {look.inst};
        return Healthy;
      }
      var hist := if look.inst in history then history[look.inst] else [];
      hist := DropOld(hist, look.now - s.window);
      assert Considered(s, WatchOf(look.inst), look)
          == if |hist| >= s.budget then (Watch(hist, true), if look.inst in alerted then Silent else Alert)
             else (Watch(hist + [look.now], look.inst in alerted), Hook);
      hide Considered, Prune;
      history := history[look.inst := hist];
      if |hist| >= s.budget {
        act := if look.inst in alerted then Silent else Alert;
        alerted := alerted + {look.inst};
        return;
      }
      history := history[look.inst := hist + [look.now]];
      act := Hook;
    }
  }

  // ---- A run of looks at one instrument ----

  function Watched(s: Settings, log: Log, looks: seq<Look>): Log
    decreases |looks|
  {
    if looks == [] then log else Watched(s, Noted(s, log, looks[0]), looks[1..])
  }

  predicate Sorted(times: seq<real>) { forall i, j :: 0 <= i < j < |times| ==> times[i] <= times[j] }

  predicate InTime(start: real, looks: seq<Look>)
    decreases |looks|
  {
    looks == [] || (start <= looks[0].now && InTime(looks[0].now, looks[1..]))
  }

  /** No closed interval as long as the window holds more than `budget` hook calls. */
  predicate WithinBudget(s: Settings, hooks: seq<real>) {
    if s.budget <= 0 then hooks == []
    else forall k :: 0 <= k && k + s.budget < |hooks| ==> hooks[k + s.budget] - hooks[k] > s.window
  }

  /** At least `budget` of the hook calls lie in the window that ends `now`. */
  predicate Spent(s: Settings, hooks: seq<real>, now: real) {
    s.budget <= 0 || (|hooks| >= s.budget && now - hooks[|hooks| - s.budget] <= s.window)
  }

  /** Between two alerts frames were seen to flow. */
  ghost predicate AlertsApart(acts: seq<Act>) {
    forall a, b :: 0 <= a < b < |acts| && acts[a].Alert? && acts[b].Alert? ==> exists h :: a < h < b && acts[h].Healthy?
  }

  /** The last alert, if any, has not been followed by flowing frames. */
  ghost predicate AlertStands(acts: seq<Act>) {
    exists a :: 0 <= a < |acts| && acts[a].Alert? && forall h :: a < h < |acts| ==> !acts[h].Healthy?
  }

  ghost predicate Kept(s: Settings, log: Log, dropped: nat) {
    && dropped <= |log.hooks| && log.watch.history == log.hooks[dropped..]
    && Sorted(log.hooks) && (forall i :: 0 <= i < |log.hooks| ==> log.hooks[i] <= log.now)
    && (forall i :: 0 <= i < dropped ==> log.now - log.hooks[i] > s.window)
    && WithinBudget(s, log.hooks)
    && AlertsApart(log.acts) && (log.watch.alerted <==> AlertStands(log.acts))
  }

  lemma OneMoreHook(s: Settings, hooks: seq<real>, now: real)
    requires s.budget >= 1 && WithinBudget(s, hooks) && !Spent(s, hooks, now)
    ensures WithinBudget(s, hooks + [now])
  {
    var more := hooks + [now];
    forall k | 0 <= k && k + s.budget < |more|
      ensures more[k + s.budget] - more[k] > s.window
    {
      if k + s.budget == |hooks| {
        assert more[k] == hooks[|hooks| - s.budget];
      } else {
        assert more[k + s.budget] == hooks[k + s.budget] && more[k] == hooks[k];
      }
    }
  }

  /** The budget is spent exactly when the pruned history is full. */
  lemma FullMeansSpent(s: Settings, log: Log, now: real, dropped: nat) returns (dropped': nat)
    requires Kept(s, log, dropped) && log.now <= now
    ensures dropped' <= |log.hooks| && Prune(log.watch.history, now - s.window) == log.hooks[dropped'..]
    ensures forall i :: 0 <= i < dropped' ==> now - log.hooks[i] > s.window
    ensures |log.hooks| - dropped' >= s.budget <==> Spent(s, log.hooks, now)
  {
    hide Prune, WithinBudget, AlertsApart, AlertStands;
    var hooks := log.hooks;
    var n := PruneDrops(log.watch.history, now - s.window);
    dropped' := dropped + n;
    assert hooks[dropped..][n..] == hooks[dropped'..];
    assert dropped' < |hooks| ==> hooks[dropped'] >= now - s.window;
    forall i | 0 <= i < dropped'
      ensures now - hooks[i] > s.window
    {
      if i >= dropped {
        assert hooks[i] == log.watch.history[i - dropped];
      }
    }
    if s.budget >= 1 && |hooks| - dropped' >= s.budget {
      var i := |hooks| - s.budget;
      assert dropped' <= i;
      assert hooks[dropped'] <= hooks[i];
    }
  }

  lemma AlertsAfter(acts: seq<Act>, act: Act)
    requires AlertsApart(acts) && (act.Alert? ==> !AlertStands(acts))
    ensures AlertsApart(acts + [act])
    ensures AlertStands(acts + [act]) <==> act.Alert? || (AlertStands(acts) && !act.Healthy?)
  {
    AlertsStayApart(acts, act);
    hide AlertsApart, AlertStands;
    if act.Alert? || (AlertStands(acts) && !act.Healthy?) {
      AlertStandsOn(acts, act);
    }
    if AlertStands(acts + [act]) {
      AlertStood(acts, act);
    }
  }

  lemma AlertStandsOn(acts: seq<Act>, act: Act)
    requires act.Alert? || (AlertStands(acts) && !act.Healthy?)
    ensures AlertStands(acts + [act])
  {
    var more := acts + [act];
    if act.Alert? {
      assert more[|acts|].Alert?;
    } else {
      var a :| 0 <= a < |acts| && acts[a].Alert? && forall h :: a < h < |acts| ==> !acts[h].Healthy?;
      assert more[a].Alert?;
    }
  }

  lemma AlertStood(acts: seq<Act>, act: Act)
    requires AlertStands(acts + [act])
    ensures act.Alert? || (AlertStands(acts) && !act.Healthy?)
  {
    var more := acts + [act];
    var a :| 0 <= a < |more| && more[a].Alert? && forall h :: a < h < |more| ==> !more[h].Healthy?;
    assert more[|acts|] == act;
    if a < |acts| {
      assert acts[a].Alert?;
      forall h | a < h < |acts|
        ensures !acts[h].Healthy?
      {
        assert more[h] == acts[h];
      }
    }
  }

  lemma AlertsStayApart(acts: seq<Act>, act: Act)
    requires AlertsApart(acts) && (act.Alert? ==> !AlertStands(acts))
    ensures AlertsApart(acts + [act])
  {
    var more := acts + [act];
    forall a, b | 0 <= a < b < |more| && more[a].Alert? && more[b].Alert?
      ensures exists h :: a < h < b && more[h].Healthy?
    {
      if b == |acts| {
        var h :| a < h < |acts| && acts[h].Healthy?;
        assert more[h].Healthy?;
      } else {
        var h :| a < h < b && acts[h].Healthy?;
        assert more[h].Healthy?;
      }
    }
  }

  /** Frames flow: the last one, or the last update of a row without one, is at most the grace or eight sweeps old; one
      from the future counts even with a negative grace. */
  predicate Flows(grace: real, look: Look)
    requires look.row.Some?
  {
    var row := look.row.value;
    var age := look.now - match row.lastFrame case Some(at) => at case None => row.updated;
    age <= grace || age <= 0.0 || (look.rate > 0.0 && age * look.rate <= 8.0)
  }

  lemma StalledOrFlowing(s: Settings, look: Look)
    requires look.row.Some?
    ensures Stalled(s, look) <==> !Flows(s.grace, look)
  {
    var row := look.row.value;
    var age := look.now - match row.lastFrame case Some(at) => at case None => row.updated;
    if look.rate > 0.0 {
      OldByCadence(age, look.rate);
    }
  }

  lemma OldByCadence(age: real, rate: real)
    requires rate > 0.0
    ensures age * rate <= 8.0 <==> age <= 8.0 / rate
  {
    var bound := 8.0 / rate;
    assert bound * rate == 8.0;
    if age <= bound {
      assert (bound - age) * rate >= 0.0;
    } else {
      assert (age - bound) * rate > 0.0;
    }
  }

  /** What a look does, in terms of the log: nothing while frames flow, else the hook exactly while the budget is not
      spent, else an alert, once. */
  predicate Rightly(s: Settings, hooks: seq<real>, alerted: bool, look: Look, act: Act) {
    if !s.enabled || look.row.None? then act.Nothing?
    else if Flows(s.grace, look) then act.Healthy?
    else if !Spent(s, hooks, look.now) then act.Hook?
    else if !alerted then act.Alert?
    else act.Silent?
  }

  lemma NotedKeeps(s: Settings, log: Log, look: Look, dropped: nat) returns (dropped': nat)
    requires Kept(s, log, dropped) && log.now <= look.now
    ensures Kept(s, Noted(s, log, look), dropped')
    ensures Rightly(s, log.hooks, log.watch.alerted, look, Considered(s, log.watch, look).1)
  {
    hide Stalled, StallBound, Flows, Prune, WithinBudget, AlertsApart, AlertStands, Spent;
    if look.row.Some? {
      StalledOrFlowing(s, look);
    }
    dropped' := FullMeansSpent(s, log, look.now, dropped);
    var (watch, act) := Considered(s, log.watch, look);
    AlertsAfter(log.acts, act);
    if act.Hook? {
      HookKeeps(s, log, look, dropped');
      hide Sorted, Considered;
    } else {
      dropped' := if act.Nothing? || act.Healthy? then dropped else dropped';
      assert watch.history == log.hooks[dropped'..];
      hide Sorted;
    }
  }

  lemma HookKeeps(s: Settings, log: Log, look: Look, dropped: nat)
    requires Sorted(log.hooks) && WithinBudget(s, log.hooks) && dropped <= |log.hooks|
    requires (forall i :: 0 <= i < |log.hooks| ==> log.hooks[i] <= log.now) && log.now <= look.now
    requires s.budget >= 1 && !Spent(s, log.hooks, look.now)
    ensures var hooks := log.hooks + [look.now];
      && Sorted(hooks) && WithinBudget(s, hooks) && hooks[dropped..] == log.hooks[dropped..] + [look.now]
      && (forall i :: 0 <= i < |hooks| ==> hooks[i] <= look.now)
      && (forall i :: 0 <= i < dropped ==> hooks[i] == log.hooks[i])
  {
    OneMoreHook(s, log.hooks, look.now);
  }

  lemma {:induction false} WatchedKeeps(s: Settings, log: Log, looks: seq<Look>, dropped: nat) returns (dropped': nat)
    requires Kept(s, log, dropped) && InTime(log.now, looks)
    ensures Kept(s, Watched(s, log, looks), dropped')
    decreases |looks|
  {
    dropped' := dropped;
    if looks != [] {
      dropped' := NotedKeeps(s, log, looks[0], dropped);
      hide Kept, Considered;
      dropped' := WatchedKeeps(s, Noted(s, log, looks[0]), looks[1..], dropped');
    }
  }

  lemma FreshIsKept(s: Settings, start: real)
    ensures Kept(s, Fresh(start), 0)
  {
  }

  /**
   Over any run of looks at one instrument in time order: each look does right by all that went before, no closed
   window holds more hook calls than the budget, and flowing frames lie between any two alerts.
   */
  lemma EveryLookActsRightly(s: Settings, start: real, before: seq<Look>, look: Look)
    requires InTime(start, before) && Watched(s, Fresh(start), before).now <= look.now
    ensures var log := Watched(s, Fresh(start), before);
      && Rightly(s, log.hooks, AlertStands(log.acts), look, Considered(s, log.watch, look).1)
      && WithinBudget(s, log.hooks) && AlertsApart(log.acts)
  {
    FreshIsKept(s, start);
    var dropped := WatchedKeeps(s, Fresh(start), before, 0);
    hide Considered, WithinBudget, AlertsApart, AlertStands, Spent, Rightly;
    var _ := NotedKeeps(s, Watched(s, Fresh(start), before), look, dropped);
  }

  // ---- Many instruments ----

  function Only(looks: seq<Look>, i: nat): seq<Look> {
    if looks == [] then [] else (if looks[0].inst == i then [looks[0]] else []) + Only(looks[1..], i)
  }

  function WatchedAmong(s: Settings, logs: nat -> Log, looks: seq<Look>): nat -> Log
    decreases |looks|
  {
    if looks == [] then logs else WatchedAmong(s, NotedAmong(s, logs, looks[0]), looks[1..])
  }

  /** Instruments do not affect each other: each log is that of the looks at its own instrument alone. */
  lemma {:induction false} InstrumentsAreIndependent(s: Settings, logs: nat -> Log, looks: seq<Look>, i: nat)
    ensures WatchedAmong(s, logs, looks)(i) == Watched(s, logs(i), Only(looks, i))
    decreases |looks|
  {
    if looks != [] {
      hide Noted;
      InstrumentsAreIndependent(s, NotedAmong(s, logs, looks[0]), looks[1..], i);
      var mine := Only(looks[1..], i);
      if looks[0].inst == i {
        assert ([looks[0]] + mine)[1..] == mine;
      } else {
        assert [] + mine == mine;
      }
    }
  }

  lemma {:induction false} OnlyInTime(start: real, looks: seq<Look>, i: nat)
    requires InTime(start, looks)
    ensures InTime(start, Only(looks, i))
    ensures forall earlier :: earlier <= start ==> InTime(earlier, Only(looks, i))
    decreases |looks|
  {
    if looks != [] {
      OnlyInTime(looks[0].now, looks[1..], i);
      var mine := Only(looks[1..], i);
      assert ([looks[0]] + mine)[1..] == mine && [] + mine == mine;
    }
  }

  /** The budget per instrument, over any run of looks at any instruments in time order. */
  lemma RecoveryBudget(s: Settings, start: real, looks: seq<Look>, i: nat)
    requires InTime(start, looks)
    ensures var log := WatchedAmong(s, j => Fresh(start), looks)(i);
      && WithinBudget(s, log.hooks) && Sorted(log.hooks) && AlertsApart(log.acts)
  {
    InstrumentsAreIndependent(s, j => Fresh(start), looks, i);
    OnlyInTime(start, looks, i);
    FreshIsKept(s, start);
    var _ := WatchedKeeps(s, Fresh(start), Only(looks, i), 0);
  }
}
