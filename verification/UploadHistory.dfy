/** No un-uploaded file is removed: what the upload tracking keeps over whole runs. */
module UploadHistory {
  import opened Wrappers
  import opened Uploading

  /** What happens to the recordings; the operator may change targets, requeue and delete at any time. */
  datatype Event =
    | Recorded(f: File)
    | TargetsChanged(targets: seq<Target>)
    | Ticks(now: nat, settings: Settings, verified: set<(nat, string)>)
    | UploadNow(target: nat, verified: set<(nat, string)>)
    | Requeued(names: set<string>)
    | Deleted(names: set<string>)

  /** The jobs that a requeue of `names` leaves. */
  function Requeue(jobs: seq<Job>, names: set<string>): seq<Job> {
    if jobs == [] then []
    else
      var later := Requeue(jobs[1..], names);
      if jobs[0].done && jobs[0].name in names then later else [jobs[0]] + later
  }

  function Named(files: seq<File>, names: set<string>): seq<File> {
    if files == [] then []
    else
      var later := Named(files[1..], names);
      if files[0].name in names then [files[0]] + later else later
  }

  function NotNamed(files: seq<File>, names: set<string>): seq<File> {
    if files == [] then []
    else
      var later := NotNamed(files[1..], names);
      if files[0].name in names then later else [files[0]] + later
  }

  function WithoutJobs(jobs: seq<Job>, names: set<string>): seq<Job> {
    if jobs == [] then []
    else
      var later := WithoutJobs(jobs[1..], names);
      if jobs[0].name in names then later else [jobs[0]] + later
  }

  function Names(files: seq<File>): set<string> { set f | f in files :: f.name }

  function Step(s: Store, e: Event): Store {
    match e
    case Recorded(f) => s.(files := s.files + [f], recorded := s.recorded + [f])
    case TargetsChanged(targets) => s.(targets := targets)
    case Ticks(now, settings, verified) => Ticked(s, now, settings, verified)
    case UploadNow(target, verified) => OfferedAll(s, target, s.files, verified)
    case Requeued(names) => s.(jobs := Requeue(s.jobs, names))
    case Deleted(names) =>
      var there := names * Names(s.files);
      s.(files := NotNamed(s.files, there), deleted := s.deleted + Named(s.files, there),
         jobs := WithoutJobs(s.jobs, there))
  }

  function Run(s: Store, events: seq<Event>): Store
    decreases |events|
  {
    if events == [] then s else Run(Step(s, events[0]), events[1..])
  }

  // ---- What every step keeps ----

  predicate NamesDiffer(files: seq<File>) {
    forall i, j :: 0 <= i < j < |files| ==> files[i].name != files[j].name
  }

  /** A done job of a file in the directory follows a verified put of that very recording. */
  ghost predicate Backed(files: seq<File>, jobs: seq<Job>, puts: seq<Put>) {
    forall f <- files, t: nat :: Sent(jobs, t, f.name) ==> Put(t, f.name, f.content) in puts
  }

  /** A target and a file have at most one done job. */
  predicate DoneOnce(jobs: seq<Job>) {
    forall i, j :: 0 <= i < j < |jobs| && jobs[i].done && jobs[j].done ==>
      jobs[i].target != jobs[j].target || jobs[i].name != jobs[j].name
  }

  /** Every file taken away was sent, and verified, to every target enabled at that moment, and some was enabled. */
  ghost predicate Justified(removed: seq<Removal>, puts: seq<Put>) {
    forall r <- removed :: r.wanted != {} && forall t <- r.wanted :: Put(t, r.file.name, r.file.content) in puts
  }

  /** Every recording is still there, was deleted by the operator, or was taken away. */
  ghost predicate Accounted(s: Store) {
    forall f <- s.recorded :: f in s.files || f in s.deleted || exists r <- s.removed :: r.file == f
  }

  ghost predicate Sound(s: Store) {
    && NamesDiffer(s.files) && Backed(s.files, s.jobs, s.puts) && DoneOnce(s.jobs)
    && Justified(s.removed, s.puts) && Accounted(s)
  }

  /** A new recording takes no name that a file has or that a done job remembers. */
  ghost predicate Fresh(s: Store, e: Event) {
    e.Recorded? ==> e.f.name !in Names(s.files) && forall t: nat :: !Sent(s.jobs, t, e.f.name)
  }

  ghost predicate FreshRun(s: Store, events: seq<Event>)
    decreases |events|
  {
    events == [] || (Fresh(s, events[0]) && FreshRun(Step(s, events[0]), events[1..]))
  }

  // ---- Uploading ----

  lemma SentGrows(jobs: seq<Job>, job: Job)
    ensures forall t: nat, name: string ::
      Sent(jobs + [job], t, name) <==> Sent(jobs, t, name) || (job.done && job.target == t && job.name == name)
  {
  }

  lemma OfferKeepsSound(s: Store, target: nat, f: File, verified: set<(nat, string)>)
    requires Sound(s) && f in s.files
    ensures Sound(Offered(s, target, f, verified))
  {
    var v := Offered(s, target, f, verified);
    if v != s {
      var job := v.jobs[|s.jobs|];
      assert v.jobs == s.jobs + [job];
      SentGrows(s.jobs, job);
      OneMoreJob(s.jobs, job);
      forall p | p in s.puts
        ensures p in v.puts
      {
      }
      if job.done {
        assert Put(target, f.name, f.content) in v.puts;
        OneName(s.files, f);
      }
      hide Sent, DoneOnce, NamesDiffer;
    }
  }

  lemma OneName(files: seq<File>, f: File)
    requires NamesDiffer(files) && f in files
    ensures forall g <- files :: g.name == f.name ==> g == f
  {
  }

  lemma OneMoreJob(jobs: seq<Job>, job: Job)
    requires DoneOnce(jobs) && (job.done ==> !Sent(jobs, job.target, job.name))
    ensures DoneOnce(jobs + [job])
  {
    assert forall i :: 0 <= i < |jobs| ==> jobs[i] in jobs;
  }

  lemma {:induction false} OffersKeepSound(s: Store, target: nat, files: seq<File>, verified: set<(nat, string)>)
    requires Sound(s) && forall f <- files :: f in s.files
    ensures Sound(OfferedAll(s, target, files, verified))
    ensures OfferedAll(s, target, files, verified).files == s.files
    ensures OfferedAll(s, target, files, verified).targets == s.targets
    decreases |files|
  {
    if files != [] {
      OfferKeepsSound(s, target, files[0], verified);
      hide Sound, Sent;
      OffersKeepSound(Offered(s, target, files[0], verified), target, files[1..], verified);
    }
  }

  lemma {:induction false} DispatchKeepsSound(s: Store, targets: seq<Target>, now: nat, verified: set<(nat, string)>)
    requires Sound(s)
    ensures Sound(Dispatched(s, targets, now, verified))
    ensures Dispatched(s, targets, now, verified).targets == s.targets
    decreases |targets|
  {
    hide Sound, Due;
    if targets != [] {
      var t := targets[0];
      OffersKeepSound(s, t.id, s.files, verified);
      DispatchKeepsSound(
        if Due(t, now) then OfferedAll(s, t.id, s.files, verified) else s, targets[1..], now, verified);
    }
  }

  // ---- Removing ----

  lemma {:induction false} StayingAndGoing(s: Store, files: seq<File>, now: nat, settings: Settings)
    ensures var staying, going := Staying(s, files, now, settings), Going(s, files, now, settings);
      && (forall f :: f in staying <==> f in files && !Removable(s, f, now, settings))
      && (forall r ::
        r in going <==>
          r.file in files && Removable(s, r.file, now, settings) && r == Taken(s, r.file, now, settings))
      && (NamesDiffer(files) ==> NamesDiffer(staying))
  {
    hide Removable, Enabled;
    if files != [] {
      StayingAndGoing(s, files[1..], now, settings);
      var f, later := files[0], files[1..];
      assert forall g :: g in files <==> g == f || g in later;
      var staying := Staying(s, later, now, settings);
      assert forall k :: 0 <= k < |staying| ==> staying[k] in later;
    }
  }

  lemma CleaningKeepsSound(s: Store, now: nat, settings: Settings)
    requires Sound(s)
    ensures Sound(Cleaned(s, now, settings))
  {
    StayingAndGoing(s, s.files, now, settings);
    var v := Cleaned(s, now, settings);
    var going := Going(s, s.files, now, settings);
    forall r | r in going
      ensures r.wanted != {} && forall t <- r.wanted :: Put(t, r.file.name, r.file.content) in s.puts
    {
      var t :| t in s.targets && t.enabled;
      assert t.id in r.wanted;
    }
    hide Removable, Staying, Going, Sent, Enabled, DoneOnce, NamesDiffer;
    forall f | f in s.recorded
      ensures f in v.files || f in v.deleted || exists r <- v.removed :: r.file == f
    {
      if f in s.files && f !in v.files {
        assert Taken(s, f, now, settings) in going;
        assert Taken(s, f, now, settings) in v.removed;
      } else if f !in s.files && f !in s.deleted {
        var r :| r in s.removed && r.file == f;
        assert r in v.removed;
      }
    }
  }

  // ---- The operator ----

  lemma {:induction false} RequeueDrops(jobs: seq<Job>, names: set<string>)
    ensures forall j :: j in Requeue(jobs, names) <==> j in jobs && !(j.done && j.name in names)
    ensures DoneOnce(jobs) ==> DoneOnce(Requeue(jobs, names))
  {
    if jobs != [] {
      RequeueDrops(jobs[1..], names);
      var later := Requeue(jobs[1..], names);
      assert forall k :: 0 <= k < |later| ==> later[k] in jobs[1..];
      assert forall j :: j in jobs <==> j == jobs[0] || j in jobs[1..];
    }
  }

  lemma {:induction false} WithoutJobsDrops(jobs: seq<Job>, names: set<string>)
    ensures forall j :: j in WithoutJobs(jobs, names) <==> j in jobs && j.name !in names
    ensures DoneOnce(jobs) ==> DoneOnce(WithoutJobs(jobs, names))
  {
    if jobs != [] {
      WithoutJobsDrops(jobs[1..], names);
      var later := WithoutJobs(jobs[1..], names);
      assert forall k :: 0 <= k < |later| ==> later[k] in jobs[1..];
      assert forall j :: j in jobs <==> j == jobs[0] || j in jobs[1..];
    }
  }

  lemma {:induction false} NamedOrNot(files: seq<File>, names: set<string>)
    ensures forall f :: f in Named(files, names) <==> f in files && f.name in names
    ensures forall f :: f in NotNamed(files, names) <==> f in files && f.name !in names
    ensures NamesDiffer(files) ==> NamesDiffer(NotNamed(files, names))
  {
    if files != [] {
      NamedOrNot(files[1..], names);
      var later := NotNamed(files[1..], names);
      assert forall k :: 0 <= k < |later| ==> later[k] in files[1..];
      assert forall f :: f in files <==> f == files[0] || f in files[1..];
    }
  }

  lemma OperatorKeepsSound(s: Store, e: Event)
    requires Sound(s) && (e.Requeued? || e.Deleted? || e.TargetsChanged?)
    ensures Sound(Step(s, e))
  {
    if e.Requeued? {
      RequeueDrops(s.jobs, e.names);
      hide Requeue, DoneOnce, NamesDiffer;
    } else if e.Deleted? {
      var there := e.names * Names(s.files);
      WithoutJobsDrops(s.jobs, there);
      NamedOrNot(s.files, there);
      hide WithoutJobs, Named, NotNamed, DoneOnce, NamesDiffer, Names;
    }
  }

  lemma RecordingKeepsSound(s: Store, f: File)
    requires Sound(s) && Fresh(s, Recorded(f))
    ensures Sound(Step(s, Recorded(f)))
  {
    var v := Step(s, Recorded(f));
    assert forall g <- s.files :: g.name in Names(s.files);
    assert forall g :: g in v.files <==> g in s.files || g == f;
    hide Sent, DoneOnce, Names;
  }

  lemma StepKeepsSound(s: Store, e: Event)
    requires Sound(s) && Fresh(s, e)
    ensures Sound(Step(s, e))
  {
    match e
    case Recorded(f) => RecordingKeepsSound(s, f);
    case Ticks(now, settings, verified) =>
      hide Sound;
      DispatchKeepsSound(s, s.targets, now, verified);
      CleaningKeepsSound(Dispatched(s, s.targets, now, verified), now, settings);
    case UploadNow(target, verified) =>
      hide Sound;
      OffersKeepSound(s, target, s.files, verified);
    case _ => OperatorKeepsSound(s, e);
  }

  /**
   No un-uploaded file is removed. Over every run of recordings under fresh names, ticks, manual uploads, target
   changes, requeues and deletions: each file taken away was sent and verified to every target enabled at that moment,
   each done job of a file follows a verified put of that recording, there is at most one of them per target and file,
   and every recording is accounted for.
   */
  lemma {:induction false} NothingUnsentIsRemoved(s: Store, events: seq<Event>)
    requires Sound(s) && FreshRun(s, events)
    ensures Sound(Run(s, events))
    decreases |events|
  {
    if events != [] {
      hide Sound, Fresh, Step;
      StepKeepsSound(s, events[0]);
      NothingUnsentIsRemoved(Step(s, events[0]), events[1..]);
    }
  }

  lemma EmptyStoreIsSound(targets: seq<Target>)
    ensures Sound(Store([], [], targets, [], [], [], []))
  {
  }

  /** Without an enabled target a tick takes nothing away. */
  lemma NoTargetNoRemoval(s: Store, now: nat, settings: Settings, verified: set<(nat, string)>)
    requires Sound(s) && forall t <- s.targets :: !t.enabled
    ensures var v := Ticked(s, now, settings, verified);
      v.removed == s.removed && v.files == Dispatched(s, s.targets, now, verified).files
  {
    var d := Dispatched(s, s.targets, now, verified);
    DispatchKeepsSound(s, s.targets, now, verified);
    DispatchKeepsHistory(s, s.targets, now, verified);
    NothingGoes(d, d.files, now, settings);
    assert d.removed + [] == d.removed;
  }

  lemma {:induction false} DispatchKeepsHistory(s: Store, targets: seq<Target>, now: nat, verified: set<(nat, string)>)
    ensures Dispatched(s, targets, now, verified).removed == s.removed
    ensures Dispatched(s, targets, now, verified).files == s.files
    decreases |targets|
  {
    hide Due;
    if targets != [] {
      var t := targets[0];
      OffersKeepHistory(s, t.id, s.files, verified);
      DispatchKeepsHistory(
        if Due(t, now) then OfferedAll(s, t.id, s.files, verified) else s, targets[1..], now, verified);
    }
  }

  lemma {:induction false} OffersKeepHistory(s: Store, target: nat, files: seq<File>, verified: set<(nat, string)>)
    ensures OfferedAll(s, target, files, verified).removed == s.removed
    ensures OfferedAll(s, target, files, verified).files == s.files
    decreases |files|
  {
    if files != [] {
      OffersKeepHistory(Offered(s, target, files[0], verified), target, files[1..], verified);
    }
  }

  // ---- Why names must be fresh ----

  /** The recording was never put anywhere, although its name counts as sent to every enabled target. */
  ghost predicate Mistaken(s: Store, f: File) {
    && SentToAll(s.jobs, s.targets, f.name) && f in s.files
    && (forall p <- s.puts :: p.content != f.content)
    && (forall g <- s.files :: g.content == f.content ==> g == f)
  }

  lemma {:induction false} OffersStayMistaken(
    s: Store, t: Target, files: seq<File>, verified: set<(nat, string)>, f: File)
    requires Mistaken(s, f) && t in s.targets && t.enabled && forall g <- files :: g in s.files
    ensures Mistaken(OfferedAll(s, t.id, files, verified), f)
    ensures OfferedAll(s, t.id, files, verified).targets == s.targets
    decreases |files|
  {
    if files != [] {
      var v := Offered(s, t.id, files[0], verified);
      if v != s {
        SentGrows(s.jobs, v.jobs[|s.jobs|]);
        assert v.jobs == s.jobs + [v.jobs[|s.jobs|]];
        assert files[0] != f;
        hide Sent;
      }
      OffersStayMistaken(v, t, files[1..], verified, f);
    }
  }

  lemma {:induction false} DispatchStaysMistaken(
    s: Store, targets: seq<Target>, now: nat, verified: set<(nat, string)>, f: File)
    requires Mistaken(s, f) && forall t <- targets :: t in s.targets
    ensures Mistaken(Dispatched(s, targets, now, verified), f)
    ensures Dispatched(s, targets, now, verified).targets == s.targets
    decreases |targets|
  {
    hide Mistaken;
    if targets != [] {
      var t := targets[0];
      var v := if Due(t, now) then OfferedAll(s, t.id, s.files, verified) else s;
      if Due(t, now) {
        OffersStayMistaken(s, t, s.files, verified, f);
      }
      DispatchStaysMistaken(v, targets[1..], now, verified, f);
    }
  }

  /**
   A recording whose name done jobs still remember for every enabled target is archived by the next tick although it
   was never put anywhere: done jobs remember names, not recordings.
   */
  lemma RememberedNameLosesTheRecording(s: Store, f: File, now: nat, days: int, verified: set<(nat, string)>)
    requires Sound(s) && (exists t <- s.targets :: t.enabled) && SentToAll(s.jobs, s.targets, f.name)
    requires (forall p <- s.puts :: p.content != f.content) && (forall g <- s.files :: g.content != f.content)
    ensures var v := Run(s, [Recorded(f), Ticks(now, Settings(true, days), verified)]);
      && f !in v.files && Removal(f, Enabled(s.targets), now, None) in v.removed
      && forall p <- v.puts :: p.content != f.content
  {
    var e, settings := Recorded(f), Settings(true, days);
    var r, tick := Step(s, e), Ticks(now, settings, verified);
    assert [e, tick][1..] == [tick] && [tick][1..] == [];
    assert Run(r, [tick]) == Run(Step(r, tick), []) == Step(r, tick);
    assert Run(s, [e, tick]) == Run(r, [tick]);
    assert f in r.files;
    DispatchStaysMistaken(r, r.targets, now, verified, f);
    var d := Dispatched(r, r.targets, now, verified);
    StayingAndGoing(d, d.files, now, settings);
    assert Taken(d, f, now, settings) in Going(d, d.files, now, settings);
  }

  predicate NoRecording(events: seq<Event>) {
    forall i :: 0 <= i < |events| ==> !events[i].Recorded?
  }

  lemma {:induction false} OldNamesStayFresh(s: Store, events: seq<Event>)
    requires NoRecording(events)
    ensures FreshRun(s, events)
    decreases |events|
  {
    if events != [] {
      OldNamesStayFresh(Step(s, events[0]), events[1..]);
    }
  }

  /** Whatever happens after the recording of `f`, every file taken away was sent to all targets that were enabled. */
  ghost predicate SafeAfter(s: Store, f: File) {
    forall events | NoRecording(events) ::
      var v := Run(Step(s, Recorded(f)), events); Justified(v.removed, v.puts)
  }

  /** One done job under the name is enough: when its target is the only one left enabled, the recording goes unsent. */
  lemma OneRememberingTargetIsEnough(s: Store, f: File, t: nat, events: seq<Event>)
    requires Sent(s.jobs, t, f.name) && forall p <- s.puts :: p.content != f.content
    requires events == [TargetsChanged([Target(t, true, Manual)]), Ticks(0, Settings(true, 0), {})]
    ensures var v := Run(Step(s, Recorded(f)), events); !Justified(v.removed, v.puts)
  {
    var target := Target(t, true, Manual);
    var r := Step(Step(s, Recorded(f)), events[0]);
    assert r == s.(files := s.files + [f], recorded := s.recorded + [f], targets := [target]);
    assert events[1..] == [events[1]] && [events[1]][1..] == [];
    assert Run(r, [events[1]]) == Run(Step(r, events[1]), []) == Step(r, events[1]);
    assert Run(Step(s, Recorded(f)), events) == Run(r, [events[1]]);
    var none := [target][1..];
    assert none == [] && !Due(target, 0);
    assert Dispatched(r, [target], 0, {}) == Dispatched(r, none, 0, {}) == r;
    StayingAndGoing(r, r.files, 0, Settings(true, 0));
    assert f in r.files && target in r.targets;
    var gone := Taken(r, f, 0, Settings(true, 0));
    assert gone in Going(r, r.files, 0, Settings(true, 0));
    assert gone in Run(Step(s, Recorded(f)), events).removed;
    assert t in gone.wanted;
  }

  /**
   When the promise holds: after a recording of new content, no sequence of ticks, uploads, target changes, requeues and
   deletions can take a file away unsent if and only if no done job of any target remembers its name.
   */
  lemma SafeExactlyUnderAForgottenName(s: Store, f: File)
    requires Sound(s) && f.name !in Names(s.files) && forall p <- s.puts :: p.content != f.content
    ensures SafeAfter(s, f) <==> forall t: nat :: !Sent(s.jobs, t, f.name)
  {
    if forall t: nat :: !Sent(s.jobs, t, f.name) {
      RecordingKeepsSound(s, f);
      forall events | NoRecording(events)
        ensures var v := Run(Step(s, Recorded(f)), events); Justified(v.removed, v.puts)
      {
        OldNamesStayFresh(Step(s, Recorded(f)), events);
        NothingUnsentIsRemoved(Step(s, Recorded(f)), events);
      }
    } else {
      var t: nat :| Sent(s.jobs, t, f.name);
      var events := [TargetsChanged([Target(t, true, Manual)]), Ticks(0, Settings(true, 0), {})];
      OneRememberingTargetIsEnough(s, f, t, events);
      assert NoRecording(events);
    }
  }

  // ---- Age ----

  /** Whatever retention took away was readable and at least as old as the days asked for, and days were asked for. */
  predicate OldEnough(r: Removal) {
    r.retention.Some? ==>
      r.retention.value >= 0 && r.file.readable && r.at - r.file.mtime >= 86400 * r.retention.value
  }

  /** The removal belongs to this tick. */
  predicate OfTick(r: Removal, e: Event) {
    e.Ticks? && r.at == e.now && r.retention == if e.settings.archiving then None else Some(e.settings.retentionDays)
  }

  /** Every removal is an earlier one, or old enough for the tick that made it. */
  ghost predicate Aged(earlier: seq<Removal>, removed: seq<Removal>, events: seq<Event>) {
    forall r <- removed :: r in earlier || (OldEnough(r) && exists e <- events :: OfTick(r, e))
  }

  lemma {:induction false} GoingAreOld(s: Store, files: seq<File>, now: nat, settings: Settings, r: Removal)
    requires r in Going(s, files, now, settings)
    ensures OldEnough(r) && forall verified :: OfTick(r, Ticks(now, settings, verified))
  {
    if r !in Going(s, files[1..], now, settings) {
      assert r == Taken(s, files[0], now, settings);
    } else {
      GoingAreOld(s, files[1..], now, settings, r);
    }
  }

  lemma StepAges(s: Store, e: Event, r: Removal)
    requires r in Step(s, e).removed && r !in s.removed
    ensures OldEnough(r) && OfTick(r, e)
  {
    match e
    case Ticks(now, settings, verified) =>
      DispatchKeepsHistory(s, s.targets, now, verified);
      var d := Dispatched(s, s.targets, now, verified);
      GoingAreOld(d, d.files, now, settings, r);
    case UploadNow(target, verified) => OffersKeepHistory(s, target, s.files, verified);
    case _ =>
  }

  /**
   Retention over whole runs: whatever is recorded, uploaded, requeued and deleted, each file that retention takes away
   is by then at least as many days old as the settings of that tick ask for; with a negative number of days none is.
   */
  lemma {:induction false} NothingYoungIsRemoved(s: Store, events: seq<Event>)
    ensures Aged(s.removed, Run(s, events).removed, events)
    decreases |events|
  {
    if events != [] {
      var v := Step(s, events[0]);
      NothingYoungIsRemoved(v, events[1..]);
      hide Step, OldEnough, OfTick;
      forall r | r in Run(s, events).removed && r !in s.removed
        ensures OldEnough(r) && exists e <- events :: OfTick(r, e)
      {
        if r in v.removed {
          StepAges(s, events[0], r);
          assert events[0] in events;
        } else {
          var e :| e in events[1..] && OfTick(r, e);
          assert e in events;
        }
      }
    }
  }

  /** The upload pass of a tick has sent the file to every enabled target, and there is one. */
  predicate SentEverywhere(d: Store, name: string) {
    (exists t <- d.targets :: t.enabled) && forall t <- d.targets :: t.enabled ==> Job(t.id, name, true) in d.jobs
  }

  /**
   What a tick takes away, exactly: the files sent to every enabled target, all of them when there is an archive, else
   the readable ones that are as old as the retention asks for, none if it is negative.
   */
  lemma TickTakesExactly(s: Store, now: nat, settings: Settings, verified: set<(nat, string)>, f: File)
    requires f in s.files
    ensures var d := Dispatched(s, s.targets, now, verified);
      f !in Ticked(s, now, settings, verified).files <==>
        SentEverywhere(d, f.name)
        && (settings.archiving
            || (settings.retentionDays >= 0 && f.readable && now - f.mtime >= 86400 * settings.retentionDays))
  {
    var d := Dispatched(s, s.targets, now, verified);
    DispatchKeepsHistory(s, s.targets, now, verified);
    StayingAndGoing(d, d.files, now, settings);
    hide Dispatched, Staying, Going;
  }

  // ---- Which targets are served ----

  /** An immediate target, or a scheduled one inside its window. */
  predicate Served(t: Target, now: nat) {
    t.enabled && match t.dispatch
      case Immediate => true
      case Scheduled(start, stop) => start <= now % 86400 && now % 86400 < stop
      case Manual => false
  }

  /** What an upload pass leaves of a file for a target: a done job when the put is verified or was before, else a
      failed attempt. */
  lemma {:induction false} OffersServe(s: Store, target: nat, files: seq<File>, verified: set<(nat, string)>, f: File)
    requires f in files && f.readable
    ensures var jobs := OfferedAll(s, target, files, verified).jobs;
      if (target, f.name) in verified || Sent(s.jobs, target, f.name) then Sent(jobs, target, f.name)
      else Job(target, f.name, false) in jobs
    decreases |files|
  {
    var v := Offered(s, target, files[0], verified);
    OffersOnlyAdd(v, target, files[1..], verified);
    if files[0] != f {
      OffersServe(v, target, files[1..], verified, f);
      OffersOnlyAdd(s, target, [files[0]], verified);
      var none := [files[0]][1..];
      assert none == [] && OfferedAll(s, target, [files[0]], verified) == v;
    }
  }

  /** The job is the trace of an attempt to send one of the files to the target. */
  predicate Attempt(j: Job, target: nat, files: seq<File>, verified: set<(nat, string)>) {
    && j.target == target && j.done == ((target, j.name) in verified)
    && exists f <- files :: f.readable && f.name == j.name
  }

  /** An upload pass only adds jobs, one for each attempt. */
  lemma {:induction false} OffersOnlyAdd(s: Store, target: nat, files: seq<File>, verified: set<(nat, string)>)
    ensures forall j <- s.jobs :: j in OfferedAll(s, target, files, verified).jobs
    ensures forall j <- OfferedAll(s, target, files, verified).jobs ::
      j in s.jobs || Attempt(j, target, files, verified)
    decreases |files|
  {
    if files != [] {
      var v := Offered(s, target, files[0], verified);
      OffersOnlyAdd(v, target, files[1..], verified);
      assert files[0] in files && forall f <- files[1..] :: f in files;
    }
  }

  /** The jobs that a tick adds are attempts to send a file of the directory to a served target. */
  ghost predicate OnlyServed(
    before: seq<Job>, jobs: seq<Job>, targets: seq<Target>, files: seq<File>, now: nat, verified: set<(nat, string)>) {
    && (forall j <- before :: j in jobs)
    && forall j <- jobs :: j in before || exists t <- targets :: Served(t, now) && Attempt(j, t.id, files, verified)
  }

  lemma {:induction false} DispatchServesOnly(s: Store, targets: seq<Target>, now: nat, verified: set<(nat, string)>)
    ensures OnlyServed(s.jobs, Dispatched(s, targets, now, verified).jobs, targets, s.files, now, verified)
    decreases |targets|
  {
    if targets != [] {
      var t := targets[0];
      var v := if Due(t, now) then OfferedAll(s, t.id, s.files, verified) else s;
      OffersOnlyAdd(s, t.id, s.files, verified);
      OffersKeepHistory(s, t.id, s.files, verified);
      DispatchServesOnly(v, targets[1..], now, verified);
      assert Due(t, now) <==> Served(t, now);
      assert t in targets && forall u <- targets[1..] :: u in targets;
      hide Attempt, Due, Served;
    }
  }

  lemma {:induction false} DispatchServes(
    s: Store, targets: seq<Target>, now: nat, verified: set<(nat, string)>, t: Target, f: File)
    requires t in targets && Served(t, now) && f in s.files && f.readable
    ensures var jobs := Dispatched(s, targets, now, verified).jobs;
      if (t.id, f.name) in verified || Sent(s.jobs, t.id, f.name) then Sent(jobs, t.id, f.name)
      else Job(t.id, f.name, false) in jobs
    decreases |targets|
  {
    var u := targets[0];
    var v := if Due(u, now) then OfferedAll(s, u.id, s.files, verified) else s;
    OffersKeepHistory(s, u.id, s.files, verified);
    OffersOnlyAdd(s, u.id, s.files, verified);
    if u == t {
      assert Due(u, now);
      OffersServe(s, t.id, s.files, verified, f);
      DispatchServesOnly(v, targets[1..], now, verified);
    } else {
      DispatchServes(v, targets[1..], now, verified, t, f);
    }
  }

  /**
   Whom a tick serves: every immediate target and every scheduled one inside its window has afterwards, for each
   readable file, a done job if the put was verified now or before, else a failed attempt; and no other target is tried.
   */
  lemma TickServes(s: Store, now: nat, settings: Settings, verified: set<(nat, string)>)
    ensures var jobs := Ticked(s, now, settings, verified).jobs;
      && OnlyServed(s.jobs, jobs, s.targets, s.files, now, verified)
      && forall t <- s.targets, f <- s.files :: Served(t, now) && f.readable ==>
        if (t.id, f.name) in verified || Sent(s.jobs, t.id, f.name) then Sent(jobs, t.id, f.name)
        else Job(t.id, f.name, false) in jobs
  {
    DispatchServesOnly(s, s.targets, now, verified);
    hide Dispatched, OnlyServed, Served, Sent;
    forall t, f | t in s.targets && f in s.files && Served(t, now) && f.readable
      ensures var jobs := Dispatched(s, s.targets, now, verified).jobs;
        if (t.id, f.name) in verified || Sent(s.jobs, t.id, f.name) then Sent(jobs, t.id, f.name)
        else Job(t.id, f.name, false) in jobs
    {
      DispatchServes(s, s.targets, now, verified, t, f);
    }
  }

  // ---- Requeueing and deleting ----

  /** A requeued recording is sent again: after the next tick a target that is served has it exactly when that put was
      verified, whatever was done before. */
  lemma RequeuedIsSentAgain(
    s: Store, names: set<string>, now: nat, settings: Settings, verified: set<(nat, string)>, t: Target, f: File)
    requires t in s.targets && Served(t, now) && f in s.files && f.readable && f.name in names
    ensures Sent(Ticked(Step(s, Requeued(names)), now, settings, verified).jobs, t.id, f.name)
      <==> (t.id, f.name) in verified
  {
    var v := Step(s, Requeued(names));
    RequeueDrops(s.jobs, names);
    TickServes(v, now, settings, verified);
    hide Ticked, Requeue, Served;
    var job := Job(t.id, f.name, true);
    assert job !in v.jobs;
  }

  lemma {:induction false} NamesPart(files: seq<File>, names: set<string>, f: File)
    ensures f in NotNamed(files, names) <==> f in files && f.name !in names
    ensures f in Named(files, names) <==> f in files && f.name in names
  {
    if files != [] {
      NamesPart(files[1..], names, f);
      assert files == [files[0]] + files[1..];
    }
  }

  /** Deleting takes the named recordings with their jobs, and the jobs of no other; a name without a file keeps its. */
  lemma DeletedIsForgotten(s: Store, names: set<string>, f: File, j: Job)
    ensures var v := Step(s, Deleted(names));
      && (f in v.files <==> f in s.files && f.name !in names)
      && (f in v.deleted <==> f in s.deleted || (f in s.files && f.name in names))
      && (j in v.jobs <==> j in s.jobs && !(j.name in names && exists g <- s.files :: g.name == j.name))
      && v.targets == s.targets && v.removed == s.removed
  {
    NamesPart(s.files, names * Names(s.files), f);
    WithoutJobsDrops(s.jobs, names * Names(s.files));
    hide NotNamed, Named, WithoutJobs;
  }
}
