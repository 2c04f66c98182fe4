/**
 Uploads and retention (services/uploader.py, services/uploader_service.py): which files are sent, and which may
 be removed. The transport is an oracle: the set of target and file pairs whose put would be verified.
 */
module Uploading {
  import opened Wrappers

  /** A recording in the data directory; `content` identifies what was recorded. */
  datatype File = File(name: string, content: nat, mtime: int, readable: bool)

  /** Seconds of the day; an empty window when the stop is not behind the start. */
  datatype Dispatch = Immediate | Scheduled(start: nat, stop: nat) | Manual

  datatype Target = Target(id: nat, enabled: bool, dispatch: Dispatch)

  datatype Job = Job(target: nat, name: string, done: bool)

  datatype Put = Put(target: nat, name: string, content: nat)

  /** A file that was taken away: by whom, `None` for the archive, else the retention age in days; when; and the targets
      enabled at that moment. */
  datatype Removal = Removal(file: File, wanted: set<nat>, at: nat, retention: Option<int>)

  datatype Settings = Settings(archiving: bool, retentionDays: int)

  /** The data directory, the two tables, and the history: verified puts, removals, deletions and recordings. */
  datatype Store = Store(
    files: seq<File>, jobs: seq<Job>, targets: seq<Target>,
    puts: seq<Put>, removed: seq<Removal>, deleted: seq<File>, recorded: seq<File>)

  predicate Due(t: Target, now: nat) {
    t.enabled && !t.dispatch.Manual?
    && (t.dispatch.Immediate? || t.dispatch.start <= now % 86400 < t.dispatch.stop)
  }

  predicate Sent(jobs: seq<Job>, target: nat, name: string) { Job(target, name, true) in jobs }

  function Enabled(targets: seq<Target>): set<nat> {
    set t | t in targets && t.enabled :: t.id
  }

  predicate SentToAll(jobs: seq<Job>, targets: seq<Target>, name: string) {
    forall t <- targets :: t.enabled ==> Sent(jobs, t.id, name)
  }

  /** One file of an upload pass. */
  function Offered(s: Store, target: nat, f: File, verified: set<(nat, string)>): Store {
    if !f.readable || Sent(s.jobs, target, f.name) then s
    else if (target, f.name) in verified then
      s.(jobs := s.jobs + [Job(target, f.name, true)], puts := s.puts + [Put(target, f.name, f.content)])
    else s.(jobs := s.jobs + [Job(target, f.name, false)])
  }

  function OfferedAll(s: Store, target: nat, files: seq<File>, verified: set<(nat, string)>): Store
    decreases |files|
  {
    if files == [] then s else OfferedAll(Offered(s, target, files[0], verified), target, files[1..], verified)
  }

  /** What retention, or the archive, may take away. */
  predicate Removable(s: Store, f: File, now: nat, settings: Settings) {
    && (exists t <- s.targets :: t.enabled) && SentToAll(s.jobs, s.targets, f.name)
    && (settings.archiving
        || (settings.retentionDays >= 0 && f.readable && now - f.mtime >= settings.retentionDays * 86400))
  }

  /** The files that stay. */
  function Staying(s: Store, files: seq<File>, now: nat, settings: Settings): seq<File> {
    if files == [] then []
    else
      var later := Staying(s, files[1..], now, settings);
      if Removable(s, files[0], now, settings) then later else [files[0]] + later
  }

  function Going(s: Store, files: seq<File>, now: nat, settings: Settings): seq<Removal> {
    if files == [] then []
    else
      var later := Going(s, files[1..], now, settings);
      if Removable(s, files[0], now, settings) then [Taken(s, files[0], now, settings)] + later else later
  }

  function Taken(s: Store, f: File, now: nat, settings: Settings): Removal {
    Removal(f, Enabled(s.targets), now, if settings.archiving then None else Some(settings.retentionDays))
  }

  function Cleaned(s: Store, now: nat, settings: Settings): Store {
    s.(files := Staying(s, s.files, now, settings), removed := s.removed + Going(s, s.files, now, settings))
  }

  /** All due targets in turn. */
  function Dispatched(s: Store, targets: seq<Target>, now: nat, verified: set<(nat, string)>): Store
    decreases |targets|
  {
    if targets == [] then s
    else
      var t := targets[0];
      Dispatched(if Due(t, now) then OfferedAll(s, t.id, s.files, verified) else s, targets[1..], now, verified)
  }

  function Ticked(s: Store, now: nat, settings: Settings, verified: set<(nat, string)>): Store {
    Cleaned(Dispatched(s, s.targets, now, verified), now, settings)
  }

  class UploaderService {
    var files: seq<File>
    var jobs: seq<Job>
    var targets: seq<Target>
    ghost var puts: seq<Put>
    ghost var removed: seq<Removal>
    ghost var deleted: seq<File>
    ghost var recorded: seq<File>

    ghost function Now(): Store
      reads this
    {
      Store(files, jobs, targets, puts, removed, deleted, recorded)
    }

    /** Connects, puts and verifies; anything that fails on the way is the exception the caller records. */
    method UploadFile(target: nat, f: File, verified: set<(nat, string)>) returns (ok: bool)
      modifies this`puts
      ensures ok == ((target, f.name) in verified)
      ensures puts == if ok then old(puts) + [Put(target, f.name, f.content)] else old(puts)
    {
      ok := (target, f.name) in verified;
      if ok {
        puts := puts + [Put(target, f.name, f.content)];
      }
    }

    method UploadPending(target: nat, verified: set<(nat, string)>) returns (uploaded: nat, failed: nat)
      modifies this`jobs, this`puts
      ensures Now() == OfferedAll(old(Now()), target, files, verified)
      ensures uploaded == |puts| - |old(puts)| && uploaded + failed == |jobs| - |old(jobs)|
    {
      uploaded, failed := 0, 0;
      for k := 0 to |files|
        invariant OfferedAll(Now(), target, files[k..], verified) == OfferedAll(old(Now()), target, files, verified)
        invariant files == old(files) && targets == old(targets) && removed == old(removed)
        invariant deleted == old(deleted) && recorded == old(recorded)
        invariant uploaded == |puts| - |old(puts)| && uploaded + failed == |jobs| - |old(jobs)|
      {
        assert files[k..][1..] == files[k + 1..];
        var f := files[k];
        if f.readable && !Sent(jobs, target, f.name) {
          var ok := UploadFile(target, f, verified);
          jobs := jobs + [Job(target, f.name, ok)];
          if ok {
            uploaded := uploaded + 1;
          } else {
            failed := failed + 1;
          }
        }
      }
    }

    /** Deletes what was sent to every enabled target and is old enough. */
    method Prune(now: nat, retentionDays: int) returns (count: nat)
      modifies this`files, this`removed
      ensures Now() == Cleaned(old(Now()), now, Settings(false, retentionDays))
      ensures count == |removed| - |old(removed)|
    {
      ghost var s, settings := Now(), Settings(false, retentionDays);
      count := 0;
      if retentionDays < 0 || !exists t <- targets :: t.enabled {
        NothingGoes(s, files, now, settings);
        return;
      }
      var kept: seq<File> := [];
      for k := 0 to |files|
        invariant files == old(files)
        invariant kept + Staying(s, files[k..], now, settings) == Staying(s, files, now, settings)
        invariant removed + Going(s, files[k..], now, settings) == old(removed) + Going(s, files, now, settings)
        invariant count == |removed| - |old(removed)|
      {
        assert files[k..][1..] == files[k + 1..];
        var f := files[k];
        var gone := f.readable && SentToAll(jobs, targets, f.name) && now - f.mtime >= retentionDays * 86400;
        assert gone == Removable(s, f, now, settings);
        StepOverFile(s, files[k..], now, settings, kept, removed);
        hide Removable;
        if gone {
          removed := removed + [Removal(f, Enabled(targets), now, Some(retentionDays))];
          count := count + 1;
        } else {
          kept := kept + [f];
        }
      }
      files := kept;
      assert kept + [] == kept && removed + [] == removed;
    }

    /** Moves what was sent to every enabled target into the archive. */
    method ArchiveDone(now: nat) returns (moved: nat)
      modifies this`files, this`removed
      ensures Now() == Cleaned(old(Now()), now, Settings(true, 0))
      ensures moved == |removed| - |old(removed)|
    {
      ghost var s, settings := Now(), Settings(true, 0);
      moved := 0;
      if !exists t <- targets :: t.enabled {
        NothingGoes(s, files, now, settings);
        return;
      }
      var kept: seq<File> := [];
      for k := 0 to |files|
        invariant files == old(files)
        invariant kept + Staying(s, files[k..], now, settings) == Staying(s, files, now, settings)
        invariant removed + Going(s, files[k..], now, settings) == old(removed) + Going(s, files, now, settings)
        invariant moved == |removed| - |old(removed)|
      {
        assert files[k..][1..] == files[k + 1..];
        var f := files[k];
        var gone := SentToAll(jobs, targets, f.name);
        assert gone == Removable(s, f, now, settings);
        StepOverFile(s, files[k..], now, settings, kept, removed);
        hide Removable;
        if gone {
          removed := removed + [Removal(f, Enabled(targets), now, None)];
          moved := moved + 1;
        } else {
          kept := kept + [f];
        }
      }
      files := kept;
      assert kept + [] == kept && removed + [] == removed;
    }

    method Tick(now: nat, settings: Settings, verified: set<(nat, string)>)
      modifies this
      ensures Now() == Ticked(old(Now()), now, settings, verified)
    {
      for k := 0 to |targets|
        invariant targets == old(targets)
        invariant Dispatched(Now(), targets[k..], now, verified) == Dispatched(old(Now()), targets, now, verified)
      {
        assert targets[k..][1..] == targets[k + 1..];
        if Due(targets[k], now) {
          var _, _ := UploadPending(targets[k].id, verified);
        }
      }
      ghost var s := Now();
      if settings.archiving {
        var _ := ArchiveDone(now);
        SameCleaning(s, now, settings, Settings(true, 0));
      } else {
        var _ := Prune(now, settings.retentionDays);
        SameCleaning(s, now, settings, Settings(false, settings.retentionDays));
      }
    }
  }

  lemma {:induction false} NothingGoes(s: Store, files: seq<File>, now: nat, settings: Settings)
    requires forall f <- files :: !Removable(s, f, now, settings)
    ensures Staying(s, files, now, settings) == files && Going(s, files, now, settings) == []
  {
    hide Removable;
    if files != [] {
      NothingGoes(s, files[1..], now, settings);
      assert files == [files[0]] + files[1..];
    }
  }

  lemma StepOverFile(s: Store, files: seq<File>, now: nat, settings: Settings, kept: seq<File>, removed: seq<Removal>)
    requires files != []
    ensures var f, later := files[0], files[1..];
      var gone := Removable(s, f, now, settings);
      && kept + Staying(s, files, now, settings)
         == (if gone then kept else kept + [f]) + Staying(s, later, now, settings)
      && removed + Going(s, files, now, settings)
         == (if gone then removed + [Taken(s, f, now, settings)] else removed) + Going(s, later, now, settings)
  {
    hide Removable, SentToAll, Taken;
    var f, later := files[0], files[1..];
    var r := Taken(s, f, now, settings);
    assert kept + ([f] + Staying(s, later, now, settings)) == kept + [f] + Staying(s, later, now, settings);
    assert removed + ([r] + Going(s, later, now, settings)) == removed + [r] + Going(s, later, now, settings);
  }

  lemma {:induction false} SameCleaning(s: Store, now: nat, a: Settings, b: Settings)
    requires a.archiving == b.archiving && (a.archiving || a.retentionDays == b.retentionDays)
    ensures Cleaned(s, now, a) == Cleaned(s, now, b)
  {
    SameStaying(s, s.files, now, a, b);
  }

  lemma {:induction false} SameStaying(s: Store, files: seq<File>, now: nat, a: Settings, b: Settings)
    requires a.archiving == b.archiving && (a.archiving || a.retentionDays == b.retentionDays)
    ensures Staying(s, files, now, a) == Staying(s, files, now, b) && Going(s, files, now, a) == Going(s, files, now, b)
  {
    if files != [] {
      SameStaying(s, files[1..], now, a, b);
      assert Removable(s, files[0], now, a) == Removable(s, files[0], now, b);
    }
  }
}
