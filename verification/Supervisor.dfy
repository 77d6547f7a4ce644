/**
  The daemon supervisor and its maintenance handlers (blockchain/src/index.js) as an interleaved state machine.

  One event is one uninterrupted stretch of the event loop: everything between two awaits, an event callback or a
  timer callback.  A daemon exits on its own account at any time; its close event is delivered later.
*/
module Supervisor {
  import opened Prelude
  import opened DirectoryHash
  import opened Backup

  type Pid = nat

  /** The three requests; a chain restore carries the extracted archive, already admitted. */
  datatype Kind = PackBackup | RestoreWallet | RestoreChain(extracted: Directory)

  /**
    Where a request stands: in the loop of stopMultichain on the process captured when it was called; after the
    loop; after its work on the chain directory, whose contents before that work were `before`.
  */
  datatype Phase =
    | Stopping(kind: Kind, target: Pid)
    | Stopped(kind: Kind)
    | Ready(kind: Kind, before: Directory)

  /** What a finished backup hashed and what it packed. */
  datatype Archive = Archive(hashed: Directory, packed: Directory)

  datatype State = State(
    booted: bool,               // initMultichain has run
    autostart: bool,
    isRunning: bool,
    mcproc: Option<Pid>,
    alive: set<Pid>,            // running processes
    open: set<Pid>,             // processes whose close event has not been handled yet
    signalled: set<Pid>,        // processes that were sent a kill
    pending: nat,               // restart timers
    handlers: map<nat, Phase>,  // maintenance requests in progress
    dir: Directory,             // the chain directory
    archives: seq<Archive>,
    spawned: Pid)               // the next process id

  datatype Event =
    | Init
    | Exit(p: Pid)
    | Close(p: Pid)
    | Timer
    | Write(p: Pid, contents: Directory)
    | Begin(id: nat, kind: Kind)
    | Poll(id: nat)
    | Work(id: nat, contents: Directory)
    | Finish(id: nat)
    | Fail(id: nat)

  function Spawn(s: State): State {
    s.(mcproc := Some(s.spawned), isRunning := true,
       alive := s.alive + {s.spawned}, open := s.open + {s.spawned}, spawned := s.spawned + 1)
  }

  function Drop(handlers: map<nat, Phase>, id: nat): map<nat, Phase> {
    map i | i in handlers && i != id :: handlers[i]
  }

  /** How a request of this kind may change the chain directory. */
  ghost predicate WorkDone(site: Site, kind: Kind, before: Directory, after: Directory) {
    match kind
    case PackBackup => BackupOf(site, before, after)
    case RestoreWallet => true
    case RestoreChain(extracted) => after == Globbed(extracted)
  }

  ghost predicate Next(site: Site, s: State, e: Event, t: State) {
    match e
    case Init =>
      !s.booted && t == if s.autostart then Spawn(s.(booted := true)) else s.(booted := true, isRunning := false)
    case Exit(p) =>
      p in s.alive && t == s.(alive := s.alive - {p})
    case Close(p) =>
      p in s.open - s.alive &&
      t == s.(open := s.open - {p}, isRunning := false, pending := if s.autostart then s.pending + 1 else s.pending)
    case Timer =>
      s.pending > 0 && t == Spawn(s.(pending := s.pending - 1))
    case Write(p, contents) =>
      p in s.alive && t == s.(dir := contents)
    case Begin(id, kind) =>
      id !in s.handlers &&
      t == if !s.isRunning then s.(autostart := false, handlers := s.handlers[id := Stopped(kind)])
           else if s.mcproc.None? then s.(autostart := false)  // there is no process to kill: the request throws
           else s.(autostart := false, handlers := s.handlers[id := Stopping(kind, s.mcproc.value)],
                   signalled := s.signalled + {s.mcproc.value})
    case Poll(id) =>
      id in s.handlers && s.handlers[id].Stopping? &&
      t == if s.isRunning then s.(signalled := s.signalled + {s.handlers[id].target})
           else s.(handlers := s.handlers[id := Stopped(s.handlers[id].kind)])
    case Work(id, contents) =>
      id in s.handlers && s.handlers[id].Stopped? && WorkDone(site, s.handlers[id].kind, s.dir, contents) &&
      t == s.(dir := contents, handlers := s.handlers[id := Ready(s.handlers[id].kind, s.dir)])
    case Finish(id) =>
      id in s.handlers && s.handlers[id].Ready? &&
      t == Spawn(s).(autostart := true, handlers := Drop(s.handlers, id), archives := Packed(s, id))
    case Fail(id) =>
      id in s.handlers && !s.handlers[id].Stopping? && t == s.(handlers := Drop(s.handlers, id))
  }

  /** A backup that finishes sends the directory as it is then. */
  function Packed(s: State, id: nat): seq<Archive>
    requires id in s.handlers && s.handlers[id].Ready?
  {
    s.archives +
    if s.handlers[id].kind.PackBackup? then [Archive(s.handlers[id].before, s.dir)] else []
  }

  function Initial(autostart: bool, dir: Directory): State {
    State(false, autostart, autostart, None, {}, {}, {}, 0, map[], dir, [], 0)
  }

  // ---------------------------------------------------------------- the program

  class Daemons {
    const site: Site
    var booted: bool
    var autostart: bool
    var isRunning: bool
    var mcproc: Option<Pid>
    var alive: set<Pid>
    var open: set<Pid>
    var signalled: set<Pid>
    var pending: nat
    var handlers: map<nat, Phase>
    var dir: Directory
    var archives: seq<Archive>
    var spawned: Pid

    function View(): State
      reads this
    {
      State(booted, autostart, isRunning, mcproc, alive, open, signalled, pending, handlers, dir, archives, spawned)
    }

    /** What keeps the program safe; see InvIsSafe. */
    ghost predicate Valid()
      reads this
    {
      Inv(site, View())
    }

    constructor (site: Site, autostart: bool, dir: Directory)
      ensures this.site == site && View() == Initial(autostart, dir) && Valid()
    {
      this.site := site;
      this.booted, this.autostart, this.isRunning, this.mcproc := false, autostart, autostart, None;
      this.alive, this.open, this.signalled, this.pending := {}, {}, {}, 0;
      this.handlers, this.dir, this.archives, this.spawned := map[], dir, [], 0;
    }

    method SpawnProcess()
      modifies this
      ensures View() == Spawn(old(View()))
    {
      mcproc := Some(spawned);
      alive, open, spawned := alive + {spawned}, open + {spawned}, spawned + 1;
      isRunning := true;
    }

    method InitMultichain()
      requires !booted
      modifies this
      ensures Next(site, old(View()), Init, View())
      ensures old(Valid()) ==> Valid() && Safe(site, View())
    {
      booted := true;
      if !autostart {
        isRunning := false;
      } else {
        SpawnProcess();
      }
      if old(Valid()) {
        KeepsValid(site, old(View()), Init, View());
      }
    }

    method OnClose(p: Pid)
      requires p in open - alive
      modifies this
      ensures Next(site, old(View()), Close(p), View())
      ensures old(Valid()) ==> Valid() && Safe(site, View())
    {
      open := open - {p};
      isRunning := false;
      if autostart {
        pending := pending + 1;
      }
      if old(Valid()) {
        KeepsValid(site, old(View()), Close(p), View());
      }
    }

    /** A daemon exits on its own account or because it was killed. */
    method DaemonExits(p: Pid)
      requires p in alive
      modifies this
      ensures Next(site, old(View()), Exit(p), View())
      ensures old(Valid()) ==> Valid() && Safe(site, View())
    {
      alive := alive - {p};
      if old(Valid()) {
        KeepsValid(site, old(View()), Exit(p), View());
      }
    }

    /** A daemon writes to the chain directory. */
    method DaemonWrites(p: Pid, contents: Directory)
      requires p in alive
      modifies this
      ensures Next(site, old(View()), Write(p, contents), View()) && dir == contents
      ensures old(Valid()) ==> Valid() && Safe(site, View())
    {
      dir := contents;
      if old(Valid()) {
        KeepsValid(site, old(View()), Write(p, contents), View());
      }
    }

    method OnRestartTimer()
      requires pending > 0
      modifies this
      ensures Next(site, old(View()), Timer, View())
      ensures old(Valid()) ==> Valid() && Safe(site, View())
    {
      pending := pending - 1;
      SpawnProcess();
      if old(Valid()) {
        KeepsValid(site, old(View()), Timer, View());
      }
    }

    method Kill(target: Pid)
      modifies this`signalled
      ensures signalled == old(signalled) + {target}
    {
      signalled := signalled + {target};
    }

    /** A request up to its first await: AUTOSTART is cleared and the stop loop tested once. */
    method BeginMaintenance(id: nat, kind: Kind)
      requires id !in handlers
      modifies this
      ensures Next(site, old(View()), Begin(id, kind), View())
      ensures old(Valid()) && EntryOk(old(View())) ==> Valid() && Safe(site, View())
    {
      autostart := false;
      if isRunning {
        if mcproc.Some? {
          Kill(mcproc.value);
          handlers := handlers[id := Stopping(kind, mcproc.value)];
        }
      } else {
        handlers := handlers[id := Stopped(kind)];
      }
      if old(Valid()) && EntryOk(old(View())) {
        KeepsValid(site, old(View()), Begin(id, kind), View());
      }
    }

    /** One more test of `while (isRunning)`, three seconds later. */
    method PollStop(id: nat)
      requires id in handlers && handlers[id].Stopping?
      modifies this
      ensures Next(site, old(View()), Poll(id), View())
      ensures isRunning ==> old(handlers)[id].target in signalled
      ensures old(Valid()) ==> Valid() && Safe(site, View())
    {
      if isRunning {
        Kill(handlers[id].target);
      } else {
        handlers := handlers[id := Stopped(handlers[id].kind)];
      }
      if old(Valid()) {
        KeepsValid(site, old(View()), Poll(id), View());
      }
    }

    /** The backup's work: hash the directory and add the metadata file. */
    method HashForBackup(id: nat, chainName: string, timestamp: int)
      requires id in handlers && handlers[id] == Stopped(PackBackup)
      modifies this
      ensures Next(site, old(View()), Work(id, View().dir), View())
      ensures old(Valid()) ==> Valid() && Safe(site, View())
      ensures handlers == old(handlers)[id := Ready(PackBackup, old(dir))] && archives == old(archives)
    {
      var disk := new Disk(Some(dir), None, None);
      disk.CreateMetadataFile(site, chainName, timestamp);
      handlers := handlers[id := Ready(PackBackup, dir)];
      dir := disk.chain.value;
      if old(Valid()) {
        KeepsValid(site, old(View()), Work(id, View().dir), View());
      }
    }

    /** The chain restore's work: move the archive into place. */
    method InstallArchive(id: nat)
      requires id in handlers && handlers[id].Stopped? && handlers[id].kind.RestoreChain?
      modifies this
      ensures Next(site, old(View()), Work(id, View().dir), View())
      ensures old(Valid()) ==> Valid() && Safe(site, View())
      ensures VisibleEntries(old(handlers)[id].kind.extracted, dir)
    {
      var kind := handlers[id].kind;
      ghost var at := GlobbedPicks(kind.extracted);
      var disk := new Disk(Some(dir), Some(kind.extracted), None);
      disk.MoveBackup();
      handlers := handlers[id := Ready(kind, dir)];
      dir := disk.chain.value;
      if old(Valid()) {
        KeepsValid(site, old(View()), Work(id, View().dir), View());
      }
    }

    /** The wallet restore's work: importWallet replaces files of the chain directory by the uploaded ones. */
    method ImportWallet(id: nat, imported: Directory)
      requires id in handlers && handlers[id] == Stopped(RestoreWallet)
      modifies this
      ensures Next(site, old(View()), Work(id, imported), View())
      ensures old(Valid()) ==> Valid() && Safe(site, View())
    {
      handlers := handlers[id := Ready(RestoreWallet, dir)];
      dir := imported;
      if old(Valid()) {
        KeepsValid(site, old(View()), Work(id, imported), View());
      }
    }

    /** A request that throws after its stop loop: the error is reported and nothing is switched on again. */
    method AbandonMaintenance(id: nat)
      requires id in handlers && !handlers[id].Stopping?
      modifies this
      ensures Next(site, old(View()), Fail(id), View())
      ensures old(Valid()) ==> Valid() && Safe(site, View())
    {
      handlers := Drop(handlers, id);
      if old(Valid()) {
        KeepsValid(site, old(View()), Fail(id), View());
      }
    }

    /** The rest of a backup request once the daemon has stopped: one archive more, of what it found. */
    method PackAndRespawn(id: nat, chainName: string, timestamp: int)
      requires id in handlers && handlers[id] == Stopped(PackBackup)
      modifies this
      ensures archives == old(archives) + [Archive(old(dir), dir)] && BackupOf(site, old(dir), dir)
      ensures old(Valid()) ==> Valid() && Safe(site, View())
    {
      HashForBackup(id, chainName, timestamp);
      FinishMaintenance(id);
    }

    /** The end of every request: respawn, then switch automatic restarts on again. */
    method FinishMaintenance(id: nat)
      requires id in handlers && handlers[id].Ready?
      modifies this
      ensures Next(site, old(View()), Finish(id), View())
      ensures archives == old(archives) + if old(handlers)[id].kind == PackBackup
                                          then [Archive(old(handlers)[id].before, old(dir))] else []
      ensures old(Valid()) ==> Valid() && Safe(site, View())
    {
      archives := Packed(View(), id);
      SpawnProcess();
      autostart := true;
      handlers := Drop(handlers, id);
      if old(Valid()) {
        KeepsValid(site, old(View()), Finish(id), View());
      }
    }
  }

  // ---------------------------------------------------------------- what is safe

  /**
    At most one daemon is running or about to be restarted, isRunning tells the truth, restarts are neither lost
    nor doubled, and nothing writes the chain directory while a request works on it.
  */
  ghost predicate Safe(site: Site, s: State) {
    && s.alive <= s.open
    && |s.open| + s.pending <= 1
    && (s.booted ==> (s.isRunning <==> s.open != {}))
    && (s.booted && s.autostart ==> s.handlers == map[] && |s.open| + s.pending == 1)
    && (forall id :: id in s.handlers && !s.handlers[id].Stopping? ==> s.open == {})
    && (forall a :: a in s.archives ==> BackupOf(site, a.hashed, a.packed))
  }

  /** When a request may be admitted. */
  predicate EntryOk(s: State) {
    s.handlers == map[] && s.pending == 0 && (s.booted || s.isRunning)
  }

  /** A step in which requests are only admitted when they may be. */
  ghost predicate GuardedNext(site: Site, s: State, e: Event, t: State) {
    Next(site, s, e, t) && (e.Begin? ==> EntryOk(s))
  }

  ghost predicate GuardedStep(site: Site, s: State, t: State) {
    exists e :: GuardedNext(site, s, e, t)
  }

  /** A run: states joined by guarded steps. */
  ghost predicate GuardedRun(site: Site, run: seq<State>) {
    |run| > 0 && forall i :: 0 <= i < |run| - 1 ==> GuardedStep(site, run[i], run[i + 1])
  }

  ghost predicate HandlerInv(site: Site, s: State, phase: Phase) {
    match phase
    case Stopping(_, target) => s.mcproc == Some(target) && s.open <= s.signalled
    case Stopped(_) => s.open == {}
    case Ready(kind, before) => s.open == {} && WorkDone(site, kind, before, s.dir)
  }

  ghost predicate Inv(site: Site, s: State) {
    && s.alive <= s.open
    && s.open <= (if s.mcproc.Some? then {s.mcproc.value} else {})
    && (s.mcproc.Some? ==> s.mcproc.value < s.spawned)
    && (s.booted ==> (s.isRunning <==> s.open != {}))
    && (!s.booted ==> s.mcproc == None && s.pending == 0 && s.handlers == map[] && (s.autostart ==> s.isRunning))
    && |s.handlers| <= 1
    && (s.handlers != map[] ==> !s.autostart && s.pending == 0)
    && (s.booted && s.handlers == map[] ==> |s.open| + s.pending == if s.autostart then 1 else 0)
    && (forall id :: id in s.handlers ==> HandlerInv(site, s, s.handlers[id]))
    && (forall a :: a in s.archives ==> BackupOf(site, a.hashed, a.packed))
  }

  lemma InvIsSafe(site: Site, s: State)
    requires Inv(site, s)
    ensures Safe(site, s)
  {
    if s.mcproc.Some? {
      assert s.open == {} || s.open == {s.mcproc.value};
    }
  }

  lemma InvInitial(site: Site, autostart: bool, dir: Directory)
    ensures Inv(site, Initial(autostart, dir))
  {
  }

  lemma OnlyHandler(s: State, id: nat)
    requires |s.handlers| <= 1 && id in s.handlers
    ensures Drop(s.handlers, id) == map[]
    ensures forall i :: i in s.handlers ==> i == id
  {
    var rest := s.handlers.Keys - {id};
    assert |rest| == 0;
    forall i | i in s.handlers
      ensures i == id
    {
      assert i !in rest;
    }
  }

  /** Every guarded step keeps the invariant. */
  lemma StepKeepsInv(site: Site, s: State, e: Event, t: State)
    requires Inv(site, s) && GuardedNext(site, s, e, t)
    ensures Inv(site, t)
  {
    match e
    case Init => SpawnStepKeepsInv(site, s, e, t);
    case Timer => SpawnStepKeepsInv(site, s, e, t);
    case Exit(_) => ProcessStepKeepsInv(site, s, e, t);
    case Close(_) => ProcessStepKeepsInv(site, s, e, t);
    case Write(_, _) => ProcessStepKeepsInv(site, s, e, t);
    case Begin(_, _) => BeginKeepsInv(site, s, e, t);
    case Poll(_) => HandlerStepKeepsInv(site, s, e, t);
    case Work(_, _) => HandlerStepKeepsInv(site, s, e, t);
    case Finish(_) => EndKeepsInv(site, s, e, t);
    case Fail(_) => EndKeepsInv(site, s, e, t);
  }

  lemma KeepsValid(site: Site, s: State, e: Event, t: State)
    requires Inv(site, s) && GuardedNext(site, s, e, t)
    ensures Inv(site, t) && Safe(site, t)
  {
    StepKeepsInv(site, s, e, t);
    InvIsSafe(site, t);
  }

  lemma SpawnStepKeepsInv(site: Site, s: State, e: Event, t: State)
    requires Inv(site, s) && Next(site, s, e, t) && (e.Init? || e.Timer?)
    ensures Inv(site, t)
  {
    if e.Timer? {
      assert s.autostart && |s.open| == 0;
    }
    assert s.open == {};
    assert t.open == {s.spawned} || t.open == {};
  }

  lemma ProcessStepKeepsInv(site: Site, s: State, e: Event, t: State)
    requires Inv(site, s) && Next(site, s, e, t) && (e.Exit? || e.Close? || e.Write?)
    ensures Inv(site, t)
  {
    assert s.open == {e.p} && s.booted;
    forall id | id in s.handlers
      ensures s.handlers[id].Stopping? && HandlerInv(site, t, s.handlers[id])
    {
      assert HandlerInv(site, s, s.handlers[id]);
    }
  }

  lemma BeginKeepsInv(site: Site, s: State, e: Event, t: State)
    requires Inv(site, s) && GuardedNext(site, s, e, t) && e.Begin?
    ensures Inv(site, t)
  {
    assert t.handlers.Keys == {e.id} || t.handlers == map[];
  }

  lemma HandlerStepKeepsInv(site: Site, s: State, e: Event, t: State)
    requires Inv(site, s) && Next(site, s, e, t) && (e.Poll? || e.Work?)
    ensures Inv(site, t)
  {
    OnlyHandler(s, e.id);
    assert t.handlers.Keys == s.handlers.Keys;
    assert HandlerInv(site, s, s.handlers[e.id]);
    assert HandlerInv(site, t, t.handlers[e.id]);
  }

  lemma EndKeepsInv(site: Site, s: State, e: Event, t: State)
    requires Inv(site, s) && Next(site, s, e, t) && (e.Finish? || e.Fail?)
    ensures Inv(site, t)
  {
    OnlyHandler(s, e.id);
    assert HandlerInv(site, s, s.handlers[e.id]);
    assert t.open == {} || t.open == {s.spawned};
  }

  lemma {:induction false} RunKeepsInv(site: Site, run: seq<State>, i: nat)
    requires GuardedRun(site, run) && Inv(site, run[0]) && i < |run|
    ensures Inv(site, run[i])
  {
    if i > 0 {
      RunKeepsInv(site, run, i - 1);
      assert GuardedStep(site, run[i - 1], run[i - 1 + 1]);
      var e :| GuardedNext(site, run[i - 1], e, run[i]);
      StepKeepsInv(site, run[i - 1], e, run[i]);
    }
  }

  /** Every state of every run from start-up is safe, as long as requests are admitted only when they may be. */
  lemma Safety(site: Site, autostart: bool, dir: Directory, run: seq<State>)
    requires GuardedRun(site, run) && run[0] == Initial(autostart, dir)
    ensures forall i :: 0 <= i < |run| ==> Safe(site, run[i])
  {
    InvInitial(site, autostart, dir);
    forall i | 0 <= i < |run|
      ensures Safe(site, run[i])
    {
      RunKeepsInv(site, run, i);
      InvIsSafe(site, run[i]);
    }
  }

  // ---------------------------------------------------------------- admission is exactly as strict as needed

  /** No guarded run from t ever leaves the safe states. */
  ghost predicate SafeEver(site: Site, t: State) {
    forall run :: GuardedRun(site, run) && run[0] == t ==> Safe(site, run[|run| - 1])
  }

  ghost predicate RunFromTo(site: Site, run: seq<State>, s: State, t: State) {
    GuardedRun(site, run) && run[0] == s && run[|run| - 1] == t
  }

  /** t can be reached from s. */
  ghost predicate Reaches(site: Site, s: State, t: State) {
    exists run :: RunFromTo(site, run, s, t)
  }

  lemma ReachesItself(site: Site, s: State)
    ensures Reaches(site, s, s)
  {
    assert RunFromTo(site, [s], s, s);
  }

  lemma ReachesNext(site: Site, s: State, t: State, e: Event, u: State)
    requires Reaches(site, s, t) && GuardedNext(site, t, e, u)
    ensures Reaches(site, s, u)
  {
    var run :| RunFromTo(site, run, s, t);
    assert GuardedStep(site, t, u);
    assert RunFromTo(site, run + [u], s, u);
  }

  /** A request past its stop loop can always run to its end, where it spawns a daemon. */
  lemma CanFinish(site: Site, s: State, t: State, id: nat) returns (u: State)
    requires Reaches(site, s, t) && id in t.handlers && t.handlers[id].Stopped?
    ensures Reaches(site, s, u)
    ensures t.spawned in u.open && t.open <= u.open && u.spawned == t.spawned + 1
    ensures u.autostart && u.booted == t.booted && u.handlers == Drop(t.handlers, id)
  {
    var kind := t.handlers[id].kind;
    var contents := if kind.RestoreChain? then Globbed(kind.extracted) else AnyBackup(site, t.dir);
    var worked := t.(dir := contents, handlers := t.handlers[id := Ready(kind, t.dir)]);
    ReachesNext(site, s, t, Work(id, contents), worked);
    u := Spawn(worked).(autostart := true, handlers := Drop(worked.handlers, id), archives := Packed(worked, id));
    ReachesNext(site, s, worked, Finish(id), u);
    assert u.handlers == Drop(t.handlers, id);
  }

  ghost function AnyBackup(site: Site, d: Directory): (archive: Directory)
    ensures BackupOf(site, d, archive)
  {
    var text := site.render(Metadata("", site.organisation, 0, HashText(site, d), site.version));
    WrittenAt(d, METADATA, text, 0);
    Without(d, METADATA)[..0] + [Entry(METADATA, File(text))] + Without(d, METADATA)[0..]
  }

  /** Without restarts, the last daemon can exit and be reported closed. */
  lemma CanDrain(site: Site, s: State, t: State) returns (u: State)
    requires Reaches(site, s, t) && !t.autostart
    requires t.open == {} ==> !t.isRunning
    requires t.alive <= t.open <= (if t.mcproc.Some? then {t.mcproc.value} else {})
    ensures Reaches(site, s, u) && u.open == {} && !u.isRunning
    ensures u.handlers == t.handlers && u.booted == t.booted
  {
    u := t;
    if t.open != {} {
      var p := t.mcproc.value;
      assert p in t.open;
      if p in t.alive {
        u := t.(alive := t.alive - {p});
        ReachesNext(site, s, t, Exit(p), u);
      }
      var v := u.(open := u.open - {p}, isRunning := false, pending := u.pending);
      ReachesNext(site, s, u, Close(p), v);
      u := v;
    }
  }

  lemma CanLeaveLoop(site: Site, s: State, t: State, id: nat) returns (u: State)
    requires Reaches(site, s, t) && id in t.handlers && !t.isRunning
    ensures Reaches(site, s, u) && !u.isRunning && u.open == t.open
    ensures u.handlers.Keys == t.handlers.Keys && !u.handlers[id].Stopping?
    ensures t.handlers[id].Stopping? ==> u.handlers[id].Stopped?
    ensures forall i :: i in t.handlers && (i != id || !t.handlers[i].Stopping?) ==> u.handlers[i] == t.handlers[i]
  {
    u := t;
    if t.handlers[id].Stopping? {
      u := t.(handlers := t.handlers[id := Stopped(t.handlers[id].kind)]);
      ReachesNext(site, s, t, Poll(id), u);
    }
  }

  /** A request admitted beside another one can spawn a daemon while the other works on the directory. */
  lemma OverlapIsUnsafe(site: Site, s: State, id: nat, kind: Kind, t: State) returns (u: State)
    requires Inv(site, s) && s.handlers != map[] && Next(site, s, Begin(id, kind), t)
    ensures Reaches(site, t, u) && !Safe(site, u)
  {
    var other :| other in s.handlers;
    assert HandlerInv(site, s, s.handlers[other]);
    assert other in t.handlers && id in t.handlers && id != other;
    ReachesItself(site, t);
    var a := CanDrain(site, t, t);
    var b := CanLeaveLoop(site, t, a, other);
    var c := CanLeaveLoop(site, t, b, id);
    u := CanFinish(site, t, c, id);
    assert other in u.handlers && !u.handlers[other].Stopping?;
    assert u.open != {};
  }

  /** A pending restart fires while the request works on the directory. */
  lemma PendingIsUnsafe(site: Site, s: State, id: nat, kind: Kind, t: State) returns (u: State)
    requires Inv(site, s) && s.pending > 0 && Next(site, s, Begin(id, kind), t)
    ensures Reaches(site, t, u) && !Safe(site, u)
  {
    assert s.open == {};
    ReachesItself(site, t);
    u := Spawn(t.(pending := t.pending - 1));
    ReachesNext(site, t, t, Timer, u);
    assert id in u.handlers && u.handlers[id].Stopped? && s.spawned in u.open;
  }

  /** Before start-up with automatic start off, the request's daemon is followed by the one start-up spawns. */
  lemma EarlyIsUnsafe(site: Site, s: State, id: nat, kind: Kind, t: State) returns (u: State)
    requires Inv(site, s) && !s.booted && !s.isRunning && Next(site, s, Begin(id, kind), t)
    ensures Reaches(site, t, u) && !Safe(site, u)
  {
    ReachesItself(site, t);
    var a := CanFinish(site, t, t, id);
    u := Spawn(a.(booted := true));
    ReachesNext(site, t, a, Init, u);
    assert {t.spawned, a.spawned} <= u.open;
    CardAtLeastTwo(u.open, t.spawned, a.spawned);
  }

  lemma CardAtLeastTwo(s: set<nat>, x: nat, y: nat)
    requires x in s && y in s && x != y
    ensures |s| >= 2
  {
    assert |s - {x}| == |s| - 1;
    assert y in s - {x};
  }

  /** A request is harmless, in every run that follows, exactly when the guard holds as it is admitted. */
  lemma AdmissionIff(site: Site, s: State, id: nat, kind: Kind, t: State)
    requires Inv(site, s) && Next(site, s, Begin(id, kind), t)
    ensures SafeEver(site, t) <==> EntryOk(s)
  {
    if EntryOk(s) {
      StepKeepsInv(site, s, Begin(id, kind), t);
      forall run | GuardedRun(site, run) && run[0] == t
        ensures Safe(site, run[|run| - 1])
      {
        RunKeepsInv(site, run, |run| - 1);
        InvIsSafe(site, run[|run| - 1]);
      }
    } else {
      var u: State;
      if s.handlers != map[] {
        u := OverlapIsUnsafe(site, s, id, kind, t);
      } else if s.pending > 0 {
        u := PendingIsUnsafe(site, s, id, kind, t);
      } else {
        u := EarlyIsUnsafe(site, s, id, kind, t);
      }
      var run :| RunFromTo(site, run, t, u);
    }
  }

  // ---- the three cases do arise

  /** A daemon that has started, exited and been reported leaves a restart pending. */
  lemma PendingArises(site: Site, dir: Directory) returns (s: State)
    ensures Reaches(site, Initial(true, dir), s) && Inv(site, s) && s.booted && s.handlers == map[] && s.pending > 0
  {
    var start := Initial(true, dir);
    var up := Spawn(start.(booted := true));
    var down := up.(alive := up.alive - {0});
    s := down.(open := down.open - {0}, isRunning := false, pending := 1);
    ReachesItself(site, start);
    ReachesNext(site, start, start, Init, up);
    ReachesNext(site, start, up, Exit(0), down);
    ReachesNext(site, start, down, Close(0), s);
    ReachedIsValid(site, true, dir, s);
  }

  /** A second request may come while the first is still stopping the daemon. */
  lemma OverlapArises(site: Site, dir: Directory, id: nat, kind: Kind) returns (s: State)
    ensures Reaches(site, Initial(true, dir), s) && Inv(site, s) && s.booted && id in s.handlers && s.pending == 0
  {
    var start := Initial(true, dir);
    var up := Spawn(start.(booted := true));
    s := up.(autostart := false, handlers := map[id := Stopping(kind, 0)], signalled := {0});
    ReachesItself(site, start);
    ReachesNext(site, start, start, Init, up);
    assert up.handlers[id := Stopping(kind, 0)] == s.handlers;
    ReachesNext(site, start, up, Begin(id, kind), s);
    ReachedIsValid(site, true, dir, s);
  }

  /** With automatic start off, every request before start-up is early; with automatic start on, none is. */
  lemma EarlyArises(site: Site, dir: Directory)
    ensures var s := Initial(false, dir); Inv(site, s) && !s.booted && !s.isRunning && !EntryOk(s)
    ensures var s := Initial(true, dir); Inv(site, s) && !s.booted && s.isRunning && EntryOk(s)
  {
  }

  lemma ReachedIsValid(site: Site, autostart: bool, dir: Directory, s: State)
    requires Reaches(site, Initial(autostart, dir), s)
    ensures Inv(site, s)
  {
    var run :| RunFromTo(site, run, Initial(autostart, dir), s);
    InvInitial(site, autostart, dir);
    RunKeepsInv(site, run, |run| - 1);
  }

  // ---------------------------------------------------------------- the chain directory

  /** From the end of the stop loop to the respawn, only the request itself changes the chain directory. */
  lemma DirectoryUndisturbed(site: Site, s: State, e: Event, t: State, id: nat)
    requires Inv(site, s) && GuardedNext(site, s, e, t)
    requires id in s.handlers && !s.handlers[id].Stopping? && e != Finish(id)
    ensures s.alive == t.alive == {}
    ensures t.dir == s.dir || (e.Work? && e.id == id && WorkDone(site, s.handlers[id].kind, s.dir, t.dir))
  {
    OnlyHandler(s, id);
    assert HandlerInv(site, s, s.handlers[id]);
  }

  /** While a request waits in its stop loop, the process it keeps killing is the one that runs. */
  lemma StopsTheRunningDaemon(site: Site, s: State, id: nat)
    requires Inv(site, s) && id in s.handlers && s.handlers[id].Stopping? && s.isRunning
    ensures s.open == {s.handlers[id].target} && s.handlers[id].target in s.signalled
  {
    assert HandlerInv(site, s, s.handlers[id]);
    assert s.booted;
  }

  /** A request that fails leaves everything stopped, and then nothing but another request can happen. */
  lemma FailureLeavesStopped(site: Site, s: State, id: nat, t: State, e: Event, u: State)
    requires Inv(site, s) && Next(site, s, Fail(id), t)
    ensures t.open == {} && t.pending == 0 && !t.autostart && !t.isRunning && t.dir == s.dir
    ensures GuardedNext(site, t, e, u) ==> e.Begin?
  {
    OnlyHandler(s, id);
    assert HandlerInv(site, s, s.handlers[id]);
  }

  /** Only a backup that finishes sends anything: one archive of what it hashed and of the directory as it is. */
  lemma OnlyFinishSends(site: Site, s: State, e: Event, t: State)
    requires Next(site, s, e, t)
    ensures e.Finish? && s.handlers[e.id].kind == PackBackup ==>
              t.archives == s.archives + [Archive(s.handlers[e.id].before, s.dir)]
    ensures !(e.Finish? && s.handlers[e.id].kind == PackBackup) ==> t.archives == s.archives
  {
  }

  /** After its work a request can only finish or fail, and until then nothing else happens. */
  lemma ReadyWaits(site: Site, s: State, e: Event, t: State, id: nat)
    requires Inv(site, s) && GuardedNext(site, s, e, t) && id in s.handlers && s.handlers[id].Ready?
    ensures e == Finish(id) || e == Fail(id)
  {
    OnlyHandler(s, id);
    assert HandlerInv(site, s, s.handlers[id]);
  }

  /**
    A request that has done its work on the directory and finishes, whatever happens in between: the directory is as
    the work left it, one daemon runs, and a backup has sent exactly one archive, of the directory before its work
    and after it.  A chain restore has installed what is visible of the archive.
  */
  lemma FinishedRequest(site: Site, autostart: bool, dir: Directory, s: State, id: nat, contents: Directory, t: State,
                        run: seq<State>, v: State)
    requires Reaches(site, Initial(autostart, dir), s) && id in s.handlers && Next(site, s, Work(id, contents), t)
    requires GuardedRun(site, run) && run[0] == t && forall i :: 0 <= i < |run| ==> id in run[i].handlers
    requires Next(site, run[|run| - 1], Finish(id), v)
    ensures v.dir == contents && v.autostart && v.isRunning && v.alive == v.open == {v.mcproc.value}
    ensures s.handlers[id].kind == PackBackup ==>
              v.archives == s.archives + [Archive(s.dir, contents)] && BackupOf(site, s.dir, contents)
    ensures s.handlers[id].kind != PackBackup ==> v.archives == s.archives
    ensures s.handlers[id].kind.RestoreChain? ==> VisibleEntries(s.handlers[id].kind.extracted, v.dir)
  {
    ReachedIsValid(site, autostart, dir, s);
    StepKeepsInv(site, s, Work(id, contents), t);
    if |run| > 1 {
      assert GuardedStep(site, run[0], run[1]);
      var e :| GuardedNext(site, run[0], e, run[1]);
      ReadyWaits(site, t, e, run[1], id);
      assert false;
    }
    assert HandlerInv(site, t, t.handlers[id]);
    if s.handlers[id].kind.RestoreChain? {
      var at := GlobbedPicks(s.handlers[id].kind.extracted);
    }
  }

  /** Every archive a run sends out is accepted by the node itself exactly when the hashed directory was readable. */
  lemma SentBackupsAccepted(site: Site, autostart: bool, dir: Directory, run: seq<State>, a: Archive)
    requires GuardedRun(site, run) && run[0] == Initial(autostart, dir)
    requires a in run[|run| - 1].archives
    requires site.hashing.ignored(METADATA) && LoadsBack(site, site)
    ensures Accepts(site, a.packed) <==>
            && Readable(site.hashing, a.hashed)
            && exists text ::
                 Lookup(a.hashed, "multichain.conf") == Some(File(text)) && site.hasPassword(text) == Some(true)
  {
    Safety(site, autostart, dir, run);
    assert Safe(site, run[|run| - 1]);
    BackupAcceptedIff(site, site, a.hashed, a.packed);
    SameMajorIff(site.version, site.version);
  }
}
