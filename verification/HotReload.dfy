/** Hot reload end to end: writes whose events arm a timer, reloads that overlap, an atomically swapped
    config with a capacity-1 signal, and the watcher that applies what it reads
    (internal/config/manager.go, watchConfigReloads and handleReload of the route manager). */
module HotReload {
  import opened Prelude
  import opened Tables
  import opened Routes
  import opened ReloadSpec

  /** The delay between a file event and the reload it causes, one second. */
  const DEBOUNCE: int := 1_000_000_000

  datatype ReloadPc =
    | Loading                        // about to read and validate the file
    | Loaded(config: seq<Route>)     // about to store
    | Stored                         // stored; about to try to send the signal
    | Ended

  /** One call of ConfigManager.reload, begun when the timer fired. */
  datatype Reload = Reload(pc: ReloadPc, begun: int)

  /** The event loop of ConfigManager.watch. */
  datatype Loop =
    | Selecting
    | GotEvent                       // received an event of the file; about to stop the timer
    | TimerStopped                   // about to start a new one

  datatype Watcher =
    | NotStarted
    | Waiting
    | Signalled                      // took the signal; about to read the config
    | Holding(version: nat)          // read this version; about to apply it

  /** stores holds every config ever stored; its last element is the current one. pending says that
      events of the file have not all been received. */
  datatype State = State(
    now: int,
    lastWrite: Option<int>,
    pending: bool,
    loop: Loop,
    timer: Option<int>,
    reloads: seq<Reload>,
    stores: seq<seq<Route>>,
    signal: bool,
    watcher: Watcher,
    version: nat,                    // the last version the watcher, or Start, read
    recorded: seq<Route>,
    before: seq<Route>,              // what was recorded before the last apply,
    failed: set<string>,             // and the keys whose stop failed in it
    edits: nat,                      // timers started, each for an event of the file
    wakeups: nat)                    // signals the watcher has taken

  datatype Event =
    | Advance(to: int)
    | FileWritten
    | ReceiveEvent(more: bool)
    | StopTimer
    | StartTimer
    | TimerFires
    | LoadFails(i: nat)
    | LoadSucceeds(i: nat, config: seq<Route>)
    | Store(i: nat)
    | TrySend(i: nat)
    | StartManager
    | Receive
    | ReadConfig
    | Apply(failed: set<string>, result: seq<Route>)

  function Init(now: int, config: seq<Route>): State {
    State(now, None, false, Selecting, None, [], [config], false, NotStarted, 0, [], [], {}, 0, 0)
  }

  function Current(s: State): nat { if |s.stores| > 0 then |s.stores| - 1 else 0 }

  predicate PcIs(s: State, i: nat, pc: ReloadPc) {
    i < |s.reloads| && s.reloads[i].pc == pc
  }

  ghost predicate Enabled(s: State, e: Event) {
    match e
    case Advance(to) => s.now <= to
    case FileWritten => true
    case ReceiveEvent(_) => s.loop.Selecting? && s.pending
    case StopTimer => s.loop.GotEvent?
    case StartTimer => s.loop.TimerStopped?
    case TimerFires => s.timer.Some? && s.timer.value <= s.now
    case LoadFails(i) => PcIs(s, i, Loading)
    case LoadSucceeds(i, _) => PcIs(s, i, Loading)
    case Store(i) => i < |s.reloads| && s.reloads[i].pc.Loaded?
    case TrySend(i) => PcIs(s, i, Stored)
    case StartManager => s.watcher.NotStarted?
    case Receive => s.watcher.Waiting? && s.signal
    case ReadConfig => s.watcher.Signalled?
    case Apply(failed, result) =>
      s.watcher.Holding? && s.watcher.version < |s.stores| &&
      Reloads(RouteKey, s.recorded, s.stores[s.watcher.version], failed, result)
  }

  function SetPc(s: State, i: nat, pc: ReloadPc): State
    requires i < |s.reloads|
  {
    s.(reloads := s.reloads[i := s.reloads[i].(pc := pc)])
  }

  /** A send on a full channel is dropped; either way the channel holds one signal afterwards. One
      write may cause several events, and one event may stand for several writes. */
  ghost function Next(s: State, e: Event): State
    requires Enabled(s, e)
  {
    match e
    case Advance(to) => s.(now := to)
    case FileWritten => s.(lastWrite := Some(s.now), pending := true)
    case ReceiveEvent(more) => s.(pending := more, loop := GotEvent)
    case StopTimer => s.(timer := None, loop := TimerStopped)
    case StartTimer => s.(timer := Some(s.now + DEBOUNCE), loop := Selecting, edits := s.edits + 1)
    case TimerFires => s.(timer := None, reloads := s.reloads + [Reload(Loading, s.now)])
    case LoadFails(i) => SetPc(s, i, Ended)
    case LoadSucceeds(i, config) => SetPc(s, i, Loaded(config))
    case Store(i) => SetPc(s, i, Stored).(stores := s.stores + [s.reloads[i].pc.config])
    case TrySend(i) => SetPc(s, i, Ended).(signal := true)
    case StartManager =>
      if s.stores == [] then s
      else s.(watcher := Waiting, version := Current(s), recorded := s.stores[Current(s)],
                before := s.stores[Current(s)], failed := {})
    case Receive => s.(watcher := Signalled, signal := false, wakeups := s.wakeups + 1)
    case ReadConfig => s.(watcher := Holding(Current(s)), version := Current(s))
    case Apply(failed, result) =>
      s.(watcher := Waiting, recorded := result, before := s.recorded, failed := failed)
  }

  ghost function After(s: State, es: seq<Event>): Option<State> {
    if es == [] then Some(s)
    else
      match After(s, es[..|es| - 1])
      case None => None
      case Some(t) => if Enabled(t, es[|es| - 1]) then Some(Next(t, es[|es| - 1])) else None
  }

  /** A store the watcher has not read is announced: by the signal, by a reload about to send it, or
      by a signal the watcher has taken without having read yet. */
  ghost predicate Announced(s: State) {
    s.watcher.NotStarted? || s.version == Current(s) || s.signal || s.watcher.Signalled? ||
    exists i: nat :: PcIs(s, i, Stored)
  }

  /** Between applies the recorded routes are those of the version last read, plus the ones it removed
      that would not stop. */
  ghost predicate InStep(s: State) {
    && s.stores != [] && s.version < |s.stores|
    && (s.watcher.Holding? ==> s.watcher.version == s.version)
    && (s.watcher.Waiting? || s.watcher.Signalled? ==>
          LastWins(RouteKey, s.recorded) ==
          LastWins(RouteKey, s.stores[s.version]) + FailedRemovals(RouteKey, s.before, s.stores[s.version], s.failed))
  }

  /** Some reload began at least the debounce after this instant. */
  ghost predicate ReloadBegun(s: State, write: int) {
    exists i :: 0 <= i < |s.reloads| && write + DEBOUNCE <= s.reloads[i].begun
  }

  /** The latest write is still to be noticed, is being handled, or has a timer or a reload that comes at
      least the debounce after it. */
  ghost predicate WriteCovered(s: State) {
    s.lastWrite.Some? ==>
      && s.lastWrite.value <= s.now
      && (s.pending || !s.loop.Selecting? || (s.timer.Some? && s.lastWrite.value + DEBOUNCE <= s.timer.value) ||
          ReloadBegun(s, s.lastWrite.value))
  }

  lemma AnnouncedStep(s: State, e: Event)
    requires Enabled(s, e) && s.stores != [] && Announced(s)
    ensures Announced(Next(s, e))
  {
    var t := Next(s, e);
    if e.Store? {
      assert PcIs(t, e.i, Stored);
    } else if i: nat :| PcIs(s, i, Stored) {
      assert !e.TrySend? ==> PcIs(t, i, Stored);
    }
  }

  lemma ApplyInStep(s: State, failed: set<string>, result: seq<Route>)
    requires Enabled(s, Apply(failed, result)) && InStep(s)
    ensures InStep(Next(s, Apply(failed, result)))
  {
    ReloadConverges(RouteKey, s.recorded, s.stores[s.watcher.version], failed, result);
  }

  lemma InStepStep(s: State, e: Event)
    requires Enabled(s, e) && InStep(s)
    ensures InStep(Next(s, e))
  {
    match e
    case Apply(failed, result) => ApplyInStep(s, failed, result);
    case StartManager => NothingLeft(RouteKey, s.stores[Current(s)], s.stores[Current(s)]);
    case _ =>
  }

  lemma ReloadStays(s: State, e: Event, write: int)
    requires Enabled(s, e) && ReloadBegun(s, write)
    ensures ReloadBegun(Next(s, e), write)
  {
    var i :| 0 <= i < |s.reloads| && write + DEBOUNCE <= s.reloads[i].begun;
    var t := Next(s, e);
    assert t.reloads[i].begun == s.reloads[i].begun;
  }

  lemma FiringCovers(s: State, write: int)
    requires Enabled(s, TimerFires) && write + DEBOUNCE <= s.timer.value
    ensures ReloadBegun(Next(s, TimerFires), write)
  {
    assert Next(s, TimerFires).reloads[|s.reloads|].begun == s.now;
  }

  lemma CoveredStep(s: State, e: Event)
    requires Enabled(s, e) && WriteCovered(s)
    ensures WriteCovered(Next(s, e))
  {
    if s.lastWrite.Some? {
      var write := s.lastWrite.value;
      if ReloadBegun(s, write) {
        ReloadStays(s, e, write);
      } else if e.TimerFires? && write + DEBOUNCE <= s.timer.value {
        FiringCovers(s, write);
      }
    }
  }

  /** Nothing happens without a cause: every reload uses up a timer, every signal a store, and every wakeup
      of the watcher a signal. */
  ghost predicate Caused(s: State) {
    TimersCaused(s) && WakeupsCaused(s)
  }

  predicate TimersCaused(s: State) {
    |s.reloads| + (if s.timer.Some? then 1 else 0) <= s.edits
  }

  predicate WakeupsCaused(s: State) {
    s.wakeups + (if s.signal then 1 else 0) + StoredCount(s.reloads) < |s.stores|
  }

  /** How many reloads have stored and not yet tried to send. */
  function StoredCount(reloads: seq<Reload>): nat {
    if reloads == [] then 0
    else StoredCount(reloads[..|reloads| - 1]) + (if reloads[|reloads| - 1].pc.Stored? then 1 else 0)
  }

  lemma {:induction false} StoredUpdate(reloads: seq<Reload>, i: nat, x: Reload)
    requires i < |reloads|
    ensures StoredCount(reloads[i := x]) + (if reloads[i].pc.Stored? then 1 else 0)
         == StoredCount(reloads) + (if x.pc.Stored? then 1 else 0)
  {
    var last := |reloads| - 1;
    if i == last {
      assert reloads[i := x][..last] == reloads[..last];
    } else {
      StoredUpdate(reloads[..last], i, x);
      assert reloads[i := x][..last] == reloads[..last][i := x];
    }
  }

  lemma CausedStep(s: State, e: Event)
    requires Enabled(s, e) && Caused(s)
    ensures Caused(Next(s, e))
  {
    TimersStep(s, e);
    WakeupsStep(s, e);
  }

  lemma TimersStep(s: State, e: Event)
    requires Enabled(s, e) && TimersCaused(s)
    ensures TimersCaused(Next(s, e))
  {}

  lemma PcCount(s: State, i: nat, pc: ReloadPc)
    requires i < |s.reloads|
    ensures StoredCount(SetPc(s, i, pc).reloads) + (if s.reloads[i].pc.Stored? then 1 else 0)
         == StoredCount(s.reloads) + (if pc.Stored? then 1 else 0)
  {
    StoredUpdate(s.reloads, i, s.reloads[i].(pc := pc));
  }

  lemma FiresCount(s: State)
    requires Enabled(s, TimerFires)
    ensures StoredCount(Next(s, TimerFires).reloads) == StoredCount(s.reloads)
  {
    assert Next(s, TimerFires).reloads[..|s.reloads|] == s.reloads;
  }

  lemma WakeupsStep(s: State, e: Event)
    requires Enabled(s, e) && WakeupsCaused(s)
    ensures WakeupsCaused(Next(s, e))
  {
    match e
    case TimerFires => FiresCount(s);
    case LoadFails(i) => PcCount(s, i, Ended);
    case LoadSucceeds(i, config) => PcCount(s, i, Loaded(config));
    case Store(i) => PcCount(s, i, Stored);
    case TrySend(i) => PcCount(s, i, Ended);
    case _ =>
  }

  lemma {:induction false} CausedRun(now: int, config: seq<Route>, es: seq<Event>)
    requires After(Init(now, config), es).Some?
    ensures Caused(After(Init(now, config), es).value)
  {
    if es != [] {
      CausedRun(now, config, es[..|es| - 1]);
      CausedStep(After(Init(now, config), es[..|es| - 1]).value, es[|es| - 1]);
    }
  }

  /** No reload without an edit: over any run there are at most as many reloads as handled events of the
      file, and the watcher wakes up at most once per config stored after the first. */
  lemma NoNeedlessReload(now: int, config: seq<Route>, es: seq<Event>)
    requires After(Init(now, config), es).Some?
    ensures
      var s := After(Init(now, config), es).value;
      |s.reloads| <= s.edits && s.wakeups < |s.stores|
  {
    CausedRun(now, config, es);
  }

  lemma {:induction false} Invariants(s: State, es: seq<Event>)
    requires Announced(s) && InStep(s) && WriteCovered(s) && After(s, es).Some?
    ensures Announced(After(s, es).value) && InStep(After(s, es).value) && WriteCovered(After(s, es).value)
  {
    if es != [] {
      Invariants(s, es[..|es| - 1]);
      var t := After(s, es[..|es| - 1]).value;
      AnnouncedStep(t, es[|es| - 1]);
      InStepStep(t, es[|es| - 1]);
      CoveredStep(t, es[|es| - 1]);
    }
  }

  /** Nothing of the signalling is under way. */
  ghost predicate Quiescent(s: State) {
    s.watcher.Waiting? && !s.signal && forall i: nat :: !PcIs(s, i, Stored)
  }

  lemma UpToDate(s: State)
    requires Announced(s) && Quiescent(s)
    ensures s.version == Current(s)
  {}

  /** The last version read is the current one, and the recorded table is the current config's plus
      exactly the routes that the last apply removed and could not stop, none of which the config has;
      if no stop of the last apply failed, it is the current config's. */
  ghost predicate Converged(s: State) {
    && s.stores != [] && s.version == |s.stores| - 1
    && var current := s.stores[|s.stores| - 1];
       var left := FailedRemovals(RouteKey, s.before, current, s.failed);
       && LastWins(RouteKey, s.recorded) == LastWins(RouteKey, current) + left
       && left.Keys !! LastWins(RouteKey, current).Keys
       && (s.failed == {} ==> LastWins(RouteKey, s.recorded) == LastWins(RouteKey, current))
  }

  lemma QuiescentState(s: State)
    requires Announced(s) && InStep(s) && Quiescent(s)
    ensures Converged(s)
  {
    UpToDate(s);
    LeftoverFacts(s.before, s.stores[|s.stores| - 1], s.failed);
  }

  lemma LeftoverFacts(before: seq<Route>, current: seq<Route>, failed: set<string>)
    ensures FailedRemovals(RouteKey, before, current, failed).Keys !! LastWins(RouteKey, current).Keys
    ensures failed == {} ==>
              LastWins(RouteKey, current) + FailedRemovals(RouteKey, before, current, failed) == LastWins(RouteKey, current)
  {
    NothingLeft(RouteKey, before, current);
  }

  /** No dropped signal loses an update: whatever reloads overlapped and whatever stops failed on the
      way, when no reload is between its store and its send, the channel is empty and the watcher
      waits, what is recorded has converged to the current config. */
  lemma QuiescentConvergence(now: int, config: seq<Route>, es: seq<Event>)
    requires After(Init(now, config), es).Some? && Quiescent(After(Init(now, config), es).value)
    ensures Converged(After(Init(now, config), es).value)
  {
    Invariants(Init(now, config), es);
    QuiescentState(After(Init(now, config), es).value);
  }

  /** No write is lost to the debounce: once all events of the file have been received and handled and
      no timer runs, some reload began at least one second after the latest write, so it loads the
      file as that write, or a later one, left it. */
  lemma LastWriteIsLoaded(now: int, config: seq<Route>, es: seq<Event>)
    requires After(Init(now, config), es).Some?
    ensures
      var s := After(Init(now, config), es).value;
      !s.pending && s.loop.Selecting? && s.timer.None? && s.lastWrite.Some? ==>
        exists i :: 0 <= i < |s.reloads| && s.lastWrite.value + 1_000_000_000 <= s.reloads[i].begun
  {
    Invariants(Init(now, config), es);
  }
}
