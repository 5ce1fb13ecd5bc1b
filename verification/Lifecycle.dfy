/** Starting, stopping and freeing the devices, as interleaved steps of the main thread, the
    start thread and the data threads (main.c, device/device.c). A cancelled thread may die
    between any two of its steps and then keeps the mutexes it holds. */
module Lifecycle {
  import opened CText

  // ------------------------------------------------------------------- state

  datatype Actor = Main | Starter | Data(id: nat)

  datatype Status = Unknown | Ok | Offline

  /** What the lifecycle sees of a device; `handle` is its `dataThread`. */
  datatype Dev = Dev(running: bool, status: Status, handle: Option<nat>, mutex: Option<Actor>, freed: bool)

  /** The main thread inside `device_stop`, before each of its actions. */
  datatype StopAt = Lock | ClearRunning | SetOffline | Unlock | Cancel | Join

  /** Why it is there: for `device_manager_stop_all`, the one of the cleanup or the one of
      `device_manager_free`, or for `device_free`. */
  datatype Why = ForAll(last: bool) | ForFree

  datatype MainPc =
    | Startup | Loop
    | StopEntry(last: bool) | StopNext(i: nat, last: bool) | Stopping(i: nat, at: StopAt, why: Why) | StopDone(last: bool)
    | CancelStarter | JoinStarter
    | FreeEntry | FreeNext(i: nat) | Release(i: nat) | Done

  /** The start thread inside `device_start`, before each of its actions. */
  datatype StartAt = Check | Init | SetOk | SetRunning | Create | UndoRunning | Fail | Leave

  datatype StarterPc = Unborn | AwaitManager | StartNext(i: nat) | Starting(i: nat, at: StartAt) | Finished

  /** The data thread before its loop test, before the lock, and inside the critical section. */
  datatype DataPc = Test | Await | Work

  datatype Thread = Thread(device: nat, pc: DataPc, alive: bool, cancelled: bool)

  datatype State = State(devs: seq<Dev>, threads: seq<Thread>, manager: Option<Actor>, stopped: bool,
                         main: MainPc, starter: StarterPc, starterAlive: bool, starterCancelled: bool)

  function Start(n: nat): State {
    State(seq(n, _ => Dev(false, Unknown, None, None, false)), [], None, false, Startup, Unborn, false, false)
  }

  // ------------------------------------------------------------------- steps

  /** Who moves. `good` decides what is not the program's to decide: whether a thread is
      created, a client initialises, or startup gets as far as the start thread. */
  datatype Action = MainMoves(good: bool) | StarterMoves(good: bool) | DataMoves(t: nat) | StarterDies | DataDies(t: nat)

  function SetDev(s: State, i: nat, d: Dev): State
    requires i < |s.devs|
  {
    s.(devs := s.devs[i := d])
  }

  function SetThread(s: State, t: nat, x: Thread): State
    requires t < |s.threads|
  {
    s.(threads := s.threads[t := x])
  }

  /** A step that is not possible, or has to wait, changes nothing. */
  function Next(s: State, a: Action): State {
    match a
    case MainMoves(good) => MainStep(s, good)
    case StarterMoves(good) => if s.starterAlive then StarterStep(s, good) else s
    case DataMoves(t) => if t < |s.threads| && s.threads[t].alive then DataStep(s, t) else s
    case StarterDies => if s.starterAlive && s.starterCancelled then s.(starterAlive := false) else s
    case DataDies(t) =>
      if t < |s.threads| && s.threads[t].alive && s.threads[t].cancelled
      then SetThread(s, t, s.threads[t].(alive := false)) else s
  }

  function MainStep(s: State, good: bool): State {
    match s.main
    case Startup =>
      if good then s.(main := Loop, starter := AwaitManager, starterAlive := true) else s.(main := StopEntry(false))
    case Loop => s.(main := StopEntry(false))
    case StopEntry(last) =>
      if s.stopped then s.(main := if last then FreeEntry else CancelStarter)
      else if s.manager == None then s.(manager := Some(Main), main := StopNext(0, last))
      else s
    case StopNext(i, last) =>
      if i < |s.devs| then s.(main := Stopping(i, Lock, ForAll(last)))
      else s.(manager := None, main := StopDone(last))
    case StopDone(last) => s.(stopped := true, main := if last then FreeEntry else CancelStarter)
    case Stopping(i, at, why) => if i < |s.devs| then StopStep(s, i, at, why) else s
    case CancelStarter => s.(starterCancelled := true, main := JoinStarter)
    case JoinStarter => if s.starterAlive then s else s.(main := FreeEntry)
    case _ => FreeStep(s)
  }

  /** `device_manager_free`, with the test that `device_free` makes before it stops a device. */
  function FreeStep(s: State): State {
    match s.main
    case FreeEntry =>
      if !s.stopped then s.(main := StopEntry(true))
      else if s.manager == None then s.(manager := Some(Main), main := FreeNext(0))
      else s
    case FreeNext(i) =>
      if i >= |s.devs| then s.(manager := None, main := Done)
      else if s.devs[i].running || s.devs[i].handle.Some? then s.(main := Stopping(i, Lock, ForFree))
      else s.(main := Release(i))
    case Release(i) =>
      if i < |s.devs| then SetDev(s, i, s.devs[i].(freed := true)).(main := FreeNext(i + 1)) else s
    case _ => s
  }

  /** `device_stop`. */
  function StopStep(s: State, i: nat, at: StopAt, why: Why): State
    requires i < |s.devs|
  {
    var d := s.devs[i];
    if StopWaits(d, at, s.threads) then s
    else s.(devs := s.devs[i := StopDev(d, at)], threads := StopThreads(d, at, s.threads), main := StopPc(d, i, at, why))
  }

  /** The mutex is taken, or the thread to join still lives. */
  predicate StopWaits(d: Dev, at: StopAt, threads: seq<Thread>) {
    || (at == Lock && d.mutex.Some?)
    || (at == Join && d.handle.Some? && d.handle.value < |threads| && threads[d.handle.value].alive)
  }

  function StopDev(d: Dev, at: StopAt): Dev {
    match at
    case Lock => d.(mutex := Some(Main))
    case ClearRunning => d.(running := false)
    case SetOffline => d.(status := Offline)
    case Unlock => d.(mutex := None)
    case Cancel => d
    case Join => d.(handle := None)
  }

  function StopThreads(d: Dev, at: StopAt, threads: seq<Thread>): seq<Thread> {
    if at == Cancel && d.handle.Some? && d.handle.value < |threads|
    then threads[d.handle.value := threads[d.handle.value].(cancelled := true)]
    else threads
  }

  function StopPc(d: Dev, i: nat, at: StopAt, why: Why): MainPc {
    match at
    case Lock => Stopping(i, ClearRunning, why)
    case ClearRunning => Stopping(i, SetOffline, why)
    case SetOffline => Stopping(i, Unlock, why)
    case Unlock => Stopping(i, Cancel, why)
    case Cancel => if d.handle.Some? then Stopping(i, Join, why) else AfterStop(i, why)
    case Join => AfterStop(i, why)
  }

  function AfterStop(i: nat, why: Why): MainPc {
    if why.ForFree? then Release(i) else StopNext(i + 1, why.last)
  }

  /** `device_manager_start_all`. */
  function StarterStep(s: State, good: bool): State {
    match s.starter
    case AwaitManager =>
      if s.manager == None then s.(manager := Some(Starter), starter := StartNext(0)) else s
    case StartNext(i) =>
      if i >= |s.devs| then s.(manager := None, starter := Finished, starterAlive := false)
      else if s.devs[i].mutex == None
      then SetDev(s, i, s.devs[i].(mutex := Some(Starter))).(starter := Starting(i, Check))
      else s
    case Starting(i, at) => if i < |s.devs| then StartStep(s, i, at, good) else s
    case _ => s
  }

  /** `device_start`. */
  function StartStep(s: State, i: nat, at: StartAt, good: bool): State
    requires i < |s.devs|
  {
    var d := s.devs[i];
    s.(devs := s.devs[i := StartDev(d, at, good, |s.threads|)],
       threads := if at == Create && good then s.threads + [Thread(i, Test, true, false)] else s.threads,
       starter := StartPc(d, i, at, good))
  }

  function StartDev(d: Dev, at: StartAt, good: bool, t: nat): Dev {
    match at
    case Check => d
    case Init => d
    case SetOk => d.(status := Ok)
    case SetRunning => d.(running := true)
    case Create => if good then d.(handle := Some(t)) else d
    case UndoRunning => d.(running := false)
    case Fail => d.(status := Offline)
    case Leave => d.(mutex := None)
  }

  function StartPc(d: Dev, i: nat, at: StartAt, good: bool): StarterPc {
    match at
    case Check => Starting(i, if d.running then Leave else Init)
    case Init => Starting(i, if good then SetOk else Fail)
    case SetOk => Starting(i, SetRunning)
    case SetRunning => Starting(i, Create)
    case Create => Starting(i, if good then Leave else UndoRunning)
    case UndoRunning => Starting(i, Fail)
    case Fail => Starting(i, Leave)
    case Leave => StartNext(i + 1)
  }

  /** `device_data_thread`. */
  function DataStep(s: State, t: nat): State
    requires t < |s.threads|
  {
    var x := s.threads[t];
    if x.device >= |s.devs| then s
    else
      var d := s.devs[x.device];
      s.(devs := s.devs[x.device := DataDev(d, x.pc, t)], threads := s.threads[t := DataThread(d, x)])
  }

  function DataDev(d: Dev, pc: DataPc, t: nat): Dev {
    match pc
    case Test => d
    case Await => if d.mutex == None then d.(mutex := Some(Data(t))) else d
    case Work => d.(mutex := None)
  }

  function DataThread(d: Dev, x: Thread): Thread {
    match x.pc
    case Test => if d.running then x.(pc := Await) else x.(alive := false)
    case Await => if d.mutex == None then x.(pc := Work) else x
    case Work => x.(pc := Test)
  }

  /** Any interleaving. */
  function Run(s: State, actions: seq<Action>): State {
    if actions == [] then s
    else Next(Run(s, actions[..|actions| - 1]), actions[|actions| - 1])
  }

  // ------------------------------------------------------------------ safety

  /** No device has two live data threads. */
  predicate OneThreadEach(s: State) {
    forall t, u :: 0 <= t < u < |s.threads| && s.threads[t].alive && s.threads[u].alive ==>
                     s.threads[t].device != s.threads[u].device
  }

  /** A thread that can still move works on a device that is not freed, and a device that is
      about to be freed is not freed already. */
  predicate NoUseAfterFree(s: State) {
    && (forall t :: 0 <= t < |s.threads| && s.threads[t].alive ==>
                      s.threads[t].device < |s.devs| && !s.devs[s.threads[t].device].freed)
    && (s.starterAlive ==> forall i :: 0 <= i < |s.devs| ==> !s.devs[i].freed)
    && (s.main.Stopping? || s.main.Release? ==> s.main.i < |s.devs| && !s.devs[s.main.i].freed)
  }

  /** While nobody holds its mutex, a device is running exactly when its status says ok. */
  predicate StatusTellsRunning(s: State) {
    forall i :: 0 <= i < |s.devs| && s.devs[i].mutex == None ==>
                  (s.devs[i].running <==> s.devs[i].status == Ok)
  }

  /** When the main thread is done, every device is freed and no thread is left. */
  predicate DoneIsClean(s: State) {
    s.main.Done? ==>
      && !s.starterAlive
      && (forall i :: 0 <= i < |s.devs| ==> s.devs[i].freed)
      && (forall t :: 0 <= t < |s.threads| ==> !s.threads[t].alive)
  }

  /** A data thread of device i stands in its critical section. */
  predicate InsideDevice(s: State, i: nat) {
    exists t :: 0 <= t < |s.threads| && s.threads[t].device == i && s.threads[t].pc == Work
  }

  /** When a device is about to be freed, no thread that could use it is alive, and its mutex is
      locked exactly where one died in its critical section: a data thread, or the start thread in
      the middle of its start. */
  predicate LockedByTheDead(s: State) {
    s.main.Release? && s.main.i < |s.devs| ==>
      && !s.starterAlive
      && (forall t :: 0 <= t < |s.threads| && s.threads[t].device == s.main.i ==> !s.threads[t].alive)
      && (s.devs[s.main.i].mutex.Some? <==> InsideDevice(s, s.main.i) || StarterAt(s.starter, s.main.i))
  }

  predicate Safe(s: State) {
    OneThreadEach(s) && NoUseAfterFree(s) && StatusTellsRunning(s) && DoneIsClean(s) && LockedByTheDead(s)
  }

  // --------------------------------------------------------------- invariant

  /** The main thread holds the manager mutex. */
  predicate MainInManager(m: MainPc) {
    m.StopNext? || m.Stopping? || m.FreeNext? || m.Release?
  }

  /** The start thread holds the manager mutex, or died holding it. */
  predicate StarterInManager(p: StarterPc) {
    p.StartNext? || p.Starting?
  }

  /** The start thread has been joined. */
  predicate PastJoin(m: MainPc) {
    || m.FreeEntry? || m.FreeNext? || m.Release? || m.Done?
    || ((m.StopEntry? || m.StopNext? || m.StopDone?) && m.last)
    || (m.Stopping? && (m.why.ForFree? || m.why.last))
  }

  /** The main thread holds the mutex of device i. */
  predicate MainHolds(m: MainPc, i: nat) {
    m.Stopping? && m.i == i && (m.at == ClearRunning || m.at == SetOffline || m.at == Unlock)
  }

  /** The main thread has cleared the running flag of device i but not yet joined its thread. */
  predicate MainEnds(m: MainPc, i: nat) {
    m.Stopping? && m.i == i && m.at != Lock && m.at != ClearRunning
  }

  predicate StarterAt(p: StarterPc, i: nat) {
    p.Starting? && p.i == i
  }

  /** The main thread has freed device i. */
  predicate PastFreeing(m: MainPc, i: nat) {
    || m.Done?
    || ((m.FreeNext? || m.Release? || (m.Stopping? && m.why.ForFree?)) && i < m.i)
  }

  /** What ties the handle of device i to its running flag and its being freed. */
  predicate HandleInv(d: Dev, i: nat, m: MainPc, p: StarterPc) {
    && (d.handle.Some? && !d.running ==> MainEnds(m, i))
    && (MainEnds(m, i) ==> !d.running)
    && (d.running && d.handle == None ==> StarterAt(p, i) && (p.at == Create || p.at == UndoRunning))
    && (StarterAt(p, i) && p.at != Check && p.at != Leave ==>
          d.handle == None && (d.running <==> p.at == Create || p.at == UndoRunning))
    && (d.freed <==> PastFreeing(m, i))
    && (d.freed ==> d.handle == None)
    && (m == Release(i) ==> d.handle == None)
  }

  /** Who holds the mutex of device i, and how its status follows its running flag. */
  predicate GuardInv(d: Dev, i: nat, m: MainPc, p: StarterPc) {
    && (d.mutex == Some(Main) <==> MainHolds(m, i))
    && (d.mutex == Some(Starter) <==> StarterAt(p, i))
    && ((d.running <==> d.status == Ok)
        || (MainHolds(m, i) && m.at == SetOffline)
        || (StarterAt(p, i) && (p.at == SetRunning || p.at == Fail)))
    && (MainHolds(m, i) && m.at == Unlock ==> d.status != Ok)
    && (StarterAt(p, i) && p.at == SetRunning ==> d.status == Ok)
  }

  /** The handle of device i is a thread of it, and so is the one that holds its mutex. */
  predicate LinkInv(d: Dev, i: nat, threads: seq<Thread>) {
    && (d.handle.Some? ==> d.handle.value < |threads| && threads[d.handle.value].device == i)
    && (d.mutex.Some? && d.mutex.value.Data? ==>
          var t := d.mutex.value.id;
          t < |threads| && threads[t].device == i && threads[t].pc == Work)
  }

  predicate DevInv(s: State, i: nat)
    requires i < |s.devs|
  {
    && HandleInv(s.devs[i], i, s.main, s.starter)
    && GuardInv(s.devs[i], i, s.main, s.starter)
    && LinkInv(s.devs[i], i, s.threads)
  }

  /** A live thread is the one its device knows of, and a thread in its critical section holds the
      mutex, also when it died there. */
  predicate ThreadInv(x: Thread, t: nat, devs: seq<Dev>) {
    && x.device < |devs|
    && (x.alive ==> devs[x.device].handle == Some(t))
    && (x.pc == Work ==> devs[x.device].mutex == Some(Data(t)))
  }

  predicate ManagerInv(s: State) {
    && (s.manager == Some(Main) <==> MainInManager(s.main))
    && (s.manager == Some(Starter) <==> StarterInManager(s.starter))
    && (PastJoin(s.main) ==> !s.starterAlive)
    && (s.starterAlive ==> s.starter != Unborn && s.starter != Finished)
    && (s.starter == Unborn || s.main != Startup)
    && (s.main.Stopping? || s.main.Release? ==> s.main.i < |s.devs|)
    && (s.starter.Starting? ==> s.starter.i < |s.devs|)
  }

  predicate Inv(s: State) {
    && ManagerInv(s)
    && (forall i :: 0 <= i < |s.devs| ==> DevInv(s, i))
    && (forall t :: 0 <= t < |s.threads| ==> ThreadInv(s.threads[t], t, s.devs))
  }

  lemma InvIsSafe(s: State)
    requires Inv(s)
    ensures Safe(s)
  {
    forall t, u | 0 <= t < u < |s.threads| && s.threads[t].alive && s.threads[u].alive
      ensures s.threads[t].device != s.threads[u].device
    {
      assert ThreadInv(s.threads[t], t, s.devs) && ThreadInv(s.threads[u], u, s.devs);
    }
    forall t | 0 <= t < |s.threads| && s.threads[t].alive
      ensures s.threads[t].device < |s.devs| && !s.devs[s.threads[t].device].freed
    {
      assert ThreadInv(s.threads[t], t, s.devs) && DevInv(s, s.threads[t].device);
    }
    forall i | 0 <= i < |s.devs|
      ensures s.starterAlive ==> !s.devs[i].freed
      ensures (s.main.Stopping? || s.main.Release?) && s.main.i == i ==> !s.devs[i].freed
      ensures s.devs[i].mutex == None ==> (s.devs[i].running <==> s.devs[i].status == Ok)
    {
      assert DevInv(s, i);
    }
    InvIsDone(s);
    InvIsLocked(s);
  }

  lemma InvIsDone(s: State)
    requires Inv(s)
    ensures DoneIsClean(s)
  {
    if s.main.Done? {
      forall i | 0 <= i < |s.devs| ensures s.devs[i].freed && s.devs[i].handle == None {
        assert DevInv(s, i);
      }
      forall t | 0 <= t < |s.threads| ensures !s.threads[t].alive {
        assert ThreadInv(s.threads[t], t, s.devs);
      }
    }
  }

  lemma InvIsLocked(s: State)
    requires Inv(s)
    ensures LockedByTheDead(s)
  {
    if s.main.Release? {
      var i := s.main.i;
      var d := s.devs[i];
      assert DevInv(s, i);
      forall t | 0 <= t < |s.threads| && s.threads[t].device == i ensures !s.threads[t].alive {
        assert ThreadInv(s.threads[t], t, s.devs);
      }
      if d.mutex.Some? && d.mutex.value.Data? {
        var t := d.mutex.value.id;
        assert s.threads[t].device == i && s.threads[t].pc == Work;
      }
      if InsideDevice(s, i) {
        var t :| 0 <= t < |s.threads| && s.threads[t].device == i && s.threads[t].pc == Work;
        assert ThreadInv(s.threads[t], t, s.devs);
      }
    }
  }

  // ------------------------------------------------- every step keeps it: stop

  lemma StopKeeps(s: State, i: nat, at: StopAt, why: Why)
    requires Inv(s) && i < |s.devs| && s.main == Stopping(i, at, why)
    ensures Inv(StopStep(s, i, at, why))
  {
    if !StopWaits(s.devs[i], at, s.threads) {
      var s' := StopStep(s, i, at, why);
      assert DevInv(s, i);
      StopKeepsHandle(s.devs[i], i, at, why, s.starter);
      StopKeepsGuard(s.devs[i], i, at, why, s.starter);
      forall k | 0 <= k < |s.devs| ensures DevInv(s', k) {
        assert DevInv(s, k);
        if k != i { StopElsewhere(s.devs[k], k, s.devs[i], i, at, why, s.starter); }
      }
      forall t | 0 <= t < |s.threads| ensures ThreadInv(s'.threads[t], t, s'.devs) {
        assert ThreadInv(s.threads[t], t, s.devs);
      }
    }
  }

  lemma StopKeepsHandle(d: Dev, i: nat, at: StopAt, why: Why, p: StarterPc)
    requires HandleInv(d, i, Stopping(i, at, why), p) && GuardInv(d, i, Stopping(i, at, why), p)
    requires at == Lock ==> d.mutex == None
    ensures HandleInv(StopDev(d, at), i, StopPc(d, i, at, why), p)
  {
  }

  lemma StopKeepsGuard(d: Dev, i: nat, at: StopAt, why: Why, p: StarterPc)
    requires HandleInv(d, i, Stopping(i, at, why), p) && GuardInv(d, i, Stopping(i, at, why), p)
    requires at == Lock ==> d.mutex == None
    ensures GuardInv(StopDev(d, at), i, StopPc(d, i, at, why), p)
  {
  }

  lemma StopElsewhere(d: Dev, k: nat, e: Dev, i: nat, at: StopAt, why: Why, p: StarterPc)
    requires k != i && HandleInv(d, k, Stopping(i, at, why), p) && GuardInv(d, k, Stopping(i, at, why), p)
    ensures HandleInv(d, k, StopPc(e, i, at, why), p) && GuardInv(d, k, StopPc(e, i, at, why), p)
  {
  }

  // ------------------------------------------------- the rest of the main thread

  predicate Freeing(m: MainPc) {
    m.FreeEntry? || m.FreeNext? || m.Release? || m.Done?
  }

  lemma MainKeeps(s: State, good: bool)
    requires Inv(s) && !s.main.Stopping? && !Freeing(s.main)
    ensures Inv(MainStep(s, good))
  {
    MainKeepsManager(s, good);
    var s' := MainStep(s, good);
    forall k | 0 <= k < |s.devs| ensures DevInv(s', k) {
      assert DevInv(s, k);
      MainKeepsDev(s, good, k);
    }
    forall t | 0 <= t < |s.threads| ensures ThreadInv(s'.threads[t], t, s'.devs) {
      assert ThreadInv(s.threads[t], t, s.devs);
    }
  }

  lemma MainKeepsManager(s: State, good: bool)
    requires ManagerInv(s) && !s.main.Stopping? && !Freeing(s.main)
    ensures ManagerInv(MainStep(s, good))
    ensures MainStep(s, good).devs == s.devs && MainStep(s, good).threads == s.threads
  {
  }

  lemma MainKeepsDev(s: State, good: bool, k: nat)
    requires ManagerInv(s) && !s.main.Stopping? && !Freeing(s.main) && k < |s.devs| && DevInv(s, k)
    ensures MainStep(s, good).devs == s.devs && DevInv(MainStep(s, good), k)
  {
    MainKeepsManager(s, good);
    MainKeepsHandle(s, good, k);
    MainKeepsGuard(s, good, k);
    hide MainStep, HandleInv, GuardInv, LinkInv;
  }

  lemma MainKeepsHandle(s: State, good: bool, k: nat)
    requires ManagerInv(s) && !s.main.Stopping? && !Freeing(s.main) && k < |s.devs| && DevInv(s, k)
    ensures HandleInv(s.devs[k], k, MainStep(s, good).main, MainStep(s, good).starter)
  {
    hide StopStep, FreeStep, GuardInv, LinkInv;
  }

  lemma MainKeepsGuard(s: State, good: bool, k: nat)
    requires ManagerInv(s) && !s.main.Stopping? && !Freeing(s.main) && k < |s.devs| && DevInv(s, k)
    ensures GuardInv(s.devs[k], k, MainStep(s, good).main, MainStep(s, good).starter)
  {
    hide StopStep, FreeStep, HandleInv, LinkInv;
  }

  lemma FreeKeeps(s: State)
    requires Inv(s) && Freeing(s.main)
    ensures Inv(FreeStep(s))
  {
    FreeKeepsManager(s);
    var s' := FreeStep(s);
    forall k | 0 <= k < |s.devs| ensures DevInv(s', k) {
      assert DevInv(s, k);
      FreeKeepsDev(s, k);
    }
    forall t | 0 <= t < |s.threads| ensures ThreadInv(s'.threads[t], t, s'.devs) {
      assert ThreadInv(s.threads[t], t, s.devs);
    }
  }

  lemma FreeKeepsManager(s: State)
    requires ManagerInv(s) && Freeing(s.main)
    ensures ManagerInv(FreeStep(s)) && |FreeStep(s).devs| == |s.devs| && FreeStep(s).threads == s.threads
  {
  }

  lemma FreeKeepsDev(s: State, k: nat)
    requires ManagerInv(s) && Freeing(s.main) && k < |s.devs| && DevInv(s, k)
    ensures |FreeStep(s).devs| == |s.devs| && DevInv(FreeStep(s), k)
  {
  }

  // ------------------------------------------------- the start thread

  lemma StartKeeps(s: State, i: nat, at: StartAt, good: bool)
    requires Inv(s) && i < |s.devs| && s.starterAlive && s.starter == Starting(i, at)
    ensures Inv(StartStep(s, i, at, good))
  {
    var s' := StartStep(s, i, at, good);
    assert DevInv(s, i);
    StartKeepsHandle(s.devs[i], i, at, good, |s.threads|, s.main);
    StartKeepsGuard(s.devs[i], i, at, good, |s.threads|, s.main);
    forall k | 0 <= k < |s.devs| ensures DevInv(s', k) {
      assert DevInv(s, k);
      if k != i { StartElsewhere(s.devs[k], k, s.devs[i], i, at, good, s.main); }
    }
    forall t | 0 <= t < |s'.threads| ensures ThreadInv(s'.threads[t], t, s'.devs) {
      if t < |s.threads| { assert ThreadInv(s.threads[t], t, s.devs); }
    }
  }

  lemma StartKeepsHandle(d: Dev, i: nat, at: StartAt, good: bool, t: nat, m: MainPc)
    requires !MainInManager(m) && !PastJoin(m)
    requires HandleInv(d, i, m, Starting(i, at)) && GuardInv(d, i, m, Starting(i, at))
    ensures HandleInv(StartDev(d, at, good, t), i, m, StartPc(d, i, at, good))
    ensures at == Create && good ==> d.handle == None
  {
  }

  lemma StartKeepsGuard(d: Dev, i: nat, at: StartAt, good: bool, t: nat, m: MainPc)
    requires !MainInManager(m) && !PastJoin(m)
    requires HandleInv(d, i, m, Starting(i, at)) && GuardInv(d, i, m, Starting(i, at))
    ensures GuardInv(StartDev(d, at, good, t), i, m, StartPc(d, i, at, good))
  {
  }

  lemma StartElsewhere(d: Dev, k: nat, e: Dev, i: nat, at: StartAt, good: bool, m: MainPc)
    requires k != i && HandleInv(d, k, m, Starting(i, at)) && GuardInv(d, k, m, Starting(i, at))
    ensures HandleInv(d, k, m, StartPc(e, i, at, good)) && GuardInv(d, k, m, StartPc(e, i, at, good))
  {
  }

  lemma StarterKeeps(s: State, good: bool)
    requires Inv(s) && s.starterAlive && !s.starter.Starting?
    ensures Inv(StarterStep(s, good))
  {
    StarterKeepsManager(s, good);
    var s' := StarterStep(s, good);
    forall k | 0 <= k < |s.devs| ensures DevInv(s', k) {
      assert DevInv(s, k);
      StarterKeepsDev(s, good, k);
    }
    forall t | 0 <= t < |s.threads| ensures ThreadInv(s'.threads[t], t, s'.devs) {
      assert ThreadInv(s.threads[t], t, s.devs) && DevInv(s, s.threads[t].device);
    }
  }

  lemma StarterKeepsManager(s: State, good: bool)
    requires ManagerInv(s) && s.starterAlive && !s.starter.Starting?
    ensures ManagerInv(StarterStep(s, good))
    ensures |StarterStep(s, good).devs| == |s.devs| && StarterStep(s, good).threads == s.threads
  {
  }

  lemma StarterKeepsDev(s: State, good: bool, k: nat)
    requires ManagerInv(s) && s.starterAlive && !s.starter.Starting? && k < |s.devs| && DevInv(s, k)
    ensures |StarterStep(s, good).devs| == |s.devs| && DevInv(StarterStep(s, good), k)
  {
  }

  // ------------------------------------------------- the data threads, and deaths

  lemma DataKeeps(s: State, t: nat)
    requires Inv(s) && t < |s.threads| && s.threads[t].alive
    ensures Inv(DataStep(s, t))
  {
    var s', x := DataStep(s, t), s.threads[t];
    assert ThreadInv(x, t, s.devs);
    assert DevInv(s, x.device);
    DataKeepsDev(s.devs[x.device], x.device, x.pc, t, s.main, s.starter);
    forall k | 0 <= k < |s.devs| ensures DevInv(s', k) {
      assert DevInv(s, k);
    }
    forall u | 0 <= u < |s.threads| ensures ThreadInv(s'.threads[u], u, s'.devs) {
      assert ThreadInv(s.threads[u], u, s.devs);
    }
  }

  lemma DataKeepsDev(d: Dev, i: nat, pc: DataPc, t: nat, m: MainPc, p: StarterPc)
    requires HandleInv(d, i, m, p) && GuardInv(d, i, m, p) && (pc == Work ==> d.mutex == Some(Data(t)))
    ensures HandleInv(DataDev(d, pc, t), i, m, p) && GuardInv(DataDev(d, pc, t), i, m, p)
  {
  }

  lemma DeathKeeps(s: State, a: Action)
    requires Inv(s) && (a.StarterDies? || a.DataDies?)
    ensures Inv(Next(s, a))
  {
    var s' := Next(s, a);
    forall k | 0 <= k < |s.devs| ensures DevInv(s', k) {
      assert DevInv(s, k);
    }
    forall t | 0 <= t < |s.threads| ensures ThreadInv(s'.threads[t], t, s'.devs) {
      assert ThreadInv(s.threads[t], t, s.devs);
    }
  }

  lemma StepKeeps(s: State, a: Action)
    requires Inv(s)
    ensures Inv(Next(s, a))
  {
    match a
    case MainMoves(good) =>
      if s.main.Stopping? {
        StopKeeps(s, s.main.i, s.main.at, s.main.why);
      } else if Freeing(s.main) {
        FreeKeeps(s);
      } else {
        MainKeeps(s, good);
      }
    case StarterMoves(good) =>
      if s.starterAlive {
        if s.starter.Starting? {
          StartKeeps(s, s.starter.i, s.starter.at, good);
        } else {
          StarterKeeps(s, good);
        }
      }
    case DataMoves(t) => if t < |s.threads| && s.threads[t].alive { DataKeeps(s, t); }
    case _ => DeathKeeps(s, a);
  }

  lemma {:induction false} RunKeeps(n: nat, actions: seq<Action>)
    ensures Inv(Run(Start(n), actions))
  {
    if actions != [] {
      RunKeeps(n, actions[..|actions| - 1]);
      StepKeeps(Run(Start(n), actions[..|actions| - 1]), actions[|actions| - 1]);
    }
  }

  /** In every interleaving of startup, starts, stops, cancellations and cleanup, for any
      number of devices: no device ever has two live data threads, no device is freed while a
      thread can still use it, and whenever its mutex is free a device is running exactly when
      its status is ok. At the end every device is freed and no thread is left; a device is freed
      with its mutex locked exactly where a thread died holding it. */
  lemma {:induction false} EveryRunIsSafe(n: nat, actions: seq<Action>)
    ensures Safe(Run(Start(n), actions))
  {
    RunKeeps(n, actions);
    InvIsSafe(Run(Start(n), actions));
  }

  // ------------------------------------------- the loops reach every device

  /** The start thread is done with device j. */
  predicate PassedBy(p: StarterPc, j: nat) {
    p.Finished? || ((p.StartNext? || p.Starting?) && j < p.i)
  }

  /** No device behind the start thread is still as it was made. */
  predicate Reached(s: State) {
    forall j :: 0 <= j < |s.devs| && (PassedBy(s.starter, j) || s.starter == Starting(j, Leave)) ==>
                  s.devs[j].status != Unknown
  }

  /** In `device_manager_stop_all`, every device behind the main thread is stopped. */
  predicate StopsAll(s: State) {
    && (s.main.StopNext? || (s.main.Stopping? && s.main.why.ForAll?) ==>
          forall j :: 0 <= j < |s.devs| && j < s.main.i ==>
                        !s.devs[j].running && s.devs[j].handle == None && s.devs[j].status == Offline)
    && (s.main.Stopping? && (s.main.at == Unlock || s.main.at == Cancel || s.main.at == Join) ==>
          forall j :: 0 <= j < |s.devs| && j == s.main.i ==> s.devs[j].status == Offline)
  }

  lemma StarterReaches(s: State, good: bool)
    requires Inv(s) && Reached(s)
    ensures Reached(StarterStep(s, good))
  {
    if s.starter.Starting? {
      var i := s.starter.i;
      assert DevInv(s, i);
      hide Inv, DevInv, HandleInv, LinkInv, MainHolds;
      assert s.starter.at == Check && s.devs[i].running ==> s.devs[i].status == Ok;
    } else {
      hide Inv, StartStep;
    }
  }

  /** Only the start thread moves itself, and no device becomes unknown again. */
  lemma OthersReach(s: State, a: Action)
    requires Reached(s) && !a.StarterMoves? && (s.starter == Unborn || s.main != Startup)
    ensures Reached(Next(s, a))
  {
    match a
    case MainMoves(good) => MainReaches(s, good);
    case _ =>
  }

  predicate SameButFreed(devs: seq<Dev>, devs': seq<Dev>) {
    && |devs'| == |devs|
    && forall j :: 0 <= j < |devs| ==>
         devs'[j].running == devs[j].running && devs'[j].status == devs[j].status && devs'[j].handle == devs[j].handle
  }

  /** What the main thread does outside `device_stop`. */
  lemma FreeLeavesDevs(s: State)
    ensures SameButFreed(s.devs, FreeStep(s).devs) && FreeStep(s).starter == s.starter
    ensures FreeStep(s).main.Stopping? ==> FreeStep(s).main.at == Lock || FreeStep(s) == s
  {
  }

  lemma MainLeavesDevs(s: State, good: bool)
    requires !s.main.Stopping?
    ensures SameButFreed(s.devs, MainStep(s, good).devs)
    ensures MainStep(s, good).main.Stopping? ==> MainStep(s, good).main.at == Lock
    ensures MainStep(s, good).starter == if s.main == Startup && good then AwaitManager else s.starter
  {
    FreeLeavesDevs(s);
    hide StopStep, FreeStep;
  }

  lemma MainReaches(s: State, good: bool)
    requires Reached(s) && (s.starter == Unborn || s.main != Startup)
    ensures Reached(MainStep(s, good))
  {
    if s.main.Stopping? {
      hide StopWaits, StopPc, StopThreads;
    } else {
      MainLeavesDevs(s, good);
      hide MainStep;
    }
  }

  lemma StepReaches(s: State, a: Action)
    requires Inv(s) && Reached(s)
    ensures Reached(Next(s, a))
  {
    if a.StarterMoves? {
      if s.starterAlive { StarterReaches(s, a.good); }
    } else {
      OthersReach(s, a);
    }
  }

  lemma StopStopsAll(s: State, i: nat, at: StopAt, why: Why)
    requires i < |s.devs| && s.main == Stopping(i, at, why) && StopsAll(s)
    requires HandleInv(s.devs[i], i, s.main, s.starter)
    ensures StopsAll(StopStep(s, i, at, why))
  {
    hide MainHolds, PastFreeing, StarterAt;
  }

  lemma MainGoesInOrder(s: State, good: bool)
    requires ManagerInv(s) && !s.main.Stopping?
    ensures var m := MainStep(s, good).main;
            m.StopNext? || (m.Stopping? && m.why.ForAll?) ==>
              m.i == 0 || (s.main.StopNext? && m.i == s.main.i)
  {
    hide StopStep;
  }

  lemma OtherwiseStopsAll(s: State, good: bool)
    requires ManagerInv(s) && !s.main.Stopping? && StopsAll(s)
    ensures StopsAll(MainStep(s, good))
  {
    MainLeavesDevs(s, good);
    MainGoesInOrder(s, good);
    hide MainStep;
  }

  lemma MainStopsAll(s: State, good: bool)
    requires Inv(s) && StopsAll(s)
    ensures StopsAll(MainStep(s, good))
  {
    if s.main.Stopping? {
      assert DevInv(s, s.main.i);
      hide StopsAll, StopStep;
      StopStopsAll(s, s.main.i, s.main.at, s.main.why);
    } else {
      OtherwiseStopsAll(s, good);
      hide *;
    }
  }

  lemma StepStopsAll(s: State, a: Action)
    requires Inv(s) && StopsAll(s)
    ensures StopsAll(Next(s, a))
  {
    if a.MainMoves? {
      MainStopsAll(s, a.good);
    } else {
      assert Next(s, a).main == s.main;
    }
  }

  /** In every interleaving the start thread leaves no device behind that it did not start or mark
      as failed, and the stop of all devices leaves none behind that is not stopped. */
  lemma {:induction false} EveryDeviceIsReached(n: nat, actions: seq<Action>)
    ensures var s := Run(Start(n), actions);
            |s.devs| == n && Reached(s) && StopsAll(s)
  {
    if actions != [] {
      EveryDeviceIsReached(n, actions[..|actions| - 1]);
      RunKeeps(n, actions[..|actions| - 1]);
      hide Inv, Reached, StopsAll;
      var s, a := Run(Start(n), actions[..|actions| - 1]), actions[|actions| - 1];
      StepReaches(s, a);
      StepStopsAll(s, a);
      StepKeepsSize(s, a);
    }
  }

  lemma StepKeepsSize(s: State, a: Action)
    ensures |Next(s, a).devs| == |s.devs|
  {
  }

  /** The main thread has not left its loop. */
  predicate InLoop(m: MainPc) {
    m == Startup || m == Loop
  }

  predicate IsUp(d: Dev) {
    d.running && d.status == Ok && d.handle.Some?
  }

  /** As long as nothing fails and the main thread stays in its loop, every device behind the
      start thread is up and every data thread lives. */
  predicate AllUp(s: State) {
    && !s.starterCancelled
    && !(s.starter.Starting? && (s.starter.at == UndoRunning || s.starter.at == Fail))
    && (forall j :: 0 <= j < |s.devs| && (PassedBy(s.starter, j) || s.starter == Starting(j, Leave)) ==> IsUp(s.devs[j]))
    && (forall t :: 0 <= t < |s.threads| ==>
                      && s.threads[t].alive && !s.threads[t].cancelled
                      && (s.threads[t].device < |s.devs| ==> s.devs[s.threads[t].device].running))
  }

  lemma StarterKeepsUp(s: State)
    requires Inv(s) && InLoop(s.main) && AllUp(s)
    ensures AllUp(StarterStep(s, true))
  {
    if s.starter.Starting? {
      assert DevInv(s, s.starter.i);
      forall t | 0 <= t < |s.threads| ensures ThreadInv(s.threads[t], t, s.devs) {
      }
    }
  }

  lemma OthersKeepUp(s: State, a: Action)
    requires Inv(s) && InLoop(s.main) && AllUp(s) && !a.StarterMoves? && InLoop(Next(s, a).main)
    ensures AllUp(Next(s, a))
  {
    if a.DataMoves? && a.t < |s.threads| {
      assert ThreadInv(s.threads[a.t], a.t, s.devs);
    }
  }

  lemma LoopIsNotEntered(s: State, a: Action)
    requires InLoop(Next(s, a).main)
    ensures InLoop(s.main)
  {
  }

  lemma {:induction false} RunKeepsUp(n: nat, actions: seq<Action>)
    requires forall k :: 0 <= k < |actions| ==> actions[k] != StarterMoves(false)
    requires InLoop(Run(Start(n), actions).main)
    ensures AllUp(Run(Start(n), actions))
  {
    if actions != [] {
      var before, a := actions[..|actions| - 1], actions[|actions| - 1];
      var s := Run(Start(n), before);
      RunKeeps(n, before);
      hide Inv, AllUp;
      LoopIsNotEntered(s, a);
      RunKeepsUp(n, before);
      if a.StarterMoves? {
        assert a == StarterMoves(true);
        if s.starterAlive { StarterKeepsUp(s); }
      } else {
        OthersKeepUp(s, a);
      }
    }
  }

  /** However the threads interleave: where no start fails and the main thread is still in its loop
      when the start thread is done, every device runs with status ok and its thread is alive. */
  lemma {:induction false} EveryDeviceComesUp(n: nat, actions: seq<Action>)
    requires forall k :: 0 <= k < |actions| ==> actions[k] != StarterMoves(false)
    ensures var s := Run(Start(n), actions);
            s.main == Loop && s.starter == Finished ==>
              && |s.devs| == n
              && forall i :: 0 <= i < n ==>
                   && s.devs[i].running && s.devs[i].status == Ok && s.devs[i].handle.Some?
                   && s.devs[i].handle.value < |s.threads|
                   && s.threads[s.devs[i].handle.value].alive && s.threads[s.devs[i].handle.value].device == i
  {
    var s := Run(Start(n), actions);
    EveryDeviceIsReached(n, actions);
    if s.main == Loop && s.starter == Finished {
      RunKeepsUp(n, actions);
      RunKeeps(n, actions);
      forall i | 0 <= i < n ensures IsUp(s.devs[i]) && LinkInv(s.devs[i], i, s.threads) {
        assert DevInv(s, i);
      }
    }
  }

  /** Nothing was ever started. */
  predicate AllDown(s: State) {
    && s.threads == []
    && !(s.starter.Starting? && (s.starter.at == SetOk || s.starter.at == SetRunning || s.starter.at == Create))
    && (forall j :: 0 <= j < |s.devs| ==> !s.devs[j].running && s.devs[j].status != Ok)
  }

  lemma MainKeepsDown(s: State, good: bool)
    requires AllDown(s)
    ensures AllDown(MainStep(s, good))
  {
    if s.main.Stopping? {
      hide StopWaits, StopPc;
    } else {
      MainLeavesDevs(s, good);
      MainKeepsThreads(s, good);
      hide MainStep;
    }
  }

  lemma MainKeepsThreads(s: State, good: bool)
    requires !s.main.Stopping?
    ensures MainStep(s, good).threads == s.threads
  {
    hide StopStep;
  }

  lemma StepKeepsDown(s: State, a: Action)
    requires AllDown(s) && a != StarterMoves(true)
    ensures AllDown(Next(s, a))
  {
    if a.MainMoves? {
      MainKeepsDown(s, a.good);
      hide MainStep;
    }
  }

  /** Where every start fails no device ever runs and no data thread is ever made, and every device
      behind the start thread is offline. */
  lemma {:induction false} NoDeviceComesUp(n: nat, actions: seq<Action>)
    requires forall k :: 0 <= k < |actions| ==> actions[k] != StarterMoves(true)
    ensures var s := Run(Start(n), actions);
            AllDown(s) && forall j :: 0 <= j < |s.devs| && PassedBy(s.starter, j) ==> s.devs[j].status == Offline
  {
    EveryDeviceIsReached(n, actions);
    if actions != [] {
      NoDeviceComesUp(n, actions[..|actions| - 1]);
      hide Next, AllDown;
      StepKeepsDown(Run(Start(n), actions[..|actions| - 1]), actions[|actions| - 1]);
    }
    StatusIsOneOfThree(Run(Start(n), actions));
  }

  lemma StatusIsOneOfThree(s: State)
    requires AllDown(s) && Reached(s)
    ensures forall j :: 0 <= j < |s.devs| && PassedBy(s.starter, j) ==> s.devs[j].status == Offline
  {
  }

  // ----------------------------------------------------- a run from end to end

  ghost predicate Reachable(n: nat, s: State) {
    exists actions :: Run(Start(n), actions) == s
  }

  lemma Reach(n: nat, s: State, a: Action, s': State)
    requires Reachable(n, s) && Next(s, a) == s'
    ensures Reachable(n, s')
  {
    hide Next;
    var actions :| Run(Start(n), actions) == s;
    assert (actions + [a])[..|actions|] == actions;
    assert Run(Start(n), actions + [a]) == s';
  }

  const MAIN_GOES := MainMoves(true)
  const STARTER_GOES := StarterMoves(true)

  /** The one device of this run at each stage: new, being started, running, and stopped with
      the data thread in its critical section. */
  const FRESH := Dev(false, Unknown, None, None, false)
  const LOCKED := Dev(false, Unknown, None, Some(Starter), false)
  const RUNNING := Dev(true, Ok, Some(0), None, false)
  const STOPPED := Dev(false, Offline, Some(0), None, false)
  const HELD := Dev(false, Offline, Some(0), Some(Data(0)), false)
  const JOINED := Dev(false, Offline, None, Some(Data(0)), false)

  function BeingStarted(d: Dev, at: StartAt): State {
    State([d], [], Some(Starter), false, Loop, Starting(0, at), true, false)
  }

  /** A device does come up: it is running with status ok and its thread is alive. */
  lemma DeviceComesUp()
    ensures Reachable(1, State([RUNNING], [Thread(0, Test, true, false)], None, false, Loop, Finished, false, false))
  {
    hide Reachable, Next;
    StartsUp();
    var d := LOCKED.(status := Ok);
    Starts(LOCKED, Check, LOCKED, Init);
    Starts(LOCKED, Init, LOCKED, SetOk);
    Starts(LOCKED, SetOk, d, SetRunning);
    Starts(d, SetRunning, d.(running := true), Create);
    Creates();
  }

  lemma StartsUp()
    ensures Reachable(1, BeingStarted(LOCKED, Check))
  {
    assert Run(Start(1), []) == Start(1) == State([FRESH], [], None, false, Startup, Unborn, false, false);
    Reach(1, Start(1), MAIN_GOES, State([FRESH], [], None, false, Loop, AwaitManager, true, false));
    Reach(1, State([FRESH], [], None, false, Loop, AwaitManager, true, false), STARTER_GOES,
          State([FRESH], [], Some(Starter), false, Loop, StartNext(0), true, false));
    Reach(1, State([FRESH], [], Some(Starter), false, Loop, StartNext(0), true, false), STARTER_GOES, BeingStarted(LOCKED, Check));
  }

  lemma Starts(d: Dev, at: StartAt, e: Dev, then_: StartAt)
    requires at != Create && at != Leave && StartDev(d, at, true, 0) == e && StartPc(d, 0, at, true) == Starting(0, then_)
    requires Reachable(1, BeingStarted(d, at))
    ensures Reachable(1, BeingStarted(e, then_))
  {
    Reach(1, BeingStarted(d, at), STARTER_GOES, BeingStarted(e, then_));
  }

  lemma Creates()
    requires Reachable(1, BeingStarted(Dev(true, Ok, None, Some(Starter), false), Create))
    ensures Reachable(1, State([RUNNING], [Thread(0, Test, true, false)], None, false, Loop, Finished, false, false))
  {
    var x, d := Thread(0, Test, true, false), Dev(true, Ok, Some(0), Some(Starter), false);
    Reach(1, BeingStarted(Dev(true, Ok, None, Some(Starter), false), Create), STARTER_GOES,
          State([d], [x], Some(Starter), false, Loop, Starting(0, Leave), true, false));
    Reach(1, State([d], [x], Some(Starter), false, Loop, Starting(0, Leave), true, false), STARTER_GOES,
          State([RUNNING], [x], Some(Starter), false, Loop, StartNext(1), true, false));
    Reach(1, State([RUNNING], [x], Some(Starter), false, Loop, StartNext(1), true, false), STARTER_GOES,
          State([RUNNING], [x], None, false, Loop, Finished, false, false));
  }

  /** From here on the start thread has finished. */
  function Later(d: Dev, x: Thread, main: MainPc): State {
    State([d], [x], if MainInManager(main) then Some(Main) else None, false, main, Finished, false, false)
  }

  lemma MainGoes(d: Dev, x: Thread, m: MainPc, e: Dev, y: Thread, m': MainPc)
    requires Reachable(1, Later(d, x, m)) && MainStep(Later(d, x, m), true) == Later(e, y, m')
    ensures Reachable(1, Later(e, y, m'))
  {
    Reach(1, Later(d, x, m), MAIN_GOES, Later(e, y, m'));
  }

  lemma ThreadGoes(d: Dev, x: Thread, m: MainPc, e: Dev, y: Thread)
    requires Reachable(1, Later(d, x, m)) && x.alive && DataStep(Later(d, x, m), 0) == Later(e, y, m)
    ensures Reachable(1, Later(e, y, m))
  {
    Reach(1, Later(d, x, m), DataMoves(0), Later(e, y, m));
  }

  /** The data thread waits for the mutex when the stop of all devices takes it first. */
  lemma StopTakesMutex()
    ensures Reachable(1, Later(RUNNING, Thread(0, Await, true, false), Stopping(0, Lock, ForAll(false))))
  {
    hide Reachable;
    DeviceComesUp();
    var x := Thread(0, Await, true, false);
    ThreadGoes(RUNNING, Thread(0, Test, true, false), Loop, RUNNING, x);
    MainGoes(RUNNING, x, Loop, RUNNING, x, StopEntry(false));
    MainGoes(RUNNING, x, StopEntry(false), RUNNING, x, StopNext(0, false));
    MainGoes(RUNNING, x, StopNext(0, false), RUNNING, x, Stopping(0, Lock, ForAll(false)));
  }

  lemma StopLetsGo()
    ensures Reachable(1, Later(STOPPED, Thread(0, Await, true, false), Stopping(0, Cancel, ForAll(false))))
  {
    hide Reachable;
    StopTakesMutex();
    var x, why := Thread(0, Await, true, false), ForAll(false);
    var d := RUNNING.(mutex := Some(Main));
    MainGoes(RUNNING, x, Stopping(0, Lock, why), d, x, Stopping(0, ClearRunning, why));
    MainGoes(d, x, Stopping(0, ClearRunning, why), d.(running := false), x, Stopping(0, SetOffline, why));
    MainGoes(d.(running := false), x, Stopping(0, SetOffline, why), STOPPED.(mutex := Some(Main)), x, Stopping(0, Unlock, why));
    MainGoes(STOPPED.(mutex := Some(Main)), x, Stopping(0, Unlock, why), STOPPED, x, Stopping(0, Cancel, why));
  }

  /** Then the thread gets the mutex, and is cancelled and dies with it. */
  lemma ThreadDiesInside()
    ensures Reachable(1, Later(JOINED, Thread(0, Work, false, true), StopNext(1, false)))
  {
    hide Reachable;
    StopLetsGo();
    var x, why := Thread(0, Work, true, false), ForAll(false);
    ThreadGoes(STOPPED, Thread(0, Await, true, false), Stopping(0, Cancel, why), HELD, x);
    MainGoes(HELD, x, Stopping(0, Cancel, why), HELD, x.(cancelled := true), Stopping(0, Join, why));
    Reach(1, Later(HELD, x.(cancelled := true), Stopping(0, Join, why)), DataDies(0),
          Later(HELD, Thread(0, Work, false, true), Stopping(0, Join, why)));
    MainGoes(HELD, Thread(0, Work, false, true), Stopping(0, Join, why), JOINED, Thread(0, Work, false, true), StopNext(1, false));
  }

  function Last(d: Dev, main: MainPc): State {
    State([d], [Thread(0, Work, false, true)], if MainInManager(main) then Some(Main) else None,
          true, main, Finished, false, true)
  }

  lemma MainFrees(d: Dev, m: MainPc, e: Dev, m': MainPc)
    requires Reachable(1, Last(d, m)) && FreeStep(Last(d, m)) == Last(e, m')
    requires m.FreeEntry? || m.FreeNext? || m.Release?
    ensures Reachable(1, Last(e, m'))
  {
    Reach(1, Last(d, m), MAIN_GOES, Last(e, m'));
  }

  lemma CleanupGoesOn()
    ensures Reachable(1, Last(JOINED, FreeEntry))
  {
    hide Reachable;
    ThreadDiesInside();
    var x := Thread(0, Work, false, true);
    var s := Later(JOINED, x, StopDone(false));
    MainGoes(JOINED, x, StopNext(1, false), JOINED, x, StopDone(false));
    Reach(1, s, MAIN_GOES, s.(stopped := true, main := CancelStarter));
    Reach(1, s.(stopped := true, main := CancelStarter), MAIN_GOES, Last(JOINED, JoinStarter));
    Reach(1, Last(JOINED, JoinStarter), MAIN_GOES, Last(JOINED, FreeEntry));
  }

  /** A device can be freed with its mutex locked, and cleanup then ends all the same. */
  lemma {:induction false} FreedWhileLocked()
    ensures Reachable(1, Last(JOINED, Release(0)))
    ensures Reachable(1, Last(JOINED.(freed := true), Done)) && JOINED.mutex == Some(Data(0))
  {
    hide Reachable;
    CleanupGoesOn();
    MainFrees(JOINED, FreeEntry, JOINED, FreeNext(0));
    MainFrees(JOINED, FreeNext(0), JOINED, Release(0));
    MainFrees(JOINED, Release(0), JOINED.(freed := true), FreeNext(1));
    MainFrees(JOINED.(freed := true), FreeNext(1), JOINED.(freed := true), Done);
  }
}
