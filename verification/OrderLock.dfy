/**
 The per-order lock of the payment callbacks: a map from trade number to a reference-counted
 mutex, guarded by `createLock` while threads count themselves in and out, and read once
 without any lock by UnlockOrder.

 The code is concurrent, so it is modelled as a state machine. Every shared load, store, count
 and lock operation is one atomic step, any number of threads take steps in any order, and a
 thread's program counter says which operation it is about to perform.
 */
module OrderLock {
  import opened Options

  type Thread = nat
  type TradeNo = string
  type Address = nat

  /** A refCountedMutex. Like Go's sync.Mutex, `locked` does not remember who locked it. */
  datatype Mutex = Mutex(locked: bool, refCount: int)

  /** The operation a thread is about to perform. `Holding` is the caller's own code between the
      two calls. */
  datatype Pc =
    | Idle
    | EnterWant    // LockOrder: createLock.Lock()
    | EnterLoad    //   orderLocks.Load
    | EnterStore   //   allocate and orderLocks.Store
    | EnterCount   //   refCount++
    | EnterRelease //   createLock.Unlock()
    | EnterBlock   //   rcm.mu.Lock()
    | Holding      // UnlockOrder: orderLocks.Load, with no lock held
    | LeaveUnlock  //   rcm.mu.Unlock()
    | LeaveWant    //   createLock.Lock()
    | LeaveCount   //   refCount--
    | LeaveTest    //   delete the entry if refCount == 0
    | LeaveRelease //   createLock.Unlock()

  /** A thread's program counter, its trade number and its local `rcm`. While the thread is
      `Holding`, the code keeps no `rcm`; there `a` records, for the theorems only, which mutex
      it locked. `a` means nothing where HasMutex is false. */
  datatype Point = Point(pc: Pc, t: TradeNo, a: Address)

  /** `heap` keeps every mutex ever allocated, also those no longer in the map. */
  datatype State = State(creator: Option<Thread>, orders: map<TradeNo, Address>,
                         heap: seq<Mutex>, at: map<Thread, Point>)

  datatype Action = Call(th: Thread, t: TradeNo) | Advance(th: Thread)

  function Init(): State {
    State(None, map[], [], map[])
  }

  const NOWHERE := Point(Idle, "", 0)

  function PointOf(s: State, th: Thread): Point {
    if th in s.at then s.at[th] else NOWHERE
  }

  predicate HasMutex(p: Point) {
    || p.pc.EnterCount? || p.pc.EnterRelease? || p.pc.EnterBlock? || p.pc.Holding?
    || p.pc.LeaveUnlock? || p.pc.LeaveWant? || p.pc.LeaveCount? || p.pc.LeaveTest?
  }

  /** The createLock section. */
  predicate InSection(p: Point) {
    || p.pc.EnterLoad? || p.pc.EnterStore? || p.pc.EnterCount? || p.pc.EnterRelease?
    || p.pc.LeaveCount? || p.pc.LeaveTest? || p.pc.LeaveRelease?
  }

  /** The thread has counted itself in and not yet out. */
  predicate CountedIn(p: Point) {
    || p.pc.EnterRelease? || p.pc.EnterBlock? || p.pc.Holding? || p.pc.LeaveUnlock?
    || p.pc.LeaveWant? || p.pc.LeaveCount?
  }

  /** The thread is between the return of mu.Lock() and the return of mu.Unlock(). */
  predicate Owns(p: Point) {
    || p.pc.Holding? || p.pc.LeaveUnlock?
  }

  /** Every address in use was allocated. */
  predicate Typed(s: State) {
    (forall th :: th in s.at && HasMutex(s.at[th]) ==> s.at[th].a < |s.heap|)
    && (forall t :: t in s.orders ==> s.orders[t] < |s.heap|)
  }

  predicate Enabled(s: State, act: Action)
    requires Typed(s)
  {
    match act
    case Call(th, _) => PointOf(s, th).pc.Idle?
    case Advance(th) =>
      var p := PointOf(s, th);
      match p.pc
      case Idle => false
      case EnterWant => s.creator.None?
      case LeaveWant => s.creator.None?
      case EnterBlock => !s.heap[p.a].locked
      case _ => true
  }

  function Goto(s: State, th: Thread, p: Point): State {
    s.(at := s.at[th := p])
  }

  function AdvanceThread(s: State, th: Thread): State
    requires Typed(s) && Enabled(s, Advance(th))
  {
    var p := PointOf(s, th);
    match p.pc
    case Idle => assert false; s
    case EnterWant => Goto(s.(creator := Some(th)), th, p.(pc := EnterLoad))
    case EnterLoad =>
      if p.t in s.orders then Goto(s, th, Point(EnterCount, p.t, s.orders[p.t]))
      else Goto(s, th, p.(pc := EnterStore))
    case EnterStore =>
      var a := |s.heap|;
      Goto(s.(heap := s.heap + [Mutex(false, 0)], orders := s.orders[p.t := a]), th, Point(EnterCount, p.t, a))
    case EnterCount =>
      var m := s.heap[p.a];
      Goto(s.(heap := s.heap[p.a := m.(refCount := m.refCount + 1)]), th, p.(pc := EnterRelease))
    case EnterRelease => Goto(s.(creator := None), th, p.(pc := EnterBlock))
    case EnterBlock => Goto(s.(heap := s.heap[p.a := s.heap[p.a].(locked := true)]), th, p.(pc := Holding))
    case Holding =>
      if p.t in s.orders then Goto(s, th, Point(LeaveUnlock, p.t, s.orders[p.t]))
      else Goto(s, th, NOWHERE)
    case LeaveUnlock => Goto(s.(heap := s.heap[p.a := s.heap[p.a].(locked := false)]), th, p.(pc := LeaveWant))
    case LeaveWant => Goto(s.(creator := Some(th)), th, p.(pc := LeaveCount))
    case LeaveCount =>
      var m := s.heap[p.a];
      Goto(s.(heap := s.heap[p.a := m.(refCount := m.refCount - 1)]), th, p.(pc := LeaveTest))
    case LeaveTest =>
      Goto(if s.heap[p.a].refCount == 0 then s.(orders := s.orders - {p.t}) else s, th, p.(pc := LeaveRelease))
    case LeaveRelease => Goto(s.(creator := None), th, NOWHERE)
  }

  function Next(s: State, act: Action): State
    requires Typed(s) && Enabled(s, act)
  {
    match act
    case Call(th, t) => Goto(s, th, Point(EnterWant, t, 0))
    case Advance(th) => AdvanceThread(s, th)
  }

  ghost predicate Step(s: State, s': State) {
    Typed(s) && exists act :: Enabled(s, act) && s' == Next(s, act)
  }

  /** A run: any finite interleaving of steps from the empty map. */
  ghost predicate IsRun(run: seq<State>) {
    |run| > 0 && run[0] == Init()
    && forall i :: 0 <= i < |run| - 1 ==> Step(run[i], run[i + 1])
  }

  // ---------------------------------------------------------------- the inductive invariant

  /** The threads counted in on the mutex at `a`. */
  function Users(at: map<Thread, Point>, a: Address): set<Thread> {
    set th | th in at && Uses(at[th], a)
  }

  /** createLock is held by exactly the thread inside the section. */
  predicate CreatorOk(s: State) {
    (s.creator.Some? ==> s.creator.value in s.at)
    && forall th :: th in s.at ==> (InSection(s.at[th]) <==> s.creator == Some(th))
  }

  /** A thread's mutex is the one the map holds for its trade number. */
  predicate MapOk(s: State) {
    (forall th :: th in s.at && HasMutex(s.at[th])
      ==> s.at[th].t in s.orders && s.orders[s.at[th].t] == s.at[th].a)
    && (forall th :: th in s.at && s.at[th].pc.EnterStore? ==> s.at[th].t !in s.orders)
    && (forall t1, t2 :: t1 in s.orders && t2 in s.orders && s.orders[t1] == s.orders[t2] ==> t1 == t2)
  }

  predicate CountsOk(s: State) {
    forall a :: 0 <= a < |s.heap| ==> s.heap[a].refCount == |Users(s.at, a)|
  }

  /** A thread that has just stored the entry, or is about to test it for deletion. */
  predicate Pending(s: State, t: TradeNo)
    requires t in s.orders
  {
    s.creator.Some? && s.creator.value in s.at
    && (s.at[s.creator.value].pc.EnterCount? || s.at[s.creator.value].pc.LeaveTest?)
    && s.at[s.creator.value].t == t && s.at[s.creator.value].a == s.orders[t]
  }

  /** An entry without users exists only inside the section that will use or delete it. */
  predicate LiveOk(s: State)
    requires Typed(s)
  {
    forall t :: t in s.orders ==> s.heap[s.orders[t]].refCount > 0 || Pending(s, t)
  }

  predicate OwnerOk(s: State) {
    (forall th :: th in s.at && Owns(s.at[th]) ==> s.at[th].a < |s.heap| && s.heap[s.at[th].a].locked)
    && (forall th1, th2 ::
          th1 in s.at && th2 in s.at && Owns(s.at[th1]) && Owns(s.at[th2]) && s.at[th1].a == s.at[th2].a
          ==> th1 == th2)
  }

  ghost predicate LockedByOwner(s: State) {
    forall a :: 0 <= a < |s.heap| && s.heap[a].locked ==> exists th :: th in s.at && Owns(s.at[th]) && s.at[th].a == a
  }

  ghost predicate Inv(s: State) {
    Typed(s) && CreatorOk(s) && MapOk(s) && CountsOk(s) && LiveOk(s) && OwnerOk(s) && LockedByOwner(s)
  }

  predicate Uses(p: Point, a: Address) {
    CountedIn(p) && p.a == a
  }

  lemma UsersAfter(at: map<Thread, Point>, th: Thread, p: Point, a: Address)
    ensures |Users(at[th := p], a)|
         == |Users(at, a)| - (if th in at && Uses(at[th], a) then 1 else 0) + (if Uses(p, a) then 1 else 0)
  {
    var others := Users(at, a) - {th};
    forall x ensures x in Users(at[th := p], a) <==> x in others || (x == th && Uses(p, a)) {
    }
    if Uses(p, a) {
      assert Users(at[th := p], a) == others + {th};
    } else {
      assert Users(at[th := p], a) == others;
    }
  }

  lemma NoUsersOfFresh(s: State, a: Address)
    requires Typed(s) && a >= |s.heap|
    ensures Users(s.at, a) == {}
  {
  }

  /** A step leaves each mutex's count as it was, or changes it as its thread counts in or out. */
  lemma CountFollows(s: State, act: Action, a: Address)
    requires Typed(s) && MapOk(s) && Enabled(s, act) && a < |Next(s, act).heap|
    ensures var before := if a < |s.heap| then s.heap[a].refCount else 0;
      var left := act.th in s.at && a < |s.heap| && Uses(s.at[act.th], a);
      Next(s, act).heap[a].refCount
      == before - (if left then 1 else 0) + (if Uses(PointOf(Next(s, act), act.th), a) then 1 else 0)
  {
  }

  lemma CountsKept(s: State, act: Action)
    requires Typed(s) && MapOk(s) && CountsOk(s) && Enabled(s, act)
    ensures CountsOk(Next(s, act))
  {
    var s' := Next(s, act);
    forall a | 0 <= a < |s'.heap| ensures s'.heap[a].refCount == |Users(s'.at, a)| {
      CountFollows(s, act, a);
      OneMoves(s, act);
      UsersAfter(s.at, act.th, PointOf(s', act.th), a);
      if a >= |s.heap| {
        NoUsersOfFresh(s, a);
      }
    }
  }

  lemma OneMoves(s: State, act: Action)
    requires Typed(s) && Enabled(s, act)
    ensures Next(s, act).at == s.at[act.th := PointOf(Next(s, act), act.th)]
  {
  }

  lemma OrdersGrowByOne(s: State, act: Action)
    requires Typed(s) && Enabled(s, act)
    ensures |Next(s, act).heap| >= |s.heap|
    ensures forall t :: t in Next(s, act).orders ==> Next(s, act).orders[t] < |Next(s, act).heap|
  {
  }

  lemma TypedKept(s: State, act: Action)
    requires Typed(s) && Enabled(s, act)
    ensures Typed(Next(s, act))
  {
    OneMoves(s, act);
    OrdersGrowByOne(s, act);
    OwnAddressOk(s, act);
  }

  lemma OwnAddressOk(s: State, act: Action)
    requires Typed(s) && Enabled(s, act)
    ensures var p := PointOf(Next(s, act), act.th); HasMutex(p) ==> p.a < |Next(s, act).heap|
  {
  }

  lemma CreatorKept(s: State, act: Action)
    requires Typed(s) && CreatorOk(s) && Enabled(s, act)
    ensures CreatorOk(Next(s, act))
  {
    var s' := Next(s, act);
    forall th | th in s'.at ensures InSection(s'.at[th]) <==> s'.creator == Some(th) {
      if th != act.th {
        assert s'.at[th] == s.at[th];
      }
    }
  }

  /** Deleting the entry strands nobody: no one is counted in on it, and the section is exclusive. */
  lemma DeletedEntryUnused(s: State, th: Thread, other: Thread)
    requires Typed(s) && CreatorOk(s) && MapOk(s) && CountsOk(s)
    requires th in s.at && s.at[th].pc.LeaveTest? && s.heap[s.at[th].a].refCount == 0
    requires other in s.at && other != th && HasMutex(s.at[other])
    ensures s.at[other].t != s.at[th].t
  {
    assert InSection(s.at[th]) && !InSection(s.at[other]);
    assert Users(s.at, s.at[th].a) == {};
    assert other !in Users(s.at, s.at[th].a);
  }

  lemma EntriesKept(s: State, act: Action, th: Thread)
    requires Typed(s) && CreatorOk(s) && MapOk(s) && CountsOk(s) && Enabled(s, act)
    requires th in Next(s, act).at && HasMutex(Next(s, act).at[th])
    ensures var s' := Next(s, act);
      s'.at[th].t in s'.orders && s'.orders[s'.at[th].t] == s'.at[th].a
  {
    if th != act.th {
      var p := PointOf(s, act.th);
      if act.Advance? && p.pc.LeaveTest? && s.heap[p.a].refCount == 0 {
        DeletedEntryUnused(s, act.th, th);
      } else if act.Advance? && p.pc.EnterStore? {
        assert s.at[th].t != p.t;
      }
    }
  }

  lemma MissesKept(s: State, act: Action, th: Thread)
    requires Typed(s) && CreatorOk(s) && MapOk(s) && Enabled(s, act)
    requires th in Next(s, act).at && Next(s, act).at[th].pc.EnterStore?
    ensures Next(s, act).at[th].t !in Next(s, act).orders
  {
    if th != act.th {
      assert InSection(s.at[th]) && !InSection(PointOf(s, act.th));
    }
  }

  lemma MapKept(s: State, act: Action)
    requires Typed(s) && CreatorOk(s) && MapOk(s) && CountsOk(s) && Enabled(s, act)
    ensures MapOk(Next(s, act))
  {
    forall th | th in Next(s, act).at && HasMutex(Next(s, act).at[th]) {
      EntriesKept(s, act, th);
    }
    forall th | th in Next(s, act).at && Next(s, act).at[th].pc.EnterStore? {
      MissesKept(s, act, th);
    }
  }

  /** One entry: it keeps its mutex, or was just stored by the thread that will use it. */
  lemma EntryStays(s: State, act: Action, t: TradeNo)
    requires Typed(s) && Enabled(s, act) && t in Next(s, act).orders
    ensures (t in s.orders && Next(s, act).orders[t] == s.orders[t])
      || (act.Advance? && PointOf(s, act.th).pc.EnterStore? && PointOf(s, act.th).t == t
          && Next(s, act).orders[t] == |s.heap|)
  {
  }

  lemma EntryLives(s: State, act: Action, t: TradeNo)
    requires Typed(s) && CreatorOk(s) && MapOk(s) && CountsOk(s) && LiveOk(s)
    requires Enabled(s, act) && Typed(Next(s, act)) && t in s.orders && t in Next(s, act).orders
    requires Next(s, act).orders[t] == s.orders[t]
    ensures Next(s, act).heap[s.orders[t]].refCount > 0 || Pending(Next(s, act), t)
  {
    if act.Advance? && PointOf(s, act.th).pc.EnterCount? && s.at[act.th].t == t {
      assert s.heap[s.orders[t]].refCount == |Users(s.at, s.orders[t])|;
    }
  }

  lemma LiveKept(s: State, act: Action)
    requires Typed(s) && CreatorOk(s) && MapOk(s) && CountsOk(s) && LiveOk(s)
    requires Enabled(s, act) && Typed(Next(s, act))
    ensures LiveOk(Next(s, act))
  {
    var s' := Next(s, act);
    forall t | t in s'.orders ensures s'.heap[s'.orders[t]].refCount > 0 || Pending(s', t) {
      EntryStays(s, act, t);
      if t in s.orders && s'.orders[t] == s.orders[t] {
        EntryLives(s, act, t);
      } else {
        assert InSection(s.at[act.th]) && Pending(s', t);
      }
    }
  }

  lemma OwnerKept(s: State, act: Action, th: Thread)
    requires Typed(s) && MapOk(s) && OwnerOk(s) && Enabled(s, act)
    requires th in Next(s, act).at && Owns(Next(s, act).at[th])
    ensures var s' := Next(s, act); s'.at[th].a < |s'.heap| && s'.heap[s'.at[th].a].locked
  {
    if th != act.th {
      assert Owns(s.at[th]) && s.heap[s.at[th].a].locked;
    }
  }

  lemma OwnersDiffer(s: State, act: Action, th1: Thread, th2: Thread)
    requires Typed(s) && MapOk(s) && OwnerOk(s) && Enabled(s, act)
    requires th1 in Next(s, act).at && Owns(Next(s, act).at[th1])
    requires th2 in Next(s, act).at && Owns(Next(s, act).at[th2])
    requires th1 != th2
    ensures Next(s, act).at[th1].a != Next(s, act).at[th2].a
  {
    if th1 == act.th {
      assert Owns(s.at[th2]) && s.heap[s.at[th2].a].locked;
    } else if th2 == act.th {
      assert Owns(s.at[th1]) && s.heap[s.at[th1].a].locked;
    }
  }

  /** A mutex locked after a step was just locked by the moving thread, or was locked before and
      not unlocked. */
  lemma LockedBefore(s: State, act: Action, a: Address)
    requires Typed(s) && Enabled(s, act) && a < |Next(s, act).heap| && Next(s, act).heap[a].locked
    ensures (act.Advance? && PointOf(s, act.th).pc.EnterBlock? && s.at[act.th].a == a)
      || (a < |s.heap| && s.heap[a].locked
          && !(act.Advance? && PointOf(s, act.th).pc.LeaveUnlock? && s.at[act.th].a == a))
  {
  }

  lemma LockedKept(s: State, act: Action, a: Address) returns (th: Thread)
    requires Typed(s) && MapOk(s) && LockedByOwner(s) && Enabled(s, act)
    requires a < |Next(s, act).heap| && Next(s, act).heap[a].locked
    ensures var s' := Next(s, act);
      th in s'.at && Owns(s'.at[th]) && s'.at[th].a == a
  {
    if act.Advance? && PointOf(s, act.th).pc.EnterBlock? && s.at[act.th].a == a {
      th := act.th;
    } else {
      LockedBefore(s, act, a);
      th :| th in s.at && Owns(s.at[th]) && s.at[th].a == a;
    }
  }

  lemma OwnersKept(s: State, act: Action)
    requires Typed(s) && MapOk(s) && OwnerOk(s) && Enabled(s, act)
    ensures OwnerOk(Next(s, act))
  {
    var s' := Next(s, act);
    forall th | th in s'.at && Owns(s'.at[th]) {
      OwnerKept(s, act, th);
    }
    forall th1, th2 | th1 in s'.at && th2 in s'.at && Owns(s'.at[th1]) && Owns(s'.at[th2]) && th1 != th2 {
      OwnersDiffer(s, act, th1, th2);
    }
  }

  lemma MutexesKept(s: State, act: Action)
    requires Inv(s) && Enabled(s, act)
    ensures LockedByOwner(Next(s, act))
  {
    var s' := Next(s, act);
    forall a | 0 <= a < |s'.heap| && s'.heap[a].locked
      ensures exists th :: th in s'.at && Owns(s'.at[th]) && s'.at[th].a == a
    {
      var th := LockedKept(s, act, a);
    }
  }

  /** Every step of every thread keeps the invariant. */
  lemma StepKeepsInv(s: State, act: Action)
    requires Inv(s) && Enabled(s, act)
    ensures Inv(Next(s, act))
  {
    TypedKept(s, act);
    CreatorKept(s, act);
    MapKept(s, act);
    CountsKept(s, act);
    LiveKept(s, act);
    OwnersKept(s, act);
    MutexesKept(s, act);
  }

  lemma {:induction false} RunKeepsInv(run: seq<State>)
    requires IsRun(run)
    ensures Inv(run[|run| - 1])
  {
    if |run| > 1 {
      var before := run[..|run| - 1];
      assert Step(run[|run| - 2], run[|run| - 1]);
      assert forall i :: 0 <= i < |before| - 1 ==> Step(before[i], before[i + 1]) by {
        forall i | 0 <= i < |before| - 1 ensures Step(before[i], before[i + 1]) {
          assert Step(run[i], run[i + 1]);
        }
      }
      RunKeepsInv(before);
      var s := run[|run| - 2];
      var act :| Enabled(s, act) && run[|run| - 1] == Next(s, act);
      StepKeepsInv(s, act);
    }
  }

  // ---------------------------------------------------------------- what callers rely on

  /** A step moves no other thread. */
  lemma OthersStay(s: State, act: Action, th: Thread)
    requires Typed(s) && Enabled(s, act) && th != act.th
    ensures PointOf(Next(s, act), th) == PointOf(s, th)
  {
  }

  /** At most one thread is between LockOrder(t) and the mu.Unlock of UnlockOrder(t). */
  lemma MutualExclusion(run: seq<State>, th1: Thread, th2: Thread)
    requires IsRun(run)
    requires Owns(PointOf(run[|run| - 1], th1)) && Owns(PointOf(run[|run| - 1], th2))
    requires PointOf(run[|run| - 1], th1).t == PointOf(run[|run| - 1], th2).t
    ensures th1 == th2
  {
    RunKeepsInv(run);
  }

  /** The unlocked Load in UnlockOrder finds the very mutex this thread locked, the unlock that
      follows hits a locked mutex (so it cannot panic), and the entry it later tests for
      deletion is still its own. */
  lemma UnlockFindsOwnMutex(run: seq<State>, th: Thread)
    requires IsRun(run)
    ensures Typed(run[|run| - 1])
    ensures var s := run[|run| - 1];
      && (PointOf(s, th).pc.Holding? ==>
            s.at[th].t in s.orders && s.orders[s.at[th].t] == s.at[th].a
            && PointOf(AdvanceThread(s, th), th) == Point(LeaveUnlock, s.at[th].t, s.at[th].a))
      && (PointOf(s, th).pc.LeaveUnlock? ==> s.heap[s.at[th].a].locked)
      && (PointOf(s, th).pc.LeaveTest? ==> s.at[th].t in s.orders && s.orders[s.at[th].t] == s.at[th].a)
  {
    RunKeepsInv(run);
  }

  /** Every mutex counts exactly the threads that are counted in on it, and outside a createLock
      section the map holds exactly the trade numbers that some thread is counted in on. */
  lemma MapHoldsCountedOrders(run: seq<State>)
    requires IsRun(run)
    ensures var s := run[|run| - 1];
      && (forall a :: 0 <= a < |s.heap| ==> s.heap[a].refCount == |Users(s.at, a)|)
      && (s.creator.None? ==> forall t :: t in s.orders <==>
            exists th :: th in s.at && CountedIn(s.at[th]) && s.at[th].t == t)
  {
    RunKeepsInv(run);
    var s := run[|run| - 1];
    if s.creator.None? {
      forall t | t in s.orders ensures exists th :: th in s.at && CountedIn(s.at[th]) && s.at[th].t == t {
        assert |Users(s.at, s.orders[t])| > 0;
        assert Users(s.at, s.orders[t]) != {};
        var th :| th in Users(s.at, s.orders[t]);
        assert s.at[th].t == t;
      }
    }
  }

  /** A thread waiting on a mutex waits on the one the map still holds, so everyone who comes
      for the same order meets it there. */
  lemma NoStrandedWaiter(run: seq<State>, th: Thread)
    requires IsRun(run) && PointOf(run[|run| - 1], th).pc.EnterBlock?
    ensures Typed(run[|run| - 1])
    ensures var s := run[|run| - 1];
      s.at[th].t in s.orders && s.orders[s.at[th].t] == s.at[th].a && s.heap[s.at[th].a].refCount > 0
  {
    RunKeepsInv(run);
    var s := run[|run| - 1];
    assert th in Users(s.at, s.at[th].a);
  }

  predicate AllIdle(s: State) {
    forall th :: th in s.at ==> s.at[th].pc.Idle?
  }

  /** When every thread is idle the map is empty: nothing leaks. */
  lemma IdleMeansEmpty(run: seq<State>)
    requires IsRun(run) && AllIdle(run[|run| - 1])
    ensures run[|run| - 1].orders == map[]
  {
    RunKeepsInv(run);
    var s := run[|run| - 1];
    assert forall a :: Users(s.at, a) == {};
    assert forall t :: t !in s.orders;
  }

  /** Deadlock freedom: while some thread is inside LockOrder, its caller's code or UnlockOrder,
      some such thread can take its next step. */
  lemma NoDeadlock(run: seq<State>, th: Thread) returns (mover: Thread)
    requires IsRun(run) && !PointOf(run[|run| - 1], th).pc.Idle?
    ensures Typed(run[|run| - 1]) && Enabled(run[|run| - 1], Advance(mover))
  {
    RunKeepsInv(run);
    var s := run[|run| - 1];
    if s.creator.Some? {
      mover := s.creator.value;
      assert InSection(s.at[mover]);
    } else if s.at[th].pc.EnterBlock? && s.heap[s.at[th].a].locked {
      mover :| mover in s.at && Owns(s.at[mover]) && s.at[mover].a == s.at[th].a;
    } else {
      mover := th;
    }
  }

  // ---------------------------------------------------------------- what the calls achieve

  /** A thread that finds its mutex free gets it: the very mutex and order it came for. */
  lemma BlockedThreadLocks(run: seq<State>, th: Thread)
    requires IsRun(run) && PointOf(run[|run| - 1], th).pc.EnterBlock?
    ensures var s := run[|run| - 1];
      Typed(s) && (!s.heap[s.at[th].a].locked ==>
        Enabled(s, Advance(th))
        && var s' := AdvanceThread(s, th);
           PointOf(s', th) == Point(Holding, s.at[th].t, s.at[th].a) && Owns(PointOf(s', th))
           && s'.heap == s.heap[s.at[th].a := Mutex(true, s.heap[s.at[th].a].refCount)])
  {
    RunKeepsInv(run);
  }

  predicate IsSchedule(s: State, acts: seq<Action>)
    decreases |acts|
  {
    |acts| == 0 || (Typed(s) && Enabled(s, acts[0]) && IsSchedule(Next(s, acts[0]), acts[1..]))
  }

  function After(s: State, acts: seq<Action>): State
    requires IsSchedule(s, acts)
    decreases |acts|
  {
    if |acts| == 0 then s else After(Next(s, acts[0]), acts[1..])
  }

  /** The trade number of th's latest call in a schedule, or `before` if it makes none. */
  function LatestCall(acts: seq<Action>, th: Thread, before: TradeNo): TradeNo
    decreases |acts|
  {
    if |acts| == 0 then before
    else LatestCall(acts[1..], th, if acts[0].Call? && acts[0].th == th then acts[0].t else before)
  }

  lemma StepKeepsTrade(s: State, act: Action, th: Thread)
    requires Typed(s) && Enabled(s, act) && !PointOf(Next(s, act), th).pc.Idle?
    ensures act == Advance(th) ==> !PointOf(s, th).pc.Idle?
    ensures PointOf(Next(s, act), th).t == if act.Call? && act.th == th then act.t else PointOf(s, th).t
  {
    if act.th != th {
      OthersStay(s, act, th);
    }
  }

  /** A thread works on the order it called LockOrder with, until it has returned from UnlockOrder.
      `before` is what it is working on when the schedule begins, if anything. */
  lemma {:induction false} WorksOnLatestCall(s: State, acts: seq<Action>, th: Thread, before: TradeNo)
    requires IsSchedule(s, acts) && (!PointOf(s, th).pc.Idle? ==> PointOf(s, th).t == before)
    ensures var p := PointOf(After(s, acts), th); !p.pc.Idle? ==> p.t == LatestCall(acts, th, before)
    decreases |acts|
  {
    if |acts| > 0 {
      var next := Next(s, acts[0]);
      if !PointOf(next, th).pc.Idle? {
        StepKeepsTrade(s, acts[0], th);
        if acts[0].th != th {
          OthersStay(s, acts[0], th);
        }
      }
      WorksOnLatestCall(next, acts[1..], th, if acts[0].Call? && acts[0].th == th then acts[0].t else before);
    }
  }

  /** s' is reached from s by n steps of thread th alone. */
  predicate Alone(s: State, th: Thread, n: nat, s': State)
    decreases n
  {
    if n == 0 then s' == s
    else Typed(s) && Enabled(s, Advance(th)) && Alone(AdvanceThread(s, th), th, n - 1, s')
  }

  lemma {:induction false} AloneJoins(s: State, th: Thread, m: nat, s1: State, n: nat, s2: State)
    requires Alone(s, th, m, s1) && Alone(s1, th, n, s2)
    ensures Alone(s, th, m + n, s2)
    decreases m
  {
    if m > 0 {
      AloneJoins(AdvanceThread(s, th), th, m - 1, s1, n, s2);
    }
  }

  /** The state in which th has counted itself in on t's mutex and locked it. */
  function Locked(s: State, th: Thread, t: TradeNo): State
    requires Typed(s)
  {
    if t in s.orders then
      var a := s.orders[t];
      State(None, s.orders, s.heap[a := Mutex(true, s.heap[a].refCount + 1)], s.at[th := Point(Holding, t, a)])
    else
      State(None, s.orders[t := |s.heap|], s.heap + [Mutex(true, 1)], s.at[th := Point(Holding, t, |s.heap|)])
  }

  lemma FindsEntry(s: State, th: Thread, t: TradeNo) returns (s': State)
    requires Typed(s) && s.creator.None? && PointOf(s, th) == Point(EnterWant, t, 0) && t in s.orders
    ensures Alone(s, th, 2, s') && Typed(s')
    ensures s' == State(Some(th), s.orders, s.heap, s.at[th := Point(EnterCount, t, s.orders[t])])
  {
    TypedKept(s, Advance(th));
    var s1 := AdvanceThread(s, th);
    TypedKept(s1, Advance(th));
    s' := AdvanceThread(s1, th);
    assert Alone(s1, th, 1, s');
  }

  lemma StoresEntry(s: State, th: Thread, t: TradeNo) returns (s': State)
    requires Typed(s) && s.creator.None? && PointOf(s, th) == Point(EnterWant, t, 0) && t !in s.orders
    ensures Alone(s, th, 3, s') && Typed(s')
    ensures s' == State(Some(th), s.orders[t := |s.heap|], s.heap + [Mutex(false, 0)],
                        s.at[th := Point(EnterCount, t, |s.heap|)])
  {
    TypedKept(s, Advance(th));
    var s1 := AdvanceThread(s, th);
    TypedKept(s1, Advance(th));
    var s2 := AdvanceThread(s1, th);
    TypedKept(s2, Advance(th));
    s' := AdvanceThread(s2, th);
    assert Alone(s2, th, 1, s') && Alone(s1, th, 2, s');
  }

  lemma CountsAndLocks(s: State, th: Thread, t: TradeNo, a: Address) returns (s': State)
    requires Typed(s) && PointOf(s, th) == Point(EnterCount, t, a) && !s.heap[a].locked
    ensures Alone(s, th, 3, s')
    ensures s' == State(None, s.orders, s.heap[a := Mutex(true, s.heap[a].refCount + 1)],
                        s.at[th := Point(Holding, t, a)])
  {
    TypedKept(s, Advance(th));
    var s1 := AdvanceThread(s, th);
    TypedKept(s1, Advance(th));
    var s2 := AdvanceThread(s1, th);
    s' := AdvanceThread(s2, th);
    assert Alone(s2, th, 1, s') && Alone(s1, th, 2, s');
  }

  lemma Overwrites(at: map<Thread, Point>, th: Thread, p: Point, q: Point, r: Point)
    ensures at[th := p][th := q][th := r] == at[th := r]
  {
  }

  lemma LocksOldEntry(s: State, th: Thread, t: TradeNo)
    requires Typed(s) && s.creator.None? && t in s.orders && !s.heap[s.orders[t]].locked
    ensures Alone(Goto(s, th, Point(EnterWant, t, 0)), th, 5, Locked(s, th, t))
  {
    var a := s.orders[t];
    var s0 := Goto(s, th, Point(EnterWant, t, 0));
    var s1 := FindsEntry(s0, th, t);
    var s' := CountsAndLocks(s1, th, t, a);
    Overwrites(s.at, th, Point(EnterWant, t, 0), Point(EnterCount, t, a), Point(Holding, t, a));
    AloneJoins(s0, th, 2, s1, 3, s');
  }

  lemma LocksNewEntry(s: State, th: Thread, t: TradeNo)
    requires Typed(s) && s.creator.None? && t !in s.orders
    ensures Alone(Goto(s, th, Point(EnterWant, t, 0)), th, 6, Locked(s, th, t))
  {
    var a := |s.heap|;
    var s0 := Goto(s, th, Point(EnterWant, t, 0));
    var s1 := StoresEntry(s0, th, t);
    var s' := CountsAndLocks(s1, th, t, a);
    Overwrites(s.at, th, Point(EnterWant, t, 0), Point(EnterCount, t, a), Point(Holding, t, a));
    assert s'.heap == s.heap + [Mutex(true, 1)];
    AloneJoins(s0, th, 3, s1, 3, s');
  }

  /** LockOrder: when createLock and the order's mutex, if there is one, are free, the caller alone
      gets through and holds the order. */
  lemma LockOrderLocks(s: State, th: Thread, t: TradeNo)
    requires Typed(s) && s.creator.None? && PointOf(s, th).pc.Idle?
    requires t in s.orders ==> !s.heap[s.orders[t]].locked
    ensures Enabled(s, Call(th, t))
    ensures Alone(Next(s, Call(th, t)), th, if t in s.orders then 5 else 6, Locked(s, th, t))
  {
    if t in s.orders {
      LocksOldEntry(s, th, t);
    } else {
      LocksNewEntry(s, th, t);
    }
  }

  /** The state in which th has unlocked its order, counted itself out and returned. */
  function Unlocked(s: State, th: Thread): State
    requires Typed(s) && PointOf(s, th).pc.Holding?
  {
    var p := s.at[th];
    var count := s.heap[p.a].refCount - 1;
    State(None, if count == 0 then s.orders - {p.t} else s.orders, s.heap[p.a := Mutex(false, count)],
          s.at[th := NOWHERE])
  }

  lemma Unlocks(s: State, th: Thread) returns (s': State)
    requires Typed(s) && MapOk(s) && PointOf(s, th).pc.Holding?
    ensures Alone(s, th, 2, s') && Typed(s')
    ensures var p := s.at[th];
      s' == State(s.creator, s.orders, s.heap[p.a := Mutex(false, s.heap[p.a].refCount)],
                  s.at[th := p.(pc := LeaveWant)])
  {
    TypedKept(s, Advance(th));
    var s1 := AdvanceThread(s, th);
    TypedKept(s1, Advance(th));
    s' := AdvanceThread(s1, th);
    assert Alone(s1, th, 1, s');
  }

  lemma CountsOut(s: State, th: Thread) returns (s': State)
    requires Typed(s) && s.creator.None? && PointOf(s, th).pc.LeaveWant?
    ensures Alone(s, th, 2, s') && Typed(s')
    ensures var p := s.at[th];
      s' == State(Some(th), s.orders, s.heap[p.a := Mutex(s.heap[p.a].locked, s.heap[p.a].refCount - 1)],
                  s.at[th := p.(pc := LeaveTest)])
  {
    TypedKept(s, Advance(th));
    var s1 := AdvanceThread(s, th);
    TypedKept(s1, Advance(th));
    s' := AdvanceThread(s1, th);
    assert Alone(s1, th, 1, s');
  }

  lemma Returns(s: State, th: Thread) returns (s': State)
    requires Typed(s) && PointOf(s, th).pc.LeaveTest?
    ensures Alone(s, th, 2, s')
    ensures var p := s.at[th];
      s' == State(None, if s.heap[p.a].refCount == 0 then s.orders - {p.t} else s.orders, s.heap, s.at[th := NOWHERE])
  {
    TypedKept(s, Advance(th));
    var s1 := AdvanceThread(s, th);
    s' := AdvanceThread(s1, th);
    assert Alone(s1, th, 1, s');
  }

  /** UnlockOrder: when createLock is free the holder alone gets through, having unlocked its mutex
      and deleted the entry if it was the last. */
  lemma UnlockOrderUnlocks(s: State, th: Thread)
    requires Typed(s) && MapOk(s) && s.creator.None? && PointOf(s, th).pc.Holding?
    ensures Alone(s, th, 6, Unlocked(s, th))
  {
    var s1 := Unlocks(s, th);
    var s2 := CountsOut(s1, th);
    var s' := Returns(s2, th);
    assert s'.at == Unlocked(s, th).at && s'.heap == Unlocked(s, th).heap;
    AloneJoins(s1, th, 2, s2, 2, s');
    AloneJoins(s, th, 2, s1, 4, s');
  }

  predicate CountedOn(s: State, t: TradeNo) {
    exists th :: th in s.at && CountedIn(s.at[th]) && s.at[th].t == t
  }

  lemma LockedKeepsMap(s: State, th: Thread, t: TradeNo)
    requires Typed(s) && MapOk(s) && s.creator.None? && CreatorOk(s) && t !in s.orders
    ensures Typed(Locked(s, th, t)) && MapOk(Locked(s, th, t))
  {
    var s' := Locked(s, th, t);
    forall x | x in s'.at && HasMutex(s'.at[x]) ensures s'.at[x].t in s'.orders && s'.orders[s'.at[x].t] == s'.at[x].a {
    }
    forall x | x in s'.at ensures !s'.at[x].pc.EnterStore? {
      assert x != th ==> !InSection(s.at[x]);
    }
  }

  lemma UnlockedIsAsBefore(s: State, th: Thread, t: TradeNo)
    requires Typed(s) && s.creator.None? && t !in s.orders
    requires Typed(Locked(s, th, t))
    ensures Unlocked(Locked(s, th, t), th)
      == State(None, s.orders, s.heap + [Mutex(false, 0)], s.at[th := NOWHERE])
  {
    var held := Locked(s, th, t);
    assert held.orders - {t} == s.orders;
    assert held.heap[|s.heap| := Mutex(false, 0)] == s.heap + [Mutex(false, 0)];
    assert held.at[th := NOWHERE] == s.at[th := NOWHERE];
  }

  /** In any run, when createLock is free and nobody is counted in on t: a call of LockOrder(t)
      alone ends with the order held and mapped to its locked mutex, and UnlockOrder(t) alone then
      ends with the thread idle and the map as it was. */
  lemma LockThenUnlock(run: seq<State>, th: Thread, t: TradeNo) returns (held: State, done: State)
    requires IsRun(run) && run[|run| - 1].creator.None? && PointOf(run[|run| - 1], th).pc.Idle?
    requires !CountedOn(run[|run| - 1], t)
    ensures var s := run[|run| - 1];
      Typed(s) && Enabled(s, Call(th, t)) && Alone(Next(s, Call(th, t)), th, 6, held)
    ensures PointOf(held, th).pc.Holding? && PointOf(held, th).t == t && t in held.orders
    ensures held.orders[t] == held.at[th].a < |held.heap| && held.heap[held.at[th].a].locked
    ensures Alone(held, th, 6, done) && PointOf(done, th).pc.Idle? && done.creator.None?
    ensures done.orders == run[|run| - 1].orders && t !in done.orders
  {
    RunKeepsInv(run);
    var s := run[|run| - 1];
    MapHoldsCountedOrders(run);
    assert t !in s.orders;
    LockOrderLocks(s, th, t);
    LockedKeepsMap(s, th, t);
    held := Locked(s, th, t);
    UnlockOrderUnlocks(held, th);
    UnlockedIsAsBefore(s, th, t);
    done := Unlocked(held, th);
  }
}
