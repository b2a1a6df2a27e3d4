/**
 The usage counters under concurrency. Creating and closing a storage each perform two separate
 atomic adds on global counters, and closing a disk storage stores zero over a counter that went
 negative. Any number of create and (repeated) close calls interleave between those single
 operations. The storage's own mutex is left out, which only allows more interleavings: the
 compare-and-swap on `closed` is what decides.
 */
module StorageAccounting {
  datatype Kind = Memory | Disk

  /** `counted` and `sized` record whether the storage's 1 and its size are in the counters;
      `creator` and `closer` are the calls that put them there and take them out. */
  datatype Storage = Storage(kind: Kind, size: nat, closed: bool, counted: bool, sized: bool,
                             creator: nat, closer: int)

  /** The next atomic operation of a call. */
  datatype Pc =
    | AddCount | AddBytes                                              // creating
    | TrySwap | SubCount | ClampCount | SubBytes | ClampBytes          // closing
    | Returned

  datatype Call = Call(storage: nat, pc: Pc)

  /** `clamps` counts how often a negative counter was overwritten with zero. */
  datatype State = State(storages: seq<Storage>, calls: seq<Call>,
                         diskFiles: int, diskBytes: int, memoryBuffers: int, memoryBytes: int, clamps: nat)

  datatype Event = Create(kind: Kind, size: nat) | Close(storage: nat) | Step(call: nat)

  function Init(): State {
    State([], [], 0, 0, 0, 0, 0)
  }

  const NOBODY := -1

  /** A storage can be closed once the call that creates it has returned it. */
  predicate Enabled(s: State, e: Event) {
    match e
    case Create(_, _) => true
    case Close(i) =>
      i < |s.storages| && s.storages[i].creator < |s.calls| && s.calls[s.storages[i].creator].pc.Returned?
    case Step(c) => c < |s.calls| && !s.calls[c].pc.Returned? && s.calls[c].storage < |s.storages|
  }

  function Moved(s: State, c: nat, pc: Pc, x: Storage): State
    requires c < |s.calls| && s.calls[c].storage < |s.storages|
  {
    s.(calls := s.calls[c := s.calls[c].(pc := pc)], storages := s.storages[s.calls[c].storage := x])
  }

  function StepCall(s: State, c: nat): State
    requires Enabled(s, Step(c))
  {
    var x := s.storages[s.calls[c].storage];
    match s.calls[c].pc
    case AddCount =>
      var s' := Moved(s, c, AddBytes, x.(counted := true));
      if x.kind.Disk? then s'.(diskFiles := s.diskFiles + 1) else s'.(memoryBuffers := s.memoryBuffers + 1)
    case AddBytes =>
      var s' := Moved(s, c, Returned, x.(sized := true));
      if x.kind.Disk? then s'.(diskBytes := s.diskBytes + x.size) else s'.(memoryBytes := s.memoryBytes + x.size)
    case TrySwap =>
      if x.closed then Moved(s, c, Returned, x) else Moved(s, c, SubCount, x.(closed := true, closer := c))
    case SubCount =>
      if x.kind.Disk? then
        Moved(s, c, if s.diskFiles - 1 < 0 then ClampCount else SubBytes, x.(counted := false))
          .(diskFiles := s.diskFiles - 1)
      else Moved(s, c, SubBytes, x.(counted := false)).(memoryBuffers := s.memoryBuffers - 1)
    case ClampCount => Moved(s, c, SubBytes, x).(diskFiles := 0, clamps := s.clamps + 1)
    case SubBytes =>
      if x.kind.Disk? then
        Moved(s, c, if s.diskBytes - x.size < 0 then ClampBytes else Returned, x.(sized := false))
          .(diskBytes := s.diskBytes - x.size)
      else Moved(s, c, Returned, x.(sized := false)).(memoryBytes := s.memoryBytes - x.size)
    case ClampBytes => Moved(s, c, Returned, x).(diskBytes := 0, clamps := s.clamps + 1)
    case Returned => assert false; s
  }

  function Next(s: State, e: Event): State
    requires Enabled(s, e)
  {
    match e
    case Create(kind, size) =>
      s.(storages := s.storages + [Storage(kind, size, false, false, false, |s.calls|, NOBODY)],
         calls := s.calls + [Call(|s.storages|, AddCount)])
    case Close(i) => s.(calls := s.calls + [Call(i, TrySwap)])
    case Step(c) => StepCall(s, c)
  }

  predicate IsSchedule(s: State, events: seq<Event>)
    decreases |events|
  {
    |events| == 0 || (Enabled(s, events[0]) && IsSchedule(Next(s, events[0]), events[1..]))
  }

  function After(s: State, events: seq<Event>): State
    requires IsSchedule(s, events)
    decreases |events|
  {
    if |events| == 0 then s else After(Next(s, events[0]), events[1..])
  }

  // ---------------------------------------------------------------- sums over storages

  /** What to add up: the ones or the sizes now in the counters, or those of open storages. */
  datatype Measure = CountIn(kind: Kind) | BytesIn(kind: Kind) | OpenOne(kind: Kind) | OpenSize(kind: Kind)

  function Weigh(x: Storage, m: Measure): nat {
    if x.kind != m.kind then 0
    else match m
      case CountIn(_) => if x.counted then 1 else 0
      case BytesIn(_) => if x.sized then x.size else 0
      case OpenOne(_) => if x.closed then 0 else 1
      case OpenSize(_) => if x.closed then 0 else x.size
  }

  function Tally(storages: seq<Storage>, m: Measure): nat {
    if |storages| == 0 then 0
    else Tally(storages[..|storages| - 1], m) + Weigh(storages[|storages| - 1], m)
  }

  lemma {:induction false} TallyUpdate(storages: seq<Storage>, i: nat, x: Storage, m: Measure)
    requires i < |storages|
    ensures Tally(storages[i := x], m) == Tally(storages, m) - Weigh(storages[i], m) + Weigh(x, m)
    ensures Tally(storages, m) >= Weigh(storages[i], m)
  {
    var n := |storages| - 1;
    if i < n {
      TallyUpdate(storages[..n], i, x, m);
      assert storages[i := x][..n] == storages[..n][i := x];
    } else {
      assert storages[i := x][..n] == storages[..n];
    }
  }

  lemma TallyAppend(storages: seq<Storage>, x: Storage, m: Measure)
    ensures Tally(storages + [x], m) == Tally(storages, m) + Weigh(x, m)
  {
    assert (storages + [x])[..|storages|] == storages;
  }

  lemma {:induction false} TallySame(storages: seq<Storage>, m: Measure, m': Measure)
    requires forall i :: 0 <= i < |storages| ==> Weigh(storages[i], m) == Weigh(storages[i], m')
    ensures Tally(storages, m) == Tally(storages, m')
  {
    if |storages| > 0 {
      TallySame(storages[..|storages| - 1], m, m');
    }
  }

  // ---------------------------------------------------------------- the inductive invariant

  /** The counter that should hold a tally. */
  function Counter(s: State, m: Measure): int {
    match m
    case CountIn(kind) => if kind.Disk? then s.diskFiles else s.memoryBuffers
    case BytesIn(kind) => if kind.Disk? then s.diskBytes else s.memoryBytes
    case _ => 0
  }

  predicate CounterOk(s: State, m: Measure) {
    Counter(s, m) == Tally(s.storages, m)
  }

  predicate CountersOk(s: State) {
    CounterOk(s, CountIn(Disk)) && CounterOk(s, BytesIn(Disk))
    && CounterOk(s, CountIn(Memory)) && CounterOk(s, BytesIn(Memory)) && s.clamps == 0
  }

  /** A call's progress agrees with the storage it works on, and it alone works on it that way. */
  predicate CallOk(s: State, c: nat)
    requires c < |s.calls|
  {
    var i := s.calls[c].storage;
    i < |s.storages|
    && var x := s.storages[i];
       match s.calls[c].pc
       case AddCount => x.creator == c && !x.counted && !x.sized && !x.closed
       case AddBytes => x.creator == c && x.counted && !x.sized && !x.closed
       case TrySwap => x.creator < |s.calls| && s.calls[x.creator].pc.Returned?
       case SubCount => x.closer == c && x.counted && x.sized && x.closed
       case SubBytes => x.closer == c && !x.counted && x.sized && x.closed
       case ClampCount => false
       case ClampBytes => false
       case Returned => true
  }

  predicate StorageOk(s: State, i: nat)
    requires i < |s.storages|
  {
    var x := s.storages[i];
    x.creator < |s.calls| && s.calls[x.creator].storage == i
    && (x.closed ==>
          0 <= x.closer < |s.calls| && s.calls[x.closer].storage == i && s.calls[x.creator].pc.Returned?
          && (s.calls[x.closer].pc.SubCount? || s.calls[x.closer].pc.SubBytes? || s.calls[x.closer].pc.Returned?))
    && (s.calls[x.creator].pc.Returned? && !x.closed ==> x.counted && x.sized)
    && (x.closed && s.calls[x.closer].pc.Returned? ==> !x.counted && !x.sized)
  }

  predicate Inv(s: State) {
    CountersOk(s)
    && (forall c :: 0 <= c < |s.calls| ==> CallOk(s, c))
    && (forall i :: 0 <= i < |s.storages| ==> StorageOk(s, i))
  }

  lemma StartKeepsInv(s: State, e: Event)
    requires Inv(s) && Enabled(s, e) && !e.Step?
    ensures Inv(Next(s, e))
  {
    var s' := Next(s, e);
    if e.Create? {
      var x := s'.storages[|s.storages|];
      TallyAppend(s.storages, x, CountIn(Disk));
      TallyAppend(s.storages, x, BytesIn(Disk));
      TallyAppend(s.storages, x, CountIn(Memory));
      TallyAppend(s.storages, x, BytesIn(Memory));
    }
    forall c | 0 <= c < |s'.calls| ensures CallOk(s', c) {
      assert c < |s.calls| ==> CallOk(s, c);
    }
    forall i | 0 <= i < |s'.storages| ensures StorageOk(s', i) {
      assert i < |s.storages| ==> StorageOk(s, i);
    }
  }

  /** A step of a creating call moves a counter by as much as its storage's weight. */
  lemma CreatingMoves(s: State, c: nat, m: Measure)
    requires Enabled(s, Step(c)) && CallOk(s, c) && (m.CountIn? || m.BytesIn?)
    requires s.calls[c].pc.AddCount? || s.calls[c].pc.AddBytes?
    ensures var i := s.calls[c].storage;
      Counter(StepCall(s, c), m) - Counter(s, m) == Weigh(StepCall(s, c).storages[i], m) - Weigh(s.storages[i], m)
  {
  }

  /** And so does a step of a closing call. */
  lemma ClosingMoves(s: State, c: nat, m: Measure)
    requires Enabled(s, Step(c)) && CallOk(s, c) && (m.CountIn? || m.BytesIn?)
    requires s.calls[c].pc.TrySwap? || s.calls[c].pc.SubCount? || s.calls[c].pc.SubBytes?
    ensures var i := s.calls[c].storage;
      Counter(StepCall(s, c), m) - Counter(s, m) == Weigh(StepCall(s, c).storages[i], m) - Weigh(s.storages[i], m)
  {
  }

  lemma OneStorageMoves(s: State, c: nat)
    requires Enabled(s, Step(c))
    ensures var i := s.calls[c].storage;
      |StepCall(s, c).storages| == |s.storages|
      && StepCall(s, c).storages == s.storages[i := StepCall(s, c).storages[i]]
  {
  }

  lemma CounterKept(s: State, c: nat, m: Measure)
    requires Enabled(s, Step(c)) && CallOk(s, c) && (m.CountIn? || m.BytesIn?) && CounterOk(s, m)
    ensures CounterOk(StepCall(s, c), m)
  {
    var i := s.calls[c].storage;
    OneStorageMoves(s, c);
    if s.calls[c].pc.AddCount? || s.calls[c].pc.AddBytes? {
      CreatingMoves(s, c, m);
    } else {
      ClosingMoves(s, c, m);
    }
    TallyUpdate(s.storages, i, StepCall(s, c).storages[i], m);
  }

  /** The clamps cannot fire: what a call is about to subtract is still in the sum. */
  lemma NoClamp(s: State, c: nat)
    requires Enabled(s, Step(c)) && CallOk(s, c) && CountersOk(s)
    ensures StepCall(s, c).clamps == 0
    ensures !StepCall(s, c).calls[c].pc.ClampCount? && !StepCall(s, c).calls[c].pc.ClampBytes?
  {
    var i := s.calls[c].storage;
    TallyUpdate(s.storages, i, s.storages[i], CountIn(Disk));
    TallyUpdate(s.storages, i, s.storages[i], BytesIn(Disk));
  }

  lemma CountersKept(s: State, c: nat)
    requires Enabled(s, Step(c)) && CallOk(s, c) && CountersOk(s)
    ensures CountersOk(StepCall(s, c))
    ensures !StepCall(s, c).calls[c].pc.ClampCount? && !StepCall(s, c).calls[c].pc.ClampBytes?
  {
    NoClamp(s, c);
    CounterKept(s, c, CountIn(Disk));
    CounterKept(s, c, BytesIn(Disk));
    CounterKept(s, c, CountIn(Memory));
    CounterKept(s, c, BytesIn(Memory));
  }

  /** At most one call at a time is past its check on a storage. */
  lemma OneWorker(s: State, c: nat, d: nat)
    requires Inv(s) && c < |s.calls| && d < |s.calls| && c != d
    requires s.calls[c].storage == s.calls[d].storage < |s.storages|
    requires !s.calls[c].pc.Returned? && !s.calls[c].pc.TrySwap?
    ensures s.calls[d].pc.Returned? || (s.calls[d].pc.TrySwap? && s.storages[s.calls[c].storage].closed)
  {
    assert CallOk(s, c) && CallOk(s, d);
    assert StorageOk(s, s.calls[c].storage);
  }

  lemma OwnCallKept(s: State, c: nat)
    requires Inv(s) && Enabled(s, Step(c))
    requires !StepCall(s, c).calls[c].pc.ClampCount? && !StepCall(s, c).calls[c].pc.ClampBytes?
    ensures CallOk(StepCall(s, c), c)
  {
    assert CallOk(s, c) && StorageOk(s, s.calls[c].storage);
  }

  lemma OtherCallKept(s: State, c: nat, d: nat)
    requires Inv(s) && Enabled(s, Step(c)) && d < |s.calls| && c != d
    ensures CallOk(StepCall(s, c), d)
  {
    assert CallOk(s, c) && CallOk(s, d) && StorageOk(s, s.calls[d].storage);
    if s.calls[c].storage == s.calls[d].storage && !s.calls[c].pc.TrySwap? {
      OneWorker(s, c, d);
    }
  }

  lemma StorageKept(s: State, c: nat, i: nat)
    requires Inv(s) && Enabled(s, Step(c)) && i < |s.storages|
    requires !StepCall(s, c).calls[c].pc.ClampCount? && !StepCall(s, c).calls[c].pc.ClampBytes?
    ensures StorageOk(StepCall(s, c), i)
  {
    assert CallOk(s, c) && StorageOk(s, i);
    assert StorageOk(s, s.calls[c].storage);
  }

  lemma StepKeepsInv(s: State, e: Event)
    requires Inv(s) && Enabled(s, e)
    ensures Inv(Next(s, e))
  {
    if e.Step? {
      assert CallOk(s, e.call);
      CountersKept(s, e.call);
      OwnCallKept(s, e.call);
      forall d | 0 <= d < |s.calls| && d != e.call {
        OtherCallKept(s, e.call, d);
      }
      forall i | 0 <= i < |s.storages| {
        StorageKept(s, e.call, i);
      }
    } else {
      StartKeepsInv(s, e);
    }
  }

  lemma {:induction false} ScheduleKeepsInv(s: State, events: seq<Event>)
    requires Inv(s) && IsSchedule(s, events)
    ensures Inv(After(s, events))
    decreases |events|
  {
    if |events| > 0 {
      StepKeepsInv(s, events[0]);
      ScheduleKeepsInv(Next(s, events[0]), events[1..]);
    }
  }

  // ---------------------------------------------------------------- what the calls achieve

  /** s' is reached from s by n steps of call c alone. */
  predicate Alone(s: State, c: nat, n: nat, s': State)
    decreases n
  {
    if n == 0 then s' == s else Enabled(s, Step(c)) && Alone(StepCall(s, c), c, n - 1, s')
  }

  function Sum(s: State, kind: Kind): (int, int) {
    (Counter(s, CountIn(kind)), Counter(s, BytesIn(kind)))
  }

  /** Creating a storage counts its one and its size, in two steps. */
  lemma CreateCounts(s: State, kind: Kind, size: nat) returns (s': State)
    ensures Alone(Next(s, Create(kind, size)), |s.calls|, 2, s')
    ensures s'.calls == s.calls + [Call(|s.storages|, Returned)]
    ensures s'.storages == s.storages + [Storage(kind, size, false, true, true, |s.calls|, NOBODY)]
    ensures Sum(s', kind) == (Sum(s, kind).0 + 1, Sum(s, kind).1 + size)
    ensures forall other :: other != kind ==> Sum(s', other) == Sum(s, other)
  {
    var c := |s.calls|;
    var s0 := Next(s, Create(kind, size));
    var s1 := StepCall(s0, c);
    s' := StepCall(s1, c);
    assert Alone(s1, c, 1, s');
  }

  /** Closing an open storage closes it and takes its one and its size out again, in three steps. */
  lemma CloseReleases(s: State, i: nat) returns (s': State)
    requires Inv(s) && Enabled(s, Close(i)) && !s.storages[i].closed
    ensures Alone(Next(s, Close(i)), |s.calls|, 3, s')
    ensures s'.calls == s.calls + [Call(i, Returned)] && |s'.storages| == |s.storages| && s'.storages[i].closed
    ensures forall j :: 0 <= j < |s.storages| && j != i ==> s'.storages[j] == s.storages[j]
    ensures var x := s.storages[i];
      && Sum(s', x.kind) == (Sum(s, x.kind).0 - 1, Sum(s, x.kind).1 - x.size)
      && forall other :: other != x.kind ==> Sum(s', other) == Sum(s, other)
  {
    var c := |s.calls|;
    var s0 := Next(s, Close(i));
    StepKeepsInv(s, Close(i));
    var s1 := StepCall(s0, c);
    StepKeepsInv(s0, Step(c));
    var s2 := StepCall(s1, c);
    assert CallOk(s1, c);
    NoClamp(s1, c);
    StepKeepsInv(s1, Step(c));
    assert CallOk(s2, c);
    NoClamp(s2, c);
    s' := StepCall(s2, c);
    assert Alone(s2, c, 1, s') && Alone(s1, c, 2, s');
  }

  /** A call that finished is the one that created its storage, or leaves it closed. */
  predicate ReturnedOk(s: State) {
    forall c :: 0 <= c < |s.calls| && s.calls[c].pc.Returned? && s.calls[c].storage < |s.storages| ==>
      s.storages[s.calls[c].storage].creator == c || s.storages[s.calls[c].storage].closed
  }

  lemma StepKeepsReturned(s: State, e: Event)
    requires Inv(s) && ReturnedOk(s) && Enabled(s, e)
    ensures ReturnedOk(Next(s, e))
  {
    var s' := Next(s, e);
    forall c | 0 <= c < |s'.calls| && s'.calls[c].pc.Returned? && s'.calls[c].storage < |s'.storages|
      ensures s'.storages[s'.calls[c].storage].creator == c || s'.storages[s'.calls[c].storage].closed
    {
      assert c < |s.calls| && CallOk(s, c);
    }
  }

  lemma {:induction false} ScheduleKeepsReturned(s: State, events: seq<Event>)
    requires Inv(s) && ReturnedOk(s) && IsSchedule(s, events)
    ensures ReturnedOk(After(s, events))
    decreases |events|
  {
    if |events| > 0 {
      StepKeepsInv(s, events[0]);
      StepKeepsReturned(s, events[0]);
      ScheduleKeepsReturned(Next(s, events[0]), events[1..]);
    }
  }

  // ---------------------------------------------------------------- theorems over all schedules

  /** In every interleaving a storage is closed once any Close of it has returned. */
  lemma CloseCloses(events: seq<Event>, c: nat)
    requires IsSchedule(Init(), events)
    ensures var s := After(Init(), events);
      c < |s.calls| && s.calls[c].pc.Returned? ==>
        s.calls[c].storage < |s.storages|
        && var x := s.storages[s.calls[c].storage];
           x.creator == c || x.closed
  {
    ScheduleKeepsInv(Init(), events);
    ScheduleKeepsReturned(Init(), events);
    var s := After(Init(), events);
    assert c < |s.calls| ==> CallOk(s, c);
  }

  /** In every interleaving no counter is ever clamped, and none is ever negative. */
  lemma ClampNeverFires(events: seq<Event>)
    requires IsSchedule(Init(), events)
    ensures After(Init(), events).clamps == 0
    ensures After(Init(), events).diskFiles >= 0 && After(Init(), events).diskBytes >= 0
    ensures After(Init(), events).memoryBuffers >= 0 && After(Init(), events).memoryBytes >= 0
  {
    ScheduleKeepsInv(Init(), events);
  }

  predicate Quiet(s: State) {
    forall c :: 0 <= c < |s.calls| ==> s.calls[c].pc.Returned?
  }

  /** When no call is in progress the counters are exactly the number and the total size of the
      open storages of each kind, however often each was closed. */
  lemma QuietMeansExact(events: seq<Event>, kind: Kind)
    requires IsSchedule(Init(), events) && Quiet(After(Init(), events))
    ensures var s := After(Init(), events);
      && Counter(s, CountIn(kind)) == Tally(s.storages, OpenOne(kind))
      && Counter(s, BytesIn(kind)) == Tally(s.storages, OpenSize(kind))
  {
    ScheduleKeepsInv(Init(), events);
    var s := After(Init(), events);
    forall i | 0 <= i < |s.storages|
      ensures s.storages[i].counted == s.storages[i].sized == !s.storages[i].closed
    {
      assert StorageOk(s, i);
    }
    TallySame(s.storages, CountIn(kind), OpenOne(kind));
    TallySame(s.storages, BytesIn(kind), OpenSize(kind));
  }
}
