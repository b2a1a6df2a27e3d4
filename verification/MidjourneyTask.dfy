/**
 Refunding failed Midjourney tasks. Any number of pollers load unfinished rows, ask upstream, and
 work through the items of the response. Each item changes the poller's own copy of the row first
 and then writes the whole copy back, guarded by a compare-and-set on the status the copy had
 before; the winner of a failing write refunds the quota in a later step. A poller keeps its
 changed copy, so a further item for the same task works on that, whether or not the write won.
 */
module MidjourneyTask {
  type TaskId = nat
  type User = nat
  type Poller = nat

  const FAILURE := "FAILURE"
  const FULL := "100%"

  datatype Row = Row(user: User, quota: int, code: int, status: string, progress: string, failReason: string)

  datatype Report = Report(status: string, progress: string, failReason: string)

  /** Loaded and not yet touched by an item; about to refund; or touched by an item. */
  datatype Pc = Loaded | Refunding | Seen

  /** What a poller is doing, on which task, with its copy of the row. */
  datatype Activity = Activity(pc: Pc, task: TaskId, row: Row)

  /** `refunds` lists the tasks refunded so far, in order. */
  datatype World = World(rows: map<TaskId, Row>, pollers: map<Poller, Activity>,
                         gained: map<User, int>, refunds: seq<TaskId>)

  /** One item of a response. `late` means more than an hour since the task was submitted, `moved`
      a difference in the remaining fields that checkMjTaskNeedUpdate compares, and `stored` that
      the update reached the row: it is false when the call fails, and also where the database
      counts changed rows only and the copy equals the row. */
  datatype Item = Item(report: Report, late: bool, moved: bool, stored: bool)

  /** `Again` is a further item for the task that the poller has already worked on. */
  datatype Event =
    | Load(p: Poller, task: TaskId)   // GetAllUnFinishTasks
    | Write(p: Poller, item: Item)    // UpdateWithStatus
    | Again(p: Poller, item: Item)
    | Refund(p: Poller, ok: bool)     // IncreaseUserQuota
    | BulkFail(task: TaskId)          // MjBulkUpdate, no guard

  /** After an hour an unfinished task counts as failed, whatever upstream says. */
  function Effective(row: Row, item: Item): Report {
    if item.late && row.progress != FULL then item.report.(status := FAILURE, failReason := "timeout") else item.report
  }

  predicate NeedUpdate(row: Row, report: Report, moved: bool) {
    row.code != 1 || row.progress != report.progress || row.status != report.status
    || row.failReason != report.failReason || (row.progress != FULL && report.failReason != "") || moved
  }

  predicate ShouldReturn(report: Report) {
    (report.progress != FULL && report.failReason != "") || (report.progress == FULL && report.status == FAILURE)
  }

  function Written(row: Row, report: Report): Row {
    Row(row.user, row.quota, 1, report.status, if ShouldReturn(report) then FULL else report.progress,
        report.failReason)
  }

  predicate Enabled(w: World, e: Event) {
    match e
    case Load(p, task) =>
      (p in w.pollers ==> !w.pollers[p].pc.Refunding?) && task in w.rows && w.rows[task].progress != FULL
    case Write(p, _) => p in w.pollers && w.pollers[p].pc.Loaded? && w.pollers[p].task in w.rows
    case Again(p, _) => p in w.pollers && w.pollers[p].pc.Seen? && w.pollers[p].task in w.rows
    case Refund(p, _) => p in w.pollers && w.pollers[p].pc.Refunding?
    case BulkFail(task) => task in w.rows
  }

  function Gained(w: World, u: User): int {
    if u in w.gained then w.gained[u] else 0
  }

  /** One item: the copy changes in any case, the row only if the compare-and-set wins. */
  function Process(w: World, p: Poller, item: Item): World
    requires p in w.pollers && w.pollers[p].task in w.rows
  {
    var a := w.pollers[p];
    var r := Effective(a.row, item);
    if !NeedUpdate(a.row, r, item.moved) then w.(pollers := w.pollers[p := a.(pc := Seen)])
    else
      var copy := Written(a.row, r);
      if item.stored && w.rows[a.task].status == a.row.status then
        var pc := if ShouldReturn(r) && a.row.quota != 0 then Refunding else Seen;
        w.(rows := w.rows[a.task := copy], pollers := w.pollers[p := Activity(pc, a.task, copy)])
      else w.(pollers := w.pollers[p := Activity(Seen, a.task, copy)])
  }

  function Next(w: World, e: Event): World
    requires Enabled(w, e)
  {
    match e
    case Load(p, task) => w.(pollers := w.pollers[p := Activity(Loaded, task, w.rows[task])])
    case Write(p, item) => Process(w, p, item)
    case Again(p, item) => Process(w, p, item)
    case Refund(p, ok) =>
      var a := w.pollers[p];
      var w' := w.(pollers := w.pollers[p := a.(pc := Seen)]);
      if !ok || a.row.quota < 0 then w'
      else w'.(gained := w.gained[a.row.user := Gained(w, a.row.user) + a.row.quota], refunds := w.refunds + [a.task])
    case BulkFail(task) => w.(rows := w.rows[task := w.rows[task].(status := FAILURE, progress := FULL)])
  }

  predicate IsSchedule(w: World, events: seq<Event>)
    decreases |events|
  {
    |events| == 0 || (Enabled(w, events[0]) && IsSchedule(Next(w, events[0]), events[1..]))
  }

  function After(w: World, events: seq<Event>): World
    requires IsSchedule(w, events)
    decreases |events|
  {
    if |events| == 0 then w else After(Next(w, events[0]), events[1..])
  }

  // ---------------------------------------------------------------- what upstream must promise

  /** Below 100% a report gives a fail reason exactly when it reports a failure. */
  predicate Sane(report: Report) {
    report.progress == FULL || (report.failReason != "" <==> report.status == FAILURE)
  }

  predicate AllSane(events: seq<Event>) {
    forall i :: 0 <= i < |events| && (events[i].Write? || events[i].Again?) ==> Sane(events[i].item.report)
  }

  /** No response lists a task twice. */
  predicate ListsOnce(events: seq<Event>) {
    forall i :: 0 <= i < |events| ==> !events[i].Again?
  }

  /** Exactly for such reports, the code refunds the failures and nothing else. */
  lemma RefundsExactlyFailures(report: Report)
    ensures (ShouldReturn(report) <==> report.status == FAILURE) <==> Sane(report)
  {
  }

  function Start(rows: map<TaskId, Row>): World {
    World(rows, map[], map[], [])
  }

  /** Failed rows are finished rows. */
  predicate RowsOk(rows: map<TaskId, Row>) {
    forall t :: t in rows && rows[t].status == FAILURE ==> rows[t].progress == FULL
  }

  // ---------------------------------------------------------------- the inductive invariant

  predicate Distinct(s: seq<TaskId>) {
    forall i, j :: 0 <= i < j < |s| ==> s[i] != s[j]
  }

  predicate SameCharge(a: Row, b: Row) {
    a.user == b.user && a.quota == b.quota
  }

  predicate PollerOk(w: World, p: Poller)
    requires p in w.pollers
  {
    var a := w.pollers[p];
    (a.pc.Loaded? ==> a.task in w.rows && SameCharge(a.row, w.rows[a.task]) && a.row.status != FAILURE)
    && (a.pc.Refunding? ==>
          a.task in w.rows && SameCharge(a.row, w.rows[a.task]) && w.rows[a.task].status == FAILURE
          && a.task !in w.refunds)
  }

  predicate Alone(w: World) {
    forall p, q ::
      p in w.pollers && q in w.pollers && w.pollers[p].pc.Refunding? && w.pollers[q].pc.Refunding?
      && w.pollers[p].task == w.pollers[q].task
      ==> p == q
  }

  predicate RefundsOk(w: World) {
    Distinct(w.refunds) && forall t :: t in w.refunds ==> t in w.rows && w.rows[t].status == FAILURE
  }

  predicate Inv(w: World) {
    RowsOk(w.rows) && (forall p :: p in w.pollers ==> PollerOk(w, p)) && Alone(w) && RefundsOk(w)
  }

  /** The charges of the refunded tasks of user u. */
  function Refunded(rows: map<TaskId, Row>, refunds: seq<TaskId>, u: User): int {
    if |refunds| == 0 then 0
    else
      var t := refunds[|refunds| - 1];
      Refunded(rows, refunds[..|refunds| - 1], u) + if t in rows && rows[t].user == u then rows[t].quota else 0
  }

  predicate SameCharges(rows: map<TaskId, Row>, rows': map<TaskId, Row>) {
    rows.Keys == rows'.Keys && forall t :: t in rows ==> SameCharge(rows[t], rows'[t])
  }

  lemma {:induction false} RefundedSame(rows: map<TaskId, Row>, rows': map<TaskId, Row>, refunds: seq<TaskId>, u: User)
    requires SameCharges(rows, rows')
    ensures Refunded(rows, refunds, u) == Refunded(rows', refunds, u)
  {
    if |refunds| > 0 {
      RefundedSame(rows, rows', refunds[..|refunds| - 1], u);
    }
  }

  /** A winning write starts from a row that has not failed, so nobody is refunding that task. */
  lemma WriteKeepsInv(w: World, e: Event)
    requires Inv(w) && Enabled(w, e) && e.Write? && Sane(e.item.report)
    ensures Inv(Next(w, e)) && SameCharges(w.rows, Next(w, e).rows)
  {
    var w' := Next(w, e);
    assert PollerOk(w, e.p);
    RefundsExactlyFailures(Effective(w.pollers[e.p].row, e.item));
    forall p | p in w'.pollers ensures PollerOk(w', p) {
      assert p != e.p ==> PollerOk(w, p);
    }
  }

  lemma RefundKeepsInv(w: World, e: Event)
    requires Inv(w) && Enabled(w, e) && e.Refund?
    ensures Inv(Next(w, e))
  {
    var w' := Next(w, e);
    assert PollerOk(w, e.p);
    forall p | p in w'.pollers ensures PollerOk(w', p) {
      assert p != e.p ==> PollerOk(w, p);
    }
  }

  lemma OthersKeepInv(w: World, e: Event)
    requires Inv(w) && Enabled(w, e) && (e.Load? || e.BulkFail?)
    ensures Inv(Next(w, e)) && SameCharges(w.rows, Next(w, e).rows)
  {
    var w' := Next(w, e);
    forall p | p in w'.pollers ensures PollerOk(w', p) {
      assert p in w.pollers ==> PollerOk(w, p);
    }
  }

  lemma GainsKept(w: World, e: Event, u: User)
    requires Inv(w) && Enabled(w, e) && SameCharges(w.rows, Next(w, e).rows)
    requires Gained(w, u) == Refunded(w.rows, w.refunds, u)
    ensures Gained(Next(w, e), u) == Refunded(Next(w, e).rows, Next(w, e).refunds, u)
  {
    var w' := Next(w, e);
    RefundedSame(w.rows, w'.rows, w.refunds, u);
    if w'.refunds != w.refunds {
      assert PollerOk(w, e.p);
      assert w'.refunds[..|w.refunds|] == w.refunds;
    }
  }

  lemma StepKeepsInv(w: World, e: Event)
    requires Inv(w) && Enabled(w, e) && !e.Again? && (e.Write? ==> Sane(e.item.report))
    ensures Inv(Next(w, e)) && SameCharges(w.rows, Next(w, e).rows)
  {
    if e.Write? {
      WriteKeepsInv(w, e);
    } else if e.Refund? {
      RefundKeepsInv(w, e);
    } else {
      OthersKeepInv(w, e);
    }
  }

  lemma {:induction false} ScheduleKeepsInv(w: World, events: seq<Event>, u: User)
    requires Inv(w) && IsSchedule(w, events) && AllSane(events) && ListsOnce(events)
    requires Gained(w, u) == Refunded(w.rows, w.refunds, u)
    ensures Inv(After(w, events)) && SameCharges(w.rows, After(w, events).rows)
    ensures Gained(After(w, events), u) == Refunded(After(w, events).rows, After(w, events).refunds, u)
    decreases |events|
  {
    if |events| > 0 {
      StepKeepsInv(w, events[0]);
      GainsKept(w, events[0], u);
      ScheduleKeepsInv(Next(w, events[0]), events[1..], u);
    }
  }

  // ---------------------------------------------------------------- theorems over all schedules

  /** With any number of pollers on stale snapshots, each task is refunded at most once, only after
      its row failed, and a user gains exactly the charges of that user's refunded tasks. */
  lemma RefundedAtMostOnce(rows: map<TaskId, Row>, events: seq<Event>, u: User)
    requires RowsOk(rows) && IsSchedule(Start(rows), events) && AllSane(events) && ListsOnce(events)
    ensures var w := After(Start(rows), events);
      && Distinct(w.refunds) && (forall t :: t in w.refunds ==> t in w.rows && w.rows[t].status == FAILURE)
      && Gained(w, u) == Refunded(rows, w.refunds, u)
  {
    ScheduleKeepsInv(Start(rows), events, u);
    var w := After(Start(rows), events);
    RefundedSame(rows, w.rows, w.refunds, u);
  }

  // ---------------------------------------------------------------- no refund is forgotten

  /** Some poller is about to refund t. */
  ghost predicate BeingRefunded(w: World, t: TaskId) {
    exists p :: p in w.pollers && w.pollers[p].pc.Refunding? && w.pollers[p].task == t
  }

  /** Some refund of t fails in the schedule. */
  predicate RefundFails(w: World, events: seq<Event>, t: TaskId)
    requires IsSchedule(w, events)
    decreases |events|
  {
    |events| > 0
    && ((events[0].Refund? && !events[0].ok && w.pollers[events[0].p].task == t)
        || RefundFails(Next(w, events[0]), events[1..], t))
  }

  predicate NoBulkFail(events: seq<Event>, t: TaskId) {
    forall i :: 0 <= i < |events| ==> events[i] != BulkFail(t)
  }

  /** A refund that is due stays due until it is paid or fails. */
  lemma DueStays(w: World, e: Event, t: TaskId)
    requires Inv(w) && Enabled(w, e) && t in w.rows && w.rows[t].quota > 0
    requires t in w.refunds || BeingRefunded(w, t)
    ensures t in Next(w, e).refunds || BeingRefunded(Next(w, e), t)
      || (e.Refund? && !e.ok && w.pollers[e.p].task == t)
  {
    if t in w.refunds {
      assert w.refunds <= Next(w, e).refunds;
    } else {
      var p :| p in w.pollers && w.pollers[p].pc.Refunding? && w.pollers[p].task == t;
      assert PollerOk(w, p);
      if e.Refund? && e.p == p {
        assert e.ok ==> Next(w, e).refunds[|w.refunds|] == t;
      } else {
        assert p in Next(w, e).pollers && Next(w, e).pollers[p] == w.pollers[p];
      }
    }
  }

  /** Whatever turns a row to FAILURE, other than a bulk failure, leaves its refund due. */
  lemma FailureIsDue(w: World, e: Event, t: TaskId)
    requires Inv(w) && Enabled(w, e) && !e.Again? && (e.Write? ==> Sane(e.item.report)) && e != BulkFail(t)
    requires t in w.rows && w.rows[t].status != FAILURE && w.rows[t].quota > 0
    requires Next(w, e).rows[t].status == FAILURE
    ensures BeingRefunded(Next(w, e), t)
  {
    assert PollerOk(w, e.p);
    RefundsExactlyFailures(Effective(w.pollers[e.p].row, e.item));
    var a := Next(w, e).pollers[e.p];
    assert a.pc.Refunding? && a.task == t;
  }

  lemma {:induction false} DueUntilSettled(w: World, events: seq<Event>, t: TaskId)
    requires Inv(w) && IsSchedule(w, events) && AllSane(events) && ListsOnce(events)
    requires t in w.rows && w.rows[t].quota > 0 && (t in w.refunds || BeingRefunded(w, t))
    ensures var w' := After(w, events); t in w'.refunds || BeingRefunded(w', t) || RefundFails(w, events, t)
    decreases |events|
  {
    if |events| > 0 {
      DueStays(w, events[0], t);
      StepKeepsInv(w, events[0]);
      if !(events[0].Refund? && !events[0].ok && w.pollers[events[0].p].task == t) {
        DueUntilSettled(Next(w, events[0]), events[1..], t);
      }
    }
  }

  lemma {:induction false} FailureIsDueLater(w: World, events: seq<Event>, t: TaskId)
    requires Inv(w) && IsSchedule(w, events) && AllSane(events) && ListsOnce(events) && NoBulkFail(events, t)
    requires t in w.rows && w.rows[t].status != FAILURE && w.rows[t].quota > 0
    ensures SameCharges(w.rows, After(w, events).rows)
    ensures var w' := After(w, events);
      w'.rows[t].status == FAILURE ==> t in w'.refunds || BeingRefunded(w', t) || RefundFails(w, events, t)
    decreases |events|
  {
    if |events| > 0 {
      var next := Next(w, events[0]);
      StepKeepsInv(w, events[0]);
      ScheduleKeepsCharges(next, events[1..]);
      if next.rows[t].status != FAILURE {
        FailureIsDueLater(next, events[1..], t);
      } else {
        FailureIsDue(w, events[0], t);
        DueUntilSettled(next, events[1..], t);
      }
    }
  }

  lemma {:induction false} ScheduleKeepsCharges(w: World, events: seq<Event>)
    requires Inv(w) && IsSchedule(w, events) && AllSane(events) && ListsOnce(events)
    ensures Inv(After(w, events)) && SameCharges(w.rows, After(w, events).rows)
    decreases |events|
  {
    if |events| > 0 {
      StepKeepsInv(w, events[0]);
      ScheduleKeepsCharges(Next(w, events[0]), events[1..]);
    }
  }

  /** Only a winning write makes a refund, and only of a row that had not failed. */
  lemma RefundNeedsFailure(w: World, e: Event, t: TaskId)
    requires Inv(w) && Enabled(w, e) && !e.Again? && (e.Write? ==> Sane(e.item.report))
    requires (t in w.refunds || BeingRefunded(w, t)) ==> t in w.rows && w.rows[t].status == FAILURE
    requires t in Next(w, e).refunds || BeingRefunded(Next(w, e), t)
    ensures t in w.refunds || BeingRefunded(w, t)
      || (t in w.rows && w.rows[t].status != FAILURE && w.rows[t].quota != 0)
  {
    var w' := Next(w, e);
    if t in w'.refunds && t !in w.refunds {
      assert PollerOk(w, e.p) && w.pollers[e.p].task == t;
    } else if t !in w'.refunds {
      var p :| p in w'.pollers && w'.pollers[p].pc.Refunding? && w'.pollers[p].task == t;
      if e.Write? && p == e.p {
        assert PollerOk(w, p);
      } else {
        assert p in w.pollers && w.pollers[p] == w'.pollers[p];
      }
    }
  }

  /** A task that had failed before the schedule, with no refund under way, is not refunded in it, nor
      is one without a charge. */
  lemma {:induction false} NothingToRefund(w: World, events: seq<Event>, t: TaskId)
    requires Inv(w) && IsSchedule(w, events) && AllSane(events) && ListsOnce(events)
    requires t in w.rows && (w.rows[t].status == FAILURE || w.rows[t].quota == 0)
    requires t !in w.refunds && !BeingRefunded(w, t)
    ensures t !in After(w, events).refunds
    decreases |events|
  {
    if |events| > 0 {
      var next := Next(w, events[0]);
      StepKeepsInv(w, events[0]);
      if t in next.refunds || BeingRefunded(next, t) {
        RefundNeedsFailure(w, events[0], t);
        assert false;
      }
      if w.rows[t].status == FAILURE {
        FailedStaysFailed(w, events[0], t);
      }
      NothingToRefund(next, events[1..], t);
    }
  }

  lemma FailedStaysFailed(w: World, e: Event, t: TaskId)
    requires Inv(w) && Enabled(w, e) && !e.Again? && t in w.rows && w.rows[t].status == FAILURE
    ensures Next(w, e).rows[t].status == FAILURE
  {
    if e.Write? {
      assert PollerOk(w, e.p);
    }
  }

  /** Completeness beside at-most-once. On a schedule of sane reports in which no response lists a task
      twice: a task with a positive charge that had not failed at first and was not failed in bulk
      is, once its row says FAILURE, refunded, being refunded, or had its refund fail. */
  lemma FailuresAreRefunded(rows: map<TaskId, Row>, events: seq<Event>, t: TaskId)
    requires RowsOk(rows) && IsSchedule(Start(rows), events) && AllSane(events) && ListsOnce(events)
    requires t in rows && rows[t].status != FAILURE && rows[t].quota > 0 && NoBulkFail(events, t)
    ensures var w := After(Start(rows), events);
      t in w.rows && (w.rows[t].status == FAILURE ==>
        t in w.refunds || BeingRefunded(w, t) || RefundFails(Start(rows), events, t))
  {
    FailureIsDueLater(Start(rows), events, t);
  }

  /** So once no refund is under way and none failed, the refunded tasks are exactly those that had a
      charge, had not failed at first, and have failed now, apart from tasks failed in bulk. */
  lemma RefundsAreExactlyFailures(rows: map<TaskId, Row>, events: seq<Event>, t: TaskId)
    requires RowsOk(rows) && IsSchedule(Start(rows), events) && AllSane(events) && ListsOnce(events)
    requires t in rows && rows[t].quota >= 0 && NoBulkFail(events, t)
    requires !BeingRefunded(After(Start(rows), events), t) && !RefundFails(Start(rows), events, t)
    ensures var w := After(Start(rows), events);
      t in w.rows
      && (t in w.refunds <==> rows[t].quota > 0 && rows[t].status != FAILURE && w.rows[t].status == FAILURE)
  {
    RefundedAtMostOnce(rows, events, 0);
    ScheduleKeepsCharges(Start(rows), events);
    if rows[t].quota > 0 && rows[t].status != FAILURE {
      FailuresAreRefunded(rows, events, t);
    } else {
      NothingToRefund(Start(rows), events, t);
    }
  }

  /** One failure from end to end: a poller whose copy is current gets a report of failure, below 100%
      with its reason or at 100%. The row is stored as failed and finished and, unless the task was
      free, its user is paid back its charge. */
  lemma FailureIsPaidBack(w: World, p: Poller, item: Item)
    requires p in w.pollers && w.pollers[p].pc.Loaded? && w.pollers[p].task in w.rows
    requires var a := w.pollers[p];
      w.rows[a.task] == a.row && a.row.progress != FULL && a.row.quota > 0
    requires item.stored
    requires item.late
      || (item.report.status == FAILURE && (item.report.progress == FULL || item.report.failReason != ""))
    ensures var a := w.pollers[p];
      var reason := if item.late then "timeout" else item.report.failReason;
      var failed := Row(a.row.user, a.row.quota, 1, FAILURE, FULL, reason);
      && Enabled(w, Write(p, item)) && Enabled(Next(w, Write(p, item)), Refund(p, true))
      && Next(Next(w, Write(p, item)), Refund(p, true))
         == World(w.rows[a.task := failed], w.pollers[p := Activity(Seen, a.task, failed)],
                  w.gained[a.row.user := Gained(w, a.row.user) + a.row.quota], w.refunds + [a.task])
  {
    var w2 := Next(Next(w, Write(p, item)), Refund(p, true));
    assert w2.pollers == w.pollers[p := w2.pollers[p]];
  }

  /** Exactly for sane reports, an item in time starts a refund if and only if it reports a failure. */
  lemma RefundStartsIff(w: World, p: Poller, item: Item)
    requires p in w.pollers && w.pollers[p].pc.Loaded? && w.pollers[p].task in w.rows
    requires w.rows[w.pollers[p].task] == w.pollers[p].row && w.pollers[p].row.progress != FULL
    requires w.pollers[p].row.quota != 0 && item.stored && !item.late
    ensures (Next(w, Write(p, item)).pollers[p].pc.Refunding? <==> item.report.status == FAILURE) <==> Sane(item.report)
  {
    RefundsExactlyFailures(item.report);
  }

  /** Any other report below 100% without a reason, or at 100%, is stored as it is and refunds nothing. */
  lemma OtherReportsAreStored(w: World, p: Poller, item: Item)
    requires p in w.pollers && w.pollers[p].pc.Loaded? && w.pollers[p].task in w.rows
    requires w.rows[w.pollers[p].task] == w.pollers[p].row && w.pollers[p].row.progress != FULL
    requires item.stored && !item.late && item.report.status != FAILURE
    requires item.report.progress == FULL || item.report.failReason == ""
    ensures var a := w.pollers[p];
      var w' := Next(w, Write(p, item));
      && w'.refunds == w.refunds && w'.gained == w.gained && w'.pollers[p].pc.Seen?
      && w'.rows[a.task].status == item.report.status && w'.rows[a.task].progress == item.report.progress
      && w'.rows[a.task].failReason == item.report.failReason
  {
  }

  // ---------------------------------------------------------------- exactly when refunds are safe

  /** Every item upstream sends is one of the `ok` ones. */
  predicate AllFrom(events: seq<Event>, ok: Report -> bool) {
    forall i :: 0 <= i < |events| && (events[i].Write? || events[i].Again?) ==> ok(events[i].item.report)
  }

  predicate Allowed(events: seq<Event>, ok: Report -> bool, repeats: bool) {
    AllFrom(events, ok) && (repeats || ListsOnce(events))
  }

  /** If upstream sends `ok` reports only, and lists a task twice in a response only if `repeats`,
      no schedule refunds a task twice. */
  ghost predicate RefundsOnce(ok: Report -> bool, repeats: bool) {
    forall rows, events :: RowsOk(rows) && IsSchedule(Start(rows), events) && Allowed(events, ok, repeats) ==>
      Distinct(After(Start(rows), events).refunds)
  }

  const TASK: TaskId := 7

  function OneRow(status: string): map<TaskId, Row> {
    map[TASK := Row(0, 5, 1, status, "", "")]
  }

  function OnTime(report: Report): Item { Item(report, false, true, true) }

  function Late(report: Report): Item { Item(report, true, true, true) }

  /** A schedule that refunds twice, from a row of the given status. */
  predicate RefundsTwice(status: string, events: seq<Event>) {
    RowsOk(OneRow(status)) && IsSchedule(Start(OneRow(status)), events)
    && After(Start(OneRow(status)), events).refunds == [TASK, TASK]
  }

  lemma TwiceIsUnsafe(ok: Report -> bool, repeats: bool, status: string, events: seq<Event>)
    requires RefundsTwice(status, events) && Allowed(events, ok, repeats)
    ensures !RefundsOnce(ok, repeats)
  {
    assert !Distinct([TASK, TASK]) by {
      assert [TASK, TASK][0] == [TASK, TASK][1];
    }
  }

  predicate Leads(w: World, events: seq<Event>, w': World) {
    IsSchedule(w, events) && After(w, events) == w'
  }

  lemma LeadsOn(w: World, e: Event, events: seq<Event>, w': World)
    requires Enabled(w, e) && Leads(Next(w, e), events, w')
    ensures Leads(w, [e] + events, w')
  {
    assert ([e] + events)[1..] == events;
  }

  lemma {:induction false} LeadsJoin(w: World, a: seq<Event>, w1: World, b: seq<Event>, w2: World)
    requires Leads(w, a, w1) && Leads(w1, b, w2)
    ensures Leads(w, a + b, w2)
    decreases |a|
  {
    if |a| == 0 {
      assert a + b == b;
    } else {
      LeadsJoin(Next(w, a[0]), a[1..], w1, b, w2);
      assert (a + b)[1..] == a[1..] + b;
    }
  }

  // ---------------------------------------------------------------- four ways to refund twice

  const REFUNDS: seq<Event> := [Refund(0, true), Refund(1, true)]

  /** Two pollers that both won, and what they leave. */
  function BothRefunding(row: Row): World {
    World(map[TASK := row], map[0 := Activity(Refunding, TASK, row), 1 := Activity(Refunding, TASK, row)], map[], [])
  }

  function BothRefunded(row: Row): World {
    World(map[TASK := row], map[0 := Activity(Seen, TASK, row), 1 := Activity(Seen, TASK, row)],
          map[row.user := row.quota + row.quota], [TASK, TASK])
  }

  lemma BothRefund(row: Row)
    requires row.quota >= 0
    ensures Leads(BothRefunding(row), REFUNDS, BothRefunded(row))
  {
    var w0 := BothRefunding(row);
    var w1 := Next(w0, REFUNDS[0]);
    var w2 := Next(w1, REFUNDS[1]);
    assert w2.pollers == BothRefunded(row).pollers && w2.refunds == [TASK, TASK];
    assert w2.gained == BothRefunded(row).gained;
    LeadsOn(w1, REFUNDS[1], [], w2);
    LeadsOn(w0, REFUNDS[0], REFUNDS[1..], w2);
  }

  /** A reason without the status FAILURE: the status does not change, so both of two pollers that
      loaded the row win. */
  function BothWin(r: Report): seq<Event> {
    [Load(0, TASK), Load(1, TASK), Write(0, OnTime(r)), Write(1, OnTime(r)), Refund(0, true), Refund(1, true)]
  }

  lemma BothWriteReason(r: Report)
    requires r.progress != FULL && r.failReason != "" && r.status != FAILURE
    ensures Leads(Start(OneRow(r.status)), BothWin(r)[..4], BothRefunding(Row(0, 5, 1, r.status, FULL, r.failReason)))
  {
    var es := BothWin(r)[..4];
    var w0 := Start(OneRow(r.status));
    var w1 := Next(w0, es[0]);
    var w2 := Next(w1, es[1]);
    var w3 := Next(w2, es[2]);
    var w4 := Next(w3, es[3]);
    var both := BothRefunding(Row(0, 5, 1, r.status, FULL, r.failReason));
    assert w4.rows == both.rows && w4.pollers == both.pollers;
    LeadsOn(w3, es[3], [], w4);
    LeadsOn(w2, es[2], es[3..], w4);
    LeadsOn(w1, es[1], es[2..], w4);
    LeadsOn(w0, es[0], es[1..], w4);
  }

  lemma ReasonAloneRefundsTwice(r: Report)
    requires r.progress != FULL && r.failReason != "" && r.status != FAILURE
    ensures RefundsTwice(r.status, BothWin(r))
  {
    var row := Row(0, 5, 1, r.status, FULL, r.failReason);
    BothWriteReason(r);
    BothRefund(row);
    LeadsJoin(Start(OneRow(r.status)), BothWin(r)[..4], BothRefunding(row), REFUNDS, BothRefunded(row));
    assert BothWin(r)[..4] + REFUNDS == BothWin(r);
  }

  /** The status FAILURE without a reason: the row is failed but unfinished, so it is loaded again,
      and both of two pollers find it too late and win. */
  function FailsLate(r: Report): seq<Event> {
    [Load(0, TASK), Write(0, OnTime(r)), Load(0, TASK), Load(1, TASK), Write(0, Late(r)), Write(1, Late(r)),
     Refund(0, true), Refund(1, true)]
  }

  function Unfinished(r: Report): World {
    var row := Row(0, 5, 1, FAILURE, r.progress, "");
    World(map[TASK := row], map[0 := Activity(Seen, TASK, row)], map[], [])
  }

  lemma FailedUnfinished(r: Report)
    requires r.progress != FULL && r.failReason == "" && r.status == FAILURE
    ensures Leads(Start(OneRow("")), FailsLate(r)[..2], Unfinished(r))
  {
    var es := FailsLate(r)[..2];
    var w0 := Start(OneRow(""));
    var w1 := Next(w0, es[0]);
    var w2 := Next(w1, es[1]);
    assert w2.rows == Unfinished(r).rows && w2.pollers == Unfinished(r).pollers;
    LeadsOn(w1, es[1], [], w2);
    LeadsOn(w0, es[0], es[1..], w2);
  }

  lemma BothFindItLate(r: Report)
    requires r.progress != FULL && r.failReason == "" && r.status == FAILURE
    ensures Leads(Unfinished(r), FailsLate(r)[2..6], BothRefunding(Row(0, 5, 1, FAILURE, FULL, "timeout")))
  {
    var es := FailsLate(r)[2..6];
    var w0 := Unfinished(r);
    var w1 := Next(w0, es[0]);
    var w2 := Next(w1, es[1]);
    var w3 := Next(w2, es[2]);
    var w4 := Next(w3, es[3]);
    var both := BothRefunding(Row(0, 5, 1, FAILURE, FULL, "timeout"));
    assert w4.rows == both.rows && w4.pollers == both.pollers;
    LeadsOn(w3, es[3], [], w4);
    LeadsOn(w2, es[2], es[3..], w4);
    LeadsOn(w1, es[1], es[2..], w4);
    LeadsOn(w0, es[0], es[1..], w4);
  }

  lemma FailureAloneRefundsTwice(r: Report)
    requires r.progress != FULL && r.failReason == "" && r.status == FAILURE
    ensures RefundsTwice("", FailsLate(r))
  {
    var row := Row(0, 5, 1, FAILURE, FULL, "timeout");
    var es := FailsLate(r);
    FailedUnfinished(r);
    BothFindItLate(r);
    BothRefund(row);
    LeadsJoin(Unfinished(r), es[2..6], BothRefunding(row), REFUNDS, BothRefunded(row));
    LeadsJoin(Start(OneRow("")), es[..2], Unfinished(r), es[2..6] + REFUNDS, BothRefunded(row));
    assert es[..2] + (es[2..6] + REFUNDS) == es;
  }

  /** A failure listed again in the same response: the copy is FAILURE by then, and so is the row. */
  function ListedAgain(r: Report): seq<Event> {
    [Load(0, TASK), Write(0, Late(r)), Refund(0, true), Again(0, OnTime(r)), Refund(0, true)]
  }

  lemma FailureAgainRefundsTwice(r: Report)
    requires ShouldReturn(r)
    ensures RefundsTwice("", ListedAgain(r))
  {
    var es := ListedAgain(r);
    var w := Start(OneRow(""));
    var w1 := Next(w, es[0]);
    var w2 := Next(w1, es[1]);
    var w3 := Next(w2, es[2]);
    var w4 := Next(w3, es[3]);
    var w5 := Next(w4, es[4]);
    LeadsOn(w4, es[4], [], w5);
    LeadsOn(w3, es[3], es[4..], w5);
    LeadsOn(w2, es[2], es[3..], w5);
    LeadsOn(w1, es[1], es[2..], w5);
    LeadsOn(w, es[0], es[1..], w5);
  }

  /** Anything else listed again: it takes the failure back, and another poller's older copy wins. */
  function TakenBack(r: Report): seq<Event> {
    [Load(0, TASK), Load(1, TASK), Write(0, Late(r)), Refund(0, true), Again(0, OnTime(r)), Write(1, Late(r)),
     Refund(1, true)]
  }

  function LateOnce(status: string): World {
    var row := Row(0, 5, 1, FAILURE, FULL, "timeout");
    World(map[TASK := row], map[0 := Activity(Seen, TASK, row), 1 := Activity(Loaded, TASK, OneRow(status)[TASK])],
          map[0 := 5], [TASK])
  }

  lemma RefundedLate(r: Report)
    requires r.status != FAILURE
    ensures Leads(Start(OneRow(r.status)), TakenBack(r)[..4], LateOnce(r.status))
  {
    var es := TakenBack(r)[..4];
    var w0 := Start(OneRow(r.status));
    var w1 := Next(w0, es[0]);
    var w2 := Next(w1, es[1]);
    var w3 := Next(w2, es[2]);
    var w4 := Next(w3, es[3]);
    assert w4.rows == LateOnce(r.status).rows && w4.pollers == LateOnce(r.status).pollers;
    LeadsOn(w3, es[3], [], w4);
    LeadsOn(w2, es[2], es[3..], w4);
    LeadsOn(w1, es[1], es[2..], w4);
    LeadsOn(w0, es[0], es[1..], w4);
  }

  lemma TakenBackRefundsTwice(r: Report)
    requires !ShouldReturn(r) && r.status != FAILURE
    ensures RefundsTwice(r.status, TakenBack(r))
  {
    var es := TakenBack(r)[4..];
    var w0 := LateOnce(r.status);
    var w1 := Next(w0, es[0]);
    var w2 := Next(w1, es[1]);
    var w3 := Next(w2, es[2]);
    LeadsOn(w2, es[2], [], w3);
    LeadsOn(w1, es[1], es[2..], w3);
    LeadsOn(w0, es[0], es[1..], w3);
    RefundedLate(r);
    LeadsJoin(Start(OneRow(r.status)), TakenBack(r)[..4], w0, es, w3);
    assert TakenBack(r)[..4] + es == TakenBack(r);
  }

  /** Where no response lists a task twice, no task is ever refunded twice if and only if every
      report upstream may send is sane. */
  lemma RefundedOnceIff(ok: Report -> bool)
    ensures RefundsOnce(ok, false) <==> forall r :: ok(r) ==> Sane(r)
  {
    if forall r :: ok(r) ==> Sane(r) {
      forall rows, events | RowsOk(rows) && IsSchedule(Start(rows), events) && Allowed(events, ok, false)
        ensures Distinct(After(Start(rows), events).refunds)
      {
        RefundedAtMostOnce(rows, events, 0);
      }
    } else {
      var r :| ok(r) && !Sane(r);
      InsaneIsUnsafe(ok, false, r);
    }
  }

  lemma InsaneIsUnsafe(ok: Report -> bool, repeats: bool, r: Report)
    requires ok(r) && !Sane(r)
    ensures !RefundsOnce(ok, repeats)
  {
    if r.status == FAILURE {
      FailureAloneRefundsTwice(r);
      TwiceIsUnsafe(ok, repeats, "", FailsLate(r));
    } else {
      ReasonAloneRefundsTwice(r);
      TwiceIsUnsafe(ok, repeats, r.status, BothWin(r));
    }
  }

  /** Where a response may list a task twice, no report is safe: whatever upstream may send can end
      in a second refund. */
  lemma RepeatsAreNeverSafe(ok: Report -> bool)
    ensures RefundsOnce(ok, true) <==> forall r :: !ok(r)
  {
    if r :| ok(r) {
      if ShouldReturn(r) {
        FailureAgainRefundsTwice(r);
        TwiceIsUnsafe(ok, true, "", ListedAgain(r));
      } else if r.status != FAILURE {
        TakenBackRefundsTwice(r);
        TwiceIsUnsafe(ok, true, r.status, TakenBack(r));
      } else {
        InsaneIsUnsafe(ok, true, r);
      }
    } else {
      forall rows, events | RowsOk(rows) && IsSchedule(Start(rows), events) && Allowed(events, ok, true)
        ensures Distinct(After(Start(rows), events).refunds)
      {
        RefundedAtMostOnce(rows, events, 0);
      }
    }
  }
}
