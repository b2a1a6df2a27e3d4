/**
 Settling an asynchronous video task. Each poll turns an upstream report into a new task row and
 moves quota between the user's balance and the task's charge: on success the charge is
 recomputed from the tokens used, on failure it is refunded.
 */
module VideoTask {
  import opened Options
  import opened Numbers

  datatype Status = NotStart | Submitted | Queued | InProgress | Success | Failure | Unknown

  /** An upstream report. `status` is None when the upstream left it empty. `modelRatio` is None
      unless the task names a model priced by tokens and its group is known. */
  datatype Report = Report(status: Option<Status>, progress: string, url: string, reason: string,
                           tokens: int, modelRatio: Option<real>, groupRatio: real, now: int)

  /** Which of the database calls of one poll succeed. */
  datatype Faults = Faults(settleOk: bool, updateOk: bool, refundOk: bool)

  const NO_FAULTS := Faults(true, true, true)

  datatype Row = Row(status: Status, quota: int, progress: string, startTime: int, finishTime: int, failReason: string)

  /** The stored row, the user's balance, and how many refunds of failures were paid. */
  datatype Ledger = Ledger(row: Row, balance: int, refunds: nat)

  // ---------------------------------------------------------------- specification of one poll

  function Reported(r: Report): Status {
    if r.status.None? then Failure else r.status.value
  }

  /** The charge after settling a success, if every call succeeds. */
  function SettledQuota(quota: int, r: Report): int {
    if PricedByTokens(r) then TokenCost(r) else quota
  }

  predicate PricedByTokens(r: Report) {
    r.tokens > 0 && r.modelRatio.Some? && r.modelRatio.value > 0.0
  }

  function TokenCost(r: Report): int
    requires PricedByTokens(r)
  {
    Truncate(r.tokens as real * r.modelRatio.value * r.groupRatio)
  }

  function FirstTime(stored: int, now: int): int {
    if stored == 0 then now else stored
  }

  function ShownProgress(r: Report, standard: string): string {
    if r.progress != "" then r.progress else standard
  }

  predicate IsDataUrl(url: string) {
    |url| > 5 && url[..5] == "data:"
  }

  function NewRow(row: Row, r: Report, quota: int): Row {
    match Reported(r)
    case Submitted => row.(status := Submitted, progress := ShownProgress(r, "10%"))
    case Queued => row.(status := Queued, progress := ShownProgress(r, "20%"))
    case InProgress =>
      row.(status := InProgress, progress := ShownProgress(r, "30%"), startTime := FirstTime(row.startTime, r.now))
    case Success =>
      row.(status := Success, progress := ShownProgress(r, "100%"), finishTime := FirstTime(row.finishTime, r.now),
           failReason := if IsDataUrl(r.url) then row.failReason else r.url, quota := quota)
    case Failure =>
      row.(status := Failure, progress := "100%", finishTime := FirstTime(row.finishTime, r.now),
           failReason := if r.status.None? then "upstream returned empty status" else r.reason)
    case _ => row
  }

  predicate Recognized(s: Status) {
    s.Submitted? || s.Queued? || s.InProgress? || s.Success? || s.Failure?
  }

  function Poll(s: Ledger, r: Report, f: Faults): Ledger {
    if !Recognized(Reported(r)) then s
    else
      var quota := if Reported(r).Success? && f.settleOk then SettledQuota(s.row.quota, r) else s.row.quota;
      var settled := s.(balance := s.balance - (quota - s.row.quota));
      if !f.updateOk then settled
      else
        var stored := settled.(row := NewRow(s.row, r, quota));
        if Reported(r).Failure? && s.row.status != Failure && s.row.quota > 0 && f.refundOk
        then stored.(balance := stored.balance + s.row.quota, refunds := s.refunds + 1)
        else stored
  }

  // ---------------------------------------------------------------- the code

  class Task {
    var status: Status
    var quota: int
    var progress: string
    var startTime: int
    var finishTime: int
    var failReason: string

    ghost function View(): Row
      reads this
    {
      Row(status, quota, progress, startTime, finishTime, failReason)
    }
  }

  class Database {
    var row: Row
    var balance: int
    var refunds: nat

    ghost function View(): Ledger
      reads this
    {
      Ledger(row, balance, refunds)
    }

    method IncreaseUserQuota(quota: int, ok: bool) returns (done: bool)
      modifies this`balance
      ensures done == (quota >= 0 && ok) && balance == old(balance) + if done then quota else 0
    {
      done := quota >= 0 && ok;
      if done {
        balance := balance + quota;
      }
    }

    method DecreaseUserQuota(quota: int, ok: bool) returns (done: bool)
      modifies this`balance
      ensures done == (quota >= 0 && ok) && balance == old(balance) - if done then quota else 0
    {
      done := quota >= 0 && ok;
      if done {
        balance := balance - quota;
      }
    }
  }

  /** Charge or return the difference to what the tokens really cost. */
  method SettleTokens(task: Task, db: Database, r: Report, settleOk: bool)
    modifies task`quota, db`balance
    ensures task.quota == if settleOk then SettledQuota(old(task.quota), r) else old(task.quota)
    ensures db.balance == old(db.balance) - (task.quota - old(task.quota))
  {
    if PricedByTokens(r) {
      var actual := TokenCost(r);
      var delta := actual - task.quota;
      if delta > 0 {
        var charged := db.DecreaseUserQuota(delta, settleOk);
        if charged {
          task.quota := actual;
        }
      } else if delta < 0 {
        var returned := db.IncreaseUserQuota(-delta, settleOk);
        if returned {
          task.quota := actual;
        }
      }
    }
  }

  /** updateVideoSingleTask, after the report has been fetched and parsed. `task` is the row as
      loaded for this poll. */
  method UpdateVideoSingleTask(task: Task, db: Database, r: Report, f: Faults) returns (ok: bool)
    requires task.View() == db.row
    modifies task, db
    ensures db.View() == Poll(old(db.View()), r, f)
    ensures ok <==> Recognized(Reported(r))
  {
    var quota := task.quota;
    var preStatus := task.status;
    var shouldRefund := false;
    var progress := r.progress;
    task.status := Reported(r);
    match task.status {
      case Submitted => task.progress := "10%";
      case Queued => task.progress := "20%";
      case InProgress =>
        task.progress := "30%";
        if task.startTime == 0 {
          task.startTime := r.now;
        }
      case Success =>
        task.progress := "100%";
        if task.finishTime == 0 {
          task.finishTime := r.now;
        }
        if !IsDataUrl(r.url) {
          task.failReason := r.url;
        }
        SettleTokens(task, db, r, f.settleOk);
      case Failure =>
        task.progress := "100%";
        if task.finishTime == 0 {
          task.finishTime := r.now;
        }
        task.failReason := if r.status.None? then "upstream returned empty status" else r.reason;
        progress := "100%";
        if quota != 0 && preStatus != Failure {
          shouldRefund := true;
        }
      case _ => return false;
    }
    if progress != "" {
      task.progress := progress;
    }
    if f.updateOk {
      db.row := Row(task.status, task.quota, task.progress, task.startTime, task.finishTime, task.failReason);
    } else {
      shouldRefund := false;
    }
    if shouldRefund {
      var refunded := db.IncreaseUserQuota(quota, f.refundOk);
      if refunded {
        db.refunds := db.refunds + 1;
      }
    }
    ok := true;
  }

  // ---------------------------------------------------------------- conservation

  /** The charge outstanding on a task: its quota, or nothing once it failed. */
  function Outstanding(row: Row): int {
    if row.status == Failure then 0 else row.quota
  }

  function Worth(s: Ledger): int {
    s.balance + Outstanding(s.row)
  }

  /** When one poll conserves the user's worth, in terms of its guards: a failed task may not come
      back to life with a charge; a settlement must be stored; a refund must be possible. */
  predicate Conserving(s: Ledger, r: Report, f: Faults) {
    var status := Reported(r);
    if !Recognized(status) then true
    else if status == Failure then
      s.row.status == Failure || !f.updateOk || s.row.quota == 0 || (s.row.quota > 0 && f.refundOk)
    else if f.updateOk then s.row.status != Failure || s.row.quota == 0
    else status != Success || !f.settleOk || SettledQuota(s.row.quota, r) == s.row.quota
  }

  /** One poll conserves balance plus outstanding charge exactly then. */
  lemma PollConserves(s: Ledger, r: Report, f: Faults)
    ensures Worth(Poll(s, r, f)) == Worth(s) <==> Conserving(s, r, f)
  {
    if Reported(r) == Failure && s.row.status != Failure && f.updateOk {
      assert Outstanding(Poll(s, r, f).row) == 0;
    }
  }

  // ---------------------------------------------------------------- what a report does, spelled out

  /** A success whose calls succeed: a task that used tokens of a model priced by them is charged the
      integer part of tokens times model ratio times group ratio, any other keeps its charge; the
      balance pays or gets back the difference. */
  lemma SuccessIsCharged(s: Ledger, r: Report, f: Faults)
    requires r.status == Some(Success) && f.settleOk && f.updateOk
    ensures var s' := Poll(s, r, f);
      && s'.row.status == Success && s'.refunds == s.refunds
      && s'.balance == s.balance - (s'.row.quota - s.row.quota)
      && (if r.tokens > 0 && r.modelRatio.Some? && r.modelRatio.value > 0.0
          then IsIntegerPart(s'.row.quota, r.tokens as real * r.modelRatio.value * r.groupRatio)
          else s'.row.quota == s.row.quota)
      && s'.row.progress == (if r.progress != "" then r.progress else "100%")
      && s'.row.finishTime == (if s.row.finishTime == 0 then r.now else s.row.finishTime)
      && s'.row.startTime == s.row.startTime
      && s'.row.failReason == (if |r.url| > 5 && r.url[..5] == "data:" then s.row.failReason else r.url)
  {
    if PricedByTokens(r) {
      TruncateMeaning(r.tokens as real * r.modelRatio.value * r.groupRatio);
    }
  }

  /** A failure, or an empty status, whose calls succeed: the row is failed and finished, and a
      positive charge of a task that had not failed is paid back. */
  lemma FailureIsRefunded(s: Ledger, r: Report, f: Faults)
    requires r.status == None || r.status == Some(Failure)
    requires f.updateOk && f.refundOk
    ensures var s' := Poll(s, r, f);
      var due := s.row.status != Failure && s.row.quota > 0;
      && s'.row.status == Failure && s'.row.progress == "100%" && s'.row.quota == s.row.quota
      && s'.row.finishTime == (if s.row.finishTime == 0 then r.now else s.row.finishTime)
      && s'.row.startTime == s.row.startTime
      && s'.balance == s.balance + (if due then s.row.quota else 0)
      && s'.refunds == s.refunds + (if due then 1 else 0)
  {
  }

  /** Any other known status is only recorded, with the reported progress or the standard one. */
  lemma RunningIsRecorded(s: Ledger, r: Report, f: Faults)
    requires r.status == Some(Submitted) || r.status == Some(Queued) || r.status == Some(InProgress)
    requires f.updateOk
    ensures var standard :=
      if r.status.value.Submitted? then "10%" else if r.status.value.Queued? then "20%" else "30%";
      Poll(s, r, f) == s.(row := s.row.(
        status := r.status.value, progress := if r.progress != "" then r.progress else standard,
        startTime := if r.status.value.InProgress? && s.row.startTime == 0 then r.now else s.row.startTime))
  {
  }

  /** An unknown status changes nothing. */
  lemma UnknownIsIgnored(s: Ledger, r: Report, f: Faults)
    requires r.status == Some(Unknown) || r.status == Some(NotStart)
    ensures Poll(s, r, f) == s
  {
  }

  // ---------------------------------------------------------------- whole runs of the polling loop

  /** GetAllUnFinishSyncTasks: the rows the polling loop gets to see. */
  predicate Unfinished(row: Row) {
    row.progress != "100%" && row.status != Failure && row.status != Success
  }

  datatype PollEvent = PollEvent(report: Report, faults: Faults)

  function Polls(s: Ledger, events: seq<PollEvent>): Ledger
    decreases |events|
  {
    if |events| == 0 then s
    else Polls(if Unfinished(s.row) then Poll(s, events[0].report, events[0].faults) else s, events[1..])
  }

  /** Every row is stored and every refund is paid; charging the difference may still fail. */
  predicate Persistent(events: seq<PollEvent>) {
    forall i :: 0 <= i < |events| ==> events[i].faults.updateOk && events[i].faults.refundOk
  }

  lemma {:induction false} FinishedStays(s: Ledger, events: seq<PollEvent>)
    requires s.row.progress == "100%" || s.row.status == Failure || s.row.status == Success
    ensures Polls(s, events) == s
    decreases |events|
  {
    if |events| > 0 {
      FinishedStays(s, events[1..]);
    }
  }

  /** Ledger conservation: with persistence succeeding, balance plus outstanding charge is the same
      after any sequence of reports, unless a task with a negative charge fails. */
  lemma {:induction false} PollsConserve(s: Ledger, events: seq<PollEvent>)
    requires Persistent(events)
    ensures Worth(Polls(s, events)) == Worth(s)
      <==> !(s.row.quota < 0 && s.row.status != Failure && Polls(s, events).row.status == Failure)
    decreases |events|
  {
    if |events| > 0 {
      var r, f := events[0].report, events[0].faults;
      var next := Poll(s, r, f);
      if !Unfinished(s.row) {
        FinishedStays(s, events);
      } else {
        PollConserves(s, r, f);
        if Unfinished(next.row) {
          PollsConserve(next, events[1..]);
        } else {
          FinishedStays(next, events[1..]);
        }
      }
    }
  }

  /** A task is refunded at most once, and not at all if it has failed before, whatever upstream
      reports and whatever database calls fail. */
  lemma {:induction false} RefundedAtMostOnce(s: Ledger, events: seq<PollEvent>)
    ensures s.refunds <= Polls(s, events).refunds <= s.refunds + (if s.row.status == Failure then 0 else 1)
    ensures Polls(s, events).refunds > s.refunds ==> Polls(s, events).row.status == Failure
    decreases |events|
  {
    if |events| > 0 {
      var next := Poll(s, events[0].report, events[0].faults);
      if !Unfinished(s.row) {
        FinishedStays(s, events);
      } else if Unfinished(next.row) {
        RefundedAtMostOnce(next, events[1..]);
      } else {
        FinishedStays(next, events[1..]);
      }
    }
  }

  // ---------------------------------------------------------------- the function on its own

  /** Repeating a report changes nothing: token settlement is idempotent, and a repeated FAILURE
      never refunds again. */
  lemma PollIsIdempotent(s: Ledger, r: Report)
    ensures Poll(Poll(s, r, NO_FAULTS), r, NO_FAULTS) == Poll(s, r, NO_FAULTS)
  {
  }

  /** It is the polling loop's query that keeps a failure final: called directly on a row that has
      failed, the function takes a failure back, and a further failure refunds the same charge
      again. */
  lemma DirectCallsRefundAgain(s: Ledger, fail: Report, revive: Report)
    requires s.row.status != Failure && s.row.quota > 0
    requires Reported(fail) == Failure && Reported(revive) == InProgress
    ensures var failed := Poll(s, fail, NO_FAULTS);
      var again := Poll(Poll(failed, revive, NO_FAULTS), fail, NO_FAULTS);
      !Unfinished(failed.row) && again.refunds == s.refunds + 2 && again.balance == s.balance + 2 * s.row.quota
  {
  }
}
