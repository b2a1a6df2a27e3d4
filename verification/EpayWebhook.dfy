/**
 Crediting a paid order. The Epay success callback and the administrator's manual completion
 both run under LockOrder; any number of callbacks for any orders may arrive, repeat and
 interleave. The callback reads the order row, saves it as successful and only then raises the
 user's quota, three separate steps that may each fail. The manual completion does the same in
 one database transaction.
 */
module EpayWebhook {
  import opened Numbers
  import L = OrderLock

  type User = nat

  datatype Status = Pending | Success | Closed

  datatype TopUp = TopUp(user: User, amount: int, money: real, provider: string, payMethod: string, status: Status)

  datatype Kind = Epay(payType: string) | Admin

  /** How far a thread's code between LockOrder and UnlockOrder has come. `row` is its own copy
      of the order row, with the status and the payment method already changed. */
  datatype Body = Asked(kind: Kind) | Loaded(row: TopUp) | Saved(row: TopUp) | Done

  datatype Credit = Credit(t: L.TradeNo, admin: bool)

  /** `initial`, `credits` and `lost` only record what happened; no step reads them. */
  datatype World = World(
    locks: L.State,
    bodies: map<L.Thread, Body>,
    orders: map<L.TradeNo, TopUp>,
    gained: map<User, int>,
    unit: real,
    initial: map<L.TradeNo, TopUp>,
    credits: seq<Credit>,
    lost: set<L.TradeNo>)

  datatype Event =
    | Arrive(th: L.Thread, t: L.TradeNo, kind: Kind)
    | LockStep(th: L.Thread)
    | Work(th: L.Thread, ok: bool)   // ok is false when the database call of this step fails

  function Start(initial: map<L.TradeNo, TopUp>, unit: real): World {
    World(L.Init(), map[], initial, map[], unit, initial, [], {})
  }

  function QuotaFor(amount: real, unit: real): int {
    Truncate(amount * unit)
  }

  function EpayQuota(row: TopUp, unit: real): int {
    QuotaFor(row.amount as real, unit)
  }

  function AdminQuota(row: TopUp, unit: real): int {
    if row.provider == "stripe" then QuotaFor(row.money, unit) else EpayQuota(row, unit)
  }

  predicate Enabled(w: World, e: Event)
    requires L.Typed(w.locks)
  {
    match e
    case Arrive(th, t, _) => L.Enabled(w.locks, L.Call(th, t))
    case LockStep(th) =>
      L.Enabled(w.locks, L.Advance(th))
      && (L.PointOf(w.locks, th).pc.Holding? ==> th in w.bodies && w.bodies[th].Done?)
    case Work(th, _) =>
      L.PointOf(w.locks, th).pc.Holding? && CanWork(w, th)
  }

  function Gained(w: World, u: User): int {
    if u in w.gained then w.gained[u] else 0
  }

  /** model.IncreaseUserQuota succeeded for the order's user. */
  function Pay(w: World, t: L.TradeNo, row: TopUp, quota: int, admin: bool): World {
    w.(gained := w.gained[row.user := Gained(w, row.user) + quota], credits := w.credits + [Credit(t, admin)])
  }

  predicate CanWork(w: World, th: L.Thread) {
    th in w.bodies && !w.bodies[th].Done?
  }

  function WorkStep(w: World, th: L.Thread, ok: bool): World
    requires CanWork(w, th)
  {
    var t := L.PointOf(w.locks, th).t;
    var finished := w.(bodies := w.bodies[th := Done]);
    match w.bodies[th]
    case Asked(Epay(payType)) =>
      if !ok || t !in w.orders || w.orders[t].provider != "epay" || w.orders[t].status != Pending then finished
      else w.(bodies := w.bodies[th := Loaded(w.orders[t].(status := Success, payMethod := payType))])
    case Asked(Admin) =>
      if !ok || t !in w.orders || w.orders[t].status != Pending || AdminQuota(w.orders[t], w.unit) <= 0 then finished
      else
        var row := w.orders[t].(status := Success);
        Pay(finished.(orders := w.orders[t := row]), t, row, AdminQuota(row, w.unit), true)
    case Loaded(row) =>
      if !ok then finished
      else w.(orders := w.orders[t := row], bodies := w.bodies[th := Saved(row)])
    case Saved(row) =>
      if !ok || EpayQuota(row, w.unit) < 0 then finished.(lost := w.lost + {t})
      else Pay(finished, t, row, EpayQuota(row, w.unit), false)
    case Done => assert false; w
  }

  function Next(w: World, e: Event): World
    requires L.Typed(w.locks) && Enabled(w, e)
  {
    match e
    case Arrive(th, t, kind) =>
      w.(locks := L.Next(w.locks, L.Call(th, t)), bodies := w.bodies[th := Asked(kind)])
    case LockStep(th) => w.(locks := L.Next(w.locks, L.Advance(th)))
    case Work(th, ok) => WorkStep(w, th, ok)
  }

  /** A schedule is any finite sequence of events, each possible when it happens. */
  predicate IsSchedule(w: World, events: seq<Event>)
    decreases |events|
  {
    |events| == 0
    || (L.Typed(w.locks) && Enabled(w, events[0]) && IsSchedule(Next(w, events[0]), events[1..]))
  }

  function After(w: World, events: seq<Event>): World
    requires IsSchedule(w, events)
    decreases |events|
  {
    if |events| == 0 then w else After(Next(w, events[0]), events[1..])
  }

  // ---------------------------------------------------------------- specification

  predicate Credited(w: World, t: L.TradeNo) {
    exists i :: 0 <= i < |w.credits| && w.credits[i].t == t
  }

  /** What one credit is worth, from the order as it was first stored. */
  function Worth(initial: map<L.TradeNo, TopUp>, unit: real, c: Credit): int {
    if c.t !in initial then 0
    else if c.admin then AdminQuota(initial[c.t], unit) else EpayQuota(initial[c.t], unit)
  }

  /** The sum, over user u's credited orders, of what each is worth. */
  function TotalWorth(initial: map<L.TradeNo, TopUp>, unit: real, credits: seq<Credit>, u: User): int {
    if |credits| == 0 then 0
    else
      var c := credits[|credits| - 1];
      TotalWorth(initial, unit, credits[..|credits| - 1], u)
      + if c.t in initial && initial[c.t].user == u then Worth(initial, unit, c) else 0
  }

  // ---------------------------------------------------------------- the inductive invariant

  /** The part of the lock's invariant the bodies need: one holder per order. */
  predicate Exclusive(s: L.State) {
    forall th1, th2 ::
      th1 in s.at && th2 in s.at && s.at[th1].pc.Holding? && s.at[th2].pc.Holding? && s.at[th1].t == s.at[th2].t
      ==> th1 == th2
  }

  predicate SameOrder(row: TopUp, first: TopUp) {
    row.user == first.user && row.amount == first.amount && row.money == first.money && row.provider == first.provider
  }

  /** Rows only ever go from pending to success, and keep everything a credit is computed from. */
  predicate OrdersOk(w: World) {
    w.orders.Keys == w.initial.Keys
    && forall t :: t in w.orders ==>
         SameOrder(w.orders[t], w.initial[t])
         && (w.orders[t].status == w.initial[t].status
             || (w.initial[t].status == Pending && w.orders[t].status == Success))
  }

  /** A thread's copy of the row is still current: nobody else touched the order meanwhile. */
  predicate BodyOk(w: World, th: L.Thread)
    requires th in w.bodies && w.orders.Keys == w.initial.Keys
  {
    var p := L.PointOf(w.locks, th);
    match w.bodies[th]
    case Loaded(row) =>
      p.pc.Holding? && p.t in w.orders && w.orders[p.t].status == Pending && w.orders[p.t].provider == "epay"
      && row == w.orders[p.t].(status := Success, payMethod := row.payMethod)
    case Saved(row) =>
      p.pc.Holding? && p.t in w.orders && w.orders[p.t] == row && row.status == Success && row.provider == "epay"
      && w.initial[p.t].status == Pending && !Credited(w, p.t) && p.t !in w.lost
    case _ => true
  }

  predicate BodiesOk(w: World)
    requires w.orders.Keys == w.initial.Keys
  {
    forall th :: th in w.bodies ==> BodyOk(w, th)
  }

  predicate CreditOk(w: World, c: Credit) {
    c.t in w.orders && c.t in w.initial && w.orders[c.t].status == Success && w.initial[c.t].status == Pending
    && (!c.admin ==> w.initial[c.t].provider == "epay") && c.t !in w.lost
  }

  predicate LossOk(w: World, t: L.TradeNo) {
    t in w.orders && t in w.initial && w.orders[t].status == Success && w.initial[t].status == Pending
    && w.initial[t].provider == "epay"
  }

  predicate CreditsOk(w: World) {
    (forall i :: 0 <= i < |w.credits| ==> CreditOk(w, w.credits[i]))
    && (forall i, j :: 0 <= i < j < |w.credits| ==> w.credits[i].t != w.credits[j].t)
    && (forall t :: t in w.lost ==> LossOk(w, t))
  }

  ghost predicate GainsOk(w: World) {
    forall u :: Gained(w, u) == TotalWorth(w.initial, w.unit, w.credits, u)
  }

  predicate BeingPaid(w: World, t: L.TradeNo, th: L.Thread) {
    th in w.bodies && w.bodies[th].Saved? && L.PointOf(w.locks, th).t == t
  }

  /** An order that became successful is credited, lost, or about to be credited by its holder. */
  ghost predicate SettledOk(w: World)
    requires w.orders.Keys == w.initial.Keys
  {
    forall t :: t in w.orders && w.orders[t].status == Success && w.initial[t].status == Pending ==>
      Credited(w, t) || t in w.lost || exists th :: BeingPaid(w, t, th)
  }

  ghost predicate DataOk(w: World) {
    OrdersOk(w) && BodiesOk(w) && CreditsOk(w) && GainsOk(w) && SettledOk(w)
  }

  ghost predicate Inv(w: World) {
    L.Inv(w.locks) && DataOk(w)
  }

  lemma LocksExclude(s: L.State)
    requires L.MapOk(s) && L.OwnerOk(s)
    ensures Exclusive(s)
  {
  }

  /** A lock step or a new call: one thread moves, and no data changes. */
  ghost predicate Moved(w: World, w': World, th: L.Thread) {
    w'.orders == w.orders && w'.gained == w.gained && w'.unit == w.unit && w'.initial == w.initial
    && w'.credits == w.credits && w'.lost == w.lost
    && (forall other :: other != th ==> L.PointOf(w'.locks, other) == L.PointOf(w.locks, other))
    && (forall other :: other in w'.bodies && other != th ==> other in w.bodies && w'.bodies[other] == w.bodies[other])
    && (forall other :: other in w.bodies ==> other in w'.bodies)
    && (th in w.bodies ==> !w.bodies[th].Loaded? && !w.bodies[th].Saved?)
    && (th in w'.bodies ==> !w'.bodies[th].Loaded? && !w'.bodies[th].Saved?)
  }

  lemma LockStepMoves(w: World, e: Event)
    requires L.Typed(w.locks) && OrdersOk(w) && BodiesOk(w) && Enabled(w, e) && !e.Work?
    ensures Moved(w, Next(w, e), e.th)
  {
    assert e.th in w.bodies ==> BodyOk(w, e.th);
    forall other | other != e.th ensures L.PointOf(Next(w, e).locks, other) == L.PointOf(w.locks, other) {
      L.OthersStay(w.locks, if e.Arrive? then L.Call(e.th, e.t) else L.Advance(e.th), other);
    }
  }

  lemma MoveKeepsBodies(w: World, w': World, th: L.Thread)
    requires OrdersOk(w) && BodiesOk(w) && SettledOk(w) && Moved(w, w', th)
    ensures BodiesOk(w') && SettledOk(w')
  {
    forall other | other in w'.bodies ensures BodyOk(w', other) {
      if other != th {
        assert BodyOk(w, other);
        assert L.PointOf(w'.locks, other) == L.PointOf(w.locks, other);
      }
    }
    forall t | t in w'.orders && w'.orders[t].status == Success && w'.initial[t].status == Pending
      ensures Credited(w', t) || t in w'.lost || exists other :: BeingPaid(w', t, other)
    {
      if !Credited(w, t) && t !in w.lost {
        var other :| BeingPaid(w, t, other);
        assert BeingPaid(w', t, other);
      }
    }
  }

  lemma MoveKeepsCredits(w: World, w': World, th: L.Thread)
    requires OrdersOk(w) && CreditsOk(w) && GainsOk(w) && Moved(w, w', th)
    ensures CreditsOk(w') && GainsOk(w')
  {
    forall i | 0 <= i < |w'.credits| ensures CreditOk(w', w'.credits[i]) {
      assert CreditOk(w, w.credits[i]);
    }
    forall t | t in w'.lost ensures LossOk(w', t) {
      assert LossOk(w, t);
    }
    forall u ensures Gained(w', u) == TotalWorth(w'.initial, w'.unit, w'.credits, u) {
      assert Gained(w, u) == TotalWorth(w.initial, w.unit, w.credits, u);
    }
  }

  /** One step of a body: only its own order, and at most one credit or loss, of that order. */
  ghost predicate Worked(w: World, w': World, th: L.Thread) {
    var t := L.PointOf(w.locks, th).t;
    && Framed(w, w', th) && OrderMoves(w, w', t) && LostOnce(w, w', t) && PaidOnce(w, w', t)
  }

  predicate Framed(w: World, w': World, th: L.Thread) {
    w'.locks == w.locks && w'.unit == w.unit && w'.initial == w.initial
    && th in w.bodies && th in w'.bodies && w'.bodies == w.bodies[th := w'.bodies[th]]
  }

  ghost predicate OrderMoves(w: World, w': World, t: L.TradeNo) {
    && w'.orders.Keys == w.orders.Keys
    && (forall other :: other in w.orders && other != t ==> w'.orders[other] == w.orders[other])
    && (t in w.orders && t in w.initial ==>
          SameOrder(w'.orders[t], w.orders[t])
          && (w'.orders[t].status == w.orders[t].status
              || (w.orders[t].status == Pending && w'.orders[t].status == Success)))
  }

  ghost predicate LostOnce(w: World, w': World, t: L.TradeNo) {
    w'.lost == w.lost
    || (w'.lost == w.lost + {t} && w'.credits == w.credits && LossOk(w', t) && !Credited(w, t))
  }

  ghost predicate PaidOnce(w: World, w': World, t: L.TradeNo) {
    (w'.credits == w.credits && w'.gained == w.gained) || exists c: Credit :: Paid(w, w', t, c)
  }

  /** Order t is credited, for the first time and with its worth. */
  predicate Paid(w: World, w': World, t: L.TradeNo, c: Credit) {
    c.t == t && w'.credits == w.credits + [c] && t in w.initial && CreditOk(w', c)
    && w'.lost == w.lost && !Credited(w, t)
    && w'.gained == w.gained[w.initial[t].user := Gained(w, w.initial[t].user) + Worth(w.initial, w.unit, c)]
  }

  lemma PendingMeansUncredited(w: World, t: L.TradeNo)
    requires CreditsOk(w) && t in w.orders && w.orders[t].status == Pending
    ensures !Credited(w, t) && t !in w.lost
  {
    forall i | 0 <= i < |w.credits| ensures w.credits[i].t != t {
      assert CreditOk(w, w.credits[i]);
    }
    assert t in w.lost ==> LossOk(w, t);
  }

  lemma SameWorth(row: TopUp, first: TopUp, unit: real)
    requires SameOrder(row, first)
    ensures EpayQuota(row, unit) == EpayQuota(first, unit) && AdminQuota(row, unit) == AdminQuota(first, unit)
  {
  }

  lemma StepPays(w: World, th: L.Thread, ok: bool)
    requires CanWork(w, th) && OrdersOk(w) && BodyOk(w, th)
    requires var t := L.PointOf(w.locks, th).t;
      t in w.orders && w.orders[t].status == Pending ==> !Credited(w, t) && t !in w.lost
    ensures PaidOnce(w, WorkStep(w, th, ok), L.PointOf(w.locks, th).t)
  {
    var w' := WorkStep(w, th, ok);
    var t := L.PointOf(w.locks, th).t;
    if w'.credits != w.credits {
      var row := if w.bodies[th].Saved? then w.bodies[th].row else w.orders[t].(status := Success);
      SameWorth(row, w.initial[t], w.unit);
      assert Paid(w, w', t, Credit(t, w.bodies[th].Asked?));
    }
  }

  lemma CallbackMoves(w: World, th: L.Thread, ok: bool)
    requires CanWork(w, th) && OrdersOk(w) && BodyOk(w, th) && w.bodies[th].Asked? && w.bodies[th].kind.Epay?
    ensures var w' := WorkStep(w, th, ok);
      var t := L.PointOf(w.locks, th).t;
      Framed(w, w', th) && OrderMoves(w, w', t) && LostOnce(w, w', t)
  {
  }

  lemma CompletionMoves(w: World, th: L.Thread, ok: bool)
    requires CanWork(w, th) && OrdersOk(w) && BodyOk(w, th) && w.bodies[th].Asked? && w.bodies[th].kind.Admin?
    ensures var w' := WorkStep(w, th, ok);
      var t := L.PointOf(w.locks, th).t;
      Framed(w, w', th) && OrderMoves(w, w', t) && LostOnce(w, w', t)
  {
  }

  lemma LoadedMoves(w: World, th: L.Thread, ok: bool)
    requires CanWork(w, th) && OrdersOk(w) && BodyOk(w, th) && w.bodies[th].Loaded?
    ensures var w' := WorkStep(w, th, ok);
      var t := L.PointOf(w.locks, th).t;
      Framed(w, w', th) && OrderMoves(w, w', t) && LostOnce(w, w', t)
  {
  }

  lemma SavedMoves(w: World, th: L.Thread, ok: bool)
    requires CanWork(w, th) && OrdersOk(w) && BodyOk(w, th) && w.bodies[th].Saved?
    ensures var w' := WorkStep(w, th, ok);
      var t := L.PointOf(w.locks, th).t;
      Framed(w, w', th) && OrderMoves(w, w', t) && LostOnce(w, w', t)
  {
  }

  lemma StepWorks(w: World, th: L.Thread, ok: bool)
    requires CanWork(w, th) && OrdersOk(w) && BodiesOk(w) && CreditsOk(w)
    ensures Worked(w, WorkStep(w, th, ok), th)
  {
    var t := L.PointOf(w.locks, th).t;
    assert BodyOk(w, th);
    if t in w.orders && w.orders[t].status == Pending {
      PendingMeansUncredited(w, t);
    }
    StepPays(w, th, ok);
    match w.bodies[th] {
      case Asked(Epay(_)) => CallbackMoves(w, th, ok);
      case Asked(Admin) => CompletionMoves(w, th, ok);
      case Loaded(_) => LoadedMoves(w, th, ok);
      case Saved(_) => SavedMoves(w, th, ok);
    }
  }

  lemma OtherBodyKept(w: World, w': World, th: L.Thread, other: L.Thread)
    requires Exclusive(w.locks) && OrdersOk(w) && OrdersOk(w') && BodiesOk(w) && Worked(w, w', th)
    requires L.PointOf(w.locks, th).pc.Holding? && th in w.locks.at
    requires other in w.bodies && other != th
    ensures BodyOk(w', other)
  {
    assert BodyOk(w, other);
    if w.bodies[other].Loaded? || w.bodies[other].Saved? {
      var t := L.PointOf(w.locks, other).t;
      assert t != L.PointOf(w.locks, th).t;
      assert w'.orders[t] == w.orders[t];
      assert Credited(w', t) ==> Credited(w, t);
    }
  }

  lemma OwnBodyKept(w: World, th: L.Thread, ok: bool)
    requires CanWork(w, th) && OrdersOk(w) && BodiesOk(w) && CreditsOk(w)
    requires OrdersOk(WorkStep(w, th, ok)) && L.PointOf(w.locks, th).pc.Holding?
    ensures BodyOk(WorkStep(w, th, ok), th)
  {
    var t := L.PointOf(w.locks, th).t;
    assert BodyOk(w, th);
    if t in w.orders && w.orders[t].status == Pending {
      PendingMeansUncredited(w, t);
    }
  }

  lemma WorkKeepsCredits(w: World, w': World, th: L.Thread)
    requires OrdersOk(w) && CreditsOk(w) && Worked(w, w', th)
    ensures OrdersOk(w') && CreditsOk(w')
  {
    var t := L.PointOf(w.locks, th).t;
    forall i | 0 <= i < |w.credits| ensures CreditOk(w', w.credits[i]) {
      assert CreditOk(w, w.credits[i]);
    }
    forall t' | t' in w'.lost ensures LossOk(w', t') {
      assert t' in w.lost ==> LossOk(w, t');
    }
  }

  lemma PaymentCounts(w: World, w': World, t: L.TradeNo, c: Credit, u: User)
    requires Paid(w, w', t, c) && w'.initial == w.initial && w'.unit == w.unit
    requires Gained(w, u) == TotalWorth(w.initial, w.unit, w.credits, u)
    ensures Gained(w', u) == TotalWorth(w'.initial, w'.unit, w'.credits, u)
  {
    assert w'.credits[..|w.credits|] == w.credits && w'.credits[|w.credits|] == c;
  }

  lemma WorkKeepsGains(w: World, w': World, th: L.Thread)
    requires GainsOk(w) && w'.initial == w.initial && w'.unit == w.unit
    requires PaidOnce(w, w', L.PointOf(w.locks, th).t)
    ensures GainsOk(w')
  {
    var t := L.PointOf(w.locks, th).t;
    forall u ensures Gained(w', u) == TotalWorth(w'.initial, w'.unit, w'.credits, u) {
      forall c | Paid(w, w', t, c) {
        PaymentCounts(w, w', t, c, u);
      }
    }
  }

  /** A body that saved the row as successful is about to pay it, and leaves that state only by
      crediting the order or losing it. */
  lemma SaveLeadsToPayment(w: World, th: L.Thread, ok: bool)
    requires CanWork(w, th) && OrdersOk(w) && BodiesOk(w)
    ensures var w' := WorkStep(w, th, ok);
      var t := L.PointOf(w.locks, th).t;
      (w.bodies[th].Saved? || (t in w.orders && w'.orders[t].status != w.orders[t].status)) ==>
        w'.bodies[th].Saved? || t in w'.lost || (|w'.credits| > |w.credits| && w'.credits[|w.credits|].t == t)
  {
    assert BodyOk(w, th);
  }

  lemma WorkKeepsSettled(w: World, w': World, th: L.Thread, t: L.TradeNo)
    requires OrdersOk(w) && OrdersOk(w') && SettledOk(w) && Worked(w, w', th)
    requires var here := L.PointOf(w.locks, th).t;
      (w.bodies[th].Saved? || (here in w.orders && w'.orders[here].status != w.orders[here].status)) ==>
        w'.bodies[th].Saved? || here in w'.lost || (|w'.credits| > |w.credits| && w'.credits[|w.credits|].t == here)
    requires t in w.orders && w'.orders[t].status == Success && w.initial[t].status == Pending
    ensures Credited(w', t) || t in w'.lost || exists other :: BeingPaid(w', t, other)
  {
    assert w.credits <= w'.credits;
    if Credited(w, t) {
      var i :| 0 <= i < |w.credits| && w.credits[i].t == t;
      assert w'.credits[i].t == t;
    } else if t !in w'.lost {
      if w.orders[t].status == Success {
        var other :| BeingPaid(w, t, other);
        assert BeingPaid(w', t, other) || (other == th && Credited(w', t));
      } else {
        assert t == L.PointOf(w.locks, th).t;
        assert BeingPaid(w', t, th) || Credited(w', t);
      }
    }
  }

  lemma WorkKeepsInv(w: World, th: L.Thread, ok: bool)
    requires CanWork(w, th) && Exclusive(w.locks) && L.PointOf(w.locks, th).pc.Holding? && DataOk(w)
    ensures DataOk(WorkStep(w, th, ok))
  {
    var w' := WorkStep(w, th, ok);
    StepWorks(w, th, ok);
    SaveLeadsToPayment(w, th, ok);
    WorkKeepsCredits(w, w', th);
    WorkKeepsGains(w, w', th);
    OwnBodyKept(w, th, ok);
    forall other | other in w'.bodies && other != th {
      OtherBodyKept(w, w', th, other);
    }
    forall t | t in w'.orders && w'.orders[t].status == Success && w'.initial[t].status == Pending {
      WorkKeepsSettled(w, w', th, t);
    }
  }

  lemma MoveKeepsInv(w: World, e: Event)
    requires L.Typed(w.locks) && DataOk(w) && Enabled(w, e) && !e.Work?
    ensures DataOk(Next(w, e))
  {
    LockStepMoves(w, e);
    MoveKeepsBodies(w, Next(w, e), e.th);
    MoveKeepsCredits(w, Next(w, e), e.th);
  }

  lemma LocksKept(w: World, e: Event)
    requires L.Inv(w.locks) && Enabled(w, e)
    ensures L.Inv(Next(w, e).locks)
  {
    if !e.Work? {
      L.StepKeepsInv(w.locks, if e.Arrive? then L.Call(e.th, e.t) else L.Advance(e.th));
    }
  }

  lemma DataKept(w: World, e: Event)
    requires L.Typed(w.locks) && Exclusive(w.locks) && DataOk(w) && Enabled(w, e)
    ensures DataOk(Next(w, e))
  {
    if e.Work? {
      WorkKeepsInv(w, e.th, e.ok);
    } else {
      MoveKeepsInv(w, e);
    }
  }

  lemma StepKeepsInv(w: World, e: Event)
    requires Inv(w) && Enabled(w, e)
    ensures Inv(Next(w, e))
  {
    LocksExclude(w.locks);
    LocksKept(w, e);
    DataKept(w, e);
  }

  lemma StartInv(initial: map<L.TradeNo, TopUp>, unit: real)
    ensures Inv(Start(initial, unit))
  {
  }

  lemma StepKeepsConstants(w: World, e: Event)
    requires L.Typed(w.locks) && Enabled(w, e)
    ensures Next(w, e).initial == w.initial && Next(w, e).unit == w.unit
  {
  }

  lemma {:induction false} RunKeepsConstants(w: World, events: seq<Event>)
    requires IsSchedule(w, events)
    ensures After(w, events).initial == w.initial && After(w, events).unit == w.unit
    decreases |events|
  {
    if |events| > 0 {
      StepKeepsConstants(w, events[0]);
      RunKeepsConstants(Next(w, events[0]), events[1..]);
    }
  }

  lemma {:induction false} RunKeepsInv(w: World, events: seq<Event>)
    requires Inv(w) && IsSchedule(w, events)
    ensures Inv(After(w, events))
    decreases |events|
  {
    if |events| > 0 {
      StepKeepsInv(w, events[0]);
      RunKeepsInv(Next(w, events[0]), events[1..]);
    }
  }

  // ---------------------------------------------------------------- theorems over all runs

  /** However callbacks and manual completions repeat and interleave, no order is credited twice;
      a credited order was pending at first, is stored as successful whenever its credit exists,
      and was credited by a callback only if it is an Epay order. */
  lemma CreditedAtMostOnce(initial: map<L.TradeNo, TopUp>, unit: real, events: seq<Event>)
    requires IsSchedule(Start(initial, unit), events)
    ensures var w := After(Start(initial, unit), events);
      && (forall i, j :: 0 <= i < j < |w.credits| ==> w.credits[i].t != w.credits[j].t)
      && (forall i :: 0 <= i < |w.credits| ==>
            w.credits[i].t in w.orders && w.orders[w.credits[i].t].status == Success
            && w.credits[i].t in initial && initial[w.credits[i].t].status == Pending
            && (!w.credits[i].admin ==> initial[w.credits[i].t].provider == "epay"))
  {
    StartInv(initial, unit);
    RunKeepsInv(Start(initial, unit), events);
    RunKeepsConstants(Start(initial, unit), events);
    var w := After(Start(initial, unit), events);
    assert forall i :: 0 <= i < |w.credits| ==> CreditOk(w, w.credits[i]);
  }

  /** The exact value of an order: the amount bought times the quota per unit, or the money times
      that for a Stripe order that the administrator completes. */
  function Value(order: TopUp, unit: real, admin: bool): real {
    if admin && order.provider == "stripe" then order.money * unit else order.amount as real * unit
  }

  /** q is what crediting the order is worth. */
  predicate IsWorth(order: TopUp, unit: real, admin: bool, q: int) {
    IsIntegerPart(q, Value(order, unit, admin))
  }

  lemma QuotaMeaning(order: TopUp, unit: real)
    ensures EpayQuota(order, unit) == Truncate(Value(order, unit, false))
    ensures AdminQuota(order, unit) == Truncate(Value(order, unit, true))
  {
  }

  lemma WorthMeaning(initial: map<L.TradeNo, TopUp>, unit: real, c: Credit)
    requires c.t in initial
    ensures IsWorth(initial[c.t], unit, c.admin, Worth(initial, unit, c))
  {
    QuotaMeaning(initial[c.t], unit);
    TruncateMeaning(Value(initial[c.t], unit, c.admin));
  }

  /** The sum of those worths whose order is user u's. */
  function SumFor(initial: map<L.TradeNo, TopUp>, credits: seq<Credit>, worths: seq<int>, u: User): int
    requires |worths| == |credits|
  {
    if |credits| == 0 then 0
    else
      var n := |credits| - 1;
      SumFor(initial, credits[..n], worths[..n], u)
      + if credits[n].t in initial && initial[credits[n].t].user == u then worths[n] else 0
  }

  lemma {:induction false} SumIsTotal(initial: map<L.TradeNo, TopUp>, unit: real, credits: seq<Credit>,
                                     worths: seq<int>, u: User)
    requires |worths| == |credits|
    requires forall i :: 0 <= i < |credits| ==> worths[i] == Worth(initial, unit, credits[i])
    ensures SumFor(initial, credits, worths, u) == TotalWorth(initial, unit, credits, u)
  {
    if |credits| > 0 {
      SumIsTotal(initial, unit, credits[..|credits| - 1], worths[..|credits| - 1], u);
    }
  }

  /** A user's total gain is the sum, over that user's credited orders, of what each is worth by the
      order as first stored. */
  lemma GainIsSumOfCredits(initial: map<L.TradeNo, TopUp>, unit: real, events: seq<Event>, u: User)
    returns (worths: seq<int>)
    requires IsSchedule(Start(initial, unit), events)
    ensures var w := After(Start(initial, unit), events);
      && |worths| == |w.credits|
      && (forall i :: 0 <= i < |worths| ==>
            var c := w.credits[i]; c.t in initial && IsWorth(initial[c.t], unit, c.admin, worths[i]))
      && Gained(w, u) == SumFor(initial, w.credits, worths, u)
  {
    StartInv(initial, unit);
    RunKeepsInv(Start(initial, unit), events);
    RunKeepsConstants(Start(initial, unit), events);
    var w := After(Start(initial, unit), events);
    worths := seq(|w.credits|, i requires 0 <= i < |w.credits| => Worth(initial, unit, w.credits[i]));
    forall i | 0 <= i < |worths|
      ensures w.credits[i].t in initial
      ensures IsWorth(initial[w.credits[i].t], unit, w.credits[i].admin, worths[i])
    {
      assert CreditOk(w, w.credits[i]);
      WorthMeaning(initial, unit, w.credits[i]);
    }
    SumIsTotal(initial, unit, w.credits, worths, u);
  }

  // ---------------------------------------------------------------- credits do happen

  /** What order t's one credit of q changes: its row, and its user's gain. */
  predicate Gains(w: World, w': World, th: L.Thread, t: L.TradeNo, row: TopUp, q: int, admin: bool) {
    w' == w.(orders := w.orders[t := row], gained := w.gained[row.user := Gained(w, row.user) + q],
             credits := w.credits + [Credit(t, admin)], bodies := w.bodies[th := Done])
  }

  /** A callback that holds the lock of a pending Epay order and whose database calls succeed
      credits it: the row becomes successful with the reported payment method, the user gains the
      integer part of amount times unit, and nothing else changes. */
  lemma CallbackCredits(w: World, th: L.Thread, payType: string) returns (q: int)
    requires L.Typed(w.locks) && L.PointOf(w.locks, th).pc.Holding?
    requires th in w.bodies && w.bodies[th] == Asked(Epay(payType))
    requires var t := L.PointOf(w.locks, th).t;
      t in w.orders && w.orders[t].provider == "epay" && w.orders[t].status == Pending
      && Value(w.orders[t], w.unit, false) >= 0.0
    ensures var t := L.PointOf(w.locks, th).t;
      var events := [Work(th, true), Work(th, true), Work(th, true)];
      && IsSchedule(w, events) && IsWorth(w.orders[t], w.unit, false, q)
      && Gains(w, After(w, events), th, t, w.orders[t].(status := Success, payMethod := payType), q, false)
  {
    var t := L.PointOf(w.locks, th).t;
    var e := Work(th, true);
    var row := w.orders[t].(status := Success, payMethod := payType);
    QuotaMeaning(w.orders[t], w.unit);
    TruncateMeaning(Value(w.orders[t], w.unit, false));
    q := EpayQuota(w.orders[t], w.unit);
    SameWorth(row, w.orders[t], w.unit);
    var w1 := w.(bodies := w.bodies[th := Loaded(row)]);
    var w2 := w1.(orders := w.orders[t := row], bodies := w1.bodies[th := Saved(row)]);
    var w3 := Pay(w2.(bodies := w2.bodies[th := Done]), t, row, q, false);
    assert Next(w, e) == w1 && Next(w1, e) == w2 && Next(w2, e) == w3;
    LeadsOn(w2, e, [], w3, w3);
    LeadsOn(w1, e, [e], w2, w3);
    LeadsOn(w, e, [e, e], w1, w3);
    assert w3.bodies == w.bodies[th := Done];
  }

  predicate Leads(w: World, events: seq<Event>, w': World) {
    IsSchedule(w, events) && After(w, events) == w'
  }

  lemma LeadsOn(w: World, e: Event, events: seq<Event>, w1: World, w': World)
    requires L.Typed(w.locks) && Enabled(w, e) && Next(w, e) == w1 && Leads(w1, events, w')
    ensures Leads(w, [e] + events, w')
  {
    assert ([e] + events)[1..] == events;
  }

  /** A manual completion that holds the lock of a pending order with a positive worth, and whose
      transaction succeeds, credits it in one step. */
  lemma CompletionCredits(w: World, th: L.Thread) returns (q: int)
    requires L.Typed(w.locks) && L.PointOf(w.locks, th).pc.Holding?
    requires th in w.bodies && w.bodies[th] == Asked(Admin)
    requires var t := L.PointOf(w.locks, th).t;
      t in w.orders && w.orders[t].status == Pending
      && Value(w.orders[t], w.unit, true) >= 1.0
    ensures var t := L.PointOf(w.locks, th).t;
      && Enabled(w, Work(th, true)) && IsWorth(w.orders[t], w.unit, true, q)
      && Gains(w, Next(w, Work(th, true)), th, t, w.orders[t].(status := Success), q, true)
  {
    var t := L.PointOf(w.locks, th).t;
    QuotaMeaning(w.orders[t], w.unit);
    TruncateMeaning(Value(w.orders[t], w.unit, true));
    SameWorth(w.orders[t].(status := Success), w.orders[t], w.unit);
    q := AdminQuota(w.orders[t], w.unit);
  }

  /** A callback for an order that is unknown, not pending or not Epay's, and a completion of one that
      is unknown, not pending or worth less than one, change nothing. */
  lemma RefusedChangesNothing(w: World, th: L.Thread, ok: bool)
    requires L.Typed(w.locks) && Enabled(w, Work(th, ok)) && w.bodies[th].Asked?
    requires var t := L.PointOf(w.locks, th).t;
      t !in w.orders || w.orders[t].status != Pending
      || (if w.bodies[th].kind.Epay? then w.orders[t].provider != "epay" else Value(w.orders[t], w.unit, true) < 1.0)
    ensures Next(w, Work(th, ok)) == w.(bodies := w.bodies[th := Done])
  {
    var t := L.PointOf(w.locks, th).t;
    if t in w.orders {
      QuotaMeaning(w.orders[t], w.unit);
      TruncateMeaning(Value(w.orders[t], w.unit, true));
    }
  }

  /** Once every thread is idle, exactly the orders that became successful are credited, but for
      those whose quota increase itself failed (or had a negative amount) after the save. */
  lemma IdleMeansSettled(initial: map<L.TradeNo, TopUp>, unit: real, events: seq<Event>, t: L.TradeNo)
    requires IsSchedule(Start(initial, unit), events)
    requires L.AllIdle(After(Start(initial, unit), events).locks)
    ensures var w := After(Start(initial, unit), events);
      t in w.orders && t in initial && initial[t].status == Pending && w.orders[t].status == Success
      <==> Credited(w, t) || t in w.lost
    ensures var w := After(Start(initial, unit), events); !(Credited(w, t) && t in w.lost)
  {
    StartInv(initial, unit);
    RunKeepsInv(Start(initial, unit), events);
    RunKeepsConstants(Start(initial, unit), events);
    var w := After(Start(initial, unit), events);
    assert forall i :: 0 <= i < |w.credits| ==> CreditOk(w, w.credits[i]);
    assert t in w.lost ==> LossOk(w, t);
    forall th ensures !BeingPaid(w, t, th) {
      assert th in w.bodies ==> BodyOk(w, th);
    }
  }
}
