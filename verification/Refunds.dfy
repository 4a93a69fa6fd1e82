/**
 The life of a refund: RequestRefund of internal/service/user_service.go, Approve
 and Reject of pkg/admin/refund/processor.go, Refund of
 pkg/admin/subscription/manager.go. Each request runs on its own.
 */
module Refunds {
  import opened Wrappers
  import opened UnitOfWork
  import opened Billing

  datatype Failure =
    | NotFound | NotActive | NotEligible | AlreadyRequested | AlreadyProcessed | Database

  /** The call that fails. */
  datatype Break = NoBreak | BeginBreaks | FirstWriteBreaks | SecondWriteBreaks | CommitBreaks

  predicate Open(r: Refund) {
    r.status == "pending" || r.status == "approved"
  }

  /** The refunds of a subscription that are pending or approved. */
  function OpenFor(t: Tables, subscriptionId: Id): set<Id> {
    set r | r in t.refunds && t.refunds[r].subscriptionId == subscriptionId && Open(t.refunds[r])
  }

  // ---------------------------------------------------------------- the requests

  /** Why a refund request is turned down, if it is. */
  function Refusal(t: Tables, userId: Id, subscriptionId: Id): Option<Failure> {
    if subscriptionId !in t.subs || t.subs[subscriptionId].userId != userId then Some(NotFound)
    else if t.subs[subscriptionId].status != "active" then Some(NotActive)
    else if t.subs[subscriptionId].paymentStatus != "success" then Some(NotEligible)
    else if OpenFor(t, subscriptionId) != {} then Some(AlreadyRequested)
    else None
  }

  lemma RefusalIff(t: Tables, userId: Id, subscriptionId: Id)
    ensures Refusal(t, userId, subscriptionId) == None <==>
              && subscriptionId in t.subs && t.subs[subscriptionId].userId == userId
              && t.subs[subscriptionId].status == "active" && t.subs[subscriptionId].paymentStatus == "success"
              && forall r :: r in t.refunds && t.refunds[r].subscriptionId == subscriptionId ==>
                   t.refunds[r].status != "pending" && t.refunds[r].status != "approved"
  {
    assert forall r :: r in OpenFor(t, subscriptionId) <==>
        r in t.refunds && t.refunds[r].subscriptionId == subscriptionId
        && (t.refunds[r].status == "pending" || t.refunds[r].status == "approved");
  }

  function Requested(t: Tables, plans: Plans, userId: Id, subscriptionId: Id, refundId: Id, reason: string): Tables
    requires subscriptionId in t.subs
  {
    var amount := PriceOf(plans, t.subs[subscriptionId].planId);
    t.(refunds := t.refunds[refundId := Refund(subscriptionId, userId, amount, reason, "pending", "", None)])
  }

  /** userService.RequestRefund. */
  method RequestRefund(uow: Unit<Tables>, plans: Plans, userId: Id, subscriptionId: Id, refundId: Id, reason: string,
                       breaks: Break)
    returns (result: Result<Id, Failure>)
    requires uow.tx.NoTx? && refundId !in uow.db.refunds
    modifies uow
    ensures uow.tx.NoTx?
    ensures var refusal := Refusal(old(uow.db), userId, subscriptionId);
            if refusal.Some? then result == Err(refusal.value) && uow.db == old(uow.db)
            else if breaks.FirstWriteBreaks? then result == Err(Database) && uow.db == old(uow.db)
            else result == Ok(refundId) && uow.db == Requested(old(uow.db), plans, userId, subscriptionId, refundId, reason)
    ensures result.Ok? ==>
              && subscriptionId in old(uow.db).subs && uow.db.subs == old(uow.db).subs
              && var planId := old(uow.db).subs[subscriptionId].planId;
                 uow.db.refunds
                 == old(uow.db).refunds[refundId := Refund(subscriptionId, userId,
                                                           if planId in plans then plans[planId].price else 0.0,
                                                           reason, "pending", "", None)]
    ensures !breaks.FirstWriteBreaks? ==>
              (result.Ok? <==>
                 && subscriptionId in old(uow.db).subs && old(uow.db).subs[subscriptionId].userId == userId
                 && old(uow.db).subs[subscriptionId].status == "active"
                 && old(uow.db).subs[subscriptionId].paymentStatus == "success"
                 && forall r :: r in old(uow.db).refunds && old(uow.db).refunds[r].subscriptionId == subscriptionId ==>
                      old(uow.db).refunds[r].status != "pending" && old(uow.db).refunds[r].status != "approved")
  {
    RefusalIff(uow.db, userId, subscriptionId);
    var t := uow.db;
    if subscriptionId !in t.subs || t.subs[subscriptionId].userId != userId {
      return Err(NotFound);
    }
    var sub := t.subs[subscriptionId];
    if sub.status != "active" {
      return Err(NotActive);
    }
    if sub.paymentStatus != "success" {
      return Err(NotEligible);
    }
    var existing := set r | r in t.refunds && t.refunds[r].subscriptionId == subscriptionId;
    ghost var all := existing;
    while existing != {}
      invariant existing <= all && forall r :: r in all && r !in existing ==> !Open(t.refunds[r])
      decreases existing
    {
      var r :| r in existing;
      if t.refunds[r].status == "pending" || t.refunds[r].status == "approved" {
        assert r in OpenFor(t, subscriptionId);
        return Err(AlreadyRequested);
      }
      existing := existing - {r};
    }
    assert OpenFor(t, subscriptionId) == {};
    var amount := 0.0;
    if sub.planId in plans {
      amount := plans[sub.planId].price;
    }
    var refund := Refund(subscriptionId, userId, amount, reason, "pending", "", None);
    var err := uow.Exec((t: Tables) => t.(refunds := t.refunds[refundId := refund]), breaks.FirstWriteBreaks?);
    result := if err then Err(Database) else Ok(refundId);
  }

  /** A subscription that has been paid back. */
  function PaidBack(sub: Subscription, now: int): Subscription {
    sub.(status := "canceled", paymentStatus := "refunded", periodEnd := now)
  }

  function Decided(t: Tables, refundId: Id, status: string, notes: string, now: int): Tables
    requires refundId in t.refunds
  {
    t.(refunds := t.refunds[refundId := t.refunds[refundId].(status := status, adminNotes := notes, processedAt := Some(now))])
  }

  /** One refund gets a status, notes and a time; no other refund changes. */
  predicate IsDecided(t: Tables, after: Tables, refundId: Id, status: string, notes: string, now: int) {
    && refundId in t.refunds && after.refunds.Keys == t.refunds.Keys
    && (forall r :: r in t.refunds && r != refundId ==> after.refunds[r] == t.refunds[r])
    && after.refunds[refundId].status == status && after.refunds[refundId].adminNotes == notes
    && after.refunds[refundId].processedAt == Some(now)
    && after.refunds[refundId].subscriptionId == t.refunds[refundId].subscriptionId
    && after.refunds[refundId].userId == t.refunds[refundId].userId
    && after.refunds[refundId].amount == t.refunds[refundId].amount
    && after.refunds[refundId].reason == t.refunds[refundId].reason
  }

  /** The tables after an approval: the refund, and its subscription if it exists. */
  function Approved(t: Tables, refundId: Id, notes: string, now: int): Tables
    requires refundId in t.refunds
  {
    var subId := t.refunds[refundId].subscriptionId;
    var u := Decided(t, refundId, "approved", notes, now);
    if subId in t.subs then u.(subs := t.subs[subId := PaidBack(t.subs[subId], now)]) else u
  }

  /** Processor.Approve; `announced` tells whether the approval was published, which happens before the commit. */
  method Approve(uow: Unit<Tables>, refundId: Id, notes: string, now: int, breaks: Break)
    returns (result: Result<real, Failure>, announced: bool)
    requires uow.tx.NoTx?
    modifies uow
    ensures !uow.tx.Open?
    ensures refundId !in old(uow.db).refunds ==> result == Err(NotFound)
    ensures refundId in old(uow.db).refunds && old(uow.db).refunds[refundId].status != "pending" ==>
              result == Err(AlreadyProcessed)
    ensures result.Err? ==> uow.db == old(uow.db)
    ensures result.Ok? ==>
              && refundId in old(uow.db).refunds && old(uow.db).refunds[refundId].status == "pending"
              && result.value == old(uow.db).refunds[refundId].amount
              && uow.db == Approved(old(uow.db), refundId, notes, now) && announced
              && IsDecided(old(uow.db), uow.db, refundId, "approved", notes, now)
              && var subId := old(uow.db).refunds[refundId].subscriptionId;
                 uow.db.subs == if subId !in old(uow.db).subs then old(uow.db).subs
                                else old(uow.db).subs[subId := old(uow.db).subs[subId].(
                                       status := "canceled", paymentStatus := "refunded", periodEnd := now)]
    ensures breaks.NoBreak? && refundId in old(uow.db).refunds && old(uow.db).refunds[refundId].status == "pending" ==>
              result.Ok?
    ensures announced && result.Err? <==>
              refundId in old(uow.db).refunds && old(uow.db).refunds[refundId].status == "pending" && breaks.CommitBreaks?
  {
    announced := false;
    if refundId !in uow.db.refunds {
      return Err(NotFound), false;
    }
    var refund := uow.db.refunds[refundId];
    if refund.status != "pending" {
      return Err(AlreadyProcessed), false;
    }
    var err := uow.Begin(breaks.BeginBreaks?);
    if err {
      return Err(Database), false;
    }
    refund := refund.(status := "approved");
    refund := refund.(adminNotes := notes);
    refund := refund.(processedAt := Some(now));
    var saved := refund;
    err := uow.Exec((t: Tables) => t.(refunds := t.refunds[refundId := saved]), breaks.FirstWriteBreaks?);
    if err {
      var rolled := uow.Rollback();
      return Err(Database), false;
    }
    var subId := refund.subscriptionId;
    if subId in uow.View().Current().subs {
      var sub := PaidBack(uow.View().Current().subs[subId], now);
      err := uow.Exec((t: Tables) => t.(subs := t.subs[subId := sub]), breaks.SecondWriteBreaks?);
      if err {
        var rolled := uow.Rollback();
        return Err(Database), false;
      }
    }
    announced := true;
    err := uow.Commit(breaks.CommitBreaks?);
    var rolled := uow.Rollback();
    result := if err then Err(Database) else Ok(refund.amount);
  }

  /** Processor.Reject; `announced` tells whether the rejection was published, which happens before the commit. */
  method Reject(uow: Unit<Tables>, refundId: Id, notes: string, now: int, breaks: Break)
    returns (result: Result<Id, Failure>, announced: bool)
    requires uow.tx.NoTx?
    modifies uow
    ensures !uow.tx.Open?
    ensures refundId !in old(uow.db).refunds ==> result == Err(NotFound)
    ensures refundId in old(uow.db).refunds && old(uow.db).refunds[refundId].status != "pending" ==>
              result == Err(AlreadyProcessed)
    ensures result.Err? ==> uow.db == old(uow.db)
    ensures result.Ok? ==>
              && refundId in old(uow.db).refunds && old(uow.db).refunds[refundId].status == "pending"
              && result.value == refundId && uow.db == Decided(old(uow.db), refundId, "rejected", notes, now)
              && announced
              && IsDecided(old(uow.db), uow.db, refundId, "rejected", notes, now) && uow.db.subs == old(uow.db).subs
    ensures announced && result.Err? <==>
              refundId in old(uow.db).refunds && old(uow.db).refunds[refundId].status == "pending" && breaks.CommitBreaks?
    ensures breaks.NoBreak? && refundId in old(uow.db).refunds && old(uow.db).refunds[refundId].status == "pending" ==>
              result.Ok?
  {
    announced := false;
    if refundId !in uow.db.refunds {
      return Err(NotFound), false;
    }
    var refund := uow.db.refunds[refundId];
    if refund.status != "pending" {
      return Err(AlreadyProcessed), false;
    }
    var err := uow.Begin(breaks.BeginBreaks?);
    if err {
      return Err(Database), false;
    }
    refund := refund.(status := "rejected");
    refund := refund.(adminNotes := notes);
    refund := refund.(processedAt := Some(now));
    var saved := refund;
    err := uow.Exec((t: Tables) => t.(refunds := t.refunds[refundId := saved]), breaks.FirstWriteBreaks?);
    if err {
      var rolled := uow.Rollback();
      return Err(Database), false;
    }
    announced := true;
    err := uow.Commit(breaks.CommitBreaks?);
    var rolled := uow.Rollback();
    result := if err then Err(Database) else Ok(refundId);
  }

  /** The tables after an administrator's direct refund: paid back, with a record that is neither pending nor approved. */
  function DirectlyRefunded(t: Tables, plans: Plans, subId: Id, amount: Option<real>, refundId: Id, reason: string,
                            now: int): Tables
    requires subId in t.subs
  {
    var sub := t.subs[subId];
    var paid := if amount.Some? then amount.value else PriceOf(plans, sub.planId);
    Tables(t.subs[subId := PaidBack(sub, now)],
           t.refunds[refundId := Refund(subId, sub.userId, paid, reason, "processed", "", None)])
  }

  /** Manager.Refund. */
  method RefundDirectly(uow: Unit<Tables>, plans: Plans, subId: Id, amount: Option<real>, refundId: Id, reason: string,
                        now: int, breaks: Break)
    returns (result: Result<real, Failure>)
    requires uow.tx.NoTx? && refundId !in uow.db.refunds
    modifies uow
    ensures !uow.tx.Open?
    ensures result.Ok? <==> subId in old(uow.db).subs && breaks.NoBreak?
    ensures result.Err? ==> uow.db == old(uow.db)
    ensures result.Ok? ==>
              && uow.db == DirectlyRefunded(old(uow.db), plans, subId, amount, refundId, reason, now)
              && result.value == uow.db.refunds[refundId].amount
              && var sub := old(uow.db).subs[subId];
                 && result.value == (if amount.Some? then amount.value
                                     else if sub.planId in plans then plans[sub.planId].price else 0.0)
                 && uow.db.subs == old(uow.db).subs[subId := sub.(status := "canceled", paymentStatus := "refunded", periodEnd := now)]
                 && uow.db.refunds == old(uow.db).refunds[refundId := Refund(subId, sub.userId, result.value, reason, "processed", "", None)]
  {
    if subId !in uow.db.subs {
      return Err(NotFound);
    }
    var sub := uow.db.subs[subId];
    var err := uow.Begin(breaks.BeginBreaks?);
    if err {
      return Err(Database);
    }
    var paidBack := PaidBack(sub, now);
    err := uow.Exec((t: Tables) => t.(subs := t.subs[subId := paidBack]), breaks.FirstWriteBreaks?);
    if err {
      var rolled := uow.Rollback();
      return Err(Database);
    }
    var refundAmt := 0.0;
    if amount.Some? {
      refundAmt := amount.value;
    } else if sub.planId in plans {
      refundAmt := plans[sub.planId].price;
    }
    var refund := Refund(subId, sub.userId, refundAmt, reason, "processed", "", None);
    err := uow.Exec((t: Tables) => t.(refunds := t.refunds[refundId := refund]), breaks.SecondWriteBreaks?);
    if !err {
      err := uow.Commit(breaks.CommitBreaks?);
    }
    var rolled := uow.Rollback();
    result := if err then Err(Database) else Ok(refundAmt);
  }

  // ---------------------------------------------------------------- runs

  /** A request that went through. Requests that fail leave the tables as they are. */
  datatype Event =
    | Ask(userId: Id, subscriptionId: Id, refundId: Id, reason: string)
    | Accept(refundId: Id, notes: string, now: int)
    | Decline(refundId: Id, notes: string, now: int)
    | PayBack(subscriptionId: Id, amount: Option<real>, refundId: Id, reason: string, now: int)
    | Replace(userId: Id, step: Step)

  predicate Enabled(t: Tables, e: Event) {
    match e
    case Ask(userId, subscriptionId, refundId, _) => refundId !in t.refunds && Refusal(t, userId, subscriptionId).None?
    case Accept(refundId, _, _) => refundId in t.refunds && t.refunds[refundId].status == "pending"
    case Decline(refundId, _, _) => refundId in t.refunds && t.refunds[refundId].status == "pending"
    case PayBack(subscriptionId, _, refundId, _, _) => subscriptionId in t.subs && refundId !in t.refunds
    // The new subscription gets an identifier that no refund names.
    case Replace(userId, step) =>
      ValidPick(t, userId, step.current) && step.newId !in t.subs
      && forall r :: r in t.refunds ==> t.refunds[r].subscriptionId != step.newId
  }

  function Apply(t: Tables, plans: Plans, e: Event): Tables
    requires Enabled(t, e)
  {
    match e
    case Ask(userId, subscriptionId, refundId, reason) => Requested(t, plans, userId, subscriptionId, refundId, reason)
    case Accept(refundId, notes, now) => Approved(t, refundId, notes, now)
    case Decline(refundId, notes, now) => Decided(t, refundId, "rejected", notes, now)
    case PayBack(subscriptionId, amount, refundId, reason, now) =>
      DirectlyRefunded(t, plans, subscriptionId, amount, refundId, reason, now)
    case Replace(userId, step) => Take(t, userId, step)
  }

  /**
   Each subscription has at most one open refund, every open refund names a
   stored subscription, and the subscription of an approved refund is paid back.
   */
  ghost predicate Inv(t: Tables) {
    && (forall a, b ::
          a in t.refunds && b in t.refunds && Open(t.refunds[a]) && Open(t.refunds[b])
            && t.refunds[a].subscriptionId == t.refunds[b].subscriptionId
          ==> a == b)
    && (forall r :: r in t.refunds && Open(t.refunds[r]) ==> t.refunds[r].subscriptionId in t.subs)
    && (forall r :: r in t.refunds && t.refunds[r].status == "approved" ==>
          var sub := t.subs[t.refunds[r].subscriptionId];
          sub.status == "canceled" && sub.paymentStatus == "refunded")
  }

  /** A refund that has left "pending" never changes again. */
  predicate Settles(t: Tables, u: Tables) {
    forall r :: r in t.refunds ==>
      r in u.refunds && (t.refunds[r].status != "pending" ==> u.refunds[r] == t.refunds[r])
  }

  lemma StepKeepsInv(t: Tables, plans: Plans, e: Event)
    requires Inv(t) && Enabled(t, e)
    ensures Inv(Apply(t, plans, e)) && Settles(t, Apply(t, plans, e))
  {
    match e
    case Ask(userId, subscriptionId, refundId, _) =>
      forall r | r in t.refunds && t.refunds[r].subscriptionId == subscriptionId ensures !Open(t.refunds[r]) {
        assert r !in OpenFor(t, subscriptionId);
      }
    case Accept(_, _, _) =>
    case Decline(_, _, _) =>
    case PayBack(_, _, _, _, _) =>
    case Replace(_, _) =>
  }

  predicate IsRun(t: Tables, plans: Plans, events: seq<Event>)
    decreases |events|
  {
    events == [] || (Enabled(t, events[0]) && IsRun(Apply(t, plans, events[0]), plans, events[1..]))
  }

  function After(t: Tables, plans: Plans, events: seq<Event>): Tables
    requires IsRun(t, plans, events)
    decreases |events|
  {
    if events == [] then t else After(Apply(t, plans, events[0]), plans, events[1..])
  }

  /**
   Over any run of refund requests, decisions, direct refunds and upgrades: at
   most one open refund per subscription, decided refunds are final, and an
   approved refund always comes with a subscription that is paid back.
   */
  lemma {:induction false} RefundsAreSound(t: Tables, plans: Plans, events: seq<Event>)
    requires Inv(t) && IsRun(t, plans, events)
    ensures Inv(After(t, plans, events)) && Settles(t, After(t, plans, events))
    decreases |events|
  {
    if events != [] {
      StepKeepsInv(t, plans, events[0]);
      RefundsAreSound(Apply(t, plans, events[0]), plans, events[1..]);
    }
  }

  /** While a refund is pending or approved no second one can be requested, by anybody. */
  lemma OpenRefundBlocksRequest(t: Tables, r: Id, userId: Id)
    requires Inv(t) && r in t.refunds && Open(t.refunds[r])
    ensures Refusal(t, userId, t.refunds[r].subscriptionId).Some?
  {
    assert r in OpenFor(t, t.refunds[r].subscriptionId);
  }

  /**
   An upgrade records the payment as "paid", but refunds are granted for
   "success" only: the subscription an upgrade creates cannot be refunded on request.
   */
  lemma UpgradedIsNotRefundable(t: Tables, userId: Id, step: Step)
    requires ValidPick(t, userId, step.current)
    ensures Refusal(Take(t, userId, step), userId, step.newId) == Some(NotEligible)
  {
  }
}
