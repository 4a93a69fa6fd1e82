/**
 Subscription upgrades with proration: pkg/admin/subscription/manager.go, Upgrade.
 Prices and fractions are real numbers, instants are integers.
 */
module Billing {
  import opened Wrappers
  import opened UnitOfWork

  type Id = nat

  datatype Plan = Plan(price: real, yearly: bool)

  datatype Subscription = Subscription(
    userId: Id, planId: Id, billingAddress: Option<Id>,
    status: string, paymentStatus: string, periodStart: int, periodEnd: int)

  datatype Refund = Refund(
    subscriptionId: Id, userId: Id, amount: real, reason: string,
    status: string, adminNotes: string, processedAt: Option<int>)

  datatype Tables = Tables(subs: map<Id, Subscription>, refunds: map<Id, Refund>)

  type Plans = map<Id, Plan>

  /** Calendar arithmetic: one month and one year after an instant. */
  datatype Calendar = Calendar(addMonth: int -> int, addYear: int -> int)

  datatype Fault = NoFault | AtBegin | AtOldPlan | AtUpdate | AtCreate | AtCommit

  datatype Error = UserNotFound | PlanNotFound | DatabaseError

  datatype Upgraded = Upgraded(oldId: Option<Id>, newId: Id, credit: real, amountDue: real)

  predicate ActiveFor(t: Tables, userId: Id, id: Id) {
    id in t.subs && t.subs[id].userId == userId && t.subs[id].status == "active"
  }

  function ActiveIds(t: Tables, userId: Id): set<Id> {
    set id | id in t.subs && ActiveFor(t, userId, id)
  }

  /** The query for "the" active subscription returns some active row, or none if there is none. */
  predicate ValidPick(t: Tables, userId: Id, current: Option<Id>) {
    match current
    case None => ActiveIds(t, userId) == {}
    case Some(id) => ActiveFor(t, userId, id)
  }

  /** The part of a period that has not been used at `now`, as a fraction; nothing once it has ended. */
  function Remaining(sub: Subscription, now: int): real {
    var total, left := sub.periodEnd - sub.periodStart, sub.periodEnd - now;
    if left > 0 && total > 0 then left as real / total as real else 0.0
  }

  /** The price of a plan; a plan that cannot be found counts for nothing. */
  function PriceOf(plans: Plans, planId: Id): real {
    if planId in plans then plans[planId].price else 0.0
  }

  /** What is credited for the replaced subscription, before it is capped. */
  function Unused(plans: Plans, t: Tables, current: Option<Id>, now: int): real
    requires current.Some? ==> current.value in t.subs
  {
    if current.None? then 0.0
    else PriceOf(plans, t.subs[current.value].planId) * Remaining(t.subs[current.value], now)
  }

  function Min(a: real, b: real): real {
    if a > b then b else a
  }

  function PeriodEnd(plan: Plan, now: int, calendar: Calendar): int {
    if plan.yearly then calendar.addYear(now) else calendar.addMonth(now)
  }

  /** The tables after an upgrade. */
  function AfterUpgrade(t: Tables, userId: Id, planId: Id, current: Option<Id>, newId: Id, now: int, end: int): Tables
    requires current.Some? ==> current.value in t.subs
  {
    var canceled := if current.None? then t.subs
                    else t.subs[current.value := t.subs[current.value].(status := "canceled")];
    var address := if current.None? then None else t.subs[current.value].billingAddress;
    t.(subs := canceled[newId := Subscription(userId, planId, address, "active", "paid", now, end)])
  }

  /** No call that is made fails, or only the lookup of the old plan, which is ignored. */
  predicate Survives(fault: Fault, current: Option<Id>) {
    fault.NoFault? || fault.AtOldPlan? || (fault.AtUpdate? && current.None?)
  }

  /** Credits the unused part of the replaced subscription and cancels it. */
  method CancelReplaced(uow: Unit<Tables>, plans: Plans, id: Id, now: int, fault: Fault)
    returns (err: bool, credit: real)
    requires uow.tx.Open? && id in uow.tx.view.subs
    modifies uow
    ensures uow.db == old(uow.db) && uow.tx.Open?
    ensures err <==> fault == AtUpdate
    ensures credit == if fault == AtOldPlan then 0.0 else Unused(plans, old(uow.tx).view, Some(id), now)
    ensures !err ==>
              var t := old(uow.tx).view;
              uow.tx.view == t.(subs := t.subs[id := t.subs[id].(status := "canceled")])
  {
    credit := 0.0;
    var sub := uow.View().Current().subs[id];
    var totalDuration := sub.periodEnd - sub.periodStart;
    var usedDuration := now - sub.periodStart;
    var remainingDuration := totalDuration - usedDuration;
    if remainingDuration > 0 && totalDuration > 0 {
      if fault != AtOldPlan && sub.planId in plans {
        var percentRemaining := remainingDuration as real / totalDuration as real;
        credit := plans[sub.planId].price * percentRemaining;
      }
    }
    sub := sub.(status := "canceled");
    var saved := sub;
    err := uow.Exec((t: Tables) => t.(subs := t.subs[id := saved]), fault == AtUpdate);
  }

  /** The credit for the replaced subscription: the price of the rest of its period, at most the new price. */
  predicate IsCredit(plans: Plans, t: Tables, current: Option<Id>, price: real, now: int, lookupFails: bool, credit: real)
    requires current.Some? ==> current.value in t.subs
  {
    var rest :=
      if current.None? || lookupFails || t.subs[current.value].planId !in plans then 0.0
      else
        var start, end := t.subs[current.value].periodStart, t.subs[current.value].periodEnd;
        if now < end && start < end
        then plans[t.subs[current.value].planId].price * ((end - now) as real / (end - start) as real)
        else 0.0;
    credit == if rest > price then price else rest
  }

  /** The new row, the replaced row canceled, and nothing else changed. */
  predicate IsUpgraded(plans: Plans, t: Tables, userId: Id, planId: Id, current: Option<Id>, newId: Id, now: int,
                       calendar: Calendar, after: Tables)
    requires planId in plans && (current.Some? ==> current.value in t.subs)
  {
    && after.refunds == t.refunds && after.subs.Keys == t.subs.Keys + {newId}
    && after.subs[newId]
       == Subscription(userId, planId, if current.Some? then t.subs[current.value].billingAddress else None,
                       "active", "paid", now,
                       if plans[planId].yearly then calendar.addYear(now) else calendar.addMonth(now))
    && forall id :: id in t.subs && id != newId ==>
         after.subs[id] == if current == Some(id) then t.subs[id].(status := "canceled") else t.subs[id]
  }

  lemma UpgradeFacts(plans: Plans, t: Tables, userId: Id, planId: Id, current: Option<Id>, newId: Id, now: int,
                     calendar: Calendar, lookupFails: bool)
    requires planId in plans && (current.Some? ==> current.value in t.subs) && newId !in t.subs
    ensures IsUpgraded(plans, t, userId, planId, current, newId, now, calendar,
                       AfterUpgrade(t, userId, planId, current, newId, now, PeriodEnd(plans[planId], now, calendar)))
    ensures IsCredit(plans, t, current, plans[planId].price, now, lookupFails,
                     Min(if lookupFails then 0.0 else Unused(plans, t, current, now), plans[planId].price))
  {
  }

  method Upgrade(uow: Unit<Tables>, plans: Plans, userFound: bool, userId: Id, planId: Id, current: Option<Id>,
                 newId: Id, now: int, calendar: Calendar, fault: Fault)
    returns (result: Result<Upgraded, Error>)
    requires uow.tx.NoTx? && ValidPick(uow.db, userId, current) && newId !in uow.db.subs
    modifies uow
    ensures result.Ok? <==> userFound && planId in plans && Survives(fault, current)
    ensures result.Err? ==> uow.db == old(uow.db)
    ensures result.Ok? ==>
              uow.db == AfterUpgrade(old(uow.db), userId, planId, current, newId, now,
                                     PeriodEnd(plans[planId], now, calendar))
    ensures result.Ok? ==>
              var unused := if fault == AtOldPlan then 0.0 else Unused(plans, old(uow.db), current, now);
              result.value == Upgraded(current, newId, Min(unused, plans[planId].price),
                                       plans[planId].price - Min(unused, plans[planId].price))
    ensures result.Ok? ==>
              && IsUpgraded(plans, old(uow.db), userId, planId, current, newId, now, calendar, uow.db)
              && IsCredit(plans, old(uow.db), current, plans[planId].price, now, fault.AtOldPlan?, result.value.credit)
              && result.value.amountDue == plans[planId].price - result.value.credit
    ensures !uow.tx.Open?
  {
    if planId in plans {
      UpgradeFacts(plans, uow.db, userId, planId, current, newId, now, calendar, fault.AtOldPlan?);
    }
    if !userFound {
      return Err(UserNotFound);
    }
    if planId !in plans {
      return Err(PlanNotFound);
    }
    var newPlan := plans[planId];
    var err := uow.Begin(fault == AtBegin);
    if err {
      return Err(DatabaseError);
    }
    var credit := 0.0;
    var amountDue := newPlan.price;
    var address: Option<Id> := None;
    if current.Some? {
      address := uow.View().Current().subs[current.value].billingAddress;
      err, credit := CancelReplaced(uow, plans, current.value, now, fault);
      if err {
        var done := uow.Rollback();
        return Err(DatabaseError);
      }
    }
    if credit > amountDue {
      credit := amountDue;
    }
    amountDue := amountDue - credit;
    var newSub := Subscription(userId, planId, address, "active", "paid", now, calendar.addMonth(now));
    if newPlan.yearly {
      newSub := newSub.(periodEnd := calendar.addYear(now));
    }
    var created := newSub;
    err := uow.Exec((t: Tables) => t.(subs := t.subs[newId := created]), fault == AtCreate);
    if !err {
      err := uow.Commit(fault == AtCommit);
    }
    var done := uow.Rollback();
    result := if err then Err(DatabaseError) else Ok(Upgraded(current, newId, credit, amountDue));
  }

  // ---------------------------------------------------------------- one upgrade

  /** Credit and amount due are never negative and together make the price of the new plan. */
  lemma ChargeSplitsPrice(plans: Plans, t: Tables, current: Option<Id>, price: real, now: int)
    requires current.Some? ==> current.value in t.subs
    requires 0.0 <= price && forall p :: p in plans ==> 0.0 <= plans[p].price
    ensures var credit := Min(Unused(plans, t, current, now), price);
            0.0 <= credit <= price && 0.0 <= price - credit
  {
    if current.Some? {
      NonNegativeProduct(PriceOf(plans, t.subs[current.value].planId), Remaining(t.subs[current.value], now));
    }
  }

  lemma NonNegativeProduct(a: real, b: real)
    requires 0.0 <= a && 0.0 <= b
    ensures 0.0 <= a * b
  {
  }

  /** One active subscription is replaced by one, so their number goes from n to max(n, 1). */
  lemma ActiveCountAfterUpgrade(t: Tables, userId: Id, planId: Id, current: Option<Id>, newId: Id, now: int, end: int)
    requires ValidPick(t, userId, current) && newId !in t.subs
    ensures var after := AfterUpgrade(t, userId, planId, current, newId, now, end);
            var n := |ActiveIds(t, userId)|;
            && |ActiveIds(after, userId)| == (if n == 0 then 1 else n)
            && ActiveIds(after, userId) == ActiveIds(t, userId) - (if current.Some? then {current.value} else {}) + {newId}
            && forall u :: u != userId ==> ActiveIds(after, u) == ActiveIds(t, u)
  {
    var after := AfterUpgrade(t, userId, planId, current, newId, now, end);
    UserGetsActive(t, userId, planId, current, newId, now, end);
    forall u | u != userId ensures ActiveIds(after, u) == ActiveIds(t, u) {
      OthersKeepActive(t, userId, planId, current, newId, now, end, u);
    }
  }

  lemma UserGetsActive(t: Tables, userId: Id, planId: Id, current: Option<Id>, newId: Id, now: int, end: int)
    requires ValidPick(t, userId, current) && newId !in t.subs
    ensures var after := AfterUpgrade(t, userId, planId, current, newId, now, end);
            var n := |ActiveIds(t, userId)|;
            && |ActiveIds(after, userId)| == (if n == 0 then 1 else n)
            && ActiveIds(after, userId) == ActiveIds(t, userId) - (if current.Some? then {current.value} else {}) + {newId}
  {
    var after := AfterUpgrade(t, userId, planId, current, newId, now, end);
    var others := ActiveIds(t, userId) - if current.Some? then {current.value} else {};
    assert ActiveIds(after, userId) == others + {newId};
    assert newId !in others;
    if current.Some? {
      assert ActiveIds(t, userId) == others + {current.value};
    }
  }

  lemma OthersKeepActive(
    t: Tables, userId: Id, planId: Id, current: Option<Id>, newId: Id, now: int, end: int, other: Id)
    requires ValidPick(t, userId, current) && newId !in t.subs && other != userId
    ensures ActiveIds(AfterUpgrade(t, userId, planId, current, newId, now, end), other) == ActiveIds(t, other)
  {
    var after := AfterUpgrade(t, userId, planId, current, newId, now, end);
    if current.Some? {
      assert current.value !in ActiveIds(t, other) && current.value !in ActiveIds(after, other);
    }
    assert newId !in ActiveIds(after, other);
  }

  // ---------------------------------------------------------------- chains of upgrades

  datatype Step = Step(planId: Id, current: Option<Id>, newId: Id, now: int, end: int)

  predicate ValidStep(plans: Plans, t: Tables, userId: Id, s: Step) {
    s.planId in plans && ValidPick(t, userId, s.current) && s.newId !in t.subs
  }

  function Take(t: Tables, userId: Id, s: Step): Tables
    requires s.current.Some? ==> s.current.value in t.subs
  {
    AfterUpgrade(t, userId, s.planId, s.current, s.newId, s.now, s.end)
  }

  ghost predicate IsChain(plans: Plans, t: Tables, userId: Id, steps: seq<Step>)
    decreases |steps|
  {
    steps == [] || (ValidStep(plans, t, userId, steps[0]) && IsChain(plans, Take(t, userId, steps[0]), userId, steps[1..]))
  }

  function EndOf(plans: Plans, t: Tables, userId: Id, steps: seq<Step>): Tables
    requires IsChain(plans, t, userId, steps)
    decreases |steps|
  {
    if steps == [] then t else EndOf(plans, Take(t, userId, steps[0]), userId, steps[1..])
  }

  /** The sum of the amounts due. */
  function Charged(plans: Plans, t: Tables, userId: Id, steps: seq<Step>): real
    requires IsChain(plans, t, userId, steps)
    decreases |steps|
  {
    if steps == [] then 0.0
    else
      var price := plans[steps[0].planId].price;
      price - Min(Unused(plans, t, steps[0].current, steps[0].now), price)
      + Charged(plans, Take(t, userId, steps[0]), userId, steps[1..])
  }

  /** The fraction of a period that has elapsed, at most all of it. */
  function Elapsed(sub: Subscription, now: int): real {
    1.0 - Remaining(sub, now)
  }

  /** For every replaced subscription, its price times the elapsed fraction of its period. */
  function UsedUp(plans: Plans, t: Tables, userId: Id, steps: seq<Step>): real
    requires IsChain(plans, t, userId, steps)
    decreases |steps|
  {
    if steps == [] then 0.0
    else
      UsedBy(plans, t, steps[0]) + UsedUp(plans, Take(t, userId, steps[0]), userId, steps[1..])
  }

  /** The price of the plan the user is on. */
  ghost function CurrentPrice(plans: Plans, t: Tables, userId: Id): real {
    if exists id :: ActiveFor(t, userId, id) then
      var id :| ActiveFor(t, userId, id);
      PriceOf(plans, t.subs[id].planId)
    else 0.0
  }

  /** At most one subscription is active, so the current one is determined. */
  ghost predicate AtMostOneActive(t: Tables, userId: Id) {
    forall a, b :: ActiveFor(t, userId, a) && ActiveFor(t, userId, b) ==> a == b
  }

  lemma ElapsedIsFraction(sub: Subscription, now: int)
    requires sub.periodStart <= now
    ensures 0.0 <= Elapsed(sub, now) <= 1.0
    ensures sub.periodEnd <= now ==> Elapsed(sub, now) == 1.0
    ensures sub.periodStart < now < sub.periodEnd ==>
              Elapsed(sub, now) * (sub.periodEnd - sub.periodStart) as real == (now - sub.periodStart) as real
  {
    var total, left := sub.periodEnd - sub.periodStart, sub.periodEnd - now;
    if left > 0 && total > 0 {
      var r := left as real / total as real;
      assert r * total as real == left as real;
      assert 0.0 <= r <= 1.0;
      assert (1.0 - r) * total as real == total as real - r * total as real;
    }
  }

  /** For a replaced subscription, its price times the elapsed fraction of its period. */
  function UsedBy(plans: Plans, t: Tables, s: Step): real
    requires s.current.Some? ==> s.current.value in t.subs
  {
    if s.current.None? then 0.0
    else PriceOf(plans, t.subs[s.current.value].planId) * Elapsed(t.subs[s.current.value], s.now)
  }

  /** What is lost where the rest of the replaced period is worth more than the new plan. */
  function Forfeited(plans: Plans, t: Tables, userId: Id, steps: seq<Step>): (sum: real)
    requires IsChain(plans, t, userId, steps)
    ensures 0.0 <= sum
    decreases |steps|
  {
    if steps == [] then 0.0
    else
      var rest := Unused(plans, t, steps[0].current, steps[0].now);
      rest - Min(rest, plans[steps[0].planId].price) + Forfeited(plans, Take(t, userId, steps[0]), userId, steps[1..])
  }

  /**
   Over any chain of upgrades of a user with at most one active subscription, what is charged, together
   with the plan held before, is exactly the plan reached, the elapsed part of every plan that was
   replaced, and what was forfeited.
   */
  lemma {:induction false} ChainBalances(plans: Plans, t: Tables, userId: Id, steps: seq<Step>)
    requires IsChain(plans, t, userId, steps) && AtMostOneActive(t, userId)
    ensures AtMostOneActive(EndOf(plans, t, userId, steps), userId)
    ensures Charged(plans, t, userId, steps) + CurrentPrice(plans, t, userId)
         == CurrentPrice(plans, EndOf(plans, t, userId, steps), userId) + UsedUp(plans, t, userId, steps)
            + Forfeited(plans, t, userId, steps)
    decreases |steps|
  {
    if steps != [] {
      var s := steps[0];
      StepMovesActive(plans, t, userId, s);
      ChainBalances(plans, Take(t, userId, s), userId, steps[1..]);
      StepBalances(plans, t, userId, s);
    }
  }

  lemma StepBalances(plans: Plans, t: Tables, userId: Id, s: Step)
    requires ValidStep(plans, t, userId, s) && AtMostOneActive(t, userId)
    ensures
      var price, rest := plans[s.planId].price, Unused(plans, t, s.current, s.now);
      price - Min(rest, price) + CurrentPrice(plans, t, userId) == price + UsedBy(plans, t, s) + (rest - Min(rest, price))
  {
    StepMovesActive(plans, t, userId, s);
    if s.current.Some? {
      var sub := t.subs[s.current.value];
      var price, r := PriceOf(plans, sub.planId), Remaining(sub, s.now);
      assert price * (1.0 - r) == price - price * r;
    }
  }

  /** So what is charged pays for the plan reached and for the elapsed part of every plan that was replaced. */
  lemma ChainPaysForWhatIsUsed(plans: Plans, t: Tables, userId: Id, steps: seq<Step>)
    requires IsChain(plans, t, userId, steps) && AtMostOneActive(t, userId)
    ensures AtMostOneActive(EndOf(plans, t, userId, steps), userId)
    ensures Charged(plans, t, userId, steps) + CurrentPrice(plans, t, userId)
         >= CurrentPrice(plans, EndOf(plans, t, userId, steps), userId) + UsedUp(plans, t, userId, steps)
  {
    ChainBalances(plans, t, userId, steps);
  }

  lemma StepMovesActive(plans: Plans, t: Tables, userId: Id, s: Step)
    requires ValidStep(plans, t, userId, s) && AtMostOneActive(t, userId)
    ensures AtMostOneActive(Take(t, userId, s), userId)
    ensures CurrentPrice(plans, Take(t, userId, s), userId) == plans[s.planId].price
    ensures CurrentPrice(plans, t, userId)
         == if s.current.None? then 0.0 else PriceOf(plans, t.subs[s.current.value].planId)
  {
    var after := Take(t, userId, s);
    assert forall a :: ActiveFor(t, userId, a) <==> a in ActiveIds(t, userId);
    assert ActiveFor(after, userId, s.newId);
    forall a | ActiveFor(after, userId, a) ensures a == s.newId {
      assert a == s.newId || ActiveFor(t, userId, a);
    }
  }

  lemma {:induction false} ChainEndsOnLastPlan(plans: Plans, t: Tables, userId: Id, steps: seq<Step>)
    requires IsChain(plans, t, userId, steps) && AtMostOneActive(t, userId) && steps != []
    ensures steps[|steps| - 1].planId in plans
    ensures CurrentPrice(plans, EndOf(plans, t, userId, steps), userId) == plans[steps[|steps| - 1].planId].price
    decreases |steps|
  {
    StepMovesActive(plans, t, userId, steps[0]);
    if 1 < |steps| {
      ChainEndsOnLastPlan(plans, Take(t, userId, steps[0]), userId, steps[1..]);
    }
  }

  /** For a user who starts without a subscription nothing is left out of the account. */
  lemma ChainFromNothing(plans: Plans, t: Tables, userId: Id, steps: seq<Step>)
    requires IsChain(plans, t, userId, steps) && steps != [] && ActiveIds(t, userId) == {}
    ensures steps[|steps| - 1].planId in plans
    ensures Charged(plans, t, userId, steps) >= plans[steps[|steps| - 1].planId].price + UsedUp(plans, t, userId, steps)
  {
    assert forall a :: ActiveFor(t, userId, a) <==> a in ActiveIds(t, userId);
    ChainPaysForWhatIsUsed(plans, t, userId, steps);
    ChainEndsOnLastPlan(plans, t, userId, steps);
  }
}
