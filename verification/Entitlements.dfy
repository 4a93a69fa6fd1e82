/**
 Access and daily limits: pkg/rag/access/verifier.go (the chat and the semantic
 search pair) and internal/service/plan_service.go (the usage status).
 */
module Entitlements {
  import opened Wrappers

  type Id = nat

  /** A calendar date and an offset into it. */
  datatype Date = Date(year: int, month: int, day: int)
  datatype Instant = Instant(date: Date, offset: int)

  predicate DateBefore(a: Date, b: Date) {
    a.year < b.year
    || (a.year == b.year && (a.month < b.month || (a.month == b.month && a.day < b.day)))
  }

  predicate Before(a: Instant, b: Instant) {
    DateBefore(a.date, b.date) || (a.date == b.date && a.offset < b.offset)
  }

  /** A daily counter and the instant of its last reset. */
  datatype Counter = Counter(usage: nat, lastReset: Instant)

  datatype User = User(chat: Counter, search: Counter, chatLimitOverride: Option<int>)

  datatype Subscription = Subscription(status: string, paymentStatus: string, planId: Id, periodEnd: Instant)

  datatype Plan = Plan(
    slug: string, maxNotebooks: int, maxNotesPerNotebook: int,
    chatDailyLimit: int, chatEnabled: bool,
    searchDailyLimit: int, searchEnabled: bool)

  const FreePlan: Plan := Plan("free", 3, 10, 0, false, 0, false)

  datatype Verdict = Allowed | UserNotFound | RequiresProPlan | LimitExceeded(limit: int, used: nat)

  // ---------------------------------------------------------------- the scan

  /** The subscription grants access: active, canceled or paid, and its period has not ended. */
  predicate Usable(sub: Subscription, now: Instant) {
    (sub.status == "active" || sub.status == "canceled" || sub.paymentStatus == "success")
    && Before(now, sub.periodEnd)
  }

  /** The scan picked the newest usable row (rows are ordered newest first). */
  ghost predicate PicksNewestUsable(subs: seq<Subscription>, now: Instant, picked: Option<Subscription>) {
    match picked
    case None => forall i :: 0 <= i < |subs| ==> !Usable(subs[i], now)
    case Some(sub) =>
      exists i :: 0 <= i < |subs| && subs[i] == sub && Usable(sub, now)
                  && forall j :: 0 <= j < i ==> !Usable(subs[j], now)
  }

  /** Two scans over the same rows at the same time pick the same row. */
  lemma ScansAgree(subs: seq<Subscription>, now: Instant, a: Option<Subscription>, b: Option<Subscription>)
    requires PicksNewestUsable(subs, now, a) && PicksNewestUsable(subs, now, b)
    ensures a == b
  {
    if a.Some? && b.Some? {
      var i :| 0 <= i < |subs| && subs[i] == a.value && forall j :: 0 <= j < i ==> !Usable(subs[j], now);
      var k :| 0 <= k < |subs| && subs[k] == b.value && forall j :: 0 <= j < k ==> !Usable(subs[j], now);
      assert i == k;
    }
  }

  /**
   A scan picks a row exactly when one that is active, canceled or paid has not reached its end.
   */
  lemma PickedIff(subs: seq<Subscription>, now: Instant, picked: Option<Subscription>)
    requires PicksNewestUsable(subs, now, picked)
    ensures picked.Some? <==>
              exists i ::
                && 0 <= i < |subs| && Before(now, subs[i].periodEnd)
                && (subs[i].status == "active" || subs[i].status == "canceled" || subs[i].paymentStatus == "success")
  {
  }

  function NewestUsable(subs: seq<Subscription>, now: Instant): (picked: Option<Subscription>)
    ensures PicksNewestUsable(subs, now, picked)
  {
    if subs == [] then None
    else if Usable(subs[0], now) then Some(subs[0])
    else
      var picked := NewestUsable(subs[1..], now);
      assert picked.Some? ==> exists i :: 0 <= i < |subs[1..]| && subs[1..][i] == picked.value
                                          && (forall j :: 0 <= j < i ==> !Usable(subs[1..][j], now))
                                          && subs[i + 1] == picked.value
                                          && (forall j :: 0 <= j < i + 1 ==> j == 0 || subs[j] == subs[1..][j - 1]);
      picked
  }

  predicate ActiveUsable(sub: Subscription, now: Instant) {
    sub.status == "active" && Before(now, sub.periodEnd)
  }

  /**
   The comments rank "active" first, but the scan only looks at age. With an active usable row in the
   list, the first one at `i`, an active row is picked exactly when no usable row is newer than that.
   */
  lemma ActivePickedIff(subs: seq<Subscription>, now: Instant, picked: Option<Subscription>, i: nat)
    requires PicksNewestUsable(subs, now, picked)
    requires i < |subs| && ActiveUsable(subs[i], now)
    requires forall j :: 0 <= j < i ==> !ActiveUsable(subs[j], now)
    ensures picked.Some?
    ensures picked.value.status == "active" <==> forall j :: 0 <= j < i ==> !Usable(subs[j], now)
  {
    assert Usable(subs[i], now);
    var k :| 0 <= k < |subs| && subs[k] == picked.value && Usable(subs[k], now)
             && forall j :: 0 <= j < k ==> !Usable(subs[j], now);
    assert k <= i;
    assert k < i ==> !ActiveUsable(subs[k], now);
  }

  /** For example a newer canceled row hides an active one. */
  lemma NewerCanceledHidesActive(canceled: Subscription, active: Subscription, now: Instant)
    requires canceled.status == "canceled" && active.status == "active"
    requires Before(now, canceled.periodEnd) && Before(now, active.periodEnd)
    ensures forall picked :: PicksNewestUsable([canceled, active], now, picked) ==> picked == Some(canceled)
  {
    assert PicksNewestUsable([canceled, active], now, NewestUsable([canceled, active], now));
    forall picked | PicksNewestUsable([canceled, active], now, picked) ensures picked == Some(canceled) {
      ScansAgree([canceled, active], now, picked, NewestUsable([canceled, active], now));
    }
  }

  // ---------------------------------------------------------------- limits

  /** The reset rule: any difference in year, month or day starts a new count. */
  function Rolled(c: Counter, now: Instant): Counter {
    if now.date.year != c.lastReset.date.year || now.date.month != c.lastReset.date.month
       || now.date.day != c.lastReset.date.day
    then Counter(0, now)
    else c
  }

  predicate CanUse(used: nat, limit: int) {
    limit < 0 || used < limit
  }

  /** Feature flag and limit of one feature for one user. */
  datatype Grant = Grant(enabled: bool, limit: int)

  /** One verification: the counter afterwards, and the verdict. */
  function Check(c: Counter, grant: Grant, now: Instant): (Counter, Verdict) {
    if !grant.enabled then (c, RequiresProPlan)
    else
      var rolled := Rolled(c, now);
      (rolled, if CanUse(rolled.usage, grant.limit) then Allowed else LimitExceeded(grant.limit, rolled.usage))
  }

  function PlanOf(subs: seq<Subscription>, plans: map<Id, Plan>, now: Instant): Option<Plan> {
    var sub := NewestUsable(subs, now);
    if sub.Some? && sub.value.planId in plans then Some(plans[sub.value.planId]) else None
  }

  /** What the verifier grants for chats: the plan's flag and limit, and an override on top. */
  function ChatGrant(user: User, plan: Option<Plan>): Grant {
    if user.chatLimitOverride.Some? then Grant(true, user.chatLimitOverride.value)
    else if plan.Some? then Grant(plan.value.chatEnabled, plan.value.chatDailyLimit)
    else Grant(false, 0)
  }

  function SearchGrant(plan: Option<Plan>): Grant {
    if plan.Some? then Grant(plan.value.searchEnabled, plan.value.searchDailyLimit) else Grant(false, 0)
  }

  /** A limit that the given usage does not exhaust; negative limits are no limits. */
  predicate Within(used: nat, limit: int) {
    limit < 0 || used < limit
  }

  /** What counts as used at `now`: nothing if the last reset was on another date. */
  function UsedAt(c: Counter, now: Instant): nat {
    if c.lastReset.date == now.date then c.usage else 0
  }

  /** The verdict for a feature that is `enabled` under a limit, and the counter it leaves. */
  predicate Judged(c: Counter, enabled: bool, limit: int, now: Instant, after: Counter, verdict: Verdict) {
    if !enabled then verdict == RequiresProPlan && after == c
    else
      && (verdict == if Within(UsedAt(c, now), limit) then Allowed else LimitExceeded(limit, UsedAt(c, now)))
      && after == Counter(UsedAt(c, now), if c.lastReset.date == now.date then c.lastReset else now)
  }

  // ---------------------------------------------------------------- the services

  datatype UsageLimit = UsageLimit(used: nat, limit: int, canUse: bool)
  datatype Status = Status(notebooks: UsageLimit, notes: UsageLimit, chat: UsageLimit, search: UsageLimit,
                           upgradeAvailable: bool)

  /** The rows one user's requests read, and the one they write. */
  class Account {
    var user: Option<User>
    var subs: seq<Subscription>
    var plans: map<Id, Plan>

    constructor (user: Option<User>, subs: seq<Subscription>, plans: map<Id, Plan>)
      ensures this.user == user && this.subs == subs && this.plans == plans
    {
      this.user, this.subs, this.plans := user, subs, plans;
    }

    /** Verifier.VerifyAccessAndLimits. */
    method VerifyAccessAndLimits(now: Instant) returns (verdict: Verdict)
      modifies this`user
      ensures old(user).None? ==> verdict == UserNotFound && user == None
      ensures old(user).Some? ==>
                var u := old(user).value;
                var checked := Check(u.chat, ChatGrant(u, PlanOf(subs, plans, now)), now);
                user == Some(u.(chat := checked.0)) && verdict == checked.1
      ensures old(user).Some? ==>
                var u, plan := old(user).value, PlanOf(subs, plans, now);
                && user.Some? && user.value.search == u.search && user.value.chatLimitOverride == u.chatLimitOverride
                && Judged(u.chat,
                          u.chatLimitOverride.Some? || (plan.Some? && plan.value.chatEnabled),
                          if u.chatLimitOverride.Some? then u.chatLimitOverride.value
                          else if plan.Some? then plan.value.chatDailyLimit else 0,
                          now, user.value.chat, verdict)
    {
      if user.None? {
        return UserNotFound;
      }
      var u := user.value;
      var activeSub: Option<Subscription> := None;
      for i := 0 to |subs|
        invariant activeSub == None && forall j :: 0 <= j < i ==> !Usable(subs[j], now)
      {
        var sub := subs[i];
        if sub.status == "active" && Before(now, sub.periodEnd) {
          activeSub := Some(sub);
          break;
        }
        if sub.status == "canceled" && Before(now, sub.periodEnd) {
          activeSub := Some(sub);
          break;
        }
        if sub.paymentStatus == "success" && Before(now, sub.periodEnd) {
          activeSub := Some(sub);
          break;
        }
      }
      ScansAgree(subs, now, activeSub, NewestUsable(subs, now));
      var aiLimit, aiEnabled := 0, false;
      if activeSub.Some? && activeSub.value.planId in plans {
        var plan := plans[activeSub.value.planId];
        aiLimit := plan.chatDailyLimit;
        aiEnabled := plan.chatEnabled;
      }
      if u.chatLimitOverride.Some? {
        aiLimit := u.chatLimitOverride.value;
        aiEnabled := true;
      }
      if !aiEnabled {
        return RequiresProPlan;
      }
      var last := u.chat.lastReset.date;
      if now.date.year != last.year || now.date.month != last.month || now.date.day != last.day {
        u := u.(chat := Counter(0, now));
        user := Some(u);
      }
      if aiLimit >= 0 && u.chat.usage >= aiLimit {
        return LimitExceeded(aiLimit, u.chat.usage);
      }
      verdict := Allowed;
    }

    /** Verifier.IncrementUserUsage. */
    method IncrementUserUsage() returns (verdict: Verdict)
      modifies this`user
      ensures old(user).None? ==> verdict == UserNotFound && user == None
      ensures old(user).Some? ==>
                var u := old(user).value;
                verdict == Allowed && user == Some(u.(chat := u.chat.(usage := u.chat.usage + 1)))
    {
      if user.None? {
        return UserNotFound;
      }
      var u := user.value;
      u := u.(chat := u.chat.(usage := u.chat.usage + 1));
      user := Some(u);
      verdict := Allowed;
    }

    /** Verifier.VerifySemanticSearchAccess. */
    method VerifySemanticSearchAccess(now: Instant) returns (verdict: Verdict)
      modifies this`user
      ensures old(user).None? ==> verdict == UserNotFound && user == None
      ensures old(user).Some? ==>
                var u := old(user).value;
                var checked := Check(u.search, SearchGrant(PlanOf(subs, plans, now)), now);
                user == Some(u.(search := checked.0)) && verdict == checked.1
      ensures old(user).Some? ==>
                var u, plan := old(user).value, PlanOf(subs, plans, now);
                && user.Some? && user.value.chat == u.chat && user.value.chatLimitOverride == u.chatLimitOverride
                && Judged(u.search, plan.Some? && plan.value.searchEnabled,
                          if plan.Some? then plan.value.searchDailyLimit else 0, now, user.value.search, verdict)
    {
      if user.None? {
        return UserNotFound;
      }
      var u := user.value;
      var activeSub: Option<Subscription> := None;
      for i := 0 to |subs|
        invariant activeSub == None && forall j :: 0 <= j < i ==> !Usable(subs[j], now)
      {
        var sub := subs[i];
        if sub.status == "active" && Before(now, sub.periodEnd) {
          activeSub := Some(sub);
          break;
        }
        if sub.status == "canceled" && Before(now, sub.periodEnd) {
          activeSub := Some(sub);
          break;
        }
        if sub.paymentStatus == "success" && Before(now, sub.periodEnd) {
          activeSub := Some(sub);
          break;
        }
      }
      ScansAgree(subs, now, activeSub, NewestUsable(subs, now));
      var searchLimit, searchEnabled := 0, false;
      if activeSub.Some? && activeSub.value.planId in plans {
        var plan := plans[activeSub.value.planId];
        searchLimit := plan.searchDailyLimit;
        searchEnabled := plan.searchEnabled;
      }
      if !searchEnabled {
        return RequiresProPlan;
      }
      var last := u.search.lastReset.date;
      if now.date.year != last.year || now.date.month != last.month || now.date.day != last.day {
        u := u.(search := Counter(0, now));
        user := Some(u);
      }
      if searchLimit >= 0 && u.search.usage >= searchLimit {
        return LimitExceeded(searchLimit, u.search.usage);
      }
      verdict := Allowed;
    }

    /** Verifier.IncrementSemanticSearchUsage. */
    method IncrementSemanticSearchUsage() returns (verdict: Verdict)
      modifies this`user
      ensures old(user).None? ==> verdict == UserNotFound && user == None
      ensures old(user).Some? ==>
                var u := old(user).value;
                verdict == Allowed && user == Some(u.(search := u.search.(usage := u.search.usage + 1)))
    {
      if user.None? {
        return UserNotFound;
      }
      var u := user.value;
      u := u.(search := u.search.(usage := u.search.usage + 1));
      user := Some(u);
      verdict := Allowed;
    }

    /** planService.getUserPlan. */
    method GetUserPlan(now: Instant) returns (plan: Plan)
      ensures plan == if PlanOf(subs, plans, now).Some? then PlanOf(subs, plans, now).value else FreePlan
      ensures forall picked :: PicksNewestUsable(subs, now, picked) ==>
                plan == if picked.Some? && picked.value.planId in plans then plans[picked.value.planId]
                        else Plan("free", 3, 10, 0, false, 0, false)
    {
      var activeSub: Option<Subscription> := None;
      for i := 0 to |subs|
        invariant activeSub == None && forall j :: 0 <= j < i ==> !Usable(subs[j], now)
      {
        var sub := subs[i];
        if sub.status == "active" && Before(now, sub.periodEnd) {
          activeSub := Some(sub);
          break;
        }
        if sub.status == "canceled" && Before(now, sub.periodEnd) {
          activeSub := Some(sub);
          break;
        }
        if sub.paymentStatus == "success" && Before(now, sub.periodEnd) {
          activeSub := Some(sub);
          break;
        }
      }
      ScansAgree(subs, now, activeSub, NewestUsable(subs, now));
      forall picked | PicksNewestUsable(subs, now, picked) ensures picked == activeSub {
        ScansAgree(subs, now, picked, activeSub);
      }
      if activeSub.Some? && activeSub.value.planId in plans {
        return plans[activeSub.value.planId];
      }
      plan := FreePlan;
    }

    /** planService.checkAndResetDailyUsage: only the chat counter is rolled. */
    method CheckAndResetDailyUsage(now: Instant)
      requires user.Some?
      modifies this`user
      ensures user == Some(old(user).value.(chat := Rolled(old(user).value.chat, now)))
    {
      var u := user.value;
      var last := u.chat.lastReset.date;
      if now.date.year != last.year || now.date.month != last.month || now.date.day != last.day {
        user := Some(u.(chat := Counter(0, now)));
      }
    }

    /** planService.GetUserUsageStatus. */
    method GetUserUsageStatus(now: Instant, notebookCount: nat, noteCount: nat) returns (status: Status)
      requires user.Some?
      modifies this`user
      ensures user == Some(old(user).value.(chat := Rolled(old(user).value.chat, now)))
      ensures status == StatusOf(old(user).value, PlanOf(subs, plans, now), now, notebookCount, noteCount)
      ensures var u := old(user).value;
              var found := PlanOf(subs, plans, now);
              var plan := if found.Some? then found.value else Plan("free", 3, 10, 0, false, 0, false);
              && Reports(status.notebooks, notebookCount, plan.maxNotebooks)
              && Reports(status.notes, noteCount, plan.maxNotesPerNotebook)
              && Reports(status.chat, UsedAt(u.chat, now),
                         if u.chatLimitOverride.Some? then u.chatLimitOverride.value else plan.chatDailyLimit)
              && Reports(status.search, u.search.usage, plan.searchDailyLimit)
              && (status.upgradeAvailable <==> plan.slug == "free")
    {
      var plan := GetUserPlan(now);
      CheckAndResetDailyUsage(now);
      var u := user.value;
      var chatLimit := plan.chatDailyLimit;
      if u.chatLimitOverride.Some? {
        chatLimit := u.chatLimitOverride.value;
      }
      status := Status(
        UsageLimit(notebookCount, plan.maxNotebooks, plan.maxNotebooks < 0 || notebookCount < plan.maxNotebooks),
        UsageLimit(noteCount, plan.maxNotesPerNotebook,
                   plan.maxNotesPerNotebook < 0 || noteCount < plan.maxNotesPerNotebook),
        UsageLimit(u.chat.usage, chatLimit, CanUse(u.chat.usage, chatLimit)),
        UsageLimit(u.search.usage, plan.searchDailyLimit, CanUse(u.search.usage, plan.searchDailyLimit)),
        plan.slug == "free");
    }
  }

  predicate Reports(line: UsageLimit, used: nat, limit: int) {
    line.used == used && line.limit == limit && (line.canUse <==> Within(used, limit))
  }

  /** What the status endpoint reports. */
  function StatusOf(user: User, found: Option<Plan>, now: Instant, notebookCount: nat, noteCount: nat): Status {
    var plan := if found.Some? then found.value else FreePlan;
    var chatLimit := if user.chatLimitOverride.Some? then user.chatLimitOverride.value else plan.chatDailyLimit;
    var chatUsed := Rolled(user.chat, now).usage;
    Status(
      UsageLimit(notebookCount, plan.maxNotebooks, CanUse(notebookCount, plan.maxNotebooks)),
      UsageLimit(noteCount, plan.maxNotesPerNotebook, CanUse(noteCount, plan.maxNotesPerNotebook)),
      UsageLimit(chatUsed, chatLimit, CanUse(chatUsed, chatLimit)),
      UsageLimit(user.search.usage, plan.searchDailyLimit, CanUse(user.search.usage, plan.searchDailyLimit)),
      plan.slug == "free")
  }

  // ---------------------------------------------------------------- verifier and status agree

  /** A chat is let through exactly when the status page says it can be used and the feature is on. */
  lemma ChatVerdictMatchesStatus(user: User, plan: Option<Plan>, now: Instant, nbs: nat, notes: nat)
    ensures var grant := ChatGrant(user, plan);
            Check(user.chat, grant, now).1 == Allowed
            <==> grant.enabled && StatusOf(user, plan, now, nbs, notes).chat.canUse
    ensures ChatGrant(user, plan).enabled
            <==> user.chatLimitOverride.Some? || (plan.Some? && plan.value.chatEnabled)
  {
  }

  /** For searches the status page shows yesterday's count: it never promises too much ... */
  lemma SearchStatusIsCautious(user: User, plan: Option<Plan>, now: Instant, nbs: nat, notes: nat)
    requires SearchGrant(plan).enabled && StatusOf(user, plan, now, nbs, notes).search.canUse
    ensures Check(user.search, SearchGrant(plan), now).1 == Allowed
  {
  }

  /** ... and it is wrong exactly on a new day for a user who has used up a positive limit. */
  lemma SearchStatusWrongIff(user: User, plan: Option<Plan>, now: Instant, nbs: nat, notes: nat)
    requires SearchGrant(plan).enabled
    ensures (Check(user.search, SearchGrant(plan), now).1 == Allowed)
            != StatusOf(user, plan, now, nbs, notes).search.canUse
      <==> now.date != user.search.lastReset.date && 0 < SearchGrant(plan).limit <= user.search.usage
  {
  }
}
