/**
 The daily chat quota over time: chatbotService.SendChat verifies outside its
 transaction, works, charges the user and commits, while the usage status may
 roll the counter over at any moment.
 */
module ChatQuota {
  import opened Wrappers
  import opened Entitlements
  import UnitOfWork

  // ---------------------------------------------------------------- one chat

  datatype Message = Message(role: string, chat: string)

  /** A link from a message, named by its position, to a note. */
  datatype Link = Link(message: nat, noteId: Id)

  /** The rows a chat request works on; the title is missing when the session is not the caller's. */
  datatype Tables = Tables(
    user: Option<User>, title: Option<string>,
    messages: seq<Message>, raw: seq<Message>,
    citations: seq<Link>, references: seq<Link>)

  /** What the pipeline answers; `chat` is the text it leaves in the request, without inline references. */
  datatype Answer = Answer(reply: string, citations: seq<Id>, resolved: seq<Id>, chat: string)

  /** The call that fails, if any. */
  datatype Fault =
    | NoFault | AtReset | AtBegin | AtSession | AtHistory | AtUserMessage | AtPipeline
    | AtModelMessage | AtTitle | AtIncrement | AtReferences | AtCommit

  datatype Error = Denied(verdict: Verdict) | Failed

  /** The tables after a chat that went through: two messages, their links, and one unit of usage. */
  function Delivered(t: Tables, request: string, answer: Answer): Tables
    requires t.user.Some?
  {
    var u := t.user.value;
    var asked, told := Message("user", request), Message("model", answer.reply);
    var n := |t.messages|;
    Tables(
      Some(u.(chat := u.chat.(usage := u.chat.usage + 1))),
      if |t.raw| == 2 then Some(answer.chat) else t.title,
      t.messages + [asked, told],
      t.raw + [asked, told],
      t.citations + LinksFrom(n + 1, answer.citations),
      t.references + LinksFrom(n, answer.resolved))
  }

  /** What was used on the day of `now`. */
  function UsedOn(c: Counter, now: Instant): nat {
    if now.date != c.lastReset.date then 0 else c.usage
  }

  /**
   What a chat that went through leaves in the tables: the question and the answer behind the messages
   there were, each citation linked to the answer and each resolved reference to the question, the title
   at the third message, and one more unit of usage.
   */
  ghost predicate Conversed(before: Tables, request: string, answer: Answer, now: Instant, after: Tables)
    requires before.user.Some?
  {
    var n, cited, referred := |before.messages|, |before.citations|, |before.references|;
    && |after.messages| == n + 2 && after.messages[..n] == before.messages
    && after.messages[n] == Message("user", request) && after.messages[n + 1] == Message("model", answer.reply)
    && |after.raw| == |before.raw| + 2 && after.raw[..|before.raw|] == before.raw
    && after.raw[|before.raw|] == Message("user", request)
    && after.raw[|before.raw| + 1] == Message("model", answer.reply)
    && |after.citations| == cited + |answer.citations| && after.citations[..cited] == before.citations
    && (forall i :: 0 <= i < |answer.citations| ==> after.citations[cited + i] == Link(n + 1, answer.citations[i]))
    && |after.references| == referred + |answer.resolved| && after.references[..referred] == before.references
    && (forall i :: 0 <= i < |answer.resolved| ==> after.references[referred + i] == Link(n, answer.resolved[i]))
    && (after.title == if |before.raw| == 2 then Some(answer.chat) else before.title)
    && after.user.Some? && Charged(before.user.value, now, after.user.value)
  }

  /** One more unit is used, and nothing else about the user changes. */
  predicate Charged(before: User, now: Instant, after: User) {
    && after.chat.usage == UsedOn(before.chat, now) + 1
    && (after.chat.lastReset == if now.date != before.chat.lastReset.date then now else before.chat.lastReset)
    && after.search == before.search && after.chatLimitOverride == before.chatLimitOverride
  }

  lemma DeliveredConverses(before: Tables, grant: Grant, now: Instant, request: string, answer: Answer)
    requires before.user.Some? && grant.enabled
    ensures Conversed(before, request, answer, now, Delivered(Verified(before, grant, now), request, answer))
  {
    var after := Delivered(Verified(before, grant, now), request, answer);
    assert after.messages[..|before.messages|] == before.messages && after.raw[..|before.raw|] == before.raw;
    assert after.citations[..|before.citations|] == before.citations;
    assert after.references[..|before.references|] == before.references;
  }

  function LinksFrom(message: nat, notes: seq<Id>): seq<Link> {
    seq(|notes|, i requires 0 <= i < |notes| => Link(message, notes[i]))
  }

  /** The tables after the verification. */
  function Verified(t: Tables, grant: Grant, now: Instant): Tables {
    if t.user.None? then t
    else t.(user := Some(t.user.value.(chat := Check(t.user.value.chat, grant, now).0)))
  }

  /** The write of a new day's counter is attempted and fails. */
  predicate ResetFails(t: Tables, grant: Grant, now: Instant, fault: Fault)
    requires t.user.Some?
  {
    fault.AtReset? && grant.enabled && now.date != t.user.value.chat.lastReset.date
  }

  /** The fault hits a call that the transactional part makes. */
  predicate Strikes(t: Tables, answer: Answer, fault: Fault) {
    match fault
    case NoFault => false
    case AtReset => false
    case AtTitle => |t.raw| == 2
    case AtReferences => answer.resolved != []
    case _ => true
  }

  /** Each outcome of a request. A chat that fails after verification leaves no message and is not charged. */
  predicate Outcome(before: Tables, grant: Grant, now: Instant, request: string, answer: Answer, fault: Fault,
                    result: Result<Answer, Error>, db: Tables)
  {
    if before.user.None? then result == Err(Denied(UserNotFound)) && db == before
    else
      var after := Verified(before, grant, now);
      var verdict := Check(before.user.value.chat, grant, now).1;
      if ResetFails(before, grant, now, fault) then result == Err(Failed) && db == before
      else if verdict != Allowed then result == Err(Denied(verdict)) && db == after
      else if Strikes(before, answer, fault) || before.title.None? then result == Err(Failed) && db == after
      else result == Ok(answer) && db == Delivered(after, request, answer)
  }

  /** The limit is not used up on the day of `now`. */
  predicate Open(before: Tables, grant: Grant, now: Instant)
    requires before.user.Some?
  {
    grant.enabled && (grant.limit < 0 || UsedOn(before.user.value.chat, now) < grant.limit)
  }

  /** What a caller may rely on. */
  ghost predicate Kept(before: Tables, grant: Grant, now: Instant, request: string, answer: Answer, fault: Fault,
                       result: Result<Answer, Error>, db: Tables)
  {
    && (result.Ok? ==> before.user.Some? && Open(before, grant, now) && Conversed(before, request, answer, now, db))
    && (fault.NoFault? && before.title.Some? && before.user.Some? && Open(before, grant, now) ==> result.Ok?)
    && (before.user.None? ==> result == Err(Denied(UserNotFound)))
    && (before.user.Some? && !grant.enabled ==> result == Err(Denied(RequiresProPlan)) && db == before)
    && (before.user.Some? && grant.enabled && !Open(before, grant, now) && !fault.AtReset? ==>
          result == Err(Denied(LimitExceeded(grant.limit, UsedOn(before.user.value.chat, now)))))
    && (result.Err? ==>
          && db == before.(user := db.user)
          && (before.user.Some? ==> db.user.Some? && UsedOn(db.user.value.chat, now) == UsedOn(before.user.value.chat, now)))
  }

  lemma OutcomeIsKept(before: Tables, grant: Grant, now: Instant, request: string, answer: Answer, fault: Fault,
                      result: Result<Answer, Error>, db: Tables)
    requires Outcome(before, grant, now, request, answer, fault, result, db)
    ensures Kept(before, grant, now, request, answer, fault, result, db)
  {
    if before.user.Some? && grant.enabled {
      DeliveredConverses(before, grant, now, request, answer);
    }
  }

  /** chatbotService.SendChat. */
  method SendChat(uow: UnitOfWork.Unit<Tables>, grant: Grant, now: Instant, request: string, answer: Answer,
                  fault: Fault)
    returns (result: Result<Answer, Error>)
    requires uow.tx.NoTx?
    modifies uow
    ensures Outcome(old(uow.db), grant, now, request, answer, fault, result, uow.db)
    ensures Kept(old(uow.db), grant, now, request, answer, fault, result, uow.db)
    ensures !uow.tx.Open?
  {
    result := VerifyAndConverse(uow, grant, now, request, answer, fault);
    OutcomeIsKept(old(uow.db), grant, now, request, answer, fault, result, uow.db);
  }

  /** The verification outside and the conversation inside of the transaction. */
  method VerifyAndConverse(uow: UnitOfWork.Unit<Tables>, grant: Grant, now: Instant, request: string, answer: Answer,
                           fault: Fault)
    returns (result: Result<Answer, Error>)
    requires uow.tx.NoTx?
    modifies uow
    ensures Outcome(old(uow.db), grant, now, request, answer, fault, result, uow.db)
    ensures !uow.tx.Open?
  {
    if uow.db.user.None? {
      return Err(Denied(UserNotFound));
    }
    if !grant.enabled {
      return Err(Denied(RequiresProPlan));
    }
    var u := uow.db.user.value;
    if now.date != u.chat.lastReset.date {
      u := u.(chat := Counter(0, now));
      var written := u;
      var resetErr := uow.Exec((t: Tables) => t.(user := Some(written)), fault == AtReset);
      if resetErr {
        return Err(Failed);
      }
    }
    if grant.limit >= 0 && u.chat.usage >= grant.limit {
      return Err(Denied(LimitExceeded(grant.limit, u.chat.usage)));
    }
    var err := uow.Begin(fault == AtBegin);
    if err {
      return Err(Failed);
    }
    var ok := Converse(uow, request, answer, fault);
    var late := uow.Rollback();
    result := if ok then Ok(answer) else Err(Failed);
  }

  /** The transactional part of SendChat. */
  method Converse(uow: UnitOfWork.Unit<Tables>, request: string, answer: Answer, fault: Fault) returns (ok: bool)
    requires uow.tx == UnitOfWork.Open(uow.db) && uow.db.user.Some? && !fault.AtBegin?
    modifies uow
    ensures ok <==> old(uow.db).title.Some? && !Strikes(old(uow.db), answer, fault)
    ensures uow.db == if ok then Delivered(old(uow.db), request, answer) else old(uow.db)
  {
    if fault == AtSession || uow.View().Current().title.None? {
      return false;
    }
    var existing := uow.View().Current().raw;
    if fault == AtHistory {
      return false;
    }
    var updateTitle := |existing| == 2;
    var n := |uow.View().Current().messages|;
    var asked := Message("user", request);
    var err := uow.Exec((t: Tables) => t.(messages := t.messages + [asked], raw := t.raw + [asked]),
                        fault == AtUserMessage);
    if err || fault == AtPipeline {
      return false;
    }
    var told := Message("model", answer.reply);
    var cited := LinksFrom(n + 1, answer.citations);
    err := uow.Exec((t: Tables) => t.(messages := t.messages + [told], raw := t.raw + [told],
                                      citations := t.citations + cited),
                    fault == AtModelMessage);
    if err {
      return false;
    }
    if updateTitle {
      var title := Some(answer.chat);
      err := uow.Exec((t: Tables) => t.(title := title), fault == AtTitle);
      if err {
        return false;
      }
    }
    ok := Finish(uow, n, answer, fault);
  }

  /** Charging the user, saving references, committing. */
  method Finish(uow: UnitOfWork.Unit<Tables>, n: nat, answer: Answer, fault: Fault) returns (ok: bool)
    requires uow.tx.Open? && uow.tx.view.user.Some?
    modifies uow
    ensures ok <==> fault != AtIncrement && fault != AtCommit && !(fault.AtReferences? && answer.resolved != [])
    ensures uow.db == if !ok then old(uow.db)
                      else var t := old(uow.tx).view;
                           var u := t.user.value;
                           t.(user := Some(u.(chat := u.chat.(usage := u.chat.usage + 1))),
                              references := t.references + LinksFrom(n, answer.resolved))
  {
    var u := uow.View().Current().user.value;
    var charged := u.(chat := u.chat.(usage := u.chat.usage + 1));
    var err := uow.Exec((t: Tables) => t.(user := Some(charged)), fault == AtIncrement);
    if err {
      return false;
    }
    var links := LinksFrom(n, answer.resolved);
    if |answer.resolved| > 0 {
      err := uow.Exec((t: Tables) => t.(references := t.references + links), fault == AtReferences);
      if err {
        return false;
      }
    }
    err := uow.Commit(fault == AtCommit);
    ok := !err;
  }

  // ---------------------------------------------------------------- runs

  /** What happened to the counter, oldest first. A completion carries the date of its verification. */
  datatype Entry = Reset | Completed(verifiedOn: Date)

  /** `statuses` holds the counters that running status requests have read. */
  datatype Quota = Quota(
    counter: Counter, clock: Instant, inFlight: Option<Date>, statuses: map<nat, Counter>, log: seq<Entry>)

  datatype Event =
    | BeginStatus(id: nat)
    | EndStatus(id: nat, now: Instant)
    | Verify(now: Instant, grant: Grant)
    | Complete
    | Fail

  /** One user's chats are serialised; status requests begin and end anywhere between their steps. */
  predicate Enabled(q: Quota, e: Event) {
    match e
    case BeginStatus(id) => id !in q.statuses
    case EndStatus(id, now) => id in q.statuses && !Before(now, q.clock)
    case Verify(now, _) => !Before(now, q.clock) && q.inFlight.None?
    case Complete => q.inFlight.Some?
    case Fail => q.inFlight.Some?
  }

  /** The counter was last reset on another date. */
  predicate Outdated(c: Counter, now: Instant) {
    now.date != c.lastReset.date
  }

  /** A new day's counter, if the old one is outdated. */
  function Roll(q: Quota, now: Instant): Quota {
    q.(counter := Rolled(q.counter, now), clock := now,
       log := if Outdated(q.counter, now) then q.log + [Reset] else q.log)
  }

  /** A status request saves a reset of the counter that it read when it began. */
  function Apply(q: Quota, e: Event): Quota
    requires Enabled(q, e)
  {
    match e
    case BeginStatus(id) => q.(statuses := q.statuses[id := q.counter])
    case EndStatus(id, now) =>
      var ended := q.(statuses := q.statuses - {id}, clock := now);
      if Outdated(q.statuses[id], now) then ended.(counter := Rolled(q.statuses[id], now), log := q.log + [Reset])
      else ended
    case Verify(now, grant) =>
      var (counter, verdict) := Check(q.counter, grant, now);
      var rolled := if grant.enabled then Roll(q, now) else q;
      rolled.(counter := counter, clock := now, inFlight := if verdict.Allowed? then Some(now.date) else None)
    case Complete =>
      q.(counter := q.counter.(usage := q.counter.usage + 1), inFlight := None,
         log := q.log + [Completed(q.inFlight.value)])
    case Fail => q.(inFlight := None)
  }

  predicate IsRun(q: Quota, events: seq<Event>)
    decreases |events|
  {
    events == [] || (Enabled(q, events[0]) && IsRun(Apply(q, events[0]), events[1..]))
  }

  function After(q: Quota, events: seq<Event>): Quota
    requires IsRun(q, events)
    decreases |events|
  {
    if events == [] then q else After(Apply(q, events[0]), events[1..])
  }

  /** Completed chats that were verified on the date. */
  function CompletedOn(log: seq<Entry>, d: Date): nat {
    if log == [] then 0
    else CompletedOn(log[..|log| - 1], d) + if log[|log| - 1] == Completed(d) then 1 else 0
  }

  /** Completed chats after the last reset. */
  function SinceReset(log: seq<Entry>): nat {
    if log == [] || log[|log| - 1].Reset? then 0 else SinceReset(log[..|log| - 1]) + 1
  }

  /** Every grant a run meets has a limit between 0 and `limit`. */
  predicate GrantsWithin(events: seq<Event>, limit: nat) {
    forall i :: 0 <= i < |events| && events[i].Verify? && events[i].grant.enabled ==>
      0 <= events[i].grant.limit <= limit
  }

  /** No completion carries a date after `d`. */
  predicate NoneAfter(log: seq<Entry>, d: Date) {
    forall i :: 0 <= i < |log| && log[i].Completed? ==> !DateBefore(d, log[i].verifiedOn)
  }

  ghost predicate Inv(q: Quota, limit: nat, initialUsage: nat) {
    && (forall d :: CompletedOn(q.log, d) <= limit)
    && CompletedOn(q.log, q.counter.lastReset.date) <= q.counter.usage
    && q.counter.usage == (if Reset in q.log then 0 else initialUsage) + SinceReset(q.log)
    && NoneAfter(q.log, q.counter.lastReset.date)
    && (q.inFlight.Some? || q.log != [] ==> !DateBefore(q.clock.date, q.counter.lastReset.date))
    && (q.inFlight.Some? ==>
          && !DateBefore(q.counter.lastReset.date, q.inFlight.value)
          && CompletedOn(q.log, q.inFlight.value) < limit)
  }

  lemma {:induction false} NoneOnLaterDate(log: seq<Entry>, last: Date, d: Date)
    requires NoneAfter(log, last) && DateBefore(last, d)
    ensures CompletedOn(log, d) == 0
  {
    if log != [] {
      NoneOnLaterDate(log[..|log| - 1], last, d);
    }
  }

  lemma {:induction false} NothingLogged(log: seq<Entry>, d: Date)
    requires forall i :: 0 <= i < |log| ==> log[i].Reset?
    ensures CompletedOn(log, d) == 0
  {
    if log != [] {
      NothingLogged(log[..|log| - 1], d);
    }
  }

  lemma RollKeepsInv(q: Quota, now: Instant, limit: nat, initialUsage: nat)
    requires Inv(q, limit, initialUsage) && !Before(now, q.clock)
    ensures Inv(Roll(q, now), limit, initialUsage)
  {
    if Outdated(q.counter, now) {
      NoneOnNewDate(q, now, limit, initialUsage);
      ResetKeepsInv(q, now, limit, initialUsage);
    }
  }

  /** When the counter is outdated, no chat verified today has been completed yet. */
  lemma NoneOnNewDate(q: Quota, now: Instant, limit: nat, initialUsage: nat)
    requires Inv(q, limit, initialUsage) && !Before(now, q.clock) && Outdated(q.counter, now)
    ensures CompletedOn(q.log, now.date) == 0
  {
    if q.log != [] {
      assert DateBefore(q.counter.lastReset.date, now.date);
      NoneOnLaterDate(q.log, q.counter.lastReset.date, now.date);
    }
  }

  /** A reset on a date without completed chats, whatever the counter was. */
  lemma ResetKeepsInv(q: Quota, now: Instant, limit: nat, initialUsage: nat)
    requires Inv(q, limit, initialUsage) && !Before(now, q.clock) && CompletedOn(q.log, now.date) == 0
    ensures Inv(q.(counter := Counter(0, now), clock := now, log := q.log + [Reset]), limit, initialUsage)
  {
    ResetCountsNothing(q.log);
    if q.inFlight.Some? || q.log != [] {
      assert !DateBefore(now.date, q.counter.lastReset.date);
    }
  }

  lemma ResetCountsNothing(log: seq<Entry>)
    ensures forall d :: CompletedOn(log + [Reset], d) == CompletedOn(log, d)
    ensures SinceReset(log + [Reset]) == 0 && Reset in log + [Reset]
  {
    var longer := log + [Reset];
    assert longer[..|longer| - 1] == log && longer[|log|] == Reset;
  }

  /** The reset that a status request saves overwrites no completed chat of the day. */
  predicate Timely(q: Quota, e: Event)
    requires Enabled(q, e)
  {
    e.EndStatus? && Outdated(q.statuses[e.id], e.now) ==> CompletedOn(q.log, e.now.date) == 0
  }

  /** Otherwise the save loses charges, and it keeps the invariant exactly when it is timely. */
  lemma EndStatusKeepsInvIff(q: Quota, e: Event, limit: nat, initialUsage: nat)
    requires Inv(q, limit, initialUsage) && Enabled(q, e) && e.EndStatus?
    ensures Inv(Apply(q, e), limit, initialUsage) <==> Timely(q, e)
  {
    if Outdated(q.statuses[e.id], e.now) {
      ResetCountsNothing(q.log);
      if Timely(q, e) {
        ResetKeepsInv(q, e.now, limit, initialUsage);
      }
    }
  }

  /** A status request that nothing overtakes is timely. */
  lemma UndisturbedStatusIsTimely(q: Quota, id: nat, now: Instant, limit: nat, initialUsage: nat)
    requires Inv(q, limit, initialUsage) && id !in q.statuses && !Before(now, q.clock)
    ensures Timely(Apply(q, BeginStatus(id)), EndStatus(id, now))
    ensures Apply(Apply(q, BeginStatus(id)), EndStatus(id, now)) == Roll(q, now)
  {
    if Outdated(q.counter, now) {
      NoneOnNewDate(q, now, limit, initialUsage);
    }
    assert q.statuses[id := q.counter] - {id} == q.statuses;
  }

  lemma VerifyKeepsInv(q: Quota, e: Event, limit: nat, initialUsage: nat)
    requires Inv(q, limit, initialUsage) && Enabled(q, e) && e.Verify?
    requires e.grant.enabled ==> 0 <= e.grant.limit <= limit
    ensures Inv(Apply(q, e), limit, initialUsage)
  {
    if e.grant.enabled {
      RollKeepsInv(q, e.now, limit, initialUsage);
    }
  }

  lemma CompleteKeepsInv(q: Quota, limit: nat, initialUsage: nat)
    requires Inv(q, limit, initialUsage) && Enabled(q, Complete)
    ensures Inv(Apply(q, Complete), limit, initialUsage)
  {
    var log := q.log + [Completed(q.inFlight.value)];
    assert log[..|log| - 1] == q.log;
    assert forall d :: CompletedOn(log, d) == CompletedOn(q.log, d) + if d == q.inFlight.value then 1 else 0;
    assert Reset in log <==> Reset in q.log;
    assert SinceReset(log) == SinceReset(q.log) + 1;
  }

  lemma StepKeepsInv(q: Quota, e: Event, limit: nat, initialUsage: nat)
    requires Inv(q, limit, initialUsage) && Enabled(q, e) && Timely(q, e)
    requires e.Verify? && e.grant.enabled ==> 0 <= e.grant.limit <= limit
    ensures Inv(Apply(q, e), limit, initialUsage)
  {
    match e
    case BeginStatus(_) =>
    case EndStatus(_, _) => EndStatusKeepsInvIff(q, e, limit, initialUsage);
    case Verify(_, _) => VerifyKeepsInv(q, e, limit, initialUsage);
    case Complete => CompleteKeepsInv(q, limit, initialUsage);
    case Fail =>
  }

  predicate TimelyRun(q: Quota, events: seq<Event>)
    requires IsRun(q, events)
    decreases |events|
  {
    events == [] || (Timely(q, events[0]) && TimelyRun(Apply(q, events[0]), events[1..]))
  }

  lemma {:induction false} RunKeepsInv(q: Quota, events: seq<Event>, limit: nat, initialUsage: nat)
    requires Inv(q, limit, initialUsage) && IsRun(q, events) && TimelyRun(q, events) && GrantsWithin(events, limit)
    ensures Inv(After(q, events), limit, initialUsage)
    decreases |events|
  {
    if events != [] {
      StepKeepsInv(q, events[0], limit, initialUsage);
      assert forall i :: 0 <= i < |events[1..]| ==> events[1..][i] == events[i + 1];
      RunKeepsInv(Apply(q, events[0]), events[1..], limit, initialUsage);
    }
  }

  /** Before the first step: nothing is running, nothing has been logged. */
  function Start(counter: Counter, clock: Instant): Quota {
    Quota(counter, clock, None, map[], [])
  }

  /**
   Over any run with a forward clock in which no status request saves a stale
   reset, the completed chats that were verified on one date never exceed the
   limit, and the stored usage counts exactly the completions since the last reset.
   */
  lemma QuotaHolds(counter: Counter, clock: Instant, events: seq<Event>, limit: nat, d: Date)
    requires IsRun(Start(counter, clock), events) && TimelyRun(Start(counter, clock), events)
    requires GrantsWithin(events, limit)
    ensures var q := After(Start(counter, clock), events);
            && CompletedOn(q.log, d) <= limit
            && q.counter.usage == (if Reset in q.log then 0 else counter.usage) + SinceReset(q.log)
  {
    RunKeepsInv(Start(counter, clock), events, limit, counter.usage);
  }

  /**
   The condition on status requests is needed: one that has read yesterday's counter and saves its
   reset after a chat of today has been charged makes room for a second chat under a limit of one.
   */
  lemma StaleStatusBreaksQuota()
    ensures
      exists counter, clock, events, d ::
        IsRun(Start(counter, clock), events) && GrantsWithin(events, 1)
        && CompletedOn(After(Start(counter, clock), events).log, d) > 1
  {
    var yesterday, today := Instant(Date(2025, 1, 1), 0), Instant(Date(2025, 1, 2), 0);
    var counter := Counter(0, yesterday);
    var events := OvertakenStatus(Start(counter, yesterday), today);
    TwoCompleted(today.date);
    assert CompletedOn(After(Start(counter, yesterday), events).log, today.date) > 1;
  }

  /** A status request, overtaken by a chat of a new day, and then another chat. */
  lemma OvertakenStatus(q: Quota, now: Instant) returns (events: seq<Event>)
    requires q.inFlight.None? && q.statuses == map[] && q.log == []
    requires Outdated(q.counter, now) && !Before(now, q.clock)
    ensures IsRun(q, events) && GrantsWithin(events, 1)
    ensures After(q, events).log == [Reset, Completed(now.date), Reset, Completed(now.date)]
  {
    var chat := [Verify(now, Grant(true, 1)), Complete];
    var q1 := Apply(q, BeginStatus(0));
    var q2 := Chat(q1, now, 1);
    var q3 := Apply(q2, EndStatus(0, now));
    var q4 := Chat(q3, now, 1);
    var rest := [EndStatus(0, now)] + chat;
    events := [BeginStatus(0)] + (chat + rest);
    assert events[1..] == chat + rest && rest[1..] == chat && chat == chat + [];
    ChatFirst(q3, now, 1, []);
    assert IsRun(q2, rest) && After(q2, rest) == q4;
    ChatFirst(q1, now, 1, rest);
    assert q2.log == [Reset, Completed(now.date)];
    assert q4.log == q2.log + [Reset] + [Completed(now.date)];
  }

  lemma TwoCompleted(d: Date)
    ensures CompletedOn([Reset, Completed(d), Reset, Completed(d)], d) == 2
  {
    NothingLogged([Reset], d);
    CompletedOnce([Reset], d);
    ResetCountsNothing([Reset] + [Completed(d)]);
    CompletedOnce([Reset] + [Completed(d)] + [Reset], d);
    assert [Reset] + [Completed(d)] + [Reset] + [Completed(d)] == [Reset, Completed(d), Reset, Completed(d)];
  }

  lemma CompletedOnce(log: seq<Entry>, d: Date)
    ensures CompletedOn(log + [Completed(d)], d) == CompletedOn(log, d) + 1
  {
    assert (log + [Completed(d)])[..|log|] == log;
  }

  /** A chat that is allowed and completed. */
  function Chat(q: Quota, now: Instant, limit: int): Quota
    requires Enabled(q, Verify(now, Grant(true, limit)))
    requires Check(q.counter, Grant(true, limit), now).1 == Allowed
  {
    Apply(Apply(q, Verify(now, Grant(true, limit))), Complete)
  }

  lemma ChatFirst(q: Quota, now: Instant, limit: int, rest: seq<Event>)
    requires Enabled(q, Verify(now, Grant(true, limit)))
    requires Check(q.counter, Grant(true, limit), now).1 == Allowed
    requires IsRun(Chat(q, now, limit), rest)
    ensures var events := [Verify(now, Grant(true, limit)), Complete] + rest;
            IsRun(q, events) && After(q, events) == After(Chat(q, now, limit), rest)
  {
    var events := [Verify(now, Grant(true, limit)), Complete] + rest;
    assert events[1..] == [Complete] + rest;
    assert events[1..][1..] == rest;
  }

  /** A chat that fails after its verification costs nothing: all that is left is a new day's counter. */
  lemma FailedChatIsFree(q: Quota, now: Instant, grant: Grant)
    requires Enabled(q, Verify(now, grant)) && Check(q.counter, grant, now).1 == Allowed
    ensures Apply(Apply(q, Verify(now, grant)), Fail) == Roll(q, now)
  {
  }

  /** What SendChat writes to the counter is what a run does: a verification, then a completion if it went through. */
  lemma SendChatFollowsRun(q: Quota, t: Tables, grant: Grant, now: Instant, request: string, answer: Answer)
    requires t.user.Some? && q.counter == t.user.value.chat && Enabled(q, Verify(now, grant))
    ensures var after := Verified(t, grant, now);
            var verified := Apply(q, Verify(now, grant));
            && after.user.value.chat == verified.counter
            && (verified.inFlight.Some? <==> Check(q.counter, grant, now).1 == Allowed)
            && (verified.inFlight.Some? ==>
                  Delivered(after, request, answer).user.value.chat == Apply(verified, Complete).counter)
  {
  }
}
