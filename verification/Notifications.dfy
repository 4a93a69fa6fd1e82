/**
 The notification handler and its delivery: internal/service/notification_service.go and
 pkg/nats/subscriber.go. The repositories, uuid.Parse and the websocket hub are arbitrary.
 */
module Notifications {
  import opened Wrappers
  import Templates

  type Id = nat

  /** A value of a decoded payload: a string, or something else that fmt prints as `shown`. */
  datatype Value = Str(s: string) | Other(shown: string)

  type Payload = map<string, Value>

  datatype Target = Self | Admin | WithRole | Everyone | NoTarget

  datatype NotificationType = NotificationType(
    code: string, title: string, template: string, target: Target, role: string, active: bool)

  /** A notification; `user` is absent on a broadcast. */
  datatype Notification = Notification(
    user: Option<Id>, actor: Option<Id>, code: string, title: string, message: string,
    metadata: Payload, entityType: string, entity: Option<Id>)

  datatype Event = Event(kind: string, payload: Payload)

  /** The outside world during one delivery; `saves(i)` is whether the row of the i-th recipient is stored. */
  datatype Env = Env(
    config: string -> Option<NotificationType>, withRole: string -> Option<seq<Id>>,
    saves: nat -> bool, parse: string -> Option<Id>, idText: Id -> string, connected: bool)

  /** What one delivery adds to the table and pushes to clients. */
  datatype Effects = Effects(stored: seq<Notification>, sent: seq<Notification>, broadcast: seq<Notification>)

  datatype Decision =
    | Drop
    | Push(config: NotificationType)
    | Fail
    | Each(config: NotificationType, recipients: seq<Id>)

  const PREFIX := "events."
  const SUBSCRIBED := "SUBSCRIPTION_CREATED"
  const Nothing := Effects([], [], [])

  // ---------------------------------------------------------------- one notification

  predicate HasPrefix(s: string) {
    |PREFIX| <= |s| && s[..|PREFIX|] == PREFIX
  }

  function TypeCode(kind: string): string {
    if HasPrefix(kind) then kind[|PREFIX|..] else kind
  }

  function Text(value: Value): string {
    if value.Str? then value.s else value.shown
  }

  function Shown(payload: Payload): map<string, string> {
    map key | key in payload :: Text(payload[key])
  }

  /** A payload entry that is a string, or "". */
  function StringAt(payload: Payload, key: string): string {
    if key in payload && payload[key].Str? then payload[key].s else ""
  }

  function IdAt(payload: Payload, key: string, env: Env): Option<Id> {
    if key in payload && payload[key].Str? then env.parse(payload[key].s) else None
  }

  /** An identifier in the payload: an entry that is a string and parses. */
  function IdOf(payload: Payload, key: string, env: Env): Option<Id> {
    if key !in payload then None
    else
      match payload[key]
      case Str(text) => env.parse(text)
      case Other(_) => None
  }

  function Metadata(payload: Payload, env: Env): Payload {
    var entityType, entity := StringAt(payload, "entity_type"), IdAt(payload, "entity_id", env);
    if entityType != "" && entity.Some?
    then payload["action_url" := Str("/" + entityType + "s/" + env.idText(entity.value))]
    else payload
  }

  /** `n` is built for `user`, its message by filling the template in some order of the payload. */
  ghost predicate Built(n: Notification, user: Option<Id>, config: NotificationType, payload: Payload, env: Env) {
    && n == Notification(user, IdAt(payload, "actor_id", env), config.code, config.title, n.message,
                         Metadata(payload, env), StringAt(payload, "entity_type"), IdAt(payload, "entity_id", env))
    && exists order ::
         && Templates.Enumerates(order, Shown(payload).Keys)
         && n.message == Templates.Substitute(config.template, order, Shown(payload))
  }

  method BuildNotification(user: Option<Id>, config: NotificationType, payload: Payload, env: Env)
    returns (n: Notification)
    ensures Built(n, user, config, payload, env)
    ensures n.user == user && n.code == config.code && n.title == config.title
    ensures n.actor == IdOf(payload, "actor_id", env) && n.entity == IdOf(payload, "entity_id", env)
    ensures n.entityType
         == if "entity_type" in payload && payload["entity_type"].Str? then payload["entity_type"].s else ""
    ensures forall key :: key in payload && key != "action_url" ==> key in n.metadata && n.metadata[key] == payload[key]
    ensures n.metadata.Keys == payload.Keys + (if n.entityType != "" && n.entity.Some? then {"action_url"} else {})
    ensures n.entityType != "" && n.entity.Some? ==>
              n.metadata["action_url"] == Str("/" + n.entityType + "s/" + env.idText(n.entity.value))
  {
    var msg := Templates.BuildMessage(config.template, Shown(payload));
    var actor := IdAt(payload, "actor_id", env);
    var entityType := StringAt(payload, "entity_type");
    var entity := IdAt(payload, "entity_id", env);
    var metadata := payload;
    if entityType != "" && entity.Some? {
      metadata := metadata["action_url" := Str("/" + entityType + "s/" + env.idText(entity.value))];
    }
    n := Notification(user, actor, config.code, config.title, msg, metadata, entityType, entity);
  }

  // ---------------------------------------------------------------- recipients

  function Recipients(config: NotificationType, payload: Payload, env: Env): Option<seq<Id>> {
    match config.target
    case Self =>
      var user := IdAt(payload, "user_id", env);
      Some(if user.Some? then [user.value] else [])
    case Admin => env.withRole("admin")
    case WithRole => env.withRole(config.role)
    case Everyone => Some([])
    case NoTarget => Some([])
  }

  method ResolveRecipients(config: NotificationType, payload: Payload, env: Env) returns (users: Option<seq<Id>>)
    ensures users == Recipients(config, payload, env)
    ensures config.target.Admin? ==> users == env.withRole("admin")
    ensures config.target.WithRole? ==> users == env.withRole(config.role)
    ensures config.target.Everyone? || config.target.NoTarget? ==> users == Some([])
    ensures config.target.Self? ==>
              users == Some(match IdOf(payload, "user_id", env)
                            case Some(user) => [user]
                            case None => [])
  {
    var ids: seq<Id> := [];
    match config.target
    case Self =>
      if "user_id" in payload && payload["user_id"].Str? {
        var user := env.parse(payload["user_id"].s);
        if user.Some? {
          ids := [user.value];
        }
      }
      return Some(ids);
    case Admin =>
      users := Collect("admin", env);
    case WithRole =>
      users := Collect(config.role, env);
    case Everyone =>
      return Some(ids);
    case NoTarget =>
      return Some(ids);
  }

  method Collect(role: string, env: Env) returns (users: Option<seq<Id>>)
    ensures users == env.withRole(role)
  {
    var found := env.withRole(role);
    if found.None? {
      return None;
    }
    var ids: seq<Id> := [];
    for i := 0 to |found.value|
      invariant ids == found.value[..i]
    {
      ids := ids + [found.value[i]];
    }
    assert ids == found.value;
    return Some(ids);
  }

  // ---------------------------------------------------------------- one delivery

  /** The broadcast about a new subscriber, if the event asks for one. */
  function SocialProof(event: Event, env: Env): seq<Notification> {
    var name := StringAt(event.payload, "full_name");
    if event.kind == SUBSCRIBED && name != "" && env.connected then
      [Notification(None, None, "SOCIAL_PROOF", "New Subscriber!", name + " just subscribed to Pro Plan!",
                    map["avatar_url" := Str(StringAt(event.payload, "avatar_url")), "full_name" := Str(name),
                        "plan_name" := (if "plan_name" in event.payload then event.payload["plan_name"]
                                        else Other("<nil>")),
                        "type" := Str("flexing")],
                    "", None)]
    else []
  }

  /** The broadcast names the new subscriber, and is only made for the bare code, a name and a connected hub. */
  lemma SocialProofSays(event: Event, env: Env)
    ensures
      var named := "full_name" in event.payload && event.payload["full_name"].Str? && event.payload["full_name"].s != "";
      if event.kind == "SUBSCRIPTION_CREATED" && named && env.connected then
        && |SocialProof(event, env)| == 1 && SocialProof(event, env)[0].user == None
        && SocialProof(event, env)[0].code == "SOCIAL_PROOF"
        && SocialProof(event, env)[0].message == event.payload["full_name"].s + " just subscribed to Pro Plan!"
      else SocialProof(event, env) == []
  {
  }

  function Decide(event: Event, env: Env): Decision {
    var config := env.config(TypeCode(event.kind));
    if config.None? || !config.value.active then Drop
    else if config.value.target == Everyone then Push(config.value)
    else
      var users := Recipients(config.value, event.payload, env);
      if users.None? then Fail else Each(config.value, users.value)
  }

  /** The users, among the first `n` recipients, whose row is stored. */
  function Saved(recipients: seq<Id>, saves: nat -> bool, n: nat): seq<Id>
    requires n <= |recipients|
  {
    if n == 0 then []
    else if saves(n - 1) then Saved(recipients, saves, n - 1) + [recipients[n - 1]]
    else Saved(recipients, saves, n - 1)
  }

  /** `rows` are notifications for `users`, one each, in order. */
  ghost predicate BuiltFor(
    rows: seq<Notification>, users: seq<Id>, config: NotificationType, payload: Payload, env: Env)
  {
    && |rows| == |users|
    && forall i :: 0 <= i < |rows| ==> Built(rows[i], Some(users[i]), config, payload, env)
  }

  /** `fx` is a possible outcome of handling the event. */
  ghost predicate Handled(event: Event, env: Env, failed: bool, fx: Effects) {
    var social := SocialProof(event, env);
    match Decide(event, env)
    case Drop => !failed && fx == Nothing
    case Push(config) =>
      && !failed && fx.stored == [] && fx.sent == []
      && if env.connected then
           && |fx.broadcast| == |social| + 1
           && fx.broadcast[..|social|] == social
           && Built(fx.broadcast[|social|], None, config, event.payload, env)
         else fx.broadcast == []
    case Fail => failed && fx == Effects([], [], social)
    case Each(config, recipients) =>
      && !failed
      && fx.broadcast == social
      && BuiltFor(fx.stored, Saved(recipients, env.saves, |recipients|), config, event.payload, env)
      && fx.sent == if env.connected then fx.stored else []
  }

  /** What a caller may rely on, read off the configuration of the event's code. */
  ghost predicate Observed(event: Event, env: Env, failed: bool, fx: Effects) {
    var code := if |event.kind| >= 7 && event.kind[..7] == "events." then event.kind[7..] else event.kind;
    var found := env.config(code);
    if found.None? || !found.value.active then !failed && fx == Effects([], [], [])
    else
      var config := found.value;
      match config.target
      case Everyone =>
        && !failed && fx.stored == [] && fx.sent == []
        && (if env.connected then
              && fx.broadcast != []
              && Built(fx.broadcast[|fx.broadcast| - 1], None, config, event.payload, env)
            else fx.broadcast == [])
      case Self => !failed && ToUsers(fx, match IdOf(event.payload, "user_id", env) case Some(u) => [u] case None => [], config, event, env)
      case Admin => IfFound(env.withRole("admin"), failed, fx, config, event, env)
      case WithRole => IfFound(env.withRole(config.role), failed, fx, config, event, env)
      case NoTarget => !failed && ToUsers(fx, [], config, event, env)
  }

  ghost predicate IfFound(users: Option<seq<Id>>, failed: bool, fx: Effects, config: NotificationType, event: Event,
                          env: Env)
  {
    match users
    case None => failed && fx.stored == [] && fx.sent == []
    case Some(ids) => !failed && ToUsers(fx, ids, config, event, env)
  }

  /** A row for each user whose row can be stored, pushed to the hub as stored. */
  ghost predicate ToUsers(fx: Effects, users: seq<Id>, config: NotificationType, event: Event, env: Env) {
    && BuiltFor(fx.stored, Saved(users, env.saves, |users|), config, event.payload, env)
    && fx.sent == (if env.connected then fx.stored else [])
  }

  lemma HandledIsObserved(event: Event, env: Env, failed: bool, fx: Effects)
    requires Handled(event, env, failed, fx)
    ensures Observed(event, env, failed, fx)
  {
    assert TypeCode(event.kind) == if |event.kind| >= 7 && event.kind[..7] == "events." then event.kind[7..] else event.kind;
  }

  class Service {
    var stored: seq<Notification>
    var sent: seq<Notification>
    var broadcast: seq<Notification>

    method HandleEvent(event: Event, env: Env) returns (failed: bool, ghost fx: Effects)
      modifies this
      ensures stored == old(stored) + fx.stored && sent == old(sent) + fx.sent && broadcast == old(broadcast) + fx.broadcast
      ensures Handled(event, env, failed, fx) && Observed(event, env, failed, fx)
    {
      failed, fx := Handle(event, env);
      HandledIsObserved(event, env, failed, fx);
    }

    /** The body of handleEvent. */
    method Handle(event: Event, env: Env) returns (failed: bool, ghost fx: Effects)
      modifies this
      ensures stored == old(stored) + fx.stored && sent == old(sent) + fx.sent && broadcast == old(broadcast) + fx.broadcast
      ensures Handled(event, env, failed, fx)
    {
      failed, fx := false, Nothing;
      var config := env.config(TypeCode(event.kind));
      if config.None? || !config.value.active {
        return;
      }
      var social := SocialProof(event, env);
      broadcast := broadcast + social;
      if config.value.target == Everyone {
        var n := BuildNotification(None, config.value, event.payload, env);
        fx := Effects([], [], social + if env.connected then [n] else []);
        if env.connected {
          broadcast := broadcast + [n];
        }
        return;
      }
      fx := Effects([], [], social);
      var users := ResolveRecipients(config.value, event.payload, env);
      if users.None? {
        failed := true;
        return;
      }
      ghost var rows := Notify(users.value, config.value, event.payload, env);
      fx := Effects(rows, if env.connected then rows else [], social);
    }

    method Notify(users: seq<Id>, config: NotificationType, payload: Payload, env: Env)
      returns (ghost rows: seq<Notification>)
      modifies this`stored, this`sent
      ensures BuiltFor(rows, Saved(users, env.saves, |users|), config, payload, env)
      ensures stored == old(stored) + rows
      ensures sent == old(sent) + if env.connected then rows else []
    {
      rows := [];
      for i := 0 to |users|
        invariant BuiltFor(rows, Saved(users, env.saves, i), config, payload, env)
        invariant stored == old(stored) + rows
        invariant sent == old(sent) + if env.connected then rows else []
      {
        var n := BuildNotification(Some(users[i]), config, payload, env);
        if !env.saves(i) {
          continue;
        }
        rows := rows + [n];
        stored := stored + [n];
        if env.connected {
          sent := sent + [n];
        }
      }
    }

    /** The Consume callback: a body that does not decode or a handler that fails is not acknowledged. */
    method Consume(subject: string, data: Option<Payload>, env: Env) returns (acked: bool, ghost fx: Effects)
      modifies this
      ensures stored == old(stored) + fx.stored && sent == old(sent) + fx.sent && broadcast == old(broadcast) + fx.broadcast
      ensures data.None? ==> !acked && fx == Nothing
      ensures data.Some? ==> Handled(Event(subject, data.value), env, !acked, fx)
    {
      if data.None? {
        return false, Nothing;
      }
      var failed;
      failed, fx := HandleEvent(Event(subject, data.value), env);
      acked := !failed;
    }

    /**
     The stream redelivers a message until it is acknowledged. Whatever the repositories answer at
     each attempt, only the acknowledged one leaves anything behind.
     */
    method Redeliver(subject: string, data: Option<Payload>, envs: seq<Env>)
      returns (acked: bool, attempts: nat, ghost fx: Effects)
      requires HasPrefix(subject)
      modifies this
      ensures stored == old(stored) + fx.stored && sent == old(sent) + fx.sent && broadcast == old(broadcast) + fx.broadcast
      ensures attempts <= |envs| && (acked ==> 0 < attempts)
      ensures acked ==> data.Some? && Handled(Event(subject, data.value), envs[attempts - 1], false, fx)
      ensures !acked ==> fx == Nothing && attempts == |envs|
    {
      acked, attempts, fx := false, 0, Nothing;
      while attempts < |envs| && !acked
        invariant stored == old(stored) + fx.stored && sent == old(sent) + fx.sent && broadcast == old(broadcast) + fx.broadcast
        invariant attempts <= |envs| && (acked ==> 0 < attempts)
        invariant acked ==> data.Some? && Handled(Event(subject, data.value), envs[attempts - 1], false, fx)
        invariant !acked ==> fx == Nothing
        decreases |envs| - attempts
      {
        acked, fx := Consume(subject, data, envs[attempts]);
        attempts := attempts + 1;
        if !acked && data.Some? {
          FailureHasNoEffects(Event(subject, data.value), envs[attempts - 1], fx);
        }
      }
    }
  }

  // ---------------------------------------------------------------- what redelivery can duplicate

  /** The subscriber names an event by its subject, which the branch for new subscribers never equals. */
  lemma SubjectIsNeverSocial(event: Event, env: Env)
    requires HasPrefix(event.kind)
    ensures SocialProof(event, env) == []
  {
    assert event.kind[0] == event.kind[..|PREFIX|][0] == 'e';
    assert SUBSCRIBED[0] == 'S';
  }

  /** Through the subscriber a handler that fails has stored, sent and broadcast nothing. */
  lemma FailureHasNoEffects(event: Event, env: Env, fx: Effects)
    requires HasPrefix(event.kind) && Handled(event, env, true, fx)
    ensures fx == Nothing
  {
    SubjectIsNeverSocial(event, env);
  }

  /** For any caller a failing handler has an effect exactly when the event is the bare code of a new subscriber. */
  lemma FailureHasEffectsIff(event: Event, env: Env, fx: Effects)
    requires Handled(event, env, true, fx)
    ensures fx != Nothing
       <==> event.kind == SUBSCRIBED && StringAt(event.payload, "full_name") != "" && env.connected
  {
    assert |SocialProof(event, env)| == 0
        || (event.kind == SUBSCRIBED && StringAt(event.payload, "full_name") != "" && env.connected);
  }

  lemma {:induction false} SavedAreRecipients(recipients: seq<Id>, saves: nat -> bool, n: nat)
    requires n <= |recipients|
    ensures multiset(Saved(recipients, saves, n)) <= multiset(recipients[..n])
  {
    if n > 0 {
      var before, first, last := Saved(recipients, saves, n - 1), recipients[..n - 1], recipients[n - 1];
      SavedAreRecipients(recipients, saves, n - 1);
      assert recipients[..n] == first + [last];
      OneMoreUser(before, first, last, recipients[..n]);
      if saves(n - 1) {
        assert Saved(recipients, saves, n) == before + [last];
      } else {
        assert Saved(recipients, saves, n) == before;
      }
    }
  }

  lemma {:induction false} AllSaved(recipients: seq<Id>, saves: nat -> bool, n: nat)
    requires n <= |recipients| && forall i :: 0 <= i < n ==> saves(i)
    ensures Saved(recipients, saves, n) == recipients[..n]
  {
    if n > 0 {
      AllSaved(recipients, saves, n - 1);
      assert recipients[..n] == recipients[..n - 1] + [recipients[n - 1]];
    }
  }

  lemma OneMoreUser(some: seq<Id>, all: seq<Id>, user: Id, more: seq<Id>)
    requires multiset(some) <= multiset(all) && more == all + [user]
    ensures multiset(some) <= multiset(more) && multiset(some + [user]) <= multiset(more)
  {
  }

  /**
   An acknowledged delivery stores for nobody more notifications than the recipients name them, and
   exactly one for each recipient if no row fails to be stored.
   */
  lemma AtMostOneEach(event: Event, env: Env, fx: Effects)
    requires Handled(event, env, false, fx)
    ensures
      match Decide(event, env)
      case Each(_, recipients) =>
        var users := Saved(recipients, env.saves, |recipients|);
        && |fx.stored| == |users|
        && (forall i :: 0 <= i < |users| ==> fx.stored[i].user == Some(users[i]))
        && multiset(users) <= multiset(recipients)
        && ((forall i :: 0 <= i < |recipients| ==> env.saves(i)) ==> users == recipients)
      case _ => fx.stored == []
  {
    var decision := Decide(event, env);
    if decision.Each? {
      SavedAreRecipients(decision.recipients, env.saves, |decision.recipients|);
      if forall i :: 0 <= i < |decision.recipients| ==> env.saves(i) {
        AllSaved(decision.recipients, env.saves, |decision.recipients|);
      }
      assert decision.recipients[..|decision.recipients|] == decision.recipients;
    }
  }

  /** With slots and brace-free values all recipients read the same, filled message. */
  lemma EveryoneReadsTheSame(event: Event, env: Env, fx: Effects, segments: seq<Templates.Segment>)
    requires Handled(event, env, false, fx) && Decide(event, env).Each?
    requires Decide(event, env).config.template == Templates.Show(segments)
    requires Templates.PlainSegments(segments) && Templates.PlainValues(Shown(event.payload))
    ensures
      var values := Shown(event.payload);
      forall i :: 0 <= i < |fx.stored|
        ==> fx.stored[i].message == Templates.Show(Templates.Fill(segments, values.Keys, values))
  {
    var values, config := Shown(event.payload), Decide(event, env).config;
    forall i | 0 <= i < |fx.stored|
      ensures fx.stored[i].message == Templates.Show(Templates.Fill(segments, values.Keys, values))
    {
      var n := fx.stored[i];
      var order :| Templates.Enumerates(order, values.Keys)
                   && n.message == Templates.Substitute(config.template, order, values);
      Templates.SubstituteFills(segments, order, values.Keys, values);
    }
  }
}
