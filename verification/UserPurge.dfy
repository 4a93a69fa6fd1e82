/**
 The deep purge of users: PurgeUsers of internal/service/admin_service.go, with
 the deletes that select through parent tables
 (internal/repository/implementation/chat_message_repository_impl.go and
 note_embedding_repository_impl.go). All of them ignore soft deletion, so a
 table is just its rows.
 */
module UserPurge {
  import opened Wrappers
  import opened UnitOfWork

  type Id = nat

  /** A table whose rows name one other row: their owner, or their parent. */
  type Links = map<Id, Id>

  datatype Db = Db(
    users: set<Id>,
    sessions: Links,        // owner
    messages: Links,        // session
    rawMessages: Links,     // session
    citations: Links,       // message
    notes: Links,           // owner
    embeddings: Links,      // note
    notebooks: Links, refunds: Links, cancellations: Links, addresses: Links, subscriptions: Links)

  // ---------------------------------------------------------------- what the repositories delete

  /** DELETE ... WHERE user_id = ?. */
  function WithoutOwner(table: Links, u: Id): Links {
    map k | k in table && table[k] != u :: table[k]
  }

  /** SELECT id ... WHERE user_id = ?. */
  function IdsOwnedBy(table: Links, u: Id): set<Id> {
    set k | k in table && table[k] == u
  }

  /** DELETE ... WHERE parent_id IN (...). */
  function WithoutParents(table: Links, parents: set<Id>): Links {
    map k | k in table && table[k] !in parents :: table[k]
  }

  /** SELECT id ... WHERE parent_id IN (...). */
  function IdsBelow(table: Links, parents: set<Id>): set<Id> {
    set k | k in table && table[k] in parents
  }

  // ---------------------------------------------------------------- what a purge means

  function WithoutOwners(table: Links, gone: set<Id>): Links {
    map k | k in table && table[k] !in gone :: table[k]
  }

  /** The parent row exists and belongs to one of the users. */
  predicate Under(parents: Links, p: Id, gone: set<Id>) {
    p in parents && parents[p] in gone
  }

  /** The message exists and belongs to a session of one of the users. */
  predicate UnderMessage(messages: Links, sessions: Links, m: Id, gone: set<Id>) {
    m in messages && Under(sessions, messages[m], gone)
  }

  function WithoutUnder(table: Links, parents: Links, gone: set<Id>): Links {
    map k | k in table && !Under(parents, table[k], gone) :: table[k]
  }

  function WithoutUnderMessages(table: Links, messages: Links, sessions: Links, gone: set<Id>): Links {
    map k | k in table && !UnderMessage(messages, sessions, table[k], gone) :: table[k]
  }

  /** The database without every listed row that belongs to one of the users. */
  function Purged(db: Db, gone: set<Id>): Db {
    Db(db.users - gone,
       WithoutOwners(db.sessions, gone),
       WithoutUnder(db.messages, db.sessions, gone),
       db.rawMessages,
       WithoutUnderMessages(db.citations, db.messages, db.sessions, gone),
       WithoutOwners(db.notes, gone),
       WithoutUnder(db.embeddings, db.notes, gone),
       WithoutOwners(db.notebooks, gone),
       WithoutOwners(db.refunds, gone),
       WithoutOwners(db.cancellations, gone),
       WithoutOwners(db.addresses, gone),
       WithoutOwners(db.subscriptions, gone))
  }

  // The statements delete exactly the rows of one user.

  lemma OwnerStatement(table: Links, u: Id)
    ensures WithoutOwner(table, u) == WithoutOwners(table, {u})
  {
  }

  lemma ParentStatement(table: Links, parents: Links, u: Id)
    ensures WithoutParents(table, IdsOwnedBy(parents, u)) == WithoutUnder(table, parents, {u})
  {
  }

  lemma GrandparentStatement(table: Links, messages: Links, sessions: Links, u: Id)
    ensures WithoutParents(table, IdsBelow(messages, IdsOwnedBy(sessions, u)))
         == WithoutUnderMessages(table, messages, sessions, {u})
  {
    var ids := IdsBelow(messages, IdsOwnedBy(sessions, u));
    assert forall m :: m in ids <==> UnderMessage(messages, sessions, m, {u});
  }

  // ---------------------------------------------------------------- the code

  datatype PurgeResult = PurgeResult(deletedCount: nat, failedUsers: seq<Id>)

  /** The call that fails for one user: 0 is the begin, 1 to 11 are the deletes, 12 is the commit. */
  type Fault = Option<nat>

  /** Deletes 1 to 5: everything that is selected through a parent comes before its parent. */
  method PurgeConversationsAndNotes(uow: Unit<Db>, u: Id, fault: Fault) returns (err: bool)
    requires uow.tx.Open?
    modifies uow
    ensures uow.db == old(uow.db) && uow.tx.Open?
    ensures err <==> fault.Some? && 1 <= fault.value <= 5
    ensures !err ==>
              var before, after := old(uow.tx).view, uow.tx.view;
              after == Purged(before, {u}).(
                users := before.users, notebooks := before.notebooks, refunds := before.refunds,
                cancellations := before.cancellations, addresses := before.addresses,
                subscriptions := before.subscriptions)
  {
    ghost var before := uow.tx.view;
    err := uow.Exec((d: Db) => d.(citations := WithoutParents(d.citations, IdsBelow(d.messages, IdsOwnedBy(d.sessions, u)))),
                    fault == Some(1));
    if err {
      return;
    }
    err := uow.Exec((d: Db) => d.(messages := WithoutParents(d.messages, IdsOwnedBy(d.sessions, u))), fault == Some(2));
    if err {
      return;
    }
    err := uow.Exec((d: Db) => d.(sessions := WithoutOwner(d.sessions, u)), fault == Some(3));
    if err {
      return;
    }
    err := uow.Exec((d: Db) => d.(embeddings := WithoutParents(d.embeddings, IdsOwnedBy(d.notes, u))), fault == Some(4));
    if err {
      return;
    }
    err := uow.Exec((d: Db) => d.(notes := WithoutOwner(d.notes, u)), fault == Some(5));
    if !err {
      GrandparentStatement(before.citations, before.messages, before.sessions, u);
      ParentStatement(before.messages, before.sessions, u);
      ParentStatement(before.embeddings, before.notes, u);
      OwnerStatement(before.sessions, u);
      OwnerStatement(before.notes, u);
    }
  }

  /** Deletes 6 to 11. */
  method PurgeOwned(uow: Unit<Db>, u: Id, fault: Fault) returns (err: bool)
    requires uow.tx.Open?
    modifies uow
    ensures uow.db == old(uow.db) && uow.tx.Open?
    ensures err <==> fault.Some? && 6 <= fault.value <= 11
    ensures !err ==>
              var before, after := old(uow.tx).view, uow.tx.view;
              after == before.(
                users := before.users - {u},
                notebooks := WithoutOwners(before.notebooks, {u}), refunds := WithoutOwners(before.refunds, {u}),
                cancellations := WithoutOwners(before.cancellations, {u}),
                addresses := WithoutOwners(before.addresses, {u}),
                subscriptions := WithoutOwners(before.subscriptions, {u}))
  {
    err := PurgeRequests(uow, u, fault);
    if err {
      return;
    }
    err := uow.Exec((d: Db) => d.(addresses := WithoutOwner(d.addresses, u)), fault == Some(9));
    if err {
      return;
    }
    err := uow.Exec((d: Db) => d.(subscriptions := WithoutOwner(d.subscriptions, u)), fault == Some(10));
    if err {
      return;
    }
    err := uow.Exec((d: Db) => d.(users := d.users - {u}), fault == Some(11));
  }

  /** Deletes 6 to 8. */
  method PurgeRequests(uow: Unit<Db>, u: Id, fault: Fault) returns (err: bool)
    requires uow.tx.Open?
    modifies uow
    ensures uow.db == old(uow.db) && uow.tx.Open?
    ensures err <==> fault.Some? && 6 <= fault.value <= 8
    ensures !err ==>
              var before, after := old(uow.tx).view, uow.tx.view;
              after == before.(
                notebooks := WithoutOwners(before.notebooks, {u}), refunds := WithoutOwners(before.refunds, {u}),
                cancellations := WithoutOwners(before.cancellations, {u}))
  {
    err := uow.Exec((d: Db) => d.(notebooks := WithoutOwner(d.notebooks, u)), fault == Some(6));
    if err {
      return;
    }
    err := uow.Exec((d: Db) => d.(refunds := WithoutOwner(d.refunds, u)), fault == Some(7));
    if err {
      return;
    }
    err := uow.Exec((d: Db) => d.(cancellations := WithoutOwner(d.cancellations, u)), fault == Some(8));
  }

  class AdminService {
    var db: Db

    constructor (db: Db)
      ensures this.db == db
    {
      this.db := db;
    }

    /** One turn of the loop: a unit of work of its own. */
    method PurgeUser(u: Id, fault: Fault) returns (ok: bool)
      modifies this
      ensures ok <==> fault.None? || 12 < fault.value
      ensures db == if ok then Purged(old(db), {u}) else old(db)
    {
      var uow := new Unit(db);
      var err := uow.Begin(fault == Some(0));
      if err {
        return false;
      }
      err := PurgeConversationsAndNotes(uow, u, fault);
      if !err {
        err := PurgeOwned(uow, u, fault);
      }
      if err {
        var failed := uow.Rollback();
        ok := false;
      } else {
        err := uow.Commit(fault == Some(12));
        ok := !err;
      }
      db := uow.db;
    }

    /**
     PurgeUsers: every requested user is either purged from all listed tables or
     fully intact, nobody else loses a row, and every request is accounted for.
     */
    method PurgeUsers(ids: seq<Id>, faults: seq<Fault>) returns (res: PurgeResult, ghost purged: set<Id>)
      requires |faults| == |ids|
      modifies this
      ensures db == Purged(old(db), purged)
      ensures forall u :: u in purged <==> exists i :: 0 <= i < |ids| && ids[i] == u && Succeeds(faults[i])
      ensures res.deletedCount + |res.failedUsers| == |ids|
      ensures res.failedUsers == FailedIn(ids, faults)
      ensures AreFailed(ids, faults, res.failedUsers)
    {
      res, purged := PurgeResult(0, []), {};
      PurgeNobody(db);
      for i := 0 to |ids|
        invariant db == Purged(old(db), purged)
        invariant forall u :: u in purged <==> exists k :: 0 <= k < i && ids[k] == u && Succeeds(faults[k])
        invariant res.deletedCount + |res.failedUsers| == i
        invariant res.failedUsers == FailedIn(ids[..i], faults[..i])
      {
        assert ids[..i + 1][..i] == ids[..i] && faults[..i + 1][..i] == faults[..i];
        var ok := PurgeUser(ids[i], faults[i]);
        if ok {
          PurgeOneMore(old(db), purged, ids[i]);
          purged := purged + {ids[i]};
          res := res.(deletedCount := res.deletedCount + 1);
        } else {
          res := res.(failedUsers := res.failedUsers + [ids[i]]);
        }
      }
      assert ids[..|ids|] == ids && faults[..|faults|] == faults;
      FailedAreListed(ids, faults);
    }
  }

  /** `failed` is exactly the requests whose purge failed, in their order. */
  ghost predicate AreFailed(ids: seq<Id>, faults: seq<Fault>, failed: seq<Id>)
    requires |faults| == |ids|
  {
    exists places: seq<nat> :: ArePlaces(ids, faults, failed, places)
  }

  predicate ArePlaces(ids: seq<Id>, faults: seq<Fault>, failed: seq<Id>, places: seq<nat>)
    requires |faults| == |ids|
  {
    && |places| == |failed|
    && (forall a, b :: 0 <= a < b < |places| ==> places[a] < places[b])
    && (forall k :: 0 <= k < |places| ==> places[k] < |ids| && failed[k] == ids[places[k]])
    && (forall i: nat :: i < |ids| ==> (i in places <==> faults[i].Some? && faults[i].value <= 12))
  }

  lemma FailedAreListed(ids: seq<Id>, faults: seq<Fault>)
    requires |faults| == |ids|
    ensures AreFailed(ids, faults, FailedIn(ids, faults))
  {
    var places := FailedPlaces(ids, faults);
  }

  lemma {:induction false} FailedPlaces(ids: seq<Id>, faults: seq<Fault>) returns (places: seq<nat>)
    requires |faults| == |ids|
    ensures ArePlaces(ids, faults, FailedIn(ids, faults), places)
  {
    if ids == [] {
      places := [];
    } else {
      var n := |ids| - 1;
      var before := FailedPlaces(ids[..n], faults[..n]);
      assert ids == ids[..n] + [ids[n]] && faults == faults[..n] + [faults[n]];
      PlacesGrow(ids[..n], faults[..n], ids[n], faults[n], FailedIn(ids[..n], faults[..n]), before);
      places := if Succeeds(faults[n]) then before else before + [n];
    }
  }

  lemma PlacesGrow(ids: seq<Id>, faults: seq<Fault>, id: Id, fault: Fault, failed: seq<Id>, places: seq<nat>)
    requires |faults| == |ids| && ArePlaces(ids, faults, failed, places)
    ensures Succeeds(fault) ==> ArePlaces(ids + [id], faults + [fault], failed, places)
    ensures !Succeeds(fault) ==> ArePlaces(ids + [id], faults + [fault], failed + [id], places + [|ids|])
  {
    var all, more := faults + [fault], places + [|ids|];
    forall i: nat | i < |all|
      ensures Succeeds(fault) ==> (i in places <==> all[i].Some? && all[i].value <= 12)
      ensures !Succeeds(fault) ==> (i in more <==> all[i].Some? && all[i].value <= 12)
    {
      if i < |ids| {
        assert all[i] == faults[i];
        assert i in more <==> i in places;
      } else {
        assert i !in places && more[|places|] == i;
      }
    }
  }

  predicate Succeeds(fault: Fault) {
    fault.None? || 12 < fault.value
  }

  /** The users whose purge failed, in request order. */
  function FailedIn(ids: seq<Id>, faults: seq<Fault>): seq<Id>
    requires |faults| == |ids|
  {
    if ids == [] then []
    else
      var n := |ids| - 1;
      FailedIn(ids[..n], faults[..n]) + if Succeeds(faults[n]) then [] else [ids[n]]
  }

  lemma PurgeNobody(db: Db)
    ensures Purged(db, {}) == db
  {
    assert forall t: Links :: WithoutOwners(t, {}) == t;
    assert forall t: Links, parents: Links :: WithoutUnder(t, parents, {}) == t;
    assert WithoutUnderMessages(db.citations, db.messages, db.sessions, {}) == db.citations;
  }

  lemma OwnersOneMore(t: Links, gone: set<Id>, u: Id)
    ensures WithoutOwners(WithoutOwners(t, gone), {u}) == WithoutOwners(t, gone + {u})
  {
  }

  lemma UnderOneMore(t: Links, parents: Links, gone: set<Id>, u: Id)
    ensures WithoutUnder(WithoutUnder(t, parents, gone), WithoutOwners(parents, gone), {u})
         == WithoutUnder(t, parents, gone + {u})
  {
  }

  lemma UnderMessagesOneMore(t: Links, messages: Links, sessions: Links, gone: set<Id>, u: Id)
    ensures WithoutUnderMessages(WithoutUnderMessages(t, messages, sessions, gone),
                                 WithoutUnder(messages, sessions, gone), WithoutOwners(sessions, gone), {u})
         == WithoutUnderMessages(t, messages, sessions, gone + {u})
  {
    var messages', sessions' := WithoutUnder(messages, sessions, gone), WithoutOwners(sessions, gone);
    forall m ensures UnderMessage(messages, sessions, m, gone) || UnderMessage(messages', sessions', m, {u})
                <==> UnderMessage(messages, sessions, m, gone + {u})
    {
    }
  }

  /** Purges add up: purging users one after the other purges them together. */
  lemma PurgeOneMore(db: Db, gone: set<Id>, u: Id)
    ensures Purged(Purged(db, gone), {u}) == Purged(db, gone + {u})
  {
    OwnersOneMore(db.sessions, gone, u);
    OwnersOneMore(db.notes, gone, u);
    OwnersOneMore(db.notebooks, gone, u);
    OwnersOneMore(db.refunds, gone, u);
    OwnersOneMore(db.cancellations, gone, u);
    OwnersOneMore(db.addresses, gone, u);
    OwnersOneMore(db.subscriptions, gone, u);
    UnderOneMore(db.messages, db.sessions, gone, u);
    UnderOneMore(db.embeddings, db.notes, gone, u);
    UnderMessagesOneMore(db.citations, db.messages, db.sessions, gone, u);
    assert db.users - gone - {u} == db.users - (gone + {u});
  }

  // ---------------------------------------------------------------- what a purge leaves behind

  /** Every message has its session, every citation its message, every embedding its note. */
  predicate NoOrphans(db: Db) {
    && (forall m :: m in db.messages ==> db.messages[m] in db.sessions)
    && (forall c :: c in db.citations ==> db.citations[c] in db.messages)
    && (forall e :: e in db.embeddings ==> db.embeddings[e] in db.notes)
  }

  /** No listed row belongs to the user. */
  predicate GoneFrom(db: Db, u: Id) {
    && u !in db.users && u !in db.sessions.Values && u !in db.notes.Values && u !in db.notebooks.Values
    && u !in db.refunds.Values && u !in db.cancellations.Values && u !in db.addresses.Values
    && u !in db.subscriptions.Values
  }

  /** The rows of one user are the same in both databases. */
  ghost predicate SameRows(a: Db, b: Db, u: Id) {
    && (u in a.users <==> u in b.users)
    && SameOwned(a.sessions, b.sessions, u) && SameOwned(a.notes, b.notes, u) && SameOwned(a.notebooks, b.notebooks, u)
    && SameOwned(a.refunds, b.refunds, u) && SameOwned(a.cancellations, b.cancellations, u)
    && SameOwned(a.addresses, b.addresses, u) && SameOwned(a.subscriptions, b.subscriptions, u)
    && SameUnder(a.messages, a.sessions, b.messages, b.sessions, u)
    && SameUnder(a.embeddings, a.notes, b.embeddings, b.notes, u)
    && (forall c :: (c in a.citations && UnderMessage(a.messages, a.sessions, a.citations[c], {u}))
               <==> (c in b.citations && UnderMessage(b.messages, b.sessions, b.citations[c], {u})))
  }

  ghost predicate SameUnder(a: Links, parentsA: Links, b: Links, parentsB: Links, u: Id) {
    forall k :: (k in a && Under(parentsA, a[k], {u})) <==> (k in b && Under(parentsB, b[k], {u}))
  }

  ghost predicate SameOwned(a: Links, b: Links, u: Id) {
    forall k :: (k in a && a[k] == u) <==> (k in b && b[k] == u)
  }

  lemma UnderKept(t: Links, parents: Links, gone: set<Id>, u: Id)
    requires u !in gone
    ensures SameUnder(t, parents, WithoutUnder(t, parents, gone), WithoutOwners(parents, gone), u)
    ensures SameOwned(parents, WithoutOwners(parents, gone), u)
  {
  }

  /** Everybody who is not purged keeps every row. */
  lemma OthersKeepTheirRows(db: Db, gone: set<Id>, u: Id)
    requires u !in gone
    ensures SameRows(db, Purged(db, gone), u)
  {
    var after := Purged(db, gone);
    UnderKept(db.messages, db.sessions, gone, u);
    UnderKept(db.embeddings, db.notes, gone, u);
    forall m ensures UnderMessage(db.messages, db.sessions, m, {u}) <==> UnderMessage(after.messages, after.sessions, m, {u})
    {
    }
    forall m ensures !(UnderMessage(db.messages, db.sessions, m, {u}) && UnderMessage(db.messages, db.sessions, m, gone))
    {
    }
  }

  /** A purged user is gone from every listed table, and so is everything below. */
  lemma PurgedIsGone(db: Db, gone: set<Id>, u: Id)
    requires u in gone
    ensures GoneFrom(Purged(db, gone), u)
    ensures var after := Purged(db, gone);
            && (forall m :: m in after.messages ==> !Under(db.sessions, after.messages[m], {u}))
            && (forall c :: c in after.citations ==> !UnderMessage(db.messages, db.sessions, after.citations[c], {u}))
            && (forall e :: e in after.embeddings ==> !Under(db.notes, after.embeddings[e], {u}))
  {
    assert forall t: Links :: u !in WithoutOwners(t, gone).Values;
  }

  /** No message, citation or embedding is orphaned. */
  lemma PurgeOrphansNothing(db: Db, gone: set<Id>)
    requires NoOrphans(db)
    ensures NoOrphans(Purged(db, gone))
  {
  }

  /** The raw copies of messages are in no list: those of purged users are exactly the ones left without a session. */
  lemma RawMessagesAreOrphaned(db: Db, gone: set<Id>, r: Id)
    requires r in db.rawMessages && db.rawMessages[r] in db.sessions
    ensures var after := Purged(db, gone);
            r in after.rawMessages
            && (after.rawMessages[r] !in after.sessions <==> db.sessions[db.rawMessages[r]] in gone)
  {
  }

  /** The order matters: with sessions deleted first the user's messages stay, and stay orphaned. */
  function SessionsFirst(db: Db, u: Id): Db {
    var d := db.(sessions := WithoutOwner(db.sessions, u));
    d.(messages := WithoutParents(d.messages, IdsOwnedBy(d.sessions, u)))
  }

  lemma SessionsFirstOrphansMessages(db: Db, u: Id, m: Id)
    requires NoOrphans(db) && m in db.messages
    ensures var after := SessionsFirst(db, u);
            m in after.messages && (after.messages[m] !in after.sessions <==> Under(db.sessions, db.messages[m], {u}))
  {
  }
}
