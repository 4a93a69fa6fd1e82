/**
 The services that write the embedding index, in their own imperative form. Each
 method is the code of one service function between two points at which other
 requests can interfere, and is proved to take the corresponding step of the
 state machine in module EmbeddingIndex.
 */
module IndexSystem {
  import opened Wrappers
  import opened EmbeddingIndex
  import TextSplitter
  import NotebookForest

  /** What the environment does to one run of the consumer: failing reads, a failing transaction. */
  datatype Faults = Faults(readNote: bool, readNotebook: bool, transaction: bool)

  /** The embedding provider: the answer to the i-th request, or an error. */
  type Provider = (nat, string) -> Option<Vector>

  /** The provider answers every chunk of the document. */
  ghost predicate Answers(provider: Provider, chunks: seq<string>) {
    forall i :: 0 <= i < |chunks| ==> provider(i, chunks[i]).Some?
  }

  ghost function VectorsOf(provider: Provider, chunks: seq<string>): (vectors: seq<Vector>)
    requires Answers(provider, chunks)
    ensures |vectors| == |chunks|
  {
    seq(|chunks|, i requires 0 <= i < |chunks| => provider(i, chunks[i]).value)
  }

  class Backend {
    var notes: map<Id, NoteRow>
    var notebooks: map<Id, Notebook>
    var rows: seq<ChunkRow>
    var pending: multiset<Id>
    var consumer: Consumer
    var ops: map<nat, Operation>

    function View(): State
      reads this
    {
      State(notes, notebooks, rows, pending, consumer, ops)
    }

    constructor ()
      ensures View() == Initial
    {
      notes, notebooks, rows, pending, consumer, ops := map[], map[], [], multiset{}, Idle, map[];
    }

    // -------------------------------------------------------------- note service

    /** noteService.Create up to the publish. */
    method CreateNote(op: nat, id: Id, userId: Id, title: string, content: string, notebookId: Id, now: string,
                      updatedAt: Option<string>)
      requires op !in ops && id !in notes
      modifies this
      ensures View() == Apply(old(View()), Event.CreateNote(op, id, Note(title, content, notebookId, userId, now, updatedAt)))
    {
      var note := Note(title, content, notebookId, userId, now, updatedAt);
      notes := notes[id := NoteRow(note, false)];
      ops := ops[op := PublishingNote(id)];
    }

    /** noteService.Update up to the save. */
    method BeginUpdate(op: nat, id: Id, userId: Id, title: string, content: string, now: string) returns (found: bool)
      requires op !in ops
      modifies this
      ensures found == NoteVisible(old(View()), id, userId)
      ensures View() == if found then Apply(old(View()), ReadForUpdate(op, id, userId, title, content, now)) else old(View())
    {
      found := id in notes && !notes[id].deleted && notes[id].note.userId == userId;
      if found {
        var note := notes[id].note;
        note := note.(title := title);
        note := note.(content := content);
        note := note.(updatedAt := Some(now));
        ops := ops[op := SavingNote(id, note)];
      }
    }

    /** noteService.MoveNote up to the save. */
    method BeginMove(op: nat, id: Id, userId: Id, notebookId: Id, now: string) returns (found: bool)
      requires op !in ops
      modifies this
      ensures found == NoteVisible(old(View()), id, userId)
      ensures View() == if found then Apply(old(View()), ReadForMove(op, id, userId, notebookId, now)) else old(View())
    {
      found := id in notes && !notes[id].deleted && notes[id].note.userId == userId;
      if found {
        var note := notes[id].note;
        note := note.(notebookId := notebookId);
        note := note.(updatedAt := Some(now));
        ops := ops[op := SavingNote(id, note)];
      }
    }

    /** The save of Update and MoveNote. */
    method SaveNote(op: nat)
      requires op in ops && ops[op].SavingNote?
      modifies this
      ensures View() == Apply(old(View()), Event.SaveNote(op))
    {
      var id, copy := ops[op].id, ops[op].copy;
      notes := notes[id := NoteRow(copy, false)];
      ops := ops[op := PublishingNote(id)];
    }

    /** The publish that ends Create, Update and MoveNote. */
    method PublishNote(op: nat)
      requires op in ops && ops[op].PublishingNote?
      modifies this
      ensures View() == Apply(old(View()), Event.PublishNote(op))
    {
      pending := pending + multiset{ops[op].id};
      ops := ops - {op};
    }

    /** noteService.Create with nothing in between. */
    method AddNote(op: nat, id: Id, userId: Id, title: string, content: string, notebookId: Id, now: string,
                   updatedAt: Option<string>)
      requires op !in ops && id !in notes
      modifies this
      ensures notes == old(notes)[id := NoteRow(Note(title, content, notebookId, userId, now, updatedAt), false)]
      ensures pending == old(pending) + multiset{id}
      ensures notebooks == old(notebooks) && rows == old(rows) && consumer == old(consumer) && ops == old(ops)
    {
      CreateNote(op, id, userId, title, content, notebookId, now, updatedAt);
      PublishNote(op);
      assert ops == old(ops);
    }

    /** noteService.Update with nothing in between: the new title and content, and a message for the note. */
    method UpdateNote(op: nat, id: Id, userId: Id, title: string, content: string, now: string) returns (found: bool)
      requires op !in ops
      modifies this
      ensures found <==> id in old(notes) && !old(notes)[id].deleted && old(notes)[id].note.userId == userId
      ensures notebooks == old(notebooks) && rows == old(rows) && consumer == old(consumer) && ops == old(ops)
      ensures !found ==> notes == old(notes) && pending == old(pending)
      ensures found ==>
                var was := old(notes)[id].note;
                && notes == old(notes)[id := NoteRow(Note(title, content, was.notebookId, was.userId, was.createdAt, Some(now)), false)]
                && pending == old(pending) + multiset{id}
    {
      found := BeginUpdate(op, id, userId, title, content, now);
      if found {
        SaveNote(op);
        PublishNote(op);
        assert ops == old(ops);
      }
    }

    /** noteService.MoveNote with nothing in between. The new notebook is not looked up. */
    method MoveNote(op: nat, id: Id, userId: Id, notebookId: Id, now: string) returns (found: bool)
      requires op !in ops
      modifies this
      ensures found <==> id in old(notes) && !old(notes)[id].deleted && old(notes)[id].note.userId == userId
      ensures notebooks == old(notebooks) && rows == old(rows) && consumer == old(consumer) && ops == old(ops)
      ensures !found ==> notes == old(notes) && pending == old(pending)
      ensures found ==>
                var was := old(notes)[id].note;
                && notes == old(notes)[id := NoteRow(Note(was.title, was.content, notebookId, was.userId, was.createdAt, Some(now)), false)]
                && pending == old(pending) + multiset{id}
    {
      found := BeginMove(op, id, userId, notebookId, now);
      if found {
        SaveNote(op);
        PublishNote(op);
        assert ops == old(ops);
      }
    }

    /** noteService.Delete. */
    method DeleteNote(id: Id, userId: Id) returns (found: bool)
      modifies this
      ensures found <==> id in old(notes) && !old(notes)[id].deleted && old(notes)[id].note.userId == userId
      ensures View() == if found then Apply(old(View()), Event.DeleteNote(id)) else old(View())
      ensures found ==> notes == old(notes)[id := NoteRow(old(notes)[id].note, true)]
      ensures found ==> forall n :: LiveChunks(rows, n) == if n == id then [] else LiveChunks(old(rows), n)
    {
      found := id in notes && !notes[id].deleted && notes[id].note.userId == userId;
      if found {
        forall n ensures LiveChunks(DeleteRows(rows, {id}), n) == if n == id then [] else LiveChunks(rows, n) {
          LiveChunksDelete(rows, {id}, n);
        }
        notes := notes[id := notes[id].(deleted := true)];
        rows := DeleteRows(rows, {id});
      }
    }

    // -------------------------------------------------------------- notebook service

    /** notebookService.Create. */
    method CreateNotebook(id: Id, userId: Id, name: string, parentId: Option<Id>)
      requires Enabled(View(), Event.CreateNotebook(id, name, parentId, userId))
      modifies this
      ensures View() == Apply(old(View()), Event.CreateNotebook(id, name, parentId, userId))
      ensures notebooks == old(notebooks)[id := Notebook(name, parentId, userId, false)]
      ensures notebooks == NotebookForest.Handle(old(notebooks), NotebookForest.Create(id, name, parentId, userId))
    {
      var notebook := Notebook(name, parentId, userId, false);
      notebooks := notebooks[id := notebook];
    }

    /** notebookService.Update up to the save. */
    method BeginRename(op: nat, id: Id, userId: Id, name: string) returns (found: bool)
      requires op !in ops
      modifies this`ops
      ensures found == NotebookVisible(old(View()), id, userId)
      ensures ops == if found then old(ops)[op := SavingName(id, notebooks[id].(name := name))] else old(ops)
      ensures View() == if found then Apply(old(View()), ReadForRename(op, id, userId, name)) else old(View())
    {
      found := id in notebooks && !notebooks[id].deleted && notebooks[id].userId == userId;
      if found {
        ops := ops[op := SavingName(id, notebooks[id].(name := name))];
      }
    }

    method SaveName(op: nat)
      requires op in ops && ops[op].SavingName?
      modifies this`notebooks, this`ops
      ensures var id, copyOf := old(ops[op]).notebookId, old(ops[op]).copyOf;
              notebooks == old(notebooks)[id := copyOf.(deleted := false)]
              && ops == old(ops)[op := ListingNotes(id, copyOf.userId)]
      ensures View() == Apply(old(View()), Event.SaveName(op))
    {
      var id, copyOf := ops[op].notebookId, ops[op].copyOf;
      notebooks := notebooks[id := copyOf.(deleted := false)];
      ops := ops[op := ListingNotes(id, copyOf.userId)];
    }

    /** The query that collects the notes to republish, in the order the database returns them. */
    method ListNotes(op: nat) returns (ids: seq<Id>)
      requires op in ops && ops[op].ListingNotes?
      modifies this`ops
      ensures ops == old(ops)[op := PublishingNotes(ids)]
      ensures (set n | n in ids) == NotesIn(old(View()), old(ops[op].notebookId), old(ops[op].userId))
      ensures forall i, j :: 0 <= i < j < |ids| ==> ids[i] != ids[j]
      ensures View() == Apply(old(View()), Event.ListNotes(op, ids))
    {
      var remaining := NotesIn(View(), ops[op].notebookId, ops[op].userId);
      ids := [];
      while remaining != {}
        invariant (set n | n in ids) !! remaining
        invariant (set n | n in ids) + remaining == NotesIn(View(), ops[op].notebookId, ops[op].userId)
        invariant forall i, j :: 0 <= i < j < |ids| ==> ids[i] != ids[j]
        invariant View() == old(View())
        decreases remaining
      {
        var n :| n in remaining;
        assert n !in set m | m in ids;
        ids := ids + [n];
        remaining := remaining - {n};
      }
      ops := ops[op := PublishingNotes(ids)];
    }

    /** One turn of the republish loop; `more` tells whether the loop goes on. */
    method PublishNext(op: nat) returns (more: bool)
      requires op in ops && ops[op].PublishingNotes?
      modifies this`pending, this`ops
      ensures more == (old(ops[op]).ids != [])
      ensures pending == old(pending) + if more then multiset{old(ops[op]).ids[0]} else multiset{}
      ensures ops == if more then old(ops)[op := PublishingNotes(old(ops[op]).ids[1..])] else old(ops) - {op}
      ensures View() == if more then Apply(old(View()), Event.PublishNext(op))
                        else Apply(old(View()), FinishRename(op))
    {
      var ids := ops[op].ids;
      more := ids != [];
      if more {
        pending := pending + multiset{ids[0]};
        ops := ops[op := PublishingNotes(ids[1..])];
      } else {
        ops := ops - {op};
      }
    }

    /** notebookService.MoveNotebook up to the save. */
    method BeginReparent(op: nat, id: Id, userId: Id, parentId: Option<Id>) returns (found: bool)
      requires op !in ops
      modifies this
      ensures found == (NotebookVisible(old(View()), id, userId)
                        && (parentId.Some? ==> NotebookVisible(old(View()), parentId.value, userId)))
      ensures View() == if found then Apply(old(View()), ReadForReparent(op, id, userId, parentId)) else old(View())
    {
      found := id in notebooks && !notebooks[id].deleted && notebooks[id].userId == userId;
      if found && parentId.Some? {
        var p := parentId.value;
        found := p in notebooks && !notebooks[p].deleted && notebooks[p].userId == userId;
      }
      if found {
        ops := ops[op := SavingParent(id, notebooks[id].(parentId := parentId))];
      }
    }

    /** The save that ends MoveNotebook. Nothing is published. */
    method SaveParent(op: nat)
      requires op in ops && ops[op].SavingParent?
      modifies this
      ensures View() == Apply(old(View()), Event.SaveParent(op))
    {
      var id, copyOf := ops[op].notebookId, ops[op].copyOf;
      notebooks := notebooks[id := copyOf.(deleted := false)];
      ops := ops - {op};
    }

    /** notebookService.Delete: one transaction over three tables. */
    method DeleteNotebook(id: Id, userId: Id) returns (found: bool)
      modifies this
      ensures found <==> id in old(notebooks) && !old(notebooks)[id].deleted && old(notebooks)[id].userId == userId
      ensures View() == if found then Apply(old(View()), Event.DeleteNotebook(id)) else old(View())
      ensures notebooks == NotebookForest.Handle(old(notebooks), NotebookForest.Delete(id, userId))
      ensures found ==> GoneWith(old(View()), View(), id)
    {
      found := id in notebooks && !notebooks[id].deleted && notebooks[id].userId == userId;
      if !found {
        return;
      }
      NotebookForest.DeletedIsTransaction(View(), id);
      NotebookDeletedFacts(View(), id);
      RemoveNotebook(id, userId);
    }

    /** The transaction of notebookService.Delete. */
    method RemoveNotebook(id: Id, userId: Id)
      requires NotebookVisible(View(), id, userId)
      modifies this`notebooks, this`rows, this`notes
      ensures View() == NotebookDeleted(old(View()), id)
    {
      ghost var after := NotebookDeleted(View(), id);
      notebooks := notebooks[id := notebooks[id].(deleted := true)];
      rows := DeleteRows(rows, set n | n in notes && notes[n].note.notebookId == id);
      DetachChildren(id, userId);
      assert notebooks == after.notebooks;
      DeleteNotesOf(id);
      assert notes == after.notes;
    }

    /** The loop that makes the children of a notebook roots. */
    method DetachChildren(id: Id, userId: Id)
      modifies this`notebooks
      ensures notebooks == map b | b in old(notebooks) ::
                if !old(notebooks)[b].deleted && old(notebooks)[b].parentId == Some(id) && old(notebooks)[b].userId == userId
                then old(notebooks)[b].(parentId := None)
                else old(notebooks)[b]
    {
      var children := set b | b in notebooks && !notebooks[b].deleted
                              && notebooks[b].parentId == Some(id) && notebooks[b].userId == userId;
      ghost var all := children;
      while children != {}
        invariant children <= all
        invariant notebooks.Keys == old(notebooks).Keys
        invariant forall b :: b in old(notebooks) ==>
                    notebooks[b] == if b in all && b !in children then old(notebooks)[b].(parentId := None)
                                    else old(notebooks)[b]
        decreases children
      {
        var child :| child in children;
        notebooks := notebooks[child := notebooks[child].(parentId := None)];
        children := children - {child};
      }
    }

    /** The loop that deletes the notes of a notebook one by one. */
    method DeleteNotesOf(id: Id)
      modifies this`notes
      ensures notes == map n | n in old(notes) ::
                if old(notes)[n].note.notebookId == id then old(notes)[n].(deleted := true) else old(notes)[n]
    {
      var remaining := set n | n in notes && !notes[n].deleted && notes[n].note.notebookId == id;
      while remaining != {}
        invariant notes.Keys == old(notes).Keys && remaining <= notes.Keys
        invariant forall n :: n in old(notes) ==>
                    if old(notes)[n].note.notebookId == id && !old(notes)[n].deleted && n !in remaining
                    then notes[n] == old(notes)[n].(deleted := true)
                    else notes[n] == old(notes)[n]
        invariant forall n :: n in remaining ==> notes[n].note.notebookId == id && !notes[n].deleted
        decreases remaining
      {
        var n :| n in remaining;
        notes := notes[n := notes[n].(deleted := true)];
        remaining := remaining - {n};
      }
    }

    /** notebookService.Update with no other request in between: it publishes each of the owner's notes once. */
    method UpdateNotebook(op: nat, id: Id, userId: Id, name: string) returns (found: bool)
      requires op !in ops
      modifies this
      ensures found <==> id in old(notebooks) && !old(notebooks)[id].deleted && old(notebooks)[id].userId == userId
      ensures notebooks == if found then old(notebooks)[id := old(notebooks)[id].(name := name)] else old(notebooks)
      ensures notebooks == NotebookForest.Handle(old(notebooks), NotebookForest.Rename(id, userId, name))
      ensures pending == old(pending) + multiset(
                if !found then {}
                else set n | n in notes && !notes[n].deleted && notes[n].note.notebookId == id && notes[n].note.userId == userId)
      ensures notes == old(notes) && rows == old(rows) && consumer == old(consumer) && ops == old(ops)
    {
      found := BeginRename(op, id, userId, name);
      if !found {
        return;
      }
      SaveName(op);
      ghost var listed := ListingNotes(id, userId);
      assert ops == old(ops)[op := listed];
      Republish(op, id, userId);
      assert ops == old(ops);
    }

    /** The read and the loop that republish every note of the owner in the notebook once. */
    method Republish(op: nat, id: Id, userId: Id)
      requires op in ops && ops[op] == ListingNotes(id, userId)
      modifies this`pending, this`ops
      ensures pending == old(pending) + multiset(NotesIn(old(View()), id, userId)) && ops == old(ops) - {op}
    {
      var ids := ListNotes(op);
      EachOnce(ids, NotesIn(old(View()), id, userId));
      PublishAll(op);
    }

    /** The republish loop. */
    method PublishAll(op: nat)
      requires op in ops && ops[op].PublishingNotes?
      modifies this`pending, this`ops
      ensures pending == old(pending) + multiset(old(ops[op]).ids) && ops == old(ops) - {op}
    {
      ghost var ids := ops[op].ids;
      ghost var done: nat := 0;
      var more := true;
      while more
        invariant done <= |ids|
        invariant pending == old(pending) + multiset(ids[..done])
        invariant if more then ops == old(ops)[op := PublishingNotes(ids[done..])]
                  else done == |ids| && ops == old(ops) - {op}
        decreases |ids| - done, more
      {
        more := PublishNext(op);
        if more {
          OneMore(ids, done);
          done := done + 1;
        }
      }
      assert ids[..done] == ids;
    }

    /** notebookService.MoveNotebook with no other request in between. */
    method MoveNotebook(op: nat, id: Id, userId: Id, parentId: Option<Id>)
      requires op !in ops
      modifies this
      ensures notebooks ==
                if id in old(notebooks) && !old(notebooks)[id].deleted && old(notebooks)[id].userId == userId
                   && (parentId.Some? ==>
                         && parentId.value in old(notebooks) && !old(notebooks)[parentId.value].deleted
                         && old(notebooks)[parentId.value].userId == userId)
                then old(notebooks)[id := old(notebooks)[id].(parentId := parentId)]
                else old(notebooks)
      ensures notebooks == NotebookForest.Handle(old(notebooks), NotebookForest.Move(id, userId, parentId))
      ensures View() == old(View()).(notebooks := notebooks)
    {
      var found := BeginReparent(op, id, userId, parentId);
      if found {
        SaveParent(op);
        assert ops == old(ops);
      }
    }

    // -------------------------------------------------------------- consumer

    method Receive(id: Id)
      requires consumer.Idle? && id in pending
      modifies this`pending, this`consumer
      ensures pending == old(pending) - multiset{id} && consumer == Received(id)
      ensures View() == Apply(old(View()), Event.Receive(id))
    {
      pending := pending - multiset{id};
      consumer := Received(id);
    }

    /** Reads the note; a note that is gone is acknowledged. */
    method ReadNote() returns (found: bool)
      requires consumer.Received?
      modifies this`consumer
      ensures found == Live(old(View()), old(consumer).noteId)
      ensures consumer == if found then HasNote(old(consumer).noteId, notes[old(consumer).noteId].note) else Idle
      ensures View() == Apply(old(View()), Event.ReadNote)
    {
      var id := consumer.noteId;
      found := id in notes && !notes[id].deleted;
      if found {
        consumer := HasNote(id, notes[id].note);
      } else {
        consumer := Idle;
      }
    }

    /** Reads the notebook and renders the document. */
    method ReadNotebook()
      requires consumer.HasNote?
      modifies this`consumer
      ensures consumer == HasDocument(old(consumer).noteId,
                                      Render(old(consumer).note, NameOf(notebooks, old(consumer).note.notebookId)))
      ensures View() == Apply(old(View()), Event.ReadNotebook)
    {
      var note := consumer.note;
      var notebookName := "Unknown";
      if note.notebookId in notebooks && !notebooks[note.notebookId].deleted {
        notebookName := notebooks[note.notebookId].name;
      }
      var noteUpdatedAt := "-";
      if note.updatedAt.Some? {
        noteUpdatedAt := note.updatedAt.value;
      }
      var content := ("Note Title: " + note.title + "\nNotebook Title: ") + notebookName
        + ("\n\n" + note.content + "\n\nCreated At: " + note.createdAt + "\nUpdated At: " + noteUpdatedAt);
      consumer := HasDocument(consumer.noteId, content);
    }

    /** Splits the document and embeds chunk after chunk; the first failing chunk gives the message back. */
    method EmbedChunks(provider: Provider) returns (ok: bool)
      requires consumer.HasDocument?
      modifies this`pending, this`consumer
      ensures ok ==> pending == old(pending)
      ensures ok <==> Answers(provider, ChunksOf(old(consumer.document)))
      ensures ok ==> var id, chunks := old(consumer).noteId, ChunksOf(old(consumer).document);
                     consumer == Embedded(id, NewRows(id, chunks, VectorsOf(provider, chunks), |chunks|))
      ensures !ok ==> consumer.Idle? && pending == old(pending) + multiset{old(consumer).noteId}
      ensures View() == Apply(old(View()), if ok then Embed(VectorsOf(provider, ChunksOf(old(consumer).document)))
                                           else Event.Nack)
    {
      var id := consumer.noteId;
      var chunks := TextSplitter.SplitText(consumer.document, CHUNK_SIZE, OVERLAP);
      var newRows: seq<ChunkRow> := [];
      ghost var vectors: seq<Vector> := [];
      for i := 0 to |chunks|
        invariant View() == old(View())
        invariant |vectors| == i
        invariant forall k :: 0 <= k < i ==> provider(k, chunks[k]) == Some(vectors[k])
        invariant newRows == NewRows(id, chunks, vectors, i)
      {
        var res := provider(i, chunks[i]);
        if res.None? {
          Nack();
          return false;
        }
        ghost var longer := vectors + [res.value];
        NewRowsPrefix(id, chunks, vectors, longer, i);
        vectors := longer;
        newRows := newRows + [ChunkRow(id, chunks[i], i, res.value, false)];
      }
      assert vectors == VectorsOf(provider, chunks);
      consumer := Embedded(id, newRows);
      ok := true;
    }

    /** Deletes the old rows and inserts the new ones; a failed transaction gives the message back. */
    method CommitRows(fault: bool)
      requires consumer.Embedded?
      modifies this`rows, this`pending, this`consumer
      ensures consumer.Idle?
      ensures if fault then rows == old(rows) && pending == old(pending) + multiset{old(consumer).noteId}
              else rows == Replace(old(rows), old(consumer).noteId, old(consumer).newRows) && pending == old(pending)
      ensures View() == Apply(old(View()), if fault then Event.Nack else Event.CommitRows)
    {
      if fault {
        Nack();
        return;
      }
      var newRows := consumer.newRows;
      rows := DeleteRows(rows, {consumer.noteId});
      if |newRows| > 0 {
        rows := rows + newRows;
      }
      consumer := Idle;
    }

    method Nack()
      requires !consumer.Idle?
      modifies this`pending, this`consumer
      ensures consumer.Idle? && pending == old(pending) + multiset{old(consumer).noteId}
      ensures View() == Apply(old(View()), Event.Nack)
    {
      pending := pending + multiset{consumer.noteId};
      consumer := Idle;
    }

    /** The part of processMessage after both reads. */
    method EmbedAndCommit(provider: Provider, faults: Faults)
      requires consumer.HasDocument?
      modifies this`rows, this`pending, this`consumer
      ensures consumer.Idle?
      ensures var id, chunks := old(consumer).noteId, ChunksOf(old(consumer).document);
              if faults.transaction || !Answers(provider, chunks)
              then rows == old(rows) && pending == old(pending) + multiset{id}
              else rows == Replace(old(rows), id, NewRows(id, chunks, VectorsOf(provider, chunks), |chunks|))
                   && pending == old(pending)
    {
      var ok := EmbedChunks(provider);
      if ok {
        CommitRows(faults.transaction);
      }
    }

    /** The part of processMessage after the read of the note. */
    method FinishMessage(provider: Provider, faults: Faults)
      requires consumer.HasNote?
      modifies this`rows, this`pending, this`consumer
      ensures consumer.Idle?
      ensures var id, note := old(consumer).noteId, old(consumer).note;
              var chunks := ChunksOf(Render(note, NameOf(notebooks, note.notebookId)));
              if faults.readNotebook || faults.transaction || !Answers(provider, chunks)
              then rows == old(rows) && pending == old(pending) + multiset{id}
              else rows == Replace(old(rows), id, NewRows(id, chunks, VectorsOf(provider, chunks), |chunks|))
                   && pending == old(pending)
    {
      if faults.readNotebook {
        Nack();
        return;
      }
      ReadNotebook();
      EmbedAndCommit(provider, faults);
    }

    /**
     consumerService.processMessage on one message with no request in between:
     the message is consumed and the chunks spell out the note, with the vectors
     of the provider; or nothing happened and the message is back in the queue;
     or its note is gone. A message that does not name a note is acknowledged
     without any effect.
     */
    method ProcessMessage(payload: Option<Id>, provider: Provider, faults: Faults)
      requires consumer.Idle? && (payload.Some? ==> payload.value in pending)
      modifies this
      ensures payload.None? ==> View() == old(View())
      ensures payload.Some? ==>
                && OnlyChunksOf(old(View()), View(), payload.value)
                && (View() == old(View()) || pending == old(pending) - multiset{payload.value})
      ensures payload.Some? && faults.readNote ==> View() == old(View())
      ensures payload.Some? && !faults.readNote && !Live(old(View()), payload.value) ==>
                pending == old(pending) - multiset{payload.value} && rows == old(rows)
      ensures payload.Some? && Live(old(View()), payload.value) && (faults.readNotebook || faults.transaction) ==>
                View() == old(View())
      ensures payload.Some? && Live(old(View()), payload.value) && faults == Faults(false, false, false)
              && (forall i, c :: provider(i, c).Some?) ==>
                pending == old(pending) - multiset{payload.value}
      ensures payload.Some? && Live(old(View()), payload.value) && pending != old(pending) ==>
                && Agrees(View(), payload.value) && HoldsText(View(), payload.value)
                && VectorsFrom(rows, payload.value, provider)
    {
      if payload.Some? {
        OutcomeFacts(View(), payload.value, provider, faults);
        ProcessNote(payload.value, provider, faults);
      }
    }

    /** processMessage after decoding. */
    method ProcessNote(id: Id, provider: Provider, faults: Faults)
      requires consumer.Idle? && id in pending
      modifies this
      ensures View() == Outcome(old(View()), id, provider, faults)
    {
      ghost var before := View();
      Receive(id);
      assert pending + multiset{id} == before.pending;
      if faults.readNote {
        Nack();
        return;
      }
      var found := ReadNote();
      if found {
        FinishMessage(provider, faults);
      }
    }
  }

  /**
   What the deletion of a notebook does: it and its notes are marked deleted, its owner's children become
   roots, the chunks of its notes are gone, and nothing else changes.
   */
  ghost predicate GoneWith(s: State, t: State, id: Id) {
    && id in s.notebooks && t.notebooks.Keys == s.notebooks.Keys && t.notes.Keys == s.notes.Keys
    && t.notebooks[id] == s.notebooks[id].(deleted := true)
    && (forall b :: b in s.notebooks && b != id ==>
          t.notebooks[b] ==
          if !s.notebooks[b].deleted && s.notebooks[b].parentId == Some(id) && s.notebooks[b].userId == s.notebooks[id].userId
          then s.notebooks[b].(parentId := None) else s.notebooks[b])
    && (forall n :: n in s.notes ==>
          t.notes[n] == if s.notes[n].note.notebookId == id then NoteRow(s.notes[n].note, true) else s.notes[n])
    && (forall n :: LiveChunks(t.rows, n) ==
          if n in s.notes && s.notes[n].note.notebookId == id then [] else LiveChunks(s.rows, n))
    && t.pending == s.pending && t.consumer == s.consumer && t.ops == s.ops
  }

  lemma NotebookDeletedFacts(s: State, id: Id)
    requires id in s.notebooks
    ensures GoneWith(s, NotebookDeleted(s, id), id)
  {
    var inside := set n | n in s.notes && s.notes[n].note.notebookId == id;
    forall n ensures LiveChunks(DeleteRows(s.rows, inside), n) == if n in inside then [] else LiveChunks(s.rows, n) {
      LiveChunksDelete(s.rows, inside, n);
    }
  }

  lemma OneMore(ids: seq<Id>, done: nat)
    requires done < |ids|
    ensures multiset(ids[..done + 1]) == multiset(ids[..done]) + multiset{ids[done]}
    ensures ids[done..] != [] && ids[done..][0] == ids[done] && ids[done..][1..] == ids[done + 1..]
  {
    assert ids[..done + 1] == ids[..done] + [ids[done]];
  }

  lemma {:induction false} EachOnce(ids: seq<Id>, all: set<Id>)
    requires forall i, j :: 0 <= i < j < |ids| ==> ids[i] != ids[j]
    requires (set n | n in ids) == all
    ensures multiset(ids) == multiset(all)
  {
    if ids != [] {
      var front, n := ids[..|ids| - 1], ids[|ids| - 1];
      assert ids == front + [n];
      assert (set m | m in front) == all - {n};
      EachOnce(front, all - {n});
      assert all == (all - {n}) + {n};
    }
  }

  /** Every live chunk of the note carries the vector that the provider gave for its number and its text. */
  ghost predicate VectorsFrom(rows: seq<ChunkRow>, id: Id, provider: Provider) {
    forall r :: 0 <= r < |rows| && rows[r].noteId == id && !rows[r].deleted ==>
      provider(rows[r].chunkIndex, rows[r].document) == Some(rows[r].embedding)
  }

  lemma ReplacedVectors(rows: seq<ChunkRow>, id: Id, provider: Provider, chunks: seq<string>)
    requires Answers(provider, chunks)
    ensures VectorsFrom(Replace(rows, id, NewRows(id, chunks, VectorsOf(provider, chunks), |chunks|)), id, provider)
  {
    var vectors := VectorsOf(provider, chunks);
    var added := NewRows(id, chunks, vectors, |chunks|);
    var all := Replace(rows, id, added);
    forall r | 0 <= r < |all| && all[r].noteId == id && !all[r].deleted
      ensures provider(all[r].chunkIndex, all[r].document) == Some(all[r].embedding)
    {
      assert |rows| <= r && all[r] == added[r - |rows|];
      NewRowsAre(id, chunks, vectors, |chunks|, r - |rows|);
    }
  }

  /** Nothing but the queue and the chunks of this note changes. */
  ghost predicate OnlyChunksOf(s: State, t: State, id: Id) {
    && t.notes == s.notes && t.notebooks == s.notebooks && t.ops == s.ops && t.consumer == s.consumer
    && forall m :: m != id ==> LiveChunks(t.rows, m) == LiveChunks(s.rows, m)
  }

  /** What becomes of a message: back in the queue with no change, dropped with its note, or consumed. */
  lemma OutcomeFacts(s: State, id: Id, provider: Provider, faults: Faults)
    requires s.consumer.Idle? && id in s.pending
    ensures var t := Outcome(s, id, provider, faults);
            && OnlyChunksOf(s, t, id)
            && (t == s || t.pending == s.pending - multiset{id})
            && (faults.readNote ==> t == s)
            && (!faults.readNote && !Live(s, id) ==> t.pending == s.pending - multiset{id} && t.rows == s.rows)
            && (Live(s, id) && (faults.readNotebook || faults.transaction) ==> t == s)
            && (Live(s, id) && faults == Faults(false, false, false) && (forall i, c :: provider(i, c).Some?) ==>
                  t.pending == s.pending - multiset{id})
            && (Live(s, id) && t.pending != s.pending ==>
                  Agrees(t, id) && HoldsText(t, id) && VectorsFrom(t.rows, id, provider))
  {
    if Live(s, id) {
      var chunks := ChunksOf(CurrentDocument(s, id));
      if Answers(provider, chunks) {
        var vectors := VectorsOf(provider, chunks);
        NewRowsBelong(id, chunks, vectors, |chunks|);
        forall m | m != id ensures LiveChunks(Consumed(s, id, vectors).rows, m) == LiveChunks(s.rows, m) {
          LiveChunksReplace(s.rows, id, NewRows(id, chunks, vectors, |chunks|), m);
        }
        ConsumedAgrees(s, id, vectors);
        AgreeingHoldsText(Consumed(s, id, vectors), id);
        ReplacedVectors(s.rows, id, provider, chunks);
      }
    }
  }

  /** Where one undisturbed message leaves the system. */
  ghost function Outcome(s: State, id: Id, provider: Provider, faults: Faults): State
    requires s.consumer.Idle? && id in s.pending
  {
    if faults.readNote then s
    else if !Live(s, id) then s.(pending := s.pending - multiset{id})
    else
      var chunks := ChunksOf(CurrentDocument(s, id));
      if faults.readNotebook || faults.transaction || !Answers(provider, chunks) then s
      else Consumed(s, id, VectorsOf(provider, chunks))
  }

  /** The first rows depend only on the first vectors. */
  lemma {:induction false} NewRowsPrefix(n: Id, chunks: seq<string>, a: seq<Vector>, b: seq<Vector>, k: nat)
    requires k <= |chunks| && k <= |a| <= |b| && b[..|a|] == a
    ensures NewRows(n, chunks, a, k) == NewRows(n, chunks, b, k)
  {
    if 0 < k {
      NewRowsPrefix(n, chunks, a, b, k - 1);
      assert a[k - 1] == b[..|a|][k - 1];
    }
  }
}
