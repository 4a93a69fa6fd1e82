/**
 The embedding index as a state machine: note and notebook operations write a
 row first and publish an embed message afterwards, and one consumer turns each
 message into chunk rows. Every database statement that other requests can
 observe is a step of its own, so a request that reads a row, edits its copy and
 saves the copy can be overtaken between the read and the save.

 Models internal/service/consumer_service.go, note_service.go (Create, Update,
 MoveNote, Delete) and notebook_service.go (Create, Update, Delete, MoveNotebook).
 */
module EmbeddingIndex {
  import opened Wrappers
  import TextSplitter

  /** A UUID. */
  type Id = nat

  /** An embedding vector; its values come from the provider and are never inspected. */
  type Vector = seq<real>

  /** Times appear only as the text that is rendered into a document. */
  datatype Note = Note(
    title: string, content: string, notebookId: Id, userId: Id,
    createdAt: string, updatedAt: Option<string>)

  datatype NoteRow = NoteRow(note: Note, deleted: bool)

  datatype Notebook = Notebook(name: string, parentId: Option<Id>, userId: Id, deleted: bool)

  /** A row of note_embeddings. Deletion is soft. */
  datatype ChunkRow = ChunkRow(noteId: Id, document: string, chunkIndex: nat, embedding: Vector, deleted: bool)

  /** Where the single consumer stands in the message it holds. */
  datatype Consumer =
    | Idle
    | Received(noteId: Id)
    | HasNote(noteId: Id, note: Note)
    | HasDocument(noteId: Id, document: string)
    | Embedded(noteId: Id, newRows: seq<ChunkRow>)

  /** What a running request has read and still has to do. */
  datatype Operation =
    | SavingNote(id: Id, copy: Note)
    | PublishingNote(id: Id)
    | SavingName(notebookId: Id, copyOf: Notebook)
    | ListingNotes(notebookId: Id, userId: Id)
    | PublishingNotes(ids: seq<Id>)
    | SavingParent(notebookId: Id, copyOf: Notebook)

  datatype State = State(
    notes: map<Id, NoteRow>,
    notebooks: map<Id, Notebook>,
    rows: seq<ChunkRow>,
    pending: multiset<Id>,
    consumer: Consumer,
    ops: map<nat, Operation>)

  const CHUNK_SIZE: nat := 1500
  const OVERLAP: nat := 200

  // ---------------------------------------------------------------- documents

  /** The document that is embedded for a note shown under the given notebook name. */
  function Render(note: Note, notebookName: string): string {
    ("Note Title: " + note.title + "\nNotebook Title: ")
    + notebookName
    + ("\n\n" + note.content + "\n\nCreated At: " + note.createdAt + "\nUpdated At: "
       + (if note.updatedAt.Some? then note.updatedAt.value else "-"))
  }

  /** The consumer shows a note whose notebook is missing or deleted under "Unknown". */
  function NameOf(notebooks: map<Id, Notebook>, id: Id): string {
    if id in notebooks && !notebooks[id].deleted then notebooks[id].name else "Unknown"
  }

  predicate Live(s: State, n: Id) {
    n in s.notes && !s.notes[n].deleted
  }

  /** The document the index should hold for a live note. */
  function CurrentDocument(s: State, n: Id): string
    requires n in s.notes
  {
    var note := s.notes[n].note;
    Render(note, NameOf(s.notebooks, note.notebookId))
  }

  function ChunksOf(document: string): seq<string> {
    TextSplitter.Split(document, CHUNK_SIZE, OVERLAP)
  }

  /** Chunk `i` of a document is stored with index `i`. */
  function Numbered(chunks: seq<string>): seq<(nat, string)> {
    seq(|chunks|, i requires 0 <= i < |chunks| => (i, chunks[i]))
  }

  // ---------------------------------------------------------------- chunk rows

  /** The live chunks of a note, in insertion order. */
  function LiveChunks(rows: seq<ChunkRow>, n: Id): seq<(nat, string)> {
    if rows == [] then []
    else
      var row := rows[|rows| - 1];
      LiveChunks(rows[..|rows| - 1], n)
      + if row.noteId == n && !row.deleted then [(row.chunkIndex, row.document)] else []
  }

  /** Soft deletion of every row that belongs to one of the notes. */
  function DeleteRows(rows: seq<ChunkRow>, ids: set<Id>): (result: seq<ChunkRow>)
    ensures |result| == |rows|
  {
    seq(|rows|, i requires 0 <= i < |rows| =>
      if rows[i].noteId in ids then rows[i].(deleted := true) else rows[i])
  }

  /** The rows for the first `k` chunks of a note. */
  function NewRows(n: Id, chunks: seq<string>, vectors: seq<Vector>, k: nat): (rows: seq<ChunkRow>)
    requires k <= |chunks| && k <= |vectors|
    ensures |rows| == k
  {
    if k == 0 then []
    else NewRows(n, chunks, vectors, k - 1) + [ChunkRow(n, chunks[k - 1], k - 1, vectors[k - 1], false)]
  }

  lemma {:induction false} LiveChunksAppend(a: seq<ChunkRow>, b: seq<ChunkRow>, n: Id)
    ensures LiveChunks(a + b, n) == LiveChunks(a, n) + LiveChunks(b, n)
  {
    if b == [] {
      assert a + b == a;
    } else {
      assert (a + b)[..|a + b| - 1] == a + b[..|b| - 1];
      LiveChunksAppend(a, b[..|b| - 1], n);
    }
  }

  /** Deleting hides the chunks of the deleted notes and nobody else's. */
  lemma {:induction false} LiveChunksDelete(rows: seq<ChunkRow>, ids: set<Id>, n: Id)
    ensures LiveChunks(DeleteRows(rows, ids), n) == if n in ids then [] else LiveChunks(rows, n)
  {
    if rows != [] {
      var last := |rows| - 1;
      assert DeleteRows(rows, ids)[..last] == DeleteRows(rows[..last], ids);
      LiveChunksDelete(rows[..last], ids, n);
    }
  }

  lemma {:induction false} LiveChunksNew(n: Id, chunks: seq<string>, vectors: seq<Vector>, k: nat, m: Id)
    requires k <= |chunks| && k <= |vectors|
    ensures LiveChunks(NewRows(n, chunks, vectors, k), m) == if m == n then Numbered(chunks[..k]) else []
  {
    if 0 < k {
      LiveChunksNew(n, chunks, vectors, k - 1, m);
      LiveChunksOneMore(NewRows(n, chunks, vectors, k - 1), ChunkRow(n, chunks[k - 1], k - 1, vectors[k - 1], false), m);
      NumberedOneMore(chunks, k);
    }
  }

  lemma LiveChunksOneMore(rows: seq<ChunkRow>, row: ChunkRow, n: Id)
    ensures LiveChunks(rows + [row], n)
         == LiveChunks(rows, n) + if row.noteId == n && !row.deleted then [(row.chunkIndex, row.document)] else []
  {
    assert (rows + [row])[..|rows|] == rows;
  }

  lemma NumberedOneMore(chunks: seq<string>, k: nat)
    requires 0 < k <= |chunks|
    ensures Numbered(chunks[..k]) == Numbered(chunks[..k - 1]) + [(k - 1, chunks[k - 1])]
  {
    var a, b := Numbered(chunks[..k]), Numbered(chunks[..k - 1]) + [(k - 1, chunks[k - 1])];
    forall i | 0 <= i < k ensures a[i] == b[i] {
    }
  }

  /** What the consumer's transaction does to the table. */
  function Replace(rows: seq<ChunkRow>, n: Id, newRows: seq<ChunkRow>): seq<ChunkRow> {
    DeleteRows(rows, {n}) + newRows
  }

  lemma LiveChunksReplace(rows: seq<ChunkRow>, n: Id, newRows: seq<ChunkRow>, m: Id)
    requires forall i :: 0 <= i < |newRows| ==> newRows[i].noteId == n
    ensures LiveChunks(Replace(rows, n, newRows), m)
         == if m == n then LiveChunks(newRows, n) else LiveChunks(rows, m)
  {
    LiveChunksAppend(DeleteRows(rows, {n}), newRows, m);
    LiveChunksDelete(rows, {n}, m);
    if m != n {
      NoChunksOfOthers(newRows, n, m);
    }
  }

  lemma {:induction false} NoChunksOfOthers(rows: seq<ChunkRow>, n: Id, m: Id)
    requires m != n && forall i :: 0 <= i < |rows| ==> rows[i].noteId == n
    ensures LiveChunks(rows, m) == []
  {
    if rows != [] {
      NoChunksOfOthers(rows[..|rows| - 1], n, m);
    }
  }

  // ---------------------------------------------------------------- steps

  datatype Event =
    | CreateNote(op: nat, id: Id, note: Note)
    | ReadForUpdate(op: nat, id: Id, userId: Id, title: string, content: string, now: string)
    | ReadForMove(op: nat, id: Id, userId: Id, notebookId: Id, now: string)
    | SaveNote(op: nat)
    | PublishNote(op: nat)
    | DeleteNote(id: Id)
    | CreateNotebook(id: Id, name: string, parentId: Option<Id>, userId: Id)
    | ReadForRename(op: nat, id: Id, userId: Id, name: string)
    | SaveName(op: nat)
    | ListNotes(op: nat, ids: seq<Id>)
    | PublishNext(op: nat)
    | FinishRename(op: nat)
    | ReadForReparent(op: nat, id: Id, userId: Id, parentId: Option<Id>)
    | SaveParent(op: nat)
    | DeleteNotebook(id: Id)
    | Receive(id: Id)
    | ReadNote
    | ReadNotebook
    | Embed(vectors: seq<Vector>)
    | CommitRows
    | Nack

  predicate NoteVisible(s: State, id: Id, userId: Id) {
    Live(s, id) && s.notes[id].note.userId == userId
  }

  predicate NotebookVisible(s: State, id: Id, userId: Id) {
    id in s.notebooks && !s.notebooks[id].deleted && s.notebooks[id].userId == userId
  }

  /** The notes that the republish loop of a rename has to cover. */
  function NotesIn(s: State, notebookId: Id, userId: Id): set<Id> {
    set n | n in s.notes && !s.notes[n].deleted && s.notes[n].note.notebookId == notebookId
            && s.notes[n].note.userId == userId
  }

  predicate Enabled(s: State, e: Event) {
    match e
    case CreateNote(op, id, _) => op !in s.ops && id !in s.notes
    case ReadForUpdate(op, id, userId, _, _, _) => op !in s.ops && NoteVisible(s, id, userId)
    case ReadForMove(op, id, userId, _, _) => op !in s.ops && NoteVisible(s, id, userId)
    case SaveNote(op) => op in s.ops && s.ops[op].SavingNote?
    case PublishNote(op) => op in s.ops && s.ops[op].PublishingNote?
    case DeleteNote(id) => id in s.notes
    // A new UUID is one that no row refers to.
    case CreateNotebook(id, _, _, _) =>
      id !in s.notebooks && forall n :: n in s.notes ==> s.notes[n].note.notebookId != id
    case ReadForRename(op, id, userId, _) => op !in s.ops && NotebookVisible(s, id, userId)
    case SaveName(op) => op in s.ops && s.ops[op].SavingName?
    case ListNotes(op, ids) =>
      op in s.ops && s.ops[op].ListingNotes?
      && (set n | n in ids) == NotesIn(s, s.ops[op].notebookId, s.ops[op].userId)
    case PublishNext(op) => op in s.ops && s.ops[op].PublishingNotes? && s.ops[op].ids != []
    case FinishRename(op) => op in s.ops && s.ops[op].PublishingNotes? && s.ops[op].ids == []
    case ReadForReparent(op, id, userId, _) => op !in s.ops && NotebookVisible(s, id, userId)
    case SaveParent(op) => op in s.ops && s.ops[op].SavingParent?
    case DeleteNotebook(id) => id in s.notebooks
    case Receive(id) => s.consumer.Idle? && id in s.pending
    case ReadNote => s.consumer.Received?
    case ReadNotebook => s.consumer.HasNote?
    case Embed(vectors) => s.consumer.HasDocument? && |vectors| == |ChunksOf(s.consumer.document)|
    case CommitRows => s.consumer.Embedded?
    case Nack => !s.consumer.Idle?
  }

  function WithOp(s: State, op: nat, next: Operation): State {
    s.(ops := s.ops[op := next])
  }

  function WithoutOp(s: State, op: nat): State {
    s.(ops := s.ops - {op})
  }

  function Publish(s: State, id: Id): State {
    s.(pending := s.pending + multiset{id})
  }

  /** The repository's Save writes every column, and revives a row that was soft-deleted meanwhile. */
  function SaveNotebook(s: State, id: Id, copyOf: Notebook): State {
    s.(notebooks := s.notebooks[id := copyOf.(deleted := false)])
  }

  /** The transaction that deletes a notebook, orphans its children and deletes its notes and their chunks. */
  function NotebookDeleted(s: State, id: Id): State
    requires id in s.notebooks
  {
    var userId := s.notebooks[id].userId;
    var inside := set n | n in s.notes && s.notes[n].note.notebookId == id;
    State(
      map n | n in s.notes :: if n in inside then s.notes[n].(deleted := true) else s.notes[n],
      map b | b in s.notebooks ::
        if b == id then s.notebooks[b].(deleted := true)
        else if !s.notebooks[b].deleted && s.notebooks[b].parentId == Some(id) && s.notebooks[b].userId == userId
        then s.notebooks[b].(parentId := None)
        else s.notebooks[b],
      DeleteRows(s.rows, inside),
      s.pending, s.consumer, s.ops)
  }

  /** The effect of one step. */
  function Apply(s: State, e: Event): State
    requires Enabled(s, e)
  {
    match e
    case CreateNote(op, id, note) =>
      WithOp(s.(notes := s.notes[id := NoteRow(note, false)]), op, PublishingNote(id))
    case ReadForUpdate(op, id, _, title, content, now) =>
      WithOp(s, op, SavingNote(id, s.notes[id].note.(title := title, content := content, updatedAt := Some(now))))
    case ReadForMove(op, id, _, notebookId, now) =>
      WithOp(s, op, SavingNote(id, s.notes[id].note.(notebookId := notebookId, updatedAt := Some(now))))
    case SaveNote(op) =>
      var id := s.ops[op].id;
      WithOp(s.(notes := s.notes[id := NoteRow(s.ops[op].copy, false)]), op, PublishingNote(id))
    case PublishNote(op) => WithoutOp(Publish(s, s.ops[op].id), op)
    case DeleteNote(id) =>
      s.(notes := s.notes[id := s.notes[id].(deleted := true)], rows := DeleteRows(s.rows, {id}))
    case CreateNotebook(id, name, parentId, userId) =>
      s.(notebooks := s.notebooks[id := Notebook(name, parentId, userId, false)])
    case ReadForRename(op, id, _, name) => WithOp(s, op, SavingName(id, s.notebooks[id].(name := name)))
    case SaveName(op) =>
      var id, copyOf := s.ops[op].notebookId, s.ops[op].copyOf;
      WithOp(SaveNotebook(s, id, copyOf), op, ListingNotes(id, copyOf.userId))
    case ListNotes(op, ids) => WithOp(s, op, PublishingNotes(ids))
    case PublishNext(op) => WithOp(Publish(s, s.ops[op].ids[0]), op, PublishingNotes(s.ops[op].ids[1..]))
    case FinishRename(op) => WithoutOp(s, op)
    case ReadForReparent(op, id, _, parentId) =>
      WithOp(s, op, SavingParent(id, s.notebooks[id].(parentId := parentId)))
    case SaveParent(op) => WithoutOp(SaveNotebook(s, s.ops[op].notebookId, s.ops[op].copyOf), op)
    case DeleteNotebook(id) => NotebookDeleted(s, id)
    case Receive(id) => s.(pending := s.pending - multiset{id}, consumer := Received(id))
    case ReadNote =>
      var id := s.consumer.noteId;
      s.(consumer := if Live(s, id) then HasNote(id, s.notes[id].note) else Idle)
    case ReadNotebook =>
      var note := s.consumer.note;
      s.(consumer := HasDocument(s.consumer.noteId, Render(note, NameOf(s.notebooks, note.notebookId))))
    case Embed(vectors) =>
      var id, chunks := s.consumer.noteId, ChunksOf(s.consumer.document);
      s.(consumer := Embedded(id, NewRows(id, chunks, vectors, |chunks|)))
    case CommitRows =>
      s.(rows := Replace(s.rows, s.consumer.noteId, s.consumer.newRows), consumer := Idle)
    case Nack => Publish(s, s.consumer.noteId).(consumer := Idle)
  }

  // ---------------------------------------------------------------- the invariant

  /** The chunks of the note are exactly the chunks of its current document, numbered from 0. */
  predicate Agrees(s: State, n: Id)
    requires n in s.notes
  {
    LiveChunks(s.rows, n) == Numbered(ChunksOf(CurrentDocument(s, n)))
  }

  function Documents(chunks: seq<(nat, string)>): (texts: seq<string>)
    ensures |texts| == |chunks|
  {
    seq(|chunks|, i requires 0 <= i < |chunks| => chunks[i].1)
  }

  /**
   The live chunks of the note are numbered from 0, none is longer than 1500, and put together without
   the 200 that neighbours share they spell out its title, the name of its notebook, its content and its
   times.
   */
  predicate HoldsText(s: State, n: Id)
    requires n in s.notes
  {
    var note, chunks := s.notes[n].note, LiveChunks(s.rows, n);
    var shown := if note.notebookId in s.notebooks && !s.notebooks[note.notebookId].deleted
                 then s.notebooks[note.notebookId].name else "Unknown";
    var updated := if note.updatedAt.Some? then note.updatedAt.value else "-";
    && (forall i :: 0 <= i < |chunks| ==> chunks[i].0 == i && |chunks[i].1| <= 1500)
    && (forall i :: 1 <= i < |chunks| ==> 200 < |Documents(chunks)[i]|)
    && TextSplitter.Reassemble(Documents(chunks), 200)
       == "Note Title: " + note.title + "\nNotebook Title: " + shown + "\n\n" + note.content
          + "\n\nCreated At: " + note.createdAt + "\nUpdated At: " + updated
  }

  lemma AgreeingHoldsText(s: State, n: Id)
    requires n in s.notes && Agrees(s, n)
    ensures HoldsText(s, n)
  {
    var document := CurrentDocument(s, n);
    TextSplitter.SplitReassembles(document, CHUNK_SIZE, OVERLAP);
    TextSplitter.SplitBounds(document, CHUNK_SIZE, OVERLAP);
    assert Documents(LiveChunks(s.rows, n)) == ChunksOf(document);
    RenderSpells(s.notes[n].note, NameOf(s.notebooks, s.notes[n].note.notebookId));
  }

  lemma RenderSpells(note: Note, shown: string)
    ensures Render(note, shown)
         == "Note Title: " + note.title + "\nNotebook Title: " + shown + "\n\n" + note.content
            + "\n\nCreated At: " + note.createdAt + "\nUpdated At: "
            + (if note.updatedAt.Some? then note.updatedAt.value else "-")
  {
    var updated := if note.updatedAt.Some? then note.updatedAt.value else "-";
    var times := "\n\nCreated At: " + note.createdAt + "\nUpdated At: ";
    assert "\n\n" + note.content + "\n\nCreated At: " + note.createdAt + "\nUpdated At: " + updated
        == "\n\n" + note.content + times + updated;
  }

  /** The operation is going to publish a message for the note. */
  predicate Owes(s: State, op: Operation, n: Id) {
    match op
    case PublishingNote(id) => id == n
    case ListingNotes(notebookId, userId) => n in NotesIn(s, notebookId, userId)
    case PublishingNotes(ids) => n in ids
    case _ => false
  }

  /** A message for the note is queued, or some running operation will still publish one. */
  ghost predicate Owed(s: State, n: Id) {
    n in s.pending || exists i :: i in s.ops && Owes(s, s.ops[i], n)
  }

  /** The consumer holds a message for the note. */
  predicate Holds(s: State, n: Id) {
    !s.consumer.Idle? && s.consumer.noteId == n
  }

  /** What the consumer is about to write for the note is its current document. */
  predicate SnapshotCurrent(s: State, n: Id)
    requires n in s.notes
  {
    match s.consumer
    case Idle => false
    case Received(id) => id == n
    case HasNote(id, note) => id == n && note == s.notes[n].note
    case HasDocument(id, document) => id == n && document == CurrentDocument(s, n)
    case Embedded(id, newRows) =>
      id == n && LiveChunks(newRows, n) == Numbered(ChunksOf(CurrentDocument(s, n)))
  }

  /** Without any further message the index will agree with the note. */
  predicate Settled(s: State, n: Id)
    requires n in s.notes
  {
    if Holds(s, n) then SnapshotCurrent(s, n) else Agrees(s, n)
  }

  /** The note belongs to the owner of its notebook, if that notebook ever existed. */
  predicate OwnNotebook(s: State, n: Id)
    requires n in s.notes
  {
    var note := s.notes[n].note;
    note.notebookId in s.notebooks ==> s.notebooks[note.notebookId].userId == note.userId
  }

  /** Copies held by running operations belong to stored rows of the same owner. */
  predicate WellFormed(s: State) {
    && (forall i :: i in s.ops ==>
          match s.ops[i]
          case SavingName(id, copyOf) => id in s.notebooks && s.notebooks[id].userId == copyOf.userId
          case SavingParent(id, copyOf) => id in s.notebooks && s.notebooks[id].userId == copyOf.userId
          case ListingNotes(id, userId) => id in s.notebooks && s.notebooks[id].userId == userId
          case _ => true)
    && (s.consumer.Embedded? ==>
          forall k :: 0 <= k < |s.consumer.newRows| ==> s.consumer.newRows[k].noteId == s.consumer.noteId)
  }

  /** The index agrees with the note, or will without any new request. */
  ghost predicate Fine(s: State, n: Id)
    requires n in s.notes
  {
    Owed(s, n) || Settled(s, n)
  }

  /** The invariant: every live note in its owner's notebook is fine. */
  ghost predicate Inv(s: State) {
    WellFormed(s) && forall n :: n in s.notes && Live(s, n) && OwnNotebook(s, n) ==> Fine(s, n)
  }

  /** Every live note is fine, whoever owns its notebook. */
  ghost predicate AllOk(s: State) {
    WellFormed(s) && forall n :: n in s.notes && Live(s, n) ==> Fine(s, n)
  }

  const Initial: State := State(map[], map[], [], multiset{}, Idle, map[])

  /** A move of a notebook saves a whole copy; the copy is faithful when its name is the one shown now. */
  predicate FaithfulSave(s: State, e: Event)
    requires Enabled(s, e)
  {
    e.SaveParent? ==>
      s.ops[e.op].copyOf.name == NameOf(s.notebooks, s.ops[e.op].notebookId)
  }

  /** A run of enabled steps. */
  predicate IsRun(s: State, events: seq<Event>)
    decreases |events|
  {
    events == [] || (Enabled(s, events[0]) && IsRun(Apply(s, events[0]), events[1..]))
  }

  /** The state at the end of a run. */
  function After(s: State, events: seq<Event>): State
    requires IsRun(s, events)
    decreases |events|
  {
    if events == [] then s else After(Apply(s, events[0]), events[1..])
  }

  predicate FaithfulRun(s: State, events: seq<Event>)
    requires IsRun(s, events)
    decreases |events|
  {
    events == [] || (FaithfulSave(s, events[0]) && FaithfulRun(Apply(s, events[0]), events[1..]))
  }

  /** Nothing is queued, nothing is being consumed and no request is running. */
  predicate Quiescent(s: State) {
    s.pending == multiset{} && s.consumer.Idle? && s.ops == map[]
  }

  // ---------------------------------------------------------------- one note, one step

  /** Operations other than `op` still owe what they owed, as long as the note rows they look at are unchanged. */
  lemma OwedKept(s: State, t: State, op: nat, n: Id)
    requires Owed(s, n)
    requires s.pending <= t.pending
    requires forall i :: i in s.ops && i != op ==> i in t.ops && t.ops[i] == s.ops[i]
    requires op in s.ops && Owes(s, s.ops[op], n) ==> Owed(t, n)
    requires n in s.notes && n in t.notes && s.notes[n] == t.notes[n]
    ensures Owed(t, n)
  {
    if n !in s.pending && !(op in s.ops && Owes(s, s.ops[op], n)) {
      var i :| i in s.ops && Owes(s, s.ops[i], n);
      assert Owes(t, t.ops[i], n);
    }
  }

  /** Steps that leave operations and queue alone leave alone what is owed. */
  lemma OwedUnchanged(s: State, t: State, n: Id)
    requires n in s.notes && n in t.notes && s.notes[n] == t.notes[n]
    requires s.ops == t.ops && s.pending == t.pending
    ensures Owed(s, n) <==> Owed(t, n)
  {
    if Owed(s, n) && n !in s.pending {
      var i :| i in s.ops && Owes(s, s.ops[i], n);
      assert Owes(t, t.ops[i], n);
    }
    if Owed(t, n) && n !in t.pending {
      var i :| i in t.ops && Owes(t, t.ops[i], n);
      assert Owes(s, s.ops[i], n);
    }
  }

  /** A note that has just been written is owed a message. */
  lemma WrittenNoteIsOwed(s: State, e: Event, n: Id)
    requires Enabled(s, e) && Live(Apply(s, e), n)
    requires !Live(s, n) || s.notes[n] != Apply(s, e).notes[n]
    ensures Owed(Apply(s, e), n)
  {
    var t := Apply(s, e);
    assert e.CreateNote? || e.SaveNote?;
    assert Owes(t, t.ops[e.op], n);
  }

  /** The note was fine, and its row stays as it is. */
  ghost predicate Unwritten(s: State, e: Event, n: Id)
    requires Enabled(s, e)
  {
    && WellFormed(s) && Live(s, n) && Fine(s, n)
    && n in Apply(s, e).notes && s.notes[n] == Apply(s, e).notes[n]
  }

  lemma NoteWriteKeepsOthers(s: State, e: Event, n: Id)
    requires Enabled(s, e) && Unwritten(s, e, n)
    requires e.CreateNote? || e.SaveNote?
    ensures Fine(Apply(s, e), n)
  {
    if Owed(s, n) {
      OwedKept(s, Apply(s, e), e.op, n);
    }
  }

  lemma PublishKeeps(s: State, e: Event, n: Id)
    requires Enabled(s, e) && Unwritten(s, e, n)
    requires e.PublishNote? || e.PublishNext? || e.FinishRename?
    ensures Fine(Apply(s, e), n)
  {
    var t := Apply(s, e);
    if Owed(s, n) {
      if e.PublishNext? && Owes(s, s.ops[e.op], n) && n != s.ops[e.op].ids[0] {
        assert Owes(t, t.ops[e.op], n);
      }
      OwedKept(s, t, e.op, n);
    }
  }

  /** Steps that only record what a request has read. */
  lemma ReadKeeps(s: State, e: Event, n: Id)
    requires Enabled(s, e) && Unwritten(s, e, n)
    requires e.ReadForUpdate? || e.ReadForMove? || e.ReadForRename? || e.ReadForReparent? || e.ListNotes?
    ensures Fine(Apply(s, e), n)
  {
    var t := Apply(s, e);
    if Owed(s, n) {
      if e.ListNotes? && Owes(s, s.ops[e.op], n) {
        assert n in set m | m in e.ids;
        assert Owes(t, t.ops[e.op], n);
      }
      OwedKept(s, t, e.op, n);
    }
  }

  /** A deletion elsewhere touches neither what a note is owed nor its chunks. */
  lemma DeletedElsewhere(s: State, t: State, gone: set<Id>, n: Id)
    requires Live(s, n) && Fine(s, n) && n in t.notes && s.notes[n] == t.notes[n] && n !in gone
    requires s.pending == t.pending && s.ops == t.ops && s.consumer == t.consumer
    requires t.rows == DeleteRows(s.rows, gone)
    requires CurrentDocument(s, n) == CurrentDocument(t, n)
    ensures Fine(t, n)
  {
    LiveChunksDelete(s.rows, gone, n);
    OwedUnchanged(s, t, n);
  }

  lemma DeleteKeepsOthers(s: State, e: Event, n: Id)
    requires Enabled(s, e) && Unwritten(s, e, n)
    requires e.DeleteNote? || e.DeleteNotebook?
    ensures Fine(Apply(s, e), n)
  {
    if e.DeleteNote? {
      DeletedElsewhere(s, Apply(s, e), {e.id}, n);
    } else {
      var inside := set m | m in s.notes && s.notes[m].note.notebookId == e.id;
      assert n !in inside;
      DeletedElsewhere(s, Apply(s, e), inside, n);
    }
  }

  lemma CreateNotebookKeeps(s: State, e: Event, n: Id)
    requires Enabled(s, e) && Unwritten(s, e, n) && e.CreateNotebook?
    ensures Fine(Apply(s, e), n)
  {
    OwedUnchanged(s, Apply(s, e), n);
  }

  lemma ReceiveKeeps(s: State, e: Event, n: Id)
    requires Enabled(s, e) && Unwritten(s, e, n)
    requires e.Receive? || e.Nack?
    ensures Fine(Apply(s, e), n)
  {
    var t := Apply(s, e);
    var id := if e.Receive? then e.id else s.consumer.noteId;
    if n != id && Owed(s, n) && n !in s.pending {
      var i :| i in s.ops && Owes(s, s.ops[i], n);
      assert Owes(t, t.ops[i], n);
    }
  }

  lemma ConsumerReadKeeps(s: State, e: Event, n: Id)
    requires Enabled(s, e) && Unwritten(s, e, n)
    requires e.ReadNote? || e.ReadNotebook?
    ensures Fine(Apply(s, e), n)
  {
    OwedUnchanged(s, Apply(s, e), n);
  }

  lemma EmbedKeeps(s: State, e: Event, n: Id)
    requires Enabled(s, e) && Unwritten(s, e, n) && e.Embed?
    ensures Fine(Apply(s, e), n)
  {
    var id, chunks := s.consumer.noteId, ChunksOf(s.consumer.document);
    LiveChunksNew(id, chunks, e.vectors, |chunks|, id);
    assert chunks[..|chunks|] == chunks;
    OwedUnchanged(s, Apply(s, e), n);
  }

  lemma CommitKeeps(s: State, e: Event, n: Id)
    requires Enabled(s, e) && Unwritten(s, e, n) && e.CommitRows?
    ensures Fine(Apply(s, e), n)
  {
    LiveChunksReplace(s.rows, s.consumer.noteId, s.consumer.newRows, n);
    OwedUnchanged(s, Apply(s, e), n);
  }

  lemma {:induction false} NewRowsAre(n: Id, chunks: seq<string>, vectors: seq<Vector>, k: nat, i: nat)
    requires i < k <= |chunks| && k <= |vectors|
    ensures NewRows(n, chunks, vectors, k)[i] == ChunkRow(n, chunks[i], i, vectors[i], false)
  {
    if i < k - 1 {
      NewRowsAre(n, chunks, vectors, k - 1, i);
    }
  }

  lemma {:induction false} NewRowsBelong(n: Id, chunks: seq<string>, vectors: seq<Vector>, k: nat)
    requires k <= |chunks| && k <= |vectors|
    ensures forall i :: 0 <= i < k ==> NewRows(n, chunks, vectors, k)[i].noteId == n
  {
    if 0 < k {
      NewRowsBelong(n, chunks, vectors, k - 1);
    }
  }

  // ---------------------------------------------------------------- saving a notebook

  /** A message for the note will be processed by reading the notebook's name again. */
  ghost predicate WillReread(s: State, n: Id) {
    Owed(s, n)
    || (s.consumer.Received? && s.consumer.noteId == n)
    || (s.consumer.HasNote? && s.consumer.noteId == n)
  }

  /** The row of the notebook that a rename or a move is about to write over. */
  function SavedId(s: State, e: Event): Id
    requires Enabled(s, e) && (e.SaveName? || e.SaveParent?)
  {
    s.ops[e.op].notebookId
  }

  function SavedCopy(s: State, e: Event): Notebook
    requires Enabled(s, e) && (e.SaveName? || e.SaveParent?)
  {
    s.ops[e.op].copyOf
  }

  /** The copy still carries the name that is shown now. */
  predicate KeepsName(s: State, e: Event)
    requires Enabled(s, e) && (e.SaveName? || e.SaveParent?)
  {
    SavedCopy(s, e).name == NameOf(s.notebooks, SavedId(s, e))
  }

  /**
   When a step leaves a note fine. Saving a notebook may change the name that a note shows: a rename
   goes on to republish the notes of the notebook's owner, a move republishes nothing.
   */
  ghost predicate Safe(s: State, e: Event, n: Id)
    requires Enabled(s, e) && n in s.notes
  {
    match e
    case SaveName(_) =>
      || KeepsName(s, e) || s.notes[n].note.notebookId != SavedId(s, e) || WillReread(s, n)
      || s.notes[n].note.userId == SavedCopy(s, e).userId
    case SaveParent(_) =>
      KeepsName(s, e) || s.notes[n].note.notebookId != SavedId(s, e) || WillReread(s, n)
    case _ => true
  }

  lemma RenderInjective(note: Note, a: string, b: string)
    requires Render(note, a) == Render(note, b)
    ensures a == b
  {
    var pre := "Note Title: " + note.title + "\nNotebook Title: ";
    assert Render(note, a)[|pre|..|pre| + |a|] == a;
    assert |a| == |b|;
    assert Render(note, b)[|pre|..|pre| + |b|] == b;
  }

  lemma NumberedInjective(a: seq<string>, b: seq<string>)
    requires Numbered(a) == Numbered(b)
    ensures a == b
  {
    assert |Numbered(a)| == |a| && |Numbered(b)| == |b|;
    forall i | 0 <= i < |a| ensures a[i] == b[i] {
      assert Numbered(a)[i] == (i, a[i]) && Numbered(b)[i] == (i, b[i]);
    }
  }

  /** Documents of one note under different notebook names are stored as different chunks. */
  lemma ChunksTellNames(note: Note, a: string, b: string)
    requires Numbered(ChunksOf(Render(note, a))) == Numbered(ChunksOf(Render(note, b)))
    ensures a == b
  {
    NumberedInjective(ChunksOf(Render(note, a)), ChunksOf(Render(note, b)));
    TextSplitter.SplitInjective(Render(note, a), Render(note, b), CHUNK_SIZE, OVERLAP);
    RenderInjective(note, a, b);
  }

  /** What a save changes about what is owed: a rename now owes the notes of its owner. */
  lemma OwedAfterSave(s: State, e: Event, n: Id)
    requires WellFormed(s) && Enabled(s, e) && (e.SaveName? || e.SaveParent?) && Live(s, n)
    ensures Owed(Apply(s, e), n)
       <==> Owed(s, n)
            || (e.SaveName? && s.notes[n].note.notebookId == SavedId(s, e)
                && s.notes[n].note.userId == SavedCopy(s, e).userId)
  {
    var t := Apply(s, e);
    if Owed(s, n) {
      OwedKept(s, t, e.op, n);
    }
    if Owed(t, n) && n !in t.pending {
      var i :| i in t.ops && Owes(t, t.ops[i], n);
      assert i != e.op ==> Owes(s, s.ops[i], n);
    }
    if e.SaveName? && n in NotesIn(t, SavedId(s, e), SavedCopy(s, e).userId) {
      assert Owes(t, t.ops[e.op], n);
    }
  }

  /** Whether the index settles for the note after a save that changes the name it shows. */
  lemma SettledAfterSave(s: State, e: Event, n: Id)
    requires WellFormed(s) && Enabled(s, e) && (e.SaveName? || e.SaveParent?) && Live(s, n)
    requires !KeepsName(s, e) && s.notes[n].note.notebookId == SavedId(s, e)
    requires Settled(s, n)
    ensures Settled(Apply(s, e), n) <==> Holds(s, n) && (s.consumer.Received? || s.consumer.HasNote?)
  {
    var t := Apply(s, e);
    if Settled(t, n) && !(Holds(s, n) && (s.consumer.Received? || s.consumer.HasNote?)) {
      ChunksTellNames(s.notes[n].note, NameOf(s.notebooks, SavedId(s, e)), NameOf(t.notebooks, SavedId(s, e)));
    }
  }

  lemma SaveKeepsNoteIff(s: State, e: Event, n: Id)
    requires Enabled(s, e) && Unwritten(s, e, n)
    requires e.SaveName? || e.SaveParent?
    ensures Fine(Apply(s, e), n) <==> Safe(s, e, n)
  {
    OwedAfterSave(s, e, n);
    if KeepsName(s, e) || s.notes[n].note.notebookId != SavedId(s, e) {
      assert CurrentDocument(s, n) == CurrentDocument(Apply(s, e), n);
    } else if !Owed(s, n) {
      SettledAfterSave(s, e, n);
    }
  }

  // ---------------------------------------------------------------- every step

  lemma StepKeepsNoteIff(s: State, e: Event, n: Id)
    requires Enabled(s, e) && Unwritten(s, e, n)
    ensures Fine(Apply(s, e), n) <==> Safe(s, e, n)
  {
    match e
    case CreateNote(_, _, _) => NoteWriteKeepsOthers(s, e, n);
    case SaveNote(_) => NoteWriteKeepsOthers(s, e, n);
    case PublishNote(_) => PublishKeeps(s, e, n);
    case PublishNext(_) => PublishKeeps(s, e, n);
    case FinishRename(_) => PublishKeeps(s, e, n);
    case ReadForUpdate(_, _, _, _, _, _) => ReadKeeps(s, e, n);
    case ReadForMove(_, _, _, _, _) => ReadKeeps(s, e, n);
    case ReadForRename(_, _, _, _) => ReadKeeps(s, e, n);
    case ReadForReparent(_, _, _, _) => ReadKeeps(s, e, n);
    case ListNotes(_, _) => ReadKeeps(s, e, n);
    case DeleteNote(_) => DeleteKeepsOthers(s, e, n);
    case DeleteNotebook(_) => DeleteKeepsOthers(s, e, n);
    case CreateNotebook(_, _, _, _) => CreateNotebookKeeps(s, e, n);
    case SaveName(_) => SaveKeepsNoteIff(s, e, n);
    case SaveParent(_) => SaveKeepsNoteIff(s, e, n);
    case Receive(_) => ReceiveKeeps(s, e, n);
    case Nack => ReceiveKeeps(s, e, n);
    case ReadNote => ConsumerReadKeeps(s, e, n);
    case ReadNotebook => ConsumerReadKeeps(s, e, n);
    case Embed(_) => EmbedKeeps(s, e, n);
    case CommitRows => CommitKeeps(s, e, n);
  }

  lemma StepKeepsWellFormed(s: State, e: Event)
    requires WellFormed(s) && Enabled(s, e)
    ensures WellFormed(Apply(s, e))
  {
    StepKeepsOwners(s, e);
    if e.Embed? {
      var chunks := ChunksOf(s.consumer.document);
      NewRowsBelong(s.consumer.noteId, chunks, e.vectors, |chunks|);
    }
  }

  /** No step removes a notebook row or gives it to another owner. */
  lemma StepKeepsOwners(s: State, e: Event)
    requires WellFormed(s) && Enabled(s, e)
    ensures forall b :: b in s.notebooks ==>
              b in Apply(s, e).notebooks && Apply(s, e).notebooks[b].userId == s.notebooks[b].userId
    ensures forall b :: b in Apply(s, e).notebooks && b !in s.notebooks ==> e.CreateNotebook? && b == e.id
  {
  }

  lemma StepKeepsOwner(s: State, e: Event, n: Id)
    requires WellFormed(s) && Enabled(s, e) && Live(s, n)
    requires n in Apply(s, e).notes && s.notes[n] == Apply(s, e).notes[n]
    ensures OwnNotebook(s, n) <==> OwnNotebook(Apply(s, e), n)
  {
    StepKeepsOwners(s, e);
  }

  /**
   Each step, from a state in which every live note is fine, leaves every live note fine exactly when
   it does not save another name over notes that nobody is going to read again.
   */
  lemma StepKeepsAllIff(s: State, e: Event)
    requires AllOk(s) && Enabled(s, e)
    ensures AllOk(Apply(s, e)) <==> forall n :: n in s.notes && Live(s, n) ==> Safe(s, e, n)
  {
    var t := Apply(s, e);
    StepKeepsWellFormed(s, e);
    forall n | n in t.notes && Live(t, n)
      ensures Fine(t, n) <==> Live(s, n) && s.notes[n] == t.notes[n] ==> Safe(s, e, n)
    {
      if Live(s, n) && s.notes[n] == t.notes[n] {
        StepKeepsNoteIff(s, e, n);
      } else {
        WrittenNoteIsOwed(s, e, n);
      }
    }
  }

  /** A live note in the notebook that is not the given user's. */
  predicate Foreign(s: State, n: Id, notebookId: Id, userId: Id) {
    Live(s, n) && s.notes[n].note.notebookId == notebookId && s.notes[n].note.userId != userId
  }

  /** A rename keeps all notes fine exactly when no note of another user is left with the old name. */
  lemma SaveNameKeepsAllIff(s: State, e: Event)
    requires AllOk(s) && Enabled(s, e) && e.SaveName?
    ensures var id, copyOf := SavedId(s, e), SavedCopy(s, e);
            AllOk(Apply(s, e)) <==>
              || copyOf.name == NameOf(s.notebooks, id)
              || forall n :: n in s.notes && Foreign(s, n, id, copyOf.userId) ==> WillReread(s, n)
  {
    StepKeepsAllIff(s, e);
    if !KeepsName(s, e) {
      assert forall n :: n in s.notes && Live(s, n) ==>
          (Safe(s, e, n) <==> (Foreign(s, n, SavedId(s, e), SavedCopy(s, e).userId) ==> WillReread(s, n)));
    }
  }

  /** Notes that show the notebook's name and belong to its owner. */
  predicate ShowsName(s: State, n: Id, notebookId: Id) {
    Live(s, n) && OwnNotebook(s, n) && s.notes[n].note.notebookId == notebookId
  }

  /** What a step does to the notes in their owner's notebook. */
  lemma StepKeepsInvIff(s: State, e: Event)
    requires Inv(s) && Enabled(s, e)
    ensures Inv(Apply(s, e)) <==> forall n :: n in s.notes && Live(s, n) && OwnNotebook(s, n) ==> Safe(s, e, n)
  {
    var t := Apply(s, e);
    StepKeepsWellFormed(s, e);
    forall n | n in t.notes && Live(t, n)
      ensures Live(s, n) && s.notes[n] == t.notes[n] ==>
                (OwnNotebook(s, n) <==> OwnNotebook(t, n)) && (OwnNotebook(s, n) ==> (Fine(t, n) <==> Safe(s, e, n)))
      ensures !(Live(s, n) && s.notes[n] == t.notes[n]) ==> Fine(t, n)
    {
      if Live(s, n) && s.notes[n] == t.notes[n] {
        StepKeepsOwner(s, e, n);
        if OwnNotebook(s, n) {
          StepKeepsNoteIff(s, e, n);
        }
      } else {
        WrittenNoteIsOwed(s, e, n);
      }
    }
  }

  /**
   Moving a notebook saves the copy read earlier and publishes nothing. It keeps
   the invariant exactly when the copy still carries the name that is shown now,
   or every note that shows it has a message on the way that will read it again.
   */
  lemma SaveParentKeepsInvIff(s: State, e: Event)
    requires Inv(s) && Enabled(s, e) && e.SaveParent?
    ensures Inv(Apply(s, e)) <==>
              FaithfulSave(s, e) || forall n :: n in s.notes && ShowsName(s, n, SavedId(s, e)) ==> WillReread(s, n)
  {
    StepKeepsInvIff(s, e);
    if !FaithfulSave(s, e) {
      assert forall n :: n in s.notes && Live(s, n) && OwnNotebook(s, n) ==>
          (Safe(s, e, n) <==> (ShowsName(s, n, SavedId(s, e)) ==> WillReread(s, n)));
    }
  }

  // ---------------------------------------------------------------- main results

  /** Every step but an unfaithful notebook move keeps the invariant. */
  lemma StepKeepsInv(s: State, e: Event)
    requires Inv(s) && Enabled(s, e) && FaithfulSave(s, e)
    ensures Inv(Apply(s, e))
  {
    StepKeepsInvIff(s, e);
    forall n | n in s.notes && Live(s, n) && OwnNotebook(s, n) ensures Safe(s, e, n) {
    }
  }

  lemma {:induction false} RunKeepsInv(s: State, events: seq<Event>)
    requires Inv(s) && IsRun(s, events) && FaithfulRun(s, events)
    ensures Inv(After(s, events))
    decreases |events|
  {
    if events != [] {
      StepKeepsInv(s, events[0]);
      RunKeepsInv(Apply(s, events[0]), events[1..]);
    }
  }

  /** No step of the run saves another name over a note that nobody is going to read again. */
  ghost predicate SafeRun(s: State, events: seq<Event>)
    requires IsRun(s, events)
    decreases |events|
  {
    events == []
    || ((forall n :: n in s.notes && Live(s, n) ==> Safe(s, events[0], n))
        && SafeRun(Apply(s, events[0]), events[1..]))
  }

  lemma {:induction false} RunKeepsAll(s: State, events: seq<Event>)
    requires AllOk(s) && IsRun(s, events) && SafeRun(s, events)
    ensures AllOk(After(s, events))
    decreases |events|
  {
    if events != [] {
      StepKeepsAllIff(s, events[0]);
      RunKeepsAll(Apply(s, events[0]), events[1..]);
    }
  }

  /**
   Whatever the interleaving, once the queue is drained and no request runs, the
   live chunks of every live note in its owner's notebook are the chunks of its
   current document, and spell out its fields.
   */
  lemma QuiescentIndexAgrees(events: seq<Event>)
    requires IsRun(Initial, events) && FaithfulRun(Initial, events)
    ensures var s := After(Initial, events);
            Quiescent(s) ==>
              forall n :: n in s.notes && Live(s, n) && OwnNotebook(s, n) ==> Agrees(s, n) && HoldsText(s, n)
  {
    RunKeepsInv(Initial, events);
    var s := After(Initial, events);
    if Quiescent(s) {
      forall n | n in s.notes && Live(s, n) && OwnNotebook(s, n) ensures Agrees(s, n) && HoldsText(s, n) {
        AgreeingHoldsText(s, n);
      }
    }
  }

  /** And if no save leaves a note behind, those of every live note are, whoever owns its notebook. */
  lemma QuiescentIndexAgreesForAll(events: seq<Event>)
    requires IsRun(Initial, events) && SafeRun(Initial, events)
    ensures var s := After(Initial, events);
            Quiescent(s) ==> forall n :: n in s.notes && Live(s, n) ==> Agrees(s, n) && HoldsText(s, n)
  {
    RunKeepsAll(Initial, events);
    var s := After(Initial, events);
    if Quiescent(s) {
      forall n | n in s.notes && Live(s, n) ensures Agrees(s, n) && HoldsText(s, n) {
        AgreeingHoldsText(s, n);
      }
    }
  }

  // ---------------------------------------------------------------- chunks of deleted notes

  /** No live chunk belongs to a note that is deleted or never existed. */
  ghost predicate NoDeadChunks(s: State) {
    forall n :: !Live(s, n) ==> LiveChunks(s.rows, n) == []
  }

  /**
   Every step keeps the table free of dead chunks, except the commit of a consumer whose note was
   deleted after it was read.
   */
  lemma StepKeepsNoDeadChunksIff(s: State, e: Event)
    requires NoDeadChunks(s) && WellFormed(s) && Enabled(s, e)
    ensures NoDeadChunks(Apply(s, e)) <==>
              (e.CommitRows? ==> Live(s, s.consumer.noteId) || LiveChunks(s.consumer.newRows, s.consumer.noteId) == [])
  {
    var t := Apply(s, e);
    if e.CommitRows? {
      forall n ensures LiveChunks(t.rows, n)
          == if n == s.consumer.noteId then LiveChunks(s.consumer.newRows, n) else LiveChunks(s.rows, n) {
        LiveChunksReplace(s.rows, s.consumer.noteId, s.consumer.newRows, n);
      }
    } else if e.DeleteNote? || e.DeleteNotebook? {
      var gone := if e.DeleteNote? then {e.id} else set m | m in s.notes && s.notes[m].note.notebookId == e.id;
      forall n | !Live(t, n) ensures LiveChunks(t.rows, n) == [] {
        LiveChunksDelete(s.rows, gone, n);
      }
    } else {
      assert t.rows == s.rows;
      assert forall n :: Live(s, n) ==> Live(t, n);
    }
  }

  /** Every commit of the run is for a note that is still live, or writes nothing. */
  predicate TimelyRun(s: State, events: seq<Event>)
    requires IsRun(s, events)
    decreases |events|
  {
    events == []
    || ((events[0].CommitRows? ==>
           Live(s, s.consumer.noteId) || LiveChunks(s.consumer.newRows, s.consumer.noteId) == [])
        && TimelyRun(Apply(s, events[0]), events[1..]))
  }

  lemma {:induction false} RunKeepsNoDeadChunks(s: State, events: seq<Event>)
    requires NoDeadChunks(s) && WellFormed(s) && IsRun(s, events) && TimelyRun(s, events)
    ensures NoDeadChunks(After(s, events))
    decreases |events|
  {
    if events != [] {
      StepKeepsNoDeadChunksIff(s, events[0]);
      StepKeepsWellFormed(s, events[0]);
      RunKeepsNoDeadChunks(Apply(s, events[0]), events[1..]);
    }
  }

  // ---------------------------------------------------------------- progress and limits

  /** The five consumer steps that process one message while nobody else takes a step. */
  function Consumed(s: State, n: Id, vectors: seq<Vector>): State
    requires Live(s, n) && |vectors| == |ChunksOf(CurrentDocument(s, n))|
  {
    var chunks := ChunksOf(CurrentDocument(s, n));
    s.(pending := s.pending - multiset{n}, rows := Replace(s.rows, n, NewRows(n, chunks, vectors, |chunks|)))
  }

  /** The vectors of a provider that answers every chunk. */
  function AnyVectors(k: nat): (vectors: seq<Vector>)
    ensures |vectors| == k
  {
    seq(k, _ => [])
  }

  /** Some run leads from `s` to `t`. */
  ghost predicate Reaches(s: State, t: State) {
    exists events :: IsRun(s, events) && After(s, events) == t
  }

  ghost predicate Reachable(s: State) {
    Reaches(Initial, s)
  }

  lemma {:induction false} RunSnoc(s: State, events: seq<Event>, e: Event)
    requires IsRun(s, events) && Enabled(After(s, events), e)
    ensures IsRun(s, events + [e]) && After(s, events + [e]) == Apply(After(s, events), e)
    decreases |events|
  {
    if events == [] {
      assert (events + [e])[1..] == [];
    } else {
      assert (events + [e])[0] == events[0] && (events + [e])[1..] == events[1..] + [e];
      RunSnoc(Apply(s, events[0]), events[1..], e);
    }
  }

  lemma ReachesSelf(s: State)
    ensures Reaches(s, s)
  {
    assert IsRun(s, []) && After(s, []) == s;
  }

  /** Extends a run by one step. */
  lemma ReachStep(s: State, t: State, e: Event) returns (u: State)
    requires Reaches(s, t) && Enabled(t, e)
    ensures u == Apply(t, e) && Reaches(s, u)
  {
    var events :| IsRun(s, events) && After(s, events) == t;
    RunSnoc(s, events, e);
    u := Apply(t, e);
  }

  /** Processing a message undisturbed brings the note into agreement, whatever the index held before. */
  lemma ConsumeRestoresAgreement(s: State, t: State, n: Id, vectors: seq<Vector>)
    requires Reaches(s, t)
    requires Live(t, n) && n in t.pending && t.consumer.Idle?
    requires |vectors| == |ChunksOf(CurrentDocument(t, n))|
    ensures Reaches(s, Consumed(t, n, vectors))
    ensures Agrees(Consumed(t, n, vectors), n)
  {
    var t1 := ReachStep(s, t, Receive(n));
    var t2 := ReachStep(s, t1, ReadNote);
    var t3 := ReachStep(s, t2, ReadNotebook);
    var t4 := ReachStep(s, t3, Embed(vectors));
    var t5 := ReachStep(s, t4, CommitRows);
    assert t5 == Consumed(t, n, vectors);
    ConsumedAgrees(t, n, vectors);
  }

  lemma ConsumedAgrees(s: State, n: Id, vectors: seq<Vector>)
    requires Live(s, n) && |vectors| == |ChunksOf(CurrentDocument(s, n))|
    ensures Agrees(Consumed(s, n, vectors), n)
  {
    var chunks := ChunksOf(CurrentDocument(s, n));
    NewRowsBelong(n, chunks, vectors, |chunks|);
    LiveChunksReplace(s.rows, n, NewRows(n, chunks, vectors, |chunks|), n);
    LiveChunksNew(n, chunks, vectors, |chunks|, n);
    assert chunks[..|chunks|] == chunks;
  }

  /** Consuming the message of a note that is gone only takes the message off the queue. */
  lemma ConsumeDropsDeadMessage(s: State, t: State, n: Id)
    requires Reaches(s, t) && Inv(t)
    requires !Live(t, n) && n in t.pending && t.consumer.Idle?
    ensures Reaches(s, t.(pending := t.pending - multiset{n})) && Inv(t.(pending := t.pending - multiset{n}))
  {
    var t1 := ReachStep(s, t, Receive(n));
    StepKeepsInv(t, Receive(n));
    var t2 := ReachStep(s, t1, ReadNote);
    StepKeepsInv(t1, ReadNote);
    assert t2 == t.(pending := t.pending - multiset{n});
  }

  lemma ConsumedKeepsInv(s: State, n: Id, vectors: seq<Vector>)
    requires Inv(s) && Live(s, n) && n in s.pending && s.consumer.Idle?
    requires |vectors| == |ChunksOf(CurrentDocument(s, n))|
    ensures Inv(Consumed(s, n, vectors))
  {
    StepKeepsInv(s, Receive(n));
    var s1 := Apply(s, Receive(n));
    StepKeepsInv(s1, ReadNote);
    var s2 := Apply(s1, ReadNote);
    StepKeepsInv(s2, ReadNotebook);
    var s3 := Apply(s2, ReadNotebook);
    StepKeepsInv(s3, Embed(vectors));
    var s4 := Apply(s3, Embed(vectors));
    StepKeepsInv(s4, CommitRows);
    assert Apply(s4, CommitRows) == Consumed(s, n, vectors);
  }

  /** When no request runs, the consumer alone can always empty the queue, and the whole index then agrees. */
  lemma {:induction false} ConsumerCanDrain(s: State, t: State) returns (end: State)
    requires Reaches(s, t) && Inv(t) && t.consumer.Idle? && t.ops == map[]
    ensures Reaches(s, end) && Quiescent(end) && end.notes == t.notes && end.notebooks == t.notebooks
    ensures forall n :: n in end.notes && Live(end, n) && OwnNotebook(end, n) ==> Agrees(end, n)
    decreases |t.pending|
  {
    if t.pending == multiset{} {
      end := t;
    } else {
      var n :| n in t.pending;
      if Live(t, n) {
        var vectors := AnyVectors(|ChunksOf(CurrentDocument(t, n))|);
        ConsumeRestoresAgreement(s, t, n, vectors);
        ConsumedKeepsInv(t, n, vectors);
        end := ConsumerCanDrain(s, Consumed(t, n, vectors));
      } else {
        ConsumeDropsDeadMessage(s, t, n);
        end := ConsumerCanDrain(s, t.(pending := t.pending - multiset{n}));
      }
    }
  }

  /** A note created and indexed, starting from any reachable state with nothing queued. */
  lemma ReachIndexedNote(s: State, note: Note) returns (t: State)
    requires Reachable(s) && s.notes == map[] && s.pending == multiset{} && s.consumer.Idle?
    requires 9 !in s.ops
    ensures Reachable(t) && t.notes == map[5 := NoteRow(note, false)] && t.notebooks == s.notebooks
    ensures t.pending == multiset{} && t.consumer.Idle? && t.ops == s.ops && Agrees(t, 5)
  {
    var s1 := ReachStep(Initial, s, CreateNote(9, 5, note));
    var s2 := ReachStep(Initial, s1, PublishNote(9));
    assert s2.ops == s.ops;
    var vectors := AnyVectors(|ChunksOf(CurrentDocument(s2, 5))|);
    ConsumeRestoresAgreement(Initial, s2, 5, vectors);
    t := Consumed(s2, 5, vectors);
  }

  /** A notebook renamed while none of its owner's notes are in it: nothing is published. */
  lemma ReachRenamed(s: State, id: Id, userId: Id, name: string) returns (t: State)
    requires Reachable(s) && NotebookVisible(s, id, userId) && NotesIn(s, id, userId) == {}
    requires 2 !in s.ops
    ensures Reachable(t) && t == s.(notebooks := s.notebooks[id := s.notebooks[id].(name := name)])
  {
    var s1 := ReachStep(Initial, s, ReadForRename(2, id, userId, name));
    var copyOf := s.notebooks[id].(name := name);
    assert s1 == s.(ops := s.ops[2 := SavingName(id, copyOf)]);
    var s2 := ReachStep(Initial, s1, SaveName(2));
    assert s2.ops == s.ops[2 := ListingNotes(id, userId)];
    assert NotesIn(s2, id, userId) == NotesIn(s, id, userId);
    t := ReachNothingListed(s2, id, userId);
    assert t.ops == s.ops;
  }

  lemma ReachNothingListed(s: State, id: Id, userId: Id) returns (t: State)
    requires Reachable(s) && 2 in s.ops && s.ops[2] == ListingNotes(id, userId) && NotesIn(s, id, userId) == {}
    ensures Reachable(t) && t == s.(ops := s.ops - {2})
  {
    var s1 := ReachStep(Initial, s, ListNotes(2, []));
    t := ReachStep(Initial, s1, FinishRename(2));
    assert t.ops == s.ops - {2};
  }

  lemma ReachNotebook(name: string, userId: Id) returns (t: State)
    ensures Reachable(t) && t == Initial.(notebooks := map[1 := Notebook(name, None, userId, false)])
  {
    ReachesSelf(Initial);
    t := ReachStep(Initial, Initial, CreateNotebook(1, name, None, userId));
  }

  /** A note deleted while the consumer works on it keeps live chunks: a search has to look at the note as well. */
  lemma DeletedNoteCanKeepChunks()
    ensures exists s, n ::
              Reachable(s) && Quiescent(s) && n in s.notes && !Live(s, n) && LiveChunks(s.rows, n) != []
  {
    ReachesSelf(Initial);
    var note := Note("", "", 1, 7, "", None);
    var s1 := ReachStep(Initial, Initial, CreateNote(9, 5, note));
    var s2 := ReachStep(Initial, s1, PublishNote(9));
    assert s2.ops == map[];
    var s3 := ReachStep(Initial, s2, Receive(5));
    assert s3.pending == multiset{};
    ReachChunksOfDeleted(s3, 5);
  }

  lemma ReachChunksOfDeleted(s: State, n: Id)
    requires Reachable(s) && s.consumer == Received(n) && s.pending == multiset{} && s.ops == map[] && Live(s, n)
    ensures exists t :: Reachable(t) && Quiescent(t) && n in t.notes && !Live(t, n) && LiveChunks(t.rows, n) != []
  {
    var s1 := ReachStep(Initial, s, ReadNote);
    var s2 := ReachStep(Initial, s1, ReadNotebook);
    var chunks := ChunksOf(s2.consumer.document);
    var vectors := AnyVectors(|chunks|);
    TextSplitter.SplitBounds(s2.consumer.document, CHUNK_SIZE, OVERLAP);
    var s3 := ReachStep(Initial, s2, Embed(vectors));
    ReachCommitOfDeleted(s3, n, chunks, vectors);
  }

  lemma ReachCommitOfDeleted(s: State, n: Id, chunks: seq<string>, vectors: seq<Vector>)
    requires Reachable(s) && s.pending == multiset{} && s.ops == map[] && Live(s, n)
    requires chunks != [] && |vectors| == |chunks|
    requires s.consumer == Embedded(n, NewRows(n, chunks, vectors, |chunks|))
    ensures exists t :: Reachable(t) && Quiescent(t) && n in t.notes && !Live(t, n) && LiveChunks(t.rows, n) != []
  {
    var s1 := ReachStep(Initial, s, DeleteNote(n));
    var t := ReachStep(Initial, s1, CommitRows);
    NewRowsBelong(n, chunks, vectors, |chunks|);
    LiveChunksReplace(s1.rows, n, s1.consumer.newRows, n);
    LiveChunksNew(n, chunks, vectors, |chunks|, n);
    assert chunks[..|chunks|] == chunks;
    assert |Numbered(chunks)| == |chunks| > 0;
    assert Reachable(t) && Quiescent(t) && n in t.notes && !Live(t, n);
  }

  /**
   The condition on notebook moves is needed: a move that read the notebook
   before a rename and saves after it leaves, with nothing queued or running, a
   note whose chunks carry a name that is no longer shown.
   */
  lemma StaleMoveLeavesIndexStale()
    ensures exists s, n ::
              Reachable(s) && Quiescent(s) && Live(s, n) && OwnNotebook(s, n) && !Agrees(s, n)
  {
    var s1 := ReachNotebook("a", 7);
    var s2 := ReachStep(Initial, s1, ReadForReparent(0, 1, 7, None));
    var s3 := ReachRenamed(s2, 1, 7, "b");
    var note := Note("", "", 1, 7, "", None);
    var s4 := ReachIndexedNote(s3, note);
    StaleSave(s4, note);
  }

  lemma StaleSave(s: State, note: Note)
    requires Reachable(s) && note == Note("", "", 1, 7, "", None)
    requires s.notes == map[5 := NoteRow(note, false)] && s.notebooks == map[1 := Notebook("b", None, 7, false)]
    requires s.ops == map[0 := SavingParent(1, Notebook("a", None, 7, false))]
    requires s.pending == multiset{} && s.consumer.Idle? && Agrees(s, 5)
    ensures exists t, n :: Reachable(t) && Quiescent(t) && Live(t, n) && OwnNotebook(t, n) && !Agrees(t, n)
  {
    var t := ReachStep(Initial, s, SaveParent(0));
    assert t.ops == map[];
    if Agrees(t, 5) {
      ChunksTellNames(note, "a", "b");
    }
    assert Reachable(t) && Quiescent(t) && Live(t, 5) && OwnNotebook(t, 5) && !Agrees(t, 5);
  }

  /**
   So is the ownership condition: a rename republishes only the owner's notes,
   so a note that another user placed in the notebook keeps the old name.
   */
  lemma ForeignNoteLeavesIndexStale()
    ensures exists s, n ::
              Reachable(s) && Quiescent(s) && Live(s, n) && !OwnNotebook(s, n) && !Agrees(s, n)
  {
    var s1 := ReachNotebook("a", 7);
    var note := Note("", "", 1, 8, "", None);
    var s2 := ReachIndexedNote(s1, note);
    var s3 := ReachRenamed(s2, 1, 7, "b");
    if Agrees(s3, 5) {
      ChunksTellNames(note, "a", "b");
    }
    assert Reachable(s3) && Quiescent(s3) && Live(s3, 5) && !OwnNotebook(s3, 5) && !Agrees(s3, 5);
  }
}
