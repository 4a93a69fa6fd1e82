/**
 The semantic branch of noteService.SemanticSearch: the vector query over the
 chunk table, the second read that fetches the notes, and the loops that
 deduplicate and reorder them. Notes can be deleted between the two reads, and
 the chunk table can hold live chunks of deleted notes.
 */
module SemanticSearch {
  import opened Wrappers
  import opened EmbeddingIndex

  /** Cosine similarity of a stored vector to the query; an arbitrary number here. */
  type Similarity = Vector -> real

  /** One row of the query's answer: a position in the chunk table and its score. */
  datatype Hit = Hit(row: nat, noteId: Id, similarity: real)

  datatype Scored = Scored(noteId: Id, relevance: real)

  /** The query joins with live notes of the user and skips deleted chunks and low scores. */
  predicate Eligible(s: State, userId: Id, score: Similarity, threshold: real, i: nat) {
    && i < |s.rows|
    && !s.rows[i].deleted
    && NoteVisible(s, s.rows[i].noteId, userId)
    && threshold <= score(s.rows[i].embedding)
  }

  function EligibleRows(s: State, userId: Id, score: Similarity, threshold: real): set<nat> {
    set i: nat | i < |s.rows| && Eligible(s, userId, score, threshold, i)
  }

  predicate Descending(hits: seq<Hit>) {
    forall i, j :: 0 <= i < j < |hits| ==> hits[j].similarity <= hits[i].similarity
  }

  /** A non-positive limit is replaced by 5. */
  function EffectiveLimit(limit: int): nat {
    if limit <= 0 then 5 else limit
  }

  /**
   What the database may answer: at most `limit` eligible rows, each once, by
   descending score, and no eligible row that is left out beats one that is in.
   */
  ghost predicate IsAnswer(s: State, userId: Id, score: Similarity, threshold: real, limit: int, hits: seq<Hit>) {
    var eligible := EligibleRows(s, userId, score, threshold);
    && Descending(hits)
    && (forall k :: 0 <= k < |hits| ==>
          && hits[k].row in eligible
          && hits[k].noteId == s.rows[hits[k].row].noteId
          && hits[k].similarity == score(s.rows[hits[k].row].embedding))
    && (forall j, k :: 0 <= j < k < |hits| ==> hits[j].row != hits[k].row)
    && |hits| == (if |eligible| <= EffectiveLimit(limit) then |eligible| else EffectiveLimit(limit))
    && (forall i, k :: i in eligible && (forall j :: 0 <= j < |hits| ==> hits[j].row != i) && 0 <= k < |hits| ==>
          score(s.rows[i].embedding) <= hits[k].similarity)
  }

  /** The score is the best one among the hits of the note. */
  ghost predicate IsBest(hits: seq<Hit>, n: Id, best: real) {
    && (exists k :: 0 <= k < |hits| && hits[k].noteId == n && hits[k].similarity == best)
    && (forall k :: 0 <= k < |hits| && hits[k].noteId == n ==> hits[k].similarity <= best)
  }

  predicate Named(hits: seq<Hit>, n: Id) {
    exists k :: 0 <= k < |hits| && hits[k].noteId == n
  }

  /** The first loop: the score of the first hit of each note. */
  method BestScores(hits: seq<Hit>) returns (ids: seq<Id>, scoreMap: map<Id, real>)
    requires Descending(hits)
    ensures forall n :: n in scoreMap <==> Named(hits, n)
    ensures forall n :: n in scoreMap ==> IsBest(hits, n, scoreMap[n])
    ensures forall n :: n in ids <==> n in scoreMap
  {
    var seen: map<Id, bool> := map[];
    scoreMap, ids := map[], [];
    for i := 0 to |hits|
      invariant forall n :: n in seen <==> n in scoreMap
      invariant forall n :: n in ids <==> n in scoreMap
      invariant forall n :: n in scoreMap <==> Named(hits[..i], n)
      invariant forall n :: n in scoreMap ==> IsBest(hits[..i], n, scoreMap[n])
    {
      var sr := hits[i];
      ghost var before := scoreMap;
      if sr.noteId !in seen {
        ids := ids + [sr.noteId];
        seen := seen[sr.noteId := true];
        scoreMap := scoreMap[sr.noteId := sr.similarity];
      }
      forall n ensures Named(hits[..i + 1], n) <==> Named(hits[..i], n) || n == sr.noteId {
        NamedStep(hits, i, n);
      }
      forall n | n in scoreMap ensures IsBest(hits[..i + 1], n, scoreMap[n]) {
        BestStep(hits, i, n, scoreMap[n], n in before);
      }
    }
    assert hits[..|hits|] == hits;
  }

  /** Distinct notes, best score first. */
  ghost predicate Ordered(notes: seq<Id>, scoreMap: map<Id, real>) {
    && (forall a :: 0 <= a < |notes| ==> notes[a] in scoreMap)
    && forall a, b :: 0 <= a < b < |notes| ==> notes[a] != notes[b] && scoreMap[notes[b]] <= scoreMap[notes[a]]
  }

  lemma OrderedAppend(notes: seq<Id>, scoreMap: map<Id, real>, n: Id)
    requires Ordered(notes, scoreMap) && n in scoreMap && n !in notes
    requires forall a :: 0 <= a < |notes| ==> scoreMap[n] <= scoreMap[notes[a]]
    ensures Ordered(notes + [n], scoreMap)
  {
  }

  /** The second loop: hits in order, each fetched note once. */
  method OrderNotes(hits: seq<Hit>, fetched: seq<Id>, ghost scoreMap: map<Id, real>) returns (notes: seq<Id>)
    requires Descending(hits)
    requires forall n :: n in scoreMap <==> Named(hits, n)
    requires forall n :: n in scoreMap ==> IsBest(hits, n, scoreMap[n])
    ensures forall n :: n in notes <==> n in fetched && Named(hits, n)
    ensures Ordered(notes, scoreMap)
  {
    notes := [];
    var added: set<Id> := {};
    for i := 0 to |hits|
      invariant forall n :: n in added <==> n in notes
      invariant forall n :: n in notes <==> n in fetched && Named(hits[..i], n)
      invariant Ordered(notes, scoreMap)
      invariant forall a, k :: 0 <= a < |notes| && i <= k < |hits| ==> hits[k].similarity <= scoreMap[notes[a]]
    {
      var sr := hits[i];
      forall n ensures Named(hits[..i + 1], n) <==> Named(hits[..i], n) || n == sr.noteId {
        NamedStep(hits, i, n);
      }
      if sr.noteId !in added {
        var found := Contains(fetched, sr.noteId);
        if found {
          FirstHitIsBest(hits, i, scoreMap[sr.noteId]);
          OrderedAppend(notes, scoreMap, sr.noteId);
          notes := notes + [sr.noteId];
          added := added + {sr.noteId};
        }
      }
    }
    assert hits[..|hits|] == hits;
  }

  /** The inner loop over the fetched notes. */
  method Contains(fetched: seq<Id>, n: Id) returns (found: bool)
    ensures found == (n in fetched)
  {
    for j := 0 to |fetched|
      invariant n !in fetched[..j]
    {
      if fetched[j] == n {
        return true;
      }
    }
    assert fetched[..|fetched|] == fetched;
    found := false;
  }

  /**
   The deduplication and reordering loops. `fetched` is the answer of the second
   read: the notes among `ids` that are still there, in any order.
   */
  method RankNotes(hits: seq<Hit>, fetched: seq<Id>) returns (response: seq<Scored>)
    requires Descending(hits)
    ensures forall i, j :: 0 <= i < j < |response| ==>
              response[i].noteId != response[j].noteId && response[j].relevance <= response[i].relevance
    ensures forall i :: 0 <= i < |response| ==> IsBest(hits, response[i].noteId, response[i].relevance)
    ensures forall n :: (exists i :: 0 <= i < |response| && response[i].noteId == n)
                   <==> n in fetched && Named(hits, n)
  {
    var ids, scoreMap := BestScores(hits);
    var notes := OrderNotes(hits, fetched, scoreMap);
    response := [];
    for i := 0 to |notes|
      invariant |response| == i
      invariant forall k :: 0 <= k < |notes| ==> notes[k] in scoreMap
      invariant forall k :: 0 <= k < i ==> response[k] == Scored(notes[k], scoreMap[notes[k]])
    {
      response := response + [Scored(notes[i], scoreMap[notes[i]])];
    }
    forall n | n in notes ensures exists i :: 0 <= i < |response| && response[i].noteId == n {
      var k :| 0 <= k < |notes| && notes[k] == n;
      assert response[k].noteId == n;
    }
  }

  lemma NamedStep(hits: seq<Hit>, i: nat, n: Id)
    requires i < |hits|
    ensures Named(hits[..i + 1], n) <==> Named(hits[..i], n) || n == hits[i].noteId
  {
    if Named(hits[..i], n) {
      var k :| 0 <= k < i && hits[..i][k].noteId == n;
      assert hits[..i + 1][k].noteId == n;
    } else if n == hits[i].noteId {
      assert hits[..i + 1][i].noteId == n;
    } else {
      assert forall k :: 0 <= k < i ==> hits[..i + 1][k] == hits[..i][k];
    }
  }

  lemma BestStep(hits: seq<Hit>, i: nat, n: Id, best: real, seen: bool)
    requires Descending(hits) && i < |hits|
    requires if seen then IsBest(hits[..i], n, best)
             else n == hits[i].noteId && best == hits[i].similarity && !Named(hits[..i], n)
    ensures IsBest(hits[..i + 1], n, best)
  {
    if seen {
      var k :| 0 <= k < i && hits[..i][k].noteId == n && hits[..i][k].similarity == best;
      assert hits[..i + 1][k] == hits[k];
    } else {
      assert hits[..i + 1][i] == hits[i];
      assert forall k :: 0 <= k < i ==> hits[..i][k].noteId != n;
    }
  }

  /** When the best hit of a note has not been passed, the first one is it. */
  lemma FirstHitIsBest(hits: seq<Hit>, i: nat, best: real)
    requires Descending(hits) && i < |hits| && IsBest(hits, hits[i].noteId, best)
    requires !Named(hits[..i], hits[i].noteId)
    ensures best == hits[i].similarity
  {
    assert forall k :: 0 <= k < i ==> hits[k] == hits[..i][k];
  }

  /** The user's notes, live in state `s`, that the hits name. */
  ghost predicate IsFetch(s: State, userId: Id, hits: seq<Hit>, fetched: seq<Id>) {
    forall n :: n in fetched <==> NoteVisible(s, n, userId) && Named(hits, n)
  }

  /**
   A whole search: the query runs in state `s`, the notes are fetched in a later
   state `t`. Whatever chunks the table holds, only live notes of the caller
   come back, each once and best first, and a reported score is the best score
   of all chunks of the note that pass the threshold, not just of those retrieved.
   */
  method Search(ghost s: State, ghost t: State, userId: Id, ghost score: Similarity, ghost threshold: real,
                ghost limit: int, hits: seq<Hit>, fetched: seq<Id>)
    returns (response: seq<Scored>)
    requires IsAnswer(s, userId, score, threshold, limit, hits) && IsFetch(t, userId, hits, fetched)
    ensures forall i :: 0 <= i < |response| ==> NoteVisible(t, response[i].noteId, userId)
    ensures forall i, j :: 0 <= i < j < |response| ==>
              response[i].noteId != response[j].noteId && response[j].relevance <= response[i].relevance
    ensures forall i :: 0 <= i < |response| ==> BestChunk(s, userId, score, threshold, response[i])
  {
    response := RankNotes(hits, fetched);
    forall i | 0 <= i < |response|
      ensures NoteVisible(t, response[i].noteId, userId)
      ensures BestChunk(s, userId, score, threshold, response[i])
    {
      assert IsBest(hits, response[i].noteId, response[i].relevance);
      BestOfAllChunks(s, userId, score, threshold, limit, hits, response[i]);
    }
  }

  /** The score is the best one among all chunks of the note that the query may see. */
  ghost predicate BestChunk(s: State, userId: Id, score: Similarity, threshold: real, scored: Scored) {
    && (exists r :: r in EligibleRows(s, userId, score, threshold)
          && s.rows[r].noteId == scored.noteId && score(s.rows[r].embedding) == scored.relevance)
    && (forall r :: r in EligibleRows(s, userId, score, threshold) && s.rows[r].noteId == scored.noteId
          ==> score(s.rows[r].embedding) <= scored.relevance)
  }

  /** No chunk of a retrieved note beats the note's best retrieved chunk. */
  lemma BestOfAllChunks(s: State, userId: Id, score: Similarity, threshold: real, limit: int, hits: seq<Hit>,
                        scored: Scored)
    requires IsAnswer(s, userId, score, threshold, limit, hits) && IsBest(hits, scored.noteId, scored.relevance)
    ensures BestChunk(s, userId, score, threshold, scored)
  {
    var best :| 0 <= best < |hits| && hits[best].noteId == scored.noteId && hits[best].similarity == scored.relevance;
    assert hits[best].row in EligibleRows(s, userId, score, threshold);
    forall r | r in EligibleRows(s, userId, score, threshold) && s.rows[r].noteId == scored.noteId
      ensures score(s.rows[r].embedding) <= scored.relevance
    {
      if forall j :: 0 <= j < |hits| ==> hits[j].row != r {
        assert score(s.rows[r].embedding) <= hits[best].similarity;
      } else {
        var k :| 0 <= k < |hits| && hits[k].row == r;
        assert hits[k].noteId == scored.noteId;
      }
    }
  }

  /** A note whose best chunk beats some reported hit is never missed, unless it is deleted before the fetch. */
  lemma BetterNotesAreFound(s: State, t: State, userId: Id, score: Similarity, threshold: real, limit: int,
                            hits: seq<Hit>, fetched: seq<Id>, r: nat, k: nat)
    requires IsAnswer(s, userId, score, threshold, limit, hits) && IsFetch(t, userId, hits, fetched)
    requires r in EligibleRows(s, userId, score, threshold) && k < |hits|
    requires hits[k].similarity < score(s.rows[r].embedding)
    ensures s.rows[r].noteId in fetched <==> NoteVisible(t, s.rows[r].noteId, userId)
  {
    var j :| 0 <= j < |hits| && hits[j].row == r;
    assert hits[j].noteId == s.rows[r].noteId;
  }
}
