/**
 The grounder's session: pkg/rag/context/grounder.go. Search results, the
 relevance verdict of the language model and the content of notes are arbitrary.
 */
module Grounder {
  import opened Wrappers
  import PromptRouter

  datatype Document = Document(id: string, title: string, content: string)

  datatype Phase = Browsing | Focused

  /** The part of a stored session that grounding reads and writes. */
  datatype Session = Session(phase: Phase, candidates: seq<Document>, focused: Option<Document>)

  datatype Action = Search | Focus | Aggregate | Answer | Browse | MetaAnalysis | Clarify

  datatype Intent = Intent(action: Action, query: string, reasoning: string, target: int, explicit: bool)

  datatype Scope = Single | All | NoScope

  datatype NoteContent = NoteContent(id: string, title: string, content: string)

  datatype Context = Context(
    notes: seq<NoteContent>, candidates: seq<Document>, scope: Scope,
    focusedId: string, focusIndex: nat, ids: seq<string>)

  /** What is shown instead of an answer. */
  datatype Message =
    | NoMessage | NotFound | Ambiguous(choices: nat) | InvalidSelection(choices: nat) | LoadFailed(title: string)
    | UnknownUser | NothingToAggregate | NothingToBrowse | Choices(choices: nat) | LostContext | MoreDetails

  datatype Grounding = Grounding(context: Option<Context>, shouldAnswer: bool, message: Message)

  /** The language model: absent, failing, or answering. */
  datatype Judge = NoModel | ModelError | Says(response: string)

  /** The outside world during one call. */
  datatype Env = Env(
    search: string -> Option<seq<Document>>,
    judge: (string, seq<Document>) -> Judge,
    load: string -> Option<(string, string)>,
    userKnown: bool)

  const AGGREGATED: string := "aggregated"

  // ---------------------------------------------------------------- the relevance verdict

  predicate IsDigit(c: char) {
    '0' <= c <= '9'
  }

  function Digits(s: string): (n: nat)
    requires forall i :: 0 <= i < |s| ==> IsDigit(s[i])
  {
    if s == "" then 0
    else
      var c := s[|s| - 1];
      assert IsDigit(c);
      10 * Digits(s[..|s| - 1]) + (c as int - '0' as int)
  }

  /** strconv.Atoi without its upper bound: a number that overflows is out of every range below. */
  function Atoi(s: string): Option<int> {
    var signed := s != "" && (s[0] == '+' || s[0] == '-');
    var body := if signed then s[1..] else s;
    if body == "" || !(forall i :: 0 <= i < |body| ==> IsDigit(body[i])) then None
    else
      var n: int := Digits(body);
      Some(if signed && s[0] == '-' then -n else n)
  }

  function DropDotsLeft(s: string): string {
    if s != "" && s[0] == '.' then DropDotsLeft(s[1..]) else s
  }

  function DropDotsRight(s: string): string {
    if s != "" && s[|s| - 1] == '.' then DropDotsRight(s[..|s| - 1]) else s
  }

  /** The parts of a text between commas. */
  function SplitCommas(s: string): (parts: seq<string>)
    ensures parts != []
  {
    if s == "" then [""]
    else
      var parts := SplitCommas(s[..|s| - 1]);
      if s[|s| - 1] == ',' then parts + [""]
      else parts[|parts| - 1 := parts[|parts| - 1] + [s[|s| - 1]]]
  }

  /** The 0-based index that one part names, if it names a candidate. */
  function IndexOf(part: string, count: nat): seq<nat> {
    var value := Atoi(PromptRouter.Trim(part));
    if value.Some? && 0 < value.value <= count then [value.value - 1] else []
  }

  function IndicesOf(parts: seq<string>, count: nat): seq<nat> {
    if parts == [] then [] else IndicesOf(parts[..|parts| - 1], count) + IndexOf(parts[|parts| - 1], count)
  }

  function Verdict(response: string, count: nat): seq<nat> {
    var clean := DropDotsRight(DropDotsLeft(PromptRouter.Trim(response)));
    if clean == "0" || PromptRouter.Lower(clean) == "none" then [] else IndicesOf(SplitCommas(clean), count)
  }

  /** Every index that comes out of a response names a candidate. */
  lemma {:induction false} IndicesInRange(parts: seq<string>, count: nat)
    ensures forall i :: 0 <= i < |IndicesOf(parts, count)| ==> IndicesOf(parts, count)[i] < count
  {
    if parts != [] {
      IndicesInRange(parts[..|parts| - 1], count);
    }
  }

  /** evaluateRelevance: all candidates without a model, an error, or the candidates the response names. */
  method EvaluateRelevance(judge: Judge, count: nat) returns (indices: Option<seq<nat>>)
    ensures indices == Relevant(judge, count)
  {
    match judge
    case NoModel =>
      var all: seq<nat> := [];
      for i := 0 to count
        invariant all == Upto(i)
      {
        all := all + [i];
      }
      indices := Some(all);
    case ModelError =>
      indices := None;
    case Says(response) =>
      var cleanResp := PromptRouter.Trim(response);
      cleanResp := DropDotsRight(DropDotsLeft(cleanResp));
      if cleanResp == "0" || PromptRouter.Lower(cleanResp) == "none" {
        return Some([]);
      }
      var found := ReadIndices(SplitCommas(cleanResp), count);
      indices := Some(found);
  }

  /** The loop over the parts of a response. */
  method ReadIndices(parts: seq<string>, count: nat) returns (found: seq<nat>)
    ensures found == IndicesOf(parts, count)
  {
    found := [];
    for i := 0 to |parts|
      invariant found == IndicesOf(parts[..i], count)
    {
      var index := ReadIndex(parts[i], count);
      OneMorePart(parts, i, count);
      found := found + index;
    }
    assert parts[..|parts|] == parts;
  }

  method ReadIndex(part: string, count: nat) returns (index: seq<nat>)
    ensures index == IndexOf(part, count)
  {
    var val := Atoi(PromptRouter.Trim(part));
    if val.Some? {
      if val.value > 0 && val.value <= count {
        return [val.value - 1];
      }
    }
    index := [];
  }

  lemma OneMorePart(parts: seq<string>, i: nat, count: nat)
    requires i < |parts|
    ensures IndicesOf(parts[..i + 1], count) == IndicesOf(parts[..i], count) + IndexOf(parts[i], count)
  {
    assert parts[..i + 1] == parts[..i] + [parts[i]];
    IndicesAppend(parts[..i], parts[i], count);
  }

  function Upto(n: nat): (all: seq<nat>)
    ensures |all| == n && forall i :: 0 <= i < n ==> all[i] == i
  {
    seq(n, i => i)
  }

  function Relevant(judge: Judge, count: nat): (indices: Option<seq<nat>>) {
    match judge
    case NoModel => Some(Upto(count))
    case ModelError => None
    case Says(response) => Some(Verdict(response, count))
  }

  lemma RelevantInRange(judge: Judge, count: nat)
    requires Relevant(judge, count).Some?
    ensures var indices := Relevant(judge, count).value;
            forall i :: 0 <= i < |indices| ==> indices[i] < count
  {
    if judge.Says? {
      var clean := DropDotsRight(DropDotsLeft(PromptRouter.Trim(judge.response)));
      IndicesInRange(SplitCommas(clean), count);
    }
  }

  // The prompt asks for a list such as "1, 3", or "0" when nothing is relevant.

  function Numeral(n: nat): string {
    if n < 10 then [(n + '0' as int) as char] else Numeral(n / 10) + [(n % 10 + '0' as int) as char]
  }

  /** The answer that the prompt asks for. */
  function Listing(indices: seq<nat>): string {
    if indices == [] then "0"
    else if |indices| == 1 then Numeral(indices[0] + 1)
    else Listing(indices[..|indices| - 1]) + ", " + Numeral(indices[|indices| - 1] + 1)
  }

  lemma {:induction false} NumeralReadsBack(n: nat)
    ensures Numeral(n) != "" && forall i :: 0 <= i < |Numeral(n)| ==> IsDigit(Numeral(n)[i])
    ensures Digits(Numeral(n)) == n
  {
    if 10 <= n {
      NumeralReadsBack(n / 10);
      assert Numeral(n)[..|Numeral(n)| - 1] == Numeral(n / 10);
    }
  }

  /** A part without commas is appended behind the last comma. */
  lemma {:induction false} SplitLastPart(s: string, part: string)
    requires ',' !in part
    ensures SplitCommas(s + "," + part) == SplitCommas(s) + [part]
  {
    var whole := s + "," + part;
    if part == "" {
      assert whole[..|whole| - 1] == s;
    } else {
      var last := part[|part| - 1];
      assert last in part && part == part[..|part| - 1] + [last];
      assert whole[..|whole| - 1] == s + "," + part[..|part| - 1] && whole[|whole| - 1] == last;
      SplitLastPart(s, part[..|part| - 1]);
    }
  }

  lemma {:induction false} SplitNoComma(part: string)
    requires ',' !in part
    ensures SplitCommas(part) == [part]
  {
    if part != "" {
      assert part[|part| - 1] in part && part == part[..|part| - 1] + [part[|part| - 1]];
      SplitNoComma(part[..|part| - 1]);
    }
  }

  lemma NumeralNamesIndex(index: nat, count: nat)
    requires index < count
    ensures IndexOf(Numeral(index + 1), count) == [index] && IndexOf(" " + Numeral(index + 1), count) == [index]
    ensures ',' !in Numeral(index + 1)
  {
    var numeral := Numeral(index + 1);
    NumeralReadsBack(index + 1);
    DigitsNameNumber(numeral);
    TrimDigits(numeral);
  }

  lemma DigitsNameNumber(s: string)
    requires s != "" && forall i :: 0 <= i < |s| ==> IsDigit(s[i])
    ensures Atoi(s) == Some(Digits(s))
  {
    assert IsDigit(s[0]);
  }

  lemma TrimDigits(s: string)
    requires s != "" && IsDigit(s[0]) && IsDigit(s[|s| - 1])
    ensures PromptRouter.Trim(s) == s && PromptRouter.Trim(" " + s) == s
  {
    PromptRouter.TrimIsTrimmed(s);
    assert (" " + s)[1..] == s;
    assert PromptRouter.TrimLeft(" " + s) == PromptRouter.TrimLeft(s);
  }

  /** A listing starts and ends with a digit. */
  lemma {:induction false} ListingEnds(indices: seq<nat>)
    ensures var s := Listing(indices);
            s != "" && IsDigit(s[0]) && IsDigit(s[|s| - 1])
  {
    if |indices| == 1 {
      NumeralReadsBack(indices[0] + 1);
    } else if 1 < |indices| {
      ListingEnds(indices[..|indices| - 1]);
      NumeralReadsBack(indices[|indices| - 1] + 1);
    }
  }

  lemma IndicesAppend(parts: seq<string>, part: string, count: nat)
    ensures IndicesOf(parts + [part], count) == IndicesOf(parts, count) + IndexOf(part, count)
  {
    assert (parts + [part])[..|parts|] == parts;
  }

  lemma PartAppended(front: string, part: string, count: nat)
    requires ',' !in part
    ensures IndicesOf(SplitCommas(front + "," + part), count) == IndicesOf(SplitCommas(front), count) + IndexOf(part, count)
  {
    SplitLastPart(front, part);
    IndicesAppend(SplitCommas(front), part, count);
  }

  lemma OnePart(part: string, count: nat)
    requires ',' !in part
    ensures IndicesOf(SplitCommas(part), count) == IndexOf(part, count)
  {
    SplitNoComma(part);
    IndicesAppend([], part, count);
    assert [] + [part] == [part];
  }

  lemma ListingLast(indices: seq<nat>)
    requires 1 < |indices|
    ensures Listing(indices) == Listing(indices[..|indices| - 1]) + "," + (" " + Numeral(indices[|indices| - 1] + 1))
  {
    var front, numeral := Listing(indices[..|indices| - 1]), Numeral(indices[|indices| - 1] + 1);
    assert front + ", " + numeral == front + "," + (" " + numeral);
  }

  lemma {:induction false} ListingSplits(indices: seq<nat>, count: nat)
    requires indices != [] && forall i :: 0 <= i < |indices| ==> indices[i] < count
    ensures IndicesOf(SplitCommas(Listing(indices)), count) == indices
  {
    var n := |indices| - 1;
    assert indices == indices[..n] + [indices[n]];
    NumeralNamesIndex(indices[n], count);
    if n == 0 {
      OnePart(Numeral(indices[0] + 1), count);
    } else {
      ListingSplits(indices[..n], count);
      ListingSplitsLast(indices, count);
    }
  }

  lemma ListingSplitsLast(indices: seq<nat>, count: nat)
    requires 1 < |indices| && indices[|indices| - 1] < count
    ensures IndicesOf(SplitCommas(Listing(indices)), count)
         == IndicesOf(SplitCommas(Listing(indices[..|indices| - 1])), count) + [indices[|indices| - 1]]
  {
    var n := |indices| - 1;
    NumeralNamesIndex(indices[n], count);
    ListingLast(indices);
    PartAppended(Listing(indices[..n]), " " + Numeral(indices[n] + 1), count);
  }

  /** Cleaning changes nothing about an answer between two digits. */
  lemma CleanAlready(s: string)
    requires s != "" && IsDigit(s[0]) && IsDigit(s[|s| - 1])
    ensures DropDotsRight(DropDotsLeft(PromptRouter.Trim(s))) == s && PromptRouter.Lower(s) != "none"
  {
    PromptRouter.TrimIsTrimmed(s);
    assert PromptRouter.Lower(s)[0] == s[0];
  }

  lemma NamesNobody(count: nat)
    ensures IndicesOf(SplitCommas("0"), count) == []
  {
    OnePart("0", count);
    ZeroIsZero();
    DigitsNameNumber("0");
    TrimDigits("0");
  }

  lemma ZeroIsZero()
    ensures Digits("0") == 0
  {
    assert Digits("0"[..0]) == 0;
  }

  /** A model that answers as asked is understood, for every selection of candidates. */
  lemma ListingIsUnderstood(indices: seq<nat>, count: nat)
    requires forall i :: 0 <= i < |indices| ==> indices[i] < count
    ensures Verdict(Listing(indices), count) == indices
  {
    ListingEnds(indices);
    VerdictBetweenDigits(Listing(indices), count);
    if indices == [] {
      NamesNobody(count);
    } else {
      ListingSplits(indices, count);
    }
  }

  lemma VerdictBetweenDigits(s: string, count: nat)
    requires s != "" && IsDigit(s[0]) && IsDigit(s[|s| - 1])
    ensures Verdict(s, count) == IndicesOf(SplitCommas(s), count)
  {
    CleanAlready(s);
    NamesNobody(count);
  }

  /** The chosen candidates, in the order of the indices. */
  function Pick(candidates: seq<Document>, indices: seq<nat>): seq<Document>
    requires forall i :: 0 <= i < |indices| ==> indices[i] < |candidates|
  {
    seq(|indices|, i requires 0 <= i < |indices| => candidates[indices[i]])
  }

  /** The candidates after the semantic filter. A verdict of the same size, or none, changes nothing. */
  function Filtered(candidates: seq<Document>, judge: Judge): (kept: seq<Document>)
    ensures forall i :: 0 <= i < |kept| ==> kept[i] in candidates
  {
    var indices := Relevant(judge, |candidates|);
    if indices.None? || |indices.value| == |candidates| then candidates
    else
      RelevantInRange(judge, |candidates|);
      Pick(candidates, indices.value)
  }

  // ---------------------------------------------------------------- transitions

  /** A result without an answer. */
  function Decline(message: Message): Grounding {
    Grounding(None, false, message)
  }

  function Respond(context: Context): Grounding {
    Grounding(Some(context), true, NoMessage)
  }

  function NoteOf(doc: Document): NoteContent {
    NoteContent(doc.id, doc.title, doc.content)
  }

  /** The candidate with its stored content, if that can be read. */
  function WithContent(doc: Document, env: Env): Document {
    var note := env.load(doc.id);
    if note.Some? then doc.(content := note.value.1) else doc
  }

  /** The readable notes among the candidates. */
  function LoadAll(candidates: seq<Document>, env: Env): seq<NoteContent> {
    if candidates == [] then []
    else
      var last := candidates[|candidates| - 1];
      var note := env.load(last.id);
      LoadAll(candidates[..|candidates| - 1], env)
      + if note.Some? then [NoteContent(last.id, note.value.0, note.value.1)] else []
  }

  function IdsOf(notes: seq<NoteContent>): seq<string> {
    seq(|notes|, i requires 0 <= i < |notes| => notes[i].id)
  }

  /** The stored session of one conversation. */
  class Store {
    var phase: Phase
    var candidates: seq<Document>
    var focused: Option<Document>

    function View(): Session
      reads this
    {
      Session(phase, candidates, focused)
    }

    constructor ()
      ensures View() == Session(Browsing, [], None)
    {
      phase, candidates, focused := Browsing, [], None;
    }

    /** The single-candidate branches of groundSearch. */
    method FocusSingle(found: seq<Document>, env: Env) returns (result: Grounding)
      requires |found| == 1
      modifies this
      ensures View() == Session(Focused, found, Some(WithContent(found[0], env)))
      ensures result == Respond(Context([NoteOf(WithContent(found[0], env))], found, Single, found[0].id, 1, [found[0].id]))
    {
      var doc := found[0];
      var note := env.load(doc.id);
      if note.Some? {
        doc := doc.(content := note.value.1);
      }
      focused := Some(doc);
      candidates := found;
      phase := Focused;
      result := Respond(Context([NoteContent(doc.id, doc.title, doc.content)], found, Single, doc.id, 1, [doc.id]));
    }

    /** The loop that loads the full content of all candidates. */
    method LoadCandidates(all: seq<Document>, env: Env) returns (notes: seq<NoteContent>, ids: seq<string>)
      ensures notes == LoadAll(all, env) && ids == IdsOf(notes)
    {
      notes, ids := [], [];
      for i := 0 to |all|
        invariant notes == LoadAll(all[..i], env) && ids == IdsOf(notes)
      {
        assert all[..i + 1][..i] == all[..i];
        var note := env.load(all[i].id);
        if note.Some? {
          notes := notes + [NoteContent(all[i].id, note.value.0, note.value.1)];
          ids := ids + [all[i].id];
        }
      }
      assert all[..|all|] == all;
    }

    /** groundSearch. */
    method GroundSearch(intent: Intent, env: Env) returns (result: Result<Grounding, string>)
      modifies this
      ensures SearchStep(old(View()), intent, env, View(), result)
    {
      if intent.query == "" {
        return Err("search intent requires query");
      }
      var searched := env.search(intent.query);
      if searched.None? {
        return Err("search failed");
      }
      var found := searched.value;
      if |found| == 0 {
        return Ok(Decline(NotFound));
      }
      if |found| == 1 {
        var single := FocusSingle(found, env);
        return Ok(single);
      }
      var indices := EvaluateRelevance(env.judge(intent.query, found), |found|);
      if indices.Some? && |indices.value| != |found| {
        if |indices.value| == 0 {
          return Ok(Decline(NotFound));
        }
        var filtered := FilterBy(found, indices.value);
        assert filtered == Filtered(found, env.judge(intent.query, found)) by {
          RelevantInRange(env.judge(intent.query, found), |found|);
          FilterKeepsAll(found, indices.value);
        }
        found := filtered;
        if |found| == 1 {
          var single := FocusSingle(found, env);
          return Ok(single);
        }
      }
      if intent.explicit {
        var notes, ids := LoadCandidates(found, env);
        candidates := found;
        focused := Some(Document(AGGREGATED, "All Notes", ""));
        phase := Focused;
        return Ok(Respond(Context(notes, found, All, AGGREGATED, 0, ids)));
      }
      candidates := found;
      focused := None;
      phase := Browsing;
      result := Ok(Decline(Ambiguous(|found|)));
    }

    /** groundFocus. */
    method GroundFocus(intent: Intent, env: Env) returns (result: Grounding)
      modifies this
      ensures FocusStep(old(View()), intent, env, View(), result)
    {
      var target := intent.target;
      if target < 0 || target >= |candidates| {
        return Decline(InvalidSelection(|candidates|));
      }
      var doc := candidates[target];
      var note := env.load(doc.id);
      if note.None? {
        return Decline(LoadFailed(doc.title));
      }
      doc := doc.(content := note.value.1);
      doc := doc.(title := note.value.0);
      focused := Some(doc);
      phase := Focused;
      result := Respond(Context([NoteContent(doc.id, doc.title, doc.content)], [], Single, doc.id, 0, [doc.id]));
    }

    /** groundAggregate; `text` is the joined content of the notes. */
    method GroundAggregate(intent: Intent, env: Env, text: string) returns (result: Grounding)
      modifies this
      ensures AggregateStep(old(View()), intent, env, text, View(), result)
    {
      var all := candidates;
      if |all| == 0 {
        var searchQuery := intent.query;
        if searchQuery == "" {
          searchQuery := intent.reasoning;
        }
        if !env.userKnown {
          return Decline(UnknownUser);
        }
        var searched := env.search(searchQuery);
        if searched.None? || |searched.value| == 0 {
          return Decline(NothingToAggregate);
        }
        var found := searched.value;
        var indices := EvaluateRelevance(env.judge(searchQuery, found), |found|);
        if indices.Some? && |indices.value| != |found| {
          if |indices.value| == 0 {
            assert Filtered(found, env.judge(searchQuery, found)) == [];
            return Decline(NothingToAggregate);
          }
          var filtered := FilterBy(found, indices.value);
          assert filtered == Filtered(found, env.judge(searchQuery, found)) by {
            RelevantInRange(env.judge(searchQuery, found), |found|);
            FilterKeepsAll(found, indices.value);
          }
          found := filtered;
        }
        all := found;
        candidates := found;
      }
      var notes, ids := LoadCandidates(all, env);
      focused := Some(Document(AGGREGATED, "All Notes", text));
      phase := Focused;
      result := Respond(Context(notes, all, All, AGGREGATED, 0, ids));
    }

    /** groundAnswer. */
    method GroundAnswer(env: Env) returns (result: Grounding)
      modifies this
      ensures AnswerStep(old(View()), env, View(), result)
    {
      if focused.None? {
        if |candidates| > 0 {
          result := GroundBrowse();
          return;
        }
        return Decline(LostContext);
      }
      var doc := focused.value;
      if doc.id == AGGREGATED {
        var ids: seq<string>, notes: seq<NoteContent> := [], [];
        for i := 0 to |candidates|
          invariant |notes| == i && (forall k :: 0 <= k < i ==> notes[k] == NoteOf(candidates[k])) && ids == IdsOf(notes)
        {
          var c := candidates[i];
          ids := ids + [c.id];
          notes := notes + [NoteContent(c.id, c.title, c.content)];
        }
        return Respond(Context(notes, candidates, All, AGGREGATED, 0, ids));
      }
      if doc.content == "" {
        var note := env.load(doc.id);
        if note.Some? {
          doc := doc.(content := note.value.1);
          doc := doc.(title := note.value.0);
          focused := Some(doc);
        }
      }
      var index: nat := 0;
      for i := 0 to |candidates|
        invariant index == 0 && forall k :: 0 <= k < i ==> candidates[k].id != doc.id
      {
        if candidates[i].id == doc.id {
          index := i + 1;
          break;
        }
      }
      assert FirstWithId(candidates, doc.id, index);
      result := Respond(Context([NoteContent(doc.id, doc.title, doc.content)], candidates, Single, doc.id, index, [doc.id]));
    }

    /** groundBrowse. */
    method GroundBrowse() returns (result: Grounding)
      ensures result == Decline(if candidates == [] then NothingToBrowse else Choices(|candidates|))
    {
      if |candidates| == 0 {
        return Decline(NothingToBrowse);
      }
      result := Decline(Choices(|candidates|));
    }

    /** Ground. */
    method Ground(intent: Intent, env: Env, text: string) returns (result: Result<Grounding, string>)
      modifies this
      ensures GroundStep(old(View()), intent, env, text, View(), result)
    {
      match intent.action {
        case Search =>
          result := GroundSearch(intent, env);
        case Focus =>
          var r := GroundFocus(intent, env);
          result := Ok(r);
        case Aggregate =>
          var r := GroundAggregate(intent, env, text);
          result := Ok(r);
        case Answer =>
          var r := GroundAnswer(env);
          result := Ok(r);
        case Browse =>
          var r := GroundBrowse();
          result := Ok(r);
        case MetaAnalysis =>
          result := Ok(Respond(Context([], [], NoScope, "", 0, [])));
        case Clarify =>
          result := Ok(Decline(MoreDetails));
      }
    }
  }

  /** The loop that keeps the candidates whose index is in range. */
  method FilterBy(candidates: seq<Document>, indices: seq<nat>) returns (filtered: seq<Document>)
    ensures filtered == KeepInRange(candidates, indices)
  {
    filtered := [];
    for i := 0 to |indices|
      invariant filtered == KeepInRange(candidates, indices[..i])
    {
      assert indices[..i + 1][..i] == indices[..i];
      if indices[i] < |candidates| {
        filtered := filtered + [candidates[indices[i]]];
      }
    }
    assert indices[..|indices|] == indices;
  }

  function KeepInRange(candidates: seq<Document>, indices: seq<nat>): seq<Document> {
    if indices == [] then []
    else
      var last := indices[|indices| - 1];
      KeepInRange(candidates, indices[..|indices| - 1]) + if last < |candidates| then [candidates[last]] else []
  }

  lemma {:induction false} FilterKeepsAll(candidates: seq<Document>, indices: seq<nat>)
    requires forall i :: 0 <= i < |indices| ==> indices[i] < |candidates|
    ensures KeepInRange(candidates, indices) == Pick(candidates, indices)
  {
    if indices != [] {
      var n := |indices| - 1;
      FilterKeepsAll(candidates, indices[..n]);
      assert Pick(candidates, indices) == Pick(candidates, indices[..n]) + [candidates[indices[n]]];
    }
  }

  // ---------------------------------------------------------------- what each transition does

  ghost predicate SearchStep(s: Session, intent: Intent, env: Env, t: Session, result: Result<Grounding, string>) {
    if intent.query == "" || env.search(intent.query).None? then result.Err? && t == s
    else
      var found := env.search(intent.query).value;
      var kept := if |found| <= 1 then found else Filtered(found, env.judge(intent.query, found));
      if kept == [] then t == s && result == Ok(Decline(NotFound))
      else if |kept| == 1 then
        var doc := WithContent(kept[0], env);
        t == Session(Focused, kept, Some(doc))
        && result == Ok(Respond(Context([NoteOf(doc)], kept, Single, doc.id, 1, [doc.id])))
      else if intent.explicit then
        t == Session(Focused, kept, Some(Document(AGGREGATED, "All Notes", "")))
        && result == Ok(Respond(Context(LoadAll(kept, env), kept, All, AGGREGATED, 0, IdsOf(LoadAll(kept, env)))))
      else
        t == Session(Browsing, kept, None) && result == Ok(Decline(Ambiguous(|kept|)))
  }

  ghost predicate FocusStep(s: Session, intent: Intent, env: Env, t: Session, result: Grounding) {
    if !(0 <= intent.target < |s.candidates|) then t == s && result == Decline(InvalidSelection(|s.candidates|))
    else
      var doc := s.candidates[intent.target];
      match env.load(doc.id)
      case None => t == s && result == Decline(LoadFailed(doc.title))
      case Some(note) =>
        t == s.(phase := Focused, focused := Some(Document(doc.id, note.0, note.1)))
        && result == Respond(Context([NoteContent(doc.id, note.0, note.1)], [], Single, doc.id, 0, [doc.id]))
  }

  ghost predicate AggregateStep(s: Session, intent: Intent, env: Env, text: string, t: Session, result: Grounding) {
    var query := if intent.query == "" then intent.reasoning else intent.query;
    var found := if s.candidates != [] then s.candidates
                 else if !env.userKnown || env.search(query).None? then []
                 else if env.search(query).value == [] then []
                 else Filtered(env.search(query).value, env.judge(query, env.search(query).value));
    if found == [] then t == s && result == Decline(if env.userKnown then NothingToAggregate else UnknownUser)
    else
      t == Session(Focused, found, Some(Document(AGGREGATED, "All Notes", text)))
      && result == Respond(Context(LoadAll(found, env), found, All, AGGREGATED, 0, IdsOf(LoadAll(found, env))))
  }

  ghost predicate AnswerStep(s: Session, env: Env, t: Session, result: Grounding) {
    match s.focused
    case None =>
      t == s && result == Decline(if s.candidates == [] then LostContext else Choices(|s.candidates|))
    case Some(doc) =>
      if doc.id == AGGREGATED then
        && t == s
        && result.context.Some?
        && result == Respond(Context(result.context.value.notes, s.candidates, All, AGGREGATED, 0,
                                     IdsOf(result.context.value.notes)))
        && |result.context.value.notes| == |s.candidates|
        && forall k :: 0 <= k < |s.candidates| ==> result.context.value.notes[k] == NoteOf(s.candidates[k])
      else
        var read := if doc.content == "" then env.load(doc.id) else None;
        var shown := if read.Some? then Document(doc.id, read.value.0, read.value.1) else doc;
        && t == s.(focused := Some(shown))
        && exists index: nat ::
             && result == Respond(Context([NoteOf(shown)], s.candidates, Single, doc.id, index, [doc.id]))
             && FirstWithId(s.candidates, doc.id, index)
  }

  /** `index` is the 1-based position of the first candidate with the ID, or 0 without one. */
  predicate FirstWithId(candidates: seq<Document>, id: string, index: nat) {
    && index <= |candidates|
    && (index > 0 ==> candidates[index - 1].id == id)
    && (forall k :: 0 <= k < (if index > 0 then index - 1 else |candidates|) ==> candidates[k].id != id)
  }

  ghost predicate GroundStep(s: Session, intent: Intent, env: Env, text: string, t: Session,
                             result: Result<Grounding, string>) {
    match intent.action
    case Search => SearchStep(s, intent, env, t, result)
    case Focus => result.Ok? && FocusStep(s, intent, env, t, result.value)
    case Aggregate => result.Ok? && AggregateStep(s, intent, env, text, t, result.value)
    case Answer => result.Ok? && AnswerStep(s, env, t, result.value)
    case Browse =>
      t == s && result == Ok(Decline(if s.candidates == [] then NothingToBrowse else Choices(|s.candidates|)))
    case MetaAnalysis => t == s && result == Ok(Respond(Context([], [], NoScope, "", 0, [])))
    case Clarify => t == s && result == Ok(Decline(MoreDetails))
  }

  // ---------------------------------------------------------------- which notes are meant

  /** The notes behind the chosen numbers, in the order of the answer. */
  lemma FilteredAreChosen(found: seq<Document>, judge: Judge, indices: seq<nat>)
    requires judge == Says(Listing(indices)) && |indices| != |found|
    requires forall k :: 0 <= k < |indices| ==> indices[k] < |found|
    ensures |Filtered(found, judge)| == |indices|
    ensures forall k :: 0 <= k < |indices| ==> Filtered(found, judge)[k] == found[indices[k]]
  {
    ListingIsUnderstood(indices, |found|);
  }

  /** `notes` are those of the candidates that can be read, in their order, with what was read. */
  ghost predicate ReadInOrder(candidates: seq<Document>, env: Env, notes: seq<NoteContent>) {
    exists places: seq<nat> :: ArePlaces(candidates, env, notes, places)
  }

  predicate ArePlaces(candidates: seq<Document>, env: Env, notes: seq<NoteContent>, places: seq<nat>) {
    && |places| == |notes|
    && (forall a, b :: 0 <= a < b < |places| ==> places[a] < places[b])
    && (forall k :: 0 <= k < |places| ==>
          && places[k] < |candidates| && env.load(candidates[places[k]].id).Some?
          && var read := env.load(candidates[places[k]].id).value;
             notes[k] == NoteContent(candidates[places[k]].id, read.0, read.1))
    && (forall i: nat :: i < |candidates| && env.load(candidates[i].id).Some? ==> i in places)
  }

  lemma LoadAllReads(candidates: seq<Document>, env: Env)
    ensures ReadInOrder(candidates, env, LoadAll(candidates, env))
  {
    var places := ReadPlaces(candidates, env);
  }

  lemma {:induction false} ReadPlaces(candidates: seq<Document>, env: Env) returns (places: seq<nat>)
    ensures ArePlaces(candidates, env, LoadAll(candidates, env), places)
  {
    if candidates == [] {
      places := [];
    } else {
      var front, last := candidates[..|candidates| - 1], candidates[|candidates| - 1];
      var before := ReadPlaces(front, env);
      PlacesGrow(front, last, env, LoadAll(front, env), before);
      assert candidates == front + [last];
      if env.load(last.id).Some? {
        var read := env.load(last.id).value;
        assert LoadAll(candidates, env) == LoadAll(front, env) + [NoteContent(last.id, read.0, read.1)];
        places := before + [|front|];
      } else {
        assert LoadAll(candidates, env) == LoadAll(front, env);
        places := before;
      }
    }
  }

  lemma PlacesGrow(front: seq<Document>, last: Document, env: Env, notes: seq<NoteContent>, places: seq<nat>)
    requires ArePlaces(front, env, notes, places)
    ensures env.load(last.id).None? ==> ArePlaces(front + [last], env, notes, places)
    ensures env.load(last.id).Some? ==>
              var read := env.load(last.id).value;
              ArePlaces(front + [last], env, notes + [NoteContent(last.id, read.0, read.1)], places + [|front|])
  {
    var all := front + [last];
    if env.load(last.id).Some? {
      var more := places + [|front|];
      forall i: nat | i < |all| && env.load(all[i].id).Some? ensures i in more {
        if i < |front| {
          assert all[i] == front[i];
          assert i in places;
        } else {
          assert more[|places|] == i;
        }
      }
    } else {
      forall i: nat | i < |all| && env.load(all[i].id).Some? ensures i in places {
        assert i < |front| && all[i] == front[i];
      }
    }
  }

  /** One note in focus, shown with its stored content if that can be read. */
  predicate AnswersAbout(doc: Document, env: Env, t: Session, result: Grounding) {
    var content := if env.load(doc.id).Some? then env.load(doc.id).value.1 else doc.content;
    && t.phase == Focused && t.focused == Some(Document(doc.id, doc.title, content))
    && result.shouldAnswer && result.context.Some?
    && result.context.value.notes == [NoteContent(doc.id, doc.title, content)]
    && result.context.value.focusIndex == 1
  }

  /** All candidates in focus, those shown that can be read. */
  ghost predicate AnswersAboutAll(env: Env, t: Session, result: Grounding) {
    && t.phase == Focused && t.focused.Some? && t.focused.value.id == "aggregated"
    && result.shouldAnswer && result.context.Some?
    && ReadInOrder(t.candidates, env, result.context.value.notes)
  }

  /** What is left of a search for the given candidates. */
  ghost predicate SearchedFor(intent: Intent, env: Env, t: Session, result: Grounding) {
    if |t.candidates| == 1 then AnswersAbout(t.candidates[0], env, t, result)
    else if intent.explicit then AnswersAboutAll(env, t, result)
    else
      && t.phase == Browsing && t.focused == None
      && !result.shouldAnswer && result.message == Ambiguous(|t.candidates|)
  }

  /** A search keeps exactly the search results that the model chose, in the order of its answer. */
  lemma SearchKeepsChosen(s: Session, intent: Intent, env: Env, t: Session, result: Result<Grounding, string>,
                          found: seq<Document>, indices: seq<nat>)
    requires SearchStep(s, intent, env, t, result) && intent.query != ""
    requires env.search(intent.query) == Some(found) && 2 <= |found|
    requires env.judge(intent.query, found) == Says(Listing(indices)) && |indices| != |found|
    requires forall k :: 0 <= k < |indices| ==> indices[k] < |found|
    ensures result.Ok?
    ensures indices == [] ==> t == s && !result.value.shouldAnswer && result.value.message == NotFound
    ensures indices != [] ==>
              && |t.candidates| == |indices|
              && (forall k :: 0 <= k < |indices| ==> t.candidates[k] == found[indices[k]])
              && SearchedFor(intent, env, t, result.value)
  {
    FilteredAreChosen(found, env.judge(intent.query, found), indices);
    LoadAllReads(Filtered(found, env.judge(intent.query, found)), env);
  }

  /** A search keeps all results if there is one only, no model, no verdict, or a verdict that chooses as many. */
  lemma SearchKeepsAll(s: Session, intent: Intent, env: Env, t: Session, result: Result<Grounding, string>,
                       found: seq<Document>, indices: seq<nat>)
    requires SearchStep(s, intent, env, t, result) && intent.query != ""
    requires env.search(intent.query) == Some(found) && found != []
    requires var judge := env.judge(intent.query, found);
             |found| == 1 || judge.NoModel? || judge.ModelError?
             || (judge == Says(Listing(indices)) && |indices| == |found|
                 && forall k :: 0 <= k < |indices| ==> indices[k] < |found|)
    ensures result.Ok? && t.candidates == found && SearchedFor(intent, env, t, result.value)
  {
    LoadAllReads(found, env);
    if env.judge(intent.query, found) == Says(Listing(indices)) && |indices| == |found|
       && forall k :: 0 <= k < |indices| ==> indices[k] < |found|
    {
      ListingIsUnderstood(indices, |found|);
    }
  }

  /** An aggregation without candidates at hand keeps exactly the search results that the model chose. */
  lemma AggregateKeepsChosen(s: Session, intent: Intent, env: Env, text: string, t: Session, result: Grounding,
                             found: seq<Document>, indices: seq<nat>)
    requires AggregateStep(s, intent, env, text, t, result) && s.candidates == [] && env.userKnown
    requires var query := if intent.query == "" then intent.reasoning else intent.query;
             && env.search(query) == Some(found) && found != []
             && env.judge(query, found) == Says(Listing(indices))
    requires |indices| != |found| && forall k :: 0 <= k < |indices| ==> indices[k] < |found|
    ensures indices == [] ==> t == s && !result.shouldAnswer && result.message == NothingToAggregate
    ensures indices != [] ==>
              && |t.candidates| == |indices|
              && (forall k :: 0 <= k < |indices| ==> t.candidates[k] == found[indices[k]])
              && AnswersAboutAll(env, t, result)
  {
    var query := if intent.query == "" then intent.reasoning else intent.query;
    FilteredAreChosen(found, env.judge(query, found), indices);
    LoadAllReads(Filtered(found, env.judge(query, found)), env);
  }

  /** With candidates at hand an aggregation is about all of them. */
  lemma AggregateKeepsCandidates(s: Session, intent: Intent, env: Env, text: string, t: Session, result: Grounding)
    requires AggregateStep(s, intent, env, text, t, result) && s.candidates != []
    ensures t.candidates == s.candidates && AnswersAboutAll(env, t, result)
  {
    LoadAllReads(s.candidates, env);
  }

  /** Focusing takes the candidate at the given place, as it is stored, and leaves the candidates alone. */
  lemma FocusTakesTarget(s: Session, intent: Intent, env: Env, t: Session, result: Grounding)
    requires FocusStep(s, intent, env, t, result)
    ensures t.candidates == s.candidates
    ensures !(0 <= intent.target < |s.candidates|) ==> t == s && !result.shouldAnswer
    ensures 0 <= intent.target < |s.candidates| ==>
              var id := s.candidates[intent.target].id;
              if env.load(id).None? then t == s && !result.shouldAnswer
              else
                var title, content := env.load(id).value.0, env.load(id).value.1;
                && t.phase == Focused && t.focused == Some(Document(id, title, content))
                && result.shouldAnswer && result.context.Some?
                && result.context.value.notes == [NoteContent(id, title, content)]
  {
  }

  /** An answer shows the note in focus, read again if its content is missing, or all candidates as they are. */
  lemma AnswerShowsFocus(s: Session, env: Env, t: Session, result: Grounding)
    requires AnswerStep(s, env, t, result)
    ensures t.candidates == s.candidates && (result.shouldAnswer <==> s.focused.Some?)
    ensures s.focused.Some? && s.focused.value.id != "aggregated" ==>
              var doc := s.focused.value;
              var read := doc.content == "" && env.load(doc.id).Some?;
              && result.context.Some?
              && result.context.value.notes
                 == [NoteContent(doc.id, if read then env.load(doc.id).value.0 else doc.title,
                                 if read then env.load(doc.id).value.1 else doc.content)]
    ensures s.focused.Some? && s.focused.value.id == "aggregated" ==>
              && t == s && result.context.Some? && |result.context.value.notes| == |s.candidates|
              && forall k :: 0 <= k < |s.candidates| ==>
                   result.context.value.notes[k]
                   == NoteContent(s.candidates[k].id, s.candidates[k].title, s.candidates[k].content)
  {
  }

  // ---------------------------------------------------------------- what every call keeps

  predicate Names(candidates: seq<Document>, id: string) {
    exists k :: 0 <= k < |candidates| && candidates[k].id == id
  }

  /** A session is focused exactly when it has a focus: all its candidates together, or one of them. */
  predicate Inv(s: Session) {
    && (s.phase == Focused <==> s.focused.Some?)
    && (s.focused.Some? ==>
          s.candidates != [] && (s.focused.value.id == AGGREGATED || Names(s.candidates, s.focused.value.id)))
  }

  /** What a reader of a result may rely on. */
  predicate Coherent(result: Grounding) {
    && (result.shouldAnswer <==> result.context.Some?)
    && (result.context.Some? ==>
          var c := result.context.value;
          && c.ids == IdsOf(c.notes)
          && (0 < c.focusIndex ==>
                c.focusIndex <= |c.candidates| && c.candidates[c.focusIndex - 1].id == c.focusedId))
  }

  lemma StepKeepsInv(s: Session, intent: Intent, env: Env, text: string, t: Session, result: Result<Grounding, string>)
    requires Inv(s) && GroundStep(s, intent, env, text, t, result)
    ensures Inv(t) && (result.Ok? ==> Coherent(result.value))
  {
    match intent.action
    case Search =>
      if t.focused.Some? && t.candidates != [] {
        assert t.candidates[0] in t.candidates;
      }
    case Answer =>
      if s.focused.Some? && s.focused.value.id != AGGREGATED {
        var k :| 0 <= k < |s.candidates| && s.candidates[k].id == s.focused.value.id;
        assert t.candidates[k].id == t.focused.value.id;
      }
    case Focus =>
      if 0 <= intent.target < |s.candidates| {
        assert s.candidates[intent.target].id == s.candidates[intent.target].id;
      }
    case Aggregate =>
    case Browse =>
    case MetaAnalysis =>
    case Clarify =>
  }

  /** With a single note in focus, an answer always knows the note's place among the candidates. */
  lemma AnswerFindsItsPlace(s: Session, env: Env, t: Session, result: Grounding)
    requires Inv(s) && AnswerStep(s, env, t, result)
    requires s.focused.Some? && s.focused.value.id != AGGREGATED
    ensures result.context.Some? && 0 < result.context.value.focusIndex <= |s.candidates|
    ensures s.candidates[result.context.value.focusIndex - 1].id == s.focused.value.id == result.context.value.focusedId
  {
    var k :| 0 <= k < |s.candidates| && s.candidates[k].id == s.focused.value.id;
  }

  /** One call of a conversation, with everything that was seen of it. */
  datatype Call = Call(intent: Intent, env: Env, text: string, result: Result<Grounding, string>, after: Session)

  ghost predicate IsConversation(s: Session, calls: seq<Call>)
    decreases |calls|
  {
    calls == []
    || (GroundStep(s, calls[0].intent, calls[0].env, calls[0].text, calls[0].after, calls[0].result)
        && IsConversation(calls[0].after, calls[1..]))
  }

  /** Over any conversation from a browsing session every session is sound and every result coherent. */
  lemma {:induction false} ConversationIsSound(s: Session, calls: seq<Call>, i: nat)
    requires Inv(s) && IsConversation(s, calls) && i < |calls|
    ensures Inv(calls[i].after) && (calls[i].result.Ok? ==> Coherent(calls[i].result.value))
    decreases |calls|
  {
    StepKeepsInv(s, calls[0].intent, calls[0].env, calls[0].text, calls[0].after, calls[0].result);
    if 0 < i {
      ConversationIsSound(calls[0].after, calls[1..], i - 1);
    }
  }
}
