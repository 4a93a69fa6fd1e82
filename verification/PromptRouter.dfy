/**
 Prompt prefixes and the sticky session mode: pkg/ai/router/parser.go,
 pkg/ai/router/router.go and executePipeline of internal/service/chatbot_service.go.
 */
module PromptRouter {
  import opened Wrappers

  datatype Mode = RAG | Bypass | BypassNuance | RAGNuance

  const PREFIX_BYPASS_NUANCE: string := "/bypass/nuance:"
  const PREFIX_BYPASS: string := "/bypass"
  const PREFIX_NUANCE: string := "/nuance:"

  datatype Parsed = Parsed(original: string, clean: string, mode: Mode, key: string)

  // ---------------------------------------------------------------- strings

  /** Unicode White_Space, as strings.TrimSpace uses it. */
  predicate IsSpace(c: char) {
    var n := c as int;
    9 <= n <= 13 || n == 0x20 || n == 0x85 || n == 0xA0 || n == 0x1680 || 0x2000 <= n <= 0x200A
    || n == 0x2028 || n == 0x2029 || n == 0x202F || n == 0x205F || n == 0x3000
  }

  /** strings.ToLower on ASCII letters. */
  function LowerChar(c: char): char {
    if 'A' <= c <= 'Z' then (c as int + 32) as char else c
  }

  function Lower(s: string): (r: string)
    ensures |r| == |s|
  {
    seq(|s|, i requires 0 <= i < |s| => LowerChar(s[i]))
  }

  function TrimLeft(s: string): string {
    if s != "" && IsSpace(s[0]) then TrimLeft(s[1..]) else s
  }

  function TrimRight(s: string): string {
    if s != "" && IsSpace(s[|s| - 1]) then TrimRight(s[..|s| - 1]) else s
  }

  function Trim(s: string): string {
    TrimRight(TrimLeft(s))
  }

  /** Neither end is a space. */
  predicate Trimmed(s: string) {
    s == "" || (!IsSpace(s[0]) && !IsSpace(s[|s| - 1]))
  }

  /** The position of the first blank, or the length. */
  function FirstBlank(s: string): (i: nat)
    ensures i <= |s| && ' ' !in s[..i] && (i < |s| ==> s[i] == ' ')
  {
    if s == "" || s[0] == ' ' then 0
    else
      var i := FirstBlank(s[1..]);
      assert s[..i + 1] == [s[0]] + s[1..][..i];
      i + 1
  }

  lemma {:induction false} TrimRightEnds(s: string)
    ensures TrimRight(s) <= s
    ensures TrimRight(s) != "" ==> !IsSpace(TrimRight(s)[|TrimRight(s)| - 1])
  {
    if s != "" && IsSpace(s[|s| - 1]) {
      TrimRightEnds(s[..|s| - 1]);
    }
  }

  lemma {:induction false} TrimLeftStarts(s: string)
    ensures TrimLeft(s) != "" ==> !IsSpace(TrimLeft(s)[0])
  {
    if s != "" && IsSpace(s[0]) {
      TrimLeftStarts(s[1..]);
    }
  }

  lemma TrimIsTrimmed(s: string)
    ensures Trimmed(Trim(s))
    ensures Trimmed(s) ==> Trim(s) == s
  {
    TrimLeftStarts(s);
    TrimRightEnds(TrimLeft(s));
    if Trim(s) != "" {
      assert Trim(s)[0] == TrimLeft(s)[0];
    }
  }

  lemma LowerAppend(a: string, b: string)
    ensures Lower(a + b) == Lower(a) + Lower(b)
  {
  }

  lemma LowerTwice(s: string)
    ensures Lower(Lower(s)) == Lower(s)
  {
  }

  // ---------------------------------------------------------------- the parser

  /** extractKeyAndPrompt. */
  function ExtractKeyAndPrompt(rest: string): (string, string) {
    var blank := FirstBlank(rest);
    if blank == |rest| then (Lower(rest), "")
    else (Lower(rest[..blank]), Trim(rest[blank + 1..]))
  }

  function Parse(prompt: string): Parsed {
    var trimmed := Trim(prompt);
    var lower := Lower(trimmed);
    var both := if PREFIX_BYPASS_NUANCE <= lower then ExtractKeyAndPrompt(trimmed[|PREFIX_BYPASS_NUANCE|..]) else ("", "");
    if both.0 != "" then Parsed(prompt, both.1, BypassNuance, both.0)
    else if PREFIX_BYPASS <= lower && BypassRest(trimmed[|PREFIX_BYPASS|..])
    then Parsed(prompt, Trim(trimmed[|PREFIX_BYPASS|..]), Bypass, "")
    else
      var nuance := if PREFIX_NUANCE <= lower then ExtractKeyAndPrompt(trimmed[|PREFIX_NUANCE|..]) else ("", "");
      if nuance.0 != "" then Parsed(prompt, nuance.1, RAGNuance, nuance.0)
      else Parsed(prompt, prompt, RAG, "")
  }

  /** What may follow /bypass for it to count as the command. */
  predicate BypassRest(rest: string) {
    (rest == "" || rest[0] == ' ' || rest[0] == '/') && !(PREFIX_NUANCE <= Lower(rest))
  }

  /** A command as a user would type it. */
  function Print(mode: Mode, key: string, prompt: string): string {
    var tail := if prompt == "" then "" else " " + prompt;
    match mode
    case RAG => prompt
    case Bypass => PREFIX_BYPASS + tail
    case BypassNuance => PREFIX_BYPASS_NUANCE + key + tail
    case RAGNuance => PREFIX_NUANCE + key + tail
  }

  /** A key is non-empty, in lower case and without blanks; at the end of a command it cannot end in other white space. */
  predicate GoodKey(key: string, prompt: string) {
    key != "" && Lower(key) == key && ' ' !in key && (prompt == "" ==> !IsSpace(key[|key| - 1]))
  }

  /** The prompt is none of the three commands, whatever its case and surrounding space. */
  predicate IsPlain(prompt: string) {
    var l := Lower(Trim(prompt));
    && !(PREFIX_BYPASS_NUANCE <= l && |PREFIX_BYPASS_NUANCE| < |l| && l[|PREFIX_BYPASS_NUANCE|] != ' ')
    && !(PREFIX_BYPASS <= l && BypassRest(l[|PREFIX_BYPASS|..]))
    && !(PREFIX_NUANCE <= l && |PREFIX_NUANCE| < |l| && l[|PREFIX_NUANCE|] != ' ')
  }

  /** The triples that printing and parsing preserve. */
  predicate Canonical(mode: Mode, key: string, prompt: string) {
    match mode
    case RAG => key == "" && IsPlain(prompt)
    case Bypass => key == "" && Trimmed(prompt)
    case BypassNuance => GoodKey(key, prompt) && Trimmed(prompt)
    case RAGNuance => GoodKey(key, prompt) && Trimmed(prompt)
  }

  lemma PrefixesAreLower()
    ensures Lower(PREFIX_BYPASS_NUANCE) == PREFIX_BYPASS_NUANCE
    ensures Lower(PREFIX_BYPASS) == PREFIX_BYPASS
    ensures Lower(PREFIX_NUANCE) == PREFIX_NUANCE
  {
  }

  lemma ExtractPrinted(key: string, prompt: string)
    requires GoodKey(key, prompt) && Trimmed(prompt)
    ensures ExtractKeyAndPrompt(key + if prompt == "" then "" else " " + prompt) == (key, prompt)
  {
    var rest := key + if prompt == "" then "" else " " + prompt;
    assert rest[..|key|] == key;
    FirstBlankIs(rest, |key|);
    if prompt != "" {
      assert rest[|key| + 1..] == prompt;
      TrimIsTrimmed(prompt);
    } else {
      assert rest == key;
    }
  }

  lemma {:induction false} FirstBlankIs(s: string, i: nat)
    requires i <= |s| && ' ' !in s[..i] && (i < |s| ==> s[i] == ' ')
    ensures FirstBlank(s) == i
  {
    if 0 < i {
      assert s[0] == s[..i][0] && s[1..][..i - 1] == s[..i][1..];
      FirstBlankIs(s[1..], i - 1);
    }
  }

  /** A printed command is already trimmed, and its prefix survives the change of case. */
  lemma PrintedPrefix(prefix: string, key: string, prompt: string)
    requires prefix in {PREFIX_BYPASS_NUANCE, PREFIX_BYPASS, PREFIX_NUANCE}
    requires Trimmed(prompt) && (key == "" || prompt != "" || !IsSpace(key[|key| - 1]))
    ensures var tail := if prompt == "" then "" else " " + prompt;
            var s := prefix + key + tail;
            && Trim(s) == s && prefix <= Lower(s) && s[|prefix|..] == key + tail
            && Lower(s)[|prefix|..] == Lower(key + tail)
  {
    var tail := if prompt == "" then "" else " " + prompt;
    var s := prefix + key + tail;
    assert s == prefix + (key + tail);
    LowerAppend(prefix, key + tail);
    PrefixesAreLower();
    assert s[0] == '/';
    assert s[|s| - 1] == if prompt != "" then prompt[|prompt| - 1] else if key != "" then key[|key| - 1]
                         else prefix[|prefix| - 1];
    TrimIsTrimmed(s);
  }

  lemma RoundTripBypass(prompt: string)
    requires Trimmed(prompt)
    ensures Parse(Print(Bypass, "", prompt)) == Parsed(Print(Bypass, "", prompt), prompt, Bypass, "")
  {
    var tail := if prompt == "" then "" else " " + prompt;
    var s := PREFIX_BYPASS + tail;
    assert s == PREFIX_BYPASS + "" + tail && "" + tail == tail;
    PrintedPrefix(PREFIX_BYPASS, "", prompt);
    BypassIsNoNuance(s);
    BlankTail(prompt);
  }

  /** Behind the shorter prefix the longer one goes on with a slash. */
  lemma BypassIsNoNuance(s: string)
    requires |s| <= |PREFIX_BYPASS| || s[|PREFIX_BYPASS|] == ' '
    ensures !(PREFIX_BYPASS_NUANCE <= Lower(s))
  {
    if |PREFIX_BYPASS| < |s| {
      assert Lower(s)[|PREFIX_BYPASS|] == ' ';
    }
  }

  lemma RoundTripBypassNuance(key: string, prompt: string)
    requires GoodKey(key, prompt) && Trimmed(prompt)
    ensures Parse(Print(BypassNuance, key, prompt)) == Parsed(Print(BypassNuance, key, prompt), prompt, BypassNuance, key)
  {
    PrintedPrefix(PREFIX_BYPASS_NUANCE, key, prompt);
    ExtractPrinted(key, prompt);
  }

  lemma RoundTripNuance(key: string, prompt: string)
    requires GoodKey(key, prompt) && Trimmed(prompt)
    ensures Parse(Print(RAGNuance, key, prompt)) == Parsed(Print(RAGNuance, key, prompt), prompt, RAGNuance, key)
  {
    PrintedPrefix(PREFIX_NUANCE, key, prompt);
    ExtractPrinted(key, prompt);
    NuanceIsNoBypass(Lower(Print(RAGNuance, key, prompt)));
  }

  lemma NuanceIsNoBypass(l: string)
    requires PREFIX_NUANCE <= l
    ensures !(PREFIX_BYPASS <= l) && !(PREFIX_BYPASS_NUANCE <= l)
  {
    assert l[1] == PREFIX_NUANCE[1];
  }

  lemma RoundTrip(mode: Mode, key: string, prompt: string)
    requires Canonical(mode, key, prompt)
    ensures Parse(Print(mode, key, prompt)) == Parsed(Print(mode, key, prompt), prompt, mode, key)
  {
    match mode
    case RAG => PlainIsRAG(prompt);
    case Bypass => RoundTripBypass(prompt);
    case BypassNuance => RoundTripBypassNuance(key, prompt);
    case RAGNuance => RoundTripNuance(key, prompt);
  }

  lemma BlankTail(prompt: string)
    requires Trimmed(prompt)
    ensures var tail := if prompt == "" then "" else " " + prompt;
            BypassRest(tail) && Trim(tail) == prompt
  {
    if prompt != "" {
      var tail := " " + prompt;
      assert Lower(tail)[0] == ' ';
      assert tail[1..] == prompt;
      assert TrimLeft(tail) == TrimLeft(prompt);
      TrimIsTrimmed(prompt);
    }
  }

  /** The key that a nuance prefix yields is empty exactly when a blank or nothing follows it. */
  lemma KeyMissing(rest: string)
    ensures ExtractKeyAndPrompt(rest).0 == "" <==> rest == "" || rest[0] == ' '
  {
  }

  lemma PlainIsRAG(prompt: string)
    ensures IsPlain(prompt) <==> Parse(prompt).mode == RAG
  {
    var trimmed := Trim(prompt);
    var l := Lower(trimmed);
    if PREFIX_BYPASS_NUANCE <= l {
      KeyMissing(trimmed[|PREFIX_BYPASS_NUANCE|..]);
    }
    if PREFIX_NUANCE <= l {
      KeyMissing(trimmed[|PREFIX_NUANCE|..]);
    }
    if PREFIX_BYPASS <= l {
      var rest := trimmed[|PREFIX_BYPASS|..];
      assert l[|PREFIX_BYPASS|..] == Lower(rest);
      LowerTwice(rest);
    }
  }

  /** Space around a prompt does not matter, except that a plain prompt keeps it. */
  lemma SpaceAroundIsIgnored(prompt: string)
    ensures var p, q := Parse(prompt), Parse(Trim(prompt));
            p.mode == q.mode && p.key == q.key && p.clean == if p.mode == RAG then prompt else q.clean
  {
    TrimIsTrimmed(prompt);
    TrimIsTrimmed(Trim(prompt));
  }

  /** A command typed in any case, as `cmd`, is trimmed and found. */
  lemma AnyCasePrefix(cmd: string, prefix: string, key: string, rest: string)
    requires prefix in {PREFIX_BYPASS_NUANCE, PREFIX_BYPASS, PREFIX_NUANCE} && Lower(cmd) == prefix
    requires Trimmed(rest) && (key == "" || rest != "" || !IsSpace(key[|key| - 1]))
    ensures var tail := if rest == "" then "" else " " + rest;
            var s := cmd + key + tail;
            Trim(s) == s && prefix <= Lower(s) && s[|prefix|..] == key + tail
  {
    var tail := if rest == "" then "" else " " + rest;
    var s := cmd + key + tail;
    assert s == cmd + (key + tail) && |cmd| == |prefix|;
    LowerAppend(cmd, key + tail);
    assert LowerChar(cmd[0]) == prefix[0] == '/';
    assert s[0] == '/';
    assert LowerChar(cmd[|cmd| - 1]) == prefix[|prefix| - 1];
    assert s[|s| - 1] == if rest != "" then rest[|rest| - 1] else if key != "" then key[|key| - 1] else cmd[|cmd| - 1];
    TrimIsTrimmed(s);
  }

  lemma BypassInAnyCase(cmd: string, rest: string)
    requires Lower(cmd) == "/bypass" && Trimmed(rest)
    ensures var s := if rest == "" then cmd else cmd + " " + rest;
            Parse(s) == Parsed(s, rest, Bypass, "")
  {
    var tail := if rest == "" then "" else " " + rest;
    var s := cmd + "" + tail;
    AnyCasePrefix(cmd, PREFIX_BYPASS, "", rest);
    assert "" + tail == tail && |cmd| == |PREFIX_BYPASS|;
    assert s == if rest == "" then cmd else cmd + " " + rest;
    BypassIsNoNuance(s);
    BlankTail(rest);
  }

  /** A key as typed: without blanks, in any case. */
  predicate TypedKey(key: string, rest: string) {
    key != "" && ' ' !in key && (rest == "" ==> !IsSpace(key[|key| - 1]))
  }

  lemma ExtractTyped(key: string, rest: string)
    requires TypedKey(key, rest) && Trimmed(rest)
    ensures ExtractKeyAndPrompt(key + if rest == "" then "" else " " + rest) == (Lower(key), rest)
  {
    var all := key + if rest == "" then "" else " " + rest;
    assert all[..|key|] == key;
    FirstBlankIs(all, |key|);
    if rest != "" {
      assert all[|key| + 1..] == rest;
      TrimIsTrimmed(rest);
    } else {
      assert all == key;
    }
  }

  lemma NuanceInAnyCase(cmd: string, key: string, rest: string)
    requires Lower(cmd) == "/bypass/nuance:" || Lower(cmd) == "/nuance:"
    requires TypedKey(key, rest) && Trimmed(rest)
    ensures var s := if rest == "" then cmd + key else cmd + key + " " + rest;
            Parse(s) == Parsed(s, rest, if Lower(cmd) == "/nuance:" then RAGNuance else BypassNuance, Lower(key))
  {
    var tail := if rest == "" then "" else " " + rest;
    var s := cmd + key + tail;
    assert s == if rest == "" then cmd + key else cmd + key + " " + rest;
    AnyCasePrefix(cmd, Lower(cmd), key, rest);
    ExtractTyped(key, rest);
    if Lower(cmd) == "/nuance:" {
      NuanceIsNoBypass(Lower(s));
    }
  }

  /** Whatever is typed, the parser answers with a canonical triple. */
  lemma ParseIsCanonical(prompt: string)
    ensures var p := Parse(prompt);
            Canonical(p.mode, p.key, p.clean) && p.original == prompt
  {
    var p := Parse(prompt);
    var trimmed := Trim(prompt);
    TrimIsTrimmed(prompt);
    match p.mode {
      case RAG => PlainIsRAG(prompt);
      case Bypass => TrimIsTrimmed(trimmed[|PREFIX_BYPASS|..]);
      case BypassNuance => ExtractedIsGood(trimmed, |PREFIX_BYPASS_NUANCE|);
      case RAGNuance => ExtractedIsGood(trimmed, |PREFIX_NUANCE|);
    }
  }

  lemma ExtractedIsGood(trimmed: string, from: nat)
    requires Trimmed(trimmed) && from < |trimmed| && ExtractKeyAndPrompt(trimmed[from..]).0 != ""
    ensures var (key, prompt) := ExtractKeyAndPrompt(trimmed[from..]);
            GoodKey(key, prompt) && Trimmed(prompt)
  {
    var rest := trimmed[from..];
    var blank := FirstBlank(rest);
    LowerTwice(rest[..blank]);
    assert forall i :: 0 <= i < blank ==> rest[..blank][i] != ' ' && Lower(rest[..blank])[i] == LowerChar(rest[i]);
    if blank < |rest| {
      var after := rest[blank + 1..];
      TrimIsTrimmed(after);
      assert trimmed[|trimmed| - 1] == rest[|rest| - 1];
      if after != "" {
        assert after[|after| - 1] == rest[|rest| - 1];
        TrimKeepsSolidEnd(after);
      }
    } else {
      assert rest[..blank] == rest;
    }
  }

  lemma {:induction false} TrimKeepsSolidEnd(s: string)
    requires s != "" && !IsSpace(s[|s| - 1])
    ensures Trim(s) != ""
  {
    if IsSpace(s[0]) {
      TrimKeepsSolidEnd(s[1..]);
    }
  }

  /** Printing and parsing give a command back exactly when it is canonical; every parse result is. */
  lemma RoundTripIff(mode: Mode, key: string, prompt: string)
    ensures Parse(Print(mode, key, prompt)) == Parsed(Print(mode, key, prompt), prompt, mode, key)
       <==> Canonical(mode, key, prompt)
  {
    if Canonical(mode, key, prompt) {
      RoundTrip(mode, key, prompt);
    } else {
      ParseIsCanonical(Print(mode, key, prompt));
    }
  }

  // ---------------------------------------------------------------- routing

  function ModeName(mode: Mode): string {
    match mode
    case RAG => "RAG"
    case Bypass => "BYPASS"
    case BypassNuance => "BYPASS_NUANCE"
    case RAGNuance => "RAG_NUANCE"
  }

  /** The modes that a session can be locked to. */
  predicate IsLock(sessionMode: string) {
    sessionMode == "BYPASS" || sessionMode == "BYPASS_NUANCE" || sessionMode == "RAG_NUANCE"
  }

  /** The locked mode wins over the typed one. */
  function EffectiveMode(typed: Mode, sessionMode: string): Mode {
    if sessionMode == "BYPASS" then Bypass
    else if sessionMode == "BYPASS_NUANCE" then BypassNuance
    else if sessionMode == "RAG_NUANCE" then RAGNuance
    else typed
  }

  /** The prefix is stripped only if it asks for what the session does anyway (any bypass form in a bypass session). */
  function QueryFrom(p: Parsed, sessionMode: string): string {
    if !IsLock(sessionMode) || p.mode == EffectiveMode(p.mode, sessionMode)
       || (sessionMode == "BYPASS" && p.mode == BypassNuance)
    then p.clean
    else p.original
  }

  /** Which generator produced a reply, and from what. */
  datatype Reply = Help(mode: Mode, key: string) | FromBypass(query: string, nuance: Option<string>) | FromRAG(query: string)

  datatype Executed = Executed(reply: Reply, mode: Mode, key: string)

  /** The nuance table: an error, no row, or a row. */
  datatype Lookup = LookupFailed | NoNuance | Nuance(key: string)

  type Pipeline = Reply -> bool

  method ExecuteBypass(query: string, nuance: Option<string>, answers: Pipeline) returns (result: Option<Executed>)
    ensures result.Some? <==> answers(FromBypass(query, nuance))
    ensures result.Some? ==> result.value == Executed(FromBypass(query, nuance),
                                                      if nuance.Some? then BypassNuance else Bypass,
                                                      if nuance.Some? then nuance.value else "")
  {
    if !answers(FromBypass(query, nuance)) {
      return None;
    }
    var mode := Bypass;
    var key := "";
    if nuance.Some? {
      mode := BypassNuance;
      key := nuance.value;
    }
    result := Some(Executed(FromBypass(query, nuance), mode, key));
  }

  method ExecuteRAG(query: string, mode: Mode, answers: Pipeline) returns (result: Option<Executed>)
    ensures result.Some? <==> answers(FromRAG(query))
    ensures result.Some? ==> result.value == Executed(FromRAG(query), mode, "")
  {
    if !answers(FromRAG(query)) {
      return None;
    }
    result := Some(Executed(FromRAG(query), mode, ""));
  }

  /** The reply that a parsed prompt leads to in a session, if the pipeline answers. */
  function ReplyFrom(p: Parsed, sessionMode: string, lookup: string -> Lookup): Reply {
    var mode, query := EffectiveMode(p.mode, sessionMode), QueryFrom(p, sessionMode);
    if Trim(query) == "" && mode != RAG then Help(mode, p.key)
    else if mode == Bypass then FromBypass(query, None)
    else if mode == BypassNuance then
      FromBypass(query, if p.key != "" && lookup(p.key).Nuance? then Some(lookup(p.key).key) else None)
    else FromRAG(query)
  }

  function ReplyFor(prompt: string, sessionMode: string, lookup: string -> Lookup): Reply {
    ReplyFrom(Parse(prompt), sessionMode, lookup)
  }

  function ExecutedFrom(p: Parsed, sessionMode: string, lookup: string -> Lookup): Executed {
    var reply, mode := ReplyFrom(p, sessionMode, lookup), EffectiveMode(p.mode, sessionMode);
    Executed(reply, mode, if reply.Help? || mode in {Bypass, RAG} then "" else p.key)
  }

  // What a prompt leads to, read off the text.

  function Behind(prefix: string, rest: string): string {
    if rest == "" then prefix else prefix + " " + rest
  }

  predicate TypedBypass(prompt: string, rest: string) {
    Trimmed(rest) && prompt == Behind("/bypass", rest)
  }

  predicate TypedBypassNuance(prompt: string, key: string, rest: string) {
    GoodKey(key, rest) && Trimmed(rest) && prompt == Behind("/bypass/nuance:" + key, rest)
  }

  predicate TypedNuance(prompt: string, key: string, rest: string) {
    GoodKey(key, rest) && Trimmed(rest) && prompt == Behind("/nuance:" + key, rest)
  }

  predicate Blank(prompt: string) {
    Trim(prompt) == ""
  }

  /** The row of the nuance table, if there is one that can be read. */
  function Row(lookup: string -> Lookup, key: string): Option<string> {
    match lookup(key)
    case LookupFailed => None
    case NoNuance => None
    case Nuance(found) => Some(found)
  }

  /** Without a lock a command goes to the generator it names, without its prefix; an empty command asks for help. */
  ghost predicate FollowsTyped(prompt: string, lookup: string -> Lookup, e: Executed) {
    && (forall rest :: TypedBypass(prompt, rest) ==>
          e == Executed(if rest == "" then Help(Bypass, "") else FromBypass(rest, None), Bypass, ""))
    && (forall key, rest :: TypedBypassNuance(prompt, key, rest) ==>
          e == if rest == "" then Executed(Help(BypassNuance, key), BypassNuance, "")
               else Executed(FromBypass(rest, Row(lookup, key)), BypassNuance, key))
    && (forall key, rest :: TypedNuance(prompt, key, rest) ==>
          e == if rest == "" then Executed(Help(RAGNuance, key), RAGNuance, "")
               else Executed(FromRAG(rest), RAGNuance, key))
    && (IsPlain(prompt) ==> e == Executed(FromRAG(prompt), RAG, ""))
  }

  /** In a bypass session everything goes to the bypass generator without a nuance. */
  ghost predicate FollowsBypass(prompt: string, e: Executed) {
    && (forall rest :: TypedBypass(prompt, rest) ==>
          e == Executed(if rest == "" then Help(Bypass, "") else FromBypass(rest, None), Bypass, ""))
    && (forall key, rest :: TypedBypassNuance(prompt, key, rest) ==>
          e == Executed(if rest == "" then Help(Bypass, key) else FromBypass(rest, None), Bypass, ""))
    && (forall key, rest :: TypedNuance(prompt, key, rest) ==> e == Executed(FromBypass(prompt, None), Bypass, ""))
    && (IsPlain(prompt) ==>
          e == Executed(if Blank(prompt) then Help(Bypass, "") else FromBypass(prompt, None), Bypass, ""))
  }

  /** In a bypass session with nuances the nuance is the typed one, and other prefixes stay in the text. */
  ghost predicate FollowsBypassNuance(prompt: string, lookup: string -> Lookup, e: Executed) {
    && (forall rest :: TypedBypass(prompt, rest) ==> e == Executed(FromBypass(prompt, None), BypassNuance, ""))
    && (forall key, rest :: TypedBypassNuance(prompt, key, rest) ==>
          e == if rest == "" then Executed(Help(BypassNuance, key), BypassNuance, "")
               else Executed(FromBypass(rest, Row(lookup, key)), BypassNuance, key))
    && (forall key, rest :: TypedNuance(prompt, key, rest) ==>
          e == Executed(FromBypass(prompt, Row(lookup, key)), BypassNuance, key))
    && (IsPlain(prompt) ==>
          e == Executed(if Blank(prompt) then Help(BypassNuance, "") else FromBypass(prompt, None), BypassNuance, ""))
  }

  /** In a session with nuances everything goes to the notes. */
  ghost predicate FollowsNuance(prompt: string, e: Executed) {
    && (forall rest :: TypedBypass(prompt, rest) ==> e == Executed(FromRAG(prompt), RAGNuance, ""))
    && (forall key, rest :: TypedBypassNuance(prompt, key, rest) ==> e == Executed(FromRAG(prompt), RAGNuance, key))
    && (forall key, rest :: TypedNuance(prompt, key, rest) ==>
          e == if rest == "" then Executed(Help(RAGNuance, key), RAGNuance, "")
               else Executed(FromRAG(rest), RAGNuance, key))
    && (IsPlain(prompt) ==>
          e == Executed(if Blank(prompt) then Help(RAGNuance, "") else FromRAG(prompt), RAGNuance, ""))
  }

  ghost predicate Follows(prompt: string, sessionMode: string, lookup: string -> Lookup, e: Executed) {
    if sessionMode == "BYPASS" then FollowsBypass(prompt, e)
    else if sessionMode == "BYPASS_NUANCE" then FollowsBypassNuance(prompt, lookup, e)
    else if sessionMode == "RAG_NUANCE" then FollowsNuance(prompt, e)
    else FollowsTyped(prompt, lookup, e)
  }

  /** What the typed commands parse to. */
  ghost predicate ParsesTo(prompt: string, p: Parsed) {
    && p.original == prompt
    && (forall rest :: TypedBypass(prompt, rest) ==> p == Parsed(prompt, rest, Bypass, ""))
    && (forall key, rest :: TypedBypassNuance(prompt, key, rest) ==> p == Parsed(prompt, rest, BypassNuance, key))
    && (forall key, rest :: TypedNuance(prompt, key, rest) ==> p == Parsed(prompt, rest, RAGNuance, key))
    && (IsPlain(prompt) ==> p == Parsed(prompt, prompt, RAG, ""))
  }

  lemma TypedParses(prompt: string)
    ensures ParsesTo(prompt, Parse(prompt))
  {
    forall rest | TypedBypass(prompt, rest) ensures Parse(prompt) == Parsed(prompt, rest, Bypass, "") {
      BehindIsPrinted("/bypass", rest);
      RoundTripBypass(rest);
    }
    forall key, rest | TypedBypassNuance(prompt, key, rest)
      ensures Parse(prompt) == Parsed(prompt, rest, BypassNuance, key)
    {
      BehindIsPrinted("/bypass/nuance:" + key, rest);
      RoundTripBypassNuance(key, rest);
    }
    forall key, rest | TypedNuance(prompt, key, rest) ensures Parse(prompt) == Parsed(prompt, rest, RAGNuance, key) {
      BehindIsPrinted("/nuance:" + key, rest);
      RoundTripNuance(key, rest);
    }
    PlainIsRAG(prompt);
  }

  lemma BehindIsPrinted(prefix: string, rest: string)
    ensures Behind(prefix, rest) == prefix + if rest == "" then "" else " " + rest
  {
  }

  /** A typed command is not blank, and neither is a trimmed rest that is not empty. */
  lemma TypedIsNotBlank(prompt: string)
    ensures forall rest :: TypedBypass(prompt, rest) ==> !Blank(prompt) && Trim(rest) == rest
    ensures forall key, rest :: TypedBypassNuance(prompt, key, rest) ==> !Blank(prompt) && Trim(rest) == rest
    ensures forall key, rest :: TypedNuance(prompt, key, rest) ==> !Blank(prompt) && Trim(rest) == rest
  {
    forall rest | Trimmed(rest) ensures Trim(rest) == rest {
      TrimIsTrimmed(rest);
    }
    if prompt != "" && prompt[0] == '/' {
      SlashIsNotBlank(prompt);
    }
  }

  lemma SlashIsNotBlank(prompt: string)
    requires prompt != "" && prompt[0] == '/'
    ensures !Blank(prompt)
  {
    assert TrimLeft(prompt) == prompt;
    TrimRightKeeps(prompt);
  }

  lemma {:induction false} TrimRightKeeps(s: string)
    requires s != "" && !IsSpace(s[0])
    ensures TrimRight(s) != ""
  {
    if IsSpace(s[|s| - 1]) {
      TrimRightKeeps(s[..|s| - 1]);
    }
  }

  lemma TypedFollows(prompt: string, p: Parsed, sessionMode: string, lookup: string -> Lookup)
    requires ParsesTo(prompt, p) && !IsLock(sessionMode)
    ensures FollowsTyped(prompt, lookup, ExecutedFrom(p, sessionMode, lookup))
  {
    TypedIsNotBlank(prompt);
  }

  lemma BypassFollows(prompt: string, p: Parsed, lookup: string -> Lookup)
    requires ParsesTo(prompt, p)
    ensures FollowsBypass(prompt, ExecutedFrom(p, "BYPASS", lookup))
  {
    TypedIsNotBlank(prompt);
  }

  lemma BypassNuanceFollows(prompt: string, p: Parsed, lookup: string -> Lookup)
    requires ParsesTo(prompt, p)
    ensures FollowsBypassNuance(prompt, lookup, ExecutedFrom(p, "BYPASS_NUANCE", lookup))
  {
    TypedIsNotBlank(prompt);
  }

  lemma NuanceFollows(prompt: string, p: Parsed, lookup: string -> Lookup)
    requires ParsesTo(prompt, p)
    ensures FollowsNuance(prompt, ExecutedFrom(p, "RAG_NUANCE", lookup))
  {
    TypedIsNotBlank(prompt);
  }

  /** Each kind of session sends each kind of prompt where its text says. */
  lemma ExecutedFollows(prompt: string, sessionMode: string, lookup: string -> Lookup)
    ensures Follows(prompt, sessionMode, lookup, ExecutedFrom(Parse(prompt), sessionMode, lookup))
  {
    TypedParses(prompt);
    var p := Parse(prompt);
    if sessionMode == "BYPASS" {
      BypassFollows(prompt, p, lookup);
    } else if sessionMode == "BYPASS_NUANCE" {
      BypassNuanceFollows(prompt, p, lookup);
    } else if sessionMode == "RAG_NUANCE" {
      NuanceFollows(prompt, p, lookup);
    } else {
      TypedFollows(prompt, p, sessionMode, lookup);
    }
  }

  /** Router.Execute: a result always reports the effective mode. */
  method Execute(prompt: string, sessionMode: string, lookup: string -> Lookup, answers: Pipeline)
    returns (result: Option<Executed>)
    ensures var e := ExecutedFrom(Parse(prompt), sessionMode, lookup);
            && (result.Some? <==> e.reply.Help? || answers(e.reply))
            && (result.Some? ==> result.value == e)
  {
    var parsed := Parse(prompt);
    var effectiveMode := parsed.mode;
    if sessionMode == "BYPASS" {
      effectiveMode := Bypass;
      if !(parsed.mode == Bypass || parsed.mode == BypassNuance) {
        parsed := parsed.(clean := prompt);
      }
    } else if sessionMode == "BYPASS_NUANCE" {
      effectiveMode := BypassNuance;
      if parsed.mode != BypassNuance {
        parsed := parsed.(clean := prompt);
      }
    } else if sessionMode == "RAG_NUANCE" {
      effectiveMode := RAGNuance;
      if parsed.mode != RAGNuance {
        parsed := parsed.(clean := prompt);
      }
    }
    if Trim(parsed.clean) == "" && effectiveMode != RAG {
      return Some(Executed(Help(effectiveMode, parsed.key), effectiveMode, ""));
    }
    var nuanceConfig: Option<string> := None;
    if (effectiveMode == BypassNuance || effectiveMode == RAGNuance) && parsed.key != "" {
      var nuance := lookup(parsed.key);
      if nuance.Nuance? {
        nuanceConfig := Some(nuance.key);
      }
    }
    match effectiveMode {
      case Bypass =>
        result := ExecuteBypass(parsed.clean, None, answers);
      case BypassNuance =>
        result := ExecuteBypass(parsed.clean, nuanceConfig, answers);
        if result.Some? {
          result := Some(result.value.(mode := BypassNuance));
          result := Some(result.value.(key := parsed.key));
        }
      case RAGNuance =>
        result := ExecuteRAG(parsed.clean, RAGNuance, answers);
        if result.Some? {
          result := Some(result.value.(key := parsed.key));
        }
      case RAG =>
        result := ExecuteRAG(parsed.clean, RAG, answers);
    }
  }

  // ---------------------------------------------------------------- the sticky mode

  /**
   The notes a turn names: none, a list sent along, or references inside the text. Inline references
   are taken out of the text, which leaves `clean`, whether or not one of them can be resolved.
   */
  datatype References = NoReferences | Listed(anyFound: bool) | Inline(clean: string, anyFound: bool)

  /** What one turn brings: the text as typed, its references, and what the lookups and the pipeline answer. */
  datatype Turn = Turn(typed: string, references: References, lookup: string -> Lookup, answers: Pipeline)

  /** A turn with a note that can be read does not reach the router. */
  predicate Explicit(turn: Turn) {
    !turn.references.NoReferences? && turn.references.anyFound
  }

  /** The text that reaches the router. */
  function Routed(turn: Turn): string {
    if turn.references.Inline? then turn.references.clean else turn.typed
  }

  predicate Answered(turn: Turn, sessionMode: string) {
    var reply := ReplyFor(Routed(turn), sessionMode, turn.lookup);
    !Explicit(turn) && (reply.Help? || turn.answers(reply))
  }

  /** The stored mode after a turn. */
  function NextMode(sessionMode: string, turn: Turn): string {
    var mode := EffectiveMode(Parse(Routed(turn)).mode, sessionMode);
    if Answered(turn, sessionMode) && mode != RAG then ModeName(mode) else sessionMode
  }

  /** One conversation's entry in the in-memory session store. */
  class SessionEntry {
    var found: bool
    var mode: string

    constructor ()
      ensures !found && mode == ""
    {
      found, mode := false, "";
    }

    function SessionMode(): string
      reads this
    {
      if found then mode else ""
    }

    /** executePipeline: the mode its history is loaded under, and the mode that the router reports. */
    method ExecutePipeline(turn: Turn) returns (history: string, reported: Option<Mode>)
      modifies this
      ensures history == HistoryMode(turn.typed, old(SessionMode()))
      ensures SessionMode() == NextMode(old(SessionMode()), turn)
      ensures reported == if Answered(turn, old(SessionMode()))
                          then Some(EffectiveMode(Parse(Routed(turn)).mode, old(SessionMode()))) else None
    {
      var sessionMode := "";
      if found {
        sessionMode := mode;
      }
      history := ModeName(Parse(turn.typed).mode);
      if sessionMode == "BYPASS" {
        history := "BYPASS";
      } else if sessionMode == "NUANCE" {
        history := "NUANCE";
      }
      reported := None;
      var chat, explicitNotes := turn.typed, false;
      match turn.references {
        case NoReferences =>
        case Listed(anyFound) => explicitNotes := anyFound;
        case Inline(clean, anyFound) => chat, explicitNotes := clean, anyFound;
      }
      if explicitNotes {
        return;
      }
      var result := Execute(chat, sessionMode, turn.lookup, turn.answers);
      if result.None? {
        return;
      }
      PersistMode(result.value.mode);
      reported := Some(result.value.mode);
    }

    /** The end of executePipeline: any mode but RAG is stored. */
    method PersistMode(m: Mode)
      modifies this
      ensures SessionMode() == if m == RAG then old(SessionMode()) else ModeName(m)
    {
      if m == Bypass || m == BypassNuance || m == RAGNuance {
        var newMode := ModeName(m);
        if SessionMode() != newMode {
          if !found {
            found := true;
          }
          mode := newMode;
        }
      }
    }
  }

  /** The modes the router reports over a conversation; turns without a router result report nothing. */
  function Reported(sessionMode: string, turns: seq<Turn>): seq<Mode>
    decreases |turns|
  {
    if turns == [] then []
    else
      (if Answered(turns[0], sessionMode) then [EffectiveMode(Parse(Routed(turns[0])).mode, sessionMode)] else [])
      + Reported(NextMode(sessionMode, turns[0]), turns[1..])
  }

  /** Some turns in RAG mode, then one other mode for ever. */
  ghost predicate RAGThenOneMode(modes: seq<Mode>) {
    exists k: nat, m: Mode :: SwitchesAt(modes, k, m)
  }

  predicate SwitchesAt(modes: seq<Mode>, k: nat, m: Mode) {
    m != RAG && k <= |modes| && (forall i :: 0 <= i < k ==> modes[i] == RAG) && (forall i :: k <= i < |modes| ==> modes[i] == m)
  }

  lemma {:induction false} LockedForever(m: Mode, turns: seq<Turn>)
    requires m != RAG
    ensures forall i :: 0 <= i < |Reported(ModeName(m), turns)| ==> Reported(ModeName(m), turns)[i] == m
    decreases |turns|
  {
    if turns != [] {
      LockedForever(m, turns[1..]);
    }
  }

  /** Over any conversation in one session the reported modes switch at most once, from RAG to one other mode. */
  lemma {:induction false} ModeIsSticky(sessionMode: string, turns: seq<Turn>)
    requires !IsLock(sessionMode)
    ensures RAGThenOneMode(Reported(sessionMode, turns))
    decreases |turns|
  {
    var modes := Reported(sessionMode, turns);
    if turns == [] {
      assert SwitchesAt(modes, 0, Bypass);
    } else {
      var m := EffectiveMode(Parse(Routed(turns[0])).mode, sessionMode);
      var rest := Reported(NextMode(sessionMode, turns[0]), turns[1..]);
      if Answered(turns[0], sessionMode) && m != RAG {
        LockedForever(m, turns[1..]);
        assert SwitchesAt(modes, 0, m);
      } else {
        ModeIsSticky(sessionMode, turns[1..]);
        var k: nat, other: Mode :| SwitchesAt(rest, k, other);
        if Answered(turns[0], sessionMode) {
          assert modes == [RAG] + rest;
          assert SwitchesAt(modes, k + 1, other);
        } else {
          assert modes == rest;
        }
      }
    }
  }

  /** The mode under which executePipeline loads the history: it parses the text as typed, and knows a lock that is never stored. */
  function HistoryMode(typed: string, sessionMode: string): string {
    if sessionMode == "BYPASS" then "BYPASS"
    else if sessionMode == "NUANCE" then "NUANCE"
    else ModeName(Parse(typed).mode)
  }

  lemma ModeNamesDiffer(a: Mode, b: Mode)
    ensures ModeName(a) == ModeName(b) <==> a == b
  {
    assert ModeName(RAG)[0] == 'R' && ModeName(Bypass)[0] == 'B';
    assert |ModeName(RAG)| == 3 && |ModeName(Bypass)| == 6 && |ModeName(BypassNuance)| == 13 && |ModeName(RAGNuance)| == 10;
  }

  /**
   History and router disagree exactly in a session without a lock when taking references out of the
   text changes its mode, and in a nuance session when the text is not typed with its prefix.
   */
  lemma HistoryModeDisagreesIff(turn: Turn, sessionMode: string)
    requires sessionMode == "" || IsLock(sessionMode)
    ensures HistoryMode(turn.typed, sessionMode) != ModeName(EffectiveMode(Parse(Routed(turn)).mode, sessionMode))
       <==> if sessionMode == "" then Parse(turn.typed).mode != Parse(Routed(turn)).mode
            else sessionMode != "BYPASS" && ModeName(Parse(turn.typed).mode) != sessionMode
  {
    ModeNamesDiffer(Parse(turn.typed).mode, Parse(Routed(turn)).mode);
    ModeNamesDiffer(Parse(turn.typed).mode, EffectiveMode(Parse(Routed(turn)).mode, sessionMode));
  }

  /** A command behind a reference that cannot be resolved: history for RAG, a bypass from the router. */
  lemma CommandBehindReference(turn: Turn)
    requires turn.typed == "[[x]] /bypass hi" && turn.references == Inline("/bypass hi", false)
    ensures HistoryMode(turn.typed, "") == "RAG" && EffectiveMode(Parse(Routed(turn)).mode, "") == Bypass
  {
    NoCommand(turn.typed);
    assert Print(Bypass, "", "hi") == "/bypass hi";
    RoundTripBypass("hi");
  }

  /** Every command begins with a slash. */
  lemma NoCommand(s: string)
    requires s != "" && !IsSpace(s[0]) && s[0] != '/' && !IsSpace(s[|s| - 1])
    requires LowerChar(s[0]) != '/'
    ensures Parse(s).mode == RAG
  {
    TrimIsTrimmed(s);
    assert Lower(s)[0] != '/';
  }
}
