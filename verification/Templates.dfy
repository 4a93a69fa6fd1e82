/**
 The template engine of buildNotification in internal/service/notification_service.go: one
 strings.ReplaceAll for each entry of the payload, in the order in which Go happens to range over the map.
 */
module Templates {

  /** strings.ReplaceAll for a non-empty pattern: matches do not overlap and are taken from the left. */
  function ReplaceAll(s: string, pattern: string, value: string): string
    requires pattern != ""
  {
    if |s| < |pattern| then s
    else if s[..|pattern|] == pattern then value + ReplaceAll(s[|pattern|..], pattern, value)
    else [s[0]] + ReplaceAll(s[1..], pattern, value)
  }

  function Placeholder(name: string): string {
    "{" + name + "}"
  }

  /** The template after replacing the placeholders of `order`, one name after the other. */
  function Substitute(template: string, order: seq<string>, values: map<string, string>): string
    requires forall i :: 0 <= i < |order| ==> order[i] in values
  {
    if order == [] then template
    else
      var name := order[|order| - 1];
      ReplaceAll(Substitute(template, order[..|order| - 1], values), Placeholder(name), values[name])
  }

  /** `order` names every key once. */
  predicate Enumerates(order: seq<string>, keys: set<string>) {
    && (forall i :: 0 <= i < |order| ==> order[i] in keys)
    && (forall key :: key in keys ==> key in order)
    && (forall i, j :: 0 <= i < j < |order| ==> order[i] != order[j])
  }

  method BuildMessage(template: string, values: map<string, string>) returns (msg: string)
    ensures exists order :: Enumerates(order, values.Keys) && msg == Substitute(template, order, values)
  {
    msg := template;
    var remaining := values.Keys;
    ghost var order := [];
    while remaining != {}
      invariant remaining <= values.Keys && Enumerates(order, values.Keys - remaining)
      invariant msg == Substitute(template, order, values)
      decreases remaining
    {
      var name :| name in remaining;
      assert (order + [name])[..|order|] == order;
      msg := ReplaceAll(msg, Placeholder(name), values[name]);
      order := order + [name];
      remaining := remaining - {name};
    }
    assert Enumerates(order, values.Keys);
  }

  // ---------------------------------------------------------------- templates with slots

  datatype Segment = Lit(s: string) | Slot(name: string)

  /** Free of braces. */
  predicate Plain(s: string) {
    forall i :: 0 <= i < |s| ==> s[i] != '{' && s[i] != '}'
  }

  /** No brace occurs but as part of a slot. */
  predicate PlainSegments(segments: seq<Segment>) {
    forall i :: 0 <= i < |segments| ==> if segments[i].Lit? then Plain(segments[i].s) else Plain(segments[i].name)
  }

  predicate PlainValues(values: map<string, string>) {
    forall key :: key in values ==> Plain(key) && Plain(values[key])
  }

  function ShowOne(segment: Segment): string {
    if segment.Lit? then segment.s else Placeholder(segment.name)
  }

  function Show(segments: seq<Segment>): string {
    if segments == [] then "" else ShowOne(segments[0]) + Show(segments[1..])
  }

  function FillOne(segment: Segment, keys: set<string>, values: map<string, string>): Segment
    requires keys <= values.Keys
  {
    if segment.Slot? && segment.name in keys then Lit(values[segment.name]) else segment
  }

  /** All slots with a name in `keys` filled at once. */
  function Fill(segments: seq<Segment>, keys: set<string>, values: map<string, string>): (r: seq<Segment>)
    requires keys <= values.Keys
    ensures |r| == |segments|
    ensures forall i :: 0 <= i < |segments| ==> r[i] == FillOne(segments[i], keys, values)
  {
    seq(|segments|, i requires 0 <= i < |segments| => FillOne(segments[i], keys, values))
  }

  lemma StepOver(s: string, pattern: string, value: string)
    requires s != "" && pattern != "" && (|pattern| <= |s| ==> s[..|pattern|] != pattern)
    ensures ReplaceAll(s, pattern, value) == [s[0]] + ReplaceAll(s[1..], pattern, value)
  {
    assert s == [s[0]] + s[1..];
  }

  lemma Match(pattern: string, rest: string, value: string)
    requires pattern != ""
    ensures ReplaceAll(pattern + rest, pattern, value) == value + ReplaceAll(rest, pattern, value)
  {
    var s := pattern + rest;
    assert s[..|pattern|] == pattern && s[|pattern|..] == rest;
  }

  /** A match begins with a brace, so text without one is passed over. */
  lemma {:induction false} PassOver(text: string, rest: string, pattern: string, value: string)
    requires pattern != "" && pattern[0] == '{'
    requires forall i :: 0 <= i < |text| ==> text[i] != '{'
    ensures ReplaceAll(text + rest, pattern, value) == text + ReplaceAll(rest, pattern, value)
  {
    if text == "" {
      assert text + rest == rest;
    } else {
      var s := text + rest;
      PassOver(text[1..], rest, pattern, value);
      FirstOff(text, rest, ReplaceAll(rest, pattern, value));
      assert s[0] != pattern[0];
      StepOver(s, pattern, value);
    }
  }

  lemma FirstOff(text: string, rest: string, replaced: string)
    requires text != ""
    ensures (text + rest)[0] == text[0] && (text + rest)[1..] == text[1..] + rest
    ensures [text[0]] + (text[1..] + replaced) == text + replaced
  {
  }

  /** The placeholder of another name is no match: the closing brace comes at another place, or a character differs. */
  lemma OtherSlot(slot: string, rest: string, name: string)
    requires Plain(slot) && Plain(name) && slot != name
    ensures
      var s, pattern := Placeholder(slot) + rest, Placeholder(name);
      |pattern| <= |s| ==> s[..|pattern|] != pattern
  {
    var s, pattern := Placeholder(slot) + rest, Placeholder(name);
    var i := FirstDifference(slot, name);
    if |pattern| <= |s| {
      assert s[..|pattern|][i + 1] == s[i + 1] != pattern[i + 1];
    }
  }

  /** The place where two names differ, the closing brace counted in. */
  lemma FirstDifference(slot: string, name: string) returns (i: nat)
    requires Plain(slot) && Plain(name) && slot != name
    ensures i <= |slot| && i <= |name|
    ensures Placeholder(slot)[i + 1] != Placeholder(name)[i + 1]
  {
    if |slot| < |name| {
      i := |slot|;
    } else if |name| < |slot| {
      i := |name|;
    } else {
      i :| 0 <= i < |slot| && slot[i] != name[i];
    }
  }

  lemma ReplaceSlot(slot: string, rest: string, name: string, value: string)
    requires Plain(slot) && Plain(name)
    ensures ReplaceAll(Placeholder(slot) + rest, Placeholder(name), value)
         == (if slot == name then value else Placeholder(slot)) + ReplaceAll(rest, Placeholder(name), value)
  {
    if slot == name {
      Match(Placeholder(name), rest, value);
    } else {
      OtherSlot(slot, rest, name);
      StepOver(Placeholder(slot) + rest, Placeholder(name), value);
      assert (Placeholder(slot) + rest)[1..] == (slot + "}") + rest;
      PassOver(slot + "}", rest, Placeholder(name), value);
      Regroup(slot + "}", ReplaceAll(rest, Placeholder(name), value));
    }
  }

  lemma Regroup(middle: string, rest: string)
    ensures "{" + (middle + rest) == ("{" + middle) + rest
  {
  }

  /** One ReplaceAll fills the slots of one name. */
  lemma {:induction false} ReplaceFills(segments: seq<Segment>, name: string, values: map<string, string>)
    requires PlainSegments(segments) && Plain(name) && name in values
    ensures ReplaceAll(Show(segments), Placeholder(name), values[name]) == Show(Fill(segments, {name}, values))
  {
    if segments != [] {
      var first, rest := segments[0], segments[1..];
      ReplaceFills(rest, name, values);
      assert Fill(segments, {name}, values)[1..] == Fill(rest, {name}, values);
      if first.Lit? {
        PassOver(first.s, Show(rest), Placeholder(name), values[name]);
      } else {
        ReplaceSlot(first.name, Show(rest), name, values[name]);
      }
    }
  }

  /**
   One ReplaceAll after the other, in any order, comes to filling all the slots at once: what is
   filled in is not looked at again.
   */
  lemma {:induction false} SubstituteFills(
    segments: seq<Segment>, order: seq<string>, keys: set<string>, values: map<string, string>)
    requires PlainSegments(segments) && PlainValues(values)
    requires keys <= values.Keys && Enumerates(order, keys)
    ensures Substitute(Show(segments), order, values) == Show(Fill(segments, keys, values))
  {
    if order == [] {
      FillNothing(segments, keys, values);
    } else {
      var name, before := order[|order| - 1], order[..|order| - 1];
      var others := keys - {name};
      EnumeratesOthers(order, keys);
      SubstituteFills(segments, before, others, values);
      FillOneMore(segments, others, name, values);
      ReplaceFills(Fill(segments, others, values), name, values);
      assert others + {name} == keys;
    }
  }

  lemma FillNothing(segments: seq<Segment>, keys: set<string>, values: map<string, string>)
    requires keys <= values.Keys && Enumerates([], keys)
    ensures Fill(segments, keys, values) == segments
  {
    assert forall key :: key in keys ==> key in [];
  }

  lemma EnumeratesOthers(order: seq<string>, keys: set<string>)
    requires order != [] && Enumerates(order, keys)
    ensures order[|order| - 1] in keys && Enumerates(order[..|order| - 1], keys - {order[|order| - 1]})
  {
    var before := order[..|order| - 1];
    forall key | key in keys && key != order[|order| - 1] ensures key in before {
      assert key in order;
    }
  }

  /** Filling other slots and then one more; plain values bring no new slots. */
  lemma FillOneMore(segments: seq<Segment>, others: set<string>, name: string, values: map<string, string>)
    requires PlainSegments(segments) && PlainValues(values)
    requires others <= values.Keys && name in values
    ensures PlainSegments(Fill(segments, others, values))
    ensures Fill(Fill(segments, others, values), {name}, values) == Fill(segments, others + {name}, values)
  {
  }

  /** The message does not depend on the order in which Go ranges over the payload. */
  lemma OrderIsIrrelevant(segments: seq<Segment>, a: seq<string>, b: seq<string>, values: map<string, string>)
    requires PlainSegments(segments) && PlainValues(values)
    requires Enumerates(a, values.Keys) && Enumerates(b, values.Keys)
    ensures Substitute(Show(segments), a, values) == Substitute(Show(segments), b, values)
  {
    SubstituteFills(segments, a, values.Keys, values);
    SubstituteFills(segments, b, values.Keys, values);
  }

  /** With a brace in a value the order shows: what was filled in may itself be replaced, or not. */
  lemma OrderMattersForBraces()
    ensures
      var values := map["a" := "{b}", "b" := "x"];
      && Enumerates(["a", "b"], values.Keys) && Enumerates(["b", "a"], values.Keys)
      && Substitute("{a}", ["a", "b"], values) == "x"
      && Substitute("{a}", ["b", "a"], values) == "{b}"
  {
    var values := map["a" := "{b}", "b" := "x"];
    assert "{a}" == Placeholder("a") && "{b}" == Placeholder("b");
    Whole("a", "{b}");
    Whole("b", "x");
    Last("{a}", [], "a", values);
    Last("{a}", ["a"], "b", values);
    Last("{a}", [], "b", values);
    Last("{a}", ["b"], "a", values);
    ReplaceSlot("a", "", "b", "x");
    assert Placeholder("a") + "" == "{a}";
  }

  lemma Last(template: string, order: seq<string>, name: string, values: map<string, string>)
    requires name in values && forall i :: 0 <= i < |order| ==> order[i] in values
    ensures Substitute(template, order + [name], values)
         == ReplaceAll(Substitute(template, order, values), Placeholder(name), values[name])
  {
    assert (order + [name])[..|order|] == order;
  }

  lemma Whole(name: string, value: string)
    ensures ReplaceAll(Placeholder(name), Placeholder(name), value) == value
  {
    Match(Placeholder(name), "", value);
    assert Placeholder(name) + "" == Placeholder(name);
  }
}
