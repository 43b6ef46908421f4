/** The printer and the parser as they run: a shared builder, a state stack, maps updated in place. */
module JsonCode {
  import opened Wrappers
  import opened OrderedJson
  import opened JsonPrinter
  import opened JsonAutomaton
  import opened JsonParsing

  // ---------------------------------------------------------------- printer

  lemma EntriesTextStep(before: string, es: seq<Entry>, i: nat, indent: nat)
    requires i < |es|
    ensures before + EntriesText(es[i..], indent)
      == if i < |es| - 1 then before + EntryText(es[i], indent) + "," + EntriesText(es[i + 1..], indent)
         else before + EntryText(es[i], indent)
  {
    hide EntryText;
    assert es[i..][0] == es[i] && es[i..][1..] == es[i + 1..];
  }

  lemma ItemsTextStep(before: string, items: seq<Json>, i: nat, indent: nat)
    requires i < |items|
    ensures before + ItemsText(items[i..], indent)
      == if i < |items| - 1 then before + ItemText(items[i], indent) + "," + ItemsText(items[i + 1..], indent)
         else before + ItemText(items[i], indent)
  {
    hide Text, Indent;
    assert items[i..][0] == items[i] && items[i..][1..] == items[i + 1..];
  }

  function ItemText(item: Json, indent: nat): string {
    "\n" + Indent(indent) + Text(item, indent)
  }

  lemma MapText(before: string, j: Json, indent: nat)
    requires j.JMap? && j.entries != []
    ensures before + Text(j, indent)
      == before + "{" + EntriesText(j.entries, indent + 1) + ("\n" + Indent(indent) + "}")
  {
    hide EntriesText, Indent;
  }

  lemma ListText(before: string, j: Json, indent: nat)
    requires j.JList? && j.items != []
    ensures before + Text(j, indent)
      == before + "[" + ItemsText(j.items, indent + 1) + ("\n" + Indent(indent) + "]")
  {
    hide ItemsText, Indent;
  }

  class Builder {
    var content: string

    constructor ()
      ensures content == ""
    {
      content := "";
    }

    method WriteString(s: string)
      modifies this
      ensures content == old(content) + s
    {
      content := content + s;
    }

    method AddIndent(indent: nat)
      modifies this
      ensures content == old(content) + Indent(indent)
    {
      var i := 0;
      while i < indent
        invariant i <= indent
        invariant content + Indent(indent - i) == old(content) + Indent(indent)
      {
        ghost var before := content;
        WriteString("    ");
        assert before + Indent(indent - i) == content + Indent(indent - i - 1);
        i := i + 1;
      }
    }

    method WriteJson(j: Json, indent: nat)
      modifies this
      ensures content == old(content) + Text(j, indent)
      decreases j, 1
    {
      match j
      case JMap(_) => WriteMap(j, indent);
      case JList(_) => WriteList(j, indent);
      case JString(text) => WriteString("\"" + text + "\"");
      case JBool(b) => WriteString(BoolText(b));
    }

    /** One key-value pair on its own line, before the comma. */
    method WriteEntry(e: Entry, indent: nat)
      modifies this
      ensures content == old(content) + EntryText(e, indent)
      decreases e, 2
    {
      WriteString("\n");
      AddIndent(indent);
      WriteString("\"");
      WriteString(e.key);
      WriteString("\": ");
      ghost var head := "\n" + Indent(indent) + "\"" + e.key + "\": ";
      assert content == old(content) + head;
      WriteJson(e.value, indent);
      assert content == old(content) + (head + Text(e.value, indent));
    }

    method WriteItem(item: Json, indent: nat)
      modifies this
      ensures content == old(content) + ItemText(item, indent)
      decreases item, 2
    {
      WriteString("\n");
      AddIndent(indent);
      WriteJson(item, indent);
    }

    method WriteEnd(indent: nat, bracket: string)
      modifies this
      ensures content == old(content) + ("\n" + Indent(indent) + bracket)
    {
      WriteString("\n");
      AddIndent(indent);
      WriteString(bracket);
    }

    method WriteMap(j: Json, indent: nat)
      requires j.JMap?
      modifies this
      ensures content == old(content) + Text(j, indent)
      decreases j, 0
    {
      var es := j.entries;
      if |es| == 0 {
        WriteString("{}");
        return;
      }
      hide Text, EntriesText, Indent, EntryText;
      MapText(content, j, indent);
      WriteString("{");
      ghost var start := content;
      assert es[0..] == es;
      var i := 0;
      while i < |es|
        invariant i <= |es|
        invariant (if i < |es| then content + EntriesText(es[i..], indent + 1) else content)
                  == start + EntriesText(es, indent + 1)
      {
        EntriesTextStep(content, es, i, indent + 1);
        WriteEntry(es[i], indent + 1);
        if i < |es| - 1 {
          WriteString(",");
        }
        i := i + 1;
      }
      WriteEnd(indent, "}");
    }

    method WriteList(j: Json, indent: nat)
      requires j.JList?
      modifies this
      ensures content == old(content) + Text(j, indent)
      decreases j, 0
    {
      var items := j.items;
      if |items| == 0 {
        WriteString("[]");
        return;
      }
      hide Text, ItemsText, Indent, ItemText;
      ListText(content, j, indent);
      WriteString("[");
      ghost var start := content;
      assert items[0..] == items;
      var i := 0;
      while i < |items|
        invariant i <= |items|
        invariant (if i < |items| then content + ItemsText(items[i..], indent + 1) else content)
                  == start + ItemsText(items, indent + 1)
      {
        ItemsTextStep(content, items, i, indent + 1);
        WriteItem(items[i], indent + 1);
        if i < |items| - 1 {
          WriteString(",");
        }
        i := i + 1;
      }
      WriteEnd(indent, "]");
    }
  }

  method Print(j: Json) returns (s: string)
    ensures s == JSONString(j)
  {
    var sb := new Builder();
    sb.WriteJson(j, 0);
    sb.WriteString("\n");
    s := sb.content;
  }

  // ---------------------------------------------------------------- maps under construction

  class OJsonMap {
    var keySet: set<string>
    var orderedKV: seq<Entry>

    ghost function View(): OrderedMap
      reads this
    {
      OrderedMap(keySet, orderedKV)
    }

    constructor ()
      ensures View() == EMPTY_MAP
    {
      keySet, orderedKV := {}, [];
    }

    method Put(key: string, value: Json)
      modifies this
      ensures View() == JsonAutomaton.Put(old(View()), key, value)
    {
      if key !in keySet {
        keySet := keySet + {key};
        orderedKV := orderedKV + [Entry(key, value)];
      }
    }

    method RefreshKeySet()
      modifies this`keySet
      ensures keySet == set e | e in orderedKV :: e.key
    {
      keySet := {};
      var i := 0;
      while i < |orderedKV|
        invariant 0 <= i <= |orderedKV|
        invariant keySet == set e | e in orderedKV[..i] :: e.key
      {
        assert orderedKV[..i + 1] == orderedKV[..i] + [orderedKV[i]];
        keySet := keySet + {orderedKV[i].key};
        i := i + 1;
      }
      assert orderedKV[..i] == orderedKV;
    }
  }

  // ---------------------------------------------------------------- parser

  class JsonParser {
    var stack: seq<State>
    var pendingResult: Option<Json>

    ghost function View(): Parser
      reads this
    {
      Parser(stack, pendingResult)
    }

    constructor ()
      ensures View() == START
    {
      stack := [Placeholder];
      pendingResult := None;
    }

    method PushState(s: State)
      modifies this`stack
      ensures stack == Push(old(stack), s)
    {
      stack := stack + [s];
    }

    method PopState() returns (s: State)
      requires stack != []
      modifies this`stack
      ensures s == Top(old(stack)) && stack == Pop(old(stack))
    {
      s := stack[|stack| - 1];
      stack := stack[..|stack| - 1];
    }

    method ReplaceTopState(s: State)
      requires stack != []
      modifies this`stack
      ensures stack == ReplaceTop(old(stack), s)
    {
      stack := stack[..|stack| - 1] + [s];
    }

    // Each handler leaves the parser as the automaton's step says, or reports its failure.

    method OnPlaceholder(c: char) returns (done: bool, failure: Option<Failure>)
      requires stack != [] && Top(stack).Placeholder?
      modifies this
      ensures old(StepPlaceholder(View(), c)) == if failure.Some? then Stop(failure.value) else Next(View(), done)
    {
      done, failure := true, None;
      if pendingResult.Some? {
        failure := Some(InvalidState);
      } else if IsWhitespace(c) {
      } else if c == '{' {
        ReplaceTopState(InMap(EMPTY_MAP));
      } else if c == '[' {
        ReplaceTopState(InList([]));
      } else if c == ']' || c == '}' || c == ',' {
        failure := Some(MisplacedCharacter);
      } else {
        ReplaceTopState(Single("", false));
        done := false;
      }
    }

    method OnSingle(prev: char, c: char) returns (done: bool, failure: Option<Failure>)
      requires stack != [] && Top(stack).Single?
      modifies this
      ensures old(StepSingle(View(), Top(stack), prev, c))
              == if failure.Some? then Stop(failure.value) else Next(View(), done)
    {
      done, failure := true, None;
      var s := stack[|stack| - 1];
      if s.buffer == "" {
        ReplaceTopState(Single([c], c == '"'));
      } else if s.stringEscape {
        if c == '"' && prev != '\\' {
          failure := FinishValue(s.buffer + [c]);
        } else {
          ReplaceTopState(Single(s.buffer + [c], true));
        }
      } else if c == ']' || c == '}' || c == ',' || IsWhitespace(c) {
        failure := FinishValue(s.buffer);
        done := false;
      } else {
        ReplaceTopState(Single(s.buffer + [c], false));
      }
    }

    method FinishValue(text: string) returns (failure: Option<Failure>)
      requires stack != []
      modifies this
      ensures match Finalize(text)
              case Some(j) => failure == None && View() == Parser(Pop(old(stack)), Some(j))
              case None => failure == Some(InvalidValue)
    {
      var _ := PopState();
      var value := Finalize(text);
      if value.None? {
        return Some(InvalidValue);
      }
      pendingResult := value;
      failure := None;
    }

    method OnList(c: char) returns (done: bool, failure: Option<Failure>)
      requires stack != [] && Top(stack).InList?
      modifies this
      ensures old(StepList(View(), Top(stack), c)) == if failure.Some? then Stop(failure.value) else Next(View(), done)
    {
      done, failure := true, None;
      var items := stack[|stack| - 1].list;
      if pendingResult.Some? {
        items := items + [pendingResult.value];
        pendingResult := None;
      }
      ReplaceTopState(InList(items));
      if IsWhitespace(c) {
      } else if c == ']' {
        var _ := PopState();
        pendingResult := Some(JList(items));
      } else if |items| == 0 {
        PushState(Placeholder);
        done := false;
      } else if c == ',' {
        PushState(Placeholder);
      }
    }

    method OnMap(c: char) returns (done: bool, failure: Option<Failure>)
      requires stack != [] && Top(stack).InMap?
      modifies this
      ensures old(StepMap(View(), Top(stack), c)) == if failure.Some? then Stop(failure.value) else Next(View(), done)
    {
      done, failure := true, None;
      var m := stack[|stack| - 1].currentMap;
      if IsWhitespace(c) {
      } else if c == '}' {
        pendingResult := Some(JMap(m.orderedKV));
        var _ := PopState();
      } else if c == ',' {
        PushState(KeyValue("", 0));
      } else if |m.orderedKV| == 0 {
        PushState(KeyValue("", 0));
        done := false;
      } else {
        failure := Some(InvalidMapState);
      }
    }

    method OnKeyValue(prev: char, c: char) returns (done: bool, failure: Option<Failure>)
      requires stack != [] && Top(stack).KeyValue?
      modifies this
      ensures old(StepKeyValue(View(), Top(stack), prev, c))
              == if failure.Some? then Stop(failure.value) else Next(View(), done)
    {
      done, failure := true, None;
      var s := stack[|stack| - 1];
      if s.phase == 0 {
        if s.keyBuffer == "" {
          if IsWhitespace(c) {
          } else if c != '"' {
            failure := Some(KeyWithoutQuote);
          } else {
            ReplaceTopState(KeyValue([c], 0));
          }
        } else {
          ReplaceTopState(KeyValue(s.keyBuffer + [c], if c == '"' && prev != '\\' then 1 else 0));
        }
      } else if s.phase == 1 {
        if IsWhitespace(c) {
        } else if c == ':' {
          ReplaceTopState(KeyValue(s.keyBuffer, 2));
          PushState(Placeholder);
        } else {
          failure := Some(ColonExpected);
        }
      } else if s.phase == 2 {
        done := false;
        failure := OnEntry();
      } else {
        failure := Some(UnknownPhase);
      }
    }

    /** The finished entry goes into the map underneath. */
    method OnEntry() returns (failure: Option<Failure>)
      requires stack != [] && Top(stack).KeyValue?
      modifies this
      ensures old(StepEntry(View(), Top(stack))) == if failure.Some? then Stop(failure.value) else Next(View(), false)
    {
      var s := stack[|stack| - 1];
      if pendingResult.None? {
        return Some(MissingValue);
      }
      if |s.keyBuffer| < 2 || s.keyBuffer[0] != '"' || s.keyBuffer[|s.keyBuffer| - 1] != '"' {
        return Some(KeyNotEnclosed);
      }
      var key := s.keyBuffer[1..|s.keyBuffer| - 1];
      var _ := PopState();
      if stack == [] || !stack[|stack| - 1].InMap? {
        return Some(NoMapUnderneath);
      }
      ReplaceTopState(InMap(Put(stack[|stack| - 1].currentMap, key, pendingResult.value)));
      pendingResult := None;
      failure := None;
    }

    /** One inner iteration on byte c. */
    method Handle(prev: char, c: char) returns (done: bool, failure: Option<Failure>)
      modifies this
      ensures old(StepOn(View(), prev, c)) == if failure.Some? then Stop(failure.value) else Next(View(), done)
    {
      if stack == [] {
        return true, if IsWhitespace(c) then None else Some(TrailingCharacters);
      }
      match stack[|stack| - 1]
      case Placeholder => done, failure := OnPlaceholder(c);
      case Single(_, _) => done, failure := OnSingle(prev, c);
      case InList(_) => done, failure := OnList(c);
      case InMap(_) => done, failure := OnMap(c);
      case KeyValue(_, _) => done, failure := OnKeyValue(prev, c);
    }

    /** One byte; it takes at most three inner steps. */
    method ConsumeByte(prev: char, c: char) returns (failure: Option<Failure>, ghost steps: nat)
      requires Inv(View(), prev)
      modifies this
      ensures 1 <= steps <= 3
      ensures old(Consume(View(), prev, c)) == if failure.Some? then Failed(failure.value) else Running(View(), c)
    {
      var done := false;
      failure := None;
      steps := 0;
      while !done
        invariant !done ==> Inv(View(), prev) && Consume(View(), prev, c) == old(Consume(View(), prev, c))
        invariant !done ==> steps + Rank(View()) <= 3
        invariant done ==> old(Consume(View(), prev, c)) == Running(View(), c)
        invariant steps <= 3 && failure.None? && (done ==> steps > 0)
        decreases !done, Rank(View())
      {
        StepKeeps(View(), prev, c);
        steps := steps + 1;
        done, failure := Handle(prev, c);
        if failure.Some? {
          return;
        }
      }
    }
  }

  lemma StartOk()
    ensures Inv(START, ' ')
  {
  }

  lemma EmptyStackHasResult(p: Parser, prev: char)
    requires Inv(p, prev) && p.stack == []
    ensures p.pending.Some?
  {
  }

  /** The parser computes the automaton's outcome on every input. */
  method ParseOrderedJSON(input: string) returns (result: Result)
    ensures result == Parse(input)
  {
    StartOk();
    hide Inv, Consume;
    var parser := new JsonParser();
    var i := 0;
    while i < |input|
      invariant 0 <= i <= |input| && fresh(parser)
      invariant Inv(parser.View(), if i == 0 then ' ' else input[i - 1])
      invariant Feed(Running(START, ' '), input)
                == Feed(Running(parser.View(), if i == 0 then ' ' else input[i - 1]), input[i..])
    {
      assert input[i..][0] == input[i] && input[i..][1..] == input[i + 1..];
      ghost var steps;
      var failure;
      failure, steps := parser.ConsumeByte(if i == 0 then ' ' else input[i - 1], input[i]);
      if failure.Some? {
        return Rejected(failure.value);
      }
      i := i + 1;
    }
    if parser.stack != [] {
      return Rejected(UnfinishedInput);
    }
    EmptyStackHasResult(parser.View(), if i == 0 then ' ' else input[i - 1]);
    result := Accepted(parser.pendingResult.value);
  }
}
