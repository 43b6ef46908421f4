/** The automaton never reaches its internal errors, and what it accepts can be printed. */
module JsonParsing {
  import opened Wrappers
  import opened OrderedJson
  import opened JsonAutomaton

  /** What a step must keep; a step that is not done leaves less to do for the same byte. */
  ghost predicate Keeps(p: Parser, prev: char, c: char, r: Step) {
    match r
    case Stop(f) => !Internal(f)
    case Next(q, done) => Inv(q, if done then c else prev) && (!done ==> Rank(q) < Rank(p))
  }

  lemma OpenExtends(b: string, c: char)
    requires Open(b) && !(c == '"' && b[|b| - 1] != '\\')
    ensures Open(b + [c])
  {
  }

  /** The first quote after an unescaped byte closes the text. */
  lemma OpenCloses(b: string)
    requires Open(b) && b[|b| - 1] != '\\'
    ensures Closed(b + ['"'])
    ensures Finalize(b + ['"']) == Some(JString(b[1..]))
  {
    var t := b + ['"'];
    var inner := t[1..|t| - 1];
    assert inner == b[1..];
    forall i | 0 <= i < |inner| && inner[i] == '"'
      ensures i > 0 && inner[i - 1] == '\\'
    {
      assert b[i + 1] == '"' && b[i] == '\\';
    }
  }

  lemma SingleKeeps(p: Parser, prev: char, c: char)
    requires Inv(p, prev) && p.stack != [] && Top(p.stack).Single?
    ensures Keeps(p, prev, c, StepSingle(p, Top(p.stack), prev, c))
  {
    hide Open, Closed, Printable, Finalize;
    var s := Top(p.stack);
    var b := s.buffer;
    if b != "" && s.stringEscape {
      if c == '"' && prev != '\\' {
        OpenCloses(b);
        FinishKeeps(p, prev, c, b + [c], true);
      } else {
        OpenExtends(b, c);
        BufferGrows(p, prev, c, Single(b + [c], true));
      }
    } else if b != "" && (c == ']' || c == '}' || c == ',' || IsWhitespace(c)) {
      FinishKeeps(p, prev, c, b, false);
    } else if b == "" {
      OpenStarts();
      BufferGrows(p, prev, c, Single([c], c == '"'));
    } else {
      BufferGrows(p, prev, c, Single(b + [c], false));
    }
  }

  /** A finished text is a printable value, or is refused. */
  lemma FinalizePrintable(text: string)
    requires text != "" && (Closed(text) || text[0] != '"')
    ensures Finalize(text).Some? ==> Printable(Finalize(text).value)
  {
  }

  lemma FinishKeeps(p: Parser, prev: char, c: char, text: string, done: bool)
    requires Inv(p, prev) && p.stack != [] && Top(p.stack).Single? && Top(p.stack).buffer != ""
    requires text != "" && (Closed(text) || text[0] != '"')
    ensures Keeps(p, prev, c, FinishSingle(p, text, done))
  {
    hide Printable, Finalize, Closed, StateOk;
    FinalizePrintable(text);
    assert |p.stack| > 1 ==> Receives(Pop(p.stack));
  }

  lemma OpenStarts()
    ensures Open(['"'])
  {
  }

  lemma BufferGrows(p: Parser, prev: char, c: char, x: State)
    requires Inv(p, prev) && p.stack != [] && Top(p.stack).Single?
    requires x.Single? && StateOk(x) && x.buffer != "" && x.buffer[|x.buffer| - 1] == c
    ensures Inv(p.(stack := ReplaceTop(p.stack, x)), c)
  {
    ReplaceTopOk(p.stack, x);
  }

  lemma PushOk(s: seq<State>, x: State)
    requires StackOk(s) && StateOk(x)
    requires if s == [] then !x.KeyValue? else MayCover(Top(s), x)
    ensures StackOk(Push(s, x))
  {
  }

  lemma ReplaceTopOk(s: seq<State>, x: State)
    requires StackOk(s) && s != [] && StateOk(x) && (x.KeyValue? <==> Top(s).KeyValue?)
    ensures StackOk(ReplaceTop(s, x))
  {
  }

  lemma ListKeeps(p: Parser, prev: char, c: char)
    requires Inv(p, prev) && p.stack != [] && Top(p.stack).InList?
    ensures Keeps(p, prev, c, StepList(p, Top(p.stack), c))
  {
    var s := Top(p.stack);
    var items := if p.pending.Some? then s.list + [p.pending.value] else s.list;
    assert Printable(JList(items));
    ReplaceTopOk(p.stack, InList(items));
    PushOk(ReplaceTop(p.stack, InList(items)), Placeholder);
  }

  lemma MapKeeps(p: Parser, prev: char, c: char)
    requires Inv(p, prev) && p.stack != [] && Top(p.stack).InMap?
    ensures Keeps(p, prev, c, StepMap(p, Top(p.stack), c))
  {
  }

  lemma PutKeeps(m: OrderedMap, key: string, value: Json)
    requires MapOk(m) && Quotable(key) && Printable(value)
    ensures MapOk(Put(m, key, value)) && Put(m, key, value).orderedKV != []
  {
    if key !in m.keySet {
      var kv := m.orderedKV + [Entry(key, value)];
      forall i | 0 <= i < |m.orderedKV|
        ensures m.orderedKV[i].key != key
      {
        assert m.orderedKV[i] in m.orderedKV;
      }
      assert forall e :: e in kv <==> e in m.orderedKV || e == Entry(key, value);
    } else {
      var e :| e in m.orderedKV && e.key == key;
    }
  }

  lemma KeyKeeps(p: Parser, prev: char, c: char)
    requires Inv(p, prev) && p.stack != [] && Top(p.stack).KeyValue? && Top(p.stack).phase == 0
    ensures Keeps(p, prev, c, StepKeyValue(p, Top(p.stack), prev, c))
  {
    var b := Top(p.stack).keyBuffer;
    if b == "" {
      if c == '"' {
        ReplaceTopOk(p.stack, KeyValue([c], 0));
      }
    } else if c == '"' && prev != '\\' {
      OpenCloses(b);
      ReplaceTopOk(p.stack, KeyValue(b + [c], 1));
    } else {
      OpenExtends(b, c);
      ReplaceTopOk(p.stack, KeyValue(b + [c], 0));
    }
  }

  lemma ColonKeeps(p: Parser, prev: char, c: char)
    requires Inv(p, prev) && p.stack != [] && Top(p.stack).KeyValue? && Top(p.stack).phase == 1
    ensures Keeps(p, prev, c, StepKeyValue(p, Top(p.stack), prev, c))
  {
    var full := Top(p.stack).(phase := 2);
    ReplaceTopOk(p.stack, full);
    PushOk(ReplaceTop(p.stack, full), Placeholder);
  }

  lemma EntryKeeps(p: Parser, prev: char, c: char)
    requires Inv(p, prev) && p.stack != [] && Top(p.stack).KeyValue? && Top(p.stack).phase == 2
    ensures Keeps(p, prev, c, StepKeyValue(p, Top(p.stack), prev, c))
  {
    var b := Top(p.stack).keyBuffer;
    var below := Pop(p.stack);
    assert |p.stack| > 1 && Top(below).InMap? && StackOk(below);
    var m := Put(Top(below).currentMap, b[1..|b| - 1], p.pending.value);
    PutKeeps(Top(below).currentMap, b[1..|b| - 1], p.pending.value);
    ReplaceTopOk(below, InMap(m));
  }

  /** Every inner step keeps the invariant and reports no internal error. */
  lemma PlaceholderKeeps(p: Parser, prev: char, c: char)
    requires Inv(p, prev) && p.stack != [] && Top(p.stack).Placeholder?
    ensures Keeps(p, prev, c, StepPlaceholder(p, c))
  {
  }

  lemma StepKeeps(p: Parser, prev: char, c: char)
    requires Inv(p, prev)
    ensures Keeps(p, prev, c, StepOn(p, prev, c))
  {
    hide Printable, Finalize, MapOk, Open, Closed;
    if p.stack != [] {
      var s := Top(p.stack);
      match s
      case Placeholder => PlaceholderKeeps(p, prev, c);
      case Single(_, _) => SingleKeeps(p, prev, c);
      case InList(_) => ListKeeps(p, prev, c);
      case InMap(_) => MapKeeps(p, prev, c);
      case KeyValue(_, phase) =>
        if phase == 0 {
          KeyKeeps(p, prev, c);
        } else if phase == 1 {
          ColonKeeps(p, prev, c);
        } else {
          EntryKeeps(p, prev, c);
        }
    }
  }

  // ---------------------------------------------------------------- bytes and inputs

  datatype Running = Running(parser: Parser, prev: char) | Failed(failure: Failure)

  ghost predicate Healthy(r: Running) {
    match r
    case Running(p, prev) => Inv(p, prev)
    case Failed(f) => !Internal(f)
  }

  /** One byte: inner steps until one is done. */
  function Consume(p: Parser, prev: char, c: char): (r: Running)
    requires Inv(p, prev)
    ensures Healthy(r) && (r.Running? ==> r.prev == c)
    decreases Rank(p)
  {
    StepKeeps(p, prev, c);
    match StepOn(p, prev, c)
    case Stop(f) => Failed(f)
    case Next(q, done) => if done then Running(q, c) else Consume(q, prev, c)
  }

  function Feed(r: Running, input: string): (q: Running)
    requires Healthy(r)
    ensures Healthy(q)
    decreases |input|
  {
    if input == "" || r.Failed? then r else Feed(Consume(r.parser, r.prev, input[0]), input[1..])
  }

  lemma {:induction false} FeedConcat(r: Running, a: string, b: string)
    requires Healthy(r)
    ensures Feed(r, a + b) == Feed(Feed(r, a), b)
    decreases |a|
  {
    if a == "" {
      assert a + b == b;
    } else if r.Running? {
      assert (a + b)[1..] == a[1..] + b;
      FeedConcat(Consume(r.parser, r.prev, a[0]), a[1..], b);
    }
  }

  const START := Parser([Placeholder], None)

  datatype Result = Accepted(tree: Json) | Rejected(failure: Failure)

  function Outcome(r: Running): (result: Result)
    requires Healthy(r)
    ensures match result
            case Accepted(tree) => Printable(tree)
            case Rejected(f) => !Internal(f)
  {
    match r
    case Failed(f) => Rejected(f)
    case Running(p, _) => if p.stack != [] then Rejected(UnfinishedInput) else Accepted(p.pending.value)
  }

  /** The parser as a function of its input: on every input the internal-error branches are
      unreachable, and a tree that is accepted can be printed and parsed back. */
  function Parse(input: string): (result: Result)
    ensures match result
            case Accepted(tree) => Printable(tree)
            case Rejected(f) => !Internal(f)
  {
    Outcome(Feed(Running(START, ' '), input))
  }
}
