/** The exact language of the parser: what it accepts is what the lenient grammar derives. A run is
    followed by the parts of the text it has read so far, one for each state on the stack. */
module JsonLanguage {
  import opened Wrappers
  import opened OrderedJson
  import opened JsonGrammar
  import opened JsonAutomaton
  import opened JsonParsing
  import opened JsonParsesGrammar

  // ---------------------------------------------------------------- parts of a text

  /** The text behind one state: white space before a value, a token, an array or object whose last
      item may have been followed by a comma, or a key. */
  datatype Part =
    | Blanks(before: string)
    | Token(before: string, text: string)
    | ArrayPart(before: string, inner: string, items: seq<Doc>, comma: bool)
    | ObjectPart(before: string, inner: string, members: seq<Member>, comma: bool)
    | KeyPart(before: string, text: string, after: string, colon: bool)

  /** The parts on the stack, and the value that was completed last, if it is still pending. */
  datatype Partial = Partial(parts: seq<Part>, done: Option<Doc>)

  function Comma(comma: bool): string {
    if comma then "," else ""
  }

  function PartText(p: Part): string {
    match p
    case Blanks(before) => before
    case Token(before, text) => before + text
    case ArrayPart(before, inner, items, comma) =>
      before + "[" + (if items == [] then inner else RenderItems(items)) + Comma(comma)
    case ObjectPart(before, inner, members, comma) =>
      before + "{" + (if members == [] then inner else RenderMembers(members)) + Comma(comma)
    case KeyPart(before, text, after, colon) => before + text + after + if colon then ":" else ""
  }

  function PartsText(ps: seq<Part>): string
    decreases |ps|
  {
    if ps == [] then "" else PartsText(ps[..|ps| - 1]) + PartText(ps[|ps| - 1])
  }

  function TextOf(p: Partial): string {
    PartsText(p.parts) + if p.done.Some? then Render(p.done.value) else ""
  }

  // ---------------------------------------------------------------- parts and states

  predicate MembersOk(members: seq<Member>) {
    forall i :: 0 <= i < |members| ==> LenientMember(members[i]) && (Blank(members[i].before) || i == 0)
  }

  predicate ItemsOk(items: seq<Doc>) {
    forall i :: 0 <= i < |items| ==> LenientItem(items[i])
  }

  /** The part is a text of the state. */
  predicate Fits(p: Part, s: State) {
    && Blank(p.before)
    && match s
       case Placeholder => p.Blanks?
       case Single(b, _) => p.Token? && p.text == b
       case InList(list) => p.ArrayPart? && Blank(p.inner) && ItemsOk(p.items) && Trees(p.items) == list
       case InMap(m) => p.ObjectPart? && Blank(p.inner) && MembersOk(p.members) && m == MapOf(p.members)
       case KeyValue(b, phase) =>
         && p.KeyPart? && p.text == b && Blank(p.after)
         && (p.colon <==> phase == 2) && (phase == 0 ==> p.after == "")
  }

  /** Where something lies on top, an item before it was followed by a comma. */
  predicate Covered(p: Part) {
    && (p.ArrayPart? ==> (p.comma <==> p.items != []))
    && (p.ObjectPart? && p.members != [] ==> p.comma)
  }

  /** A boolean that was taken into an array has been ended by the byte after it. */
  predicate Uncovered(p: Part) {
    && ((p.ArrayPart? || p.ObjectPart?) ==> !p.comma)
    && (p.ArrayPart? && p.items != [] && LastItem(p.items).value.Flag? ==> LastItem(p.items).after != "")
  }

  function LastItem(items: seq<Doc>): Doc
    requires items != []
  {
    items[|items| - 1]
  }

  predicate Beneath(ps: seq<Part>, s: seq<State>)
    decreases |s|
  {
    && |ps| == |s|
    && (s != [] ==> Fits(ps[|ps| - 1], Top(s)) && Covered(ps[|ps| - 1]) && Beneath(ps[..|ps| - 1], Pop(s)))
  }

  predicate OnStack(ps: seq<Part>, s: seq<State>) {
    && |ps| == |s|
    && (s != [] ==> Fits(ps[|ps| - 1], Top(s)) && Uncovered(ps[|ps| - 1]) && Beneath(ps[..|ps| - 1], Pop(s)))
  }

  predicate EndsFlag(c: char) {
    c in {']', '}', ','} || IsSpace(c)
  }

  /** The completed value is the pending one; white space may follow it at the end of the text. A
      boolean is completed only by the byte that ends it. */
  predicate DoneOk(done: Option<Doc>, q: Parser, next: Option<char>) {
    && (done.Some? <==> q.pending.Some?)
    && (done.Some? ==>
          var d := done.value;
          && Blank(d.before) && Lenient(d.value) && Tree(d.value) == q.pending.value && Blank(d.after)
          && (q.stack != [] ==> d.after == "")
          && (d.value.Flag? && d.after == "" ==> next.Some? && EndsFlag(next.value)))
  }

  predicate Matches(p: Partial, q: Parser, next: Option<char>) {
    (if q.pending.Some? then Beneath(p.parts, q.stack) else OnStack(p.parts, q.stack)) && DoneOk(p.done, q, next)
  }

  function Last(ps: seq<Part>): Part
    requires ps != []
  {
    ps[|ps| - 1]
  }

  function Rest(ps: seq<Part>): seq<Part>
    requires ps != []
  {
    ps[..|ps| - 1]
  }

  function On(ps: seq<Part>, p: Part): (r: seq<Part>)
    ensures r != [] && Last(r) == p && Rest(r) == ps && |r| == |ps| + 1
  {
    ps + [p]
  }

  /** A part on top of others. */
  lemma PutOn(ps: seq<Part>, s: seq<State>, p: Part, x: State)
    requires Beneath(ps, s) && Fits(p, x)
    ensures Uncovered(p) ==> OnStack(On(ps, p), Push(s, x))
    ensures Covered(p) ==> Beneath(On(ps, p), Push(s, x))
    ensures PartsText(On(ps, p)) == PartsText(ps) + PartText(p)
  {
    hide Fits, Covered, Uncovered, PartText;
  }

  lemma TakeOff(p: Partial, q: Parser, next: Option<char>)
    requires Matches(p, q, next) && q.stack != []
    ensures p.parts != [] && Beneath(Rest(p.parts), Pop(q.stack)) && Fits(Last(p.parts), Top(q.stack))
    ensures q.pending.None? ==> Uncovered(Last(p.parts))
    ensures q.pending.Some? ==> Covered(Last(p.parts))
    ensures PartsText(p.parts) == PartsText(Rest(p.parts)) + PartText(Last(p.parts))
  {
    hide Fits, Covered, Uncovered, PartText, DoneOk;
  }

  /** What an inner step must do to the parts: they grow by the byte, if the step is done with it. */
  ghost predicate Follows(p: Partial, c: char, r: Step, n: Partial) {
    match r
    case Stop(_) => true
    case Next(q, done) =>
      && Matches(n, q, if done then None else Some(c))
      && TextOf(n) == TextOf(p) + if done then [c] else []
  }

  /** A part that has grown, with nothing pending. */
  lemma Grown(below: seq<Part>, s: seq<State>, part: Part, y: State) returns (n: Partial)
    requires Beneath(below, s) && Fits(part, y) && Uncovered(part)
    ensures Matches(n, Parser(Push(s, y), None), None) && TextOf(n) == PartsText(below) + PartText(part)
  {
    hide Beneath, PartsText, PartText, Fits, OnStack;
    PutOn(below, s, part, y);
    n := Partial(On(below, part), None);
  }

  // ---------------------------------------------------------------- white space and single values

  lemma PlaceholderStep(p: Partial, q: Parser, c: char) returns (n: Partial)
    requires Matches(p, q, Some(c)) && q.stack != [] && Top(q.stack).Placeholder? && q.pending.None?
    ensures Follows(p, c, StepPlaceholder(q, c), n)
  {
    hide Beneath, PartsText, PartText, Fits, OnStack, DoneOk;
    TakeOff(p, q, Some(c));
    NothingDone(p, q, Some(c));
    var below, a, s := Rest(p.parts), Last(p.parts), Pop(q.stack);
    BlanksFit(a);
    if IsSpace(c) {
      n := Grown(below, s, Blanks(a.before + [c]), Placeholder);
      assert q == Parser(Push(s, Placeholder), None);
    } else if c == '{' {
      n := Grown(below, s, ObjectPart(a.before, "", [], false), InMap(EMPTY_MAP));
    } else if c == '[' {
      n := Grown(below, s, ArrayPart(a.before, "", [], false), InList([]));
    } else {
      n := Grown(below, s, Token(a.before, ""), Single("", false));
      n := GrownNext(n, s, c);
    }
  }

  lemma GrownNext(p: Partial, s: seq<State>, c: char) returns (n: Partial)
    requires Matches(p, Parser(Push(s, Single("", false)), None), None)
    ensures n == p && Matches(n, Parser(Push(s, Single("", false)), None), Some(c))
  {
    n := p;
    AnyNext(p, Parser(Push(s, Single("", false)), None), c);
  }

  /** What a blank part can become. */
  lemma BlanksFit(a: Part)
    requires Fits(a, Placeholder)
    ensures a.Blanks? && PartText(a) == a.before
    ensures forall c :: IsSpace(c) ==> Fits(Blanks(a.before + [c]), Placeholder)
    ensures Fits(ObjectPart(a.before, "", [], false), InMap(EMPTY_MAP))
    ensures Fits(ArrayPart(a.before, "", [], false), InList([]))
    ensures Fits(Token(a.before, ""), Single("", false))
    ensures forall c :: PartText(Blanks(a.before + [c])) == a.before + [c]
    ensures PartText(ObjectPart(a.before, "", [], false)) == a.before + "{"
    ensures PartText(ArrayPart(a.before, "", [], false)) == a.before + "["
    ensures PartText(Token(a.before, "")) == a.before
  {
    EmptyParts();
    assert a.before + "" == a.before;
  }

  lemma EmptyParts()
    ensures MapOf([]) == EMPTY_MAP && Trees([]) == []
  {
  }

  lemma SingleStep(p: Partial, q: Parser, prev: char, c: char) returns (n: Partial)
    requires Matches(p, q, Some(c)) && Inv(q, prev) && q.stack != [] && Top(q.stack).Single?
    ensures Follows(p, c, StepSingle(q, Top(q.stack), prev, c), n)
  {
    hide Follows, StepSingle, Matches, Inv;
    var s := Top(q.stack);
    if s.buffer != "" && s.stringEscape && c == '"' && prev != '\\' {
      n := QuoteCloses(p, q, prev, c);
    } else if s.buffer != "" && !s.stringEscape && EndsFlag(c) {
      n := FlagEnds(p, q, prev, c);
    } else {
      n := TokenGrows(p, q, prev, c);
    }
  }

  lemma QuoteCloses(p: Partial, q: Parser, prev: char, c: char) returns (n: Partial)
    requires Matches(p, q, Some(c)) && Inv(q, prev) && q.stack != [] && Top(q.stack).Single?
    requires Top(q.stack).buffer != "" && Top(q.stack).stringEscape && c == '"' && prev != '\\'
    ensures Follows(p, c, StepSingle(q, Top(q.stack), prev, c), n)
  {
    hide Beneath, PartsText, Finalize, Quotable;
    TakeOff(p, q, Some(c));
    var b := Top(q.stack).buffer;
    var v := Quoted(b[1..]);
    n := Partial(Rest(p.parts), Some(Doc(Last(p.parts).before, v, "")));
    QuotedDone(q, prev, c);
    QuotedText(b);
    assert RenderValue(v) == b + ['"'];
  }

  lemma FlagEnds(p: Partial, q: Parser, prev: char, c: char) returns (n: Partial)
    requires Matches(p, q, Some(c)) && Inv(q, prev) && q.stack != [] && Top(q.stack).Single?
    requires Top(q.stack).buffer != "" && !Top(q.stack).stringEscape && EndsFlag(c)
    ensures Follows(p, c, StepSingle(q, Top(q.stack), prev, c), n)
  {
    hide Beneath, PartsText, Finalize;
    TakeOff(p, q, Some(c));
    var b := Top(q.stack).buffer;
    var v := Flag(b == "true");
    n := Partial(Rest(p.parts), Some(Doc(Last(p.parts).before, v, "")));
    FlagDone(q, prev);
    assert b == "true" || b == "false" ==> RenderValue(v) == b;
  }

  lemma TokenGrows(p: Partial, q: Parser, prev: char, c: char) returns (n: Partial)
    requires Matches(p, q, Some(c)) && Inv(q, prev) && q.stack != [] && Top(q.stack).Single?
    requires var s := Top(q.stack);
      s.buffer == "" || (s.stringEscape && !(c == '"' && prev != '\\')) || (!s.stringEscape && !EndsFlag(c))
    ensures Follows(p, c, StepSingle(q, Top(q.stack), prev, c), n)
  {
    hide Beneath, PartsText, PartText, Fits, OnStack, DoneOk, Inv;
    TakeOff(p, q, Some(c));
    NothingPending(q, prev);
    NothingDone(p, q, Some(c));
    var s, a := Top(q.stack), Last(p.parts);
    TokenFits(a, s, c);
    n := Grown(Rest(p.parts), Pop(q.stack), Token(a.before, s.buffer + [c]),
               if s.buffer == "" then Single([c], c == '"') else s.(buffer := s.buffer + [c]));
  }

  lemma TokenFits(a: Part, s: State, c: char)
    requires s.Single? && Fits(a, s)
    ensures var part := Token(a.before, s.buffer + [c]);
      && Fits(part, if s.buffer == "" then Single([c], c == '"') else s.(buffer := s.buffer + [c]))
      && PartText(part) == PartText(a) + [c]
  {
  }

  /** A value is pending only where it can be received. */
  lemma NothingPending(q: Parser, prev: char)
    requires Inv(q, prev) && q.stack != []
    ensures Top(q.stack).Single? || Top(q.stack).Placeholder? || Top(q.stack).InMap? ==> q.pending.None?
    ensures Top(q.stack).KeyValue? ==> (q.pending.Some? <==> Top(q.stack).phase == 2)
  {
  }

  lemma QuotedDone(q: Parser, prev: char, c: char)
    requires Inv(q, prev) && q.stack != [] && Top(q.stack).Single? && Top(q.stack).buffer != ""
    requires Top(q.stack).stringEscape && prev != '\\'
    ensures var b := Top(q.stack).buffer;
      Finalize(b + ['"']) == Some(JString(b[1..])) && Quotable(b[1..]) && b[0] == '"'
  {
    var b := Top(q.stack).buffer;
    OpenCloses(b);
    var t := b + ['"'];
    assert t[1..|t| - 1] == b[1..];
  }

  lemma QuotedText(b: string)
    requires b != "" && b[0] == '"'
    ensures "\"" + b[1..] + "\"" == b + ['"']
  {
  }

  lemma FlagDone(q: Parser, prev: char)
    requires Inv(q, prev) && q.stack != [] && Top(q.stack).Single? && Top(q.stack).buffer != ""
    requires !Top(q.stack).stringEscape
    ensures var b := Top(q.stack).buffer;
      Finalize(b) == if b == "true" || b == "false" then Some(JBool(b == "true")) else None
  {
  }

  // ---------------------------------------------------------------- arrays

  lemma {:induction false} RenderMore(items: seq<Doc>, d: Doc)
    requires items != []
    ensures RenderItems(items + [d]) == RenderItems(items) + "," + Render(d)
    decreases |items|
  {
    hide Render;
    assert (items + [d])[1..] == items[1..] + [d];
    if |items| > 1 {
      RenderMore(items[1..], d);
    }
  }

  function Longer(d: Doc, c: char): Doc {
    d.(after := d.after + [c])
  }

  /** The items with one more byte after the last. */
  function Extended(items: seq<Doc>, c: char): seq<Doc>
    requires items != []
  {
    items[..|items| - 1] + [Longer(LastItem(items), c)]
  }

  lemma {:induction false} RenderExtended(items: seq<Doc>, c: char)
    requires items != []
    ensures RenderItems(Extended(items, c)) == RenderItems(items) + [c]
    decreases |items|
  {
    hide RenderValue;
    if |items| > 1 {
      assert Extended(items, c)[1..] == Extended(items[1..], c);
      RenderExtended(items[1..], c);
    }
  }

  lemma ExtendedOk(items: seq<Doc>, c: char)
    requires items != [] && ItemsOk(items) && MayFollow(LastItem(items).value, LastItem(items).after + [c])
    ensures ItemsOk(Extended(items, c)) && Trees(Extended(items, c)) == Trees(items)
  {
    hide Lenient, Tree;
    var es := Extended(items, c);
    forall i | 0 <= i < |es|
      ensures LenientItem(es[i])
    {
      assert LenientItem(items[i]);
    }
    assert es[..|es| - 1] == items[..|items| - 1];
  }

  /** The array after its pending item was taken. */
  function Taken(p: Part, done: Option<Doc>): Part
    requires p.ArrayPart?
  {
    match done
    case None => p
    case Some(d) =>
      ArrayPart(p.before, "", p.items + [d.(before := (if p.items == [] then p.inner else "") + d.before)], false)
  }

  /** What is known of an array whose pending item was taken. */
  predicate TakenOk(n: Part, list: seq<Json>, c: char) {
    && Fits(n, InList(list)) && n.ArrayPart? && !n.comma && (n.items == [] <==> list == [])
    && (n.items != [] && LastItem(n.items).value.Flag? && LastItem(n.items).after == "" ==> EndsFlag(c))
  }

  lemma TakenFits(p: Partial, q: Parser, c: char)
    requires Matches(p, q, Some(c)) && q.stack != [] && Top(q.stack).InList?
    ensures var a := Last(p.parts);
      a.ArrayPart? &&
      var n := Taken(a, p.done);
      var list := if q.pending.Some? then Top(q.stack).list + [q.pending.value] else Top(q.stack).list;
      TakenOk(n, list, c) && PartText(n) == PartText(a) + (if p.done.Some? then Render(p.done.value) else "")
  {
    hide Beneath, PartsText, Render, Lenient, Tree, RenderItems, Trees;
    TakeOff(p, q, Some(c));
    if p.done.Some? {
      TakesDone(Last(p.parts), Top(q.stack).list, p.done.value, c);
    } else {
      SameLength(Last(p.parts).items);
    }
  }

  lemma SameLength(items: seq<Doc>)
    ensures |Trees(items)| == |items|
  {
  }

  lemma TakesDone(a: Part, list: seq<Json>, d: Doc, c: char)
    requires Fits(a, InList(list)) && Covered(a) && Blank(d.before) && Lenient(d.value) && d.after == ""
    requires d.value.Flag? ==> EndsFlag(c)
    ensures var n := Taken(a, Some(d));
      TakenOk(n, list + [Tree(d.value)], c) && PartText(n) == PartText(a) + Render(d)
  {
    hide Render, Lenient, Tree, RenderItems, Trees;
    var first := d.(before := (if a.items == [] then a.inner else "") + d.before);
    TreesMore(a.items, first);
    FirstLenient(a.inner, d);
    if a.items == [] {
      assert a.items + [first] == [first];
      RenderOne(first);
      RenderBefore(a.inner, d);
    } else {
      RenderMore(a.items, first);
      assert first == d;
    }
  }

  lemma FirstLenient(inner: string, d: Doc)
    requires Blank(inner) && Blank(d.before) && Lenient(d.value) && d.after == ""
    ensures LenientItem(d) && LenientItem(d.(before := inner + d.before))
  {
  }

  lemma RenderBefore(inner: string, d: Doc)
    ensures Render(d.(before := inner + d.before)) == inner + Render(d)
  {
    hide RenderValue;
  }

  lemma TreesMore(items: seq<Doc>, d: Doc)
    ensures Trees(items + [d]) == Trees(items) + [Tree(d.value)]
  {
    assert (items + [d])[..|items|] == items;
  }

  lemma RenderOne(d: Doc)
    ensures RenderItems([d]) == Render(d)
  {
  }

  lemma ListStep(p: Partial, q: Parser, c: char) returns (n: Partial)
    requires Matches(p, q, Some(c)) && q.stack != [] && Top(q.stack).InList?
    ensures Follows(p, c, StepList(q, Top(q.stack), c), n)
  {
    hide Beneath, PartsText, PartText, Render, RenderItems, Trees, Tree, Lenient, Fits, OnStack, DoneOk, TakenOk,
      MayFollow;
    TakeOff(p, q, Some(c));
    TakenFits(p, q, c);
    var below := Rest(p.parts);
    var a := Taken(Last(p.parts), p.done);
    var list := if q.pending.Some? then Top(q.stack).list + [q.pending.value] else Top(q.stack).list;
    assert a.items == [] <==> list == [] by { TakenItems(a, list, c); }
    if c == ']' {
      n := ArrayCloses(below, Pop(q.stack), a, list);
    } else if !IsSpace(c) && (a.items == [] || c == ',') {
      n := ItemFollows(below, Pop(q.stack), a, list, c);
    } else {
      n := ArrayGrows(below, Pop(q.stack), a, list, c);
    }
  }

  lemma TakenItems(n: Part, list: seq<Json>, c: char)
    requires TakenOk(n, list, c)
    ensures n.ArrayPart? && (n.items == [] <==> list == [])
  {
  }

  lemma ArrayCloses(below: seq<Part>, s: seq<State>, a: Part, list: seq<Json>) returns (n: Partial)
    requires Beneath(below, s) && TakenOk(a, list, ']')
    ensures Matches(n, Parser(s, Some(JList(list))), None)
    ensures TextOf(n) == PartsText(below) + PartText(a) + "]"
  {
    hide Beneath, PartsText, RenderItems, Trees;
    var inner := if a.items == [] then a.inner else "";
    var body := if a.items == [] then a.inner else RenderItems(a.items);
    var d := Doc(a.before, Array(inner, a.items), "");
    n := Partial(below, Some(d));
    assert Render(d) == a.before + ("[" + body + "]") + "";
    assert PartText(a) + "]" == a.before + "[" + body + "" + "]" == Render(d);
    assert PartsText(below) + PartText(a) + "]" == PartsText(below) + (PartText(a) + "]");
  }

  lemma ItemFollows(below: seq<Part>, s: seq<State>, a: Part, list: seq<Json>, c: char) returns (n: Partial)
    requires Beneath(below, s) && TakenOk(a, list, c) && (c == ',' || a.items == [])
    ensures var q := Parser(Push(Push(s, InList(list)), Placeholder), None);
      Matches(n, q, if a.items == [] then Some(c) else None)
    ensures TextOf(n) == PartsText(below) + PartText(a) + if a.items == [] then "" else ","
  {
    hide Beneath, PartsText, RenderItems, Trees;
    var covered := ArrayPart(a.before, a.inner, a.items, a.items != []);
    PutOn(below, s, covered, InList(list));
    PutOn(On(below, covered), Push(s, InList(list)), Blanks(""), Placeholder);
    n := Partial(On(On(below, covered), Blanks("")), None);
  }

  lemma ArrayGrows(below: seq<Part>, s: seq<State>, a: Part, list: seq<Json>, c: char) returns (n: Partial)
    requires Beneath(below, s) && TakenOk(a, list, c) && c != ']'
    requires IsSpace(c) || (c != ',' && a.items != [])
    ensures Matches(n, Parser(Push(s, InList(list)), None), None)
    ensures TextOf(n) == PartsText(below) + PartText(a) + [c]
  {
    hide Beneath, PartsText, RenderItems, Trees, Lenient;
    var part := if a.items == [] then ArrayPart(a.before, a.inner + [c], [], false)
                else ArrayPart(a.before, a.inner, Extended(a.items, c), false);
    if a.items != [] {
      assert LenientItem(LastItem(a.items));
      ExtendedOk(a.items, c);
      RenderExtended(a.items, c);
    }
    PutOn(below, s, part, InList(list));
    n := Partial(On(below, part), None);
  }

  // ---------------------------------------------------------------- objects

  lemma {:induction false} RenderMoreMembers(ms: seq<Member>, m: Member)
    requires ms != []
    ensures RenderMembers(ms + [m]) == RenderMembers(ms) + "," + RenderMember(m)
    decreases |ms|
  {
    hide RenderMember;
    assert (ms + [m])[1..] == ms[1..] + [m];
    if |ms| > 1 {
      RenderMoreMembers(ms[1..], m);
    }
  }

  function LastMember(ms: seq<Member>): Member
    requires ms != []
  {
    ms[|ms| - 1]
  }

  function LongerMember(m: Member, c: char): Member {
    m.(value := Longer(m.value, c))
  }

  function ExtendedMembers(ms: seq<Member>, c: char): seq<Member>
    requires ms != []
  {
    ms[..|ms| - 1] + [LongerMember(LastMember(ms), c)]
  }

  lemma RenderLonger(m: Member, c: char)
    ensures RenderMember(LongerMember(m, c)) == RenderMember(m) + [c]
  {
    hide RenderValue;
  }

  lemma {:induction false} RenderExtendedMembers(ms: seq<Member>, c: char)
    requires ms != []
    ensures RenderMembers(ExtendedMembers(ms, c)) == RenderMembers(ms) + [c]
    decreases |ms|
  {
    hide RenderMember;
    if |ms| > 1 {
      assert ExtendedMembers(ms, c)[1..] == ExtendedMembers(ms[1..], c);
      RenderExtendedMembers(ms[1..], c);
    } else {
      RenderLonger(ms[0], c);
    }
  }

  lemma ExtendedMembersOk(ms: seq<Member>, c: char)
    requires ms != [] && MembersOk(ms) && IsSpace(c)
    ensures MembersOk(ExtendedMembers(ms, c)) && MapOf(ExtendedMembers(ms, c)) == MapOf(ms)
  {
    hide Lenient, Tree, MayLead;
    var es := ExtendedMembers(ms, c);
    forall i | 0 <= i < |es|
      ensures LenientMember(es[i]) && (Blank(es[i].before) || i == 0)
    {
      assert LenientMember(ms[i]);
    }
    assert es[..|es| - 1] == ms[..|ms| - 1];
  }

  lemma {:induction false} SomeEntries(ms: seq<Member>)
    ensures Entries(ms) == [] <==> ms == []
  {
    if |ms| > 1 {
      SomeEntries(ms[..|ms| - 1]);
    }
  }

  lemma MapStep(p: Partial, q: Parser, c: char) returns (n: Partial)
    requires Matches(p, q, Some(c)) && q.stack != [] && Top(q.stack).InMap? && q.pending.None?
    ensures Follows(p, c, StepMap(q, Top(q.stack), c), n)
  {
    hide Beneath, PartsText, PartText, RenderMembers, Entries, Tree, Lenient, OnStack, DoneOk, MapOf;
    TakeOff(p, q, Some(c));
    NothingDone(p, q, Some(c));
    var below, a, x := Rest(p.parts), Last(p.parts), Top(q.stack);
    SomeEntries(a.members);
    EntriesOf(a.members);
    assert x.currentMap.orderedKV == [] <==> a.members == [];
    assert q == Parser(Push(Pop(q.stack), x), None);
    if IsSpace(c) {
      n := ObjectGrows(below, Pop(q.stack), a, x, c);
    } else if c == '}' {
      n := ObjectCloses(below, Pop(q.stack), a, x);
    } else if c == ',' || a.members == [] {
      n := KeyFollows(below, Pop(q.stack), a, x, c);
    } else {
      n := p;
    }
  }

  lemma NothingDone(p: Partial, q: Parser, next: Option<char>)
    requires Matches(p, q, next) && q.pending.None?
    ensures p.done.None? && TextOf(p) == PartsText(p.parts)
  {
  }

  lemma EntriesOf(ms: seq<Member>)
    ensures MapOf(ms).orderedKV == Entries(ms)
  {
  }

  lemma ObjectGrows(below: seq<Part>, s: seq<State>, a: Part, x: State, c: char) returns (n: Partial)
    requires Beneath(below, s) && x.InMap? && Fits(a, x) && !a.comma && IsSpace(c)
    ensures Matches(n, Parser(Push(s, x), None), None)
    ensures TextOf(n) == PartsText(below) + PartText(a) + [c]
  {
    hide Beneath, PartsText, RenderMembers, MapOf, LenientMember;
    var part := if a.members == [] then ObjectPart(a.before, a.inner + [c], [], false)
                else ObjectPart(a.before, a.inner, ExtendedMembers(a.members, c), false);
    if a.members != [] {
      ExtendedMembersOk(a.members, c);
      RenderExtendedMembers(a.members, c);
    }
    PutOn(below, s, part, x);
    n := Partial(On(below, part), None);
  }

  lemma ObjectCloses(below: seq<Part>, s: seq<State>, a: Part, x: State) returns (n: Partial)
    requires Beneath(below, s) && x.InMap? && Fits(a, x) && !a.comma
    ensures Matches(n, Parser(s, Some(JMap(x.currentMap.orderedKV))), None)
    ensures TextOf(n) == PartsText(below) + PartText(a) + "}"
  {
    hide Beneath, PartsText, RenderMembers, LenientMember, Entries;
    var inner := if a.members == [] then a.inner else "";
    var body := if a.members == [] then a.inner else RenderMembers(a.members);
    var d := Doc(a.before, Object(inner, a.members), "");
    n := Partial(below, Some(d));
    assert Render(d) == a.before + ("{" + body + "}") + "";
    assert PartText(a) + "}" == a.before + "{" + body + "" + "}" == Render(d);
    assert PartsText(below) + PartText(a) + "}" == PartsText(below) + (PartText(a) + "}");
  }

  lemma KeyFollows(below: seq<Part>, s: seq<State>, a: Part, x: State, c: char) returns (n: Partial)
    requires Beneath(below, s) && x.InMap? && a.ObjectPart? && Fits(a, x) && !a.comma
    requires c == ',' || a.members == []
    ensures var q := Parser(Push(Push(s, x), KeyValue("", 0)), None);
      Matches(n, q, if c == ',' then None else Some(c))
    ensures TextOf(n) == PartsText(below) + PartText(a) + Comma(c == ',')
  {
    hide Beneath, PartsText, PartText, Fits, Matches, TextOf, Comma;
    var covered := ObjectPart(a.before, a.inner, a.members, c == ',');
    ObjectCovered(a, x, c == ',');
    EmptyKey();
    PutOn(below, s, covered, x);
    n := Grown(On(below, covered), Push(s, x), KeyPart("", "", "", false), KeyValue("", 0));
    AnyNext(n, Parser(Push(Push(s, x), KeyValue("", 0)), None), c);
    NothingMore(PartsText(below), PartText(a), Comma(c == ','));
  }

  lemma NothingMore(a: string, b: string, c: string)
    ensures a + (b + c) + "" == a + b + c
  {
  }

  lemma EmptyKey()
    ensures Fits(KeyPart("", "", "", false), KeyValue("", 0)) && PartText(KeyPart("", "", "", false)) == ""
  {
  }

  lemma ObjectCovered(a: Part, x: State, comma: bool)
    requires x.InMap? && Fits(a, x) && !a.comma
    ensures var p := ObjectPart(a.before, a.inner, a.members, comma);
      Fits(p, x) && PartText(p) == PartText(a) + Comma(comma)
  {
    hide RenderMembers, MapOf, LenientMember;
  }

  // ---------------------------------------------------------------- keys and entries

  lemma KeyStep(p: Partial, q: Parser, prev: char, c: char) returns (n: Partial)
    requires Matches(p, q, Some(c)) && q.stack != [] && Top(q.stack).KeyValue? && Top(q.stack).phase < 2
    requires q.pending.None?
    ensures Follows(p, c, StepKeyValue(q, Top(q.stack), prev, c), n)
  {
    hide Beneath, PartsText, OnStack, Fits, PartText, DoneOk;
    TakeOff(p, q, Some(c));
    NothingDone(p, q, Some(c));
    var below, a, x := Rest(p.parts), Last(p.parts), Top(q.stack);
    assert q == Parser(Push(Pop(q.stack), x), None);
    if x.phase == 1 && c == ':' {
      n := ColonFollows(below, Pop(q.stack), a, x);
    } else if StepKeyValue(q, x, prev, c).Next? {
      KeyFits(a, x);
      GrowsFits(a, x, prev, c);
      var (part, y) := KeyGrows(a, x, prev, c);
      n := Grown(below, Pop(q.stack), part, y);
      assert x.keyBuffer == "" ==> x.keyBuffer + [c] == [c];
    } else {
      n := p;
    }
  }

  lemma KeyFits(a: Part, x: State)
    requires x.KeyValue? && Fits(a, x)
    ensures a.KeyPart?
  {
  }

  /** A key part and its state with one more byte. */
  function KeyGrows(a: Part, x: State, prev: char, c: char): (Part, State)
    requires x.KeyValue? && a.KeyPart?
  {
    if x.phase == 1 then (KeyPart(a.before, a.text, a.after + [c], false), x)
    else if x.keyBuffer == "" && IsSpace(c) then (KeyPart(a.before + [c], "", "", false), x)
    else (KeyPart(a.before, a.text + [c], "", false),
          KeyValue(x.keyBuffer + [c], if x.keyBuffer != "" && c == '"' && prev != '\\' then 1 else 0))
  }

  lemma GrowsFits(a: Part, x: State, prev: char, c: char)
    requires x.KeyValue? && x.phase < 2 && Fits(a, x) && (x.phase == 1 ==> IsSpace(c))
    ensures a.KeyPart? &&
      var (part, y) := KeyGrows(a, x, prev, c);
      Fits(part, y) && Uncovered(part) && PartText(part) == PartText(a) + [c]
  {
  }

  lemma ColonFollows(below: seq<Part>, s: seq<State>, a: Part, x: State) returns (n: Partial)
    requires Beneath(below, s) && x.KeyValue? && x.phase == 1 && Fits(a, x)
    ensures Matches(n, Parser(Push(Push(s, x.(phase := 2)), Placeholder), None), None)
    ensures TextOf(n) == PartsText(below) + PartText(a) + ":"
  {
    hide Beneath, PartsText;
    var part := KeyPart(a.before, a.text, a.after, true);
    PutOn(below, s, part, x.(phase := 2));
    PutOn(On(below, part), Push(s, x.(phase := 2)), Blanks(""), Placeholder);
    n := Partial(On(On(below, part), Blanks("")), None);
  }

  /** The member that a key part and a completed value make, on top of an object. */
  function NewMember(a: Part, k: Part, d: Doc): Member
    requires a.ObjectPart? && k.KeyPart? && |k.text| >= 2
  {
    Member((if a.members == [] then a.inner + Comma(a.comma) else "") + k.before, k.text[1..|k.text| - 1], k.after, d)
  }

  lemma EntryMade(a: Part, k: Part, d: Doc, m: OrderedMap)
    requires Fits(a, InMap(m)) && Covered(a) && k.KeyPart? && k.colon && Blank(k.before) && Blank(k.after)
    requires Closed(k.text) && Blank(d.before) && Lenient(d.value) && d.after == ""
    ensures var x := NewMember(a, k, d);
      var n := ObjectPart(a.before, a.inner, a.members + [x], false);
      && Fits(n, InMap(Put(m, x.key, Tree(d.value))))
      && PartText(n) == PartText(a) + PartText(k) + Render(d)
  {
    hide Lenient, Tree, Entries, Render, NewMember, RenderMembers, RenderMember, MapOf, Put, Closed, LenientMember,
      MembersOk;
    KeyText(k.text);
    var x := NewMember(a, k, d);
    MemberMade(a, k, d);
    EntryPut(a.members, x, m);
    EntryText(a, x, PartText(k) + Render(d));
  }

  lemma EntryText(a: Part, x: Member, text: string)
    requires a.ObjectPart? && (a.members != [] ==> a.comma)
    requires RenderMember(x) == (if a.members == [] then a.inner + Comma(a.comma) else "") + text
    ensures PartText(ObjectPart(a.before, a.inner, a.members + [x], false)) == PartText(a) + text
  {
    hide RenderMember;
    if a.members == [] {
      assert a.members + [x] == [x];
      RenderOneMember(x);
    } else {
      RenderMoreMembers(a.members, x);
    }
  }

  lemma EntryPut(ms: seq<Member>, x: Member, m: OrderedMap)
    requires MembersOk(ms) && m == MapOf(ms) && LenientMember(x) && (Blank(x.before) || ms == [])
    ensures MembersOk(ms + [x]) && MapOf(ms + [x]) == Put(m, x.key, Tree(x.value.value))
  {
    hide Lenient, Tree, Entries, MapOf, Put, LenientMember;
    var all := ms + [x];
    assert all[..|ms|] == ms && all[..|ms| + 1] == all;
    PutNext(all, |ms|);
  }

  lemma RenderOneMember(m: Member)
    ensures RenderMembers([m]) == RenderMember(m)
  {
  }

  lemma KeyText(b: string)
    requires Closed(b)
    ensures |b| >= 2 && "\"" + b[1..|b| - 1] + "\"" == b && Quotable(b[1..|b| - 1])
  {
  }

  lemma MemberMade(a: Part, k: Part, d: Doc)
    requires a.ObjectPart? && Blank(a.inner) && k.KeyPart? && k.colon && Blank(k.before) && Blank(k.after)
    requires Closed(k.text) && Blank(d.before) && Lenient(d.value) && d.after == ""
    ensures var x := NewMember(a, k, d);
      && LenientMember(x) && (Blank(x.before) || a.members == []) && x.value == d
      && RenderMember(x) == (if a.members == [] then a.inner + Comma(a.comma) else "") + PartText(k) + Render(d)
  {
    hide Lenient, Render, Closed, MayLead, RenderMember, PartText;
    KeyText(k.text);
    LeadingComma(a.inner, k.before);
    assert Blank(k.before) ==> MayLead(k.before) by { BlankLeads(k.before); }
    BlankLeads(a.inner + k.before);
    assert a.inner + "" == a.inner && "" + k.before == k.before;
    MemberText(if a.members == [] then a.inner + Comma(a.comma) else "", k, d);
  }

  lemma BlankLeads(before: string)
    requires Blank(before)
    ensures MayLead(before)
  {
  }

  lemma MemberText(lead: string, k: Part, d: Doc)
    requires k.KeyPart? && k.colon && Closed(k.text)
    ensures RenderMember(Member(lead + k.before, k.text[1..|k.text| - 1], k.after, d)) == lead + PartText(k) + Render(d)
  {
    hide Render, Closed, Quotable;
    KeyText(k.text);
    var key := k.text[1..|k.text| - 1];
    assert lead + k.before + "\"" + key + "\"" + k.after + ":" == lead + k.before + ("\"" + key + "\"") + k.after + ":";
    assert lead + k.before + k.text + k.after + ":" == lead + (k.before + k.text + k.after + ":");
  }

  lemma LeadingComma(inner: string, before: string)
    requires Blank(inner) && Blank(before)
    ensures MayLead(inner + "," + before) && Blank(inner + before)
  {
    var s := inner + "," + before;
    assert s[..|inner|] == inner && s[|inner|] == ',' && s[|inner| + 1..] == before;
  }

  lemma EntryStep(p: Partial, q: Parser, prev: char, c: char) returns (n: Partial)
    requires Matches(p, q, Some(c)) && Inv(q, prev)
    requires q.stack != [] && Top(q.stack).KeyValue? && Top(q.stack).phase == 2
    ensures Follows(p, c, StepKeyValue(q, Top(q.stack), prev, c), n)
  {
    hide Beneath, PartsText, PartText, Render, Lenient, Tree, Closed, Put, NewMember;
    TakeOff(p, q, Some(c));
    NothingPending(q, prev);
    KeyClosed(q, prev);
    var s, k, below := Pop(q.stack), Last(p.parts), Rest(p.parts);
    TopBeneath(below, s);
    var a, d := Last(below), p.done.value;
    var m := Top(s).currentMap;
    EntryMade(a, k, d, m);
    MadeKey(a, k, d);
    var x := NewMember(a, k, d);
    var part := ObjectPart(a.before, a.inner, a.members + [x], false);
    PutOn(Rest(below), Pop(s), part, InMap(Put(m, x.key, Tree(d.value))));
    n := Partial(On(Rest(below), part), None);
  }

  lemma KeyClosed(q: Parser, prev: char)
    requires Inv(q, prev) && q.stack != [] && Top(q.stack).KeyValue? && Top(q.stack).phase == 2
    ensures Closed(Top(q.stack).keyBuffer)
    ensures Pop(q.stack) != [] && Top(Pop(q.stack)).InMap?
  {
  }

  lemma TopBeneath(ps: seq<Part>, s: seq<State>)
    requires Beneath(ps, s) && s != []
    ensures ps != [] && Fits(Last(ps), Top(s)) && Covered(Last(ps)) && Beneath(Rest(ps), Pop(s))
    ensures PartsText(ps) == PartsText(Rest(ps)) + PartText(Last(ps))
  {
    hide Fits, Covered, PartText;
  }

  lemma MadeKey(a: Part, k: Part, d: Doc)
    requires a.ObjectPart? && k.KeyPart? && Closed(k.text)
    ensures NewMember(a, k, d).key == k.text[1..|k.text| - 1]
    ensures |k.text| >= 2 && k.text[0] == '"' && k.text[|k.text| - 1] == '"'
  {
  }

  // ---------------------------------------------------------------- whole runs

  lemma EndStep(p: Partial, q: Parser, prev: char, c: char) returns (n: Partial)
    requires Matches(p, q, Some(c)) && Inv(q, prev) && q.stack == []
    ensures Follows(p, c, StepOn(q, prev, c), n)
  {
    hide Lenient, Tree, RenderValue;
    n := p.(done := Some(Longer(p.done.value, c)));
    assert Render(Longer(p.done.value, c)) == Render(p.done.value) + [c];
  }

  lemma StepFollows(p: Partial, q: Parser, prev: char, c: char) returns (n: Partial)
    requires Matches(p, q, Some(c)) && Inv(q, prev)
    ensures Follows(p, c, StepOn(q, prev, c), n)
  {
    hide Follows, Matches, Inv, StepPlaceholder, StepSingle, StepList, StepMap, StepKeyValue;
    if q.stack == [] {
      n := EndStep(p, q, prev, c);
    } else {
      NothingPending(q, prev);
      match Top(q.stack)
      case Placeholder => n := PlaceholderStep(p, q, c);
      case Single(_, _) => n := SingleStep(p, q, prev, c);
      case InList(_) => n := ListStep(p, q, c);
      case InMap(_) => n := MapStep(p, q, c);
      case KeyValue(_, phase) =>
        PhaseBound(q, prev);
        if phase < 2 {
          n := KeyStep(p, q, prev, c);
        } else {
          n := EntryStep(p, q, prev, c);
        }
    }
  }

  lemma PhaseBound(q: Parser, prev: char)
    requires Inv(q, prev) && q.stack != [] && Top(q.stack).KeyValue?
    ensures Top(q.stack).phase <= 2
  {
  }

  lemma {:induction false} ByteFollows(p: Partial, q: Parser, prev: char, c: char) returns (n: Partial)
    requires Matches(p, q, Some(c)) && Inv(q, prev) && Consume(q, prev, c).Running?
    ensures var r := Consume(q, prev, c); Matches(n, r.parser, None) && TextOf(n) == TextOf(p) + [c]
    decreases Rank(q)
  {
    hide Matches, Inv, StepOn, TextOf;
    StepKeeps(q, prev, c);
    n := StepFollows(p, q, prev, c);
    match StepOn(q, prev, c)
    case Next(k, done) =>
      if !done {
        n := ByteFollows(n, k, prev, c);
      }
    case Stop(_) =>
  }

  /** A byte that comes next rules nothing out. */
  lemma AnyNext(p: Partial, q: Parser, c: char)
    requires Matches(p, q, None)
    ensures Matches(p, q, Some(c))
  {
    hide OnStack, Beneath, Tree, Lenient;
  }

  lemma {:induction false} TextFollows(p: Partial, r: Running, text: string) returns (n: Partial)
    requires Healthy(r) && r.Running? && Matches(p, r.parser, None) && Feed(r, text).Running?
    ensures Matches(n, Feed(r, text).parser, None) && TextOf(n) == TextOf(p) + text
    decreases |text|
  {
    hide Matches, Inv, Consume, TextOf;
    if text == "" {
      n := p;
      assert TextOf(p) + "" == TextOf(p);
    } else {
      var c := text[0];
      AnyNext(p, r.parser, c);
      n := ByteFollows(p, r.parser, r.prev, c);
      assert TextOf(p) + text == TextOf(p) + [c] + text[1..];
      n := TextFollows(n, Consume(r.parser, r.prev, c), text[1..]);
    }
  }

  /** Soundness: an accepted text is one that the lenient grammar derives, for the same tree. */
  lemma AcceptedIsLenient(text: string) returns (d: Doc)
    requires Parse(text).Accepted?
    ensures LenientDocument(d) && Render(d) == text && Tree(d.value) == Parse(text).tree
  {
    hide Inv, Consume, Feed, Lenient, Tree, Render, Matches, TextOf;
    Starts();
    var p := Partial([Blanks("")], None);
    StartMatches(p);
    var n := TextFollows(p, Running(START, ' '), text);
    var q := Feed(Running(START, ' '), text);
    d := EndMatches(n, q.parser, q.prev);
    assert "" + text == text;
  }

  lemma StartMatches(p: Partial)
    requires p == Partial([Blanks("")], None)
    ensures Matches(p, START, None) && TextOf(p) == ""
  {
    assert On([], Blanks("")) == [Blanks("")] && Push([], Placeholder) == [Placeholder];
    PutOn([], [], Blanks(""), Placeholder);
  }

  lemma EndMatches(n: Partial, q: Parser, prev: char) returns (d: Doc)
    requires Matches(n, q, None) && Inv(q, prev) && q.stack == []
    ensures LenientDocument(d) && Render(d) == TextOf(n) && Some(Tree(d.value)) == q.pending
  {
    hide Lenient, Tree, Render;
    d := n.done.value;
  }

  /** The parser accepts a text as a tree exactly when the lenient grammar derives the text for that tree. */
  lemma ExactLanguage(text: string, tree: Json)
    ensures Parse(text) == Accepted(tree)
            <==> exists d :: LenientDocument(d) && Render(d) == text && Tree(d.value) == tree
  {
    hide Lenient, Tree, Render, Parse;
    if Parse(text) == Accepted(tree) {
      var d := AcceptedIsLenient(text);
    }
    if d :| LenientDocument(d) && Render(d) == text && Tree(d.value) == tree {
      DocumentRead(d);
    }
  }

  /** The grammar is unambiguous: however a text is derived, it stands for one tree. */
  lemma OneTree(text: string, d: Doc, e: Doc)
    requires LenientDocument(d) && LenientDocument(e) && Render(d) == text == Render(e)
    ensures Tree(d.value) == Tree(e.value)
  {
    DocumentRead(d);
    DocumentRead(e);
  }
}
