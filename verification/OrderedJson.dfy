/** Ordered JSON trees, and the texts that can stand between quotes in them. */
module OrderedJson {

  datatype Json =
    | JMap(entries: seq<Entry>)
    | JList(items: seq<Json>)
    | JString(text: string)
    | JBool(flag: bool)

  datatype Entry = Entry(key: string, value: Json)

  /** Between quotes a text is kept raw: every quote in it follows a backslash, and it does not
      end in one. */
  predicate Quotable(s: string) {
    && (forall i :: 0 <= i < |s| && s[i] == '"' ==> i > 0 && s[i - 1] == '\\')
    && (|s| > 0 ==> s[|s| - 1] != '\\')
  }

  predicate DistinctKeys(es: seq<Entry>) {
    forall i, j :: 0 <= i < j < |es| ==> es[i].key != es[j].key
  }

  /** The trees that survive printing and parsing. */
  predicate Printable(j: Json) {
    match j
    case JMap(es) => DistinctKeys(es) && forall i :: 0 <= i < |es| ==> PrintableEntry(es[i])
    case JList(items) => forall i :: 0 <= i < |items| ==> Printable(items[i])
    case JString(s) => Quotable(s)
    case JBool(_) => true
  }

  predicate PrintableEntry(e: Entry) {
    Quotable(e.key) && Printable(e.value)
  }
}

/** JSONString: the indenting printer. */
module JsonPrinter {
  import opened OrderedJson

  function Indent(n: nat): string {
    if n == 0 then "" else "    " + Indent(n - 1)
  }

  function BoolText(b: bool): string {
    if b then "true" else "false"
  }

  function Text(j: Json, indent: nat): string
    decreases j, 1
  {
    match j
    case JMap(es) => if es == [] then "{}" else "{" + EntriesText(es, indent + 1) + "\n" + Indent(indent) + "}"
    case JList(items) => if items == [] then "[]" else "[" + ItemsText(items, indent + 1) + "\n" + Indent(indent) + "]"
    case JString(s) => "\"" + s + "\""
    case JBool(b) => BoolText(b)
  }

  function EntryText(e: Entry, indent: nat): string
    decreases e, 2
  {
    "\n" + Indent(indent) + "\"" + e.key + "\": " + Text(e.value, indent)
  }

  function EntriesText(es: seq<Entry>, indent: nat): string
    decreases es, 0
  {
    if es == [] then "" else
      EntryText(es[0], indent) + (if |es| > 1 then "," else "") + EntriesText(es[1..], indent)
  }

  function ItemsText(items: seq<Json>, indent: nat): string
    decreases items, 0
  {
    if items == [] then "" else
      "\n" + Indent(indent) + Text(items[0], indent) + (if |items| > 1 then "," else "") + ItemsText(items[1..], indent)
  }

  function JSONString(j: Json): string {
    Text(j, 0) + "\n"
  }
}

/** ParseOrderedJSON as a pushdown automaton: one byte at a time, with a stack of states and a
    pending result. */
module JsonAutomaton {
  import opened Wrappers
  import opened OrderedJson

  /** An ordered map under construction: its key set and its entries in order. */
  datatype OrderedMap = OrderedMap(keySet: set<string>, orderedKV: seq<Entry>)

  const EMPTY_MAP := OrderedMap({}, [])

  /** Put does nothing if the key is already there. */
  function Put(m: OrderedMap, key: string, value: Json): OrderedMap {
    if key in m.keySet then m else OrderedMap(m.keySet + {key}, m.orderedKV + [Entry(key, value)])
  }

  datatype State =
    | Placeholder
    | Single(buffer: string, stringEscape: bool)
    | InMap(currentMap: OrderedMap)
    | KeyValue(keyBuffer: string, phase: nat)
    | InList(list: seq<Json>)

  datatype Parser = Parser(stack: seq<State>, pending: Option<Json>)

  datatype Failure =
    // malformed input
    | TrailingCharacters | MisplacedCharacter | InvalidValue | InvalidMapState | KeyWithoutQuote
    | ColonExpected | UnfinishedInput
    // conditions the parser reports about itself
    | InvalidState | MissingValue | KeyNotEnclosed | NoMapUnderneath | UnknownPhase | InvalidParserState

  predicate Internal(f: Failure) {
    f in {InvalidState, MissingValue, KeyNotEnclosed, NoMapUnderneath, UnknownPhase, InvalidParserState}
  }

  datatype Step = Next(parser: Parser, done: bool) | Stop(failure: Failure)

  // ---------------------------------------------------------------- stack

  function Push(s: seq<State>, x: State): (r: seq<State>)
    ensures |r| == |s| + 1 && Top(r) == x && Pop(r) == s
  {
    s + [x]
  }

  function Top(s: seq<State>): State
    requires s != []
  {
    s[|s| - 1]
  }

  function Pop(s: seq<State>): seq<State>
    requires s != []
  {
    s[..|s| - 1]
  }

  function ReplaceTop(s: seq<State>, x: State): seq<State>
    requires s != []
  {
    Push(Pop(s), x)
  }

  // ---------------------------------------------------------------- one inner step

  predicate IsWhitespace(c: char) {
    c == ' ' || c == '\n' || c == '\r' || c == '\t'
  }

  /** A finished single value: a quoted text or a boolean. */
  function Finalize(s: string): Option<Json> {
    if |s| >= 2 && s[0] == '"' && s[|s| - 1] == '"' then Some(JString(s[1..|s| - 1]))
    else if s == "true" then Some(JBool(true))
    else if s == "false" then Some(JBool(false))
    else None
  }

  function FinishSingle(p: Parser, text: string, done: bool): Step
    requires p.stack != []
  {
    match Finalize(text)
    case Some(j) => Next(Parser(Pop(p.stack), Some(j)), done)
    case None => Stop(InvalidValue)
  }

  function StepPlaceholder(p: Parser, c: char): Step
    requires p.stack != []
  {
    if p.pending.Some? then Stop(InvalidState)
    else if IsWhitespace(c) then Next(p, true)
    else if c == '{' then Next(p.(stack := ReplaceTop(p.stack, InMap(EMPTY_MAP))), true)
    else if c == '[' then Next(p.(stack := ReplaceTop(p.stack, InList([]))), true)
    else if c == ']' || c == '}' || c == ',' then Stop(MisplacedCharacter)
    else Next(p.(stack := ReplaceTop(p.stack, Single("", false))), false)
  }

  function StepSingle(p: Parser, s: State, prev: char, c: char): Step
    requires p.stack != [] && s.Single?
  {
    if s.buffer == "" then Next(p.(stack := ReplaceTop(p.stack, Single([c], c == '"'))), true)
    else if s.stringEscape then
      if c == '"' && prev != '\\' then FinishSingle(p, s.buffer + [c], true)
      else Next(p.(stack := ReplaceTop(p.stack, s.(buffer := s.buffer + [c]))), true)
    else if c == ']' || c == '}' || c == ',' || IsWhitespace(c) then FinishSingle(p, s.buffer, false)
    else Next(p.(stack := ReplaceTop(p.stack, s.(buffer := s.buffer + [c]))), true)
  }

  function StepList(p: Parser, s: State, c: char): Step
    requires p.stack != [] && s.InList?
  {
    var items := if p.pending.Some? then s.list + [p.pending.value] else s.list;
    var q := Parser(ReplaceTop(p.stack, InList(items)), None);
    if IsWhitespace(c) then Next(q, true)
    else if c == ']' then Next(Parser(Pop(p.stack), Some(JList(items))), true)
    else if items == [] then Next(q.(stack := Push(q.stack, Placeholder)), false)
    else if c == ',' then Next(q.(stack := Push(q.stack, Placeholder)), true)
    else Next(q, true)  // anything else between two items is skipped
  }

  function StepMap(p: Parser, s: State, c: char): Step
    requires p.stack != [] && s.InMap?
  {
    if IsWhitespace(c) then Next(p, true)
    else if c == '}' then Next(Parser(Pop(p.stack), Some(JMap(s.currentMap.orderedKV))), true)
    else if c == ',' then Next(p.(stack := Push(p.stack, KeyValue("", 0))), true)
    else if s.currentMap.orderedKV == [] then Next(p.(stack := Push(p.stack, KeyValue("", 0))), false)
    else Stop(InvalidMapState)
  }

  function StepKeyValue(p: Parser, s: State, prev: char, c: char): Step
    requires p.stack != [] && s.KeyValue?
  {
    if s.phase == 0 then
      if s.keyBuffer == "" then
        if IsWhitespace(c) then Next(p, true)
        else if c != '"' then Stop(KeyWithoutQuote)
        else Next(p.(stack := ReplaceTop(p.stack, s.(keyBuffer := [c]))), true)
      else
        var phase := if c == '"' && prev != '\\' then 1 else 0;
        Next(p.(stack := ReplaceTop(p.stack, KeyValue(s.keyBuffer + [c], phase))), true)
    else if s.phase == 1 then
      if IsWhitespace(c) then Next(p, true)
      else if c == ':' then Next(p.(stack := Push(ReplaceTop(p.stack, s.(phase := 2)), Placeholder)), true)
      else Stop(ColonExpected)
    else if s.phase == 2 then StepEntry(p, s)
    else Stop(UnknownPhase)
  }

  /** A complete entry goes into the map underneath. */
  function StepEntry(p: Parser, s: State): Step
    requires p.stack != [] && s.KeyValue?
  {
    if p.pending.None? then Stop(MissingValue)
    else if |s.keyBuffer| < 2 || s.keyBuffer[0] != '"' || s.keyBuffer[|s.keyBuffer| - 1] != '"' then
      Stop(KeyNotEnclosed)
    else
      var key := s.keyBuffer[1..|s.keyBuffer| - 1];
      var below := Pop(p.stack);
      if below == [] || !Top(below).InMap? then Stop(NoMapUnderneath)
      else Next(Parser(ReplaceTop(below, InMap(Put(Top(below).currentMap, key, p.pending.value))), None), false)
  }

  function StepOn(p: Parser, prev: char, c: char): Step {
    if p.stack == [] then (if IsWhitespace(c) then Next(p, true) else Stop(TrailingCharacters))
    else
      var s := Top(p.stack);
      match s
      case Placeholder => StepPlaceholder(p, c)
      case Single(_, _) => StepSingle(p, s, prev, c)
      case InList(_) => StepList(p, s, c)
      case InMap(_) => StepMap(p, s, c)
      case KeyValue(_, _) => StepKeyValue(p, s, prev, c)
  }

  // ---------------------------------------------------------------- invariant

  /** A text that starts with a quote and has not been closed. */
  predicate Open(b: string) {
    && |b| > 0 && b[0] == '"'
    && forall i :: 1 <= i < |b| && b[i] == '"' ==> b[i - 1] == '\\'
  }

  predicate Closed(b: string) {
    |b| >= 2 && b[0] == '"' && b[|b| - 1] == '"' && Quotable(b[1..|b| - 1])
  }

  predicate MapOk(m: OrderedMap) {
    && m.keySet == (set e | e in m.orderedKV :: e.key)
    && Printable(JMap(m.orderedKV))
  }

  predicate StateOk(s: State) {
    match s
    case Placeholder => true
    case Single(b, escape) => b == "" || (if escape then Open(b) else b[0] != '"')
    case InMap(m) => MapOk(m)
    case KeyValue(b, phase) => phase <= 2 && if phase == 0 then b == "" || Open(b) else Closed(b)
    case InList(items) => Printable(JList(items))
  }

  /** Which state may lie directly on top of which. */
  predicate MayCover(below: State, above: State) {
    match below
    case InList(_) => !above.KeyValue?
    case InMap(_) => above.KeyValue?
    case KeyValue(_, phase) => phase == 2 && !above.KeyValue?
    case _ => false
  }

  predicate StackOk(s: seq<State>)
    decreases |s|
  {
    s == [] || (
      && StateOk(Top(s)) && StackOk(Pop(s))
      && if |s| == 1 then !Top(s).KeyValue? else MayCover(Top(Pop(s)), Top(s)))
  }

  /** Who may receive a finished value. */
  predicate Receives(s: seq<State>) {
    s == [] || Top(s).InList? || (Top(s).KeyValue? && Top(s).phase == 2)
  }

  predicate PendingOk(p: Parser) {
    if p.pending.Some? then Printable(p.pending.value) && Receives(p.stack)
    else p.stack != [] && !(Top(p.stack).KeyValue? && Top(p.stack).phase == 2)
  }

  /** The last byte of an unfinished text is the byte read last. */
  predicate BufferOk(s: seq<State>, prev: char) {
    s != [] ==>
      && (Top(s).Single? && Top(s).buffer != "" ==> Top(s).buffer[|Top(s).buffer| - 1] == prev)
      && (Top(s).KeyValue? && Top(s).phase == 0 && Top(s).keyBuffer != "" ==>
            Top(s).keyBuffer[|Top(s).keyBuffer| - 1] == prev)
  }

  predicate Inv(p: Parser, prev: char) {
    StackOk(p.stack) && PendingOk(p) && BufferOk(p.stack, prev)
  }

  /** Inner steps a byte still needs, at most. */
  function Rank(p: Parser): nat {
    if p.stack == [] then 1 else
      match Top(p.stack)
      case Placeholder => 2
      case Single(b, _) => if b == "" then 1 else 3
      case InMap(m) => if m.orderedKV == [] then 2 else 1
      case KeyValue(_, phase) => if phase == 2 then 2 else 1
      case InList(items) => if items == [] && p.pending.None? then 3 else 1
  }
}
