/** The reader half of the persistence grammar (src/file/Parser.java).

    The Java parser keeps its buffer, offset and line counter in static fields;
    here they are an immutable cursor that each reader takes and returns. */
module Parser {
  import opened Results
  import opened Text
  import Serializer

  datatype ParserState = ParserState(bytes: seq<char>, offset: nat, line: int)

  /** A position inside the buffer (the end of the buffer included). */
  type Cursor = s: ParserState | s.offset <= |s.bytes| witness ParserState([], 0, 1)

  /** A value read from the buffer and the position just after it. */
  datatype Parsed<+T> = Parsed(value: T, rest: Cursor)

  /** A computed value, or its failure, as if read up to rest. */
  function Placed<T>(r: Result<T>, rest: Cursor): (p: Result<Parsed<T>>)
    ensures p.Ok? <==> r.Ok?
  {
    match r
    case Ok(v) => Ok(Parsed(v, rest))
    case Fail(e) => Fail(e)
  }

  /** The level archive as the file system presents it. */
  datatype Archive =
    | Missing                       // levels/<name>.zip does not exist
    | Unreadable                    // reading the zip entry fails
    | Contents(bytes: seq<char>)    // the bytes of <name>.json

  /** openFile: a missing archive leaves an empty buffer; a failed read exits. */
  function OpenFile(archive: Archive): (r: Result<Cursor>)
    ensures r.Ok? ==> r.value.offset == 0 && r.value.line == 1
    ensures r.Ok? <==> !archive.Unreadable?
    ensures archive.Missing? ==> r == Ok(ParserState([], 0, 1))
    ensures archive.Contents? ==> r == Ok(ParserState(archive.bytes, 0, 1))
  {
    match archive
    case Missing => Ok(ParserState([], 0, 1))
    case Unreadable => Fail(UnreadableArchive)
    case Contents(b) => Ok(ParserState(b, 0, 1))
  }

  predicate AtEnd(c: Cursor) {
    c.offset == |c.bytes|
  }

  /** The character under the cursor; reading past the buffer throws. */
  function Peek(c: Cursor): (r: Result<char>)
    ensures r.Ok? <==> !AtEnd(c)
    ensures r.Ok? ==> r.value == c.bytes[c.offset]
  {
    if AtEnd(c) then Fail(OutOfInput) else Ok(c.bytes[c.offset])
  }

  function Advance(c: Cursor): (r: Cursor)
    requires !AtEnd(c)
    ensures r.bytes == c.bytes && r.offset == c.offset + 1 && r.line == c.line
  {
    ParserState(c.bytes, c.offset + 1, c.line)
  }

  /** Ok results of every reader keep the buffer and never move backwards. */
  predicate Advances(c: Cursor, d: Cursor) {
    d.bytes == c.bytes && c.offset <= d.offset
  }

  predicate IsWhitespace(ch: char) {
    ch == ' ' || ch == '\n' || ch == '\t' || ch == '\r'
  }

  function Newlines(s: seq<char>): nat {
    if s == [] then 0 else (if s[0] == '\n' then 1 else 0) + Newlines(s[1..])
  }

  /** skipWhitespace: moves past spaces, newlines, tabs and carriage returns,
      counting one line per newline. */
  function SkipWhitespace(c: Cursor): (r: Cursor)
    ensures Advances(c, r)
    ensures AtEnd(r) || !IsWhitespace(r.bytes[r.offset])
    decreases |c.bytes| - c.offset
  {
    if !AtEnd(c) && IsWhitespace(c.bytes[c.offset]) then
      SkipWhitespace(ParserState(c.bytes, c.offset + 1, if c.bytes[c.offset] == '\n' then c.line + 1 else c.line))
    else
      c
  }

  /** Everything skipWhitespace moves past is whitespace. */
  lemma {:induction false} SkipWhitespaceSkips(c: Cursor)
    ensures forall i :: c.offset <= i < SkipWhitespace(c).offset ==> IsWhitespace(c.bytes[i])
    decreases |c.bytes| - c.offset
  {
    if !AtEnd(c) && IsWhitespace(c.bytes[c.offset]) {
      SkipWhitespaceSkips(ParserState(c.bytes, c.offset + 1, if c.bytes[c.offset] == '\n' then c.line + 1 else c.line));
    }
  }

  /** The line counter advances by the number of newlines skipped. */
  lemma {:induction false} SkipWhitespaceLines(c: Cursor)
    ensures SkipWhitespace(c).line == c.line + Newlines(c.bytes[c.offset..SkipWhitespace(c).offset])
    decreases |c.bytes| - c.offset
  {
    if !AtEnd(c) && IsWhitespace(c.bytes[c.offset]) {
      var next := ParserState(c.bytes, c.offset + 1, if c.bytes[c.offset] == '\n' then c.line + 1 else c.line);
      SkipWhitespaceLines(next);
      var r := SkipWhitespace(next);
      assert c.bytes[c.offset..r.offset][1..] == c.bytes[c.offset + 1..r.offset];
    }
  }

  /** consume: the expected character must be under the cursor. */
  function Consume(c: Cursor, ch: char): (r: Result<Cursor>)
    ensures r.Ok? <==> !AtEnd(c) && c.bytes[c.offset] == ch
    ensures r.Ok? ==> r.value == Advance(c)
    ensures r.Fail? && !AtEnd(c) ==> r.error == Unexpected(ch, c.bytes[c.offset], c.line)
    ensures r.Fail? && AtEnd(c) ==> r.error == OutOfInput
  {
    if AtEnd(c) then Fail(OutOfInput)
    else if c.bytes[c.offset] != ch then Fail(Unexpected(ch, c.bytes[c.offset], c.line))
    else Ok(Advance(c))
  }

  /** The characters the number loops collect: digits and '-', plus '.' for doubles. */
  predicate InNumber(ch: char, allowDot: bool) {
    IsDigit(ch) || ch == '-' || (allowDot && ch == '.')
  }

  /** The collecting loop of parseInt/parseDouble. Its guard reads the current
      character even at the end of the buffer, so a number that runs to the end
      of the buffer throws. */
  function ScanNumber(c: Cursor, allowDot: bool): (r: Result<Cursor>)
    ensures r.Ok? ==> Advances(c, r.value) && r.value.line == c.line
    ensures r.Ok? ==> !AtEnd(r.value) && !InNumber(r.value.bytes[r.value.offset], allowDot)
    ensures r.Fail? ==> r.error == OutOfInput
    decreases |c.bytes| - c.offset
  {
    if AtEnd(c) then Fail(OutOfInput)
    else if InNumber(c.bytes[c.offset], allowDot) then ScanNumber(Advance(c), allowDot)
    else Ok(c)
  }

  /** The run collected is made of number characters, and the scan fails
      exactly when the run would reach the end of the buffer. */
  lemma {:induction false} ScanNumberRun(c: Cursor, allowDot: bool)
    ensures ScanNumber(c, allowDot).Ok? ==>
      forall i :: c.offset <= i < ScanNumber(c, allowDot).value.offset ==> InNumber(c.bytes[i], allowDot)
    ensures ScanNumber(c, allowDot).Fail? <==> forall i :: c.offset <= i < |c.bytes| ==> InNumber(c.bytes[i], allowDot)
    decreases |c.bytes| - c.offset
  {
    if !AtEnd(c) && InNumber(c.bytes[c.offset], allowDot) {
      ScanNumberRun(Advance(c), allowDot);
    }
  }

  /** Every character from `from` to the end of the buffer can continue a
      number, so the collecting loop reaches the end and its guard throws. */
  predicate RunsToEnd(c: Cursor, from: nat, allowDot: bool)
    requires from <= |c.bytes|
  {
    forall i :: from <= i < |c.bytes| ==> InNumber(c.bytes[i], allowDot)
  }

  /** parseInt: skip whitespace, collect the run, hand it to Integer.parseInt.
      The value is read from the whole run of digits and '-' after the
      whitespace; the run must stop before the end of the buffer, and
      Integer.parseInt must accept it. */
  function ParseInt(c: Cursor): (r: Result<Parsed<Int32>>)
    ensures r.Ok? ==> Advances(c, r.value.rest)
    ensures r.Ok? ==> var start := SkipWhitespace(c);
      start.offset <= r.value.rest.offset &&
      IntValue(c.bytes[start.offset..r.value.rest.offset]) == Some(r.value.value)
    ensures r.Ok? ==> ScanNumber(SkipWhitespace(c), false) == Ok(r.value.rest)
    ensures RunsToEnd(c, SkipWhitespace(c).offset, false) <==> r == Fail(OutOfInput)
    ensures ScanNumber(SkipWhitespace(c), false).Ok? ==>
      var token := c.bytes[SkipWhitespace(c).offset..ScanNumber(SkipWhitespace(c), false).value.offset];
      (r.Ok? <==> IntValue(token).Some?) && (r.Fail? ==> r.error == BadNumber(token))
  {
    var start := SkipWhitespace(c);
    ScanNumberRun(start, false);
    var stop :- ScanNumber(start, false);
    var token := start.bytes[start.offset..stop.offset];
    match IntValue(token)
    case None => Fail(BadNumber(token))
    case Some(n) => Ok(Parsed(n, stop))
  }

  /** parseDouble: as parseInt, with '.' also collected, handed to Double.parseDouble. */
  function ParseDouble(c: Cursor): (r: Result<Parsed<real>>)
    ensures r.Ok? ==> Advances(c, r.value.rest)
    ensures r.Ok? ==> var start := SkipWhitespace(c);
      start.offset <= r.value.rest.offset &&
      DecimalValue(c.bytes[start.offset..r.value.rest.offset]) == Some(r.value.value)
    ensures r.Ok? ==> ScanNumber(SkipWhitespace(c), true) == Ok(r.value.rest)
    ensures RunsToEnd(c, SkipWhitespace(c).offset, true) <==> r == Fail(OutOfInput)
    ensures ScanNumber(SkipWhitespace(c), true).Ok? ==>
      var token := c.bytes[SkipWhitespace(c).offset..ScanNumber(SkipWhitespace(c), true).value.offset];
      (r.Ok? <==> DecimalValue(token).Some?) && (r.Fail? ==> r.error == BadNumber(token))
  {
    var start := SkipWhitespace(c);
    ScanNumberRun(start, true);
    var stop :- ScanNumber(start, true);
    var token := start.bytes[start.offset..stop.offset];
    match DecimalValue(token)
    case None => Fail(BadNumber(token))
    case Some(v) => Ok(Parsed(v, stop))
  }

  /** parseFloat: a double followed directly by the 'f' suffix; the value is
      the decimal read from the run before the 'f'. */
  function ParseFloat(c: Cursor): (r: Result<Parsed<real>>)
    ensures r.Ok? ==> Advances(c, r.value.rest)
    ensures r.Ok? ==> r.value.rest.offset > 0 && c.bytes[r.value.rest.offset - 1] == 'f'
    ensures r.Ok? ==> var start := SkipWhitespace(c);
      start.offset < r.value.rest.offset &&
      DecimalValue(c.bytes[start.offset..r.value.rest.offset - 1]) == Some(r.value.value)
    ensures ParseDouble(c).Fail? ==> r == Fail(ParseDouble(c).error)
    ensures ParseDouble(c).Ok? ==> var stop := ParseDouble(c).value.rest;
      !AtEnd(stop) && (r.Ok? <==> c.bytes[stop.offset] == 'f') &&
      (r.Fail? ==> r.error == Unexpected('f', c.bytes[stop.offset], stop.line))
  {
    var d :- ParseDouble(c);
    var rest :- Consume(d.rest, 'f');
    Ok(Parsed(d.value, rest))
  }

  /** The collecting loop of parseString: up to the next '"' or the end. */
  function ScanString(c: Cursor): (r: Cursor)
    ensures Advances(c, r) && r.line == c.line
    ensures AtEnd(r) || r.bytes[r.offset] == '"'
    decreases |c.bytes| - c.offset
  {
    if !AtEnd(c) && c.bytes[c.offset] != '"' then ScanString(Advance(c)) else c
  }

  /** The run collected holds no quote. */
  lemma {:induction false} ScanStringRun(c: Cursor)
    ensures forall i :: c.offset <= i < ScanString(c).offset ==> c.bytes[i] != '"'
    decreases |c.bytes| - c.offset
  {
    if !AtEnd(c) && c.bytes[c.offset] != '"' {
      ScanStringRun(Advance(c));
    }
  }

  /** parseString: skip whitespace, then a quoted run without escapes. */
  function ParseString(c: Cursor): (r: Result<Parsed<string>>)
    ensures r.Ok? ==> Advances(c, r.value.rest)
    ensures r.Ok? ==> '"' !in r.value.value
    ensures r.Ok? ==> var start := SkipWhitespace(c);
      r.value.rest.offset == start.offset + |r.value.value| + 2 &&
      c.bytes[start.offset] == '"' && c.bytes[r.value.rest.offset - 1] == '"' &&
      c.bytes[start.offset + 1..r.value.rest.offset - 1] == r.value.value
  {
    var start := SkipWhitespace(c);
    var open :- Consume(start, '"');
    var stop := ScanString(open);
    var close :- Consume(stop, '"');
    var text := open.bytes[open.offset..stop.offset];
    ScanStringRun(open);
    assert forall i :: 0 <= i < |text| ==> text[i] != '"';
    Ok(Parsed(text, close))
  }

  /** Consumes the characters of `word` one by one. */
  function ConsumeWord(c: Cursor, word: string): (r: Result<Cursor>)
    ensures r.Ok? ==> Advances(c, r.value) && r.value.offset == c.offset + |word|
    ensures r.Ok? ==> c.bytes[c.offset..r.value.offset] == word
    decreases word
  {
    if word == [] then Ok(c)
    else
      var next :- Consume(c, word[0]);
      var r :- ConsumeWord(next, word[1..]);
      assert c.bytes[c.offset..r.offset] == [word[0]] + c.bytes[next.offset..r.offset];
      Ok(r)
  }

  /** parseBoolean: the literal true or false, chosen by its first letter. */
  function ParseBoolean(c: Cursor): (r: Result<Parsed<bool>>)
    ensures r.Ok? ==> Advances(c, r.value.rest)
    ensures r.Ok? ==> var start := SkipWhitespace(c);
      start.offset <= r.value.rest.offset &&
      c.bytes[start.offset..r.value.rest.offset] == (if r.value.value then "true" else "false")
    ensures var start := SkipWhitespace(c);
      !AtEnd(start) && start.bytes[start.offset] != 't' && start.bytes[start.offset] != 'f' ==>
        r == Fail(NotBoolean(start.bytes[start.offset], start.line))
  {
    var start := SkipWhitespace(c);
    if !AtEnd(start) && start.bytes[start.offset] == 't' then
      var rest :- ConsumeWord(start, "true");
      Ok(Parsed(true, rest))
    else if !AtEnd(start) && start.bytes[start.offset] == 'f' then
      var rest :- ConsumeWord(start, "false");
      Ok(Parsed(false, rest))
    else if AtEnd(start) then Fail(OutOfInput)
    else Fail(NotBoolean(start.bytes[start.offset], start.line))
  }

  /** checkString: the next quoted string must be the expected key; a different
      key is fatal and reports the line the key was read on. */
  function CheckString(c: Cursor, key: string): (r: Result<Cursor>)
    ensures r.Ok? <==> ParseString(c).Ok? && ParseString(c).value.value == key
    ensures r.Ok? ==> r.value == ParseString(c).value.rest
    ensures ParseString(c).Ok? && ParseString(c).value.value != key ==>
      r == Fail(WrongKey(key, ParseString(c).value.value, ParseString(c).value.rest.line))
  {
    var found :- ParseString(c);
    if found.value != key then Fail(WrongKey(key, found.value, found.rest.line)) else Ok(found.rest)
  }

  /** Only whitespace between the two offsets. */
  predicate Blank(b: seq<char>, from: nat, to: nat)
    requires from <= to <= |b|
  {
    forall i :: from <= i < to ==> IsWhitespace(b[i])
  }

  /** The quoted string at the first non-blank character of c is a key other than `key`. */
  predicate OtherKey(c: Cursor, key: string) {
    ParseString(SkipWhitespace(c)).Ok? && ParseString(SkipWhitespace(c)).value.value != key
  }

  /** What checkString reports then: the key expected, the key found, and the
      line the parser is on once the found key is read. */
  function WrongKeyError(c: Cursor, key: string): (e: Failure)
    requires OtherKey(c, key)
    ensures e.WrongKey? && e.key == key && e.found != key
  {
    WrongKey(key, ParseString(SkipWhitespace(c)).value.value, ParseString(SkipWhitespace(c)).value.rest.line)
  }

  /** The expected key is read, but the character right after its closing
      quote is not ':' (whitespace there is not skipped), or the buffer ends. */
  predicate NoColon(c: Cursor, key: string) {
    var k := ParseString(SkipWhitespace(c));
    k.Ok? && k.value.value == key && (AtEnd(k.value.rest) || k.value.rest.bytes[k.value.rest.offset] != ':')
  }

  /** What consume(':') reports then. */
  function ColonError(c: Cursor, key: string): (e: Failure)
    requires NoColon(c, key)
    ensures e == OutOfInput || (e.Unexpected? && e.expected == ':' && e.actual != ':')
  {
    Consume(ParseString(SkipWhitespace(c)).value.rest, ':').error
  }

  /** The offset just past `"key":` when the key starts at the first non-blank character of c. */
  function ValueStart(c: Cursor, key: string): (v: nat)
    ensures v == SkipWhitespace(c).offset + |Serializer.Quote(key)| + 1
  {
    SkipWhitespace(c).offset + |key| + 3
  }

  /** The text `"key":` starts at the first non-blank character of c, and the
      buffer goes on at least to `stop`. */
  predicate KeyAt(c: Cursor, key: string, stop: int) {
    ValueStart(c, key) <= stop <= |c.bytes| &&
    c.bytes[SkipWhitespace(c).offset..ValueStart(c, key)] == Serializer.Quote(key) + ":"
  }

  /** The quoted key starts at the first non-blank character of c and ends
      before `stop`, which lies inside the buffer. */
  predicate QuotedKeyAt(c: Cursor, key: string, stop: int) {
    SkipWhitespace(c).offset + |key| + 2 < stop <= |c.bytes| &&
    c.bytes[SkipWhitespace(c).offset..SkipWhitespace(c).offset + |key| + 2] == Serializer.Quote(key)
  }

  /** The expected key is read, but the first non-blank character after it
      is not ':', or the buffer ends: consumeBeginObjectProperty skips
      whitespace before its ':'. */
  predicate NoBlankColon(c: Cursor, key: string) {
    var k := ParseString(SkipWhitespace(c));
    k.Ok? && k.value.value == key &&
    (AtEnd(SkipWhitespace(k.value.rest)) || SkipWhitespace(k.value.rest).bytes[SkipWhitespace(k.value.rest).offset] != ':')
  }

  /** The common head of the consume*Property readers: whitespace, the quoted
      key, then ':' with no whitespace allowed before it. The cursor is left
      just past the ':' on the line the key started on. */
  function ConsumeKey(c: Cursor, key: string): (r: Result<Cursor>)
    ensures r.Ok? ==> Advances(c, r.value) && r.value.offset > c.offset && c.bytes[r.value.offset - 1] == ':'
    ensures r.Ok? <==>
      (CheckString(SkipWhitespace(c), key).Ok? && Consume(CheckString(SkipWhitespace(c), key).value, ':').Ok?)
    ensures r.Ok? ==>
      KeyAt(c, key, r.value.offset) && r.value.offset == ValueStart(c, key) && r.value.line == SkipWhitespace(c).line
    ensures OtherKey(c, key) ==> r == Fail(WrongKeyError(c, key))
    ensures NoColon(c, key) ==> r == Fail(ColonError(c, key))
  {
    var start := SkipWhitespace(c);
    assert SkipWhitespace(start) == start;
    var afterKey :- CheckString(start, key);
    assert c.bytes[start.offset..afterKey.offset] == Serializer.Quote(key);
    Consume(afterKey, ':')
  }

  /** After the key come blanks up to the first non-blank character. */
  lemma KeyThenBlank(c: Cursor, key: string, head: Cursor)
    requires ConsumeKey(c, key) == Ok(head)
    ensures head.bytes == c.bytes && head.offset == ValueStart(c, key)
    ensures KeyAt(c, key, SkipWhitespace(head).offset)
    ensures Blank(c.bytes, ValueStart(c, key), SkipWhitespace(head).offset)
  {
    SkipWhitespaceSkips(head);
  }

  /** A run between two quotes is the quoted text of that run. */
  lemma QuotedSlice(b: seq<char>, open: nat, close: nat, text: string)
    requires open < close <= |b| && close == open + |text| + 2
    requires b[open] == '"' && b[close - 1] == '"' && b[open + 1..close - 1] == text
    ensures b[open..close] == Serializer.Quote(text)
  {
    assert b[open..close] == [b[open]] + b[open + 1..close - 1] + [b[close - 1]];
  }

  /** After `"key":` at the first non-blank character of c come blanks and
      then `text`, which ends at `stop`. */
  predicate ValueTextAt(c: Cursor, key: string, text: string, stop: int) {
    KeyAt(c, key, stop - |text|) && stop <= |c.bytes| &&
    Blank(c.bytes, ValueStart(c, key), stop - |text|) && c.bytes[stop - |text|..stop] == text
  }

  /** A string value: blanks, then `value` between quotes, which holds none. */
  predicate QuotedValueAt(c: Cursor, key: string, value: string, stop: int) {
    ValueTextAt(c, key, Serializer.Quote(value), stop) && '"' !in value
  }

  /** A boolean value: blanks, then the word true or false, whichever `value` is. */
  predicate WordAt(c: Cursor, key: string, value: bool, stop: int) {
    ValueTextAt(c, key, if value then "true" else "false", stop)
  }

  /** An int value: blanks, then a token ending at `stop` that Integer.parseInt reads as `value`. */
  predicate IntTokenAt(c: Cursor, key: string, value: Int32, stop: int) {
    KeyAt(c, key, stop) &&
    exists t :: (ValueStart(c, key) <= t <= stop && Blank(c.bytes, ValueStart(c, key), t) &&
                 IntValue(c.bytes[t..stop]) == Some(value))
  }

  /** A decimal value: blanks, then a token ending at `stop` whose decimal value is `value`. */
  predicate DecimalTokenAt(c: Cursor, key: string, value: real, stop: int) {
    KeyAt(c, key, stop) &&
    exists t :: (ValueStart(c, key) <= t <= stop && Blank(c.bytes, ValueStart(c, key), t) &&
                 DecimalValue(c.bytes[t..stop]) == Some(value))
  }

  /** The string value of a property sits between two quotes after blanks. */
  lemma StringAfterKey(c: Cursor, key: string, head: Cursor)
    requires ConsumeKey(c, key) == Ok(head)
    ensures ParseString(head).Ok? ==>
      QuotedValueAt(c, key, ParseString(head).value.value, ParseString(head).value.rest.offset)
  {
    if ParseString(head).Ok? {
      KeyThenBlank(c, key, head);
      var v := ParseString(head).value;
      QuotedSlice(c.bytes, SkipWhitespace(head).offset, v.rest.offset, v.value);
    }
  }

  function ConsumeStringProperty(c: Cursor, key: string): (r: Result<Parsed<string>>)
    ensures r.Ok? ==> Advances(c, r.value.rest)
    ensures r.Ok? <==> ConsumeKey(c, key).Ok? && ParseString(ConsumeKey(c, key).value).Ok?
    ensures r.Ok? ==> r.value == ParseString(ConsumeKey(c, key).value).value
    ensures r.Ok? ==> KeyAt(c, key, r.value.rest.offset)
    ensures OtherKey(c, key) ==> r == Fail(WrongKeyError(c, key))
    ensures NoColon(c, key) ==> r == Fail(ColonError(c, key))
    ensures r.Ok? ==> QuotedValueAt(c, key, r.value.value, r.value.rest.offset)
  {
    var head :- ConsumeKey(c, key);
    StringAfterKey(c, key, head);
    ParseString(head)
  }

  function ConsumeIntProperty(c: Cursor, key: string): (r: Result<Parsed<Int32>>)
    ensures r.Ok? ==> Advances(c, r.value.rest)
    ensures r.Ok? <==> ConsumeKey(c, key).Ok? && ParseInt(ConsumeKey(c, key).value).Ok?
    ensures r.Ok? ==> r.value == ParseInt(ConsumeKey(c, key).value).value
    ensures r.Ok? ==> KeyAt(c, key, r.value.rest.offset)
    ensures OtherKey(c, key) ==> r == Fail(WrongKeyError(c, key))
    ensures NoColon(c, key) ==> r == Fail(ColonError(c, key))
    ensures r.Ok? ==> IntTokenAt(c, key, r.value.value, r.value.rest.offset)
    ensures r.Ok? ==> !AtEnd(r.value.rest) && !InNumber(c.bytes[r.value.rest.offset], false)
  {
    var head :- ConsumeKey(c, key);
    KeyThenBlank(c, key, head);
    ParseInt(head)
  }

  function ConsumeFloatProperty(c: Cursor, key: string): (r: Result<Parsed<real>>)
    ensures r.Ok? ==> Advances(c, r.value.rest)
    ensures r.Ok? <==> ConsumeKey(c, key).Ok? && ParseFloat(ConsumeKey(c, key).value).Ok?
    ensures r.Ok? ==> r.value == ParseFloat(ConsumeKey(c, key).value).value
    ensures r.Ok? ==> KeyAt(c, key, r.value.rest.offset)
    ensures OtherKey(c, key) ==> r == Fail(WrongKeyError(c, key))
    ensures NoColon(c, key) ==> r == Fail(ColonError(c, key))
    ensures r.Ok? ==> r.value.rest.offset > 0 && DecimalTokenAt(c, key, r.value.value, r.value.rest.offset - 1)
    ensures r.Ok? ==> c.bytes[r.value.rest.offset - 1] == 'f'
  {
    var head :- ConsumeKey(c, key);
    KeyThenBlank(c, key, head);
    ParseFloat(head)
  }

  function ConsumeDoubleProperty(c: Cursor, key: string): (r: Result<Parsed<real>>)
    ensures r.Ok? ==> Advances(c, r.value.rest)
    ensures r.Ok? <==> ConsumeKey(c, key).Ok? && ParseDouble(ConsumeKey(c, key).value).Ok?
    ensures r.Ok? ==> r.value == ParseDouble(ConsumeKey(c, key).value).value
    ensures r.Ok? ==> KeyAt(c, key, r.value.rest.offset)
    ensures OtherKey(c, key) ==> r == Fail(WrongKeyError(c, key))
    ensures NoColon(c, key) ==> r == Fail(ColonError(c, key))
    ensures r.Ok? ==> DecimalTokenAt(c, key, r.value.value, r.value.rest.offset)
    ensures r.Ok? ==> !AtEnd(r.value.rest) && !InNumber(c.bytes[r.value.rest.offset], true)
  {
    var head :- ConsumeKey(c, key);
    KeyThenBlank(c, key, head);
    ParseDouble(head)
  }

  function ConsumeBooleanProperty(c: Cursor, key: string): (r: Result<Parsed<bool>>)
    ensures r.Ok? ==> Advances(c, r.value.rest)
    ensures r.Ok? <==> ConsumeKey(c, key).Ok? && ParseBoolean(ConsumeKey(c, key).value).Ok?
    ensures r.Ok? ==> r.value == ParseBoolean(ConsumeKey(c, key).value).value
    ensures r.Ok? ==> KeyAt(c, key, r.value.rest.offset)
    ensures OtherKey(c, key) ==> r == Fail(WrongKeyError(c, key))
    ensures NoColon(c, key) ==> r == Fail(ColonError(c, key))
    ensures r.Ok? ==> WordAt(c, key, r.value.value, r.value.rest.offset)
  {
    var head :- ConsumeKey(c, key);
    KeyThenBlank(c, key, head);
    ParseBoolean(head)
  }

  /** consumeEndObjectProperty: whitespace, then '}'. */
  function ConsumeEndObjectProperty(c: Cursor): (r: Result<Cursor>)
    ensures r.Ok? ==> Advances(c, r.value) && r.value.offset > c.offset
    ensures r.Ok? ==> r.value.offset == SkipWhitespace(c).offset + 1 && c.bytes[r.value.offset - 1] == '}'
    ensures !AtEnd(SkipWhitespace(c)) && SkipWhitespace(c).bytes[SkipWhitespace(c).offset] != '}' ==> r.Fail?
  {
    Consume(SkipWhitespace(c), '}')
  }

  /** consumeBeginObjectProperty: whitespace, the key, whitespace, ':', whitespace, '{'. */
  function ConsumeBeginObjectProperty(c: Cursor, key: string): (r: Result<Cursor>)
    ensures r.Ok? ==> Advances(c, r.value) && r.value.offset > c.offset
    ensures r.Ok? ==> c.bytes[r.value.offset - 1] == '{'
    ensures r.Ok? ==> QuotedKeyAt(c, key, r.value.offset)
    ensures ParseString(SkipWhitespace(c)).Ok? && ParseString(SkipWhitespace(c)).value.value != key ==> r.Fail?
    ensures OtherKey(c, key) ==> r == Fail(WrongKeyError(c, key))
    ensures NoBlankColon(c, key) ==> r.Fail? && (r.error == OutOfInput || (r.error.Unexpected? && r.error.expected == ':'))
  {
    var start := SkipWhitespace(c);
    assert SkipWhitespace(start) == start;
    var afterKey :- CheckString(start, key);
    assert c.bytes[start.offset..afterKey.offset] == Serializer.Quote(key);
    var colon :- Consume(SkipWhitespace(afterKey), ':');
    Consume(SkipWhitespace(colon), '{')
  }

  /** The head of parseComponent: a quoted tag, whitespace, ':', whitespace
      and '{'. Unlike consumeBeginObjectProperty it accepts any tag and hands
      it back. */
  function ComponentHead(c: Cursor): (r: Result<Parsed<string>>)
    ensures r.Ok? ==> Advances(c, r.value.rest) && r.value.rest.offset > c.offset
    ensures r.Ok? ==> c.bytes[r.value.rest.offset - 1] == '{' && '"' !in r.value.value
    ensures ParseString(c).Fail? ==> r == Fail(ParseString(c).error)
  {
    var tag :- ParseString(c);
    var colon :- Consume(SkipWhitespace(tag.rest), ':');
    var open :- Consume(SkipWhitespace(colon), '{');
    Ok(Parsed(tag.value, open))
  }

  lemma SkipWhitespaceIdempotent(c: Cursor)
    ensures SkipWhitespace(SkipWhitespace(c)) == SkipWhitespace(c)
  {
  }

  /** Where consumeBeginObjectProperty accepts an opening line for `key`, the
      component head reads the same line, yields `key` and stops at the same
      place. */
  lemma ComponentHeadAgrees(c: Cursor, key: string)
    requires ConsumeBeginObjectProperty(c, key).Ok?
    ensures ComponentHead(c) == Ok(Parsed(key, ConsumeBeginObjectProperty(c, key).value))
  {
    SkipWhitespaceIdempotent(c);
  }
}
