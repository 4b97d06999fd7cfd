/** Agreement of the writer (Serializer) and the reader (Parser) on each
    primitive of the persistence grammar: when the buffer holds, at the
    cursor, the text a writer helper produced, the matching reader returns the
    written value and stops at a known offset. */
module Grammar {
  import opened Results
  import opened Text
  import opened Serializer
  import opened Parser

  /** The buffer holds `s` at offset `o`. */
  predicate At(b: seq<char>, o: nat, s: string) {
    o + |s| <= |b| && Matches(b, o, s)
  }

  predicate Matches(b: seq<char>, o: nat, s: string)
    requires o + |s| <= |b|
    decreases s
  {
    s == [] || (b[o] == s[0] && Matches(b, o + 1, s[1..]))
  }

  predicate AllWhitespace(s: string) {
    forall i :: 0 <= i < |s| ==> IsWhitespace(s[i])
  }

  lemma NewlineWhitespace()
    ensures AllWhitespace("\n")
  {
  }

  /** A reader that returns a cursor stopped at offset `off` of buffer `b`. */
  predicate Reaches(r: Result<Cursor>, b: seq<char>, off: nat) {
    r.Ok? && r.value.bytes == b && r.value.offset == off
  }

  /** A reader that returned `v` and stopped at offset `off` of buffer `b`. */
  predicate Yields<T(==)>(r: Result<Parsed<T>>, v: T, b: seq<char>, off: nat) {
    r.Ok? && r.value.value == v && r.value.rest.bytes == b && r.value.rest.offset == off
  }

  lemma {:induction false} AtSplit(b: seq<char>, o: nat, s: string, t: string)
    requires At(b, o, s + t)
    ensures At(b, o, s) && At(b, o + |s|, t)
    decreases s
  {
    if s == [] {
      assert s + t == t;
    } else {
      assert (s + t)[0] == s[0] && (s + t)[1..] == s[1..] + t;
      AtSplit(b, o + 1, s[1..], t);
    }
  }

  lemma {:induction false} AtJoin(b: seq<char>, o: nat, s: string, t: string)
    requires At(b, o, s) && At(b, o + |s|, t)
    ensures At(b, o, s + t)
    decreases s
  {
    if s == [] {
      assert s + t == t;
    } else {
      AtJoin(b, o + 1, s[1..], t);
      assert (s + t)[0] == s[0] && (s + t)[1..] == s[1..] + t;
    }
  }

  lemma {:induction false} AtChar(b: seq<char>, o: nat, s: string, i: nat)
    requires At(b, o, s) && i < |s|
    ensures o + i < |b| && b[o + i] == s[i]
    decreases i
  {
    if i > 0 {
      AtChar(b, o + 1, s[1..], i - 1);
    }
  }

  lemma AtTail(b: seq<char>, o: nat, s: string)
    requires At(b, o, s) && |s| > 0
    ensures b[o] == s[0] && At(b, o + 1, s[1..])
  {
  }

  lemma {:induction false} AtSlice(b: seq<char>, o: nat, s: string)
    requires At(b, o, s)
    ensures o + |s| <= |b| && b[o..o + |s|] == s
    decreases s
  {
    if s != [] {
      AtSlice(b, o + 1, s[1..]);
      assert b[o..o + |s|] == [b[o]] + b[o + 1..o + |s|];
      assert s == [s[0]] + s[1..];
    }
  }

  lemma TabsAreWhitespace(n: int)
    ensures AllWhitespace(AddTabs(n))
  {
  }

  lemma WhitespaceJoin(s: string, t: string)
    requires AllWhitespace(s) && AllWhitespace(t)
    ensures AllWhitespace(s + t)
  {
  }

  /** skipWhitespace stops exactly after a run of whitespace followed by a
      non-whitespace character or the end of the buffer. */
  lemma {:induction false} SkipOver(c: Cursor, ws: string)
    requires AllWhitespace(ws) && At(c.bytes, c.offset, ws)
    requires c.offset + |ws| == |c.bytes| || !IsWhitespace(c.bytes[c.offset + |ws|])
    ensures SkipWhitespace(c).offset == c.offset + |ws| && SkipWhitespace(c).bytes == c.bytes
    decreases |ws|
  {
    if ws != [] {
      AtTail(c.bytes, c.offset, ws);
      var next := ParserState(c.bytes, c.offset + 1, if c.bytes[c.offset] == '\n' then c.line + 1 else c.line);
      SkipOver(next, ws[1..]);
    }
  }

  /** The string loop stops at the first '"'. */
  lemma {:induction false} ScanStringOver(c: Cursor, s: string)
    requires '"' !in s && At(c.bytes, c.offset, s + "\"")
    ensures ScanString(c).offset == c.offset + |s|
    decreases |s|
  {
    AtTail(c.bytes, c.offset, s + "\"");
    if s != [] {
      assert (s + "\"")[1..] == s[1..] + "\"";
      ScanStringOver(Advance(c), s[1..]);
    }
  }

  /** The number loop stops at the first character it does not collect. */
  lemma {:induction false} ScanNumberOver(c: Cursor, token: string, allowDot: bool)
    requires At(c.bytes, c.offset, token)
    requires forall i :: 0 <= i < |token| ==> InNumber(token[i], allowDot)
    requires c.offset + |token| < |c.bytes| && !InNumber(c.bytes[c.offset + |token|], allowDot)
    ensures Reaches(ScanNumber(c, allowDot), c.bytes, c.offset + |token|)
    decreases |token|
  {
    if token != [] {
      AtTail(c.bytes, c.offset, token);
      ScanNumberOver(Advance(c), token[1..], allowDot);
    }
  }

  /** parseString after optional whitespace reads back a quoted string. */
  lemma StringAt(c: Cursor, pre: string, s: string)
    requires AllWhitespace(pre) && '"' !in s
    requires At(c.bytes, c.offset, pre + Quote(s))
    ensures Yields(ParseString(c), s, c.bytes, c.offset + |pre| + |s| + 2)
  {
    var b, o := c.bytes, c.offset;
    AtSplit(b, o, pre, Quote(s));
    var q := o + |pre|;
    AtTail(b, q, Quote(s));
    SkipOver(c, pre);
    var start := SkipWhitespace(c);
    assert Quote(s)[1..] == s + "\"";
    ScanStringOver(Advance(start), s);
    var stop := ScanString(Advance(start));
    AtSplit(b, q + 1, s, "\"");
    AtSlice(b, q + 1, s);
    AtChar(b, q + 1 + |s|, "\"", 0);
    ParseStringStep(c, start, stop);
  }

  lemma ParseStringStep(c: Cursor, start: Cursor, stop: Cursor)
    requires start == SkipWhitespace(c)
    requires !AtEnd(start) && start.bytes[start.offset] == '"'
    requires stop == ScanString(Advance(start))
    requires !AtEnd(stop) && stop.bytes[stop.offset] == '"'
    ensures ParseString(c) == Ok(Parsed(start.bytes[start.offset + 1..stop.offset], Advance(stop)))
  {
  }

  /** The key part of a property line, after optional whitespace, is accepted
      by the common consume*Property head, which stops after the ':'. */
  lemma KeyAt(c: Cursor, pre: string, key: string, tabs: int)
    requires AllWhitespace(pre) && '"' !in key
    requires At(c.bytes, c.offset, pre + Key(key, tabs))
    ensures Reaches(ConsumeKey(c, key), c.bytes, c.offset + |pre| + |Key(key, tabs)| - 1)
  {
    var b, o := c.bytes, c.offset;
    var ws := pre + AddTabs(tabs);
    TabsAreWhitespace(tabs);
    WhitespaceJoin(pre, AddTabs(tabs));
    KeyText(pre, key, tabs);
    AtSplit(b, o, ws, Quote(key) + ": ");
    AtSplit(b, o + |ws|, Quote(key), ": ");
    AtChar(b, o + |ws|, Quote(key), 0);
    SkipOver(c, ws);
    var start := SkipWhitespace(c);
    QuotedKeyAt(start, key);
    ConsumeKeyStep(c, key, start);
  }

  lemma KeyText(pre: string, key: string, tabs: int)
    ensures pre + Key(key, tabs) == (pre + AddTabs(tabs)) + (Quote(key) + ": ")
  {
  }

  lemma QuotedKeyAt(start: Cursor, key: string)
    requires '"' !in key
    requires At(start.bytes, start.offset, Quote(key) + ": ")
    ensures Yields(ParseString(start), key, start.bytes, start.offset + |Quote(key)|)
    ensures var k := ParseString(start).value.rest; !AtEnd(k) && k.bytes[k.offset] == ':'
  {
    var b, q := start.bytes, start.offset;
    AtSplit(b, q, Quote(key), ": ");
    assert "" + Quote(key) == Quote(key);
    StringAt(start, "", key);
    AtChar(b, q + |Quote(key)|, ": ", 0);
  }

  lemma ConsumeKeyStep(c: Cursor, key: string, start: Cursor)
    requires start == SkipWhitespace(c)
    requires ParseString(start).Ok? && ParseString(start).value.value == key
    requires var k := ParseString(start).value.rest; !AtEnd(k) && k.bytes[k.offset] == ':'
    ensures ConsumeKey(c, key) == Ok(Advance(ParseString(start).value.rest))
  {
  }

  /** A decimal token (such as a printed float) with its 'f' suffix, after a
      single space. */
  lemma FloatValueAt(c: Cursor, t: string, v: real)
    requires |t| > 0 && forall i :: 0 <= i < |t| ==> InNumber(t[i], true)
    requires DecimalValue(t) == Some(v)
    requires At(c.bytes, c.offset, " " + (t + "f"))
    ensures Yields(ParseFloat(c), v, c.bytes, c.offset + |t| + 2)
  {
    var b, o := c.bytes, c.offset;
    AtSplit(b, o, " ", t + "f");
    AtSplit(b, o + 1, t, "f");
    AtChar(b, o, " ", 0);
    AtChar(b, o + 1, t, 0);
    SkipOver(c, " ");
    var start := SkipWhitespace(c);
    AtChar(b, o + 1 + |t|, "f", 0);
    ScanNumberOver(start, t, true);
    var stop := ScanNumber(start, true).value;
    AtSlice(b, o + 1, t);
    ParseFloatStep(c, start, stop);
  }

  lemma PrintedFloatToken(v: real)
    requires Printable(v)
    ensures |FloatText(v)| > 0 && forall i :: 0 <= i < |FloatText(v)| ==> InNumber(FloatText(v)[i], true)
    ensures DecimalValue(FloatText(v)) == Some(v)
  {
    FloatTextChars(v);
    FloatRoundTrip(v);
  }

  lemma ParseFloatStep(c: Cursor, start: Cursor, stop: Cursor)
    requires start == SkipWhitespace(c)
    requires ScanNumber(start, true) == Ok(stop)
    requires DecimalValue(start.bytes[start.offset..stop.offset]).Some?
    requires stop.bytes[stop.offset] == 'f'
    ensures ParseFloat(c) == Ok(Parsed(DecimalValue(start.bytes[start.offset..stop.offset]).value, Advance(stop)))
  {
  }

  /** An int token (such as a printed int) after a single space, followed by a
      character that is not part of a number. */
  lemma IntValueAt(c: Cursor, t: string, n: Int32)
    requires |t| > 0 && forall i :: 0 <= i < |t| ==> InNumber(t[i], false)
    requires IntValue(t) == Some(n)
    requires At(c.bytes, c.offset, " " + t)
    requires c.offset + 1 + |t| < |c.bytes| && !InNumber(c.bytes[c.offset + 1 + |t|], false)
    ensures Yields(ParseInt(c), n, c.bytes, c.offset + 1 + |t|)
  {
    var start := IntStart(c, t);
    ScanNumberOver(start, t, false);
    var stop := ScanNumber(start, false).value;
    assert start.bytes[start.offset..stop.offset] == t;
    ParseIntStep(c, start, stop);
  }

  /** The single space before a token is skipped. */
  lemma IntStart(c: Cursor, t: string) returns (start: Cursor)
    requires |t| > 0 && forall i :: 0 <= i < |t| ==> InNumber(t[i], false)
    requires At(c.bytes, c.offset, " " + t)
    ensures start == SkipWhitespace(c)
    ensures start.bytes == c.bytes && start.offset == c.offset + 1
    ensures At(start.bytes, start.offset, t)
    ensures start.bytes[start.offset..start.offset + |t|] == t
  {
    var b, o := c.bytes, c.offset;
    AtSplit(b, o, " ", t);
    AtChar(b, o, " ", 0);
    AtChar(b, o + 1, t, 0);
    SkipOver(c, " ");
    start := SkipWhitespace(c);
    AtSlice(b, o + 1, t);
  }

  lemma PrintedIntToken(n: Int32)
    ensures |IntText(n)| > 0 && forall i :: 0 <= i < |IntText(n)| ==> InNumber(IntText(n)[i], false)
    ensures IntValue(IntText(n)) == Some(n)
  {
    IntTextChars(n);
    IntRoundTrip(n);
  }

  lemma ParseIntStep(c: Cursor, start: Cursor, stop: Cursor)
    requires start == SkipWhitespace(c)
    requires ScanNumber(start, false) == Ok(stop)
    requires IntValue(start.bytes[start.offset..stop.offset]).Some?
    ensures ParseInt(c) == Ok(Parsed(IntValue(start.bytes[start.offset..stop.offset]).value, stop))
  {
  }

  /** A boolean literal after a single space. */
  lemma BoolValueAt(c: Cursor, v: bool)
    requires At(c.bytes, c.offset, " " + BoolText(v))
    ensures Yields(ParseBoolean(c), v, c.bytes, c.offset + 1 + |BoolText(v)|)
  {
    var b, o := c.bytes, c.offset;
    AtSplit(b, o, " ", BoolText(v));
    AtChar(b, o, " ", 0);
    AtChar(b, o + 1, BoolText(v), 0);
    SkipOver(c, " ");
    var start := SkipWhitespace(c);
    WordAt(start, BoolText(v));
  }

  lemma {:induction false} WordAt(c: Cursor, w: string)
    requires At(c.bytes, c.offset, w)
    ensures Reaches(ConsumeWord(c, w), c.bytes, c.offset + |w|)
    decreases |w|
  {
    if w != [] {
      AtTail(c.bytes, c.offset, w);
      WordAt(Advance(c), w[1..]);
    }
  }

  /** A property line splits into its key (read by ConsumeKey), a space and its
      value (read by the value reader), and its ending. */
  lemma PropertySplit(b: seq<char>, o: nat, pre: string, key: string, tabs: int, value: string, e: string)
    requires At(b, o, pre + (Key(key, tabs) + value + e))
    ensures At(b, o, pre + Key(key, tabs))
    ensures At(b, o + |pre| + |Key(key, tabs)| - 1, " " + value)
    ensures At(b, o + |pre| + |Key(key, tabs)| + |value|, e)
  {
    var k := Key(key, tabs);
    assert pre + (k + value + e) == (pre + k) + value + e;
    AtSplit(b, o, (pre + k) + value, e);
    AtSplit(b, o, pre + k, value);
    assert (pre + k) == (pre + k)[..|pre + k| - 1] + " ";
    AtSplit(b, o, (pre + k)[..|pre + k| - 1], " ");
    AtJoin(b, o + |pre| + |k| - 1, " ", value);
  }

  /** The offset at which a property reader stops: just before the ending. */
  function PropertyEnd(o: nat, pre: string, key: string, tabs: int, value: string): nat {
    o + |pre| + |Key(key, tabs)| + |value|
  }

  /** The key of a property line is read by ConsumeKey; what follows is the
      value after a single space, then the ending. */
  lemma HeadAt(c: Cursor, pre: string, key: string, tabs: int, value: string, e: string)
    requires AllWhitespace(pre) && '"' !in key
    requires At(c.bytes, c.offset, pre + (Key(key, tabs) + value + e))
    ensures Reaches(ConsumeKey(c, key), c.bytes, c.offset + |pre| + |Key(key, tabs)| - 1)
    ensures At(c.bytes, c.offset + |pre| + |Key(key, tabs)| - 1, " " + value)
    ensures At(c.bytes, PropertyEnd(c.offset, pre, key, tabs, value), e)
  {
    PropertySplit(c.bytes, c.offset, pre, key, tabs, value, e);
    KeyAt(c, pre, key, tabs);
  }

  lemma EndingStopsNumbers(newline: bool, comma: bool)
    requires newline || comma
    ensures |AddEnding(newline, comma)| > 0 && !InNumber(AddEnding(newline, comma)[0], true)
  {
  }

  lemma FloatTokenPropertyAt(c: Cursor, pre: string, key: string, tabs: int, t: string, v: real, e: string)
    requires AllWhitespace(pre) && '"' !in key
    requires |t| > 0 && forall i :: 0 <= i < |t| ==> InNumber(t[i], true)
    requires DecimalValue(t) == Some(v)
    requires At(c.bytes, c.offset, pre + (Key(key, tabs) + (t + "f") + e))
    ensures Yields(ConsumeFloatProperty(c, key), v, c.bytes, PropertyEnd(c.offset, pre, key, tabs, t + "f"))
  {
    HeadAt(c, pre, key, tabs, t + "f", e);
    var head := ConsumeKey(c, key).value;
    FloatValueAt(head, t, v);
    ConsumeFloatStep(c, key, head);
  }

  lemma FloatPropertyAt(c: Cursor, pre: string, key: string, v: real, tabs: int, newline: bool, comma: bool)
    requires AllWhitespace(pre) && '"' !in key && Text.Printable(v)
    requires At(c.bytes, c.offset, pre + AddFloatProperty(key, v, tabs, newline, comma))
    ensures Yields(ConsumeFloatProperty(c, key), v, c.bytes, PropertyEnd(c.offset, pre, key, tabs, FloatText(v) + "f"))
    ensures At(c.bytes, PropertyEnd(c.offset, pre, key, tabs, FloatText(v) + "f"), AddEnding(newline, comma))
  {
    FloatPropertyText(key, v, tabs, newline, comma);
    PrintedFloatToken(v);
    HeadAt(c, pre, key, tabs, FloatText(v) + "f", AddEnding(newline, comma));
    FloatTokenPropertyAt(c, pre, key, tabs, FloatText(v), v, AddEnding(newline, comma));
  }

  lemma FloatPropertyText(key: string, v: real, tabs: int, newline: bool, comma: bool)
    requires Printable(v)
    ensures AddFloatProperty(key, v, tabs, newline, comma) ==
      Key(key, tabs) + (FloatText(v) + "f") + AddEnding(newline, comma)
  {
  }

  lemma IntTokenPropertyAt(c: Cursor, pre: string, key: string, tabs: int, t: string, n: Int32, e: string)
    requires AllWhitespace(pre) && '"' !in key
    requires |t| > 0 && forall i :: 0 <= i < |t| ==> InNumber(t[i], false)
    requires IntValue(t) == Some(n)
    requires |e| > 0 && !InNumber(e[0], false)
    requires At(c.bytes, c.offset, pre + (Key(key, tabs) + t + e))
    ensures Yields(ConsumeIntProperty(c, key), n, c.bytes, PropertyEnd(c.offset, pre, key, tabs, t))
  {
    HeadAt(c, pre, key, tabs, t, e);
    AtChar(c.bytes, PropertyEnd(c.offset, pre, key, tabs, t), e, 0);
    var head := ConsumeKey(c, key).value;
    IntValueAt(head, t, n);
    ConsumeIntStep(c, key, head);
  }

  lemma IntPropertyAt(c: Cursor, pre: string, key: string, n: Int32, tabs: int, newline: bool, comma: bool)
    requires AllWhitespace(pre) && '"' !in key && (newline || comma)
    requires At(c.bytes, c.offset, pre + AddIntProperty(key, n, tabs, newline, comma))
    ensures Yields(ConsumeIntProperty(c, key), n, c.bytes, PropertyEnd(c.offset, pre, key, tabs, IntText(n)))
    ensures At(c.bytes, PropertyEnd(c.offset, pre, key, tabs, IntText(n)), AddEnding(newline, comma))
  {
    PrintedIntToken(n);
    EndingStopsNumbers(newline, comma);
    HeadAt(c, pre, key, tabs, IntText(n), AddEnding(newline, comma));
    IntTokenPropertyAt(c, pre, key, tabs, IntText(n), n, AddEnding(newline, comma));
  }

  lemma StringPropertyAt(c: Cursor, pre: string, key: string, s: string, tabs: int, newline: bool, comma: bool)
    requires AllWhitespace(pre) && '"' !in key && '"' !in s
    requires At(c.bytes, c.offset, pre + AddStringProperty(key, s, tabs, newline, comma))
    ensures Yields(ConsumeStringProperty(c, key), s, c.bytes, PropertyEnd(c.offset, pre, key, tabs, Quote(s)))
    ensures At(c.bytes, PropertyEnd(c.offset, pre, key, tabs, Quote(s)), AddEnding(newline, comma))
  {
    HeadAt(c, pre, key, tabs, Quote(s), AddEnding(newline, comma));
    var head := ConsumeKey(c, key).value;
    StringAt(head, " ", s);
    ConsumeStringStep(c, key, head);
  }

  lemma BoolPropertyAt(c: Cursor, pre: string, key: string, v: bool, tabs: int, newline: bool, comma: bool)
    requires AllWhitespace(pre) && '"' !in key
    requires At(c.bytes, c.offset, pre + AddBooleanProperty(key, v, tabs, newline, comma))
    ensures Yields(ConsumeBooleanProperty(c, key), v, c.bytes, PropertyEnd(c.offset, pre, key, tabs, BoolText(v)))
    ensures At(c.bytes, PropertyEnd(c.offset, pre, key, tabs, BoolText(v)), AddEnding(newline, comma))
  {
    HeadAt(c, pre, key, tabs, BoolText(v), AddEnding(newline, comma));
    var head := ConsumeKey(c, key).value;
    BoolValueAt(head, v);
    ConsumeBooleanStep(c, key, head);
  }

  lemma ConsumeBooleanStep(c: Cursor, key: string, head: Cursor)
    requires ConsumeKey(c, key) == Ok(head)
    ensures ConsumeBooleanProperty(c, key) == ParseBoolean(head)
  {
  }

  lemma ConsumeIntStep(c: Cursor, key: string, head: Cursor)
    requires ConsumeKey(c, key) == Ok(head)
    ensures ConsumeIntProperty(c, key) == ParseInt(head)
  {
  }

  lemma ConsumeStringStep(c: Cursor, key: string, head: Cursor)
    requires ConsumeKey(c, key) == Ok(head)
    ensures ConsumeStringProperty(c, key) == ParseString(head)
  {
  }

  lemma ConsumeFloatStep(c: Cursor, key: string, head: Cursor)
    requires ConsumeKey(c, key) == Ok(head)
    ensures ConsumeFloatProperty(c, key) == ParseFloat(head)
  {
  }

  /** consumeEndObjectProperty reads back a closing line. */
  lemma EndAt(c: Cursor, pre: string, tabs: int)
    requires AllWhitespace(pre)
    requires At(c.bytes, c.offset, pre + CloseObjectProperty(tabs))
    ensures Reaches(ConsumeEndObjectProperty(c), c.bytes, c.offset + |pre| + |CloseObjectProperty(tabs)|)
  {
    var ws := pre + AddTabs(tabs);
    TabsAreWhitespace(tabs);
    WhitespaceJoin(pre, AddTabs(tabs));
    assert pre + CloseObjectProperty(tabs) == ws + "}";
    AtSplit(c.bytes, c.offset, ws, "}");
    AtChar(c.bytes, c.offset + |ws|, "}", 0);
    SkipOver(c, ws);
  }

  /** consumeBeginObjectProperty reads back an opening line and stops before
      its newline. */
  lemma BeginAt(c: Cursor, pre: string, key: string, tabs: int)
    requires AllWhitespace(pre) && '"' !in key
    requires At(c.bytes, c.offset, pre + BeginObjectProperty(key, tabs))
    ensures Reaches(ConsumeBeginObjectProperty(c, key), c.bytes,
      c.offset + |pre| + |BeginObjectProperty(key, tabs)| - 1)
  {
    var b, o := c.bytes, c.offset;
    var ws := pre + AddTabs(tabs);
    TabsAreWhitespace(tabs);
    WhitespaceJoin(pre, AddTabs(tabs));
    BeginText(pre, key, tabs);
    AtSplit(b, o, ws, Quote(key) + ": {\n");
    AtChar(b, o + |ws|, Quote(key) + ": {\n", 0);
    SkipOver(c, ws);
    var start := SkipWhitespace(c);
    BeginAfterKey(start, key);
    var k := ParseString(start).value.rest;
    assert CheckString(start, key) == Ok(k);
    BeginStep(c, key, k);
  }

  lemma BeginText(pre: string, key: string, tabs: int)
    ensures pre + BeginObjectProperty(key, tabs) == (pre + AddTabs(tabs)) + (Quote(key) + ": {\n")
  {
  }

  lemma BeginAfterKey(start: Cursor, key: string)
    requires '"' !in key
    requires At(start.bytes, start.offset, Quote(key) + ": {\n")
    ensures Yields(ParseString(start), key, start.bytes, start.offset + |Quote(key)|)
    ensures var k := ParseString(start).value.rest;
      !AtEnd(k) && k.bytes[k.offset] == ':' &&
      k.offset + 2 < |k.bytes| && k.bytes[k.offset + 1] == ' ' && k.bytes[k.offset + 2] == '{'
  {
    var b, q := start.bytes, start.offset;
    AtSplit(b, q, Quote(key), ": {\n");
    assert "" + Quote(key) == Quote(key);
    StringAt(start, "", key);
    AtChar(b, q + |Quote(key)|, ": {\n", 0);
    AtChar(b, q + |Quote(key)|, ": {\n", 1);
    AtChar(b, q + |Quote(key)|, ": {\n", 2);
  }

  lemma BeginStep(c: Cursor, key: string, k: Cursor)
    requires CheckString(SkipWhitespace(c), key) == Ok(k)
    requires k.offset + 2 < |k.bytes|
    requires k.bytes[k.offset] == ':' && k.bytes[k.offset + 1] == ' ' && k.bytes[k.offset + 2] == '{'
    ensures Reaches(ConsumeBeginObjectProperty(c, key), k.bytes, k.offset + 3)
  {
    ColonBraceAt(k);
    BeginUnfold(c, key, k);
  }

  /** The ": {" that ends an opening line. */
  lemma ColonBraceAt(k: Cursor)
    requires k.offset + 2 < |k.bytes|
    requires k.bytes[k.offset] == ':' && k.bytes[k.offset + 1] == ' ' && k.bytes[k.offset + 2] == '{'
    ensures Consume(SkipWhitespace(k), ':').Ok?
    ensures Reaches(Consume(SkipWhitespace(Consume(SkipWhitespace(k), ':').value), '{'), k.bytes, k.offset + 3)
  {
    assert SkipWhitespace(k) == k;
    var colon := Advance(k);
    assert At(colon.bytes, colon.offset, " ") by {
      assert " "[1..] == [];
    }
    SkipOver(colon, " ");
  }

  lemma BeginUnfold(c: Cursor, key: string, k: Cursor)
    requires CheckString(SkipWhitespace(c), key) == Ok(k)
    requires Consume(SkipWhitespace(k), ':').Ok?
    ensures ConsumeBeginObjectProperty(c, key) ==
      Consume(SkipWhitespace(Consume(SkipWhitespace(k), ':').value), '{')
  {
  }

  // Continuation forms: each reader applied to a piece followed by more text
  // stops at a known offset, and the buffer there holds the unread tail of
  // the piece followed by that text.

  /** Restates At for equal offsets and texts, so that callers need no
      rewriting of their own. */
  lemma AtSame(b: seq<char>, o: nat, s: string, o': nat, s': string)
    requires At(b, o, s) && o == o' && s == s'
    ensures At(b, o', s')
  {
  }

  lemma AtAssoc(b: seq<char>, o: nat, pre: string, piece: string, rest: string)
    requires At(b, o, pre + (piece + rest))
    ensures At(b, o, pre + piece) && At(b, o + |pre| + |piece|, rest)
  {
    assert pre + (piece + rest) == (pre + piece) + rest;
    AtSplit(b, o, pre + piece, rest);
  }

  lemma BeginThen(c: Cursor, pre: string, key: string, tabs: int, rest: string)
    requires AllWhitespace(pre) && '"' !in key
    requires At(c.bytes, c.offset, pre + (BeginObjectProperty(key, tabs) + rest))
    ensures Reaches(ConsumeBeginObjectProperty(c, key), c.bytes,
      c.offset + |pre| + |BeginObjectProperty(key, tabs)| - 1)
    ensures At(c.bytes, c.offset + |pre| + |BeginObjectProperty(key, tabs)| - 1, "\n" + rest)
  {
    var head := AddTabs(tabs) + Quote(key) + ": {";
    assert BeginObjectProperty(key, tabs) == head + "\n";
    LineThen(c.bytes, c.offset, pre, head, rest);
    AtAssoc(c.bytes, c.offset, pre, BeginObjectProperty(key, tabs), rest);
    BeginAt(c, pre, key, tabs);
  }

  /** The newline that ends a line stays unread, in front of what follows. */
  lemma LineThen(b: seq<char>, o: nat, pre: string, head: string, rest: string)
    requires At(b, o, pre + ((head + "\n") + rest))
    ensures At(b, o + |pre| + |head|, "\n" + rest)
  {
    assert pre + ((head + "\n") + rest) == (pre + head) + ("\n" + rest);
    AtSplit(b, o, pre + head, "\n" + rest);
  }

  lemma EndThen(c: Cursor, pre: string, tabs: int, rest: string)
    requires AllWhitespace(pre)
    requires At(c.bytes, c.offset, pre + (CloseObjectProperty(tabs) + rest))
    ensures Reaches(ConsumeEndObjectProperty(c), c.bytes, c.offset + |pre| + |CloseObjectProperty(tabs)|)
    ensures At(c.bytes, c.offset + |pre| + |CloseObjectProperty(tabs)|, rest)
  {
    AtAssoc(c.bytes, c.offset, pre, CloseObjectProperty(tabs), rest);
    EndAt(c, pre, tabs);
  }

  /** The ',' of a ",\n" separator. */
  lemma CommaThen(c: Cursor, rest: string)
    requires At(c.bytes, c.offset, AddEnding(true, true) + rest)
    ensures Reaches(Consume(c, ','), c.bytes, c.offset + 1)
    ensures At(c.bytes, c.offset + 1, "\n" + rest)
  {
    assert AddEnding(true, true) + rest == [','] + ("\n" + rest);
    AtSplit(c.bytes, c.offset, [','], "\n" + rest);
    AtChar(c.bytes, c.offset, [','], 0);
  }

  /** A property line followed by more text: the line itself, and what follows
      its value. */
  lemma PropertyThen(b: seq<char>, o: nat, pre: string, key: string, tabs: int, value: string, e: string, rest: string)
    requires At(b, o, pre + ((Key(key, tabs) + value + e) + rest))
    ensures At(b, o, pre + (Key(key, tabs) + value + e))
    ensures At(b, PropertyEnd(o, pre, key, tabs, value), e + rest)
    ensures PropertyEnd(o, pre, key, tabs, value) + |e| == o + |pre| + |Key(key, tabs) + value + e|
  {
    var line := Key(key, tabs) + value + e;
    AtAssoc(b, o, pre, line, rest);
    PropertySplit(b, o, pre, key, tabs, value, e);
    AtJoin(b, PropertyEnd(o, pre, key, tabs, value), e, rest);
  }

  lemma FloatThen(c: Cursor, pre: string, key: string, v: real, tabs: int, newline: bool, comma: bool, rest: string)
    requires AllWhitespace(pre) && '"' !in key && Text.Printable(v)
    requires At(c.bytes, c.offset, pre + (AddFloatProperty(key, v, tabs, newline, comma) + rest))
    ensures Yields(ConsumeFloatProperty(c, key), v, c.bytes, PropertyEnd(c.offset, pre, key, tabs, FloatText(v) + "f"))
    ensures At(c.bytes, PropertyEnd(c.offset, pre, key, tabs, FloatText(v) + "f"), AddEnding(newline, comma) + rest)
    ensures PropertyEnd(c.offset, pre, key, tabs, FloatText(v) + "f") + |AddEnding(newline, comma)|
      == c.offset + |pre| + |AddFloatProperty(key, v, tabs, newline, comma)|
  {
    FloatPropertyText(key, v, tabs, newline, comma);
    PropertyThen(c.bytes, c.offset, pre, key, tabs, FloatText(v) + "f", AddEnding(newline, comma), rest);
    FloatPropertyAt(c, pre, key, v, tabs, newline, comma);
  }

  lemma IntThen(c: Cursor, pre: string, key: string, n: Int32, tabs: int, newline: bool, comma: bool, rest: string)
    requires AllWhitespace(pre) && '"' !in key && (newline || comma)
    requires At(c.bytes, c.offset, pre + (AddIntProperty(key, n, tabs, newline, comma) + rest))
    ensures Yields(ConsumeIntProperty(c, key), n, c.bytes, PropertyEnd(c.offset, pre, key, tabs, IntText(n)))
    ensures At(c.bytes, PropertyEnd(c.offset, pre, key, tabs, IntText(n)), AddEnding(newline, comma) + rest)
    ensures PropertyEnd(c.offset, pre, key, tabs, IntText(n)) + |AddEnding(newline, comma)|
      == c.offset + |pre| + |AddIntProperty(key, n, tabs, newline, comma)|
  {
    PropertyThen(c.bytes, c.offset, pre, key, tabs, IntText(n), AddEnding(newline, comma), rest);
    IntPropertyAt(c, pre, key, n, tabs, newline, comma);
  }

  lemma StringThen(c: Cursor, pre: string, key: string, s: string, tabs: int, newline: bool, comma: bool, rest: string)
    requires AllWhitespace(pre) && '"' !in key && '"' !in s
    requires At(c.bytes, c.offset, pre + (AddStringProperty(key, s, tabs, newline, comma) + rest))
    ensures Yields(ConsumeStringProperty(c, key), s, c.bytes, PropertyEnd(c.offset, pre, key, tabs, Quote(s)))
    ensures At(c.bytes, PropertyEnd(c.offset, pre, key, tabs, Quote(s)), AddEnding(newline, comma) + rest)
    ensures PropertyEnd(c.offset, pre, key, tabs, Quote(s)) + |AddEnding(newline, comma)|
      == c.offset + |pre| + |AddStringProperty(key, s, tabs, newline, comma)|
  {
    PropertyThen(c.bytes, c.offset, pre, key, tabs, Quote(s), AddEnding(newline, comma), rest);
    StringPropertyAt(c, pre, key, s, tabs, newline, comma);
  }

  lemma BoolThen(c: Cursor, pre: string, key: string, v: bool, tabs: int, newline: bool, comma: bool, rest: string)
    requires AllWhitespace(pre) && '"' !in key
    requires At(c.bytes, c.offset, pre + (AddBooleanProperty(key, v, tabs, newline, comma) + rest))
    ensures Yields(ConsumeBooleanProperty(c, key), v, c.bytes, PropertyEnd(c.offset, pre, key, tabs, BoolText(v)))
    ensures At(c.bytes, PropertyEnd(c.offset, pre, key, tabs, BoolText(v)), AddEnding(newline, comma) + rest)
    ensures PropertyEnd(c.offset, pre, key, tabs, BoolText(v)) + |AddEnding(newline, comma)|
      == c.offset + |pre| + |AddBooleanProperty(key, v, tabs, newline, comma)|
  {
    PropertyThen(c.bytes, c.offset, pre, key, tabs, BoolText(v), AddEnding(newline, comma), rest);
    BoolPropertyAt(c, pre, key, v, tabs, newline, comma);
  }

  // Reading forms: the continuation forms restated for the cursor each reader
  // returns, so that a chain of readers needs no offset arithmetic inside At.

  lemma BeginRead(c: Cursor, pre: string, key: string, tabs: int, rest: string) returns (d: Cursor)
    requires AllWhitespace(pre) && '"' !in key
    requires At(c.bytes, c.offset, pre + (BeginObjectProperty(key, tabs) + rest))
    ensures ConsumeBeginObjectProperty(c, key) == Ok(d)
    ensures d.bytes == c.bytes && d.offset + 1 == c.offset + |pre| + |BeginObjectProperty(key, tabs)|
    ensures At(d.bytes, d.offset, "\n" + rest)
  {
    BeginThen(c, pre, key, tabs, rest);
    d := ConsumeBeginObjectProperty(c, key).value;
    AtSame(c.bytes, c.offset + |pre| + |BeginObjectProperty(key, tabs)| - 1, "\n" + rest, d.offset, "\n" + rest);
  }

  lemma EndRead(c: Cursor, pre: string, tabs: int, rest: string) returns (d: Cursor)
    requires AllWhitespace(pre)
    requires At(c.bytes, c.offset, pre + (CloseObjectProperty(tabs) + rest))
    ensures ConsumeEndObjectProperty(c) == Ok(d)
    ensures d.bytes == c.bytes && d.offset == c.offset + |pre| + |CloseObjectProperty(tabs)|
    ensures At(d.bytes, d.offset, rest)
  {
    EndThen(c, pre, tabs, rest);
    d := ConsumeEndObjectProperty(c).value;
    AtSame(c.bytes, c.offset + |pre| + |CloseObjectProperty(tabs)|, rest, d.offset, rest);
  }

  /** The ',' of a ",\n" separator. */
  lemma CommaRead(c: Cursor, rest: string) returns (d: Cursor)
    requires At(c.bytes, c.offset, AddEnding(true, true) + rest)
    ensures Consume(c, ',') == Ok(d)
    ensures d.bytes == c.bytes && d.offset == c.offset + 1
    ensures At(d.bytes, d.offset, "\n" + rest)
  {
    CommaThen(c, rest);
    d := Consume(c, ',').value;
    AtSame(c.bytes, c.offset + 1, "\n" + rest, d.offset, "\n" + rest);
  }

  lemma FloatRead(c: Cursor, pre: string, key: string, v: real, tabs: int, newline: bool, comma: bool, rest: string)
    returns (d: Cursor)
    requires AllWhitespace(pre) && '"' !in key && Text.Printable(v)
    requires At(c.bytes, c.offset, pre + (AddFloatProperty(key, v, tabs, newline, comma) + rest))
    ensures ConsumeFloatProperty(c, key) == Ok(Parsed(v, d))
    ensures d.bytes == c.bytes
    ensures d.offset + |AddEnding(newline, comma)| == c.offset + |pre| + |AddFloatProperty(key, v, tabs, newline, comma)|
    ensures At(d.bytes, d.offset, AddEnding(newline, comma) + rest)
  {
    FloatThen(c, pre, key, v, tabs, newline, comma, rest);
    d := ConsumeFloatProperty(c, key).value.rest;
  }

  lemma IntRead(c: Cursor, pre: string, key: string, n: Int32, tabs: int, newline: bool, comma: bool, rest: string)
    returns (d: Cursor)
    requires AllWhitespace(pre) && '"' !in key && (newline || comma)
    requires At(c.bytes, c.offset, pre + (AddIntProperty(key, n, tabs, newline, comma) + rest))
    ensures ConsumeIntProperty(c, key) == Ok(Parsed(n, d))
    ensures d.bytes == c.bytes
    ensures d.offset + |AddEnding(newline, comma)| == c.offset + |pre| + |AddIntProperty(key, n, tabs, newline, comma)|
    ensures At(d.bytes, d.offset, AddEnding(newline, comma) + rest)
  {
    IntThen(c, pre, key, n, tabs, newline, comma, rest);
    d := ConsumeIntProperty(c, key).value.rest;
  }

  lemma StringRead(c: Cursor, pre: string, key: string, s: string, tabs: int, newline: bool, comma: bool, rest: string)
    returns (d: Cursor)
    requires AllWhitespace(pre) && '"' !in key && '"' !in s
    requires At(c.bytes, c.offset, pre + (AddStringProperty(key, s, tabs, newline, comma) + rest))
    ensures ConsumeStringProperty(c, key) == Ok(Parsed(s, d))
    ensures d.bytes == c.bytes
    ensures d.offset + |AddEnding(newline, comma)| == c.offset + |pre| + |AddStringProperty(key, s, tabs, newline, comma)|
    ensures At(d.bytes, d.offset, AddEnding(newline, comma) + rest)
  {
    StringThen(c, pre, key, s, tabs, newline, comma, rest);
    d := ConsumeStringProperty(c, key).value.rest;
  }

  /** The writer does not escape a value, so a value that holds a quote does
      not come back: the reader stops at that quote, and in general no value
      it returns holds one. */
  lemma QuoteCutsValue(c: Cursor, key: string, s: string)
    requires '"' in s
    ensures ConsumeStringProperty(c, key).Ok? ==> ConsumeStringProperty(c, key).value.value != s
    ensures ParseString(ParserState(Quote(['a', '"', 'b']), 0, 1)) == Ok(Parsed("a", ParserState(Quote(['a', '"', 'b']), 3, 1)))
  {
    var b := Quote(['a', '"', 'b']);
    assert b == ['"', 'a', '"', 'b', '"'];
    assert SkipWhitespace(ParserState(b, 0, 1)) == ParserState(b, 0, 1);
    assert ScanString(ParserState(b, 2, 1)) == ParserState(b, 2, 1);
    assert ScanString(ParserState(b, 1, 1)) == ParserState(b, 2, 1);
    assert b[1..2] == "a";
  }

  lemma BoolRead(c: Cursor, pre: string, key: string, v: bool, tabs: int, newline: bool, comma: bool, rest: string)
    returns (d: Cursor)
    requires AllWhitespace(pre) && '"' !in key
    requires At(c.bytes, c.offset, pre + (AddBooleanProperty(key, v, tabs, newline, comma) + rest))
    ensures ConsumeBooleanProperty(c, key) == Ok(Parsed(v, d))
    ensures d.bytes == c.bytes
    ensures d.offset + |AddEnding(newline, comma)| == c.offset + |pre| + |AddBooleanProperty(key, v, tabs, newline, comma)|
    ensures At(d.bytes, d.offset, AddEnding(newline, comma) + rest)
  {
    BoolThen(c, pre, key, v, tabs, newline, comma, rest);
    d := ConsumeBooleanProperty(c, key).value.rest;
  }
}
