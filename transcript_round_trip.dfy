/** Reading a transcript response back: the events a pull parser reports
    for what the transcript encoder writes, and what the transcript decoder
    makes of those events. The `chat` element around the encoder's pieces is
    written by the IQ base class; `ChildXml` is the wrapper the encoder's
    two layouts evidently expect, an assumption of this model. */
module TranscriptRoundTrip {
  import opened Base
  import opened JavaInt
  import opened Xml
  import opened Rsm
  import opened RetrieveIQ
  import opened RetrieveProvider

  /** The child element around the encoder's pieces, as the encoder's two
      layouts expect it: `<chat xmlns='urn:xmpp:archive'`, the pieces, then
      `</chat>` unless the pieces already closed the element. This is an
      assumption about the IQ base class, which is not part of this model. */
  function ChildXml(pieces: seq<Piece>): seq<Piece>
    requires |pieces| > 0
  {
    [HalfOpen("chat"), Attribute("xmlns", ARCHIVE_NS)] + pieces
    + (if pieces[|pieces| - 1] == CloseEmpty then [] else [Close("chat")])
  }

  // ---------------------------------------------------------------------
  // The events of an encoded transcript

  /** The attributes a parser reports on the `chat` start tag. */
  function RootAttributes(t: Transcript): seq<Attr>
    requires t.with.Some? && t.start.Some?
  {
    [Attr("with", t.with.value), Attr("start", t.start.value)]
    + (if t.subject.Some? then [Attr("subject", t.subject.value)] else [])
    + (if t.version > 0 then [Attr("version", Decimal(t.version as int))] else [])
  }

  /** The events of one message element whose start tag is at depth `k`. */
  function MessageTokens(m: Message, k: int): seq<Token> {
    [StartTag(DirectionName(m.direction), [Attr("secs", Decimal(m.secs as int))], k)]
    + TextElement("body", [], m.body, k + 1)
    + [EndTag(DirectionName(m.direction), k)]
  }

  /** The events of the message elements, in order. */
  function MessagesTokens(ms: seq<Message>, k: int): (r: seq<Token>)
    ensures ms != [] ==> |r| > 0 && r[0].depth == k
    decreases |ms|
  {
    if ms == [] then [] else MessageTokens(ms[0], k) + MessagesTokens(ms[1..], k)
  }

  /** The events of a qualified RSM `set` block whose start tag is at depth `k`. */
  function SetTokens(firstIndex: i32, firstValue: string, lastValue: string, count: i32, k: int): seq<Token> {
    [StartTag("set", [], k)]
    + TextElement("first", [Attr("index", Decimal(firstIndex as int))], firstValue, k + 1)
    + TextElement("last", [], lastValue, k + 1)
    + TextElement("count", [], Decimal(count as int), k + 1)
    + [EndTag("set", k)]
  }

  /** The events of the whole `chat` element, its start tag at depth `d`:
      a start and an end tag when the paging fields are incomplete,
      otherwise the messages and the `set` block between them. */
  function TranscriptTokens(t: Transcript, d: int): (r: seq<Token>)
    requires t.with.Some? && t.start.Some?
    ensures |r| > 0
  {
    if !t.PagingComplete() then [StartTag("chat", RootAttributes(t), d), EndTag("chat", d)]
    else
      [StartTag("chat", RootAttributes(t), d)] + MessagesTokens(t.messages, d + 1)
      + SetTokens(t.firstIndex, t.firstValue.value, t.lastValue.value, t.count, d + 1)
      + [EndTag("chat", d)]
  }

  /** A namespace declaration in front of attribute calls adds no attribute. */
  lemma ReportedAfterNamespace(ns: string, ps: seq<Piece>)
    requires AllAttributes(ps)
    ensures AllAttributes([Attribute("xmlns", ns)] + ps)
    ensures ReportedAttributes([Attribute("xmlns", ns)] + ps) == ReportedAttributes(ps)
  {
    assert ([Attribute("xmlns", ns)] + ps)[1..] == ps;
  }

  /** An attribute call that is made only when `present`. */
  lemma ReportedOptional(present: bool, key: string, value: string)
    requires key != "xmlns"
    ensures AllAttributes(if present then [Attribute(key, value)] else [])
    ensures ReportedAttributes(if present then [Attribute(key, value)] else [])
         == if present then [Attr(key, value)] else []
  {
    if present {
      ReportedOne(Attribute(key, value));
    }
  }

  /** Reporting three consecutive runs of attribute calls. */
  lemma ReportedThree(a: seq<Piece>, b: seq<Piece>, c: seq<Piece>)
    requires AllAttributes(a) && AllAttributes(b) && AllAttributes(c)
    ensures AllAttributes(a + b + c)
    ensures ReportedAttributes(a + b + c) == ReportedAttributes(a) + ReportedAttributes(b) + ReportedAttributes(c)
  {
    ReportedAttributesAppend(a, b);
    ReportedAttributesAppend(a + b, c);
  }

  /** The `chat` start tag carries `with`, `start`, then `subject` if set and
      `version` if positive. */
  lemma ReportedHeader(t: Transcript)
    requires t.with.Some? && t.start.Some?
    ensures AllAttributes([Attribute("xmlns", ARCHIVE_NS)] + HeaderXml(t))
    ensures ReportedAttributes([Attribute("xmlns", ARCHIVE_NS)] + HeaderXml(t)) == RootAttributes(t)
  {
    var w, s := Attribute("with", t.with.value), Attribute("start", t.start.value);
    var subject := if t.subject.Some? then [Attribute("subject", t.subject.value)] else [];
    var version := if t.version > 0 then [Attribute("version", Decimal(t.version as int))] else [];
    ReportedOne(w);
    ReportedOne(s);
    ReportedAttributesAppend([w], [s]);
    assert [w, s] == [w] + [s];
    ReportedOptional(t.subject.Some?, "subject", if t.subject.Some? then t.subject.value else "");
    ReportedOptional(t.version > 0, "version", Decimal(t.version as int));
    ReportedThree([w, s], subject, version);
    assert HeaderXml(t) == [w, s] + subject + version;
    assert ReportedAttributes(subject) == if t.subject.Some? then [Attr("subject", t.subject.value)] else [];
    assert ReportedAttributes([w, s]) == [Attr("with", t.with.value), Attr("start", t.start.value)];
    assert RootAttributes(t) == ReportedAttributes([w, s]) + ReportedAttributes(subject) + ReportedAttributes(version);
    ReportedAfterNamespace(ARCHIVE_NS, HeaderXml(t));
  }

  /** The attributes a parser reports for a message's start tag: `secs` alone. */
  lemma MessageAttributes(secs: string)
    ensures AllAttributes([Attribute("xmlns", ARCHIVE_NS), Attribute("secs", secs)])
    ensures ReportedAttributes([Attribute("xmlns", ARCHIVE_NS), Attribute("secs", secs)]) == [Attr("secs", secs)]
    ensures AllAttributes([Attribute("xmlns", ARCHIVE_NS)]) && ReportedAttributes([Attribute("xmlns", ARCHIVE_NS)]) == []
  {
    var ns, a := Attribute("xmlns", ARCHIVE_NS), Attribute("secs", secs);
    ReportedOne(a);
    ReportedAfterNamespace(ARCHIVE_NS, [a]);
    ReportedAfterNamespace(ARCHIVE_NS, []);
    assert [ns, a] == [ns] + [a] && [ns] == [ns] + [];
  }

  /** A message element is reported as its start tag with `secs`, the `body`
      element and its end tag. */
  lemma EmitMessage(m: Message, k: int)
    ensures Emit(MessageXml(m), Emitter(k, Idle)) == MessageTokens(m, k + 1)
    ensures After(MessageXml(m), Emitter(k, Idle)) == Emitter(k, Idle)
  {
    var n := DirectionName(m.direction);
    var secs := Decimal(m.secs as int);
    var ns := Attribute("xmlns", ARCHIVE_NS);
    var open := [HalfOpen(n), ns, Attribute("secs", secs), RightAngle];
    var body := TextElementXml("body", [ns], m.body);
    MessageAttributes(secs);
    assert open == [HalfOpen(n)] + [ns, Attribute("secs", secs)] + [RightAngle];
    assert MessageXml(m) == open + body + [Close(n)];
    EmitOpen(n, [ns, Attribute("secs", secs)], k);
    EmitTextElement("body", [ns], m.body, k + 1);
    EmitOne(Close(n), Emitter(k + 1, Idle));
    EmitConcat3(open, body, [Close(n)], Emitter(k, Idle), Emitter(k + 1, Idle), Emitter(k + 1, Idle));
  }


  lemma {:induction false} EmitMessages(ms: seq<Message>, k: int)
    ensures Emit(MessagesXml(ms), Emitter(k, Idle)) == MessagesTokens(ms, k + 1)
    ensures After(MessagesXml(ms), Emitter(k, Idle)) == Emitter(k, Idle)
    decreases |ms|
  {
    if ms != [] {
      EmitMessage(ms[0], k);
      EmitMessages(ms[1..], k);
      EmitAppend(MessageXml(ms[0]), MessagesXml(ms[1..]), Emitter(k, Idle));
    }
  }

  /** The qualified `set` block is reported as `set` holding the three text
      elements `first` (with its `index`), `last` and `count`. */
  lemma EmitSet(firstIndex: i32, firstValue: string, lastValue: string, count: i32, k: int)
    ensures Emit(RsmSet(firstIndex, firstValue, lastValue, count, true), Emitter(k, Idle))
         == SetTokens(firstIndex, firstValue, lastValue, count, k + 1)
    ensures After(RsmSet(firstIndex, firstValue, lastValue, count, true), Emitter(k, Idle)) == Emitter(k, Idle)
  {
    var ns := Attribute("xmlns", RSM_NS);
    var index := Attribute("index", Decimal(firstIndex as int));
    var open := [HalfOpen("set"), ns, RightAngle];
    var first := TextElementXml("first", [ns] + [index], firstValue);
    var last := TextElementXml("last", [ns], lastValue);
    var cnt := TextElementXml("count", [ns], Decimal(count as int));
    var e, inner := Emitter(k, Idle), Emitter(k + 1, Idle);
    assert open == [HalfOpen("set")] + [ns] + [RightAngle];
    ReportedOne(index);
    ReportedAfterNamespace(RSM_NS, [index]);
    ReportedAfterNamespace(RSM_NS, []);
    EmitOpen("set", [ns], k);
    EmitTextElement("first", [ns] + [index], firstValue, k + 1);
    EmitTextElement("last", [ns], lastValue, k + 1);
    EmitTextElement("count", [ns], Decimal(count as int), k + 1);
    EmitOne(Close("set"), inner);
    EmitConcat3(open, first, last, e, inner, inner);
    EmitConcat3(open + first + last, cnt, [Close("set")], e, inner, inner);
  }

  lemma LastOfAppend<T>(a: seq<T>, b: seq<T>)
    requires |b| > 0
    ensures (a + b)[|a + b| - 1] == b[|b| - 1]
  {
  }

  lemma Regroup<T>(x: T, y: T, h: seq<T>, r: T, m: seq<T>, b: seq<T>, c: T)
    ensures [x, y] + (h + [r] + m + b) + [c] == [x] + ([y] + h) + [r] + m + b + [c]
  {
  }

  /** An element whose content is two runs of builder calls that each leave
      the writer where they found it. */
  lemma EmitElement(n: string, ps: seq<Piece>, a: seq<Piece>, b: seq<Piece>, k: int, ta: seq<Token>, tb: seq<Token>)
    requires AllAttributes(ps)
    requires Emit(a, Emitter(k, Idle)) == ta && After(a, Emitter(k, Idle)) == Emitter(k, Idle)
    requires Emit(b, Emitter(k, Idle)) == tb && After(b, Emitter(k, Idle)) == Emitter(k, Idle)
    ensures Emit([HalfOpen(n)] + ps + [RightAngle] + a + b + [Close(n)], Emitter(k - 1, Idle))
         == [StartTag(n, ReportedAttributes(ps), k)] + ta + tb + [EndTag(n, k)]
  {
    var inner := Emitter(k, Idle);
    EmitOpen(n, ps, k - 1);
    EmitOne(Close(n), inner);
    EmitConcat4([HalfOpen(n)] + ps + [RightAngle], a, b, [Close(n)], Emitter(k - 1, Idle), inner, inner, inner);
  }

  /** The pieces of the `chat` element, closed empty or populated. */
  lemma ChildXmlShape(t: Transcript)
    requires TranscriptXml(t).Success?
    ensures !t.PagingComplete() ==>
      (ChildXml(TranscriptXml(t).value) == [HalfOpen("chat")] + ([Attribute("xmlns", ARCHIVE_NS)] + HeaderXml(t)) + [CloseEmpty])
    ensures t.PagingComplete() ==>
      (ChildXml(TranscriptXml(t).value)
       == [HalfOpen("chat")] + ([Attribute("xmlns", ARCHIVE_NS)] + HeaderXml(t)) + [RightAngle]
          + MessagesXml(t.messages) + RsmSet(t.firstIndex, t.firstValue.value, t.lastValue.value, t.count, true)
          + [Close("chat")])
  {
    var pieces := TranscriptXml(t).value;
    if t.PagingComplete() {
      var ms := MessagesXml(t.messages);
      var block := RsmSet(t.firstIndex, t.firstValue.value, t.lastValue.value, t.count, true);
      assert pieces == HeaderXml(t) + [RightAngle] + ms + block;
      LastOfAppend(HeaderXml(t) + [RightAngle] + ms, block);
      Regroup(HalfOpen("chat"), Attribute("xmlns", ARCHIVE_NS), HeaderXml(t), RightAngle, ms, block, Close("chat"));
    }
  }

  /** What a pull parser reports for a transcript closed empty. */
  lemma EmitEmptyTranscript(t: Transcript, d: int)
    requires TranscriptXml(t).Success? && !t.PagingComplete()
    ensures Emit(ChildXml(TranscriptXml(t).value), Emitter(d - 1, Idle)) == TranscriptTokens(t, d)
  {
    ReportedHeader(t);
    ChildXmlShape(t);
    EmitEmpty("chat", [Attribute("xmlns", ARCHIVE_NS)] + HeaderXml(t), d - 1);
  }

  /** The events of the populated `chat` element, piece list by piece list. */
  lemma EmitPopulated(t: Transcript, d: int)
    requires t.with.Some? && t.start.Some? && t.PagingComplete()
    ensures Emit([HalfOpen("chat")] + ([Attribute("xmlns", ARCHIVE_NS)] + HeaderXml(t)) + [RightAngle]
                 + MessagesXml(t.messages) + RsmSet(t.firstIndex, t.firstValue.value, t.lastValue.value, t.count, true)
                 + [Close("chat")], Emitter(d - 1, Idle))
         == TranscriptTokens(t, d)
  {
    var fi, fv, lv, c := t.firstIndex, t.firstValue.value, t.lastValue.value, t.count;
    ReportedHeader(t);
    EmitMessages(t.messages, d);
    EmitSet(fi, fv, lv, c, d);
    EmitElement("chat", [Attribute("xmlns", ARCHIVE_NS)] + HeaderXml(t), MessagesXml(t.messages),
                RsmSet(fi, fv, lv, c, true), d, MessagesTokens(t.messages, d + 1), SetTokens(fi, fv, lv, c, d + 1));
  }

  /** What a pull parser reports for a populated transcript. */
  lemma EmitFullTranscript(t: Transcript, d: int)
    requires TranscriptXml(t).Success? && t.PagingComplete()
    ensures Emit(ChildXml(TranscriptXml(t).value), Emitter(d - 1, Idle)) == TranscriptTokens(t, d)
  {
    ChildXmlShape(t);
    EmitPopulated(t, d);
  }

  /** What a pull parser reports for the encoded transcript. */
  lemma EmitTranscript(t: Transcript, d: int)
    requires TranscriptXml(t).Success?
    ensures Emit(ChildXml(TranscriptXml(t).value), Emitter(d - 1, Idle)) == TranscriptTokens(t, d)
  {
    if t.PagingComplete() {
      EmitFullTranscript(t, d);
    } else {
      EmitEmptyTranscript(t, d);
    }
  }

  // ---------------------------------------------------------------------
  // Decoding those events

  /** What the decoder builds from the `chat` start tag alone: the four
      header fields, a non-positive version (which is not written) read as
      the default 0. */
  function DecodedHeader(t: Transcript): Transcript
    requires t.with.Some? && t.start.Some?
  {
    EMPTY_TRANSCRIPT.(with := t.with, start := t.start, subject := t.subject,
                      version := if t.version > 0 then t.version else 0)
  }

  /** What decoding the encoded transcript gives back: the header, and the
      messages and paging fields only when the encoder wrote them. */
  function Decoded(t: Transcript): (r: Transcript)
    requires t.with.Some? && t.start.Some?
    ensures t.PagingComplete() && t.version >= 0 ==> r == t
    ensures !t.PagingComplete() ==> r == DecodedHeader(t)
  {
    if t.PagingComplete() then
      DecodedHeader(t).(firstIndex := t.firstIndex, firstValue := t.firstValue, lastValue := t.lastValue,
                        count := t.count, messages := t.messages)
    else DecodedHeader(t)
  }

  /** Adding at most one attribute after ones already applied. */
  lemma ApplyOptional(t: Transcript, attrs: seq<Attr>, r: Transcript, opt: seq<Attr>, r': Transcript)
    requires ApplyAttributes(t, attrs) == Success(r)
    requires |opt| <= 1
    requires opt == [] ==> r' == r
    requires |opt| == 1 ==> ApplyAttribute(r, opt[0]) == Success(r')
    ensures ApplyAttributes(t, attrs + opt) == Success(r')
  {
    if opt == [] {
      assert attrs + opt == attrs;
    } else {
      assert (attrs + opt)[..|attrs|] == attrs;
    }
  }

  /** Two attributes are applied one after the other. */
  lemma ApplyPair(t: Transcript, a: Attr, b: Attr, r1: Transcript, r2: Transcript)
    requires ApplyAttribute(t, a) == Success(r1) && ApplyAttribute(r1, b) == Success(r2)
    ensures ApplyAttributes(t, [a, b]) == Success(r2)
  {
    assert [a, b][..1] == [a] && [a][..0] == [];
    assert ApplyAttributes(t, [a]) == Success(r1);
  }

  lemma ApplyHeaderAttribute(r: Transcript, v: string)
    ensures ApplyAttribute(r, Attr("with", v)) == Success(r.(with := Some(v)))
    ensures ApplyAttribute(r, Attr("start", v)) == Success(r.(start := Some(v)))
    ensures ApplyAttribute(r, Attr("subject", v)) == Success(r.(subject := Some(v)))
  {
  }

  lemma ApplyVersion(r: Transcript, x: i32)
    ensures ApplyAttribute(r, Attr("version", Decimal(x as int))) == Success(r.(version := x))
  {
    ParseDecimal(x);
  }

  /** parseRetrTagAttrs on the attributes the encoder wrote restores the header. */
  lemma RootAttributesApplied(t: Transcript)
    requires t.with.Some? && t.start.Some?
    ensures ApplyAttributes(EMPTY_TRANSCRIPT, RootAttributes(t)) == Success(DecodedHeader(t))
  {
    var e := EMPTY_TRANSCRIPT;
    var w, s := Attr("with", t.with.value), Attr("start", t.start.value);
    var subject := if t.subject.Some? then [Attr("subject", t.subject.value)] else [];
    var version := if t.version > 0 then [Attr("version", Decimal(t.version as int))] else [];
    var r1 := e.(with := t.with);
    var r2 := r1.(start := t.start);
    var r3 := r2.(subject := t.subject);
    var r4 := DecodedHeader(t);
    assert r4 == r3.(version := if t.version > 0 then t.version else 0);
    ApplyHeaderAttribute(e, t.with.value);
    ApplyHeaderAttribute(r1, t.start.value);
    ApplyHeaderAttribute(r2, if t.subject.Some? then t.subject.value else "");
    ApplyVersion(r3, t.version);
    ApplyPair(e, w, s, r1, r2);
    ApplyOptional(e, [w, s], r2, subject, r3);
    ApplyOptional(e, [w, s] + subject, r3, version, r4);
    assert RootAttributes(t) == [w, s] + subject + version;
  }

  /** An end tag, or a start tag none of whose names the decoder knows, is
      passed over without changing the transcript. */
  lemma StepOver(tok: Token, tail: Cursor, t: Transcript)
    requires tok.EndTag? || (tok.StartTag? && tok.name !in {"chat", "from", "to", "first", "last", "count"})
    ensures Step([tok] + tail, t) == Success((tail, t))
  {
    assert ([tok] + tail)[1..] == tail;
  }

  /** The pass on the `chat` start tag reads the header attributes. */
  lemma StepRoot(t: Transcript, d: int, tail: Cursor)
    requires t.with.Some? && t.start.Some?
    ensures Step([StartTag("chat", RootAttributes(t), d)] + tail, EMPTY_TRANSCRIPT) == Success((tail, DecodedHeader(t)))
  {
    RootAttributesApplied(t);
    assert ([StartTag("chat", RootAttributes(t), d)] + tail)[1..] == tail;
  }

  /** The pass on a message start tag reads `secs` and the body and appends the message. */
  lemma StepMessage(m: Message, k: int, tail: seq<Token>, t: Transcript)
    ensures Step(MessageTokens(m, k) + tail, t)
         == Success(([EndTag(DirectionName(m.direction), k)] + tail, t.(messages := t.messages + [m])))
  {
    var n := DirectionName(m.direction);
    var cur := MessageTokens(m, k) + tail;
    var after := [EndTag(n, k)] + tail;
    ParseDecimal(m.secs);
    assert cur[0] == StartTag(n, [Attr("secs", Decimal(m.secs as int))], k);
    assert cur[1..] == TextElement("body", [], m.body, k + 1) + after;
    NextTextOfElement("body", [], m.body, k + 1, after);
    assert ([EndTag("body", k + 1)] + after)[1..] == after;
    assert (if n == "from" then From else To) == m.direction;
  }

  /** The pass on `first` reads its `index` and its text and moves past its end tag. */
  lemma StepFirst(index: i32, s: string, k: int, tail: Cursor, t: Transcript)
    ensures Step(TextElement("first", [Attr("index", Decimal(index as int))], s, k) + tail, t)
         == Success((tail, t.(firstIndex := index, firstValue := Some(s))))
  {
    ParseDecimal(index);
    assert (TextElement("first", [Attr("index", Decimal(index as int))], s, k) + tail)[0]
        == StartTag("first", [Attr("index", Decimal(index as int))], k);
    NextTextOfElement("first", [Attr("index", Decimal(index as int))], s, k, tail);
    assert ([EndTag("first", k)] + tail)[1..] == tail;
  }

  /** The pass on `last` reads its text and moves past its end tag. */
  lemma StepLast(s: string, k: int, tail: Cursor, t: Transcript)
    ensures Step(TextElement("last", [], s, k) + tail, t) == Success((tail, t.(lastValue := Some(s))))
  {
    assert (TextElement("last", [], s, k) + tail)[0] == StartTag("last", [], k);
    NextTextOfElement("last", [], s, k, tail);
    assert ([EndTag("last", k)] + tail)[1..] == tail;
  }

  /** The pass on `count` reads its text as a number and moves past its end tag. */
  lemma StepCount(count: i32, k: int, tail: Cursor, t: Transcript)
    ensures Step(TextElement("count", [], Decimal(count as int), k) + tail, t)
         == Success((tail, t.(count := count)))
  {
    ParseDecimal(count);
    assert (TextElement("count", [], Decimal(count as int), k) + tail)[0] == StartTag("count", [], k);
    NextTextOfElement("count", [], Decimal(count as int), k, tail);
    assert ([EndTag("count", k)] + tail)[1..] == tail;
  }

  /** Two passes of the loop that land below depth `d`. */
  lemma TwoSteps(c0: Cursor, c1: Cursor, c2: Cursor, d: int, t0: Transcript, t1: Transcript, t2: Transcript)
    requires Step(c0, t0) == Success((c1, t1)) && c1[0].depth != d
    requires Step(c1, t1) == Success((c2, t2)) && c2[0].depth != d
    ensures Run(c0, d, t0) == Run(c2, d, t2)
  {
    RunAfterStep(c0, d, t0, c1, t1);
    RunAfterStep(c1, d, t1, c2, t2);
  }

  lemma AppendFirstThenRest<T>(a: seq<T>, s: seq<T>)
    requires s != []
    ensures (a + [s[0]]) + s[1..] == a + s
  {
    assert [s[0]] + s[1..] == s;
  }

  /** The loop passes over the message elements, appending each message in
      document order, and goes on from the event after them. */
  lemma {:induction false} RunMessages(ms: seq<Message>, d: int, tail: Cursor, t: Transcript)
    requires tail[0].depth != d
    ensures Run(MessagesTokens(ms, d + 1) + tail, d, t) == Run(tail, d, t.(messages := t.messages + ms))
    decreases |ms|
  {
    if ms == [] {
      assert MessagesTokens(ms, d + 1) + tail == tail;
      assert t.messages + ms == t.messages;
    } else {
      var m := ms[0];
      var close := EndTag(DirectionName(m.direction), d + 1);
      var tail2: Cursor := MessagesTokens(ms[1..], d + 1) + tail;
      var start: Cursor := MessageTokens(m, d + 1) + tail2;
      var closing: Cursor := [close] + tail2;
      var t1 := t.(messages := t.messages + [m]);
      assert MessagesTokens(ms, d + 1) + tail == MessageTokens(m, d + 1) + tail2;
      StepMessage(m, d + 1, tail2, t);
      StepOver(close, tail2, t1);
      TwoSteps(start, closing, tail2, d, t, t1, t1);
      RunMessages(ms[1..], d, tail, t1);
      AppendFirstThenRest(t.messages, ms);
    }
  }

  lemma Regroup5<T>(a: seq<T>, b: seq<T>, c: seq<T>, e: seq<T>, f: seq<T>, g: seq<T>)
    ensures a + b + c + e + f + g == a + (b + (c + (e + (f + g))))
  {
  }

  lemma Regroup4<T>(a: seq<T>, b: seq<T>, c: seq<T>, e: seq<T>, f: seq<T>)
    ensures a + b + c + e + f == a + (b + (c + (e + f)))
  {
  }

  /** The loop passes over the `set` block, reading `first`, `last` and
      `count`, and stops on the event after it when that is at depth `d`. */
  lemma RunSet(firstIndex: i32, firstValue: string, lastValue: string, count: i32, d: int, tail: Cursor, t: Transcript)
    requires tail[0].depth == d
    ensures Run(SetTokens(firstIndex, firstValue, lastValue, count, d + 1) + tail, d, t)
         == Success((tail, t.(firstIndex := firstIndex, firstValue := Some(firstValue),
                              lastValue := Some(lastValue), count := count)))
  {
    var k := d + 1;
    var open, close := StartTag("set", [], k), EndTag("set", k);
    var first := TextElement("first", [Attr("index", Decimal(firstIndex as int))], firstValue, k + 1);
    var last := TextElement("last", [], lastValue, k + 1);
    var cnt := TextElement("count", [], Decimal(count as int), k + 1);
    var afterCount: Cursor := [close] + tail;
    var afterLast: Cursor := cnt + afterCount;
    var afterFirst: Cursor := last + afterLast;
    var afterOpen: Cursor := first + afterFirst;
    var start: Cursor := [open] + afterOpen;
    Regroup5([open], first, last, cnt, [close], tail);
    var t1 := t.(firstIndex := firstIndex, firstValue := Some(firstValue));
    var t2 := t1.(lastValue := Some(lastValue));
    var t3 := t2.(count := count);
    StepOver(open, afterOpen, t);
    RunAfterStep(start, d, t, afterOpen, t);
    StepFirst(firstIndex, firstValue, k + 1, afterFirst, t);
    RunAfterStep(afterOpen, d, t, afterFirst, t1);
    StepLast(lastValue, k + 1, afterLast, t1);
    RunAfterStep(afterFirst, d, t1, afterLast, t2);
    StepCount(count, k + 1, afterCount, t2);
    RunAfterStep(afterLast, d, t2, afterCount, t3);
    StepOver(close, tail, t3);
    RunAfterStep(afterCount, d, t3, tail, t3);
  }

  /** Decoding a populated transcript: the root, the messages and the `set`
      block, in that order, give `Decoded(t)` and stop on `end`. */
  lemma DecodeComplete(t: Transcript, d: int, end: Cursor)
    requires t.with.Some? && t.start.Some? && t.PagingComplete()
    requires end[0].depth == d
    ensures Run([StartTag("chat", RootAttributes(t), d)]
                + (MessagesTokens(t.messages, d + 1)
                   + (SetTokens(t.firstIndex, t.firstValue.value, t.lastValue.value, t.count, d + 1) + end)),
                d, EMPTY_TRANSCRIPT)
         == Success((end, Decoded(t)))
  {
    var h := DecodedHeader(t);
    var afterMessages: Cursor := SetTokens(t.firstIndex, t.firstValue.value, t.lastValue.value, t.count, d + 1) + end;
    var body: Cursor := MessagesTokens(t.messages, d + 1) + afterMessages;
    var toks: Cursor := [StartTag("chat", RootAttributes(t), d)] + body;
    StepRoot(t, d, body);
    RunAfterStep(toks, d, EMPTY_TRANSCRIPT, body, h);
    RunMessages(t.messages, d, afterMessages, h);
    var h1 := h.(messages := h.messages + t.messages);
    assert h.messages + t.messages == t.messages;
    RunSet(t.firstIndex, t.firstValue.value, t.lastValue.value, t.count, d, end, h1);
  }

  /** The decoder, started on the `chat` start tag at depth `d`, reads the
      events of an encoded transcript back and stops on the `chat` end tag. */
  lemma DecodeTranscript(t: Transcript, d: int, rest: seq<Token>)
    requires t.with.Some? && t.start.Some?
    ensures Decode(TranscriptTokens(t, d) + rest, d) == Success(([EndTag("chat", d)] + rest, Decoded(t)))
  {
    var root := StartTag("chat", RootAttributes(t), d);
    var end: Cursor := [EndTag("chat", d)] + rest;
    if !t.PagingComplete() {
      var toks: Cursor := [root] + end;
      assert TranscriptTokens(t, d) + rest == toks;
      StepRoot(t, d, end);
      RunAfterStep(toks, d, EMPTY_TRANSCRIPT, end, DecodedHeader(t));
    } else {
      var ms := MessagesTokens(t.messages, d + 1);
      var block := SetTokens(t.firstIndex, t.firstValue.value, t.lastValue.value, t.count, d + 1);
      assert TranscriptTokens(t, d) == [root] + ms + block + [EndTag("chat", d)];
      Regroup4([root], ms, block, [EndTag("chat", d)], rest);
      DecodeComplete(t, d, end);
    }
  }

  /** Text that `append` writes unescaped and a parser reports as written:
      no markup (`<`, `&`), no carriage return (parsers normalise line ends)
      and no `]]>`. */
  predicate CharData(s: string) {
    && (forall i :: 0 <= i < |s| ==> s[i] != '<' && s[i] != '&' && s[i] != '\r')
    && (forall i :: 0 <= i < |s| - 2 ==> !(s[i] == ']' && s[i + 1] == ']' && s[i + 2] == '>'))
  }

  /** An attribute value a parser reports as written: `attribute` escapes
      markup, but parsers turn tabs and line ends in attribute values into spaces. */
  predicate AttributeText(s: string) {
    forall i :: 0 <= i < |s| ==> s[i] != '\t' && s[i] != '\n' && s[i] != '\r'
  }

  /** A transcript whose strings survive being written and parsed unchanged. */
  predicate Writable(t: Transcript) {
    && (t.with.Some? ==> AttributeText(t.with.value))
    && (t.start.Some? ==> AttributeText(t.start.value))
    && (t.subject.Some? ==> AttributeText(t.subject.value))
    && (forall i :: 0 <= i < |t.messages| ==> CharData(t.messages[i].body))
    && (t.firstValue.Some? ==> CharData(t.firstValue.value))
    && (t.lastValue.Some? ==> CharData(t.lastValue.value))
  }

  /** The transcript round trip: the events a pull parser reports for the
      encoded transcript decode back to `Decoded(t)`, which is `t` itself
      when the paging fields are complete and the version is not negative.
      The message bodies and the `first` and `last` values are written with
      `append`, which does not escape, so the round trip is stated for
      transcripts whose strings a parser reports as written. */
  lemma TranscriptRoundTrip(t: Transcript, d: int, rest: seq<Token>)
    requires TranscriptXml(t).Success?
    requires Writable(t)
    ensures Emit(ChildXml(TranscriptXml(t).value), Emitter(d - 1, Idle)) == TranscriptTokens(t, d)
    ensures Decode(Emit(ChildXml(TranscriptXml(t).value), Emitter(d - 1, Idle)) + rest, d)
         == Success(([EndTag("chat", d)] + rest, Decoded(t)))
  {
    EmitTranscript(t, d);
    DecodeTranscript(t, d, rest);
  }
}
