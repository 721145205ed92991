/** The two XML collaborators of the archive layer, kept abstract:
    - the string builder the encoders append to, as the sequence of calls
      made on it (`Piece`s), without rendering or escaping;
    - the pull parser the decoders read from, as the sequence of events it
      reports (`Token`s), each with the depth `getDepth()` gives on it, and a
      cursor that is the not-yet-consumed rest of that sequence.
    `Emit` connects the two: the events a namespace-aware pull parser reports
    when it reads what a sequence of builder calls wrote. */
module Xml {
  import opened Base

  const ARCHIVE_NS: string := "urn:xmpp:archive"
  const RSM_NS: string := "http://jabber.org/protocol/rsm"

  /** One call on the XML string builder. */
  datatype Piece =
    | HalfOpen(name: string)                  // halfOpenElement(name):  <name
    | Attribute(key: string, value: string)   // attribute(key, value):  key='value'
    | RightAngle                              // rightAngleBracket():    >
    | CloseEmpty                              // closeEmptyElement():    />
    | Raw(text: string)                       // append(text): the text as it is
    | Close(name: string)                     // closeElement(name):     </name>

  datatype Attr = Attr(name: string, value: string)

  /** One pull-parser event (START_TAG, END_TAG, TEXT) and its depth. */
  datatype Token =
    | StartTag(name: string, attributes: seq<Attr>, depth: int)
    | EndTag(name: string, depth: int)
    | Text(content: string, depth: int)

  /** A parser positioned on `cur[0]`; the rest of `cur` is what it has not read yet. */
  type Cursor = s: seq<Token> | |s| > 0 witness [Text("", 0)]

  /** `later` is what is left of `cur` after the parser moved forward. */
  predicate Behind(later: seq<Token>, cur: seq<Token>) {
    |later| <= |cur| && later == cur[|cur| - |later|..]
  }

  /** What the parser consumed going from `cur` to `rest` is what it consumed
      going to `mid` followed by what it consumed from there to `rest`. */
  lemma ConsumedSplit(cur: seq<Token>, mid: seq<Token>, rest: seq<Token>)
    requires Behind(mid, cur) && Behind(rest, mid)
    ensures Behind(rest, cur)
    ensures cur[..|cur| - |rest|] == cur[..|cur| - |mid|] + mid[..|mid| - |rest|]
  {
  }

  /** getAttributeValue(i) on a start tag; an index past the last attribute reads as null. */
  function AttributeValue(t: Token, i: nat): (r: Option<string>)
    requires t.StartTag?
    ensures r.Some? <==> i < |t.attributes|
    ensures r.Some? ==> r.value == t.attributes[i].value
  {
    if i < |t.attributes| then Some(t.attributes[i].value) else None
  }

  /** next(): move to the following event. */
  function Next(cur: Cursor): (r: Result<Cursor>)
    ensures r.Success? <==> |cur| > 1
    ensures r.Success? ==> r.value == cur[1..]
  {
    if |cur| > 1 then Success(cur[1..]) else Failure(EndOfInput)
  }

  predicate IsWhitespace(s: string) {
    forall i :: 0 <= i < |s| ==> s[i] == ' ' || s[i] == '\t' || s[i] == '\n' || s[i] == '\r'
  }

  /** nextTag(): move forward, skipping one whitespace-only text event, and
      require the parser to be on a start or an end tag. */
  function NextTag(cur: Cursor): (r: Result<Cursor>)
    ensures r.Success? ==> r.value[0].StartTag? || r.value[0].EndTag?
    ensures r.Success? ==> |r.value| < |cur| && Behind(r.value, cur)
    ensures r.Success? ==> forall i :: 1 <= i < |cur| - |r.value| ==> cur[i].Text? && IsWhitespace(cur[i].content)
  {
    if |cur| == 1 then Failure(EndOfInput)
    else if cur[1].Text? && IsWhitespace(cur[1].content) then
      if |cur| == 2 then Failure(EndOfInput)
      else if cur[2].StartTag? || cur[2].EndTag? then Success(cur[2..])
      else Failure(PullParser("expected start or end tag"))
    else if cur[1].StartTag? || cur[1].EndTag? then Success(cur[1..])
    else Failure(PullParser("expected start or end tag"))
  }

  /** nextText(): from a start tag, read the element's text content (empty
      when the end tag follows at once) and stop on the end tag. */
  function NextText(cur: Cursor): (r: Result<(string, Cursor)>)
    ensures r.Success? ==> cur[0].StartTag? && r.value.1[0].EndTag?
    ensures r.Success? ==> |r.value.1| < |cur| && Behind(r.value.1, cur)
    ensures r.Success? ==> forall i :: 1 <= i < |cur| - |r.value.1| ==> cur[i].Text? && cur[i].content == r.value.0
    ensures r.Success? && r.value.0 != [] ==> |cur| - |r.value.1| == 2
  {
    if !cur[0].StartTag? then Result<(string, Cursor)>.Failure(PullParser("parser must be on START_TAG to read next text"))
    else if |cur| == 1 then Result<(string, Cursor)>.Failure(EndOfInput)
    else match cur[1]
      case Text(s, _) =>
        if |cur| == 2 then Result<(string, Cursor)>.Failure(EndOfInput)
        else if cur[2].EndTag? then Success((s, cur[2..]))
        else Result<(string, Cursor)>.Failure(PullParser("TEXT must be immediately followed by END_TAG"))
      case EndTag(_, _) => Success(([], cur[1..]))
      case StartTag(_, _, _) => Result<(string, Cursor)>.Failure(PullParser("parser must be on START_TAG or TEXT to read text"))
  }

  /** The element whose start tag the builder is writing, if any. */
  datatype Pending = Idle | Opening(name: string, attributes: seq<Attr>)

  /** Where the writer is: the depth of the innermost open element and the pending start tag. */
  datatype Emitter = Emitter(depth: int, pending: Pending)

  /** The events one builder call gives rise to, and the writer's state after it.
      `xmlns` attributes are namespace declarations, which a namespace-aware
      parser does not report as attributes; an empty text run reports nothing. */
  function EmitPiece(p: Piece, e: Emitter): (seq<Token>, Emitter) {
    match p
    case HalfOpen(n) => ([], Emitter(e.depth, Opening(n, [])))
    case Attribute(k, v) =>
      if e.pending.Opening? && k != "xmlns" then
        ([], e.(pending := e.pending.(attributes := e.pending.attributes + [Attr(k, v)])))
      else ([], e)
    case RightAngle =>
      if e.pending.Opening? then
        ([StartTag(e.pending.name, e.pending.attributes, e.depth + 1)], Emitter(e.depth + 1, Idle))
      else ([], e)
    case CloseEmpty =>
      if e.pending.Opening? then
        ([StartTag(e.pending.name, e.pending.attributes, e.depth + 1), EndTag(e.pending.name, e.depth + 1)],
         Emitter(e.depth, Idle))
      else ([], e)
    case Raw(s) => (if s == [] then [] else [Text(s, e.depth)], e)
    case Close(n) => ([EndTag(n, e.depth)], Emitter(e.depth - 1, Idle))
  }

  /** The events a pull parser reports reading what `ps` wrote, starting from `e`. */
  function Emit(ps: seq<Piece>, e: Emitter): seq<Token>
    decreases |ps|
  {
    if ps == [] then [] else EmitPiece(ps[0], e).0 + Emit(ps[1..], EmitPiece(ps[0], e).1)
  }

  /** The writer's state after `ps`. */
  function After(ps: seq<Piece>, e: Emitter): Emitter
    decreases |ps|
  {
    if ps == [] then e else After(ps[1..], EmitPiece(ps[0], e).1)
  }

  /** Writing `a` then `b` is reported as the events of `a` followed by those of `b`. */
  lemma {:induction false} EmitAppend(a: seq<Piece>, b: seq<Piece>, e: Emitter)
    ensures Emit(a + b, e) == Emit(a, e) + Emit(b, After(a, e))
    ensures After(a + b, e) == After(b, After(a, e))
    decreases |a|
  {
    if a == [] {
      assert a + b == b;
    } else {
      assert (a + b)[1..] == a[1..] + b;
      EmitAppend(a[1..], b, EmitPiece(a[0], e).1);
    }
  }

  /** Three consecutive runs of builder calls, each starting where the last one left the writer. */
  lemma EmitConcat3(a: seq<Piece>, b: seq<Piece>, c: seq<Piece>, e0: Emitter, e1: Emitter, e2: Emitter)
    requires After(a, e0) == e1 && After(b, e1) == e2
    ensures Emit(a + b + c, e0) == Emit(a, e0) + Emit(b, e1) + Emit(c, e2)
    ensures After(a + b + c, e0) == After(c, e2)
  {
    EmitAppend(a, b, e0);
    EmitAppend(a + b, c, e0);
  }

  /** Four consecutive runs of builder calls. */
  lemma EmitConcat4(a: seq<Piece>, b: seq<Piece>, c: seq<Piece>, f: seq<Piece>, e0: Emitter, e1: Emitter, e2: Emitter, e3: Emitter)
    requires After(a, e0) == e1 && After(b, e1) == e2 && After(c, e2) == e3
    ensures Emit(a + b + c + f, e0) == Emit(a, e0) + Emit(b, e1) + Emit(c, e2) + Emit(f, e3)
    ensures After(a + b + c + f, e0) == After(f, e3)
  {
    EmitConcat3(a, b, c, e0, e1, e2);
    EmitAppend(a + b + c, f, e0);
  }

  lemma EmitOne(p: Piece, e: Emitter)
    ensures Emit([p], e) == EmitPiece(p, e).0
    ensures After([p], e) == EmitPiece(p, e).1
  {
    assert [p][1..] == [];
  }

  predicate AllAttributes(ps: seq<Piece>) {
    forall i :: 0 <= i < |ps| ==> ps[i].Attribute?
  }

  /** The attributes a parser reports for a run of attribute calls: all but
      the namespace declarations, in order. */
  function ReportedAttributes(ps: seq<Piece>): seq<Attr>
    requires AllAttributes(ps)
    decreases |ps|
  {
    if ps == [] then []
    else (if ps[0].key == "xmlns" then [] else [Attr(ps[0].key, ps[0].value)]) + ReportedAttributes(ps[1..])
  }

  /** A single attribute call is reported unless it declares a namespace. */
  lemma ReportedOne(p: Piece)
    requires p.Attribute?
    ensures ReportedAttributes([p]) == if p.key == "xmlns" then [] else [Attr(p.key, p.value)]
  {
    assert [p][1..] == [];
  }

  /** Reporting distributes over consecutive runs of attribute calls. */
  lemma {:induction false} ReportedAttributesAppend(a: seq<Piece>, b: seq<Piece>)
    requires AllAttributes(a) && AllAttributes(b)
    ensures AllAttributes(a + b)
    ensures ReportedAttributes(a + b) == ReportedAttributes(a) + ReportedAttributes(b)
    decreases |a|
  {
    if a == [] {
      assert a + b == b;
    } else {
      assert (a + b)[1..] == a[1..] + b;
      ReportedAttributesAppend(a[1..], b);
      AppendAssoc(if a[0].key == "xmlns" then [] else [Attr(a[0].key, a[0].value)], ReportedAttributes(a[1..]), ReportedAttributes(b));
    }
  }

  /** One attribute call on a pending start tag. */
  lemma EmitAttribute(n: string, acc: seq<Attr>, p: Piece, k: int)
    requires p.Attribute?
    ensures EmitPiece(p, Emitter(k, Opening(n, acc))) == ([], Emitter(k, Opening(n, acc + ReportedAttributes([p]))))
  {
    ReportedOne(p);
    if p.key == "xmlns" {
      assert acc + [] == acc;
    }
  }

  lemma AppendAssoc<T>(a: seq<T>, b: seq<T>, c: seq<T>)
    ensures (a + b) + c == a + (b + c)
  {
  }

  /** Attribute calls on a pending start tag report nothing yet and add the
      non-namespace ones to the tag. */
  lemma {:induction false} EmitAttributes(n: string, acc: seq<Attr>, ps: seq<Piece>, k: int)
    requires AllAttributes(ps)
    ensures Emit(ps, Emitter(k, Opening(n, acc))) == []
    ensures After(ps, Emitter(k, Opening(n, acc))) == Emitter(k, Opening(n, acc + ReportedAttributes(ps)))
    decreases |ps|
  {
    if ps == [] {
      assert acc + [] == acc;
    } else {
      var head := ReportedAttributes([ps[0]]);
      ReportedOne(ps[0]);
      EmitAttribute(n, acc, ps[0], k);
      EmitAttributes(n, acc + head, ps[1..], k);
      AppendAssoc(acc, head, ReportedAttributes(ps[1..]));
    }
  }

  /** halfOpenElement(n) and attribute calls: a start tag pending, nothing reported yet. */
  lemma EmitHead(n: string, ps: seq<Piece>, k: int)
    requires AllAttributes(ps)
    ensures Emit([HalfOpen(n)] + ps, Emitter(k, Idle)) == []
    ensures After([HalfOpen(n)] + ps, Emitter(k, Idle)) == Emitter(k, Opening(n, ReportedAttributes(ps)))
  {
    EmitOne(HalfOpen(n), Emitter(k, Idle));
    EmitAttributes(n, [], ps, k);
    assert [] + ReportedAttributes(ps) == ReportedAttributes(ps);
    EmitAppend([HalfOpen(n)], ps, Emitter(k, Idle));
  }

  /** halfOpenElement(n), attribute calls, rightAngleBracket(): one start tag one level deeper. */
  lemma EmitOpen(n: string, ps: seq<Piece>, k: int)
    requires AllAttributes(ps)
    ensures Emit([HalfOpen(n)] + ps + [RightAngle], Emitter(k, Idle)) == [StartTag(n, ReportedAttributes(ps), k + 1)]
    ensures After([HalfOpen(n)] + ps + [RightAngle], Emitter(k, Idle)) == Emitter(k + 1, Idle)
  {
    EmitHead(n, ps, k);
    EmitOne(RightAngle, Emitter(k, Opening(n, ReportedAttributes(ps))));
    EmitAppend([HalfOpen(n)] + ps, [RightAngle], Emitter(k, Idle));
  }

  /** halfOpenElement(n), attribute calls, closeEmptyElement(): a start tag and its end tag. */
  lemma EmitEmpty(n: string, ps: seq<Piece>, k: int)
    requires AllAttributes(ps)
    ensures Emit([HalfOpen(n)] + ps + [CloseEmpty], Emitter(k, Idle))
         == [StartTag(n, ReportedAttributes(ps), k + 1), EndTag(n, k + 1)]
    ensures After([HalfOpen(n)] + ps + [CloseEmpty], Emitter(k, Idle)) == Emitter(k, Idle)
  {
    EmitHead(n, ps, k);
    EmitOne(CloseEmpty, Emitter(k, Opening(n, ReportedAttributes(ps))));
    EmitAppend([HalfOpen(n)] + ps, [CloseEmpty], Emitter(k, Idle));
  }

  /** The event a text run reports: none for the empty string. */
  function TextTokens(s: string, k: int): seq<Token> {
    if s == [] then [] else [Text(s, k)]
  }

  /** The events of an element that holds only text. */
  function TextElement(n: string, attrs: seq<Attr>, s: string, k: int): seq<Token> {
    [StartTag(n, attrs, k)] + TextTokens(s, k) + [EndTag(n, k)]
  }

  /** The builder calls that write an element holding only text: halfOpenElement,
      the attribute calls `ps`, rightAngleBracket, the text, closeElement. */
  function TextElementXml(n: string, ps: seq<Piece>, s: string): seq<Piece> {
    [HalfOpen(n)] + ps + [RightAngle, Raw(s), Close(n)]
  }

  /** An element holding only text: start tag, the text, end tag. */
  lemma EmitTextElement(n: string, ps: seq<Piece>, s: string, k: int)
    requires AllAttributes(ps)
    ensures Emit(TextElementXml(n, ps, s), Emitter(k, Idle)) == TextElement(n, ReportedAttributes(ps), s, k + 1)
    ensures After(TextElementXml(n, ps, s), Emitter(k, Idle)) == Emitter(k, Idle)
  {
    var open := [HalfOpen(n)] + ps + [RightAngle];
    EmitOpen(n, ps, k);
    EmitOne(Raw(s), Emitter(k + 1, Idle));
    EmitOne(Close(n), Emitter(k + 1, Idle));
    EmitAppend([Raw(s)], [Close(n)], Emitter(k + 1, Idle));
    assert [Raw(s), Close(n)] == [Raw(s)] + [Close(n)];
    EmitAppend(open, [Raw(s), Close(n)], Emitter(k, Idle));
    assert [HalfOpen(n)] + ps + [RightAngle, Raw(s), Close(n)] == open + [Raw(s), Close(n)];
  }

  /** nextText() on an element holding only text reads the text and stops on the end tag. */
  lemma NextTextOfElement(n: string, attrs: seq<Attr>, s: string, k: int, rest: seq<Token>)
    ensures NextText(TextElement(n, attrs, s, k) + rest) == Success((s, [EndTag(n, k)] + rest))
  {
    var cur := TextElement(n, attrs, s, k) + rest;
    if s == [] {
      assert cur[1..] == [EndTag(n, k)] + rest;
    } else {
      assert cur[2..] == [EndTag(n, k)] + rest;
    }
  }

  /** The key of one attribute call; nothing for any other call. */
  function PieceKeys(p: Piece): seq<string> {
    if p.Attribute? then [p.key] else []
  }

  /** The keys of the attribute calls among `ps`, in order. */
  function AttributeKeys(ps: seq<Piece>): seq<string>
    decreases |ps|
  {
    if ps == [] then [] else PieceKeys(ps[0]) + AttributeKeys(ps[1..])
  }

  lemma {:induction false} AttributeKeysAppend(a: seq<Piece>, b: seq<Piece>)
    ensures AttributeKeys(a + b) == AttributeKeys(a) + AttributeKeys(b)
    decreases |a|
  {
    if a == [] {
      assert a + b == b;
    } else {
      assert (a + b)[1..] == a[1..] + b;
      AttributeKeysAppend(a[1..], b);
    }
  }

  lemma KeysOfFive(a: seq<Piece>, b: seq<Piece>, c: seq<Piece>, d: seq<Piece>, e: seq<Piece>)
    ensures AttributeKeys(a + b + c + d + e)
         == AttributeKeys(a) + AttributeKeys(b) + AttributeKeys(c) + AttributeKeys(d) + AttributeKeys(e)
  {
    AttributeKeysAppend(a, b);
    AttributeKeysAppend(a + b, c);
    AttributeKeysAppend(a + b + c, d);
    AttributeKeysAppend(a + b + c + d, e);
  }

  lemma KeysOfOne(x: Piece)
    ensures AttributeKeys([x]) == PieceKeys(x)
  {
    assert [x][1..] == [];
  }

  lemma KeysOfTwo(x: Piece, y: Piece)
    ensures AttributeKeys([x, y]) == PieceKeys(x) + PieceKeys(y)
  {
    assert [x, y][1..] == [y];
    KeysOfOne(y);
  }

  lemma KeysOfThree(x: Piece, y: Piece, z: Piece)
    ensures AttributeKeys([x, y, z]) == PieceKeys(x) + PieceKeys(y) + PieceKeys(z)
  {
    assert [x, y, z][1..] == [y, z];
    KeysOfTwo(y, z);
  }

  lemma KeysOfFour(w: Piece, x: Piece, y: Piece, z: Piece)
    ensures AttributeKeys([w, x, y, z]) == PieceKeys(w) + PieceKeys(x) + PieceKeys(y) + PieceKeys(z)
  {
    assert [w, x, y, z][1..] == [x, y, z];
    KeysOfThree(x, y, z);
  }

  /** A text element carries exactly the attributes given to it. */
  lemma TextElementKeys(n: string, ps: seq<Piece>, s: string)
    ensures AttributeKeys(TextElementXml(n, ps, s)) == AttributeKeys(ps)
  {
    AttributeKeysAppend([HalfOpen(n)], ps);
    AttributeKeysAppend([HalfOpen(n)] + ps, [RightAngle, Raw(s), Close(n)]);
    assert AttributeKeys([HalfOpen(n)]) == [];
    KeysOfThree(RightAngle, Raw(s), Close(n));
  }
}
