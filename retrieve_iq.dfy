/** The response to "retrieving a collection" (XEP-0136): one archived
    conversation (`with`, `start`, optional `subject`, `version`), its
    messages in conversation order, and the Result Set Management paging
    fields `first` (with its `index`), `last` and `count`. */
module RetrieveIQ {
  import opened Base
  import opened JavaInt
  import opened Xml
  import opened Rsm

  datatype Direction = From | To

  /** `direction.toString().toLowerCase()`: the element name of a message. */
  function DirectionName(d: Direction): string {
    match d
    case From => "from"
    case To => "to"
  }

  /** One archived message: who sent it, seconds since the conversation started, the text. */
  datatype Message = Message(direction: Direction, secs: i32, body: string)

  /** The state of a transcript entity, as a value. */
  datatype Transcript = Transcript(
    with: Option<string>,
    start: Option<string>,
    subject: Option<string>,
    version: i32,
    firstIndex: i32,
    firstValue: Option<string>,
    lastValue: Option<string>,
    count: i32,
    messages: seq<Message>)
  {
    /** The encoder's guard for the populated layout. */
    predicate PagingComplete() {
      !(count < 0 || firstValue.None? || firstIndex < 0 || lastValue.None?)
    }
  }

  /** A freshly constructed transcript: `version` keeps Java's default 0. */
  const EMPTY_TRANSCRIPT: Transcript := Transcript(None, None, None, 0, -1, None, None, -1, [])

  /** One message element: `<from|to xmlns=.. secs=..><body xmlns=..>text</body></from|to>`. */
  function MessageXml(m: Message): seq<Piece> {
    [HalfOpen(DirectionName(m.direction)), Attribute("xmlns", ARCHIVE_NS), Attribute("secs", Decimal(m.secs as int)), RightAngle]
    + TextElementXml("body", [Attribute("xmlns", ARCHIVE_NS)], m.body)
    + [Close(DirectionName(m.direction))]
  }

  /** The message elements of `ms`, in order. */
  function MessagesXml(ms: seq<Message>): seq<Piece>
    decreases |ms|
  {
    if ms == [] then [] else MessageXml(ms[0]) + MessagesXml(ms[1..])
  }

  lemma {:induction false} MessagesXmlSnoc(ms: seq<Message>, m: Message)
    ensures MessagesXml(ms + [m]) == MessagesXml(ms) + MessageXml(m)
    decreases |ms|
  {
    if ms == [] {
      assert MessagesXml([m]) == MessageXml(m) + MessagesXml([]);
    } else {
      assert (ms + [m])[1..] == ms[1..] + [m];
      MessagesXmlSnoc(ms[1..], m);
    }
  }

  /** The attributes `with`, `start`, then `subject` if set and `version` if positive. */
  function HeaderXml(t: Transcript): seq<Piece>
    requires t.with.Some? && t.start.Some?
  {
    [Attribute("with", t.with.value), Attribute("start", t.start.value)]
    + (if t.subject.Some? then [Attribute("subject", t.subject.value)] else [])
    + (if t.version > 0 then [Attribute("version", Decimal(t.version as int))] else [])
  }

  /** What the encoder writes after the header: `/>` when the paging fields
      are incomplete, otherwise `>`, the messages and the `set` block. */
  function BodyXml(t: Transcript): seq<Piece> {
    if !t.PagingComplete() then [CloseEmpty]
    else [RightAngle] + MessagesXml(t.messages) + RsmSet(t.firstIndex, t.firstValue.value, t.lastValue.value, t.count, true)
  }

  /** The pieces the transcript encoder appends after the opening
      `<chat xmlns='urn:xmpp:archive'`, or the exception it throws. */
  function TranscriptXml(t: Transcript): (r: Result<seq<Piece>>)
    ensures r.Failure? <==> t.with.None? || t.start.None?
    ensures r.Success? ==> |r.value| > 2
    ensures r.Success? ==> r.value[0] == Attribute("with", t.with.value) && r.value[1] == Attribute("start", t.start.value)
  {
    if t.with.None? then Failure(Runtime("'with' attribute wasn't specified"))
    else if t.start.None? then Failure(Runtime("'start' attribute wasn't specified"))
    else Success(HeaderXml(t) + BodyXml(t))
  }

  /** A message element declares the archive namespace on itself and on
      its `body`, and carries `secs`. */
  lemma MessageKeys(m: Message)
    ensures AttributeKeys(MessageXml(m)) == ["xmlns", "secs", "xmlns"]
  {
    var dir := DirectionName(m.direction);
    var ns := Attribute("xmlns", ARCHIVE_NS);
    var open := [HalfOpen(dir), ns, Attribute("secs", Decimal(m.secs as int)), RightAngle];
    var body := TextElementXml("body", [ns], m.body);
    KeysOfFour(HalfOpen(dir), ns, Attribute("secs", Decimal(m.secs as int)), RightAngle);
    KeysOfOne(ns);
    TextElementKeys("body", [ns], m.body);
    KeysOfOne(Close(dir));
    assert MessageXml(m) == open + body + [Close(dir)];
    AttributeKeysAppend(open, body);
    AttributeKeysAppend(open + body, [Close(dir)]);
  }

  /** The message elements carry no attribute but `xmlns` and `secs`. */
  lemma {:induction false} MessagesKeys(ms: seq<Message>)
    ensures forall k :: k in AttributeKeys(MessagesXml(ms)) ==> k == "xmlns" || k == "secs"
    decreases |ms|
  {
    if ms != [] {
      MessageKeys(ms[0]);
      MessagesKeys(ms[1..]);
      AttributeKeysAppend(MessageXml(ms[0]), MessagesXml(ms[1..]));
    }
  }

  /** The header is made of attribute calls only. */
  lemma HeaderKeys(t: Transcript)
    requires t.with.Some? && t.start.Some?
    ensures AllAttributes(HeaderXml(t))
    ensures "subject" in AttributeKeys(HeaderXml(t)) <==> t.subject.Some?
    ensures "version" in AttributeKeys(HeaderXml(t)) <==> t.version > 0
  {
    var subject := if t.subject.Some? then [Attribute("subject", t.subject.value)] else [];
    var version := if t.version > 0 then [Attribute("version", Decimal(t.version as int))] else [];
    KeysOfTwo(Attribute("with", t.with.value), Attribute("start", t.start.value));
    if t.subject.Some? {
      KeysOfOne(Attribute("subject", t.subject.value));
    }
    KeysOfOne(Attribute("version", Decimal(t.version as int)));
    AttributeKeysAppend([Attribute("with", t.with.value), Attribute("start", t.start.value)], subject);
    AttributeKeysAppend([Attribute("with", t.with.value), Attribute("start", t.start.value)] + subject, version);
  }

  /** The keys of two parts lie in a set when the keys of each part do. */
  lemma KeysWithin(a: seq<Piece>, b: seq<Piece>, allowed: set<string>)
    requires forall k :: k in AttributeKeys(a) ==> k in allowed
    requires forall k :: k in AttributeKeys(b) ==> k in allowed
    ensures forall k :: k in AttributeKeys(a + b) ==> k in allowed
  {
    AttributeKeysAppend(a, b);
  }

  /** The attribute keys of the messages and the `set` block. */
  const BODY_KEYS: set<string> := {"xmlns", "secs", "index"}

  /** What follows the header carries no attribute but `xmlns`, `secs` and `index`. */
  lemma BodyKeys(t: Transcript)
    ensures forall k :: k in AttributeKeys(BodyXml(t)) ==> k in BODY_KEYS
  {
    var allowed := BODY_KEYS;
    if !t.PagingComplete() {
      KeysOfOne(CloseEmpty);
      assert BodyXml(t) == [CloseEmpty];
    } else {
      var ms := MessagesXml(t.messages);
      var block := RsmSet(t.firstIndex, t.firstValue.value, t.lastValue.value, t.count, true);
      MessagesKeys(t.messages);
      RsmSetKeys(t.firstIndex, t.firstValue.value, t.lastValue.value, t.count, true);
      assert ChildNamespaceKeys(true) == ["xmlns"];
      assert forall k :: k in AttributeKeys(block) ==> k in allowed;
      KeysOfOne(RightAngle);
      KeysWithin([RightAngle], ms, allowed);
      KeysWithin([RightAngle] + ms, block, allowed);
      assert BodyXml(t) == [RightAngle] + ms + block;
    }
  }

  /** A key the second part does not use occurs in the whole exactly when it occurs in the first. */
  lemma KeyOfJoin(a: seq<Piece>, b: seq<Piece>, key: string)
    requires key !in AttributeKeys(b)
    ensures key in AttributeKeys(a + b) <==> key in AttributeKeys(a)
  {
    AttributeKeysAppend(a, b);
  }

  /** The encoded transcript has a `subject` attribute exactly when the
      subject is set and a `version` attribute exactly when the version is
      positive, each with the field's value. */
  lemma TranscriptOptionalAttributes(t: Transcript)
    requires TranscriptXml(t).Success?
    ensures "subject" in AttributeKeys(TranscriptXml(t).value) <==> t.subject.Some?
    ensures "version" in AttributeKeys(TranscriptXml(t).value) <==> t.version > 0
    ensures t.subject.Some? ==> Attribute("subject", t.subject.value) in TranscriptXml(t).value
    ensures t.version > 0 ==> Attribute("version", Decimal(t.version as int)) in TranscriptXml(t).value
  {
    var header, body := HeaderXml(t), BodyXml(t);
    HeaderKeys(t);
    BodyKeys(t);
    KeyOfJoin(header, body, "subject");
    KeyOfJoin(header, body, "version");
    assert t.subject.Some? ==> (header + body)[2] == Attribute("subject", t.subject.value);
    assert t.version > 0 ==> (header + body)[|header| - 1] == Attribute("version", Decimal(t.version as int));
  }

  /** When the paging fields are incomplete the element is closed empty
      right after its attributes: no message and no `set` block is written,
      whatever messages were added. */
  lemma TranscriptEmptyLayout(t: Transcript)
    requires TranscriptXml(t).Success? && !t.PagingComplete()
    ensures var r := TranscriptXml(t).value;
      r[|r| - 1] == CloseEmpty && AllAttributes(r[..|r| - 1])
  {
    HeaderKeys(t);
    var r := TranscriptXml(t).value;
    assert r[..|r| - 1] == HeaderXml(t);
  }

  lemma AppendAfter<T>(h: seq<T>, a: seq<T>, b: seq<T>, c: seq<T>)
    ensures h + a + b + c == h + (a + b + c)
  {
  }

  /** The encoder's loop over the messages: appends each message element to `head`, in order. */
  method AppendMessages(head: seq<Piece>, ms: seq<Message>) returns (xml: seq<Piece>)
    ensures xml == head + MessagesXml(ms)
  {
    xml := head;
    for i := 0 to |ms|
      invariant xml == head + MessagesXml(ms[..i])
    {
      MessagesXmlSnoc(ms[..i], ms[i]);
      assert ms[..i + 1] == ms[..i] + [ms[i]];
      xml := xml + MessageXml(ms[i]);
    }
    assert ms[..|ms|] == ms;
  }

  class ChatListRetrieveResultIQ {
    var with: Option<string>
    var start: Option<string>
    var subject: Option<string>
    var version: i32
    var firstIndex: i32
    var firstValue: Option<string>
    var lastValue: Option<string>
    var count: i32
    var messages: seq<Message>

    function Snapshot(): Transcript
      reads this
    {
      Transcript(with, start, subject, version, firstIndex, firstValue, lastValue, count, messages)
    }

    constructor ()
      ensures with == None && start == None && subject == None && version == 0
      ensures count == -1 && firstIndex == -1 && firstValue == None && lastValue == None
      ensures messages == []
      ensures Snapshot() == EMPTY_TRANSCRIPT
    {
      with, start, subject := None, None, None;
      version := 0;
      count, firstIndex := -1, -1;
      firstValue, lastValue := None, None;
      messages := [];
    }

    method SetWith(v: Option<string>)
      modifies this`with
      ensures with == v
    {
      with := v;
    }

    method SetStart(v: Option<string>)
      modifies this`start
      ensures start == v
    {
      start := v;
    }

    method SetSubject(v: Option<string>)
      modifies this`subject
      ensures subject == v
    {
      subject := v;
    }

    method SetVersion(v: i32)
      modifies this`version
      ensures version == v
    {
      version := v;
    }

    method SetFirstIndex(v: i32)
      modifies this`firstIndex
      ensures firstIndex == v
    {
      firstIndex := v;
    }

    method SetFirstValue(v: Option<string>)
      modifies this`firstValue
      ensures firstValue == v
    {
      firstValue := v;
    }

    method SetLastValue(v: Option<string>)
      modifies this`lastValue
      ensures lastValue == v
    {
      lastValue := v;
    }

    method SetCount(v: i32)
      modifies this`count
      ensures count == v
    {
      count := v;
    }

    /** Appends one message after the ones already held. */
    method AddBody(direction: Direction, secs: i32, body: string)
      modifies this`messages
      ensures messages == old(messages) + [Message(direction, secs, body)]
    {
      messages := messages + [Message(direction, secs, body)];
    }

    /** getIQChildElementBuilder: the pieces appended to the element builder,
        or the exception thrown before anything is appended. */
    method ChildElement() returns (r: Result<seq<Piece>>)
      ensures r == TranscriptXml(Snapshot())
    {
      if with.None? {
        return Failure(Runtime("'with' attribute wasn't specified"));
      }
      if start.None? {
        return Failure(Runtime("'start' attribute wasn't specified"));
      }
      var xml := [Attribute("with", with.value), Attribute("start", start.value)];
      if subject.Some? {
        xml := xml + [Attribute("subject", subject.value)];
      }
      if version > 0 {
        xml := xml + [Attribute("version", Decimal(version as int))];
      }
      assert xml == HeaderXml(Snapshot());
      if count < 0 || firstValue.None? || firstIndex < 0 || lastValue.None? {
        return Success(xml + [CloseEmpty]);
      }
      ghost var header := xml;
      xml := AppendMessages(xml + [RightAngle], messages);
      xml := xml + RsmSet(firstIndex, firstValue.value, lastValue.value, count, true);
      AppendAfter(header, [RightAngle], MessagesXml(messages), RsmSet(firstIndex, firstValue.value, lastValue.value, count, true));
      return Success(xml);
    }
  }
}
