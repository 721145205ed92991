/** The response to "retrieving a list of collections" (XEP-0136): the
    `list` entity, which keeps its `chat` tags as ready-made XML text in a
    buffer, the start dates of those chats, and the Result Set Management
    (XEP-0059) paging fields `first` (with its `index`), `last` and `count`. */
module ListIQ {
  import opened Base
  import opened JavaInt
  import opened Xml
  import opened Rsm

  /** The template of one buffered `chat` tag is
      CHAT_OPEN + "?" + CHAT_MIDDLE + "?" + CHAT_CLOSE; each `?` is a placeholder. */
  const CHAT_OPEN: string := "<chat xmlns='urn:xmpp:archive' with='"
  const CHAT_MIDDLE: string := "' start='"
  const CHAT_CLOSE: string := "'/>"
  const CHAT_TEMPLATE: string := CHAT_OPEN + "?" + CHAT_MIDDLE + "?" + CHAT_CLOSE

  /** The position of the first `c` in `s`, if any. */
  function IndexOf(s: string, c: char): (r: Option<nat>)
    ensures r.Some? ==> r.value < |s| && s[r.value] == c && c !in s[..r.value]
    ensures r.None? ==> c !in s
    decreases |s|
  {
    if s == [] then None
    else if s[0] == c then Some(0)
    else match IndexOf(s[1..], c)
      case None => None
      case Some(i) => Some(i + 1)
  }

  lemma {:induction false} IndexOfFirst(s: string, c: char, i: nat)
    requires i < |s| && s[i] == c && c !in s[..i]
    ensures IndexOf(s, c) == Some(i)
    decreases i
  {
    if i > 0 {
      assert s[..i][0] == s[0];
      assert s[1..][..i - 1] == s[..i][1..];
      IndexOfFirst(s[1..], c, i - 1);
    }
  }

  function Prepend(prefix: string, r: Result<string>): Result<string> {
    match r
    case Success(s) => Success(prefix + s)
    case Failure(e) => Failure(e)
  }

  /** `s` without its leading '0' characters. */
  function SkipZeros(s: string): (r: string)
    ensures |r| <= |s|
    decreases |s|
  {
    if s != [] && s[0] == '0' then SkipZeros(s[1..]) else s
  }

  /** What Java's regex matcher substitutes for the replacement string `rep`
      when the pattern has no capturing group: `\x` stands for `x`; `$0`, with
      any '0's right after it, stands for the matched text; `$1`..`$9` name a
      group that does not exist; any other `$` (also `${name}`) is malformed. */
  function Expand(rep: string, matched: string): Result<string>
    decreases |rep|
  {
    if rep == [] then Success([])
    else if rep[0] == '\\' then
      if |rep| == 1 then Failure(IllegalArgument("character to be escaped is missing"))
      else Prepend([rep[1]], Expand(rep[2..], matched))
    else if rep[0] == '$' then
      if |rep| == 1 then Failure(IllegalArgument("Illegal group reference: group index is missing"))
      else if rep[1] == '0' then Prepend(matched, Expand(SkipZeros(rep[2..]), matched))
      else if IsDigit(rep[1]) then Failure(IndexOutOfBounds("No group " + [rep[1]]))
      else Failure(IllegalArgument("Illegal group reference"))
    else Prepend([rep[0]], Expand(rep[1..], matched))
  }

  predicate NoReplacementSyntax(rep: string) {
    '$' !in rep && '\\' !in rep
  }

  /** A replacement string without `$` or `\` is substituted literally. */
  lemma {:induction false} ExpandLiteral(rep: string, matched: string)
    requires NoReplacementSyntax(rep)
    ensures Expand(rep, matched) == Success(rep)
    decreases |rep|
  {
    if rep != [] {
      assert rep == [rep[0]] + rep[1..];
      ExpandLiteral(rep[1..], matched);
    }
  }

  /** `s.replaceFirst("\\?", rep)`: the first '?' of `s` is replaced by the
      expansion of `rep`; without a '?' the string is returned as it is and
      `rep` is not examined. */
  function ReplaceFirstMark(s: string, rep: string): (r: Result<string>)
    ensures '?' !in s ==> r == Success(s)
  {
    match IndexOf(s, '?')
    case None => Success(s)
    case Some(i) =>
      match Expand(rep, "?")
      case Success(x) => Success(s[..i] + x + s[i + 1..])
      case Failure(e) => Failure(e)
  }

  /** The text appendChat adds to the buffer: the template with `with` put in
      the first placeholder and then `start` put in the first placeholder left. */
  function ChatFragment(with: string, start: string): Result<string> {
    match ReplaceFirstMark(CHAT_TEMPLATE, with)
    case Failure(e) => Failure(e)
    case Success(t) => ReplaceFirstMark(t, start)
  }

  lemma TemplateParts()
    ensures '?' !in CHAT_OPEN && '?' !in CHAT_MIDDLE && '?' !in CHAT_CLOSE
  {
  }

  /** Replacing the first '?' of `t`, at `i`, by a plain string. */
  lemma ReplaceAt(t: string, i: nat, rep: string)
    requires i < |t| && t[i] == '?' && '?' !in t[..i] && NoReplacementSyntax(rep)
    ensures ReplaceFirstMark(t, rep) == Success(t[..i] + rep + t[i + 1..])
  {
    IndexOfFirst(t, '?', i);
    ExpandLiteral(rep, "?");
  }

  /** Replacing the first '?' of `o + "?" + m`, when `o` has none, by a plain string. */
  lemma ReplaceAfter(o: string, m: string, x: string)
    requires '?' !in o && NoReplacementSyntax(x)
    ensures ReplaceFirstMark(o + "?" + m, x) == Success(o + x + m)
  {
    var t := o + "?" + m;
    assert t[..|o|] == o;
    assert t[|o| + 1..] == m;
    ReplaceAt(t, |o|, x);
  }

  lemma Regroup(a: string, b: string, c: string, d: string, e: string)
    ensures a + b + c + d + e == a + b + (c + d + e)
    ensures a + b + c + d + e == (a + b + c) + d + e
  {
  }

  lemma AppendThree(p: string, a: string, b: string, c: string)
    ensures p + (a + b + c) == p + a + b + c
  {
  }

  lemma NoMarkIn(a: string, b: string, c: string)
    requires '?' !in a && '?' !in b && '?' !in c
    ensures '?' !in a + b + c
  {
  }

  /** The first substitution of appendChat puts a plain `with` into the `with` placeholder. */
  lemma FirstSubstitution(with: string)
    requires NoReplacementSyntax(with)
    ensures ReplaceFirstMark(CHAT_TEMPLATE, with) == Success(CHAT_OPEN + with + CHAT_MIDDLE + "?" + CHAT_CLOSE)
  {
    TemplateParts();
    Regroup(CHAT_OPEN, "?", CHAT_MIDDLE, "?", CHAT_CLOSE);
    ReplaceAfter(CHAT_OPEN, CHAT_MIDDLE + "?" + CHAT_CLOSE, with);
    Regroup(CHAT_OPEN, with, CHAT_MIDDLE, "?", CHAT_CLOSE);
  }

  /** With plain arguments and no '?' in `with`, the fragment is the tag
      <chat xmlns='urn:xmpp:archive' with='W' start='S'/>. */
  lemma FragmentPlain(with: string, start: string)
    requires '?' !in with && NoReplacementSyntax(with) && NoReplacementSyntax(start)
    ensures ChatFragment(with, start) == Success(CHAT_OPEN + with + CHAT_MIDDLE + start + CHAT_CLOSE)
  {
    TemplateParts();
    FirstSubstitution(with);
    NoMarkIn(CHAT_OPEN, with, CHAT_MIDDLE);
    Regroup(CHAT_OPEN, with, CHAT_MIDDLE, "?", CHAT_CLOSE);
    ReplaceAfter(CHAT_OPEN + with + CHAT_MIDDLE, CHAT_CLOSE, start);
    Regroup(CHAT_OPEN, with, CHAT_MIDDLE, start, CHAT_CLOSE);
  }

  /** `w` around its character at `i`, regrouped with what comes before and after. */
  lemma AroundMark(o: string, w: string, m: string, i: nat, x: string)
    requires i < |w| && w[i] == '?'
    ensures o + w + m == (o + w[..i]) + "?" + (w[i + 1..] + m)
    ensures (o + w[..i]) + x + (w[i + 1..] + m) == o + w[..i] + x + w[i + 1..] + m
  {
    assert w == w[..i] + "?" + w[i + 1..];
  }

  /** When `with` holds a '?', the second substitution lands inside `with`:
      `start` replaces the first '?' of `with`, and the template's own second
      placeholder stays in the text. */
  lemma FragmentMarkInWith(with: string, start: string, i: nat)
    requires i < |with| && with[i] == '?' && '?' !in with[..i]
    requires NoReplacementSyntax(with) && NoReplacementSyntax(start)
    ensures ChatFragment(with, start)
         == Success(CHAT_OPEN + with[..i] + start + with[i + 1..] + CHAT_MIDDLE + "?" + CHAT_CLOSE)
  {
    TemplateParts();
    FirstSubstitution(with);
    var m := CHAT_MIDDLE + "?" + CHAT_CLOSE;
    Regroup(CHAT_OPEN, with, CHAT_MIDDLE, "?", CHAT_CLOSE);
    AroundMark(CHAT_OPEN, with, m, i, start);
    ReplaceAfter(CHAT_OPEN + with[..i], with[i + 1..] + m, start);
    AppendThree(CHAT_OPEN + with[..i] + start + with[i + 1..], CHAT_MIDDLE, "?", CHAT_CLOSE);
  }

  /** A `with` that is not a valid replacement string makes appendChat throw,
      whatever `start` is. */
  lemma FragmentRejectsWith(with: string, start: string)
    requires Expand(with, "?").Failure?
    ensures ChatFragment(with, start) == Failure(Expand(with, "?").error)
  {
    TemplateParts();
    assert CHAT_TEMPLATE[..|CHAT_OPEN|] == CHAT_OPEN;
    IndexOfFirst(CHAT_TEMPLATE, '?', |CHAT_OPEN|);
  }

  /** The state of a list entity, as a value. */
  datatype ChatList = ChatList(
    chatsBuffer: string,
    firstIndex: i32,
    firstValue: Option<string>,
    lastValue: Option<string>,
    count: i32,
    startDates: seq<string>)
  {
    /** The encoder's guard for the populated layout. */
    predicate PagingComplete() {
      !(firstIndex < 0 || firstValue.None? || lastValue.None? || count < 0)
    }

    /** appendChat on the value: both arguments must be non-null; the tag text
        goes to the buffer, `start` to the start dates, and the count goes up by one. */
    function WithChat(with: Option<string>, start: Option<string>): Result<ChatList> {
      if with.None? then Failure(IllegalArgument("with == null"))
      else if start.None? then Failure(IllegalArgument("start == null"))
      else match ChatFragment(with.value, start.value)
        case Failure(e) => Failure(e)
        case Success(f) =>
          Success(this.(chatsBuffer := chatsBuffer + f, startDates := startDates + [start.value], count := Inc(count)))
    }
  }

  /** appendChat keeps `count` equal to the number of start dates (as a
      Java int); only clearBuffers, which resets `count` and keeps the dates,
      breaks that. */
  lemma WithChatCounts(l: ChatList, with: Option<string>, start: Option<string>)
    requires l.count == Wrap(|l.startDates|)
    requires l.WithChat(with, start).Success?
    ensures l.WithChat(with, start).value.count == Wrap(|l.WithChat(with, start).value.startDates|)
  {
    var f := ChatFragment(with.value, start.value);
    assert f.Success?;
    var l' := l.WithChat(with, start).value;
    assert l' == l.(chatsBuffer := l.chatsBuffer + f.value, startDates := l.startDates + [start.value], count := Inc(l.count));
    IncIsWrap(l.count);
    WrapShift(|l.startDates|, 1, |l'.startDates|);
  }

  /** A freshly constructed list entity: `count` is never assigned by the constructor, so it is Java's default 0. */
  const EMPTY_LIST: ChatList := ChatList([], -1, None, None, 0, [])

  /** The pieces the list encoder appends after the opening
      `<list xmlns='urn:xmpp:archive'`: the start tag is closed, and when the
      paging fields are complete the buffered chats follow, then one `set`
      block in the RSM namespace whose children carry no namespace of their
      own. */
  function ListXml(l: ChatList): (r: seq<Piece>)
    ensures |r| > 0 && r[0] == RightAngle
    ensures |r| == 1 <==> !l.PagingComplete()
  {
    if !l.PagingComplete() then [RightAngle]
    else [RightAngle, Raw(l.chatsBuffer)] + RsmSet(l.firstIndex, l.firstValue.value, l.lastValue.value, l.count, false)
  }

  /** The builder calls of the populated list layout, after `h`, append the unqualified `set` block. */
  lemma UnqualifiedSet(h: seq<Piece>, firstIndex: i32, firstValue: string, lastValue: string, count: i32)
    ensures h + [HalfOpen("set"), Attribute("xmlns", RSM_NS), RightAngle]
            + TextElementXml("first", [Attribute("index", Decimal(firstIndex as int))], firstValue)
            + TextElementXml("last", [], lastValue)
            + TextElementXml("count", [], Decimal(count as int))
            + [Close("set")]
         == h + RsmSet(firstIndex, firstValue, lastValue, count, false)
  {
    var index := [Attribute("index", Decimal(firstIndex as int))];
    assert [] + index == index;
  }

  class ChatListResponceIQ {
    var chatsBuffer: string
    var firstIndex: i32
    var firstValue: Option<string>
    var lastValue: Option<string>
    var count: i32
    var startDates: seq<string>

    function Snapshot(): ChatList
      reads this
    {
      ChatList(chatsBuffer, firstIndex, firstValue, lastValue, count, startDates)
    }

    constructor ()
      ensures chatsBuffer == [] && startDates == []
      ensures firstIndex == -1 && firstValue == None && lastValue == None && count == 0
      ensures Snapshot() == EMPTY_LIST
    {
      chatsBuffer := [];
      startDates := [];
      firstIndex := -1;
      firstValue, lastValue := None, None;
      count := 0;
    }

    method AppendChat(with: Option<string>, start: Option<string>) returns (r: Outcome)
      modifies this
      ensures with.None? ==> r == Fail(IllegalArgument("with == null"))
      ensures with.Some? && start.None? ==> r == Fail(IllegalArgument("start == null"))
      ensures with.Some? && start.Some? && ChatFragment(with.value, start.value).Failure? ==>
                r == Fail(ChatFragment(with.value, start.value).error)
      ensures r.Fail? ==> Snapshot() == old(Snapshot())
      ensures r.Fail? <==> old(Snapshot()).WithChat(with, start).Failure?
      ensures r.Pass? ==> with.Some? && start.Some? && ChatFragment(with.value, start.value).Success?
      ensures r.Pass? ==>
                && chatsBuffer == old(chatsBuffer) + ChatFragment(with.value, start.value).value
                && startDates == old(startDates) + [start.value]
                && count == Inc(old(count))
                && firstIndex == old(firstIndex) && firstValue == old(firstValue) && lastValue == old(lastValue)
      ensures r.Pass? ==> Snapshot() == old(Snapshot()).WithChat(with, start).value
    {
      if with.None? {
        return Fail(IllegalArgument("with == null"));
      }
      if start.None? {
        return Fail(IllegalArgument("start == null"));
      }
      var fragment := ChatFragment(with.value, start.value);
      if fragment.Failure? {
        return Fail(fragment.error);
      }
      chatsBuffer := chatsBuffer + fragment.value;
      startDates := startDates + [start.value];
      count := Inc(count);
      r := Pass;
    }

    method SetLast(last: Option<string>)
      modifies this`lastValue
      ensures lastValue == last
    {
      lastValue := last;
    }

    method SetFirst(index: i32, value: Option<string>)
      modifies this`firstIndex, this`firstValue
      ensures firstIndex == index && firstValue == value
    {
      firstIndex := index;
      firstValue := value;
    }

    /** Empties the buffer and resets the paging fields; the start dates stay. */
    method ClearBuffers()
      modifies this`chatsBuffer, this`count, this`firstIndex, this`firstValue, this`lastValue
      ensures chatsBuffer == [] && count == 0 && firstIndex == -1
      ensures firstValue == None && lastValue == None
    {
      chatsBuffer := [];
      count := 0;
      firstIndex := -1;
      firstValue, lastValue := None, None;
    }

    /** getIQChildElementBuilder: the pieces appended to the element builder. */
    method ChildElement() returns (xml: seq<Piece>)
      ensures xml == ListXml(Snapshot())
    {
      if firstIndex < 0 || firstValue.None? || lastValue.None? || count < 0 {
        xml := [RightAngle];
        return;
      }
      xml := [RightAngle, Raw(chatsBuffer)];
      ghost var head := xml;
      xml := xml + [HalfOpen("set"), Attribute("xmlns", RSM_NS), RightAngle];
      if firstIndex >= 0 && firstValue.Some? && lastValue.Some? {
        xml := xml + TextElementXml("first", [Attribute("index", Decimal(firstIndex as int))], firstValue.value);
        xml := xml + TextElementXml("last", [], lastValue.value);
        xml := xml + TextElementXml("count", [], Decimal(count as int));
      } else {
        assert false;
      }
      xml := xml + [Close("set")];
      UnqualifiedSet(head, firstIndex, firstValue.value, lastValue.value, count);
    }
  }
}
