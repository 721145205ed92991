/** The decoder of the `list` response: a do-while loop over pull-parser
    events that fills a fresh list entity, dispatching on start tags named
    `chat`, `first` and `last`, until the event reached by `next()` is at
    the depth the element started at. */
module ListProvider {
  import opened Base
  import opened JavaInt
  import opened Xml
  import opened ListIQ

  const ELEMENT_NAME: string := "list"
  const NAMESPACE: string := "urn:xmpp:archive"

  /** What the loop body does with the current event before it calls `next()`:
      the entity after the event and where the cursor is then (nextText moves it). */
  function Dispatch(cur: Cursor, l: ChatList): (r: Result<(Cursor, ChatList)>)
    ensures r.Success? ==> Behind(r.value.0, cur)
    ensures r.Success? ==> forall i :: 1 <= i < |cur| - |r.value.0| ==> !cur[i].StartTag?
  {
    var tok := cur[0];
    if !tok.StartTag? then Success((cur, l))
    else if tok.name == "chat" then
      var l' := l.WithChat(AttributeValue(tok, 0), AttributeValue(tok, 1));
      if l'.Failure? then Failure(l'.error) else Success((cur, l'.value))
    else if tok.name == "first" then
      var index := ParseInt(AttributeValue(tok, 0));
      if index.Failure? then Failure(index.error)
      else
        var text := NextText(cur);
        if text.Failure? then Failure(text.error)
        else Success((text.value.1, l.(firstIndex := index.value, firstValue := Some(text.value.0))))
    else if tok.name == "last" then
      var text := NextText(cur);
      if text.Failure? then Failure(text.error)
      else Success((text.value.1, l.(lastValue := Some(text.value.0))))
    else Success((cur, l))
  }

  /** Only `chat`, `first` and `last` start tags are acted on: any other
      event, `set` and `count` included, leaves the list and the cursor as they are. */
  lemma DispatchIgnores(cur: Cursor, l: ChatList)
    requires !cur[0].StartTag? || cur[0].name !in {"chat", "first", "last"}
    ensures Dispatch(cur, l) == Success((cur, l))
  {
  }

  /** A `chat` tag without two positional attributes fails in appendChat, and
      a `first` tag whose `index` is not a number fails with the parse error. */
  lemma DispatchFailures(cur: Cursor, l: ChatList)
    requires cur[0].StartTag?
    ensures cur[0].name == "chat" && |cur[0].attributes| < 2 ==> Dispatch(cur, l) == Failure(IllegalArgument(
              if |cur[0].attributes| == 0 then "with == null" else "start == null"))
    ensures cur[0].name == "first" && ParseInt(AttributeValue(cur[0], 0)).Failure?
            ==> Dispatch(cur, l) == Failure(ParseInt(AttributeValue(cur[0], 0)).error)
  {
  }

  /** One pass of the loop body: dispatch, then `next()`. */
  function Step(cur: Cursor, l: ChatList): (r: Result<(Cursor, ChatList)>)
    ensures r.Success? ==> |r.value.0| < |cur| && Behind(r.value.0, cur)
  {
    var d := Dispatch(cur, l);
    if d.Failure? then Failure(d.error)
    else
      var next := Next(d.value.0);
      if next.Failure? then Failure(next.error) else Success((next.value, d.value.1))
  }

  /** The loop from the event `cur[0]` on: at least one pass, and it stops at
      the first event reached by `next()` whose depth is `depth`. */
  function Run(cur: Cursor, depth: int, l: ChatList): (r: Result<(Cursor, ChatList)>)
    ensures r.Success? ==> r.value.0[0].depth == depth
    ensures r.Success? ==> |r.value.0| < |cur| && Behind(r.value.0, cur)
    decreases |cur|
  {
    var s := Step(cur, l);
    if s.Failure? || s.value.0[0].depth == depth then s
    else
      var r := Run(s.value.0, depth, s.value.1);
      if r.Failure? then r else ConsumedSplit(cur, s.value.0, r.value.0); r
  }

  /** parse(parser, depth) on a parser positioned on the `list` start tag:
      the decoded entity and the rest of the events, the first being the one
      the loop stopped on. */
  function Decode(toks: Cursor, depth: int): Result<(Cursor, ChatList)> {
    Run(toks, depth, EMPTY_LIST)
  }

  /** The loop body's switch on the current event `cur[0]`: updates `iq` and
      returns how far nextText moved the parser. */
  method HandleEvent(iq: ChatListResponceIQ, cur: Cursor) returns (r: Result<nat>)
    modifies iq
    ensures r.Success? <==> Dispatch(cur, old(iq.Snapshot())).Success?
    ensures r.Failure? ==> r.error == Dispatch(cur, old(iq.Snapshot())).error
    ensures r.Success? ==> r.value < |cur| && cur[r.value..] == Dispatch(cur, old(iq.Snapshot())).value.0
    ensures r.Success? ==> iq.Snapshot() == Dispatch(cur, old(iq.Snapshot())).value.1
  {
    var tok := cur[0];
    ghost var l := iq.Snapshot();
    if tok.StartTag? && tok.name == "chat" {
      var o := iq.AppendChat(AttributeValue(tok, 0), AttributeValue(tok, 1));
      assert o.Fail? ==> Dispatch(cur, l) == Failure(o.error);
      if o.Fail? {
        return Failure(o.error);
      }
      assert Dispatch(cur, l) == Success((cur, iq.Snapshot()));
      return Success(0);
    } else if tok.StartTag? && tok.name == "first" {
      var index := ParseInt(AttributeValue(tok, 0));
      if index.Failure? {
        assert Dispatch(cur, l) == Failure(index.error);
        return Failure(index.error);
      }
      var text := NextText(cur);
      if text.Failure? {
        return Failure(text.error);
      }
      iq.SetFirst(index.value, Some(text.value.0));
      assert iq.Snapshot() == l.(firstIndex := index.value, firstValue := Some(text.value.0));
      return Success(|cur| - |text.value.1|);
    } else if tok.StartTag? && tok.name == "last" {
      var text := NextText(cur);
      if text.Failure? {
        return Failure(text.error);
      }
      iq.SetLast(Some(text.value.0));
      assert iq.Snapshot() == l.(lastValue := Some(text.value.0));
      return Success(|cur| - |text.value.1|);
    }
    return Success(0);
  }

  /** One pass of the loop body from the event `toks[p]`: the switch, then
      next(); returns the position of the event the parser is on afterwards. */
  method StepEvent(iq: ChatListResponceIQ, toks: Cursor, p: nat) returns (r: Result<nat>)
    requires p < |toks|
    modifies iq
    ensures r.Success? <==> Step(toks[p..], old(iq.Snapshot())).Success?
    ensures r.Failure? ==> r.error == Step(toks[p..], old(iq.Snapshot())).error
    ensures r.Success? ==> p < r.value < |toks| && Step(toks[p..], old(iq.Snapshot())) == Success((toks[r.value..], iq.Snapshot()))
  {
    ghost var l := iq.Snapshot();
    var moved := HandleEvent(iq, toks[p..]);
    if moved.Failure? {
      StepAfterDispatch(toks[p..], l);
      return Failure(moved.error);
    }
    var q := p + moved.value;
    assert toks[p..][moved.value..] == toks[q..];
    StepAfterDispatch(toks[p..], l);
    var next := Next(toks[q..]);
    if next.Failure? {
      return Failure(next.error);
    }
    assert toks[q..][1..] == toks[q + 1..];
    return Success(q + 1);
  }

  /** A pass of the loop is the switch followed by next(). */
  lemma StepAfterDispatch(cur: Cursor, l: ChatList)
    ensures Dispatch(cur, l).Failure? ==> Step(cur, l) == Failure(Dispatch(cur, l).error)
    ensures Dispatch(cur, l).Success? ==>
      var (c, l1) := Dispatch(cur, l).value;
      Step(cur, l) == if |c| > 1 then Success((c[1..], l1)) else Failure(EndOfInput)
  {
  }

  /** After a pass that ends on the event `cur1[0]`, the loop either stops
      there or goes on from there. */
  lemma RunAfterStep(cur: Cursor, depth: int, l: ChatList, cur1: Cursor, l1: ChatList)
    requires Step(cur, l) == Success((cur1, l1))
    ensures Run(cur, depth, l) == if cur1[0].depth == depth then Success((cur1, l1)) else Run(cur1, depth, l1)
  {
  }

  /** Text directly inside the `list` element (a line break between tags,
      say) is reported at the element's own depth, so the loop stops on it
      after the first pass, before reading any `chat` tag. */
  lemma TextInsideRootStops(attrs: seq<Attr>, s: string, depth: int, rest: seq<Token>)
    ensures Decode([StartTag(ELEMENT_NAME, attrs, depth), Text(s, depth)] + rest, depth)
         == Success(([Text(s, depth)] + rest, EMPTY_LIST))
  {
    var cur: Cursor := [StartTag(ELEMENT_NAME, attrs, depth), Text(s, depth)] + rest;
    DispatchIgnores(cur, EMPTY_LIST);
    StepAfterDispatch(cur, EMPTY_LIST);
    assert cur[1..] == [Text(s, depth)] + rest;
    RunAfterStep(cur, depth, EMPTY_LIST, cur[1..], EMPTY_LIST);
  }

  /** The pass on a `first` element reads its `index` attribute and its text
      into the paging fields, changes nothing else, and moves past its end tag. */
  lemma StepFirst(index: i32, s: string, k: int, tail: Cursor, l: ChatList)
    ensures Step(TextElement("first", [Attr("index", Decimal(index as int))], s, k) + tail, l)
         == Success((tail, l.(firstIndex := index, firstValue := Some(s))))
  {
    ParseDecimal(index);
    assert (TextElement("first", [Attr("index", Decimal(index as int))], s, k) + tail)[0]
        == StartTag("first", [Attr("index", Decimal(index as int))], k);
    NextTextOfElement("first", [Attr("index", Decimal(index as int))], s, k, tail);
    assert ([EndTag("first", k)] + tail)[1..] == tail;
  }

  /** The pass on a `last` element reads its text into `lastValue` alone and
      moves past its end tag. */
  lemma StepLast(s: string, k: int, tail: Cursor, l: ChatList)
    ensures Step(TextElement("last", [], s, k) + tail, l) == Success((tail, l.(lastValue := Some(s))))
  {
    assert (TextElement("last", [], s, k) + tail)[0] == StartTag("last", [], k);
    NextTextOfElement("last", [], s, k, tail);
    assert ([EndTag("last", k)] + tail)[1..] == tail;
  }

  method Parse(toks: Cursor, depth: int) returns (r: Result<(ChatListResponceIQ, nat)>)
    ensures r.Success? <==> Decode(toks, depth).Success?
    ensures r.Failure? ==> r.error == Decode(toks, depth).error
    ensures r.Success? ==> fresh(r.value.0) && r.value.1 < |toks|
    ensures r.Success? ==> r.value.0.Snapshot() == Decode(toks, depth).value.1
    ensures r.Success? ==> toks[r.value.1..] == Decode(toks, depth).value.0
  {
    var iq := new ChatListResponceIQ();
    var p: nat := 0;
    assert toks[p..] == toks;
    while true
      invariant p < |toks| && fresh(iq)
      invariant Decode(toks, depth) == Run(toks[p..], depth, iq.Snapshot())
      decreases |toks| - p
    {
      ghost var l := iq.Snapshot();
      var next := StepEvent(iq, toks, p);
      if next.Failure? {
        return Failure(next.error);
      }
      RunAfterStep(toks[p..], depth, l, toks[next.value..], iq.Snapshot());
      p := next.value;
      if toks[p].depth == depth {
        return Success((iq, p));
      }
    }
  }

  /** The start tags named `chat` among `toks`, in document order. */
  function ChatTags(toks: seq<Token>): (r: seq<Token>)
    ensures forall i :: 0 <= i < |r| ==> r[i].StartTag? && r[i].name == "chat"
    ensures |r| <= |toks|
    decreases |toks|
  {
    if toks == [] then []
    else (if toks[0].StartTag? && toks[0].name == "chat" then [toks[0]] else []) + ChatTags(toks[1..])
  }

  lemma {:induction false} ChatTagsAppend(a: seq<Token>, b: seq<Token>)
    ensures ChatTags(a + b) == ChatTags(a) + ChatTags(b)
    decreases |a|
  {
    if a == [] {
      assert a + b == b;
    } else {
      assert (a + b)[1..] == a[1..] + b;
      ChatTagsAppend(a[1..], b);
    }
  }

  lemma {:induction false} NoChatTags(s: seq<Token>)
    requires forall i :: 0 <= i < |s| ==> !s[i].StartTag?
    ensures ChatTags(s) == []
    decreases |s|
  {
    if s != [] {
      NoChatTags(s[1..]);
    }
  }

  /** appendChat on each tag in turn, with its first two attributes as `with` and `start`. */
  function AppendAll(l: ChatList, tags: seq<Token>): Result<ChatList>
    requires forall i :: 0 <= i < |tags| ==> tags[i].StartTag?
    decreases |tags|
  {
    if tags == [] then Success(l)
    else
      var l' := l.WithChat(AttributeValue(tags[0], 0), AttributeValue(tags[0], 1));
      if l'.Failure? then l' else AppendAll(l'.value, tags[1..])
  }

  /** `l` with the paging fields (`first` index and value, `last`) of `p`. */
  function WithPaging(l: ChatList, p: ChatList): ChatList {
    l.(firstIndex := p.firstIndex, firstValue := p.firstValue, lastValue := p.lastValue)
  }

  lemma {:induction false} AppendAllAppend(l: ChatList, a: seq<Token>, b: seq<Token>)
    requires forall i :: 0 <= i < |a| ==> a[i].StartTag?
    requires forall i :: 0 <= i < |b| ==> b[i].StartTag?
    ensures AppendAll(l, a + b) == if AppendAll(l, a).Failure? then AppendAll(l, a) else AppendAll(AppendAll(l, a).value, b)
    decreases |a|
  {
    if a == [] {
      assert a + b == b;
    } else {
      assert (a + b)[1..] == a[1..] + b;
      match l.WithChat(AttributeValue(a[0], 0), AttributeValue(a[0], 1))
      case Failure(e) =>
      case Success(l') => AppendAllAppend(l', a[1..], b);
    }
  }

  /** appendChat never reads or writes the paging fields. */
  lemma {:induction false} AppendAllWithPaging(l: ChatList, p: ChatList, tags: seq<Token>)
    requires forall i :: 0 <= i < |tags| ==> tags[i].StartTag?
    ensures AppendAll(WithPaging(l, p), tags).Success? <==> AppendAll(l, tags).Success?
    ensures AppendAll(l, tags).Success? ==> AppendAll(WithPaging(l, p), tags).value == WithPaging(AppendAll(l, tags).value, p)
    ensures AppendAll(l, tags).Failure? ==> AppendAll(WithPaging(l, p), tags) == AppendAll(l, tags)
    decreases |tags|
  {
    if tags != [] {
      var w, s := AttributeValue(tags[0], 0), AttributeValue(tags[0], 1);
      match l.WithChat(w, s)
      case Failure(e) =>
      case Success(l') =>
        assert WithPaging(l, p).WithChat(w, s) == Success(WithPaging(l', p));
        AppendAllWithPaging(l', p, tags[1..]);
    }
  }

  /** The second attribute of each tag, in order. */
  function SecondAttributes(tags: seq<Token>): (r: seq<string>)
    requires forall i :: 0 <= i < |tags| ==> tags[i].StartTag? && |tags[i].attributes| >= 2
    ensures |r| == |tags|
    ensures forall k :: 0 <= k < |tags| ==> r[k] == tags[k].attributes[1].value
    decreases |tags|
  {
    if tags == [] then [] else [tags[0].attributes[1].value] + SecondAttributes(tags[1..])
  }

  lemma AttributesFromTail(tags: seq<Token>)
    requires forall i :: 0 <= i < |tags| ==> tags[i].StartTag?
    requires tags != [] && |tags[0].attributes| >= 2
    requires forall i :: 0 <= i < |tags[1..]| ==> |tags[1..][i].attributes| >= 2
    ensures forall i :: 0 <= i < |tags| ==> |tags[i].attributes| >= 2
  {
    forall i | 1 <= i < |tags|
      ensures |tags[i].attributes| >= 2
    {
      assert tags[i] == tags[1..][i - 1];
    }
  }

  /** Appending the chat tags succeeds only if each has a second attribute (`start`). */
  lemma {:induction false} AppendAllAttributes(l: ChatList, tags: seq<Token>)
    requires forall i :: 0 <= i < |tags| ==> tags[i].StartTag?
    requires AppendAll(l, tags).Success?
    ensures forall i :: 0 <= i < |tags| ==> |tags[i].attributes| >= 2
    decreases |tags|
  {
    if tags != [] {
      var l' := l.WithChat(AttributeValue(tags[0], 0), AttributeValue(tags[0], 1));
      AppendAllAttributes(l'.value, tags[1..]);
      AttributesFromTail(tags);
    }
  }

  /** Appending the chat tags increments the count once per tag (as a Java int). */
  lemma {:induction false} AppendAllCount(l: ChatList, tags: seq<Token>)
    requires forall i :: 0 <= i < |tags| ==> tags[i].StartTag?
    requires AppendAll(l, tags).Success?
    ensures AppendAll(l, tags).value.count == IncN(l.count, |tags|)
    decreases |tags|
  {
    if tags != [] {
      var step := l.WithChat(AttributeValue(tags[0], 0), AttributeValue(tags[0], 1));
      assert step.Success?;
      var l' := step.value;
      assert l'.count == Inc(l.count);
      assert AppendAll(l, tags) == AppendAll(l', tags[1..]);
      AppendAllCount(l', tags[1..]);
      assert IncN(l.count, |tags|) == IncN(Inc(l.count), |tags| - 1);
    }
  }

  lemma SnocThenAppend<T>(a: seq<T>, x: T, b: seq<T>)
    ensures (a + [x]) + b == a + ([x] + b)
  {
  }

  /** Appending the chat tags adds their second attributes to the start dates, in order. */
  lemma {:induction false} AppendAllStartDates(l: ChatList, tags: seq<Token>)
    requires forall i :: 0 <= i < |tags| ==> tags[i].StartTag? && |tags[i].attributes| >= 2
    requires AppendAll(l, tags).Success?
    ensures AppendAll(l, tags).value.startDates == l.startDates + SecondAttributes(tags)
    decreases |tags|
  {
    if tags == [] {
      assert l.startDates + [] == l.startDates;
    } else {
      var l' := l.WithChat(AttributeValue(tags[0], 0), AttributeValue(tags[0], 1)).value;
      AppendAllStartDates(l', tags[1..]);
      SnocThenAppend(l.startDates, tags[0].attributes[1].value, SecondAttributes(tags[1..]));
    }
  }

  /** One pass of the loop appends the chat tag it is on, if it is on one,
      and changes nothing else but the paging fields. */
  lemma StepChats(cur: Cursor, l: ChatList)
    requires Step(cur, l).Success?
    ensures var (c, l1) := Step(cur, l).value;
      AppendAll(l, ChatTags(cur[..|cur| - |c|])) == Success(WithPaging(l1, l))
  {
    var (c, l1) := Step(cur, l).value;
    var consumed := cur[..|cur| - |c|];
    assert consumed == [cur[0]] + consumed[1..];
    NoChatTags(consumed[1..]);
    ChatTagsAppend([cur[0]], consumed[1..]);
    assert ChatTags([cur[0]]) == (if cur[0].StartTag? && cur[0].name == "chat" then [cur[0]] else []) + ChatTags([]);
  }

  /** The chat fields after the loop: appendChat for each `chat` start tag
      it passed, in document order. */
  lemma {:induction false} RunChats(cur: Cursor, depth: int, l: ChatList, rest: Cursor, l': ChatList)
    requires Run(cur, depth, l) == Success((rest, l'))
    ensures AppendAll(l, ChatTags(cur[..|cur| - |rest|])) == Success(WithPaging(l', l))
    decreases |cur|
  {
    var c, l1 := Step(cur, l).value.0, Step(cur, l).value.1;
    StepChats(cur, l);
    if c[0].depth != depth {
      RunChats(c, depth, l1, rest, l');
      var a, b := cur[..|cur| - |c|], c[..|c| - |rest|];
      ConsumedSplit(cur, c, rest);
      ChatTagsAppend(a, b);
      AppendAllAppend(l, ChatTags(a), ChatTags(b));
      AppendAllWithPaging(l1, l, ChatTags(b));
      assert WithPaging(WithPaging(l', l1), l) == WithPaging(l', l);
    }
  }

  /** What a successful decode holds in its chat fields: exactly what appendChat
      gives for each `chat` start tag the loop passed, in document order. In
      particular `count` is the number of those tags (as a Java int) — no `count`
      element is read — and the start dates are their second attributes. */
  lemma DecodedChats(toks: Cursor, depth: int, rest: Cursor, l: ChatList)
    requires Decode(toks, depth) == Success((rest, l))
    ensures var tags := ChatTags(toks[..|toks| - |rest|]);
      && AppendAll(EMPTY_LIST, tags) == Success(WithPaging(l, EMPTY_LIST))
      && (forall i :: 0 <= i < |tags| ==> |tags[i].attributes| >= 2)
      && l.count == Wrap(|tags|)
      && l.startDates == SecondAttributes(tags)
  {
    var tags := ChatTags(toks[..|toks| - |rest|]);
    RunChats(toks, depth, EMPTY_LIST, rest, l);
    AppendAllAttributes(EMPTY_LIST, tags);
    AppendAllCount(EMPTY_LIST, tags);
    AppendAllStartDates(EMPTY_LIST, tags);
    CountFromZero(|tags|);
  }
}
