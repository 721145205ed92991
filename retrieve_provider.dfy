/** The decoder of the `chat` (retrieved collection) response: a do-while
    loop over pull-parser events that fills a fresh transcript entity,
    dispatching on start tags named `chat`, `from`, `to`, `first`, `last`
    and `count`, until the event reached by `next()` is at the depth the
    element started at. */
module RetrieveProvider {
  import opened Base
  import opened JavaInt
  import opened Xml
  import opened RetrieveIQ

  const ELEMENT_NAME: string := "chat"
  const NAMESPACE: string := "urn:xmpp:archive"

  /** One pass of parseRetrTagAttrs' loop: the attribute named `with`,
      `start`, `subject` or `version` sets that field; any other is ignored. */
  function ApplyAttribute(t: Transcript, a: Attr): Result<Transcript> {
    if a.name == "with" then Success(t.(with := Some(a.value)))
    else if a.name == "start" then Success(t.(start := Some(a.value)))
    else if a.name == "subject" then Success(t.(subject := Some(a.value)))
    else if a.name == "version" then
      var v := ParseInt(Some(a.value));
      if v.Failure? then Failure(v.error) else Success(t.(version := v.value))
    else Success(t)
  }

  /** parseRetrTagAttrs: the attributes in order, the first failure ending the loop. */
  function ApplyAttributes(t: Transcript, attrs: seq<Attr>): Result<Transcript>
    decreases |attrs|
  {
    if attrs == [] then Success(t)
    else
      var r := ApplyAttributes(t, attrs[..|attrs| - 1]);
      if r.Failure? then r else ApplyAttribute(r.value, attrs[|attrs| - 1])
  }

  /** Once a prefix of the attributes fails, the whole loop fails the same way. */
  lemma {:induction false} ApplyAttributesFailure(t: Transcript, attrs: seq<Attr>, i: nat)
    requires i <= |attrs| && ApplyAttributes(t, attrs[..i]).Failure?
    ensures ApplyAttributes(t, attrs) == ApplyAttributes(t, attrs[..i])
    decreases |attrs| - i
  {
    if i < |attrs| {
      var longer := attrs[..i + 1];
      assert longer[..|longer| - 1] == attrs[..i];
      ApplyAttributesFailure(t, attrs, i + 1);
    } else {
      assert attrs[..i] == attrs;
    }
  }

  /** The attributes can only change `with`, `start`, `subject` and `version`. */
  lemma {:induction false} ApplyAttributesKeeps(t: Transcript, attrs: seq<Attr>)
    requires ApplyAttributes(t, attrs).Success?
    ensures var r := ApplyAttributes(t, attrs).value;
      r.(with := t.with, start := t.start, subject := t.subject, version := t.version) == t
    decreases |attrs|
  {
    if attrs != [] {
      ApplyAttributesKeeps(t, attrs[..|attrs| - 1]);
    }
  }

  /** A field whose attribute does not occur keeps its value. */
  lemma {:induction false} AttributeAbsent(t: Transcript, attrs: seq<Attr>)
    requires ApplyAttributes(t, attrs).Success?
    ensures var r := ApplyAttributes(t, attrs).value;
      && ((forall j :: 0 <= j < |attrs| ==> attrs[j].name != "with") ==> r.with == t.with)
      && ((forall j :: 0 <= j < |attrs| ==> attrs[j].name != "start") ==> r.start == t.start)
      && ((forall j :: 0 <= j < |attrs| ==> attrs[j].name != "subject") ==> r.subject == t.subject)
      && ((forall j :: 0 <= j < |attrs| ==> attrs[j].name != "version") ==> r.version == t.version)
    decreases |attrs|
  {
    if attrs != [] {
      var init := attrs[..|attrs| - 1];
      AttributeAbsent(t, init);
      assert forall j :: 0 <= j < |init| ==> init[j] == attrs[j];
    }
  }

  /** A field whose attribute occurs takes the value of its last occurrence. */
  lemma {:induction false} LaterAttributeWins(t: Transcript, attrs: seq<Attr>, i: nat)
    requires ApplyAttributes(t, attrs).Success?
    requires i < |attrs|
    requires forall j :: i < j < |attrs| ==> attrs[j].name != attrs[i].name
    ensures var r := ApplyAttributes(t, attrs).value;
      && (attrs[i].name == "with" ==> r.with == Some(attrs[i].value))
      && (attrs[i].name == "start" ==> r.start == Some(attrs[i].value))
      && (attrs[i].name == "subject" ==> r.subject == Some(attrs[i].value))
      && (attrs[i].name == "version" ==> ParseInt(Some(attrs[i].value)) == Success(r.version))
    decreases |attrs|
  {
    var init := attrs[..|attrs| - 1];
    if i < |attrs| - 1 {
      assert init[i] == attrs[i];
      assert forall j :: i < j < |init| ==> init[j] == attrs[j];
      LaterAttributeWins(t, init, i);
    }
  }

  /** What the loop body does with the current event before it calls `next()`:
      the entity after the event and where the cursor is then (nextTag and
      nextText move it). */
  function Dispatch(cur: Cursor, t: Transcript): (r: Result<(Cursor, Transcript)>)
    ensures r.Success? ==> Behind(r.value.0, cur)
  {
    var tok := cur[0];
    if !tok.StartTag? then Success((cur, t))
    else if tok.name == "chat" then
      var t' := ApplyAttributes(t, tok.attributes);
      if t'.Failure? then Failure(t'.error) else Success((cur, t'.value))
    else if tok.name == "from" || tok.name == "to" then
      var secs := ParseInt(AttributeValue(tok, 0));
      if secs.Failure? then Failure(secs.error)
      else
        var direction := if tok.name == "from" then From else To;
        var c := NextTag(cur);
        if c.Failure? then Failure(c.error)
        else
          var text := NextText(c.value);
          if text.Failure? then Failure(text.error)
          else Success((text.value.1, t.(messages := t.messages + [Message(direction, secs.value, text.value.0)])))
    else if tok.name == "first" then
      var index := ParseInt(AttributeValue(tok, 0));
      if index.Failure? then Failure(index.error)
      else
        var text := NextText(cur);
        if text.Failure? then Failure(text.error)
        else Success((text.value.1, t.(firstIndex := index.value, firstValue := Some(text.value.0))))
    else if tok.name == "last" then
      var text := NextText(cur);
      if text.Failure? then Failure(text.error)
      else Success((text.value.1, t.(lastValue := Some(text.value.0))))
    else if tok.name == "count" then
      var text := NextText(cur);
      if text.Failure? then Failure(text.error)
      else
        var count := ParseInt(Some(text.value.0));
        if count.Failure? then Failure(count.error)
        else Success((text.value.1, t.(count := count.value)))
    else Success((cur, t))
  }

  /** Only start tags named `chat`, `from`, `to`, `first`, `last` and
      `count` are acted on: any other event leaves the transcript and the
      cursor as they are. */
  lemma DispatchIgnores(cur: Cursor, t: Transcript)
    requires !cur[0].StartTag? || cur[0].name !in {"chat", "from", "to", "first", "last", "count"}
    ensures Dispatch(cur, t) == Success((cur, t))
  {
  }

  /** A number that does not parse ends the decoder with the parse error:
      `secs` of a message, the `index` of `first`, the text of `count`, and
      (through parseRetrTagAttrs) a `version` attribute of `chat`. */
  lemma DispatchFailures(cur: Cursor, t: Transcript)
    requires cur[0].StartTag?
    ensures cur[0].name in {"from", "to", "first"} && ParseInt(AttributeValue(cur[0], 0)).Failure?
            ==> Dispatch(cur, t) == Failure(ParseInt(AttributeValue(cur[0], 0)).error)
    ensures cur[0].name == "count" && NextText(cur).Success? && ParseInt(Some(NextText(cur).value.0)).Failure?
            ==> Dispatch(cur, t) == Failure(ParseInt(Some(NextText(cur).value.0)).error)
    ensures cur[0].name == "chat" && ApplyAttributes(t, cur[0].attributes).Failure?
            ==> Dispatch(cur, t) == Failure(ApplyAttributes(t, cur[0].attributes).error)
  {
  }

  /** One pass of the loop body: dispatch, then `next()`. */
  function Step(cur: Cursor, t: Transcript): (r: Result<(Cursor, Transcript)>)
    ensures r.Success? ==> |r.value.0| < |cur| && Behind(r.value.0, cur)
  {
    var d := Dispatch(cur, t);
    if d.Failure? then Failure(d.error)
    else
      var next := Next(d.value.0);
      if next.Failure? then Failure(next.error) else Success((next.value, d.value.1))
  }

  /** The loop from the event `cur[0]` on: at least one pass, and it stops at
      the first event reached by `next()` whose depth is `depth`. */
  function Run(cur: Cursor, depth: int, t: Transcript): (r: Result<(Cursor, Transcript)>)
    ensures r.Success? ==> r.value.0[0].depth == depth
    ensures r.Success? ==> |r.value.0| < |cur| && Behind(r.value.0, cur)
    decreases |cur|
  {
    var s := Step(cur, t);
    if s.Failure? || s.value.0[0].depth == depth then s
    else
      var r := Run(s.value.0, depth, s.value.1);
      if r.Failure? then r else ConsumedSplit(cur, s.value.0, r.value.0); r
  }

  /** parse(parser, depth) on a parser positioned on the `chat` start tag:
      the decoded entity and the rest of the events, the first being the one
      the loop stopped on. */
  function Decode(toks: Cursor, depth: int): Result<(Cursor, Transcript)> {
    Run(toks, depth, EMPTY_TRANSCRIPT)
  }

  /** parseRetrTagAttrs: the setters called for the attributes of `tok`, in order. */
  method ParseRetrTagAttrs(iq: ChatListRetrieveResultIQ, tok: Token) returns (r: Outcome)
    requires tok.StartTag?
    modifies iq
    ensures r.Pass? <==> ApplyAttributes(old(iq.Snapshot()), tok.attributes).Success?
    ensures r.Fail? ==> r.error == ApplyAttributes(old(iq.Snapshot()), tok.attributes).error
    ensures r.Pass? ==> iq.Snapshot() == ApplyAttributes(old(iq.Snapshot()), tok.attributes).value
  {
    ghost var t0 := iq.Snapshot();
    var attrs := tok.attributes;
    assert attrs[..0] == [];
    for i := 0 to |attrs|
      invariant ApplyAttributes(t0, attrs[..i]) == Success(iq.Snapshot())
    {
      var a := attrs[i];
      ghost var t := iq.Snapshot();
      assert attrs[..i + 1][..i] == attrs[..i];
      assert ApplyAttributes(t0, attrs[..i + 1]) == ApplyAttribute(t, a);
      if a.name == "with" {
        iq.SetWith(Some(a.value));
      } else if a.name == "start" {
        iq.SetStart(Some(a.value));
      } else if a.name == "subject" {
        iq.SetSubject(Some(a.value));
      } else if a.name == "version" {
        var v := ParseInt(Some(a.value));
        if v.Failure? {
          ApplyAttributesFailure(t0, attrs, i + 1);
          return Fail(v.error);
        }
        iq.SetVersion(v.value);
      }
      assert iq.Snapshot() == ApplyAttribute(t, a).value;
    }
    assert attrs[..|attrs|] == attrs;
    r := Pass;
  }

  /** The loop body's switch on the current event `cur[0]`: updates `iq` and
      returns how far nextTag and nextText moved the parser. */
  method HandleEvent(iq: ChatListRetrieveResultIQ, cur: Cursor) returns (r: Result<nat>)
    modifies iq
    ensures r.Success? <==> Dispatch(cur, old(iq.Snapshot())).Success?
    ensures r.Failure? ==> r.error == Dispatch(cur, old(iq.Snapshot())).error
    ensures r.Success? ==> r.value < |cur| && cur[r.value..] == Dispatch(cur, old(iq.Snapshot())).value.0
    ensures r.Success? ==> iq.Snapshot() == Dispatch(cur, old(iq.Snapshot())).value.1
  {
    var tok := cur[0];
    ghost var t := iq.Snapshot();
    if !tok.StartTag? {
      return Success(0);
    }
    if tok.name == "chat" {
      var o := ParseRetrTagAttrs(iq, tok);
      if o.Fail? {
        return Failure(o.error);
      }
      return Success(0);
    } else if tok.name == "from" || tok.name == "to" {
      var secs := ParseInt(AttributeValue(tok, 0));
      if secs.Failure? {
        return Failure(secs.error);
      }
      var direction := if tok.name == "from" then From else To;
      var c := NextTag(cur);
      if c.Failure? {
        return Failure(c.error);
      }
      var text := NextText(c.value);
      if text.Failure? {
        return Failure(text.error);
      }
      iq.AddBody(direction, secs.value, text.value.0);
      assert iq.Snapshot() == t.(messages := t.messages + [Message(direction, secs.value, text.value.0)]);
      return Success(|cur| - |text.value.1|);
    } else if tok.name == "first" {
      var index := ParseInt(AttributeValue(tok, 0));
      if index.Failure? {
        return Failure(index.error);
      }
      iq.SetFirstIndex(index.value);
      var text := NextText(cur);
      if text.Failure? {
        return Failure(text.error);
      }
      iq.SetFirstValue(Some(text.value.0));
      assert iq.Snapshot() == t.(firstIndex := index.value, firstValue := Some(text.value.0));
      return Success(|cur| - |text.value.1|);
    } else if tok.name == "last" {
      var text := NextText(cur);
      if text.Failure? {
        return Failure(text.error);
      }
      iq.SetLastValue(Some(text.value.0));
      assert iq.Snapshot() == t.(lastValue := Some(text.value.0));
      return Success(|cur| - |text.value.1|);
    } else if tok.name == "count" {
      var text := NextText(cur);
      if text.Failure? {
        return Failure(text.error);
      }
      var count := ParseInt(Some(text.value.0));
      if count.Failure? {
        return Failure(count.error);
      }
      iq.SetCount(count.value);
      assert iq.Snapshot() == t.(count := count.value);
      return Success(|cur| - |text.value.1|);
    }
    return Success(0);
  }

  /** One pass of the loop body from the event `toks[p]`: the switch, then
      next(); returns the position of the event the parser is on afterwards. */
  method StepEvent(iq: ChatListRetrieveResultIQ, toks: Cursor, p: nat) returns (r: Result<nat>)
    requires p < |toks|
    modifies iq
    ensures r.Success? <==> Step(toks[p..], old(iq.Snapshot())).Success?
    ensures r.Failure? ==> r.error == Step(toks[p..], old(iq.Snapshot())).error
    ensures r.Success? ==> p < r.value < |toks| && Step(toks[p..], old(iq.Snapshot())) == Success((toks[r.value..], iq.Snapshot()))
  {
    ghost var t := iq.Snapshot();
    var moved := HandleEvent(iq, toks[p..]);
    if moved.Failure? {
      StepAfterDispatch(toks[p..], t);
      return Failure(moved.error);
    }
    var q := p + moved.value;
    assert toks[p..][moved.value..] == toks[q..];
    StepAfterDispatch(toks[p..], t);
    var next := Next(toks[q..]);
    if next.Failure? {
      return Failure(next.error);
    }
    assert toks[q..][1..] == toks[q + 1..];
    return Success(q + 1);
  }

  /** A pass of the loop is the switch followed by next(). */
  lemma StepAfterDispatch(cur: Cursor, t: Transcript)
    ensures Dispatch(cur, t).Failure? ==> Step(cur, t) == Failure(Dispatch(cur, t).error)
    ensures Dispatch(cur, t).Success? ==>
      var (c, t1) := Dispatch(cur, t).value;
      Step(cur, t) == if |c| > 1 then Success((c[1..], t1)) else Failure(EndOfInput)
  {
  }

  /** After a pass that ends on the event `cur1[0]`, the loop either stops
      there or goes on from there. */
  lemma RunAfterStep(cur: Cursor, depth: int, t: Transcript, cur1: Cursor, t1: Transcript)
    requires Step(cur, t) == Success((cur1, t1))
    ensures Run(cur, depth, t) == if cur1[0].depth == depth then Success((cur1, t1)) else Run(cur1, depth, t1)
  {
  }

  /** Text directly inside the `chat` element (a line break between tags,
      say) is reported at the element's own depth, so the loop stops on it
      after the pass on the `chat` tag: only the header attributes are read. */
  lemma TextInsideRootStops(attrs: seq<Attr>, s: string, depth: int, rest: seq<Token>)
    requires ApplyAttributes(EMPTY_TRANSCRIPT, attrs).Success?
    ensures Decode([StartTag(ELEMENT_NAME, attrs, depth), Text(s, depth)] + rest, depth)
         == Success(([Text(s, depth)] + rest, ApplyAttributes(EMPTY_TRANSCRIPT, attrs).value))
  {
    var cur: Cursor := [StartTag(ELEMENT_NAME, attrs, depth), Text(s, depth)] + rest;
    var t1 := ApplyAttributes(EMPTY_TRANSCRIPT, attrs).value;
    assert Dispatch(cur, EMPTY_TRANSCRIPT) == Success((cur, t1));
    StepAfterDispatch(cur, EMPTY_TRANSCRIPT);
    assert cur[1..] == [Text(s, depth)] + rest;
    RunAfterStep(cur, depth, EMPTY_TRANSCRIPT, cur[1..], t1);
  }

  /** parse(parser, depth): a fresh entity filled by the loop, and the
      position of the event the parser is on when the loop ends. */
  method Parse(toks: Cursor, depth: int) returns (r: Result<(ChatListRetrieveResultIQ, nat)>)
    ensures r.Success? <==> Decode(toks, depth).Success?
    ensures r.Failure? ==> r.error == Decode(toks, depth).error
    ensures r.Success? ==> fresh(r.value.0) && r.value.1 < |toks|
    ensures r.Success? ==> r.value.0.Snapshot() == Decode(toks, depth).value.1
    ensures r.Success? ==> toks[r.value.1..] == Decode(toks, depth).value.0
  {
    var iq := new ChatListRetrieveResultIQ();
    var p: nat := 0;
    assert toks[p..] == toks;
    while true
      invariant p < |toks| && fresh(iq)
      invariant Decode(toks, depth) == Run(toks[p..], depth, iq.Snapshot())
      decreases |toks| - p
    {
      ghost var t := iq.Snapshot();
      var next := StepEvent(iq, toks, p);
      if next.Failure? {
        return Failure(next.error);
      }
      RunAfterStep(toks[p..], depth, t, toks[next.value..], iq.Snapshot());
      p := next.value;
      if toks[p].depth == depth {
        return Success((iq, p));
      }
    }
  }
}
