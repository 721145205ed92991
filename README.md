# XEP-0136 archive responses: entities, encoders and pull-parser decoders

This project models the message-archive response layer of XMPP-extensions (XEP-0136,
with XEP-0059 result-set paging). The layer has two IQ payloads:

- **Chat list** (`<list xmlns='urn:xmpp:archive'>`). `ChatListResponceIQ` builds it with
  `appendChat(with, start)`. That call renders a `<chat .../>` tag from a template, using
  `String.replaceFirst` twice. It records the start date and increments a Java `int`
  counter. `setFirst`, `setLast` and `clearBuffers` set or reset the paging fields.
  `getIQChildElementBuilder` writes the chats and an RSM `set` block, or only `>` when
  the paging fields are incomplete. `ChatListResponceIQProvider.parse` rebuilds the
  entity from pull-parser events.
- **Transcript** (`<chat xmlns='urn:xmpp:archive' with=.. start=..>`).
  `ChatListRetrieveResultIQ` holds:
  - the header attributes (`with`, `start`, `subject`, `version`);
  - the messages (`from`/`to` elements, each with `secs` and a `body`);
  - the paging fields.

  Its encoder throws when `with` or `start` is missing. It closes the element empty when
  the paging fields are incomplete, and otherwise writes the messages and a qualified
  `set` block. `ChatListRetrieveIQProvider.parse` and `parseRetrTagAttrs` decode it.

Modules, one file each:

| module | file | what it holds |
|---|---|---|
| `Base` | base.dfy | `Option`, `Result`, `Outcome` and the Java exceptions as `Error` values |
| `JavaInt` | java_int.dfy | `i32` with `x++` wrap-around, `String.valueOf(int)` as `Decimal`, `Integer.valueOf` as `ParseInt` |
| `Xml` | xml.dfy | builder calls as `Piece`s, the pull-parser events they give as `Token`s, and `next`, `nextTag`, `nextText` and `getAttributeValue` on a cursor |
| `Rsm` | rsm.dfy | the RSM `set` block both encoders write |
| `ListIQ` | list_iq.dfy | the chat-list entity (`class ChatListResponceIQ`, with the value `ChatList`), the `replaceFirst` template, and the encoder |
| `ListProvider` | list_provider.dfy | the chat-list decoder, as a spec function and as the imperative loop |
| `RetrieveIQ` | retrieve_iq.dfy | the transcript entity (`class ChatListRetrieveResultIQ`, with the value `Transcript`) and the encoder |
| `RetrieveProvider` | retrieve_provider.dfy | the transcript decoder and `parseRetrTagAttrs` |
| `TranscriptRoundTrip` | transcript_round_trip.dfy | encoding, then parsing, then decoding gives the transcript back |

How the model is put together:

- **Entities and encoders.** Each entity is a class whose methods update its fields
  in place, and `Snapshot()` reads it as a datatype value. Each encoder is a method
  that builds the list of builder calls; its `ensures` ties that list to a function of
  the snapshot (`ListXml`, `TranscriptXml`).
- **Decoders.** Each decoder is a `Parse` method with the source's `do … while` loop.
  The loop invariant is that the spec function `Decode` equals `Run` over the events
  that remain.
- **Properties.** The properties are proved about those functions:
  - `count` tracks the number of start dates;
  - the decoded chats are exactly the `chat` tags, in order;
  - `subject` and `version` are written exactly when they are set and positive;
  - later attributes overwrite earlier ones;
  - for every transcript the encoder accepts whose strings a parser reports as written
    (no markup in the text the encoder appends unescaped), the decoder reading what it
    wrote returns the transcript, with a non-positive version read back as 0 and the
    messages and paging dropped when the element is closed empty. This assumes the
    `chat` wrapper `ChildXml` described under "Left out".

Facts about the code that the model follows:

- **The list encoder's fallback is unreachable.** Its fallback branch writes a `set`
  holding only `count` (ChatListResponceIQ.java:165-173). That branch cannot run: the
  guard at lines 135-140 already returns whenever a paging field is missing.
  `ChildElement` asserts the branch dead.
- **A decoded list's `count` is the number of chats.** The decoder never reads
  `<count>`, but `appendChat` increments `count` once per `chat` tag
  (`DecodedChats`). A decoded list therefore has `count` equal to its number of
  chats, not unset.
- **The list's paging children are unqualified.** In the list's `set` block only `set`
  carries the RSM namespace; `first`, `last` and `count` are unqualified. In the
  transcript's block every child is qualified. `RsmSet` takes this as a parameter.
- **`clearBuffers` leaves the start dates.** It resets `count` to 0 but keeps the
  start dates (ChatListResponceIQ.java:96-101). The invariant
  `count == |startDates|` (`WithChatCounts`) therefore holds from construction through
  `appendChat` calls, but not after `clearBuffers`.

## Model

| member | source | states |
|---|---|---|
| JavaInt.IncIsWrap | src/main/java/xmpp/extensions/com/ua/max/oliynick/iq/ChatListResponceIQ.java:84 | `count++` on a Java int is the increment taken modulo 2^32 (MAX wraps to MIN) |
| JavaInt.IncNIsWrap | src/main/java/xmpp/extensions/com/ua/max/oliynick/iq/ChatListResponceIQ.java:84 | n increments add n modulo 2^32 |
| JavaInt.CountFromZero | src/main/java/xmpp/extensions/com/ua/max/oliynick/iq/ChatListResponceIQ.java:50 | counting up from the default 0, n times, gives n as a Java int |
| JavaInt.Wrap | src/main/java/xmpp/extensions/com/ua/max/oliynick/iq/ChatListResponceIQ.java:84 | the Java int congruent to n modulo 2^32, and n itself when n is in range |
| JavaInt.Decimal | src/main/java/xmpp/extensions/com/ua/max/oliynick/iq/ChatListResponceIQ.java:162 | `String.valueOf(int)`: non-empty, never a leading `+`, a leading `-` exactly for negatives |
| JavaInt.NatDecimal | src/main/java/xmpp/extensions/com/ua/max/oliynick/iq/ChatListRetrieveResultIQ.java:281 | digits only, no leading zero unless the number is 0 |
| JavaInt.ParseInt | src/main/java/xmpp/extensions/com/ua/max/oliynick/provider/ChatListRetrieveIQProvider.java:70 | `Integer.valueOf` on ASCII input: any failure is NumberFormatException; success needs an optional sign followed by ASCII digits only; an unsigned digit string within range parses to its value |
| JavaInt.DigitsValueOfDecimal | src/main/java/xmpp/extensions/com/ua/max/oliynick/provider/ChatListRetrieveIQProvider.java:70 | reading back the digits of n gives n |
| JavaInt.ParseDecimal | src/main/java/xmpp/extensions/com/ua/max/oliynick/provider/ChatListRetrieveIQProvider.java:70 | `Integer.valueOf(String.valueOf(x)) == x` for every Java int x, negatives and MIN included |
| Xml.AttributeValue | src/main/java/xmpp/extensions/com/ua/max/oliynick/provider/ChatListResponceIQProvider.java:42 | `getAttributeValue(i)` is the i-th attribute's value, null exactly when i is past the last |
| Xml.Next | src/main/java/xmpp/extensions/com/ua/max/oliynick/provider/ChatListResponceIQProvider.java:56 | `next()` moves one event on, and fails at the end of input |
| Xml.NextTag | src/main/java/xmpp/extensions/com/ua/max/oliynick/provider/ChatListRetrieveIQProvider.java:59 | `nextTag()` lands on a start or end tag, skipping only whitespace text |
| Xml.NextText | src/main/java/xmpp/extensions/com/ua/max/oliynick/provider/ChatListRetrieveIQProvider.java:64 | `nextText()` needs a start tag, returns the only text before the end tag (empty if none) and stops on that end tag |
| Xml.ConsumedSplit | src/main/java/xmpp/extensions/com/ua/max/oliynick/provider/ChatListResponceIQProvider.java:34-58 | what the loop consumed in two stretches is the concatenation of the two |
| Xml.EmitAppend | src/main/java/xmpp/extensions/com/ua/max/oliynick/iq/ChatListRetrieveResultIQ.java:247-283 | the events of consecutive builder calls are the events of each in turn |
| Xml.ReportedAttributesAppend | src/main/java/xmpp/extensions/com/ua/max/oliynick/iq/ChatListRetrieveResultIQ.java:228-237 | the attributes a parser reports for consecutive attribute calls are those of each run, `xmlns` declarations dropped |
| Xml.EmitAttributes | src/main/java/xmpp/extensions/com/ua/max/oliynick/iq/ChatListRetrieveResultIQ.java:228-237 | attribute calls on a pending start tag report nothing yet and add the non-`xmlns` attributes to the tag |
| Xml.EmitOpen | src/main/java/xmpp/extensions/com/ua/max/oliynick/iq/ChatListRetrieveResultIQ.java:264-266 | halfOpenElement, attributes, rightAngleBracket: one start tag one level deeper |
| Xml.EmitEmpty | src/main/java/xmpp/extensions/com/ua/max/oliynick/iq/ChatListRetrieveResultIQ.java:243 | `closeEmptyElement()` is reported as a start tag followed by its end tag at the same depth |
| Xml.EmitTextElement | src/main/java/xmpp/extensions/com/ua/max/oliynick/iq/ChatListRetrieveResultIQ.java:274-277 | an element written as open, text, close is reported as start tag, one text event (none if empty), end tag |
| Xml.NextTextOfElement | src/main/java/xmpp/extensions/com/ua/max/oliynick/provider/ChatListRetrieveIQProvider.java:67 | `nextText()` on such an element returns exactly the written text and stops on its end tag |
| Xml.TextElementKeys | src/main/java/xmpp/extensions/com/ua/max/oliynick/iq/ChatListRetrieveResultIQ.java:274-277 | a text element carries exactly the attributes given to it |
| Rsm.RsmSet | src/main/java/xmpp/extensions/com/ua/max/oliynick/iq/ChatListRetrieveResultIQ.java:264-283 | the `set` block opens with `set` and ends by closing `set` |
| Rsm.RsmSetKeys | src/main/java/xmpp/extensions/com/ua/max/oliynick/iq/ChatListRetrieveResultIQ.java:264-283 | the block's attribute keys, in order: the RSM namespace on `set`, `index` on `first`, and a namespace on each child only in the qualified form |
| ListIQ.ExpandLiteral | src/main/java/xmpp/extensions/com/ua/max/oliynick/iq/ChatListResponceIQ.java:81 | a replacement string without `$` or `\` is substituted literally |
| ListIQ.IndexOfFirst | src/main/java/xmpp/extensions/com/ua/max/oliynick/iq/ChatListResponceIQ.java:29 | the pattern `\?` first matches at the first `?` |
| ListIQ.ReplaceFirstMark | src/main/java/xmpp/extensions/com/ua/max/oliynick/iq/ChatListResponceIQ.java:81 | `replaceFirst("\\?", rep)` leaves a string without `?` unchanged |
| ListIQ.TemplateParts | src/main/java/xmpp/extensions/com/ua/max/oliynick/iq/ChatListResponceIQ.java:25 | the `chat` template has exactly two `?` placeholders, at the `with` and `start` values |
| ListIQ.ReplaceAt | src/main/java/xmpp/extensions/com/ua/max/oliynick/iq/ChatListResponceIQ.java:81 | replacing the first `?` by a plain string splices it in at that position |
| ListIQ.FirstSubstitution | src/main/java/xmpp/extensions/com/ua/max/oliynick/iq/ChatListResponceIQ.java:81 | the first `replaceFirst` puts a plain `with` into the `with` placeholder |
| ListIQ.FragmentPlain | src/main/java/xmpp/extensions/com/ua/max/oliynick/iq/ChatListResponceIQ.java:81 | with plain arguments and no `?` in `with`, appendChat appends `<chat xmlns='urn:xmpp:archive' with='W' start='S'/>` |
| ListIQ.FragmentMarkInWith | src/main/java/xmpp/extensions/com/ua/max/oliynick/iq/ChatListResponceIQ.java:81 | a `?` in `with` captures the second substitution: `start` lands inside `with` and the `start` placeholder stays `?` |
| ListIQ.FragmentRejectsWith | src/main/java/xmpp/extensions/com/ua/max/oliynick/iq/ChatListResponceIQ.java:81 | a `with` that is an invalid replacement string (lone `\`, `$` not followed by `0`) makes appendChat throw that error |
| ListIQ.WithChatCounts | src/main/java/xmpp/extensions/com/ua/max/oliynick/iq/ChatListResponceIQ.java:83-84 | a successful appendChat keeps `count` equal to the number of start dates as a Java int |
| ListIQ.ListXml | src/main/java/xmpp/extensions/com/ua/max/oliynick/iq/ChatListResponceIQ.java:133-178 | the encoding starts with `>`, and is only `>` exactly when a paging field is missing or `count` is negative |
| ListIQ.UnqualifiedSet | src/main/java/xmpp/extensions/com/ua/max/oliynick/iq/ChatListResponceIQ.java:144-175 | the populated layout's `set`, `first`, `last`, `count` calls are the RSM block with unqualified children |
| ListIQ.ChatListResponceIQ.constructor | src/main/java/xmpp/extensions/com/ua/max/oliynick/iq/ChatListResponceIQ.java:60-66 | empty buffer and dates, `firstIndex` -1, no first or last value, `count` 0 |
| ListIQ.ChatListResponceIQ.AppendChat | src/main/java/xmpp/extensions/com/ua/max/oliynick/iq/ChatListResponceIQ.java:73-85 | null `with` or `start` throws IllegalArgument with the source's messages, and an invalid replacement throws; on failure nothing changes; on success the fragment is appended, `start` is added to the dates, `count` is incremented with wrap-around, and the paging fields are untouched |
| ListIQ.ChatListResponceIQ.SetLast | src/main/java/xmpp/extensions/com/ua/max/oliynick/iq/ChatListResponceIQ.java:87-89 | sets `lastValue` and nothing else |
| ListIQ.ChatListResponceIQ.SetFirst | src/main/java/xmpp/extensions/com/ua/max/oliynick/iq/ChatListResponceIQ.java:91-94 | sets `firstIndex` and `firstValue` and nothing else |
| ListIQ.ChatListResponceIQ.ClearBuffers | src/main/java/xmpp/extensions/com/ua/max/oliynick/iq/ChatListResponceIQ.java:96-101 | empties the buffer, sets `count` to 0, resets the paging fields, and leaves the start dates |
| ListIQ.ChatListResponceIQ.ChildElement | src/main/java/xmpp/extensions/com/ua/max/oliynick/iq/ChatListResponceIQ.java:132-178 | the builder calls made are `ListXml` of the entity; the partial-paging branch is unreachable |
| ListProvider.Dispatch | src/main/java/xmpp/extensions/com/ua/max/oliynick/provider/ChatListResponceIQProvider.java:36-54 | the switch only moves the cursor forward, and only over non-start-tag events |
| ListProvider.DispatchIgnores | src/main/java/xmpp/extensions/com/ua/max/oliynick/provider/ChatListResponceIQProvider.java:38-52 | any event other than a `chat`, `first` or `last` start tag (`set` and `count` included) changes nothing |
| ListProvider.DispatchFailures | src/main/java/xmpp/extensions/com/ua/max/oliynick/provider/ChatListResponceIQProvider.java:41-45 | a `chat` tag with fewer than two attributes fails with "with == null" or "start == null"; a `first` tag whose index does not parse fails with NumberFormat |
| ListProvider.Step | src/main/java/xmpp/extensions/com/ua/max/oliynick/provider/ChatListResponceIQProvider.java:36-56 | one pass of the loop always consumes at least one event |
| ListProvider.Run | src/main/java/xmpp/extensions/com/ua/max/oliynick/provider/ChatListResponceIQProvider.java:34-58 | the loop ends on an event at the starting depth, strictly after where it began |
| ListProvider.HandleEvent | src/main/java/xmpp/extensions/com/ua/max/oliynick/provider/ChatListResponceIQProvider.java:36-54 | the imperative switch fails, moves and updates the entity exactly as `Dispatch` does |
| ListProvider.StepEvent | src/main/java/xmpp/extensions/com/ua/max/oliynick/provider/ChatListResponceIQProvider.java:36-56 | the switch followed by `next()` agrees with `Step` |
| ListProvider.StepAfterDispatch | src/main/java/xmpp/extensions/com/ua/max/oliynick/provider/ChatListResponceIQProvider.java:38-56 | a pass is the switch, then `next()`, which fails at the end of input |
| ListProvider.RunAfterStep | src/main/java/xmpp/extensions/com/ua/max/oliynick/provider/ChatListResponceIQProvider.java:56-58 | after each pass the loop stops exactly when the new event is at the starting depth |
| ListProvider.TextInsideRootStops | src/main/java/xmpp/extensions/com/ua/max/oliynick/provider/ChatListResponceIQProvider.java:34-58 | text directly inside `list` is at the root depth, so decoding stops there with an empty list |
| ListProvider.StepFirst | src/main/java/xmpp/extensions/com/ua/max/oliynick/provider/ChatListResponceIQProvider.java:44-45 | the pass on a `first` element sets `firstIndex` to its parsed `index` and `firstValue` to its text, changes nothing else, and moves past its end tag |
| ListProvider.StepLast | src/main/java/xmpp/extensions/com/ua/max/oliynick/provider/ChatListResponceIQProvider.java:47-48 | the pass on a `last` element sets `lastValue` to its text and nothing else |
| ListProvider.Parse | src/main/java/xmpp/extensions/com/ua/max/oliynick/provider/ChatListResponceIQProvider.java:29-61 | `parse` fails exactly when `Decode` does, with its error; otherwise it returns a fresh entity equal to `Decode`'s list, and the parser position where `Decode` stops |
| ListProvider.ChatTags | src/main/java/xmpp/extensions/com/ua/max/oliynick/provider/ChatListResponceIQProvider.java:41 | only `chat` start tags are selected |
| ListProvider.ChatTagsAppend | src/main/java/xmpp/extensions/com/ua/max/oliynick/provider/ChatListResponceIQProvider.java:41 | the chat tags of two stretches are those of each, in order |
| ListProvider.NoChatTags | src/main/java/xmpp/extensions/com/ua/max/oliynick/provider/ChatListResponceIQProvider.java:45 | events skipped by `nextText()` hold no chat tag |
| ListProvider.AppendAllAppend | src/main/java/xmpp/extensions/com/ua/max/oliynick/provider/ChatListResponceIQProvider.java:42 | appending the chats of two stretches is appending the first, then the second, stopping at the first failure |
| ListProvider.AppendAllWithPaging | src/main/java/xmpp/extensions/com/ua/max/oliynick/provider/ChatListResponceIQProvider.java:42-48 | appendChat neither reads nor writes the paging fields that `first` and `last` set |
| ListProvider.SecondAttributes | src/main/java/xmpp/extensions/com/ua/max/oliynick/provider/ChatListResponceIQProvider.java:42 | the second attribute of each chat tag, in order |
| ListProvider.AppendAllAttributes | src/main/java/xmpp/extensions/com/ua/max/oliynick/provider/ChatListResponceIQProvider.java:42 | appending succeeds only if every chat tag has a second attribute |
| ListProvider.AppendAllCount | src/main/java/xmpp/extensions/com/ua/max/oliynick/iq/ChatListResponceIQ.java:84 | appending n chats increments `count` n times |
| ListProvider.AppendAllStartDates | src/main/java/xmpp/extensions/com/ua/max/oliynick/iq/ChatListResponceIQ.java:83 | appending the chats adds their `start` values to the dates, in order |
| ListProvider.StepChats | src/main/java/xmpp/extensions/com/ua/max/oliynick/provider/ChatListResponceIQProvider.java:36-56 | one pass is appendChat for the chat tags it consumed, plus paging changes |
| ListProvider.RunChats | src/main/java/xmpp/extensions/com/ua/max/oliynick/provider/ChatListResponceIQProvider.java:34-58 | the whole loop is appendChat for each chat tag it passed, in document order, plus paging changes |
| ListProvider.DecodedChats | src/main/java/xmpp/extensions/com/ua/max/oliynick/provider/ChatListResponceIQProvider.java:29-61 | a decoded list is appendChat over the chat tags read; each tag has a `start`; `count` is their number and the dates are their `start` values |
| RetrieveIQ.MessagesXmlSnoc | src/main/java/xmpp/extensions/com/ua/max/oliynick/iq/ChatListRetrieveResultIQ.java:249-262 | the pieces of one more message follow those of the earlier ones |
| RetrieveIQ.TranscriptXml | src/main/java/xmpp/extensions/com/ua/max/oliynick/iq/ChatListRetrieveResultIQ.java:222-286 | the encoder throws exactly when `with` or `start` is null; otherwise it begins with the `with` and `start` attributes |
| RetrieveIQ.MessageKeys | src/main/java/xmpp/extensions/com/ua/max/oliynick/iq/ChatListRetrieveResultIQ.java:251-257 | a message element declares the archive namespace, then `secs`, then its body declares the namespace again |
| RetrieveIQ.MessagesKeys | src/main/java/xmpp/extensions/com/ua/max/oliynick/iq/ChatListRetrieveResultIQ.java:249-262 | message elements carry no attribute but `xmlns` and `secs` |
| RetrieveIQ.HeaderKeys | src/main/java/xmpp/extensions/com/ua/max/oliynick/iq/ChatListRetrieveResultIQ.java:228-237 | the header is attribute calls only, with `subject` iff set and `version` iff positive |
| RetrieveIQ.BodyKeys | src/main/java/xmpp/extensions/com/ua/max/oliynick/iq/ChatListRetrieveResultIQ.java:240-283 | after the header, only `xmlns`, `secs` and `index` attributes are written |
| RetrieveIQ.TranscriptOptionalAttributes | src/main/java/xmpp/extensions/com/ua/max/oliynick/iq/ChatListRetrieveResultIQ.java:231-237 | the encoding has a `subject` attribute iff subject is non-null and a `version` attribute iff version > 0, with their values |
| RetrieveIQ.TranscriptEmptyLayout | src/main/java/xmpp/extensions/com/ua/max/oliynick/iq/ChatListRetrieveResultIQ.java:240-245 | with incomplete paging the encoding is attributes only, then `/>` |
| RetrieveIQ.AppendMessages | src/main/java/xmpp/extensions/com/ua/max/oliynick/iq/ChatListRetrieveResultIQ.java:249-262 | the encoder's loop appends every message's element, in order |
| RetrieveIQ.ChatListRetrieveResultIQ.constructor | src/main/java/xmpp/extensions/com/ua/max/oliynick/iq/ChatListRetrieveResultIQ.java:133-138 | no header strings, version 0, count and firstIndex -1, no paging values, no messages |
| RetrieveIQ.ChatListRetrieveResultIQ.SetWith | src/main/java/xmpp/extensions/com/ua/max/oliynick/iq/ChatListRetrieveResultIQ.java:144-146 | sets `with` and nothing else |
| RetrieveIQ.ChatListRetrieveResultIQ.SetStart | src/main/java/xmpp/extensions/com/ua/max/oliynick/iq/ChatListRetrieveResultIQ.java:152-154 | sets `start` and nothing else |
| RetrieveIQ.ChatListRetrieveResultIQ.SetSubject | src/main/java/xmpp/extensions/com/ua/max/oliynick/iq/ChatListRetrieveResultIQ.java:160-162 | sets `subject` and nothing else |
| RetrieveIQ.ChatListRetrieveResultIQ.SetVersion | src/main/java/xmpp/extensions/com/ua/max/oliynick/iq/ChatListRetrieveResultIQ.java:168-170 | sets `version` and nothing else |
| RetrieveIQ.ChatListRetrieveResultIQ.SetFirstIndex | src/main/java/xmpp/extensions/com/ua/max/oliynick/iq/ChatListRetrieveResultIQ.java:176-178 | sets `firstIndex` and nothing else |
| RetrieveIQ.ChatListRetrieveResultIQ.SetFirstValue | src/main/java/xmpp/extensions/com/ua/max/oliynick/iq/ChatListRetrieveResultIQ.java:184-186 | sets `firstValue` and nothing else |
| RetrieveIQ.ChatListRetrieveResultIQ.SetLastValue | src/main/java/xmpp/extensions/com/ua/max/oliynick/iq/ChatListRetrieveResultIQ.java:192-194 | sets `lastValue` and nothing else |
| RetrieveIQ.ChatListRetrieveResultIQ.SetCount | src/main/java/xmpp/extensions/com/ua/max/oliynick/iq/ChatListRetrieveResultIQ.java:200-202 | sets `count` and nothing else |
| RetrieveIQ.ChatListRetrieveResultIQ.AddBody | src/main/java/xmpp/extensions/com/ua/max/oliynick/iq/ChatListRetrieveResultIQ.java:204-206 | appends the message after the ones already held |
| RetrieveIQ.ChatListRetrieveResultIQ.ChildElement | src/main/java/xmpp/extensions/com/ua/max/oliynick/iq/ChatListRetrieveResultIQ.java:212-286 | the builder calls made, or the exception thrown, are `TranscriptXml` of the entity |
| RetrieveProvider.ApplyAttributesFailure | src/main/java/xmpp/extensions/com/ua/max/oliynick/provider/ChatListRetrieveIQProvider.java:100-101 | a `version` that does not parse ends parseRetrTagAttrs with that error, whatever follows |
| RetrieveProvider.ApplyAttributesKeeps | src/main/java/xmpp/extensions/com/ua/max/oliynick/provider/ChatListRetrieveIQProvider.java:88-104 | the root attributes change only `with`, `start`, `subject` and `version` |
| RetrieveProvider.AttributeAbsent | src/main/java/xmpp/extensions/com/ua/max/oliynick/provider/ChatListRetrieveIQProvider.java:90-103 | a field whose attribute is absent keeps its value |
| RetrieveProvider.LaterAttributeWins | src/main/java/xmpp/extensions/com/ua/max/oliynick/provider/ChatListRetrieveIQProvider.java:90-103 | a field takes the value of the last attribute of its name (`version` parsed) |
| RetrieveProvider.ParseRetrTagAttrs | src/main/java/xmpp/extensions/com/ua/max/oliynick/provider/ChatListRetrieveIQProvider.java:88-104 | the imperative loop over the attributes calls the setters as `ApplyAttributes` says, and fails with its error |
| RetrieveProvider.Dispatch | src/main/java/xmpp/extensions/com/ua/max/oliynick/provider/ChatListRetrieveIQProvider.java:47-75 | the switch only moves the cursor forward |
| RetrieveProvider.DispatchIgnores | src/main/java/xmpp/extensions/com/ua/max/oliynick/provider/ChatListRetrieveIQProvider.java:49-73 | any event other than a `chat`, `from`, `to`, `first`, `last` or `count` start tag changes nothing |
| RetrieveProvider.DispatchFailures | src/main/java/xmpp/extensions/com/ua/max/oliynick/provider/ChatListRetrieveIQProvider.java:52-70 | a `secs`, `index` or `count` that does not parse, or a failing `version` on the root, ends decoding with that NumberFormat error |
| RetrieveProvider.Step | src/main/java/xmpp/extensions/com/ua/max/oliynick/provider/ChatListRetrieveIQProvider.java:47-77 | one pass of the loop always consumes at least one event |
| RetrieveProvider.Run | src/main/java/xmpp/extensions/com/ua/max/oliynick/provider/ChatListRetrieveIQProvider.java:45-79 | the loop ends on an event at the starting depth, strictly after where it began |
| RetrieveProvider.HandleEvent | src/main/java/xmpp/extensions/com/ua/max/oliynick/provider/ChatListRetrieveIQProvider.java:47-75 | the imperative switch fails, moves and updates the entity exactly as `Dispatch` does |
| RetrieveProvider.StepEvent | src/main/java/xmpp/extensions/com/ua/max/oliynick/provider/ChatListRetrieveIQProvider.java:47-77 | the switch followed by `next()` agrees with `Step` |
| RetrieveProvider.StepAfterDispatch | src/main/java/xmpp/extensions/com/ua/max/oliynick/provider/ChatListRetrieveIQProvider.java:49-77 | a pass is the switch, then `next()`, which fails at the end of input |
| RetrieveProvider.RunAfterStep | src/main/java/xmpp/extensions/com/ua/max/oliynick/provider/ChatListRetrieveIQProvider.java:77-79 | after each pass the loop stops exactly when the new event is at the starting depth |
| RetrieveProvider.TextInsideRootStops | src/main/java/xmpp/extensions/com/ua/max/oliynick/provider/ChatListRetrieveIQProvider.java:45-79 | text directly inside `chat` is at the root depth, so decoding stops there with only the header read |
| RetrieveProvider.Parse | src/main/java/xmpp/extensions/com/ua/max/oliynick/provider/ChatListRetrieveIQProvider.java:40-83 | `parse` fails exactly when `Decode` does, with its error; otherwise it returns a fresh entity equal to `Decode`'s transcript, and the parser position where `Decode` stops |
| TranscriptRoundTrip.ReportedHeader | src/main/java/xmpp/extensions/com/ua/max/oliynick/iq/ChatListRetrieveResultIQ.java:228-237 | the parser reports `with`, `start`, then `subject` if set and `version` if positive, on the `chat` start tag |
| TranscriptRoundTrip.MessageAttributes | src/main/java/xmpp/extensions/com/ua/max/oliynick/iq/ChatListRetrieveResultIQ.java:251-256 | a message start tag is reported with `secs` alone; the body's tag with no attribute |
| TranscriptRoundTrip.EmitMessage | src/main/java/xmpp/extensions/com/ua/max/oliynick/iq/ChatListRetrieveResultIQ.java:251-261 | a message element is reported as its direction's start tag, the body element, and the end tag |
| TranscriptRoundTrip.EmitMessages | src/main/java/xmpp/extensions/com/ua/max/oliynick/iq/ChatListRetrieveResultIQ.java:249-262 | the message elements are reported in order, one level below the root |
| TranscriptRoundTrip.EmitSet | src/main/java/xmpp/extensions/com/ua/max/oliynick/iq/ChatListRetrieveResultIQ.java:264-283 | the qualified `set` block is reported as `set` holding `first` (with `index`), `last` and `count` |
| TranscriptRoundTrip.EmitElement | src/main/java/xmpp/extensions/com/ua/max/oliynick/iq/ChatListRetrieveResultIQ.java:247-285 | an element opened, filled with two balanced runs of calls and closed is reported as start tag, their events, end tag |
| TranscriptRoundTrip.ChildXmlShape | src/main/java/xmpp/extensions/com/ua/max/oliynick/iq/ChatListRetrieveResultIQ.java:240-283 | the `chat` element is the header closed empty, or the header, messages, `set` block and closing tag |
| TranscriptRoundTrip.EmitEmptyTranscript | src/main/java/xmpp/extensions/com/ua/max/oliynick/iq/ChatListRetrieveResultIQ.java:240-245 | with incomplete paging a parser reports only the `chat` start and end tags |
| TranscriptRoundTrip.EmitPopulated | src/main/java/xmpp/extensions/com/ua/max/oliynick/iq/ChatListRetrieveResultIQ.java:247-285 | the populated element is reported as root, messages, `set` block, end tag |
| TranscriptRoundTrip.EmitFullTranscript | src/main/java/xmpp/extensions/com/ua/max/oliynick/iq/ChatListRetrieveResultIQ.java:247-285 | the same, for the encoder's own output |
| TranscriptRoundTrip.EmitTranscript | src/main/java/xmpp/extensions/com/ua/max/oliynick/iq/ChatListRetrieveResultIQ.java:212-286 | the events of whatever the encoder writes are `TranscriptTokens` |
| TranscriptRoundTrip.Decoded | src/main/java/xmpp/extensions/com/ua/max/oliynick/provider/ChatListRetrieveIQProvider.java:40-83 | what decoding should give: the transcript itself when paging is complete and version non-negative, the header alone when the element was closed empty |
| TranscriptRoundTrip.ApplyHeaderAttribute | src/main/java/xmpp/extensions/com/ua/max/oliynick/provider/ChatListRetrieveIQProvider.java:91-98 | `with`, `start` and `subject` attributes set their field |
| TranscriptRoundTrip.ApplyVersion | src/main/java/xmpp/extensions/com/ua/max/oliynick/provider/ChatListRetrieveIQProvider.java:100-101 | a `version` attribute written by the encoder parses back to the same int |
| TranscriptRoundTrip.ApplyOptional | src/main/java/xmpp/extensions/com/ua/max/oliynick/provider/ChatListRetrieveIQProvider.java:90-103 | one more attribute, when present, is applied after the earlier ones |
| TranscriptRoundTrip.ApplyPair | src/main/java/xmpp/extensions/com/ua/max/oliynick/provider/ChatListRetrieveIQProvider.java:90-103 | two attributes are applied in order |
| TranscriptRoundTrip.RootAttributesApplied | src/main/java/xmpp/extensions/com/ua/max/oliynick/provider/ChatListRetrieveIQProvider.java:88-104 | parseRetrTagAttrs on the written root attributes restores the header (a non-positive version as 0) |
| TranscriptRoundTrip.StepOver | src/main/java/xmpp/extensions/com/ua/max/oliynick/provider/ChatListRetrieveIQProvider.java:49-77 | an end tag or unknown start tag is passed over unchanged |
| TranscriptRoundTrip.StepRoot | src/main/java/xmpp/extensions/com/ua/max/oliynick/provider/ChatListRetrieveIQProvider.java:52-53 | the pass on the `chat` tag reads the header |
| TranscriptRoundTrip.StepMessage | src/main/java/xmpp/extensions/com/ua/max/oliynick/provider/ChatListRetrieveIQProvider.java:55-60 | the pass on a message reads `secs` and the body text and appends the message |
| TranscriptRoundTrip.StepFirst | src/main/java/xmpp/extensions/com/ua/max/oliynick/provider/ChatListRetrieveIQProvider.java:62-64 | the pass on `first` reads its index and text |
| TranscriptRoundTrip.StepLast | src/main/java/xmpp/extensions/com/ua/max/oliynick/provider/ChatListRetrieveIQProvider.java:66-67 | the pass on `last` reads its text |
| TranscriptRoundTrip.StepCount | src/main/java/xmpp/extensions/com/ua/max/oliynick/provider/ChatListRetrieveIQProvider.java:69-70 | the pass on `count` reads its text back as the written int |
| TranscriptRoundTrip.TwoSteps | src/main/java/xmpp/extensions/com/ua/max/oliynick/provider/ChatListRetrieveIQProvider.java:77-79 | two passes that stay below the starting depth do not end the loop |
| TranscriptRoundTrip.RunMessages | src/main/java/xmpp/extensions/com/ua/max/oliynick/provider/ChatListRetrieveIQProvider.java:45-79 | the loop reads the message elements and appends the messages, in order |
| TranscriptRoundTrip.RunSet | src/main/java/xmpp/extensions/com/ua/max/oliynick/provider/ChatListRetrieveIQProvider.java:62-79 | the loop reads the `set` block's four paging fields and stops at the closing root tag |
| TranscriptRoundTrip.DecodeComplete | src/main/java/xmpp/extensions/com/ua/max/oliynick/provider/ChatListRetrieveIQProvider.java:40-83 | decoding root, messages and `set` gives the whole transcript |
| TranscriptRoundTrip.DecodeTranscript | src/main/java/xmpp/extensions/com/ua/max/oliynick/provider/ChatListRetrieveIQProvider.java:40-83 | decoding the events of a transcript gives `Decoded(t)` and stops on the closing `chat` tag |
| TranscriptRoundTrip.TranscriptRoundTrip | src/main/java/xmpp/extensions/com/ua/max/oliynick/iq/ChatListRetrieveResultIQ.java:212-286 | for every transcript the encoder accepts whose strings are `Writable` (text without `<`, `&`, carriage returns or `]]>`; attribute values without tabs or line ends), parsing and decoding what it wrote gives `Decoded(t)`: the transcript itself when paging is complete and version non-negative, its header alone when the element was closed empty |

## Left out

- Smack's `IQ` base class writes the child element's opening and closing tags; it is not part of this model. For the transcript, `ChildXml` is the wrapper the encoder's two layouts evidently expect: `<chat xmlns='urn:xmpp:archive'`, the encoder's calls, then `</chat>` unless the element was closed empty. This is an assumption. Smack leaves the closing tag off only when the builder's empty-element flag is set (`setEmptyElement()`), and the encoder never sets it: it calls `closeEmptyElement()` itself (ChatListRetrieveResultIQ.java:243). So with incomplete paging the stanza actually sent is `<chat .../></chat>`, which is not well-formed. The round trip's closed-empty case holds only under the assumed wrapper. The list encoder is not wrapped.
- There is no round trip for the chat list. `appendChat` stores its tags as raw text (`append`), and the model reports raw text as one text event rather than re-parsing it. `DecodedChats` characterises the list decoder instead.
- Xml.AttributeValue: an index past the last attribute reads as null. A conforming `XmlPullParser` throws IndexOutOfBoundsException there. With null, a `chat` tag with one attribute fails in `appendChat` with IllegalArgumentException rather than with the parser's exception; both paths fail.
- ListIQ.Expand: a `$` followed by a letter or `{` fails with IllegalArgumentException carrying the single message "Illegal group reference". Java gives named-group references (`${name}`) their own messages.
- `replaceFirst` is modelled only for the fixed pattern `\?` the source uses, not as a general regular-expression engine.
- XML escaping is not modelled. Attribute values and text are written and reported verbatim. Each text run is reported as a single text event.
- TranscriptRoundTrip: stated only for `Writable` transcripts. Message bodies and the `first` and `last` values are written with `append` (ChatListRetrieveResultIQ.java:259, 271, 277), which does not escape, so a `<` or `&` in them produces markup or ill-formed XML that the real program does not read back. A parser also normalises carriage returns in text and tabs and line ends in attribute values.
- JavaInt.ParseInt: accepts only ASCII digits. Java's `Integer.valueOf` reads digits with `Character.digit`, which accepts every Unicode decimal digit (for example Arabic-Indic `١` is 1). A `secs`, `index`, `count` or `version` written with such digits decodes in Java but fails with NumberFormat in the model.
- `XmlPullParserException` and `IOException` are modelled as the `PullParser` and `EndOfInput` errors. The message strings `NextTag` and `NextText` carry describe the failing condition; they need not match a particular parser's wording.
- Message bodies are strings, never null. The decoder always supplies `nextText()`'s result. A null body passed to `addBody` directly is not modelled.
- A message's `Direction` is never null in the model. `addBody` with a null direction makes the encoder throw NullPointerException at ChatListRetrieveResultIQ.java:251; that error path is not modelled. The decoder always supplies `from` or `to`.
- A `first`, `from` or `to` tag without attributes: a conforming `XmlPullParser` throws IndexOutOfBoundsException from `getAttributeValue(0)`. The model reads null there (see `Xml.AttributeValue`), and `ParseInt` then fails with NumberFormat (`DispatchFailures`). Decoding fails in both, with a different exception.
- The following are not modelled:
  - the getters and `getContent`/`getStartDates`, which are read-only views of fields the model exposes directly;
  - the `toString` methods;
  - `WrappedBody`'s own setters, which no core code calls;
  - the `ArrayList` initial capacity.
- Provider registration with Smack's `ProviderManager`, and the unit tests, are not part of this model.
