/** Server-sent-event translation of the Adapta executor: the streaming transform and the collector. */
module AdaptaWeb {
  import opened JsText

  /** The `delta` of an event: missing or null, a string, or another value with its printed form. */
  datatype Delta = NoDelta | Text(text: string) | Printed(text: string)

  /** The event types the readers look for; any other type, or none, is `OtherKind`. */
  datatype Kind = TextDelta | TextEnd | ErrorKind | DoneKind | EndKind | OtherKind

  /**
   * A parsed payload. `Invalid` is a parse error. `Null` is the JSON value null, whose
   * properties cannot be read. `quickResponse` marks the loading placeholder's id.
   */
  datatype Payload =
    | Invalid
    | Null
    | Event(kind: Kind, quickResponse: bool, delta: Delta, errorText: Option<string>)

  type Parser = string -> Payload

  datatype Frame = Role | Content(text: string) | Stop | Done

  datatype Ending = Closed | Broken

  /** The upstream body: decoded chunks, then the end of the stream or a failing read. */
  datatype Feed = Feed(chunks: seq<string>, ending: Ending)

  const DATA_PREFIX := "data: "

  /** The newline-terminated lines of a text; an unterminated tail is dropped. */
  function CompleteLines(text: string): seq<string> {
    Init(SplitOn(text, '\n'))
  }

  function Tail(text: string): string {
    Last(SplitOn(text, '\n'))
  }

  /** A line as the transform reads it: payload trimmed, blank payload skipped. */
  function TrimmedEvent(parse: Parser, line: string): Payload {
    if !StartsWith(line, DATA_PREFIX) then Invalid
    else
      var payload := Trim(line[|DATA_PREFIX|..]);
      if payload == "" then Invalid else parse(payload)
  }

  /** A line as the collector reads it: payload handed over as it is. */
  function RawEvent(parse: Parser, line: string): Payload {
    if !StartsWith(line, DATA_PREFIX) then Invalid else parse(line[|DATA_PREFIX|..])
  }

  function ErrorNotice(errorText: Option<string>): string {
    "\n\n[Erro: " + (if errorText.Some? then errorText.value else "Adapta upstream error") + "]"
  }

  /** The lines after which the transform reads no further; reading a property of null throws. */
  predicate Terminal(p: Payload) {
    p.Null? || (p.Event? && (p.kind.ErrorKind? || p.kind.DoneKind? || p.kind.EndKind?))
  }

  /** What an event adds to the streamed text. */
  function StreamedDelta(p: Payload): string {
    match p
    case Event(TextDelta, false, Text(t), _) => t
    case Event(ErrorKind, _, _, errorText) => ErrorNotice(errorText)
    case _ => ""
  }

  /** What an event adds to the collected text. */
  function CollectedDelta(p: Payload): string {
    if p.Event? && p.kind.TextDelta? && !p.quickResponse && !p.delta.NoDelta? then p.delta.text else ""
  }

  function StreamedEvents(parse: Parser, text: string): seq<Payload> {
    MapEvents(line => TrimmedEvent(parse, line), CompleteLines(text))
  }

  function CollectedEvents(parse: Parser, text: string): seq<Payload> {
    MapEvents(line => RawEvent(parse, line), CompleteLines(text))
  }

  function MapEvents(read: string -> Payload, lines: seq<string>): seq<Payload> {
    seq(|lines|, i requires 0 <= i < |lines| => read(lines[i]))
  }

  function EventTexts(event: Payload): seq<string> {
    if StreamedDelta(event) == "" then [] else [StreamedDelta(event)]
  }

  predicate Quiet(events: seq<Payload>) {
    forall e :: e in events ==> !Terminal(e)
  }

  /** The non-empty contributions of the events up to and including the first terminal one. */
  function StreamedTexts(events: seq<Payload>): seq<string> {
    if events == [] then []
    else EventTexts(events[0]) + if Terminal(events[0]) then [] else StreamedTexts(events[1..])
  }

  function CollectedText(events: seq<Payload>): string {
    if events == [] then "" else CollectedDelta(events[0]) + CollectedText(events[1..])
  }

  function Contents(texts: seq<string>): seq<Frame> {
    seq(|texts|, i requires 0 <= i < |texts| => Content(texts[i]))
  }

  /** The frames a client sees for an upstream text: one role, the contents, one stop, one end marker. */
  function Transcript(parse: Parser, text: string): seq<Frame> {
    [Role] + Contents(StreamedTexts(StreamedEvents(parse, text))) + [Stop, Done]
  }

  function FrameText(frames: seq<Frame>): string {
    if frames == [] then ""
    else (if frames[0].Content? then frames[0].text else "") + FrameText(frames[1..])
  }

  // ----- the streaming transform -----

  class StreamTransform {
    var buffer: string
    var roleEmitted: bool
    var output: seq<Frame>
    var closes: nat

    constructor ()
      ensures buffer == "" && !roleEmitted && output == [] && closes == 0
    {
      buffer, roleEmitted, output, closes := "", false, [], 0;
    }

    /** The output so far is what the given texts call for, the role frame coming with the first. */
    ghost predicate Emitted(texts: seq<string>)
      reads this
    {
      && closes == 0
      && roleEmitted == (texts != [])
      && output == (if texts == [] then [] else [Role] + Contents(texts))
    }

    method EnsureRole()
      modifies this`roleEmitted, this`output
      ensures roleEmitted
      ensures output == if old(roleEmitted) then old(output) else old(output) + [Role]
    {
      if !roleEmitted {
        roleEmitted := true;
        output := output + [Role];
      }
    }

    method EmitContent(text: string, ghost texts: seq<string>)
      requires Emitted(texts)
      modifies this`roleEmitted, this`output
      ensures Emitted(texts + [text])
    {
      EnsureRole();
      output := output + [Content(text)];
      assert Contents(texts + [text]) == Contents(texts) + [Content(text)];
    }

    method Finalize(ghost texts: seq<string>)
      requires Emitted(texts)
      modifies this`roleEmitted, this`output, this`closes
      ensures output == [Role] + Contents(texts) + [Stop, Done]
      ensures closes == 1
    {
      EnsureRole();
      output := output + [Stop];
      output := output + [Done];
      closes := closes + 1;
      assert texts == [] ==> Contents(texts) == [];
    }

    /** One complete line; `stopped` says that it was terminal and has closed the stream. */
    method ProcessLine(parse: Parser, line: string, ghost texts: seq<string>) returns (stopped: bool)
      requires Emitted(texts)
      modifies this`roleEmitted, this`output, this`closes
      ensures stopped == Terminal(TrimmedEvent(parse, line))
      ensures !stopped ==> Emitted(texts + EventTexts(TrimmedEvent(parse, line)))
      ensures stopped ==> closes == 1
      ensures stopped ==> output == [Role] + Contents(texts + EventTexts(TrimmedEvent(parse, line))) + [Stop, Done]
    {
      assert texts + [] == texts;
      if !StartsWith(line, DATA_PREFIX) {
        return false;
      }
      var payload := Trim(line[|DATA_PREFIX|..]);
      if payload == "" {
        return false;
      }
      var event := parse(payload);
      if event.Invalid? {
        return false;
      }
      if event.Null? {
        // Reading `type` of null throws; the surrounding catch falls through to the final frames.
        Finalize(texts);
        return true;
      }
      if event.kind.TextDelta? {
        if event.quickResponse {
          return false;
        }
        if event.delta.Text? && |event.delta.text| > 0 {
          EmitContent(event.delta.text, texts);
        }
      } else if event.kind.ErrorKind? {
        EmitContent(ErrorNotice(event.errorText), texts);
        Finalize(texts + [ErrorNotice(event.errorText)]);
        return true;
      } else if event.kind.DoneKind? || event.kind.EndKind? {
        Finalize(texts);
        return true;
      }
      return false;
    }

    /** One batch of complete lines, up to the first terminal one. */
    method ProcessLines(parse: Parser, lines: seq<string>, ghost before: seq<string>)
      returns (stopped: bool)
      requires Emitted(before)
      modifies this`roleEmitted, this`output, this`closes
      ensures var events := MapEvents(line => TrimmedEvent(parse, line), lines);
              && stopped == !Quiet(events)
              && (!stopped ==> Emitted(before + StreamedTexts(events)))
              && (stopped ==> closes == 1)
              && (stopped ==> output == [Role] + Contents(before + StreamedTexts(events)) + [Stop, Done])
    {
      ghost var events := MapEvents(line => TrimmedEvent(parse, line), lines);
      ghost var texts := before;
      var i := 0;
      while i < |lines|
        invariant 0 <= i <= |lines|
        invariant Emitted(texts)
        invariant Quiet(events[..i])
        invariant before + StreamedTexts(events) == texts + StreamedTexts(events[i..])
      {
        stopped := ProcessLine(parse, lines[i], texts);
        assert events[i] == TrimmedEvent(parse, lines[i]);
        StreamedTextsStep(events, i, texts);
        texts := texts + EventTexts(events[i]);
        if stopped {
          assert events[i] in events;
          return true;
        }
        i := i + 1;
      }
      assert events[..i] == events && texts + [] == texts;
      return false;
    }

    /** The whole run: what is emitted depends on the concatenated text alone. */
    method Run(parse: Parser, feed: Feed)
      requires buffer == "" && !roleEmitted && output == [] && closes == 0
      modifies this
      ensures output == Transcript(parse, Flatten(feed.chunks))
      ensures closes == 1
    {
      ghost var seen := StreamedEvents(parse, "");
      assert feed.chunks[..0] == [];
      var i := 0;
      while i < |feed.chunks|
        invariant 0 <= i <= |feed.chunks|
        invariant buffer == Tail(Flatten(feed.chunks[..i]))
        invariant seen == StreamedEvents(parse, Flatten(feed.chunks[..i]))
        invariant Quiet(seen) && Emitted(StreamedTexts(seen))
      {
        buffer := buffer + feed.chunks[i];
        var pieces := SplitOn(buffer, '\n');
        ghost var more := MapEvents(x => TrimmedEvent(parse, x), Init(pieces));
        NextChunk(x => TrimmedEvent(parse, x), feed.chunks, i);
        StreamedTextsAppend(seen, more);
        buffer := Last(pieces);
        i := i + 1;
        var stopped := ProcessLines(parse, Init(pieces), StreamedTexts(seen));
        seen := seen + more;
        if stopped {
          StoppedEarly(parse, feed.chunks, i);
          return;
        }
      }
      // The reader reported the end, or a read failed and the catch block swallowed it.
      assert feed.chunks[..i] == feed.chunks;
      Finalize(StreamedTexts(seen));
    }
  }

  lemma StoppedEarly(parse: Parser, chunks: seq<string>, i: nat)
    requires i <= |chunks| && !Quiet(StreamedEvents(parse, Flatten(chunks[..i])))
    ensures Transcript(parse, Flatten(chunks)) == Transcript(parse, Flatten(chunks[..i]))
  {
    FlattenSplit(chunks, i);
    TextAfterTerminal(parse, Flatten(chunks[..i]), Flatten(chunks[i..]));
  }

  // ----- the collector -----

  datatype Collected = Body(text: string) | Rejected

  /** The non-streaming loop; a failing read rejects the request. */
  method Collect(parse: Parser, feed: Feed) returns (result: Collected)
    ensures result == match feed.ending
                      case Closed => Body(CollectedText(CollectedEvents(parse, Flatten(feed.chunks))))
                      case Broken => Rejected
  {
    var buffer, fullText := "", "";
    var i := 0;
    while i < |feed.chunks|
      invariant 0 <= i <= |feed.chunks|
      invariant buffer == Tail(Flatten(feed.chunks[..i]))
      invariant fullText == CollectedText(CollectedEvents(parse, Flatten(feed.chunks[..i])))
    {
      ghost var seen := CollectedEvents(parse, Flatten(feed.chunks[..i]));
      buffer := buffer + feed.chunks[i];
      var pieces := SplitOn(buffer, '\n');
      NextChunk(x => RawEvent(parse, x), feed.chunks, i);
      CollectedTextAppend(seen, MapEvents(x => RawEvent(parse, x), Init(pieces)));
      buffer := Last(pieces);
      fullText := CollectLines(parse, Init(pieces), fullText);
      i := i + 1;
    }
    assert feed.chunks[..i] == feed.chunks;
    return match feed.ending case Closed => Body(fullText) case Broken => Rejected;
  }

  method CollectLines(parse: Parser, lines: seq<string>, before: string) returns (fullText: string)
    ensures fullText == before + CollectedText(MapEvents(line => RawEvent(parse, line), lines))
  {
    ghost var events := MapEvents(line => RawEvent(parse, line), lines);
    fullText := before;
    var j := 0;
    while j < |lines|
      invariant 0 <= j <= |lines|
      invariant fullText + CollectedText(events[j..]) == before + CollectedText(events)
    {
      ghost var was := fullText;
      CollectedTextStep(events, j, was);
      if StartsWith(lines[j], DATA_PREFIX) {
        var event := parse(lines[j][|DATA_PREFIX|..]);
        if event.Event? && event.kind.TextDelta? && !event.quickResponse {
          fullText := fullText + (if event.delta.NoDelta? then "" else event.delta.text);
        }
      }
      assert events[j] == RawEvent(parse, lines[j]) && fullText == was + CollectedDelta(events[j]);
      j := j + 1;
    }
  }

  lemma CollectedTextStep(events: seq<Payload>, j: nat, before: string)
    requires j < |events|
    ensures before + CollectedText(events[j..]) ==
            before + CollectedDelta(events[j]) + CollectedText(events[j + 1..])
  {
    assert events[j..][1..] == events[j + 1..];
    Assoc(before, CollectedDelta(events[j]), CollectedText(events[j + 1..]));
  }

  // ----- lines and events -----

  /** The line splitter keeps its place from one chunk to the next. */
  lemma NextChunk(read: string -> Payload, chunks: seq<string>, i: nat)
    requires i < |chunks|
    ensures var text, next := Flatten(chunks[..i]), Flatten(chunks[..i + 1]);
            var pieces := SplitOn(Tail(text) + chunks[i], '\n');
            && Tail(next) == Last(pieces)
            && MapEvents(read, CompleteLines(next)) ==
               MapEvents(read, CompleteLines(text)) + MapEvents(read, Init(pieces))
  {
    assert chunks[..i + 1] == chunks[..i] + [chunks[i]];
    FlattenAppend(chunks[..i], chunks[i]);
    LinesAppend(read, Flatten(chunks[..i]), chunks[i]);
  }

  lemma LinesAppend(read: string -> Payload, text: string, more: string)
    ensures var pieces := SplitOn(Tail(text) + more, '\n');
            && CompleteLines(text + more) == CompleteLines(text) + Init(pieces)
            && Tail(text + more) == Last(pieces)
            && MapEvents(read, CompleteLines(text + more)) ==
               MapEvents(read, CompleteLines(text)) + MapEvents(read, Init(pieces))
  {
    SplitResume(text, more, '\n');
    LinesOfResumed(text, more);
    MapEventsAppend(read, CompleteLines(text), Init(SplitOn(Tail(text) + more, '\n')));
  }

  lemma LinesOfResumed(text: string, more: string)
    requires SplitOn(text + more, '\n') == Init(SplitOn(text, '\n')) + SplitOn(Tail(text) + more, '\n')
    ensures CompleteLines(text + more) == CompleteLines(text) + Init(SplitOn(Tail(text) + more, '\n'))
    ensures Tail(text + more) == Last(SplitOn(Tail(text) + more, '\n'))
  {
  }

  lemma MapEventsAppend(read: string -> Payload, xs: seq<string>, ys: seq<string>)
    ensures MapEvents(read, xs + ys) == MapEvents(read, xs) + MapEvents(read, ys)
  {
  }

  lemma StreamedTextsStep(events: seq<Payload>, i: nat, texts: seq<string>)
    requires i < |events|
    ensures Terminal(events[i]) ==> texts + StreamedTexts(events[i..]) == texts + EventTexts(events[i])
    ensures !Terminal(events[i]) ==> texts + StreamedTexts(events[i..]) ==
                                     texts + EventTexts(events[i]) + StreamedTexts(events[i + 1..])
    ensures Quiet(events[..i]) && !Terminal(events[i]) ==> Quiet(events[..i + 1])
  {
    var tail := events[i..];
    assert tail[0] == events[i] && tail[1..] == events[i + 1..];
    assert events[..i + 1] == events[..i] + [events[i]];
    StreamedTextsHead(tail);
    Assoc(texts, EventTexts(events[i]), StreamedTexts(events[i + 1..]));
  }

  lemma StreamedTextsHead(events: seq<Payload>)
    requires events != []
    ensures Terminal(events[0]) ==> StreamedTexts(events) == EventTexts(events[0])
    ensures !Terminal(events[0]) ==> StreamedTexts(events) == EventTexts(events[0]) + StreamedTexts(events[1..])
  {
    assert EventTexts(events[0]) + [] == EventTexts(events[0]);
  }

  lemma {:induction false} StreamedTextsAppend(xs: seq<Payload>, ys: seq<Payload>)
    requires Quiet(xs)
    ensures StreamedTexts(xs + ys) == StreamedTexts(xs) + StreamedTexts(ys)
    ensures Quiet(xs + ys) <==> Quiet(ys)
  {
    if xs == [] {
      assert xs + ys == ys;
    } else {
      assert xs == [xs[0]] + xs[1..];
      assert xs + ys == [xs[0]] + (xs[1..] + ys);
      StreamedTextsAppend(xs[1..], ys);
      StreamedTextsCons(xs[0], xs[1..]);
      StreamedTextsCons(xs[0], xs[1..] + ys);
      Assoc(EventTexts(xs[0]), StreamedTexts(xs[1..]), StreamedTexts(ys));
    }
  }

  lemma StreamedTextsCons(x: Payload, xs: seq<Payload>)
    requires !Terminal(x)
    ensures StreamedTexts([x] + xs) == EventTexts(x) + StreamedTexts(xs)
  {
    assert ([x] + xs)[1..] == xs;
  }

  /** Events behind a terminal one are never looked at. */
  lemma {:induction false} StreamedTextsCut(xs: seq<Payload>, ys: seq<Payload>)
    requires !Quiet(xs)
    ensures StreamedTexts(xs + ys) == StreamedTexts(xs)
  {
    assert (xs + ys)[1..] == xs[1..] + ys;
    if !Terminal(xs[0]) {
      assert xs == [xs[0]] + xs[1..];
      StreamedTextsCut(xs[1..], ys);
    }
  }

  lemma {:induction false} CollectedTextAppend(xs: seq<Payload>, ys: seq<Payload>)
    ensures CollectedText(xs + ys) == CollectedText(xs) + CollectedText(ys)
  {
    if xs == [] {
      assert xs + ys == ys;
    } else {
      CollectedTextAppend(xs[1..], ys);
      assert (xs + ys)[1..] == xs[1..] + ys;
      Assoc(CollectedDelta(xs[0]), CollectedText(xs[1..]), CollectedText(ys));
    }
  }

  lemma {:induction false} FlattenSplit(chunks: seq<string>, i: nat)
    requires i <= |chunks|
    ensures Flatten(chunks) == Flatten(chunks[..i]) + Flatten(chunks[i..])
  {
    if i > 0 {
      FlattenSplit(chunks[1..], i - 1);
      assert chunks[1..][..i - 1] == chunks[..i][1..];
      assert chunks[1..][i - 1..] == chunks[i..];
    }
  }

  /** Upstream text that follows a terminal line has no effect on the transcript. */
  lemma TextAfterTerminal(parse: Parser, text: string, more: string)
    requires !Quiet(StreamedEvents(parse, text))
    ensures Transcript(parse, text + more) == Transcript(parse, text)
  {
    var read := line => TrimmedEvent(parse, line);
    LinesAppend(read, text, more);
    StreamedTextsCut(StreamedEvents(parse, text), MapEvents(read, Init(SplitOn(Tail(text) + more, '\n'))));
  }

  /** An unterminated tail has no effect either. */
  lemma UnterminatedTailIgnored(parse: Parser, text: string, tail: string)
    requires text == "" || Last(text) == '\n'
    requires '\n' !in tail
    ensures Transcript(parse, text + tail) == Transcript(parse, text)
    ensures CollectedEvents(parse, text + tail) == CollectedEvents(parse, text)
  {
    SplitAfterNewline(text);
    SplitOfFree(tail, '\n');
    assert "" + tail == tail;
    LinesAppend(line => TrimmedEvent(parse, line), text, tail);
    assert CompleteLines(text + tail) == CompleteLines(text) + [];
    assert StreamedEvents(parse, text + tail) == StreamedEvents(parse, text);
  }

  lemma {:induction false} SplitAfterNewline(text: string)
    requires text == "" || Last(text) == '\n'
    ensures Tail(text) == ""
  {
    if text != "" {
      SplitAtSeparator("", "", '\n');
      assert "" + ['\n'] + "" == ['\n'];
      SplitResume(Init(text), ['\n'], '\n');
      assert Init(text) + ['\n'] == text;
      SplitPieces(Init(text), '\n');
      SplitAtSeparator(Tail(Init(text)), "", '\n');
      assert Tail(Init(text)) + ['\n'] + "" == Tail(Init(text)) + ['\n'];
    }
  }

  // ----- line by line -----

  /** The text ends where a line ends. */
  predicate Complete(text: string) {
    text == "" || Last(text) == '\n'
  }

  /** No event of the line stops the stream: it carries no data, no event, or one of another kind than those that do. */
  predicate KeepsOpen(parse: Parser, line: string) {
    || !("data: " <= line)
    || Trim(line[6..]) == ""
    || var e := parse(Trim(line[6..]));
       e.Invalid? || (e.Event? && (e.kind.TextDelta? || e.kind.TextEnd? || e.kind.OtherKind?))
  }

  /** Complete lines, none of which stops the stream. */
  predicate IsOpen(parse: Parser, text: string) {
    Complete(text) && forall line :: line in CompleteLines(text) ==> KeepsOpen(parse, line)
  }

  /** The frames without the closing two. */
  function Front(frames: seq<Frame>): seq<Frame>
    requires |frames| >= 2
  {
    frames[..|frames| - 2]
  }

  lemma LineAppended(text: string, line: string)
    requires Complete(text) && '\n' !in line
    ensures CompleteLines(text + line + "\n") == CompleteLines(text) + [line]
  {
    SplitAfterNewline(text);
    SplitAtSeparator(line, "", '\n');
    assert line + ['\n'] + "" == line + "\n" && "" + (line + "\n") == line + "\n";
    assert SplitOn("", '\n') == [""];
    Assoc(text, line, "\n");
    LinesAppend(x => Invalid, text, line + "\n");
  }

  lemma EventsAppended(parse: Parser, text: string, line: string)
    requires Complete(text) && '\n' !in line
    ensures StreamedEvents(parse, text + line + "\n") == StreamedEvents(parse, text) + [TrimmedEvent(parse, line)]
    ensures CollectedEvents(parse, text + line + "\n") == CollectedEvents(parse, text) + [RawEvent(parse, line)]
  {
    LineAppended(text, line);
    MapEventsAppend(x => TrimmedEvent(parse, x), CompleteLines(text), [line]);
    MapEventsAppend(x => RawEvent(parse, x), CompleteLines(text), [line]);
  }

  lemma OpenIsQuiet(parse: Parser, text: string)
    requires IsOpen(parse, text)
    ensures Quiet(StreamedEvents(parse, text))
  {
    var lines, events := CompleteLines(text), StreamedEvents(parse, text);
    forall i | 0 <= i < |lines|
      ensures !Terminal(events[i])
    {
      assert lines[i] in lines;
      OpenLineIsQuiet(parse, lines[i]);
    }
  }

  lemma OpenLineIsQuiet(parse: Parser, line: string)
    requires KeepsOpen(parse, line)
    ensures !Terminal(TrimmedEvent(parse, line))
  {
    assert DATA_PREFIX == "data: ";
  }

  /** Behind open text a line adds the text of its event, and what follows counts if the line keeps the stream open. */
  lemma LineAdds(parse: Parser, text: string, line: string)
    requires IsOpen(parse, text) && '\n' !in line
    ensures var e := TrimmedEvent(parse, line);
            Transcript(parse, text + line + "\n") ==
            Front(Transcript(parse, text)) + Contents(EventTexts(e)) + [Stop, Done]
  {
    var events, e := StreamedEvents(parse, text), TrimmedEvent(parse, line);
    EventsAppended(parse, text, line);
    OpenIsQuiet(parse, text);
    StreamedTextsAppend(events, [e]);
    assert [e][1..] == [] && EventTexts(e) + [] == EventTexts(e);
    TranscriptOfTexts(StreamedTexts(events), EventTexts(e));
  }

  lemma TranscriptOfTexts(texts: seq<string>, more: seq<string>)
    ensures var frames := [Role] + Contents(texts) + [Stop, Done];
            [Role] + Contents(texts + more) + [Stop, Done] == Front(frames) + Contents(more) + [Stop, Done]
  {
    var frames := [Role] + Contents(texts) + [Stop, Done];
    assert Front(frames) == [Role] + Contents(texts);
    assert Contents(texts + more) == Contents(texts) + Contents(more);
  }

  lemma LineCollects(parse: Parser, text: string, line: string)
    requires Complete(text) && '\n' !in line
    ensures CollectedText(CollectedEvents(parse, text + line + "\n")) ==
            CollectedText(CollectedEvents(parse, text)) + CollectedDelta(RawEvent(parse, line))
  {
    EventsAppended(parse, text, line);
    CollectedTextAppend(CollectedEvents(parse, text), [RawEvent(parse, line)]);
    OneEvent(RawEvent(parse, line));
  }

  /** Behind a line that stops the stream nothing counts. */
  lemma NothingBehind(parse: Parser, text: string, line: string, more: string)
    requires Complete(text) && '\n' !in line && Terminal(TrimmedEvent(parse, line))
    ensures Transcript(parse, text + line + "\n" + more) == Transcript(parse, text + line + "\n")
  {
    EventsAppended(parse, text, line);
    var events := StreamedEvents(parse, text + line + "\n");
    assert Last(events) == TrimmedEvent(parse, line) && Last(events) in events;
    TextAfterTerminal(parse, text + line + "\n", more);
  }

  lemma DataEvent(parse: Parser, payload: string)
    requires Trim(payload) != ""
    ensures TrimmedEvent(parse, "data: " + payload) == parse(Trim(payload))
    ensures RawEvent(parse, "data: " + payload) == parse(payload)
  {
    assert DATA_PREFIX == "data: ";
    PayloadOf(payload);
  }

  /** Before the first line the stream shows a role, stop and the end marker, and nothing is collected. */
  lemma NothingYet(parse: Parser)
    ensures Transcript(parse, "") == [Role, Stop, Done] && CollectedText(CollectedEvents(parse, "")) == ""
    ensures IsOpen(parse, "")
  {
    assert SplitOn("", '\n') == [""] && CompleteLines("") == [];
    assert StreamedEvents(parse, "") == [] && CollectedEvents(parse, "") == [];
    assert Contents([]) == [];
  }

  /** A text delta that is no placeholder is shown as it is, and the stream stays open. */
  lemma DeltaIsStreamed(parse: Parser, text: string, payload: string, delta: string, errorText: Option<string>)
    requires IsOpen(parse, text) && '\n' !in payload && Trim(payload) != "" && delta != ""
    requires parse(Trim(payload)) == Event(TextDelta, false, Text(delta), errorText)
    ensures var next := text + ("data: " + payload) + "\n";
            && Transcript(parse, next) == Front(Transcript(parse, text)) + [Content(delta), Stop, Done]
            && IsOpen(parse, next)
  {
    DataDelta(parse, payload, delta);
    LineStreams(parse, text, "data: " + payload, delta);
  }

  lemma DataDelta(parse: Parser, payload: string, delta: string)
    requires Trim(payload) != "" && delta != ""
    requires var e := parse(Trim(payload)); e.Event? && e.kind.TextDelta? && !e.quickResponse && e.delta == Text(delta)
    ensures var line := "data: " + payload;
            KeepsOpen(parse, line) && EventTexts(TrimmedEvent(parse, line)) == [delta]
  {
    DataEvent(parse, payload);
    PayloadOf(payload);
  }

  lemma LineStreams(parse: Parser, text: string, line: string, delta: string)
    requires IsOpen(parse, text) && '\n' !in line
    requires KeepsOpen(parse, line) && EventTexts(TrimmedEvent(parse, line)) == [delta]
    ensures Transcript(parse, text + line + "\n") == Front(Transcript(parse, text)) + [Content(delta), Stop, Done]
    ensures IsOpen(parse, text + line + "\n")
  {
    LineAdds(parse, text, line);
    StaysOpen(parse, text, line);
    OneContent(delta);
  }

  lemma StaysOpen(parse: Parser, text: string, line: string)
    requires IsOpen(parse, text) && '\n' !in line && KeepsOpen(parse, line)
    ensures IsOpen(parse, text + line + "\n")
  {
    LineAppended(text, line);
  }

  /** What adds nothing to the stream and leaves it open: no data line, a blank one, or data of no interest. */
  predicate IsSilent(parse: Parser, line: string) {
    || !("data: " <= line)
    || Trim(line[6..]) == ""
    || var e := parse(Trim(line[6..]));
       || e.Invalid?
       || (e.Event? && (e.kind.TextEnd? || e.kind.OtherKind?))
       || (e.Event? && e.kind.TextDelta? && (e.quickResponse || !e.delta.Text? || e.delta.text == ""))
  }

  lemma SilentLineShowsNothing(parse: Parser, text: string, line: string)
    requires IsOpen(parse, text) && '\n' !in line && IsSilent(parse, line)
    ensures Transcript(parse, text + line + "\n") == Transcript(parse, text)
    ensures IsOpen(parse, text + line + "\n")
  {
    SilentAddsNothing(parse, line);
    LineAdds(parse, text, line);
    StaysOpen(parse, text, line);
    assert Transcript(parse, text) == Front(Transcript(parse, text)) + Contents([]) + [Stop, Done];
  }

  lemma SilentAddsNothing(parse: Parser, line: string)
    requires IsSilent(parse, line)
    ensures KeepsOpen(parse, line) && EventTexts(TrimmedEvent(parse, line)) == []
  {
    assert DATA_PREFIX == "data: ";
  }

  /** An error is shown with its text, or with a default one, and ends the stream whatever follows. */
  lemma ErrorIsShown(parse: Parser, text: string, payload: string, quick: bool, delta: Delta,
                     errorText: Option<string>, more: string)
    requires IsOpen(parse, text) && '\n' !in payload && Trim(payload) != ""
    requires parse(Trim(payload)) == Event(ErrorKind, quick, delta, errorText)
    ensures var shown := "\n\n[Erro: " + (if errorText.Some? then errorText.value else "Adapta upstream error") + "]";
            Transcript(parse, text + ("data: " + payload) + "\n" + more) ==
            Front(Transcript(parse, text)) + [Content(shown), Stop, Done]
  {
    DataEvent(parse, payload);
    ErrorTexts(parse(Trim(payload)));
    LastLineShows(parse, text, "data: " + payload, ErrorNotice(errorText), more);
  }

  lemma LastLineShows(parse: Parser, text: string, line: string, shown: string, more: string)
    requires IsOpen(parse, text) && '\n' !in line
    requires var e := TrimmedEvent(parse, line); Terminal(e) && EventTexts(e) == [shown]
    ensures Transcript(parse, text + line + "\n" + more) ==
            Front(Transcript(parse, text)) + [Content(shown), Stop, Done]
  {
    LineAdds(parse, text, line);
    NothingBehind(parse, text, line, more);
    OneContent(shown);
    assert [Content(shown)] + [Stop, Done] == [Content(shown), Stop, Done];
  }

  lemma ErrorTexts(e: Payload)
    requires e.Event? && e.kind.ErrorKind?
    ensures Terminal(e) && EventTexts(e) == [ErrorNotice(e.errorText)]
  {
  }

  lemma OneContent(text: string)
    ensures Contents([text]) == [Content(text)]
  {
  }

  /** A done or end event, or the value null, ends the stream whatever follows, and shows nothing itself. */
  lemma ClosingEventEndsStream(parse: Parser, text: string, payload: string, more: string)
    requires IsOpen(parse, text) && '\n' !in payload && Trim(payload) != ""
    requires var e := parse(Trim(payload)); e.Null? || (e.Event? && (e.kind.DoneKind? || e.kind.EndKind?))
    ensures Transcript(parse, text + ("data: " + payload) + "\n" + more) == Transcript(parse, text)
  {
    DataEvent(parse, payload);
    LineAdds(parse, text, "data: " + payload);
    NothingBehind(parse, text, "data: " + payload, more);
    assert Transcript(parse, text) == Front(Transcript(parse, text)) + Contents([]) + [Stop, Done];
  }

  /** The collector adds a text delta, printed if it is no string, unless it is missing or the placeholder's. */
  lemma LineIsCollected(parse: Parser, text: string, line: string)
    requires Complete(text) && '\n' !in line
    ensures var e := if "data: " <= line then parse(line[6..]) else Invalid;
            CollectedText(CollectedEvents(parse, text + line + "\n")) ==
            CollectedText(CollectedEvents(parse, text)) +
            match e
            case Event(TextDelta, false, Text(t), _) => t
            case Event(TextDelta, false, Printed(t), _) => t
            case _ => ""
  {
    assert DATA_PREFIX == "data: ";
    LineCollects(parse, text, line);
  }

  // ----- agreement of the two readers -----

  /** What JSON.parse promises: a payload that parses does so without its padding too, to the same value. */
  ghost predicate IgnoresPadding(parse: Parser) {
    forall p :: parse(p).Invalid? || (Trim(p) != "" && parse(Trim(p)) == parse(p))
  }

  /** The collector prints a delta that is no string, and not to the empty string; the transform drops it. */
  predicate OnlyCollected(parse: Parser, line: string) {
    var e := RawEvent(parse, line);
    e.Event? && e.kind.TextDelta? && !e.quickResponse && e.delta.Printed? && e.delta.text != ""
  }

  /** The payload parses only once trimmed, to a delta that is not empty; the collector skips the line. */
  predicate OnlyStreamed(parse: Parser, line: string) {
    RawEvent(parse, line).Invalid? && StreamedDelta(TrimmedEvent(parse, line)) != ""
  }

  /** Index of the first terminal event, or the number of events. */
  function FirstTerminal(events: seq<Payload>): (k: nat)
    ensures k <= |events|
    ensures k < |events| ==> Terminal(events[k])
    ensures forall j :: 0 <= j < k ==> !Terminal(events[j])
  {
    if events == [] || Terminal(events[0]) then 0 else 1 + FirstTerminal(events[1..])
  }

  /** What one line adds for either reader: the same, or nothing for the one that loses it. */
  lemma LineContributions(parse: Parser, line: string)
    requires IgnoresPadding(parse)
    ensures var s, c := StreamedDelta(TrimmedEvent(parse, line)), CollectedDelta(RawEvent(parse, line));
            && (Terminal(TrimmedEvent(parse, line)) ==> c == "")
            && (!Terminal(TrimmedEvent(parse, line)) ==>
                  if OnlyCollected(parse, line) then s == "" && c != ""
                  else if OnlyStreamed(parse, line) then s != "" && c == ""
                  else s == c)
  {
    SameEventUnlessInvalid(parse, line);
    EventContributions(TrimmedEvent(parse, line));
  }

  lemma SameEventUnlessInvalid(parse: Parser, line: string)
    requires IgnoresPadding(parse)
    ensures RawEvent(parse, line).Invalid? || TrimmedEvent(parse, line) == RawEvent(parse, line)
  {
    if StartsWith(line, DATA_PREFIX) {
      var payload := line[|DATA_PREFIX|..];
      assert parse(payload).Invalid? || (Trim(payload) != "" && parse(Trim(payload)) == parse(payload));
    }
  }

  lemma EventContributions(e: Payload)
    ensures Terminal(e) ==> CollectedDelta(e) == ""
    ensures e.Event? && e.kind.TextDelta? && !e.quickResponse && e.delta.Printed? ==> StreamedDelta(e) == ""
    ensures !Terminal(e) && !(e.Event? && e.kind.TextDelta? && !e.quickResponse && e.delta.Printed?) ==>
              StreamedDelta(e) == CollectedDelta(e)
  {
  }

  function StreamedDeltas(events: seq<Payload>): string {
    if events == [] then "" else StreamedDelta(events[0]) + StreamedDeltas(events[1..])
  }

  /** The streamed text is that of the deltas up to the first terminal event, and its notice. */
  lemma {:induction false} StreamedIsDeltas(events: seq<Payload>)
    ensures var k := FirstTerminal(events);
            Flatten(StreamedTexts(events)) ==
            StreamedDeltas(events[..k]) + if k < |events| then StreamedDelta(events[k]) else ""
  {
    if events != [] {
      var k := FirstTerminal(events);
      if Terminal(events[0]) {
        assert events[..0] == [];
        EventFlatten(events[0], []);
      } else {
        EventFlatten(events[0], StreamedTexts(events[1..]));
        StreamedIsDeltas(events[1..]);
        assert events[..k][1..] == events[1..][..k - 1];
        Assoc(StreamedDelta(events[0]), StreamedDeltas(events[1..][..k - 1]),
              if k < |events| then StreamedDelta(events[k]) else "");
      }
    }
  }

  lemma EventFlatten(e: Payload, tail: seq<string>)
    ensures Flatten(EventTexts(e) + tail) == StreamedDelta(e) + Flatten(tail)
  {
    if StreamedDelta(e) == "" {
      assert EventTexts(e) + tail == tail;
    } else {
      assert (EventTexts(e) + tail)[1..] == tail;
    }
  }

  lemma {:induction false} FrameTextOfContents(texts: seq<string>, rest: seq<Frame>)
    requires forall f :: f in rest ==> !f.Content?
    ensures FrameText(Contents(texts) + rest) == Flatten(texts)
  {
    if texts == [] {
      assert Contents(texts) + rest == rest;
      NoContentNoText(rest);
    } else {
      FrameTextOfContents(texts[1..], rest);
      assert (Contents(texts) + rest)[1..] == Contents(texts[1..]) + rest;
    }
  }

  lemma {:induction false} NoContentNoText(frames: seq<Frame>)
    requires forall f :: f in frames ==> !f.Content?
    ensures FrameText(frames) == ""
  {
    if frames != [] {
      NoContentNoText(frames[1..]);
    }
  }

  lemma TranscriptText(parse: Parser, text: string)
    ensures FrameText(Transcript(parse, text)) == Flatten(StreamedTexts(StreamedEvents(parse, text)))
  {
    FramesText(StreamedTexts(StreamedEvents(parse, text)));
  }

  lemma FramesText(texts: seq<string>)
    ensures FrameText([Role] + Contents(texts) + [Stop, Done]) == Flatten(texts)
  {
    FrameTextOfContents(texts, [Stop, Done]);
    var frames := [Role] + Contents(texts) + [Stop, Done];
    assert frames[1..] == Contents(texts) + [Stop, Done];
  }

  /**
   * Two texts built from as many pieces, where of two unlike pieces one is empty. When only one side
   * loses pieces, its text is the shorter, and equal exactly when it loses none.
   */
  lemma {:induction false} LossesShow(streamed: seq<Payload>, collected: seq<Payload>)
    requires |streamed| == |collected|
    ensures var s, c := StreamedDeltas(streamed), CollectedText(collected);
            && (NoneLost(streamed, collected) ==> s == c)
            && (NoneOnlyStreamed(streamed, collected) ==>
                  |s| <= |c| && (|s| == |c| ==> NoneLost(streamed, collected)))
            && (NoneOnlyCollected(streamed, collected) ==>
                  |c| <= |s| && (|s| == |c| ==> NoneLost(streamed, collected)))
  {
    if streamed != [] {
      LossesShow(streamed[1..], collected[1..]);
      LossesOfTail(streamed, collected);
    }
  }

  predicate NoneLost(streamed: seq<Payload>, collected: seq<Payload>)
    requires |streamed| == |collected|
  {
    forall i :: 0 <= i < |streamed| ==> StreamedDelta(streamed[i]) == CollectedDelta(collected[i])
  }

  predicate NoneOnlyStreamed(streamed: seq<Payload>, collected: seq<Payload>)
    requires |streamed| == |collected|
  {
    forall i :: 0 <= i < |streamed| ==>
      StreamedDelta(streamed[i]) == CollectedDelta(collected[i]) || StreamedDelta(streamed[i]) == ""
  }

  predicate NoneOnlyCollected(streamed: seq<Payload>, collected: seq<Payload>)
    requires |streamed| == |collected|
  {
    forall i :: 0 <= i < |streamed| ==>
      StreamedDelta(streamed[i]) == CollectedDelta(collected[i]) || CollectedDelta(collected[i]) == ""
  }

  lemma LossesOfTail(streamed: seq<Payload>, collected: seq<Payload>)
    requires |streamed| == |collected| > 0
    ensures var s, c := StreamedDelta(streamed[0]), CollectedDelta(collected[0]);
            && (NoneLost(streamed, collected) <==> s == c && NoneLost(streamed[1..], collected[1..]))
            && (NoneOnlyStreamed(streamed, collected) <==>
                (s == c || s == "") && NoneOnlyStreamed(streamed[1..], collected[1..]))
            && (NoneOnlyCollected(streamed, collected) <==>
                (s == c || c == "") && NoneOnlyCollected(streamed[1..], collected[1..]))
  {
    forall i | 0 < i < |streamed|
      ensures streamed[i] == streamed[1..][i - 1] && collected[i] == collected[1..][i - 1]
    {
    }
  }

  lemma CollectedAround(events: seq<Payload>, k: nat)
    requires k < |events| && CollectedDelta(events[k]) == ""
    ensures CollectedText(events) == CollectedText(events[..k]) + CollectedText(events[k + 1..])
  {
    assert events == events[..k] + events[k..];
    CollectedTextAppend(events[..k], events[k..]);
    assert events[k..][1..] == events[k + 1..];
    var after := CollectedText(events[k + 1..]);
    assert CollectedText(events[k..]) == after by {
      assert "" + after == after;
    }
  }

  /** The notice of the first terminal line, and what the collector reads behind that line. */
  function Notice(parse: Parser, text: string): string {
    var events := StreamedEvents(parse, text);
    var k := FirstTerminal(events);
    if k < |events| then StreamedDelta(events[k]) else ""
  }

  function Behind(parse: Parser, text: string): string {
    var k := FirstTerminal(StreamedEvents(parse, text));
    var events := CollectedEvents(parse, text);
    if k < |events| then CollectedText(events[k + 1..]) else ""
  }

  /** The lines before the first terminal one. */
  function Before(parse: Parser, text: string): seq<string> {
    CompleteLines(text)[..FirstTerminal(StreamedEvents(parse, text))]
  }

  predicate SomeOnlyCollected(parse: Parser, lines: seq<string>) {
    exists line :: line in lines && OnlyCollected(parse, line)
  }

  predicate SomeOnlyStreamed(parse: Parser, lines: seq<string>) {
    exists line :: line in lines && OnlyStreamed(parse, line)
  }

  /** Both texts are what the lines before the first terminal one give, and a remainder. */
  lemma TextsSplit(parse: Parser, text: string)
    requires IgnoresPadding(parse)
    ensures var k := FirstTerminal(StreamedEvents(parse, text));
            var s := StreamedDeltas(StreamedEvents(parse, text)[..k]);
            var c := CollectedText(CollectedEvents(parse, text)[..k]);
            && FrameText(Transcript(parse, text)) == s + Notice(parse, text)
            && CollectedText(CollectedEvents(parse, text)) == c + Behind(parse, text)
  {
    var streamed, collected := StreamedEvents(parse, text), CollectedEvents(parse, text);
    var k := FirstTerminal(streamed);
    TranscriptText(parse, text);
    StreamedIsDeltas(streamed);
    if k < |streamed| {
      LineContributions(parse, CompleteLines(text)[k]);
      CollectedAround(collected, k);
    } else {
      assert collected[..k] == collected;
      assert CollectedText(collected) + "" == CollectedText(collected);
    }
  }

  /** How the lost lines before the first terminal one show in the texts up to it. */
  lemma LossesBefore(parse: Parser, text: string)
    requires IgnoresPadding(parse)
    ensures var k := FirstTerminal(StreamedEvents(parse, text));
            var s := StreamedDeltas(StreamedEvents(parse, text)[..k]);
            var c := CollectedText(CollectedEvents(parse, text)[..k]);
            var onlyCollected := SomeOnlyCollected(parse, Before(parse, text));
            var onlyStreamed := SomeOnlyStreamed(parse, Before(parse, text));
            && (!onlyCollected && !onlyStreamed ==> s == c)
            && (!onlyStreamed && onlyCollected ==> |s| < |c|)
            && (!onlyCollected && onlyStreamed ==> |c| < |s|)
  {
    var k := FirstTerminal(StreamedEvents(parse, text));
    var streamed, collected := StreamedEvents(parse, text)[..k], CollectedEvents(parse, text)[..k];
    var lines := Before(parse, text);
    forall i | 0 <= i < k
      ensures Contributes(parse, lines[i], streamed[i], collected[i])
    {
      LineContributions(parse, lines[i]);
      assert !Terminal(StreamedEvents(parse, text)[i]);
    }
    LossesByLine(parse, lines, streamed, collected);
  }

  predicate Contributes(parse: Parser, line: string, streamed: Payload, collected: Payload) {
    var s, c := StreamedDelta(streamed), CollectedDelta(collected);
    if OnlyCollected(parse, line) then s == "" && c != ""
    else if OnlyStreamed(parse, line) then s != "" && c == "" else s == c
  }

  lemma LossesByLine(parse: Parser, lines: seq<string>, streamed: seq<Payload>, collected: seq<Payload>)
    requires |lines| == |streamed| == |collected|
    requires forall i :: 0 <= i < |lines| ==> Contributes(parse, lines[i], streamed[i], collected[i])
    ensures var s, c := StreamedDeltas(streamed), CollectedText(collected);
            var onlyCollected, onlyStreamed := SomeOnlyCollected(parse, lines), SomeOnlyStreamed(parse, lines);
            && (!onlyCollected && !onlyStreamed ==> s == c)
            && (!onlyStreamed && onlyCollected ==> |s| < |c|)
            && (!onlyCollected && onlyStreamed ==> |c| < |s|)
  {
    LossesShow(streamed, collected);
    assert forall i :: 0 <= i < |lines| ==> lines[i] in lines;
  }

  /**
   * When the streamed and the collected text of a feed agree. Without a line that only one reader counts
   * before the first terminal line: exactly when that line's notice is what the collector reads behind it.
   * With such lines on one side only, and nothing on that side's remainder to make up for them: never.
   */
  lemma ReadersAgreeExactly(parse: Parser, text: string)
    requires IgnoresPadding(parse)
    ensures var onlyCollected := SomeOnlyCollected(parse, Before(parse, text));
            var onlyStreamed := SomeOnlyStreamed(parse, Before(parse, text));
            var agree := FrameText(Transcript(parse, text)) == CollectedText(CollectedEvents(parse, text));
            && (!onlyCollected && !onlyStreamed ==> (agree <==> Notice(parse, text) == Behind(parse, text)))
            && (!onlyStreamed && Notice(parse, text) == "" ==>
                  (agree <==> !onlyCollected && Behind(parse, text) == ""))
            && (!onlyCollected && Behind(parse, text) == "" ==>
                  (agree <==> !onlyStreamed && Notice(parse, text) == ""))
  {
    TextsSplit(parse, text);
    LossesBefore(parse, text);
    var k := FirstTerminal(StreamedEvents(parse, text));
    PrefixCancels(StreamedDeltas(StreamedEvents(parse, text)[..k]), Notice(parse, text), Behind(parse, text));
  }

  /**
   * Whatever the feed, the texts agree exactly when what the readers make of it from the first line that
   * only one of them counts, or the first terminal one, agrees.
   */
  lemma ReadersAgreeFromFirstDifference(parse: Parser, text: string, j: nat)
    requires IgnoresPadding(parse) && j <= FirstTerminal(StreamedEvents(parse, text))
    requires !SomeOnlyCollected(parse, CompleteLines(text)[..j]) && !SomeOnlyStreamed(parse, CompleteLines(text)[..j])
    ensures FrameText(Transcript(parse, text)) == CollectedText(CollectedEvents(parse, text)) <==>
            Flatten(StreamedTexts(StreamedEvents(parse, text)[j..])) == CollectedText(CollectedEvents(parse, text)[j..])
  {
    var streamed, collected := StreamedEvents(parse, text), CollectedEvents(parse, text);
    TranscriptText(parse, text);
    AlikeUpTo(parse, text, j);
    StreamedPrefix(streamed, j);
    CollectedPrefix(collected, j);
    PrefixCancels(StreamedDeltas(streamed[..j]), Flatten(StreamedTexts(streamed[j..])), CollectedText(collected[j..]));
  }

  lemma AlikeUpTo(parse: Parser, text: string, j: nat)
    requires IgnoresPadding(parse) && j <= FirstTerminal(StreamedEvents(parse, text))
    requires !SomeOnlyCollected(parse, CompleteLines(text)[..j]) && !SomeOnlyStreamed(parse, CompleteLines(text)[..j])
    ensures StreamedDeltas(StreamedEvents(parse, text)[..j]) == CollectedText(CollectedEvents(parse, text)[..j])
  {
    var streamed, collected := StreamedEvents(parse, text)[..j], CollectedEvents(parse, text)[..j];
    var lines := CompleteLines(text)[..j];
    forall i | 0 <= i < j
      ensures Contributes(parse, lines[i], streamed[i], collected[i])
    {
      LineContributions(parse, lines[i]);
      assert !Terminal(StreamedEvents(parse, text)[i]);
    }
    LossesByLine(parse, lines, streamed, collected);
  }

  lemma CollectedPrefix(events: seq<Payload>, j: nat)
    requires j <= |events|
    ensures CollectedText(events) == CollectedText(events[..j]) + CollectedText(events[j..])
  {
    assert events == events[..j] + events[j..];
    CollectedTextAppend(events[..j], events[j..]);
  }

  lemma {:induction false} StreamedPrefix(events: seq<Payload>, j: nat)
    requires j <= FirstTerminal(events)
    ensures Flatten(StreamedTexts(events)) == StreamedDeltas(events[..j]) + Flatten(StreamedTexts(events[j..]))
  {
    if j == 0 {
      assert events[0..] == events && events[..0] == [];
      assert "" + Flatten(StreamedTexts(events)) == Flatten(StreamedTexts(events));
    } else {
      StreamedPrefix(events[1..], j - 1);
      StreamedFirst(events, j);
      assert events[1..][j - 1..] == events[j..];
      Assoc(StreamedDelta(events[0]), StreamedDeltas(events[1..][..j - 1]), Flatten(StreamedTexts(events[j..])));
    }
  }

  lemma StreamedFirst(events: seq<Payload>, j: nat)
    requires 0 < j <= |events| && !Terminal(events[0])
    ensures Flatten(StreamedTexts(events)) == StreamedDelta(events[0]) + Flatten(StreamedTexts(events[1..]))
    ensures StreamedDeltas(events[..j]) == StreamedDelta(events[0]) + StreamedDeltas(events[1..][..j - 1])
  {
    EventFlatten(events[0], StreamedTexts(events[1..]));
    assert events[..j][1..] == events[1..][..j - 1];
  }

  lemma PrefixCancels(a: string, x: string, y: string)
    ensures a + x == a + y <==> x == y
  {
    assert (a + x)[|a|..] == x;
    assert (a + y)[|a|..] == y;
  }

  /**
   * On a feed without terminal line: if no padded line hides a delta, the texts are equal exactly when
   * every printed delta is empty, and if no printed delta counts, exactly when no padded line hides one.
   */
  lemma QuietReadersAgreeExactly(parse: Parser, text: string)
    requires IgnoresPadding(parse) && Quiet(StreamedEvents(parse, text))
    ensures var lines := CompleteLines(text);
            var agree := FrameText(Transcript(parse, text)) == CollectedText(CollectedEvents(parse, text));
            && (!SomeOnlyStreamed(parse, lines) ==> (agree <==> !SomeOnlyCollected(parse, lines)))
            && (!SomeOnlyCollected(parse, lines) ==> (agree <==> !SomeOnlyStreamed(parse, lines)))
  {
    var events := StreamedEvents(parse, text);
    NoTerminal(events);
    assert Before(parse, text) == CompleteLines(text);
    ReadersAgreeExactly(parse, text);
  }

  lemma {:induction false} NoTerminal(events: seq<Payload>)
    requires Quiet(events)
    ensures FirstTerminal(events) == |events|
  {
    if events != [] {
      assert events[0] in events;
      NoTerminal(events[1..]);
    }
  }

  /** However the same text is cut for either reader, without such lines both give the same text. */
  lemma ReadersAgreeAcrossCuts(parse: Parser, streamed: seq<string>, collected: seq<string>)
    requires IgnoresPadding(parse) && Flatten(streamed) == Flatten(collected)
    requires Quiet(StreamedEvents(parse, Flatten(streamed)))
    requires !SomeOnlyCollected(parse, CompleteLines(Flatten(streamed)))
    requires !SomeOnlyStreamed(parse, CompleteLines(Flatten(streamed)))
    ensures FrameText(Transcript(parse, Flatten(streamed))) ==
            CollectedText(CollectedEvents(parse, Flatten(collected)))
  {
    QuietReadersAgreeExactly(parse, Flatten(streamed));
  }

  /** A delta behind the end event reaches the collector alone. */
  lemma TextBehindEndDisagrees(parse: Parser, end: string, payload: string, delta: string)
    requires payload != "" && Trimmed(payload) && '\n' !in payload && delta != ""
    requires end != "" && Trimmed(end) && '\n' !in end
    requires parse(end) == Event(EndKind, false, NoDelta, None)
    requires parse(payload) == Event(TextDelta, false, Text(delta), None)
    ensures var text := DataLine(end) + DataLine(payload);
            && FrameText(Transcript(parse, text)) == ""
            && CollectedText(CollectedEvents(parse, text)) == delta
  {
    var text := DataLine(end) + DataLine(payload);
    TrimOfTrimmed(end);
    TrimOfTrimmed(payload);
    var first, second := parse(end), parse(payload);
    EventsOfTwoLines(parse, end, payload);
    TranscriptText(parse, text);
    assert [first, second][1..] == [second] && [second][1..] == [];
    assert StreamedTexts([first, second]) == [];
    assert CollectedText([second]) == delta;
  }

  /**
   * With a loss on one side and a remainder on the other the texts can still be equal by accident: a printed
   * delta that reads like the notice of the error behind it.
   */
  lemma LossAndNoticeMayCancel(parse: Parser, payload: string, error: string, message: string)
    requires payload != "" && Trimmed(payload) && '\n' !in payload
    requires error != "" && Trimmed(error) && '\n' !in error
    requires parse(payload) == Event(TextDelta, false, Printed(ErrorNotice(Some(message))), None)
    requires parse(error) == Event(ErrorKind, false, NoDelta, Some(message))
    ensures var text := DataLine(payload) + DataLine(error);
            && OnlyCollected(parse, DATA_PREFIX + payload)
            && FrameText(Transcript(parse, text)) == CollectedText(CollectedEvents(parse, text))
  {
    var text := DataLine(payload) + DataLine(error);
    TrimOfTrimmed(payload);
    TrimOfTrimmed(error);
    PayloadOf(payload);
    EventsOfTwoLines(parse, payload, error);
    TranscriptText(parse, text);
    PrintedThenError(ErrorNotice(Some(message)), parse(payload), parse(error));
  }

  /** So can losses on both sides: a delta that one reader drops and another that the other one hides. */
  lemma LossesOnBothSidesMayCancel(parse: Parser, printed: string, hidden: string, delta: string)
    requires printed != "" && Trimmed(printed) && '\n' !in printed
    requires '\n' !in hidden && Trim(hidden) != "" && delta != ""
    requires parse(printed) == Event(TextDelta, false, Printed(delta), None)
    requires parse(hidden) == Invalid && parse(Trim(hidden)) == Event(TextDelta, false, Text(delta), None)
    ensures var text := DataLine(printed) + DataLine(hidden);
            && OnlyCollected(parse, DATA_PREFIX + printed) && OnlyStreamed(parse, DATA_PREFIX + hidden)
            && FrameText(Transcript(parse, text)) == delta == CollectedText(CollectedEvents(parse, text))
  {
    var text := DataLine(printed) + DataLine(hidden);
    TrimOfTrimmed(printed);
    LostLines(parse, printed, hidden);
    EventsOfTwoLines(parse, printed, hidden);
    SecondShownFirstCollected(parse, text, parse(printed), parse(Trim(hidden)));
  }

  lemma LostLines(parse: Parser, printed: string, hidden: string)
    requires parse(printed).Event? && CollectedDelta(parse(printed)) != "" && parse(printed).delta.Printed?
    requires Trim(hidden) != "" && parse(hidden).Invalid? && StreamedDelta(parse(Trim(hidden))) != ""
    ensures OnlyCollected(parse, DATA_PREFIX + printed) && OnlyStreamed(parse, DATA_PREFIX + hidden)
  {
    PayloadOf(printed);
    PayloadOf(hidden);
  }

  lemma SecondShownFirstCollected(parse: Parser, text: string, first: Payload, second: Payload)
    requires StreamedEvents(parse, text) == [first, second] && CollectedEvents(parse, text) == [first, Invalid]
    requires StreamedDelta(first) == "" && !Terminal(first)
    ensures FrameText(Transcript(parse, text)) == StreamedDelta(second)
    ensures CollectedText(CollectedEvents(parse, text)) == CollectedDelta(first)
  {
    TranscriptText(parse, text);
    OneShown(first, second);
    OnlyFirstCollected(first);
  }

  lemma OnlyFirstCollected(first: Payload)
    ensures CollectedText([first, Invalid]) == CollectedDelta(first)
  {
    assert [first, Invalid][1..] == [Invalid];
    OneEvent(Invalid);
  }

  lemma OneShown(dropped: Payload, shown: Payload)
    requires StreamedDelta(dropped) == "" && !Terminal(dropped)
    ensures Flatten(StreamedTexts([dropped, shown])) == StreamedDelta(shown)
  {
    assert [dropped, shown][1..] == [shown];
    assert [] + StreamedTexts([shown]) == StreamedTexts([shown]);
    OneEvent(shown);
  }

  lemma PrintedThenError(notice: string, printed: Payload, error: Payload)
    requires notice != "" && printed == Event(TextDelta, false, Printed(notice), None)
    requires error.Event? && error.kind.ErrorKind? && ErrorNotice(error.errorText) == notice
    ensures Flatten(StreamedTexts([printed, error])) == notice == CollectedText([printed, error])
  {
    assert [printed, error][1..] == [error];
    assert StreamedTexts([printed, error]) == [] + StreamedTexts([error]);
    assert [] + StreamedTexts([error]) == StreamedTexts([error]);
    OneEvent(error);
    assert CollectedText([error]) == "" && notice + "" == notice;
  }

  lemma PayloadOf(payload: string)
    ensures StartsWith(DATA_PREFIX + payload, DATA_PREFIX)
    ensures (DATA_PREFIX + payload)[|DATA_PREFIX|..] == payload
  {
  }

  lemma EventsOfTwoLines(parse: Parser, a: string, b: string)
    requires '\n' !in a && '\n' !in b && Trim(a) != "" && Trim(b) != ""
    ensures StreamedEvents(parse, DataLine(a) + DataLine(b)) == [parse(Trim(a)), parse(Trim(b))]
    ensures CollectedEvents(parse, DataLine(a) + DataLine(b)) == [parse(a), parse(b)]
  {
    TwoLines(a, b);
    PayloadOf(a);
    PayloadOf(b);
  }

  lemma TwoLines(a: string, b: string)
    requires '\n' !in a && '\n' !in b
    ensures CompleteLines(DataLine(a) + DataLine(b)) == [DATA_PREFIX + a, DATA_PREFIX + b]
  {
    var x, y := DATA_PREFIX + a, DATA_PREFIX + b;
    SplitAtSeparator(x, DataLine(b), '\n');
    SplitAtSeparator(y, "", '\n');
    assert x + ['\n'] + DataLine(b) == DataLine(a) + DataLine(b);
    assert y + ['\n'] + "" == DataLine(b);
    assert SplitOn("", '\n') == [""];
  }

  /** A delta that is no string is printed by the collector and dropped by the transform. */
  lemma PrintedDeltaDisagrees(parse: Parser, payload: string, printed: string)
    requires payload != "" && Trimmed(payload) && '\n' !in payload && printed != ""
    requires parse(payload) == Event(TextDelta, false, Printed(printed), None)
    ensures var text := DataLine(payload);
            && FrameText(Transcript(parse, text)) == ""
            && CollectedText(CollectedEvents(parse, text)) == printed
  {
    TrimOfTrimmed(payload);
    ReadDataLine(parse, payload);
  }

  /** Padding that trim removes and the JSON grammar does not allow hides a delta from the collector. */
  lemma PaddedPayloadDisagrees(parse: Parser, padding: char, payload: string, delta: string)
    requires payload != "" && Trimmed(payload) && '\n' !in payload && IsSpace(padding) && padding != '\n'
    requires delta != ""
    requires parse(payload) == Event(TextDelta, false, Text(delta), None)
    requires parse([padding] + payload) == Invalid
    ensures var text := DataLine([padding] + payload);
            && FrameText(Transcript(parse, text)) == delta
            && CollectedText(CollectedEvents(parse, text)) == ""
  {
    TrimOfTrimmed(payload);
    assert ([padding] + payload)[1..] == payload;
    assert Trim([padding] + payload) == payload;
    ReadDataLine(parse, [padding] + payload);
  }

  function DataLine(payload: string): string {
    DATA_PREFIX + payload + "\n"
  }

  lemma ReadDataLine(parse: Parser, payload: string)
    requires '\n' !in payload && Trim(payload) != ""
    ensures FrameText(Transcript(parse, DataLine(payload))) == StreamedDelta(parse(Trim(payload)))
    ensures CollectedText(CollectedEvents(parse, DataLine(payload))) == CollectedDelta(parse(payload))
  {
    var line := DATA_PREFIX + payload;
    SplitAtSeparator(line, "", '\n');
    assert line + ['\n'] + "" == DataLine(payload);
    assert CompleteLines(DataLine(payload)) == [line];
    assert line[|DATA_PREFIX|..] == payload;
    TranscriptText(parse, DataLine(payload));
    assert StreamedEvents(parse, DataLine(payload)) == [parse(Trim(payload))];
    assert CollectedEvents(parse, DataLine(payload)) == [parse(payload)];
    OneEvent(parse(Trim(payload)));
    OneEvent(parse(payload));
  }

  lemma OneEvent(event: Payload)
    ensures Flatten(StreamedTexts([event])) == StreamedDelta(event)
    ensures CollectedText([event]) == CollectedDelta(event)
  {
    assert [event][1..] == [];
    assert EventTexts(event) + [] == EventTexts(event);
    EventFlatten(event, []);
  }
}
