/** The server-sent-events line parser of the realtime transport. */
module SseParser {
  import opened PyText
  import StableSort

  /** A dispatched event: its type and its data lines joined by line feeds. */
  datatype Event = Event(eventType: string, text: string)

  /** What decoding an event's text as JSON gives: a failure, a value that is no object, or an object. */
  datatype Decoded = Malformed | Other | Object

  const MESSAGE := "message"

  /** The parser's buffers, and what it has dispatched so far. */
  datatype Parser = Parser(eventType: string, data: seq<string>, out: seq<Event>)

  function Fresh(): Parser { Parser(MESSAGE, [], []) }

  function OrMessage(s: string): string { if s == "" then MESSAGE else s }

  function Feed(p: Parser, line: string): Parser
  {
    if StartsWith(line, "event:") then p.(eventType := OrMessage(Strip(line[6..])))
    else if StartsWith(line, "data:") then p.(data := p.data + [LStrip(line[5..])])
    else if line == "" && p.data != [] then
      Parser(MESSAGE, [], p.out + [Event(p.eventType, JoinWith(p.data, "\n"))])
    else p
  }

  function FeedAll(p: Parser, lines: seq<string>): Parser
  {
    if lines == [] then p else Feed(FeedAll(p, lines[..|lines| - 1]), lines[|lines| - 1])
  }

  /** What reaches the subscriber: the events that decode to objects, up to the first that does not decode. */
  datatype Delivery = Delivery(published: seq<Event>, raised: bool)

  function Deliver(events: seq<Event>, decode: string -> Decoded): Delivery
  {
    if events == [] then Delivery([], false)
    else
      var before := Deliver(events[..|events| - 1], decode);
      var e := events[|events| - 1];
      if before.raised then before
      else match decode(e.text)
        case Malformed => Delivery(before.published, true)
        case Other => before
        case Object => Delivery(before.published + [e], false)
  }

  /**
   * The loop over the lines of the response. A text that does not decode ends it with an exception;
   * the outcome is the delivery of the events that the framing alone dispatches.
   */
  method Parse(lines: seq<string>, decode: string -> Decoded) returns (published: seq<Event>, raised: bool)
    ensures Delivery(published, raised) == Deliver(FeedAll(Fresh(), lines).out, decode)
  {
    var eventType, data := MESSAGE, [];
    published, raised := [], false;
    ghost var out: seq<Event> := [];
    for i := 0 to |lines|
      invariant Parser(eventType, data, out) == FeedAll(Fresh(), lines[..i])
      invariant Delivery(published, false) == Deliver(out, decode)
    {
      var line := lines[i];
      FeedNext(lines, i);
      if StartsWith(line, "event:") {
        eventType := OrMessage(Strip(line[6..]));
      } else if StartsWith(line, "data:") {
        data := data + [LStrip(line[5..])];
      } else if line == "" && data != [] {
        var e := Event(eventType, JoinWith(data, "\n"));
        DeliverNext(out, e, decode);
        out := out + [e];
        match decode(e.text) {
          case Malformed =>
            ghost var rest := lines[i + 1..];
            assert lines == lines[..i + 1] + rest;
            RaisedIsFinal(FeedAll(Fresh(), lines[..i + 1]), rest, decode);
            FeedAllConcat(Fresh(), lines[..i + 1], rest);
            return published, true;
          case Other =>
          case Object =>
            published := published + [e];
        }
        eventType, data := MESSAGE, [];
      }
    }
    assert lines[..|lines|] == lines;
  }

  lemma FeedNext(lines: seq<string>, i: nat)
    requires i < |lines|
    ensures FeedAll(Fresh(), lines[..i + 1]) == Feed(FeedAll(Fresh(), lines[..i]), lines[i])
  {
    assert lines[..i + 1][..i] == lines[..i];
  }

  lemma DeliverNext(events: seq<Event>, e: Event, decode: string -> Decoded)
    requires !Deliver(events, decode).raised
    ensures var before := Deliver(events, decode).published;
            Deliver(events + [e], decode) ==
            match decode(e.text)
            case Malformed => Delivery(before, true)
            case Other => Delivery(before, false)
            case Object => Delivery(before + [e], false)
  {
    assert (events + [e])[..|events|] == events;
  }

  lemma {:induction false} FeedAllConcat(p: Parser, a: seq<string>, b: seq<string>)
    ensures FeedAll(p, a + b) == FeedAll(FeedAll(p, a), b)
  {
    if b == [] {
      assert a + b == a;
    } else {
      FeedAllConcat(p, a, b[..|b| - 1]);
      assert (a + b)[..|a + b| - 1] == a + b[..|b| - 1];
    }
  }

  /** Once a delivery has raised, more dispatched events change nothing. */
  lemma {:induction false} RaisedIsFinal(p: Parser, lines: seq<string>, decode: string -> Decoded)
    requires Deliver(p.out, decode).raised
    ensures Deliver(FeedAll(p, lines).out, decode) == Deliver(p.out, decode)
  {
    if lines != [] {
      var before := FeedAll(p, lines[..|lines| - 1]);
      RaisedIsFinal(p, lines[..|lines| - 1], decode);
      var after := FeedAll(p, lines);
      if after.out != before.out {
        assert after.out[..|after.out| - 1] == before.out;
      }
    }
  }

  function IsObject(decode: string -> Decoded): Event -> bool { (e: Event) => decode(e.text).Object? }

  /**
   * What is delivered: up to the first event that does not decode, the ones that are objects, each
   * once and in order; and an exception exactly when there is such a first event.
   */
  lemma {:induction false} DeliverIs(events: seq<Event>, decode: string -> Decoded, n: nat)
    requires n <= |events| && (n < |events| ==> decode(events[n].text).Malformed?)
    requires forall i :: 0 <= i < n ==> !decode(events[i].text).Malformed?
    ensures Deliver(events, decode) == Delivery(StableSort.Filter(IsObject(decode), events[..n]), n < |events|)
  {
    if events != [] {
      var init, last := events[..|events| - 1], events[|events| - 1];
      if n < |events| {
        DeliverIs(init, decode, n);
        assert init[..n] == events[..n];
      } else {
        DeliverIs(init, decode, |init|);
        assert init[..|init|] == init && events[..n] == init + [last];
        StableSort.FilterConcat(IsObject(decode), init, [last]);
        StableSort.SingletonFilter(IsObject(decode), last);
      }
    }
  }

  // ---------------------------------------------------------------- round trip of printed frames

  datatype Frame = Frame(eventType: string, lines: seq<string>)

  function DataLines(lines: seq<string>): seq<string>
  {
    if lines == [] then [] else DataLines(lines[..|lines| - 1]) + ["data: " + lines[|lines| - 1]]
  }

  function PrintFrame(f: Frame): seq<string> { ["event: " + f.eventType] + DataLines(f.lines) + [""] }

  function PrintAll(frames: seq<Frame>): seq<string>
  {
    if frames == [] then [] else PrintAll(frames[..|frames| - 1]) + PrintFrame(frames[|frames| - 1])
  }

  function EventOf(f: Frame): Event { Event(f.eventType, JoinWith(f.lines, "\n")) }

  function EventsOf(frames: seq<Frame>): seq<Event>
  {
    if frames == [] then [] else EventsOf(frames[..|frames| - 1]) + [EventOf(frames[|frames| - 1])]
  }

  predicate Unindented(s: string) { s == "" || !IsSpace(s[0]) }

  predicate Printable(f: Frame)
  {
    && f.eventType != "" && Trimmed(f.eventType)
    && f.lines != [] && AllUnindented(f.lines)
  }

  predicate AllUnindented(lines: seq<string>) { forall i :: 0 <= i < |lines| ==> Unindented(lines[i]) }

  lemma AllSnoc(lines: seq<string>)
    requires lines != []
    ensures AllUnindented(lines) <==> AllUnindented(lines[..|lines| - 1]) && Unindented(lines[|lines| - 1])
  {
    var init, last := lines[..|lines| - 1], lines[|lines| - 1];
    assert lines == init + [last];
    assert forall i :: 0 <= i < |init| ==> init[i] == lines[i];
  }

  function Unindent(lines: seq<string>): seq<string>
  {
    if lines == [] then [] else Unindent(lines[..|lines| - 1]) + [LStrip(lines[|lines| - 1])]
  }

  lemma SpaceThenStrip(s: string)
    ensures LStrip(" " + s) == LStrip(s) && Strip(" " + s) == Strip(s)
  {
    assert (" " + s)[1..] == s;
  }

  lemma FeedDataLine(p: Parser, s: string)
    ensures Feed(p, "data: " + s) == p.(data := p.data + [LStrip(s)])
  {
    var line := "data: " + s;
    assert line[..5] == "data:" && line[0] == 'd' && line[5..] == " " + s;
    SpaceThenStrip(s);
  }

  lemma {:induction false} FeedData(p: Parser, lines: seq<string>)
    ensures FeedAll(p, DataLines(lines)) == p.(data := p.data + Unindent(lines))
  {
    if lines != [] {
      var init, last := lines[..|lines| - 1], lines[|lines| - 1];
      FeedData(p, init);
      var d := DataLines(lines);
      assert d[..|d| - 1] == DataLines(init);
      FeedDataLine(p.(data := p.data + Unindent(init)), last);
      assert p.data + Unindent(init) + [LStrip(last)] == p.data + Unindent(lines);
    } else {
      assert p.data + Unindent(lines) == p.data;
    }
  }

  /** A printed frame, whatever it holds, dispatches its stripped type and unindented lines, and nothing when it has no lines. */
  lemma FeedFrame(p: Parser, f: Frame)
    requires p.data == []
    ensures FeedAll(p, PrintFrame(f)) ==
            var t := OrMessage(Strip(f.eventType));
            if f.lines == [] then p.(eventType := t)
            else Parser(MESSAGE, [], p.out + [Event(t, JoinWith(Unindent(f.lines), "\n"))])
  {
    var line := "event: " + f.eventType;
    var d := DataLines(f.lines);
    assert PrintFrame(f)[..|PrintFrame(f)| - 1] == [line] + d;
    FeedAllConcat(p, [line], d);
    FeedEventLine(p, f.eventType);
    var q := p.(eventType := OrMessage(Strip(f.eventType)));
    FeedData(q, f.lines);
    UnindentFacts(f.lines);
    assert [] + Unindent(f.lines) == Unindent(f.lines);
  }

  lemma FeedEventLine(p: Parser, eventType: string)
    ensures FeedAll(p, ["event: " + eventType]) == p.(eventType := OrMessage(Strip(eventType)))
  {
    var line := "event: " + eventType;
    assert line[..6] == "event:" && line[6..] == " " + eventType;
    SpaceThenStrip(eventType);
    assert [line][..0] == [];
  }

  function TotalLength(lines: seq<string>): nat
  {
    if lines == [] then 0 else TotalLength(lines[..|lines| - 1]) + |lines[|lines| - 1]|
  }

  lemma {:induction false} UnindentLength(lines: seq<string>)
    ensures |Unindent(lines)| == |lines|
    ensures TotalLength(Unindent(lines)) <= TotalLength(lines)
    ensures !AllUnindented(lines) ==> TotalLength(Unindent(lines)) < TotalLength(lines)
  {
    if lines != [] {
      var init, last := lines[..|lines| - 1], lines[|lines| - 1];
      UnindentLength(init);
      AllSnoc(lines);
      UnindentLast(last);
      assert Unindent(lines)[..|lines| - 1] == Unindent(init);
    }
  }

  lemma {:induction false} UnindentSame(lines: seq<string>)
    requires AllUnindented(lines)
    ensures Unindent(lines) == lines
  {
    if lines != [] {
      var init, last := lines[..|lines| - 1], lines[|lines| - 1];
      AllSnoc(lines);
      UnindentSame(init);
      UnindentLast(last);
      assert lines == init + [last];
    }
  }

  /** Unindenting keeps lines that have no indentation, and makes the text shorter otherwise. */
  lemma UnindentFacts(lines: seq<string>)
    ensures |Unindent(lines)| == |lines|
    ensures AllUnindented(lines) ==> Unindent(lines) == lines
    ensures !AllUnindented(lines) ==> TotalLength(Unindent(lines)) < TotalLength(lines)
  {
    UnindentLength(lines);
    if AllUnindented(lines) { UnindentSame(lines); }
  }

  lemma UnindentLast(s: string)
    ensures if Unindented(s) then LStrip(s) == s else |LStrip(s)| < |s|
  {
    if s != "" {
      LStripFacts(s[1..]);
    }
  }

  lemma {:induction false} JoinLength(lines: seq<string>)
    requires lines != []
    ensures |JoinWith(lines, "\n")| == TotalLength(lines) + |lines| - 1
  {
    if |lines| == 1 {
      assert lines[..0] == [];
    } else {
      JoinLength(lines[1..]);
      TotalFront(lines);
    }
  }

  lemma {:induction false} TotalFront(lines: seq<string>)
    requires lines != []
    ensures TotalLength(lines) == |lines[0]| + TotalLength(lines[1..])
  {
    if |lines| > 1 {
      var init := lines[..|lines| - 1];
      TotalFront(init);
      assert lines[1..][..|lines| - 2] == init[1..];
    } else {
      assert lines[..0] == [];
    }
  }

  lemma TypeKept(t: string)
    ensures OrMessage(Strip(t)) == t <==> t != "" && Trimmed(t)
  {
    StripFacts(t);
    StripFacts(MESSAGE);
    assert Trimmed(MESSAGE) && MESSAGE != "";
  }

  lemma LinesKept(lines: seq<string>)
    requires lines != []
    ensures JoinWith(Unindent(lines), "\n") == JoinWith(lines, "\n") <==> AllUnindented(lines)
  {
    UnindentFacts(lines);
    JoinLength(lines);
    JoinLength(Unindent(lines));
  }

  /** A single frame comes back exactly when its type is trimmed and non-empty and its lines are some and unindented. */
  lemma FrameRoundTripIff(f: Frame)
    ensures FeedAll(Fresh(), PrintFrame(f)).out == [EventOf(f)] <==> Printable(f)
  {
    FeedFrame(Fresh(), f);
    TypeKept(f.eventType);
    if f.lines != [] {
      LinesKept(f.lines);
      var e := Event(OrMessage(Strip(f.eventType)), JoinWith(Unindent(f.lines), "\n"));
      assert [] + [e] == [e];
      assert [e] == [EventOf(f)] <==> e == EventOf(f) by {
        assert [e][0] == e && [EventOf(f)][0] == EventOf(f);
      }
    }
  }

  /** Any sequence of printable frames parses back to their events, in order. */
  lemma {:induction false} RoundTrip(frames: seq<Frame>)
    requires forall i :: 0 <= i < |frames| ==> Printable(frames[i])
    ensures FeedAll(Fresh(), PrintAll(frames)) == Parser(MESSAGE, [], EventsOf(frames))
  {
    if frames != [] {
      var init, last := frames[..|frames| - 1], frames[|frames| - 1];
      RoundTrip(init);
      FeedAllConcat(Fresh(), PrintAll(init), PrintFrame(last));
      FeedFrame(Parser(MESSAGE, [], EventsOf(init)), last);
      UnindentFacts(last.lines);
      TypeKept(last.eventType);
    }
  }

  /** The event's text gives the frame's lines back when none of them holds a line feed. */
  lemma LinesRecovered(f: Frame)
    requires HasLines(f)
    ensures Split(EventOf(f).text, '\n') == f.lines
  {
    SplitJoin(f.lines, '\n');
  }

  function FrameOf(e: Event): Frame { Frame(e.eventType, Split(e.text, '\n')) }

  function FramesOf(events: seq<Event>): seq<Frame>
  {
    if events == [] then [] else FramesOf(events[..|events| - 1]) + [FrameOf(events[|events| - 1])]
  }

  /** Lines of text: none holds a line feed. */
  predicate HasLines(f: Frame) { f.lines != [] && forall i :: 0 <= i < |f.lines| ==> '\n' !in f.lines[i] }

  lemma FramesSnoc(events: seq<Event>, e: Event)
    ensures FramesOf(events + [e]) == FramesOf(events) + [FrameOf(e)]
  {
    assert (events + [e])[..|events|] == events;
  }

  lemma FrameRecovered(f: Frame)
    requires HasLines(f)
    ensures FrameOf(EventOf(f)) == f
  {
    LinesRecovered(f);
  }

  lemma {:induction false} FramesOfEvents(frames: seq<Frame>)
    requires forall i :: 0 <= i < |frames| ==> HasLines(frames[i])
    ensures FramesOf(EventsOf(frames)) == frames
  {
    if frames != [] {
      var init, last := frames[..|frames| - 1], frames[|frames| - 1];
      FramesOfEvents(init);
      FramesSnoc(EventsOf(init), EventOf(last));
      FrameRecovered(last);
      assert frames == init + [last];
    }
  }

  /** Printing frames and parsing them gives the frames themselves back. */
  lemma FramesRoundTrip(frames: seq<Frame>)
    requires forall i :: 0 <= i < |frames| ==> Printable(frames[i]) && HasLines(frames[i])
    ensures FramesOf(FeedAll(Fresh(), PrintAll(frames)).out) == frames
  {
    RoundTrip(frames);
    FramesOfEvents(frames);
  }
}
