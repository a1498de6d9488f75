/**
 * The event stream interpretation of section 9.2.6 of the WHATWG HTML Standard, and where the
 * transport's own parser keeps step with it.
 */
module SseStandard {
  import opened PyText
  import opened SseParser

  /** The standard's data and event type buffers, and the events fired. */
  datatype Machine = Machine(typeBuffer: string, dataBuffer: string, fired: seq<Event>)

  function Idle(): Machine { Machine("", "", []) }

  /** The index of the first colon, or the length of the line. */
  function FirstColon(s: string): (k: nat)
    ensures k <= |s|
  {
    if s == "" || s[0] == ':' then 0 else 1 + FirstColon(s[1..])
  }

  lemma {:induction false} ColonAt(s: string, k: nat)
    requires k <= |s| && ':' !in s[..k] && (k < |s| ==> s[k] == ':')
    ensures FirstColon(s) == k
  {
    if k > 0 {
      assert s[0] == s[..k][0];
      assert forall c :: c in s[1..][..k - 1] ==> c in s[..k];
      ColonAt(s[1..], k - 1);
    }
  }

  lemma {:induction false} FirstColonIsColon(s: string)
    ensures FirstColon(s) < |s| ==> s[FirstColon(s)] == ':'
  {
    if s != "" && s[0] != ':' {
      FirstColonIsColon(s[1..]);
    }
  }

  /** A value loses one leading space, if it has one. */
  function Unspace(s: string): string { if s != "" && s[0] == ' ' then s[1..] else s }

  function ProcessField(m: Machine, field: string, value: string): Machine
  {
    if field == "event" then m.(typeBuffer := value)
    else if field == "data" then m.(dataBuffer := m.dataBuffer + value + "\n")
    else m // `id`, `retry` and unknown fields touch neither buffer
  }

  function Dispatch(m: Machine): Machine
  {
    if m.dataBuffer == "" then m.(typeBuffer := "")
    else
      var n := |m.dataBuffer| - 1;
      var text := if m.dataBuffer[n] == '\n' then m.dataBuffer[..n] else m.dataBuffer;
      Machine("", "", m.fired + [Event(OrMessage(m.typeBuffer), text)])
  }

  function Process(m: Machine, line: string): Machine
  {
    var k := FirstColon(line);
    if line == "" then Dispatch(m)
    else if line[0] == ':' then m
    else if k < |line| then ProcessField(m, line[..k], Unspace(line[k + 1..]))
    else ProcessField(m, line, "")
  }

  function ProcessAll(m: Machine, lines: seq<string>): Machine
  {
    if lines == [] then m else Process(ProcessAll(m, lines[..|lines| - 1]), lines[|lines| - 1])
  }

  // ---------------------------------------------------------------- lockstep

  /** Every line followed by a line feed: the standard's data buffer. */
  function Terminated(lines: seq<string>): string
  {
    if lines == [] then "" else Terminated(lines[..|lines| - 1]) + lines[|lines| - 1] + "\n"
  }

  predicate Related(p: Parser, m: Machine)
  {
    p.out == m.fired && p.eventType == OrMessage(m.typeBuffer) && Terminated(p.data) == m.dataBuffer
  }

  /** What the parser, in its current state, needs of a line to treat it as the standard does. */
  predicate InStep(p: Parser, line: string)
  {
    if StartsWith(line, "event:") then OrMessage(Strip(line[6..])) == OrMessage(Unspace(line[6..]))
    else if StartsWith(line, "data:") then LStrip(line[5..]) == Unspace(line[5..])
    else if line == "event" || (line == "" && p.data == []) then p.eventType == MESSAGE
    else line != "data"
  }

  /** Every line is in step at its place. */
  predicate Conforming(p: Parser, lines: seq<string>)
  {
    lines == [] || (var init := lines[..|lines| - 1]; Conforming(p, init) && InStep(FeedAll(p, init), lines[|lines| - 1]))
  }

  lemma {:induction false} TerminatedFront(lines: seq<string>)
    requires lines != []
    ensures Terminated(lines) == lines[0] + "\n" + Terminated(lines[1..])
  {
    if |lines| == 1 {
      assert lines[..0] == [] && lines[1..] == [];
      assert "" + lines[0] + "\n" == lines[0] + "\n" + "";
    } else {
      var init, last := lines[..|lines| - 1], lines[|lines| - 1];
      TerminatedFront(init);
      assert lines[1..][..|lines| - 2] == init[1..];
      assert lines[0] + "\n" + Terminated(init[1..]) + last + "\n" == lines[0] + "\n" + (Terminated(init[1..]) + last + "\n");
    }
  }

  lemma {:induction false} TerminatedIsJoin(lines: seq<string>)
    requires lines != []
    ensures Terminated(lines) == JoinWith(lines, "\n") + "\n"
  {
    TerminatedFront(lines);
    if |lines| == 1 {
      assert lines[1..] == [];
      assert lines[0] + "\n" + "" == lines[0] + "\n";
    } else {
      TerminatedIsJoin(lines[1..]);
      var rest := JoinWith(lines[1..], "\n");
      assert lines[0] + "\n" + (rest + "\n") == lines[0] + "\n" + rest + "\n";
    }
  }

  /** A line that is a field name, alone or before a colon, has that name as its field. */
  lemma NameIsField(line: string, name: string)
    requires ':' !in name && (line == name || name + ":" <= line)
    ensures FirstColon(line) == |name| && line[..|name|] == name
    ensures name + ":" <= line ==> |name| < |line|
  {
    assert line != name ==> line[|name|] == (name + ":")[|name|];
    assert line[..|name|] == name;
    ColonAt(line, |name|);
  }

  /** The standard's field is `name` exactly when the line is that name, alone or before a colon. */
  lemma FieldIs(line: string, name: string)
    requires ':' !in name
    ensures line[..FirstColon(line)] == name <==> line == name || name + ":" <= line
    ensures name + ":" <= line ==> FirstColon(line) == |name| < |line|
    ensures line == name ==> FirstColon(line) == |line|
  {
    if line == name || name + ":" <= line {
      NameIsField(line, name);
    }
    FieldThenColon(line);
  }

  lemma FieldThenColon(line: string)
    ensures var f := line[..FirstColon(line)]; line == f || f + ":" <= line
  {
    FirstColonIsColon(line);
    var k := FirstColon(line);
    if k == |line| {
      assert line[..k] == line;
    } else {
      assert line[..k + 1] == line[..k] + ":";
    }
  }

  /** The two field names, by the parser's own prefixes. */
  lemma ProcessByPrefix(m: Machine, line: string)
    ensures Process(m, line) ==
      if StartsWith(line, "event:") then m.(typeBuffer := Unspace(line[6..]))
      else if StartsWith(line, "data:") then m.(dataBuffer := m.dataBuffer + Unspace(line[5..]) + "\n")
      else if line == "" then Dispatch(m)
      else if line == "event" then m.(typeBuffer := "")
      else if line == "data" then m.(dataBuffer := m.dataBuffer + "" + "\n")
      else m
  {
    FieldIs(line, "event");
    FieldIs(line, "data");
    assert "event" + ":" == "event:" && "data" + ":" == "data:";
    assert line[..|line|] == line;
  }

  /** From related states, one line keeps them related exactly when it is in step. */
  lemma DriftIff(p: Parser, m: Machine, line: string)
    requires Related(p, m)
    ensures Related(Feed(p, line), Process(m, line)) <==> InStep(p, line)
  {
    ProcessByPrefix(m, line);
    if StartsWith(line, "event:") {
    } else if StartsWith(line, "data:") {
      DataDrift(p.data, LStrip(line[5..]), Unspace(line[5..]));
    } else if line == "" {
      BlankDrift(p, m);
    } else if line == "data" {
      assert |m.dataBuffer + "" + "\n"| == |m.dataBuffer| + 1;
    }
  }

  lemma DataDrift(data: seq<string>, a: string, b: string)
    ensures Terminated(data + [a]) == Terminated(data) + b + "\n" <==> a == b
  {
    assert (data + [a])[..|data|] == data;
    var x, y := Terminated(data) + a + "\n", Terminated(data) + b + "\n";
    if x == y {
      var n := |Terminated(data)|;
      assert a == x[n..|x| - 1] && b == y[n..|y| - 1];
    }
  }

  lemma BlankDrift(p: Parser, m: Machine)
    requires Related(p, m)
    ensures Related(Feed(p, ""), Dispatch(m)) <==> p.data != [] || p.eventType == MESSAGE
  {
    if p.data != [] {
      TerminatedIsJoin(p.data);
      var text := JoinWith(p.data, "\n");
      assert m.dataBuffer == text + "\n";
      assert m.dataBuffer[|m.dataBuffer| - 1] == '\n' && m.dataBuffer[..|m.dataBuffer| - 1] == text;
    }
  }

  predicate RelatedAfter(lines: seq<string>, k: nat)
    requires k <= |lines|
  {
    Related(FeedAll(Fresh(), lines[..k]), ProcessAll(Idle(), lines[..k]))
  }

  predicate Lockstep(lines: seq<string>) { forall k :: 0 <= k <= |lines| ==> RelatedAfter(lines, k) }

  lemma LockstepSnoc(lines: seq<string>)
    requires lines != []
    ensures Lockstep(lines) <==> Lockstep(lines[..|lines| - 1]) && RelatedAfter(lines, |lines|)
  {
    var n := |lines| - 1;
    var init := lines[..n];
    forall k | 0 <= k <= n
      ensures RelatedAfter(init, k) <==> RelatedAfter(lines, k)
    {
      SamePrefix(lines, n, k);
    }
    if Lockstep(init) && RelatedAfter(lines, |lines|) {
      forall k | 0 <= k <= |lines| ensures RelatedAfter(lines, k) {
        if k <= n { assert RelatedAfter(init, k); }
      }
    }
  }

  lemma SamePrefix(lines: seq<string>, n: nat, k: nat)
    requires k <= n <= |lines|
    ensures RelatedAfter(lines[..n], k) <==> RelatedAfter(lines, k)
  {
    assert lines[..n][..k] == lines[..k];
  }

  /** The parser is in the standard's state after every prefix of a stream exactly when every line is in step. */
  lemma {:induction false} LockstepIff(lines: seq<string>)
    ensures Conforming(Fresh(), lines) <==> Lockstep(lines)
  {
    assert lines[..|lines|] == lines;
    if lines != [] {
      var n := |lines| - 1;
      var init := lines[..n];
      LockstepIff(init);
      LockstepSnoc(lines);
      if Lockstep(init) {
        assert RelatedAfter(init, n) && init[..n] == init;
        DriftIff(FeedAll(Fresh(), init), ProcessAll(Idle(), init), lines[n]);
      }
    }
  }

  /** On a conforming stream the subscriber receives what the standard's events would deliver. */
  lemma ConformingAgrees(lines: seq<string>, decode: string -> Decoded)
    requires Conforming(Fresh(), lines)
    ensures FeedAll(Fresh(), lines).out == ProcessAll(Idle(), lines).fired
    ensures Deliver(FeedAll(Fresh(), lines).out, decode) == Deliver(ProcessAll(Idle(), lines).fired, decode)
  {
    LockstepIff(lines);
    assert RelatedAfter(lines, |lines|);
    assert lines[..|lines|] == lines;
  }

  // ---------------------------------------------------------------- what a subscriber can observe

  /** Every continuation that stays in step dispatches the same events from both states. */
  ghost predicate ObservablyEqual(p: Parser, m: Machine)
  {
    forall lines :: Conforming(p, lines) ==> FeedAll(p, lines).out == ProcessAll(m, lines).fired
  }

  lemma {:induction false} RelatedStays(p: Parser, m: Machine, lines: seq<string>)
    requires Related(p, m) && Conforming(p, lines)
    ensures Related(FeedAll(p, lines), ProcessAll(m, lines))
  {
    if lines != [] {
      var init := lines[..|lines| - 1];
      RelatedStays(p, m, init);
      DriftIff(FeedAll(p, init), ProcessAll(m, init), lines[|lines| - 1]);
    }
  }

  /** A probe: one more data line and the blank line after it. */
  function Probe(): seq<string> { ["data: " + "x", ""] }

  lemma ProbeFeeds(p: Parser)
    ensures FeedAll(p, Probe()) == Parser(MESSAGE, [], p.out + [Event(p.eventType, JoinWith(p.data + ["x"], "\n"))])
    ensures Conforming(p, Probe())
  {
    var line := "data: " + "x";
    var one := [line];
    assert Probe()[..1] == one && one[..0] == [];
    FeedDataLine(p, "x");
    assert LStrip("x") == "x";
    DataInStep(p, "x");
    assert FeedAll(p, one) == p.(data := p.data + ["x"]);
    assert Conforming(p, one) by { assert Conforming(p, []); }
  }

  lemma ProcessDataLine(m: Machine, s: string)
    ensures Process(m, "data: " + s) == m.(dataBuffer := m.dataBuffer + s + "\n")
  {
    var line := "data: " + s;
    assert line[..5] == "data:" && line[0] == 'd' && line[5..] == " " + s && (" " + s)[1..] == s;
    ProcessByPrefix(m, line);
  }

  lemma DispatchText(m: Machine, text: string)
    requires m.dataBuffer == text + "\n"
    ensures Dispatch(m).fired == m.fired + [Event(OrMessage(m.typeBuffer), text)]
  {
    assert m.dataBuffer[|text|] == '\n' && m.dataBuffer[..|text|] == text;
  }

  lemma ProbeProcesses(m: Machine)
    ensures ProcessAll(m, Probe()).fired == m.fired + [Event(OrMessage(m.typeBuffer), m.dataBuffer + "x")]
  {
    var line := "data: " + "x";
    var one := [line];
    assert Probe()[..1] == one && one[..0] == [];
    ProcessDataLine(m, "x");
    DispatchText(m.(dataBuffer := m.dataBuffer + "x" + "\n"), m.dataBuffer + "x");
    assert ProcessAll(m, one) == Process(m, line);
  }

  lemma JoinIsTerminated(data: seq<string>, x: string)
    ensures JoinWith(data + [x], "\n") == Terminated(data) + x
  {
    var all := data + [x];
    assert all[..|data|] == data;
    TerminatedIsJoin(all);
    var j, t := JoinWith(all, "\n"), Terminated(data) + x;
    assert j + "\n" == t + "\n";
    assert (j + "\n")[..|j|] == j && (t + "\n")[..|t|] == t;
  }

  /** The relation is exactly what a subscriber can tell: states are related if and only if no continuation in step tells them apart. */
  lemma RelatedIffObservablyEqual(p: Parser, m: Machine)
    ensures Related(p, m) <==> ObservablyEqual(p, m)
  {
    if Related(p, m) {
      forall lines | Conforming(p, lines) ensures FeedAll(p, lines).out == ProcessAll(m, lines).fired {
        RelatedStays(p, m, lines);
      }
    }
    if ObservablyEqual(p, m) {
      assert Conforming(p, []);
      assert p.out == FeedAll(p, []).out == ProcessAll(m, []).fired == m.fired;
      ProbeFeeds(p);
      ProbeProcesses(m);
      JoinIsTerminated(p.data, "x");
      var e, f := Event(p.eventType, Terminated(p.data) + "x"), Event(OrMessage(m.typeBuffer), m.dataBuffer + "x");
      assert p.out + [e] == m.fired + [f];
      assert (p.out + [e])[|p.out|] == e && (m.fired + [f])[|m.fired|] == f;
      assert (Terminated(p.data) + "x")[..|Terminated(p.data)|] == Terminated(p.data);
      assert (m.dataBuffer + "x")[..|m.dataBuffer|] == m.dataBuffer;
    }
  }

  // ---------------------------------------------------------------- printed frames conform

  lemma {:induction false} ConformingConcat(p: Parser, a: seq<string>, b: seq<string>)
    ensures Conforming(p, a + b) <==> Conforming(p, a) && Conforming(FeedAll(p, a), b)
  {
    if b == [] {
      assert a + b == a;
    } else {
      var init := b[..|b| - 1];
      ConformingConcat(p, a, init);
      FeedAllConcat(p, a, init);
      assert (a + b)[..|a + b| - 1] == a + init;
    }
  }

  lemma DataInStep(p: Parser, s: string)
    requires Unindented(s)
    ensures InStep(p, "data: " + s)
  {
    var line := "data: " + s;
    assert line[..5] == "data:" && line[0] == 'd' && line[5..] == " " + s && (" " + s)[1..] == s;
    SpaceThenStrip(s);
    UnindentLast(s);
  }

  lemma EventInStep(p: Parser, t: string)
    requires t != "" && Trimmed(t)
    ensures InStep(p, "event: " + t)
  {
    var line := "event: " + t;
    assert line[..6] == "event:" && line[6..] == " " + t && (" " + t)[1..] == t;
    SpaceThenStrip(t);
    TypeKept(t);
  }

  lemma {:induction false} DataConforms(p: Parser, lines: seq<string>)
    requires AllUnindented(lines)
    ensures Conforming(p, DataLines(lines))
  {
    if lines != [] {
      var init := lines[..|lines| - 1];
      AllSnoc(lines);
      DataConforms(p, init);
      DataInStep(FeedAll(p, DataLines(init)), lines[|lines| - 1]);
      assert DataLines(lines)[..|DataLines(lines)| - 1] == DataLines(init);
    }
  }

  lemma FrameConforms(p: Parser, f: Frame)
    requires Printable(f) && p.data == []
    ensures Conforming(p, PrintFrame(f))
  {
    var line := "event: " + f.eventType;
    var d := DataLines(f.lines);
    EventInStep(p, f.eventType);
    assert [line][..0] == [];
    assert Conforming(p, []);
    assert Conforming(p, [line]);
    var q := FeedAll(p, [line]);
    DataConforms(q, f.lines);
    ConformingConcat(p, [line], d);
    FeedAllConcat(p, [line], d);
    FeedData(q, f.lines);
    UnindentFacts(f.lines);
    assert FeedAll(p, [line] + d).data != [] by {
      FeedEventLine(p, f.eventType);
    }
    assert PrintFrame(f)[..|PrintFrame(f)| - 1] == [line] + d;
  }

  /** So the standard, too, reads printed frames back. */
  lemma {:induction false} StandardRoundTrip(frames: seq<Frame>)
    requires forall i :: 0 <= i < |frames| ==> Printable(frames[i])
    ensures Conforming(Fresh(), PrintAll(frames))
    ensures ProcessAll(Idle(), PrintAll(frames)).fired == EventsOf(frames)
  {
    PrintedConforms(frames);
    LockstepIff(PrintAll(frames));
    var lines := PrintAll(frames);
    assert RelatedAfter(lines, |lines|) && lines[..|lines|] == lines;
    RoundTrip(frames);
  }

  lemma {:induction false} PrintedConforms(frames: seq<Frame>)
    requires forall i :: 0 <= i < |frames| ==> Printable(frames[i])
    ensures Conforming(Fresh(), PrintAll(frames))
  {
    if frames != [] {
      var init, last := frames[..|frames| - 1], frames[|frames| - 1];
      PrintedConforms(init);
      RoundTrip(init);
      FrameConforms(FeedAll(Fresh(), PrintAll(init)), last);
      ConformingConcat(Fresh(), PrintAll(init), PrintFrame(last));
    }
  }

  // ---------------------------------------------------------------- a condition on the lines alone

  predicate IsEventLine(line: string) { StartsWith(line, "event:") }

  predicate IsDataLine(line: string) { StartsWith(line, "data:") }

  /** No bare field name, and a value that is clean after at most one leading space. */
  predicate TidyLine(line: string)
  {
    && line != "event" && line != "data"
    && (IsEventLine(line) ==> Trimmed(Unspace(line[6..])))
    && (IsDataLine(line) ==> Unindented(Unspace(line[5..])))
  }

  predicate HasDataBetween(lines: seq<string>, i: nat, j: nat)
    requires j <= |lines|
  {
    exists k :: i < k < j && IsDataLine(lines[k])
  }

  /** Between an event line and the next blank line there is data. */
  predicate EventsHaveData(lines: seq<string>)
  {
    forall i, j :: 0 <= i < j < |lines| && IsEventLine(lines[i]) && lines[j] == "" ==> HasDataBetween(lines, i, j)
  }

  predicate AllTidy(lines: seq<string>) { forall i :: 0 <= i < |lines| ==> TidyLine(lines[i]) }

  lemma TidyValue(v: string)
    ensures Trimmed(Unspace(v)) ==> Strip(v) == Unspace(v)
    ensures Unindented(Unspace(v)) ==> LStrip(v) == Unspace(v)
  {
    StripFacts(Unspace(v));
    UnindentLast(Unspace(v));
    if v != "" && v[0] == ' ' { assert v == " " + v[1..]; SpaceThenStrip(v[1..]); }
  }

  /** Line `i` set a type for which no data has arrived since. */
  predicate Waiting(lines: seq<string>, i: nat)
    requires i < |lines|
  {
    IsEventLine(lines[i]) && forall k :: i < k < |lines| ==> !IsDataLine(lines[k])
  }

  /** A pending type without data comes from an event line that is still waiting for some. */
  lemma {:induction false} PendingIsWaiting(lines: seq<string>) returns (i: nat)
    requires FeedAll(Fresh(), lines).eventType != MESSAGE && FeedAll(Fresh(), lines).data == []
    ensures i < |lines| && Waiting(lines, i)
  {
    var n := |lines| - 1;
    var init, last := lines[..n], lines[n];
    if IsEventLine(last) {
      i := n;
    } else {
      i := PendingIsWaiting(init);
      assert forall k :: 0 <= k < n ==> init[k] == lines[k];
    }
  }

  lemma PrefixIsTidy(lines: seq<string>)
    requires lines != [] && AllTidy(lines) && EventsHaveData(lines)
    ensures AllTidy(lines[..|lines| - 1]) && EventsHaveData(lines[..|lines| - 1])
  {
    var init := lines[..|lines| - 1];
    forall i, j | 0 <= i < j < |init| && IsEventLine(init[i]) && init[j] == "" ensures HasDataBetween(init, i, j) {
      assert HasDataBetween(lines, i, j);
      var k :| i < k < j && IsDataLine(lines[k]);
      assert IsDataLine(init[k]);
    }
  }

  /** Tidy lines with data after every event line conform, so the parser does on them what the standard prescribes. */
  lemma {:induction false} TidyConforms(lines: seq<string>)
    requires AllTidy(lines) && EventsHaveData(lines)
    ensures Conforming(Fresh(), lines)
  {
    if lines != [] {
      var n := |lines| - 1;
      var init, last := lines[..n], lines[n];
      PrefixIsTidy(lines);
      TidyConforms(init);
      assert TidyLine(last);
      if IsEventLine(last) {
        TidyValue(last[6..]);
      } else if IsDataLine(last) {
        TidyValue(last[5..]);
      } else if last == "" {
        BlankIsInStep(lines);
      }
    }
  }

  lemma WaitingHasNoData(lines: seq<string>, n: nat, i: nat)
    requires i < n <= |lines| && Waiting(lines[..n], i)
    ensures IsEventLine(lines[i]) && !HasDataBetween(lines, i, n)
  {
    assert forall k :: i <= k < n ==> lines[k] == lines[..n][k];
  }

  lemma BlankIsInStep(lines: seq<string>)
    requires lines != [] && lines[|lines| - 1] == "" && EventsHaveData(lines)
    ensures InStep(FeedAll(Fresh(), lines[..|lines| - 1]), "")
  {
    var n := |lines| - 1;
    var init := lines[..n];
    var p := FeedAll(Fresh(), init);
    if p.data == [] && p.eventType != MESSAGE {
      var i := PendingIsWaiting(init);
      WaitingHasNoData(lines, n, i);
    }
  }

  // ---------------------------------------------------------------- where they part

  lemma {:induction false} ProcessAllConcat(m: Machine, a: seq<string>, b: seq<string>)
    ensures ProcessAll(m, a + b) == ProcessAll(ProcessAll(m, a), b)
  {
    if b == [] {
      assert a + b == a;
    } else {
      ProcessAllConcat(m, a, b[..|b| - 1]);
      assert (a + b)[..|a + b| - 1] == a + b[..|b| - 1];
    }
  }

  /** The standard forgets a type for which no data came before the blank line. */
  lemma ProcessTypeOnly(t: string)
    ensures ProcessAll(Idle(), ["event: " + t, ""]) == Idle()
  {
    var line := "event: " + t;
    var lines := [line, ""];
    assert lines[..1] == [line] && [line][..0] == [];
    ProcessByPrefix(Idle(), line);
    assert line[..6] == "event:";
    assert ProcessAll(Idle(), [line]).dataBuffer == "";
  }

  lemma DataFrame(p: Parser, lines: seq<string>)
    requires p.data == [] && lines != [] && AllUnindented(lines)
    ensures FeedAll(p, DataLines(lines) + [""]) == Parser(MESSAGE, [], p.out + [Event(p.eventType, JoinWith(lines, "\n"))])
    ensures Conforming(p, DataLines(lines) + [""])
  {
    var d := DataLines(lines);
    assert (d + [""])[..|d|] == d;
    FeedData(p, lines);
    UnindentFacts(lines);
    assert [] + lines == lines;
    DataConforms(p, lines);
  }

  /** After a frame with a type but no data, the next untyped frame gets that stale type; by the standard it is a message. */
  lemma StaleType(t: string, lines: seq<string>)
    requires t != "" && Trimmed(t) && t != MESSAGE && lines != [] && AllUnindented(lines)
    ensures var stream := PrintFrame(Frame(t, [])) + (DataLines(lines) + [""]);
            && FeedAll(Fresh(), stream).out == [Event(t, JoinWith(lines, "\n"))]
            && ProcessAll(Idle(), stream).fired == [Event(MESSAGE, JoinWith(lines, "\n"))]
            && !Conforming(Fresh(), stream)
  {
    var first, second := PrintFrame(Frame(t, [])), DataLines(lines) + [""];
    assert first == ["event: " + t, ""] by {
      assert DataLines([]) == [];
    }
    TypeKept(t);
    FeedFrame(Fresh(), Frame(t, []));
    var p := Fresh().(eventType := t);
    FeedAllConcat(Fresh(), first, second);
    DataFrame(p, lines);
    var e, e' := Event(t, JoinWith(lines, "\n")), Event(MESSAGE, JoinWith(lines, "\n"));
    assert [] + [e] == [e] && [] + [e'] == [e'] && [e][0] != [e'][0];
    DataFrame(Fresh(), lines);
    ConformingAgrees(second, (text: string) => Object);
    ProcessTypeOnly(t);
    ProcessAllConcat(Idle(), first, second);
    if Conforming(Fresh(), first + second) {
      ConformingAgrees(first + second, (text: string) => Object);
    }
  }
}
