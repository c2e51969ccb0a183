/** The server-sent-event readers: lines put together again from arbitrary chunks. */
module EventStreams {
  import opened Wrappers

  datatype Event = Event(kind: string, body: string)

  /** What the server has to report: an event from its queue, or fifteen seconds without one. */
  datatype Signal = Report(event: Event) | Silence

  datatype Server = Server(dumps: Event -> string, last: Event -> bool)

  /** A read loop: the line prefix it looks for, how it parses what follows, where it returns. */
  datatype Client = Client(prefix: string, parse: string -> Option<Event>, last: Event -> bool)

  // ---- lines ----

  /** Where the first newline is, or the length of the text. */
  function NewlineAt(text: string): (k: nat)
    ensures k <= |text| && (k < |text| ==> text[k] == '\n') && '\n' !in text[..k]
  {
    if text == [] || text[0] == '\n' then 0 else 1 + NewlineAt(text[1..])
  }

  /** The newline-terminated lines of a text, without their newlines. */
  function Lines(text: string): seq<string>
    decreases |text|
  {
    var k := NewlineAt(text);
    if k == |text| then [] else [text[..k]] + Lines(text[k + 1..])
  }

  /** What follows the last newline. */
  function Tail(text: string): string
    decreases |text|
  {
    var k := NewlineAt(text);
    if k == |text| then text else Tail(text[k + 1..])
  }

  function Join(chunks: seq<string>): string {
    if chunks == [] then "" else Join(chunks[..|chunks| - 1]) + chunks[|chunks| - 1]
  }

  lemma {:induction false} FirstLine(line: string, rest: string)
    requires '\n' !in line
    ensures NewlineAt(line + "\n" + rest) == |line|
    ensures Lines(line + "\n" + rest) == [line] + Lines(rest) && Tail(line + "\n" + rest) == Tail(rest)
    ensures Lines(line) == [] && Tail(line) == line
  {
    var text := line + "\n" + rest;
    assert text[|line|] == '\n';
    assert text[..|line|] == line && text[|line| + 1..] == rest;
  }

  lemma LinesStep(text: string)
    requires NewlineAt(text) < |text|
    ensures var k := NewlineAt(text);
            Lines(text) == [text[..k]] + Lines(text[k + 1..]) && Tail(text) == Tail(text[k + 1..])
  {
    hide NewlineAt;
  }

  lemma LastPart(text: string)
    requires NewlineAt(text) == |text|
    ensures Lines(text) == [] && Tail(text) == text
  {
    hide NewlineAt;
  }

  lemma NewlineOfJoin(a: string, b: string)
    requires NewlineAt(a) < |a|
    ensures var k := NewlineAt(a);
            NewlineAt(a + b) == k && (a + b)[..k] == a[..k] && (a + b)[k + 1..] == a[k + 1..] + b
  {
    hide NewlineAt;
    var k := NewlineAt(a);
    assert (a + b)[k] == '\n' && (a + b)[..k] == a[..k];
  }

  lemma Regroup(line: string, x: seq<string>, y: seq<string>)
    ensures [line] + (x + y) == [line] + x + y
  {
  }

  /** Splitting is the same wherever the text is cut. */
  lemma {:induction false} LinesOfJoin(a: string, b: string)
    ensures Lines(a + b) == Lines(a) + Lines(Tail(a) + b)
    ensures Tail(a + b) == Tail(Tail(a) + b)
    decreases |a|
  {
    hide Lines, Tail, NewlineAt;
    var k := NewlineAt(a);
    if k == |a| {
      LastPart(a);
    } else {
      var line, rest := a[..k], a[k + 1..];
      LinesStep(a);
      NewlineOfJoin(a, b);
      LinesStep(a + b);
      LinesOfJoin(rest, b);
      Regroup(line, Lines(rest), Lines(Tail(rest) + b));
    }
  }

  // ---- reading ----

  function Handle(client: Client, line: string): Option<Event> {
    if client.prefix <= line then client.parse(line[|client.prefix|..]) else None
  }

  /** The events the lines decode to; other lines and malformed ones are skipped. */
  function Decoded(client: Client, lines: seq<string>): seq<Event> {
    if lines == [] then []
    else
      var n := |lines| - 1;
      Decoded(client, lines[..n]) + if Handle(client, lines[n]).Some? then [Handle(client, lines[n]).value] else []
  }

  /** A sequence of events through the first that is the last one wanted. */
  function Through(last: Event -> bool, events: seq<Event>): seq<Event> {
    if events == [] then [] else if last(events[0]) then [events[0]] else [events[0]] + Through(last, events[1..])
  }

  ghost predicate NoLast(last: Event -> bool, events: seq<Event>) {
    forall i | 0 <= i < |events| :: !last(events[i])
  }

  lemma {:induction false} DecodedOfJoin(client: Client, a: seq<string>, b: seq<string>)
    ensures Decoded(client, a + b) == Decoded(client, a) + Decoded(client, b)
  {
    if b == [] {
      assert a + b == a;
    } else {
      var n := |b| - 1;
      DecodedOfJoin(client, a, b[..n]);
      assert (a + b)[..|a + b| - 1] == a + b[..n];
    }
  }

  lemma {:induction false} ThroughStops(last: Event -> bool, before: seq<Event>, event: Event, rest: seq<Event>)
    requires NoLast(last, before)
    ensures Through(last, before) == before
    ensures last(event) ==> Through(last, before + [event] + rest) == before + [event]
  {
    if before != [] {
      ThroughStops(last, before[1..], event, rest);
      assert (before + [event] + rest)[1..] == before[1..] + [event] + rest;
    }
  }

  /** The read loop: however the text is cut into chunks, it yields the events of the whole lines. */
  method ReadEvents(client: Client, chunks: seq<string>) returns (yielded: seq<Event>)
    ensures yielded == Through(client.last, Decoded(client, Lines(Join(chunks))))
  {
    hide Lines, Tail, Decoded, Handle, Join, Through;
    NothingRead(client);
    yielded := [];
    var buffer := "";
    assert chunks[..0] == [];
    for c := 0 to |chunks|
      invariant buffer == Tail(Join(chunks[..c]))
      invariant yielded == Decoded(client, Lines(Join(chunks[..c])))
      invariant NoLast(client.last, yielded)
    {
      ghost var before := Join(chunks[..c]);
      JoinStep(chunks, c);
      LinesOfJoin(before, chunks[c]);
      buffer := buffer + chunks[c];
      var lines := Lines(buffer);
      buffer := Tail(buffer);
      assert Lines(before) + lines[..0] == Lines(before);
      for i := 0 to |lines|
        invariant yielded == Decoded(client, Lines(before) + lines[..i])
        invariant NoLast(client.last, yielded)
      {
        assert Lines(before) + lines[..i + 1] == Lines(before) + lines[..i] + [lines[i]];
        DecodedStep(client, Lines(before) + lines[..i], lines[i]);
        var event := Handle(client, lines[i]);
        if event.Some? {
          ghost var done := yielded;
          yielded := yielded + [event.value];
          if client.last(event.value) {
            ReadSoFar(client, chunks, c, lines, i, done, event.value);
            return;
          }
        }
      }
      assert lines[..|lines|] == lines;
    }
    ThroughStops(client.last, yielded, Event("", ""), []);
    assert chunks[..|chunks|] == chunks;
  }

  lemma NothingRead(client: Client)
    ensures Join([]) == "" && Tail("") == "" && Lines("") == [] && Decoded(client, []) == []
  {
  }

  lemma JoinStep(chunks: seq<string>, c: nat)
    requires c < |chunks|
    ensures Join(chunks[..c + 1]) == Join(chunks[..c]) + chunks[c]
  {
    assert chunks[..c + 1][..c] == chunks[..c];
  }

  lemma DecodedStep(client: Client, lines: seq<string>, line: string)
    ensures Decoded(client, lines + [line]) ==
            Decoded(client, lines) + if Handle(client, line).Some? then [Handle(client, line).value] else []
  {
    assert (lines + [line])[..|lines|] == lines;
  }

  lemma {:induction false} JoinSplits(chunks: seq<string>, c: nat)
    requires c <= |chunks|
    ensures Join(chunks[..c]) <= Join(chunks)
  {
    if c == |chunks| {
      assert chunks[..c] == chunks;
    } else {
      var n := |chunks| - 1;
      JoinSplits(chunks[..n], c);
      assert chunks[..n][..c] == chunks[..c];
    }
  }

  lemma LinesOfPrefix(part: string, text: string)
    requires part <= text
    ensures Lines(part) <= Lines(text)
  {
    LinesOfJoin(part, text[|part|..]);
    assert part + text[|part|..] == text;
  }

  lemma ReadIsPrefix(before: seq<string>, lines: seq<string>, i: nat, all: seq<string>)
    requires before + lines <= all && i < |lines|
    ensures var read := before + lines[..i] + [lines[i]]; |read| <= |all| && read + all[|read|..] == all
  {
    var read := before + lines[..i] + [lines[i]];
    assert read + lines[i + 1..] == before + lines;
  }

  // A return in the middle: what was yielded is already all there is to yield.
  lemma ReadSoFar(client: Client, chunks: seq<string>, c: nat, lines: seq<string>, i: nat,
                  done: seq<Event>, event: Event)
    requires c < |chunks| && i < |lines| && lines == Lines(Tail(Join(chunks[..c])) + chunks[c])
    requires done == Decoded(client, Lines(Join(chunks[..c])) + lines[..i]) && NoLast(client.last, done)
    requires Handle(client, lines[i]) == Some(event) && client.last(event)
    ensures Through(client.last, Decoded(client, Lines(Join(chunks)))) == done + [event]
  {
    hide Lines, Tail, Decoded, Handle, Join, Through;
    var all, before := Lines(Join(chunks)), Lines(Join(chunks[..c]));
    JoinStep(chunks, c);
    LinesOfJoin(Join(chunks[..c]), chunks[c]);
    JoinSplits(chunks, c + 1);
    LinesOfPrefix(Join(chunks[..c + 1]), Join(chunks));
    var read := before + lines[..i] + [lines[i]];
    ReadIsPrefix(before, lines, i, all);
    DecodedStep(client, before + lines[..i], lines[i]);
    DecodedOfJoin(client, read, all[|read|..]);
    ThroughStops(client.last, done, event, Decoded(client, all[|read|..]));
  }

  // ---- from the server to the client ----

  function FieldLine(server: Server, signal: Signal): string {
    if signal.Silence? then ": ping" else "data: " + server.dumps(signal.event)
  }

  function Emitted(server: Server, signal: Signal): string {
    FieldLine(server, signal) + "\n\n"
  }

  /** The stream's text: it ends after the first last event. */
  function ServerText(server: Server, signals: seq<Signal>): string {
    if signals == [] then ""
    else if signals[0].Report? && server.last(signals[0].event) then Emitted(server, signals[0])
    else Emitted(server, signals[0]) + ServerText(server, signals[1..])
  }

  function Reported(signals: seq<Signal>): seq<Event> {
    if signals == [] then []
    else (if signals[0].Report? then [signals[0].event] else []) + Reported(signals[1..])
  }

  /** The client looks for one of the two prefixes in use, and parses what the server prints. */
  ghost predicate Understands(client: Client, server: Server) {
    && client.prefix in {"data:", "data: "}
    && forall e: Event :: '\n' !in server.dumps(e)
         && client.parse(("data: " + server.dumps(e))[|client.prefix|..]) == Some(e)
  }

  lemma EmittedReads(client: Client, server: Server, signal: Signal, rest: string)
    requires Understands(client, server)
    ensures Decoded(client, Lines(Emitted(server, signal) + rest)) ==
            (if signal.Report? then [signal.event] else []) + Decoded(client, Lines(rest))
  {
    hide Understands, Lines, Decoded, Handle, FieldLine;
    HandlesLine(client, server, signal);
    TwoLines(FieldLine(server, signal), rest);
    FirstDecoded(client, FieldLine(server, signal), [""] + Lines(rest));
    FirstDecoded(client, "", Lines(rest));
  }

  lemma DoubleNewline(line: string, rest: string)
    ensures line + "\n" + ("\n" + rest) == line + "\n\n" + rest
  {
  }

  lemma TwoLines(line: string, rest: string)
    requires '\n' !in line
    ensures Lines(line + "\n\n" + rest) == [line] + ([""] + Lines(rest))
  {
    hide Lines, Tail, NewlineAt;
    FirstLine(line, "\n" + rest);
    FirstLine("", rest);
    assert "" + "\n" + rest == "\n" + rest;
    DoubleNewline(line, rest);
  }

  lemma FirstDecoded(client: Client, line: string, lines: seq<string>)
    ensures Decoded(client, [line] + lines) ==
            (if Handle(client, line).Some? then [Handle(client, line).value] else []) + Decoded(client, lines)
  {
    NothingRead(client);
    hide Decoded, Handle;
    DecodedOfJoin(client, [line], lines);
    DecodedStep(client, [], line);
    assert [] + [line] == [line];
  }

  lemma HandlesLine(client: Client, server: Server, signal: Signal)
    requires Understands(client, server)
    ensures Handle(client, FieldLine(server, signal)) == if signal.Report? then Some(signal.event) else None
    ensures Handle(client, "") == None && '\n' !in FieldLine(server, signal)
  {
    var line := FieldLine(server, signal);
    if signal.Silence? {
      assert line[0] != client.prefix[0];
    } else {
      assert line[..5] == "data:" && line[..6] == "data: ";
    }
  }

  /** The whole text decodes to the events reported, through the server's last. */
  lemma {:induction false} ServerTextReads(client: Client, server: Server, signals: seq<Signal>)
    requires Understands(client, server)
    ensures Decoded(client, Lines(ServerText(server, signals))) == Through(server.last, Reported(signals))
  {
    hide Understands, Lines, Decoded, Emitted;
    NothingRead(client);
    if signals != [] {
      ServerTextReads(client, server, signals[1..]);
      EmittedReads(client, server, signals[0], "");
      EmittedReads(client, server, signals[0], ServerText(server, signals[1..]));
      assert Emitted(server, signals[0]) + "" == Emitted(server, signals[0]);
      if signals[0].Report? {
        assert Reported(signals)[1..] == Reported(signals[1..]);
      } else {
        assert Reported(signals) == Reported(signals[1..]);
      }
    }
  }

  /** However the server's text is chunked, the client yields the events sent, through its own last one;
      and if the connection breaks anywhere, a prefix of them. */
  lemma ClientYieldsWhatWasSent(client: Client, server: Server, signals: seq<Signal>, received: string)
    requires Understands(client, server) && received <= ServerText(server, signals)
    ensures var sent := Through(client.last, Through(server.last, Reported(signals)));
            var yielded := Through(client.last, Decoded(client, Lines(received)));
            yielded <= sent && (received == ServerText(server, signals) ==> yielded == sent)
  {
    hide Understands, Lines, Decoded, Through, ServerText;
    var text := ServerText(server, signals);
    ServerTextReads(client, server, signals);
    LinesOfPrefix(received, text);
    var more := Lines(text)[|Lines(received)|..];
    assert Lines(text) == Lines(received) + more;
    DecodedOfJoin(client, Lines(received), more);
    ThroughOfPrefix(client.last, Decoded(client, Lines(received)), Decoded(client, more));
  }

  lemma {:induction false} ThroughOfPrefix(last: Event -> bool, a: seq<Event>, b: seq<Event>)
    ensures Through(last, a) <= Through(last, a + b)
  {
    if a != [] {
      ThroughOfPrefix(last, a[1..], b);
      assert (a + b)[1..] == a[1..] + b;
    }
  }
}
