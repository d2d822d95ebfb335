/** The event stream on the wire: writeSSE in internal/httpserver/sse.go prints it, readStream in
    internal/cli/client/stream.go reads it back line by line. */
module Wire {
  import opened Common
  import opened Text

  datatype Event = Event(name: string, data: string)

  const PROGRESS := "progress"
  const RESULT := "result"
  const ERROR := "error"

  /** bufio.Scanner gives up on a line that does not fit its buffer with the line end. */
  const MAX_LINE: nat := 65536

  const EVENT_FIELD := "event:"
  const DATA_FIELD := "data:"

  // ---------------------------------------------------------------- printing

  function EventLine(e: Event): string {
    "event: " + e.name
  }

  function DataLine(e: Event): string {
    "data: " + e.data
  }

  /** writeSSE: two writes, an event line, then a data line and the blank line that ends the event. */
  function PrintEvent(e: Event): string {
    EventLine(e) + "\n" + (DataLine(e) + "\n" + "\n")
  }

  function Print(events: seq<Event>): string {
    if events == [] then "" else PrintEvent(events[0]) + Print(events[1..])
  }

  // ---------------------------------------------------------------- reading

  /** How a stream ended for its reader. */
  datatype Outcome =
    | Done(data: string) | StreamError(data: string) | DecodeFailed(data: string)
    | HandlerFailed | Unsupported(name: string) | EndedWithoutResult | LineTooLong

  datatype Read = Read(events: seq<Event>, outcome: Outcome)

  /** The client's own code: whether its handler rejects the last of the events seen so far, and which payloads decode. */
  datatype Reader = Reader(rejects: seq<Event> -> bool, resultDecodes: string -> bool, errorDecodes: string -> bool)

  /** handleStreamEvent: the outcome that ends the stream, or nothing when reading goes on. */
  function Handle(reader: Reader, seen: seq<Event>): Option<Outcome>
    requires seen != []
  {
    var e := seen[|seen| - 1];
    if reader.rejects(seen) then Some(HandlerFailed)
    else if e.name == PROGRESS then None
    else if e.name == RESULT then Some(if reader.resultDecodes(e.data) then Done(e.data) else DecodeFailed(e.data))
    else if e.name == ERROR then Some(if reader.errorDecodes(e.data) then StreamError(e.data) else DecodeFailed(e.data))
    else Some(Unsupported(e.name))
  }

  function LineEnd(s: string): (n: nat)
    ensures n <= |s|
    ensures '\n' !in s[..n]
    ensures n < |s| ==> s[n] == '\n'
  {
    if s == "" || s[0] == '\n' then 0 else 1 + LineEnd(s[1..])
  }

  function DropCR(line: string): string {
    if line != "" && line[|line| - 1] == '\r' then line[..|line| - 1] else line
  }

  /** The text after the first line. */
  function AfterLine(s: string): (rest: string)
    requires s != ""
    ensures |rest| < |s|
  {
    if LineEnd(s) < |s| then s[LineEnd(s) + 1..] else ""
  }

  /** The scanning loop from a point where `name` and `data` are pending and `seen` has been handed over. */
  function ReadFrom(s: string, name: string, data: string, seen: seq<Event>, reader: Reader): Read
    decreases |s|
  {
    if s == "" then Read(seen, EndedWithoutResult)
    else if LineEnd(s) >= MAX_LINE then Read(seen, LineTooLong)
    else
      var line, rest := DropCR(s[..LineEnd(s)]), AfterLine(s);
      if line == "" then
        if name == "" then ReadFrom(rest, "", "", seen, reader)
        else
          var seen' := seen + [Event(name, data)];
          match Handle(reader, seen')
          case Some(outcome) => Read(seen', outcome)
          case None => ReadFrom(rest, "", "", seen', reader)
      else if EVENT_FIELD <= line then ReadFrom(rest, TrimSpace(line[|EVENT_FIELD|..]), data, seen, reader)
      else if DATA_FIELD <= line then ReadFrom(rest, name, TrimSpace(line[|DATA_FIELD|..]), seen, reader)
      else ReadFrom(rest, name, data, seen, reader)
  }

  /** readStream: a loop over lines that keeps the pending name and data. */
  method ReadStream(body: string, reader: Reader) returns (r: Read)
    ensures r == ReadFrom(body, "", "", [], reader)
  {
    var name, data := "", "";
    var seen: seq<Event> := [];
    var s := body;
    while s != ""
      invariant ReadFrom(s, name, data, seen, reader) == ReadFrom(body, "", "", [], reader)
      decreases |s|
    {
      if LineEnd(s) >= MAX_LINE {
        return Read(seen, LineTooLong);
      }
      var line := DropCR(s[..LineEnd(s)]);
      var rest := AfterLine(s);
      if line == "" {
        if name != "" {
          seen := seen + [Event(name, data)];
          var outcome := Handle(reader, seen);
          if outcome.Some? {
            return Read(seen, outcome.value);
          }
        }
        name, data := "", "";
      } else if EVENT_FIELD <= line {
        name := TrimSpace(line[|EVENT_FIELD|..]);
      } else if DATA_FIELD <= line {
        data := TrimSpace(line[|DATA_FIELD|..]);
      }
      s := rest;
    }
    return Read(seen, EndedWithoutResult);
  }

  // ---------------------------------------------------------------- reading what was printed

  predicate PrintableText(s: string) {
    Trimmed(s) && '\n' !in s && |s| + 7 < MAX_LINE
  }

  /** Names and payloads that survive a line: trimmed, without line ends, short enough. */
  predicate Printable(e: Event) {
    e.name != "" && PrintableText(e.name) && PrintableText(e.data)
  }

  predicate AllPrintable(events: seq<Event>) {
    forall e | e in events :: Printable(e)
  }

  /** Handing the events over directly: all of them up to the first that ends the stream. */
  function Deliver(events: seq<Event>, seen: seq<Event>, reader: Reader): Read {
    if events == [] then Read(seen, EndedWithoutResult)
    else
      var seen' := seen + [events[0]];
      match Handle(reader, seen')
      case Some(outcome) => Read(seen', outcome)
      case None => Deliver(events[1..], seen', reader)
  }

  /** Whether the reader stops within these events. */
  predicate Stops(events: seq<Event>, seen: seq<Event>, reader: Reader) {
    events != [] &&
      var seen' := seen + [events[0]];
      Handle(reader, seen').Some? || Stops(events[1..], seen', reader)
  }

  /** Texts of up to 65,528 characters fit into a line with their field name and its line end. */
  lemma PrintableMeans(s: string)
    ensures PrintableText(s) <==> Trimmed(s) && '\n' !in s && |s| <= 65528
  {
  }

  /** An event as it is printed. */
  lemma PrintedAs(e: Event)
    ensures PrintEvent(e) == "event: " + e.name + "\ndata: " + e.data + "\n\n"
  {
  }

  /** A line of 65,536 characters or more is not read. */
  lemma LongLineStops(line: string, rest: string, name: string, data: string, seen: seq<Event>, reader: Reader)
    requires '\n' !in line && |line| >= 65536
    ensures ReadFrom(line + "\n" + rest, name, data, seen, reader) == Read(seen, LineTooLong)
  {
    FirstLine(line, rest);
  }

  lemma {:induction false} LineEndOf(line: string, rest: string)
    requires '\n' !in line && (rest == "" || rest[0] == '\n')
    ensures LineEnd(line + rest) == |line|
  {
    if line == "" {
      assert line + rest == rest;
    } else {
      assert (line + rest)[1..] == line[1..] + rest;
      LineEndOf(line[1..], rest);
    }
  }

  /** The first line of a text that starts with a complete line. */
  lemma FirstLine(line: string, rest: string)
    requires '\n' !in line
    ensures var s := line + "\n" + rest;
      LineEnd(s) == |line| && s[..LineEnd(s)] == line && AfterLine(s) == rest
  {
    var s := line + "\n" + rest;
    assert s == line + ("\n" + rest);
    LineEndOf(line, "\n" + rest);
  }

  /** A line without an end, at the end of the text. */
  lemma LastLine(line: string)
    requires '\n' !in line && line != ""
    ensures LineEnd(line) == |line| && AfterLine(line) == ""
  {
    LineEndOf(line, "");
    assert line + "" == line;
  }

  lemma SpacedText(s: string)
    requires Trimmed(s)
    ensures TrimSpace(" " + s) == s
  {
    var t := " " + s;
    if s == "" {
      assert Blank(t);
    } else {
      assert t[1] == s[0] && !IsSpace(t[1]);
      assert !Blank(t);
      assert SolidFrom(t, 0) == 1;
      assert t[|t| - 1] == s[|s| - 1];
      assert SolidUntil(t, |t|) == |t|;
      assert t[1..|t|] == s;
    }
  }

  lemma FieldLine(field: string, text: string)
    requires PrintableText(text) && field != "" && !IsSpace(field[|field| - 1])
    ensures var line := field + " " + text; text != "" ==> DropCR(line) == line
    ensures var line := field + " " + text; field <= line && TrimSpace(line[|field|..]) == text
  {
    var line := field + " " + text;
    assert line[|field|..] == " " + text;
    SpacedText(text);
    if text != "" {
      assert line[|line| - 1] == text[|text| - 1];
    }
  }

  /** A complete line of one field. */
  lemma EventFieldRead(line: string, rest: string, name: string, data: string, seen: seq<Event>, reader: Reader)
    requires '\n' !in line && |line| < MAX_LINE && DropCR(line) == line && EVENT_FIELD <= line
    ensures ReadFrom(line + "\n" + rest, name, data, seen, reader)
      == ReadFrom(rest, TrimSpace(line[|EVENT_FIELD|..]), data, seen, reader)
  {
    FirstLine(line, rest);
  }

  lemma DataFieldRead(line: string, rest: string, name: string, data: string, seen: seq<Event>, reader: Reader)
    requires '\n' !in line && |line| < MAX_LINE && DropCR(line) == line && DATA_FIELD <= line
    ensures ReadFrom(line + "\n" + rest, name, data, seen, reader)
      == ReadFrom(rest, name, TrimSpace(line[|DATA_FIELD|..]), seen, reader)
  {
    FirstLine(line, rest);
    assert line[0] == DATA_FIELD[0] == 'd' && EVENT_FIELD[0] == 'e';
  }

  lemma EventLineRead(e: Event, rest: string, data: string, seen: seq<Event>, reader: Reader)
    requires Printable(e)
    ensures ReadFrom(EventLine(e) + "\n" + rest, "", data, seen, reader) == ReadFrom(rest, e.name, data, seen, reader)
  {
    assert EventLine(e) == EVENT_FIELD + " " + e.name;
    FieldLine(EVENT_FIELD, e.name);
    EventFieldRead(EventLine(e), rest, "", data, seen, reader);
  }

  lemma DataLineRead(e: Event, rest: string, name: string, seen: seq<Event>, reader: Reader)
    requires Printable(e)
    ensures ReadFrom(DataLine(e) + "\n" + rest, name, "", seen, reader) == ReadFrom(rest, name, e.data, seen, reader)
  {
    var line := DataLine(e);
    assert line == DATA_FIELD + " " + e.data;
    FieldLine(DATA_FIELD, e.data);
    assert DropCR(line) == line by {
      assert e.data == "" ==> line[|line| - 1] == ' ';
    }
    DataFieldRead(line, rest, name, "", seen, reader);
  }

  lemma BlankLineRead(rest: string, name: string, data: string, seen: seq<Event>, reader: Reader)
    requires name != ""
    ensures var seen' := seen + [Event(name, data)];
      ReadFrom("\n" + rest, name, data, seen, reader) ==
        match Handle(reader, seen')
        case Some(outcome) => Read(seen', outcome)
        case None => ReadFrom(rest, "", "", seen', reader)
  {
    FirstLine("", rest);
    assert "" + "\n" + rest == "\n" + rest;
  }

  /** One printed event is read as exactly that event. */
  lemma EventRead(e: Event, rest: string, seen: seq<Event>, reader: Reader)
    requires Printable(e)
    ensures var seen' := seen + [e];
      ReadFrom(PrintEvent(e) + rest, "", "", seen, reader) ==
        match Handle(reader, seen')
        case Some(outcome) => Read(seen', outcome)
        case None => ReadFrom(rest, "", "", seen', reader)
  {
    var blank := "\n" + rest;
    var tail := DataLine(e) + "\n" + blank;
    assert PrintEvent(e) + rest == EventLine(e) + "\n" + tail;
    EventLineRead(e, tail, "", seen, reader);
    DataLineRead(e, blank, e.name, seen, reader);
    BlankLineRead(rest, e.name, e.data, seen, reader);
  }

  /** A carriage return before a line end makes no difference. */
  lemma CRLFRead(line: string, rest: string, name: string, data: string, seen: seq<Event>, reader: Reader)
    requires '\n' !in line && |line| < 65535 && (line == "" || line[|line| - 1] != '\r')
    ensures ReadFrom(line + "\r\n" + rest, name, data, seen, reader) == ReadFrom(line + "\n" + rest, name, data, seen, reader)
  {
    var ended := line + "\r";
    FirstLine(line, rest);
    FirstLine(ended, rest);
    assert line + "\r\n" + rest == ended + "\n" + rest;
    assert ended[..|ended| - 1] == line;
  }

  /** A line of another field, such as a comment, is passed over. */
  lemma OtherLinePassed(line: string, rest: string, name: string, data: string, seen: seq<Event>, reader: Reader)
    requires '\n' !in line && |line| < 65536 && line != "" && line[|line| - 1] != '\r'
    requires !("event:" <= line) && !("data:" <= line)
    ensures ReadFrom(line + "\n" + rest, name, data, seen, reader) == ReadFrom(rest, name, data, seen, reader)
  {
    FirstLine(line, rest);
  }

  /** An event of a name the reader does not know ends the stream. */
  lemma UnknownNameStops(e: Event, rest: string, seen: seq<Event>, reader: Reader)
    requires Printable(e) && e.name !in {"progress", "result", "error"} && !reader.rejects(seen + [e])
    ensures ReadFrom(PrintEvent(e) + rest, "", "", seen, reader) == Read(seen + [e], Unsupported(e.name))
  {
    EventRead(e, rest, seen, reader);
  }

  /** So does one the handler rejects, whatever its name. */
  lemma RejectedStops(e: Event, rest: string, seen: seq<Event>, reader: Reader)
    requires Printable(e) && reader.rejects(seen + [e])
    ensures ReadFrom(PrintEvent(e) + rest, "", "", seen, reader) == Read(seen + [e], HandlerFailed)
  {
    EventRead(e, rest, seen, reader);
  }

  /** Reading back any printed sequence of events is handing the events over directly; what follows them on the
      wire matters only if none of them ends the stream. */
  lemma {:induction false} PrintedIsDelivered(events: seq<Event>, tail: string, seen: seq<Event>, reader: Reader)
    requires AllPrintable(events)
    ensures ReadFrom(Print(events) + tail, "", "", seen, reader) ==
      if Stops(events, seen, reader) then Deliver(events, seen, reader)
      else ReadFrom(tail, "", "", seen + events, reader)
  {
    if events == [] {
      assert Print(events) + tail == tail && seen + events == seen;
    } else {
      var e, rest := events[0], events[1..];
      Regroup(PrintEvent(e), Print(rest), tail);
      EventRead(e, Print(rest) + tail, seen, reader);
      PrintedIsDelivered(rest, tail, seen + [e], reader);
      Regroup(seen, [e], rest);
      assert [e] + rest == events;
    }
  }

  /** The round trip of a whole stream: any progress events and one result or error, read by a client whose handler
      accepts everything, reach the handler exactly as they were written, and the last one's payload decides. */
  lemma StreamRoundTrip(progress: seq<Event>, last: Event, tail: string, reader: Reader)
    requires AllPrintable(progress + [last])
    requires forall e | e in progress :: e.name == PROGRESS
    requires last.name == RESULT || last.name == ERROR
    requires forall seen :: !reader.rejects(seen)
    ensures ReadFrom(Print(progress + [last]) + tail, "", "", [], reader) == Read(progress + [last],
      if last.name == RESULT then (if reader.resultDecodes(last.data) then Done(last.data) else DecodeFailed(last.data))
      else (if reader.errorDecodes(last.data) then StreamError(last.data) else DecodeFailed(last.data)))
  {
    PrintedIsDelivered(progress + [last], tail, [], reader);
    DeliversAll(progress, last, [], reader);
    assert [] + progress + [last] == progress + [last];
  }

  lemma {:induction false} DeliversAll(progress: seq<Event>, last: Event, seen: seq<Event>, reader: Reader)
    requires forall e | e in progress :: e.name == PROGRESS
    requires last.name == RESULT || last.name == ERROR
    requires forall s :: !reader.rejects(s)
    ensures Stops(progress + [last], seen, reader)
    ensures Deliver(progress + [last], seen, reader).events == seen + progress + [last]
    ensures Some(Deliver(progress + [last], seen, reader).outcome) == Handle(reader, seen + progress + [last])
  {
    var events := progress + [last];
    if progress == [] {
      assert events == [last] && seen + progress + [last] == seen + [last];
    } else {
      assert events[0] == progress[0] && events[1..] == progress[1..] + [last];
      assert PROGRESS != RESULT && PROGRESS != ERROR;
      DeliversAll(progress[1..], last, seen + [progress[0]], reader);
      assert seen + [progress[0]] + progress[1..] + [last] == seen + progress + [last];
    }
  }

  // ---------------------------------------------------------------- a connection cut short

  /** Part of an event, short of its last line end, is never taken for an event. */
  lemma PartialEventIgnored(e: Event, cut: string, seen: seq<Event>, reader: Reader)
    requires Printable(e) && cut <= PrintEvent(e) && cut != PrintEvent(e)
    ensures ReadFrom(cut, "", "", seen, reader) == Read(seen, EndedWithoutResult)
  {
    var first, second := EventLine(e), DataLine(e);
    assert PrintEvent(e) == first + "\n" + (second + "\n" + "\n");
    if |cut| <= |first| {
      assert cut == first[..|cut|];
      UnendedLine(cut, "", "", seen, reader);
    } else {
      var rest := cut[|first| + 1..];
      assert cut == first + "\n" + rest;
      EventLineRead(e, rest, "", seen, reader);
      PrefixOfRest(first + "\n", rest, second + "\n" + "\n");
      PartialDataIgnored(e, rest, seen, reader);
    }
  }

  lemma PrefixOfRest(front: string, a: string, b: string)
    ensures front + a <= front + b <==> a <= b
  {
    assert (front + b)[|front|..] == b;
    if front + a <= front + b {
      assert a == (front + a)[|front|..];
    }
  }

  lemma PartialDataIgnored(e: Event, rest: string, seen: seq<Event>, reader: Reader)
    requires Printable(e) && rest <= DataLine(e) + "\n" + "\n" && |rest| <= |DataLine(e)| + 1
    ensures ReadFrom(rest, e.name, "", seen, reader) == Read(seen, EndedWithoutResult)
  {
    var second := DataLine(e);
    if |rest| <= |second| {
      assert rest == second[..|rest|];
      assert rest != "" ==> rest[0] == 'd';
      assert '\n' !in second;
      UnendedLine(rest, e.name, "", seen, reader);
    } else {
      assert rest == second + "\n" + "";
      DataLineRead(e, "", e.name, seen, reader);
    }
  }

  /** A last line without its end, unless it is a bare carriage return, hands nothing over. */
  lemma UnendedLine(line: string, name: string, data: string, seen: seq<Event>, reader: Reader)
    requires '\n' !in line && |line| < MAX_LINE && (line != "" ==> line[0] != '\r')
    ensures ReadFrom(line, name, data, seen, reader) == Read(seen, EndedWithoutResult)
  {
    if line != "" {
      LastLine(line);
      assert DropCR(line[..LineEnd(line)]) != "";
    }
  }

  /** How many of the printed events a cut-off text holds in full. */
  function Arrived(events: seq<Event>, cut: string): (n: nat)
    ensures n <= |events|
  {
    if events != [] && PrintEvent(events[0]) <= cut then 1 + Arrived(events[1..], cut[|PrintEvent(events[0])|..]) else 0
  }

  lemma PrintCons(e: Event, rest: seq<Event>)
    ensures Print([e] + rest) == PrintEvent(e) + Print(rest)
  {
    assert ([e] + rest)[1..] == rest;
  }

  /** After a first event that arrived, what else arrived is decided by the rest of the text. */
  lemma FirstArrived(events: seq<Event>, k: nat, rest: string)
    requires 0 < k <= |events|
    ensures Print(events[..k]) <= PrintEvent(events[0]) + rest <==> Print(events[1..][..k - 1]) <= rest
  {
    assert events[..k] == [events[0]] + events[1..][..k - 1];
    PrintCons(events[0], events[1..][..k - 1]);
    PrefixOfRest(PrintEvent(events[0]), Print(events[1..][..k - 1]), rest);
  }

  lemma PrintFirst(events: seq<Event>)
    requires events != []
    ensures Print(events[..1]) == PrintEvent(events[0])
  {
    assert events[..1] == [events[0]] + [];
    PrintCons(events[0], []);
    assert PrintEvent(events[0]) + "" == PrintEvent(events[0]);
  }

  lemma {:induction false} ArrivedExactly(events: seq<Event>, cut: string)
    ensures var n := Arrived(events, cut);
      Print(events[..n]) <= cut && (n < |events| ==> !(Print(events[..n + 1]) <= cut))
  {
    var n := Arrived(events, cut);
    if events != [] {
      var printed := PrintEvent(events[0]);
      if printed <= cut {
        var cut' := cut[|printed|..];
        assert cut == printed + cut';
        ArrivedExactly(events[1..], cut');
        FirstArrived(events, n, cut');
        if n < |events| {
          FirstArrived(events, n + 1, cut');
        }
      } else {
        PrintFirst(events);
      }
    }
  }

  /** Wherever a connection is cut, the reader has handed over exactly the events that arrived in full, and
      reports a missing result unless one of them ended the stream. */
  lemma FrontCons<T>(s: seq<T>, n: nat)
    requires n < |s|
    ensures s[..n + 1] == [s[0]] + s[1..][..n]
  {
  }

  lemma {:induction false} CutStreamDelivers(events: seq<Event>, cut: string, seen: seq<Event>, reader: Reader)
    requires AllPrintable(events) && cut <= Print(events)
    ensures ReadFrom(cut, "", "", seen, reader) == Deliver(events[..Arrived(events, cut)], seen, reader)
  {
    if events != [] {
      var e, rest := events[0], events[1..];
      var printed := PrintEvent(e);
      if printed <= cut {
        var cut' := cut[|printed|..];
        assert cut == printed + cut';
        PrefixOfRest(printed, cut', Print(rest));
        CutStreamDelivers(rest, cut', seen + [e], reader);
        FrontCons(events, Arrived(rest, cut'));
        DeliverOneMore(e, rest[..Arrived(rest, cut')], cut', seen, reader);
      } else {
        ShorterPrefix(cut, printed, Print(rest));
        PartialEventIgnored(e, cut, seen, reader);
      }
    }
  }

  lemma DeliverOneMore(e: Event, rest: seq<Event>, tail: string, seen: seq<Event>, reader: Reader)
    requires Printable(e) && ReadFrom(tail, "", "", seen + [e], reader) == Deliver(rest, seen + [e], reader)
    ensures ReadFrom(PrintEvent(e) + tail, "", "", seen, reader) == Deliver([e] + rest, seen, reader)
  {
    EventRead(e, tail, seen, reader);
    assert ([e] + rest)[1..] == rest;
  }

  lemma ShorterPrefix(cut: string, a: string, b: string)
    requires cut <= a + b && !(a <= cut)
    ensures cut <= a && cut != a
  {
    var m := if |cut| < |a| then |cut| else |a|;
    assert cut[..m] == (a + b)[..m] == a[..m];
  }
}
