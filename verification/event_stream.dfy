/** Server-Sent Events: the printer of pkg/server/http_handler.go and the line-driven reader of
    pkg/transport/streamable_http.go.

    Text is a sequence of Unicode characters.  The message channel is a log that never fills. */
module EventStream {

  // ---------------------------------------------------------------------------------------
  // Text: white space and lines
  // ---------------------------------------------------------------------------------------

  /** White space in the sense of Go's unicode.IsSpace. */
  predicate IsSpace(ch: char) {
    || ch in "\t\n\r "
    || ch in ['\U{0B}', '\U{0C}', '\U{85}', '\U{A0}', '\U{1680}']
    || '\U{2000}' <= ch <= '\U{200A}'
    || ch in ['\U{2028}', '\U{2029}', '\U{202F}', '\U{205F}', '\U{3000}']
  }

  function TrimLeft(s: string): string {
    if s != "" && IsSpace(s[0]) then TrimLeft(s[1..]) else s
  }

  function TrimRight(s: string): string {
    if s != "" && IsSpace(s[|s| - 1]) then TrimRight(s[..|s| - 1]) else s
  }

  function TrimSpace(s: string): string { TrimRight(TrimLeft(s)) }

  predicate Trimmed(s: string) {
    s != "" ==> !IsSpace(s[0]) && !IsSpace(s[|s| - 1])
  }

  predicate OneLine(s: string) { '\n' !in s }

  lemma {:induction false} TrimRightFacts(s: string)
    ensures var t := TrimRight(s);
            t <= s && (t != "" ==> !IsSpace(t[|t| - 1])) && (s != "" && !IsSpace(s[0]) ==> t != "")
  {
    if s != "" && IsSpace(s[|s| - 1]) {
      TrimRightFacts(s[..|s| - 1]);
    }
  }

  lemma {:induction false} TrimLeftFacts(s: string)
    ensures var t := TrimLeft(s);
            |t| <= |s| && t == s[|s| - |t|..] && (t != "" ==> !IsSpace(t[0]))
  {
    if s != "" && IsSpace(s[0]) {
      TrimLeftFacts(s[1..]);
    }
  }

  /** Trimming yields trimmed text, changes nothing else, and creates no line breaks. */
  lemma TrimSpaceFacts(s: string)
    ensures Trimmed(TrimSpace(s))
    ensures TrimSpace(s) == s <==> Trimmed(s)
    ensures OneLine(s) ==> OneLine(TrimSpace(s))
  {
    TrimLeftFacts(s);
    TrimRightFacts(TrimLeft(s));
  }

  function DropReturn(line: string): string {
    if line != "" && line[|line| - 1] == '\r' then line[..|line| - 1] else line
  }

  /** The blank after the colon and a final carriage return are trimmed away in any case. */
  lemma FieldValue(name: string, value: string)
    ensures DropReturn(name + " " + value)[..|name|] == name
    ensures TrimSpace(DropReturn(name + " " + value)[|name|..]) == TrimSpace(value)
  {
    var line := name + " " + value;
    var field := DropReturn(line)[|name|..];
    if value != "" && value[|value| - 1] == '\r' {
      var short := value[..|value| - 1];
      TrimDropsFinalReturn(short);
      assert short + "\r" == value;
      assert field[0] == ' ' && field[1..] == short;
    } else {
      assert DropReturn(line) == line;
      assert field[0] == ' ' && field[1..] == value;
    }
  }

  lemma {:induction false} TrimDropsFinalReturn(s: string)
    ensures TrimSpace(s + "\r") == TrimSpace(s)
  {
    if s == "" {
      assert s + "\r" == "\r" && "\r"[1..] == "";
    } else if IsSpace(s[0]) {
      assert (s + "\r")[1..] == s[1..] + "\r";
      TrimDropsFinalReturn(s[1..]);
    } else {
      assert (s + "\r")[..|s|] == s;
    }
  }

  /** Characters before the first line break. */
  function LineLength(s: string): (n: nat)
    ensures n <= |s| && OneLine(s[..n])
    ensures n < |s| ==> s[n] == '\n'
  {
    if s == "" || s[0] == '\n' then 0 else 1 + LineLength(s[1..])
  }

  lemma {:induction false} LineLengthOfLine(line: string, rest: string)
    requires OneLine(line)
    ensures LineLength(line + "\n" + rest) == |line|
    ensures LineLength(line) == |line|
  {
    if line != "" {
      assert (line + "\n" + rest)[1..] == line[1..] + "\n" + rest;
      LineLengthOfLine(line[1..], rest);
    }
  }

  function Split(s: string): seq<string>
    decreases |s|
  {
    var n := LineLength(s);
    if n == |s| then [s] else [s[..n]] + Split(s[n + 1..])
  }

  function Join(lines: seq<string>): string {
    if |lines| == 0 then "" else if |lines| == 1 then lines[0] else lines[0] + "\n" + Join(lines[1..])
  }

  predicate AllOneLine(lines: seq<string>) {
    forall i :: 0 <= i < |lines| ==> OneLine(lines[i])
  }

  lemma JoinFirst(line: string, rest: seq<string>)
    requires rest != []
    ensures Join([line] + rest) == line + "\n" + Join(rest)
  {
    assert ([line] + rest)[1..] == rest;
  }

  lemma SplitFirst(line: string, rest: string)
    requires OneLine(line)
    ensures Split(line + "\n" + rest) == [line] + Split(rest)
  {
    var s := line + "\n" + rest;
    LineLengthOfLine(line, rest);
    assert s[..|line|] == line && s[|line| + 1..] == rest;
  }

  lemma {:induction false} SplitLines(s: string)
    ensures Split(s) != [] && AllOneLine(Split(s))
    decreases |s|
  {
    var n := LineLength(s);
    if n < |s| {
      SplitLines(s[n + 1..]);
    }
  }

  lemma BreakAt(s: string, n: nat)
    requires n < |s| && s[n] == '\n'
    ensures s == s[..n] + "\n" + s[n + 1..]
  {
  }

  lemma {:induction false} JoinOfSplit(s: string)
    ensures Split(s) != [] && AllOneLine(Split(s)) && Join(Split(s)) == s
    decreases |s|
  {
    SplitLines(s);
    var n := LineLength(s);
    if n < |s| {
      JoinOfSplit(s[n + 1..]);
      JoinFirst(s[..n], Split(s[n + 1..]));
      BreakAt(s, n);
    } else {
      assert Split(s) == [s];
    }
  }

  lemma {:induction false} SplitOfJoin(lines: seq<string>)
    requires lines != [] && AllOneLine(lines)
    ensures Split(Join(lines)) == lines
  {
    if |lines| == 1 {
      LineLengthOfLine(lines[0], "");
    } else {
      SplitOfJoin(lines[1..]);
      SplitFirst(lines[0], Join(lines[1..]));
    }
  }

  // ---------------------------------------------------------------------------------------
  // Printing
  // ---------------------------------------------------------------------------------------

  datatype Item = Event(id: string, kind: string, payload: string) | Ping(note: string)

  /** One field line: the name (with its colon), a blank, the value. */
  function PrintField(name: string, value: string): string {
    name + " " + value + "\n"
  }

  function PrintData(lines: seq<string>): string {
    if lines == [] then "" else PrintField("data:", lines[0]) + PrintData(lines[1..])
  }

  function Print(item: Item): string {
    match item
    case Event(id, kind, payload) =>
      PrintField("id:", id) + (PrintField("event:", kind) + (PrintData(Split(payload)) + "\n"))
    case Ping(note) => ":" + note + "\n" + "\n"
  }

  function PrintAll(items: seq<Item>): string {
    if items == [] then "" else Print(items[0]) + PrintAll(items[1..])
  }

  /** An event in full: its id, its type, a data line for each line of the payload, a blank line. */
  lemma PrintedText(id: string, kind: string, first: string, rest: string)
    requires OneLine(first)
    ensures Print(Event(id, kind, first))
            == ("id:" + " " + id + "\n") + (("event:" + " " + kind + "\n") + (("data:" + " " + first + "\n") + "\n"))
    ensures Print(Event(id, kind, first + "\n" + rest))
            == ("id:" + " " + id + "\n") + (("event:" + " " + kind + "\n")
               + (("data:" + " " + first + "\n") + PrintData(Split(rest)) + "\n"))
  {
    SplitFirst(first, rest);
    LineLengthOfLine(first, "");
    PrintDataFirst(first, []);
    PrintDataFirst(first, Split(rest));
    assert PrintField("data:", first) + "" == PrintField("data:", first);
    assert Split(first) == [first] == [first] + [];
  }

  lemma PrintDataFirst(line: string, more: seq<string>)
    ensures PrintData([line] + more) == PrintField("data:", line) + PrintData(more)
  {
    assert ([line] + more)[1..] == more;
  }

  /** The server generates ids, event types and ping notes without line breaks. */
  predicate Printable(item: Item) {
    match item
    case Event(id, kind, _) => OneLine(id) && OneLine(kind)
    case Ping(note) => OneLine(note)
  }

  lemma Regroup(w: string, a: string, b: string, c: string, d: string)
    ensures w + a + b + c + d == w + (a + (b + (c + d)))
  {
  }

  class SSEConnection {
    var written: string
    var lastEventID: string
    var closed: bool

    constructor (lastEventID: string)
      ensures written == "" && this.lastEventID == lastEventID && !closed
    {
      written, this.lastEventID, closed := "", lastEventID, false;
    }

    method WriteField(name: string, value: string)
      modifies this`written
      ensures written == old(written) + PrintField(name, value)
    {
      written := written + PrintField(name, value);
    }

    method WriteData(dataStr: string)
      modifies this`written
      ensures written == old(written) + PrintData(Split(dataStr))
    {
      if '\n' in dataStr {
        var lines := Split(dataStr);
        for i := 0 to |lines|
          invariant written + PrintData(lines[i..]) == old(written) + PrintData(lines)
        {
          ghost var before := written;
          WriteField("data:", lines[i]);
          assert lines[i..][1..] == lines[i + 1..];
          assert before + PrintData(lines[i..]) == written + PrintData(lines[i + 1..]);
        }
        assert PrintData(lines[|lines|..]) == "";
      } else {
        WriteField("data:", dataStr);
        LineLengthOfLine(dataStr, "");
        assert Split(dataStr)[1..] == [];
      }
    }

    method SendSSEEvent(eventID: string, eventType: string, dataStr: string)
      modifies this`written, this`lastEventID
      ensures closed ==> written == old(written) && lastEventID == old(lastEventID)
      ensures !closed ==>
                written == old(written) + Print(Event(eventID, eventType, dataStr)) && lastEventID == eventID
    {
      if closed {
        return;
      }
      WriteField("id:", eventID);
      WriteField("event:", eventType);
      WriteData(dataStr);
      written := written + "\n";
      lastEventID := eventID;
      Regroup(old(written), PrintField("id:", eventID), PrintField("event:", eventType),
              PrintData(Split(dataStr)), "\n");
    }

    method SendPing(note: string)
      modifies this`written
      ensures written == old(written) + Print(Ping(note))
    {
      written := written + (":" + note + "\n" + "\n");
    }
  }

  // ---------------------------------------------------------------------------------------
  // Reading
  // ---------------------------------------------------------------------------------------

  predicate HasPrefix(s: string, prefix: string) { prefix <= s }

  /** The reader between two lines.  "data", "id" and "kind" are the event being collected. */
  datatype Reader = Reader(
    data: string, id: string, kind: string, lastEventID: string, messages: seq<string>, closed: bool)

  function EndEvent(r: Reader): Reader {
    if r.data == "" then r
    else
      var lastEventID := if r.id != "" then r.id else r.lastEventID;
      if r.kind == "close" then r.(lastEventID := lastEventID, closed := true)
      else Reader("", "", "", lastEventID, r.messages + [r.data], false)
  }

  function AddData(data: string, line: string): string {
    if data == "" then line else data + "\n" + line
  }

  function TakeLine(r: Reader, line: string): Reader {
    if HasPrefix(line, ":") then r
    else if line == "" then EndEvent(r)
    else if HasPrefix(line, "data:") then r.(data := AddData(r.data, TrimSpace(line[5..])))
    else if HasPrefix(line, "id:") then r.(id := TrimSpace(line[3..]))
    else if HasPrefix(line, "event:") then r.(kind := TrimSpace(line[6..]))
    else r
  }

  /** Read complete lines until the stream ends or a close event arrives. */
  function Read(r: Reader, stream: string): Reader
    decreases |stream|
  {
    var n := LineLength(stream);
    if r.closed || n == |stream| then r else Read(TakeLine(r, DropReturn(stream[..n])), stream[n + 1..])
  }

  class StreamableEventSource {
    var LastEventID: string
    var Messages: seq<string>
    var isConnected: bool

    constructor (lastEventID: string)
      ensures LastEventID == lastEventID && Messages == [] && isConnected
    {
      LastEventID, Messages, isConnected := lastEventID, [], true;
    }

    /** Reads one connection's body to its end. */
    method ReadEvents(body: string)
      modifies this
      ensures !isConnected
      ensures var end := Read(Reader("", "", "", old(LastEventID), old(Messages), !old(isConnected)), body);
              LastEventID == end.lastEventID && Messages == end.messages
    {
      var eventData, eventID, eventType, rest := "", "", "", body;
      ghost var start := Reader("", "", "", LastEventID, Messages, !isConnected);
      while isConnected
        invariant Read(start, body)
                  == Read(Reader(eventData, eventID, eventType, LastEventID, Messages, !isConnected), rest)
        decreases |rest|, isConnected
      {
        var n := LineLength(rest);
        if n == |rest| {
          isConnected := false;
          return;
        }
        var line := DropReturn(rest[..n]);
        rest := rest[n + 1..];
        ghost var next := TakeLine(Reader(eventData, eventID, eventType, LastEventID, Messages, false), line);
        assert Read(start, body) == Read(next, rest);
        if line == "" && eventData == "" && eventID == "" && eventType == "" {
          continue;
        }
        if HasPrefix(line, ":") {
          continue;
        }
        if line == "" {
          if eventData != "" {
            if eventID != "" {
              LastEventID := eventID;
            }
            if eventType == "close" {
              isConnected := false;
              return;
            }
            Messages := Messages + [eventData];
            eventData, eventID, eventType := "", "", "";
          }
          continue;
        }
        if HasPrefix(line, "data:") {
          var data := TrimSpace(line[5..]);
          if eventData == "" {
            eventData := data;
          } else {
            eventData := eventData + "\n" + data;
          }
        } else if HasPrefix(line, "id:") {
          eventID := TrimSpace(line[3..]);
        } else if HasPrefix(line, "event:") {
          eventType := TrimSpace(line[6..]);
        }
      }
    }
  }

  // ---------------------------------------------------------------------------------------
  // What the reader makes of printed items
  // ---------------------------------------------------------------------------------------

  function TrimAll(lines: seq<string>): seq<string> {
    seq(|lines|, i requires 0 <= i < |lines| => TrimSpace(lines[i]))
  }

  function DropLeadingEmpty(lines: seq<string>): seq<string> {
    if lines != [] && lines[0] == "" then DropLeadingEmpty(lines[1..]) else lines
  }

  /** A payload loses the white space around its lines and its leading empty lines. */
  function Normalized(payload: string): string {
    Join(DropLeadingEmpty(TrimAll(Split(payload))))
  }

  datatype Outcome = Outcome(lastEventID: string, messages: seq<string>, closed: bool)

  /** The meaning of an item, without reference to lines or to the reader's buffers. */
  function Deliver(o: Outcome, item: Item): Outcome {
    if o.closed || item.Ping? || Normalized(item.payload) == "" then o
    else
      var id := TrimSpace(item.id);
      var lastEventID := if id != "" then id else o.lastEventID;
      if TrimSpace(item.kind) == "close" then Outcome(lastEventID, o.messages, true)
      else Outcome(lastEventID, o.messages + [Normalized(item.payload)], false)
  }

  function DeliverAll(o: Outcome, items: seq<Item>): Outcome
    decreases |items|
  {
    if items == [] then o else DeliverAll(Deliver(o, items[0]), items[1..])
  }

  function OutcomeOf(r: Reader): Outcome { Outcome(r.lastEventID, r.messages, r.closed) }

  lemma ReadLine(r: Reader, line: string, rest: string)
    requires OneLine(line) && !r.closed
    ensures Read(r, line + "\n" + rest) == Read(TakeLine(r, DropReturn(line)), rest)
  {
    var stream := line + "\n" + rest;
    LineLengthOfLine(line, rest);
    assert stream[..|line|] == line && stream[|line| + 1..] == rest;
  }

  function AddAll(data: string, lines: seq<string>): string
    decreases |lines|
  {
    if lines == [] then data else AddAll(AddData(data, TrimSpace(lines[0])), lines[1..])
  }

  lemma ReadField(r: Reader, name: string, value: string, rest: string) returns (field: string)
    requires OneLine(name) && OneLine(value) && !r.closed
    ensures TrimSpace(field) == TrimSpace(value)
    ensures Read(r, PrintField(name, value) + rest) == Read(TakeLine(r, name + field), rest)
  {
    var line := name + " " + value;
    FieldValue(name, value);
    field := DropReturn(line)[|name|..];
    assert DropReturn(line) == name + field;
    assert PrintField(name, value) + rest == line + "\n" + rest;
    ReadLine(r, line, rest);
  }

  lemma ReadDataLine(r: Reader, line: string, rest: string)
    requires OneLine(line) && !r.closed
    ensures Read(r, PrintField("data:", line) + rest) == Read(r.(data := AddData(r.data, TrimSpace(line))), rest)
  {
    var field := ReadField(r, "data:", line, rest);
    assert ("data:" + field)[5..] == field;
  }

  lemma ReadIdLine(r: Reader, id: string, rest: string)
    requires OneLine(id) && !r.closed
    ensures Read(r, PrintField("id:", id) + rest) == Read(r.(id := TrimSpace(id)), rest)
  {
    var field := ReadField(r, "id:", id, rest);
    var line := "id:" + field;
    assert line[0] == 'i' && line[3..] == field;
  }

  lemma ReadTypeLine(r: Reader, kind: string, rest: string)
    requires OneLine(kind) && !r.closed
    ensures Read(r, PrintField("event:", kind) + rest) == Read(r.(kind := TrimSpace(kind)), rest)
  {
    var field := ReadField(r, "event:", kind, rest);
    var line := "event:" + field;
    assert line[0] == 'e' && line[6..] == field;
  }

  lemma {:induction false} ReadData(r: Reader, lines: seq<string>, rest: string)
    requires AllOneLine(lines) && !r.closed
    ensures Read(r, PrintData(lines) + rest) == Read(r.(data := AddAll(r.data, lines)), rest)
    decreases |lines|
  {
    if lines == [] {
      assert PrintData(lines) + rest == rest;
    } else {
      var more := PrintData(lines[1..]) + rest;
      assert PrintData(lines) + rest == PrintField("data:", lines[0]) + more;
      ReadDataLine(r, lines[0], more);
      ReadData(r.(data := AddData(r.data, TrimSpace(lines[0]))), lines[1..], rest);
    }
  }

  lemma TrimAllFirst(lines: seq<string>)
    requires lines != []
    ensures TrimAll(lines) == [TrimSpace(lines[0])] + TrimAll(lines[1..])
  {
  }

  lemma JoinFirstTwo(a: string, b: string, rest: seq<string>)
    ensures Join([a] + ([b] + rest)) == Join([a + "\n" + b] + rest)
  {
  }

  lemma {:induction false} AddAllToData(data: string, lines: seq<string>)
    requires data != ""
    ensures AddAll(data, lines) == Join([data] + TrimAll(lines))
    decreases |lines|
  {
    if lines == [] {
      assert [data] + TrimAll(lines) == [data];
    } else {
      var first := TrimSpace(lines[0]);
      AddAllToData(data + "\n" + first, lines[1..]);
      JoinFirstTwo(data, first, TrimAll(lines[1..]));
      TrimAllFirst(lines);
    }
  }

  /** Collecting the data lines of a payload gives its normal form. */
  lemma {:induction false} AddAllIsJoin(lines: seq<string>)
    ensures AddAll("", lines) == Join(DropLeadingEmpty(TrimAll(lines)))
  {
    if lines != [] {
      var first := TrimSpace(lines[0]);
      TrimAllFirst(lines);
      if first == "" {
        AddAllIsJoin(lines[1..]);
        assert TrimAll(lines)[1..] == TrimAll(lines[1..]);
      } else {
        AddAllToData(first, lines[1..]);
      }
    }
  }

  /** Reading one printed item from between two events has the item's meaning and ends between
      two events again (with no data collected, though an id or type may linger). */
  lemma ReadItem(r: Reader, item: Item, rest: string)
    requires Printable(item) && r.data == "" && !r.closed
    ensures exists r' :: AfterItem(r, item, r') && Read(r, Print(item) + rest) == Read(r', rest)
  {
    match item
    case Ping(note) =>
      assert Print(item) + rest == ":" + note + "\n" + ("" + "\n" + rest);
      ReadLine(r, ":" + note, "" + "\n" + rest);
      ReadLine(r, "", rest);
      assert AfterItem(r, item, r);
    case Event(id, kind, payload) =>
      ReadEvent(r, id, kind, Split(payload), rest) by { JoinOfSplit(payload); }
      var full := Reader(AddAll("", Split(payload)), TrimSpace(id), TrimSpace(kind), r.lastEventID, r.messages, false);
      AddAllIsJoin(Split(payload));
      assert AfterItem(r, item, EndEvent(full));
  }

  ghost predicate AfterItem(r: Reader, item: Item, r': Reader) {
    OutcomeOf(r') == Deliver(OutcomeOf(r), item) && (r'.closed || r'.data == "")
  }

  lemma ReadEvent(r: Reader, id: string, kind: string, lines: seq<string>, rest: string)
    requires OneLine(id) && OneLine(kind) && AllOneLine(lines) && r.data == "" && !r.closed
    ensures var full := Reader(AddAll("", lines), TrimSpace(id), TrimSpace(kind), r.lastEventID, r.messages, false);
            Read(r, PrintField("id:", id) + (PrintField("event:", kind) + (PrintData(lines) + "\n")) + rest)
            == Read(EndEvent(full), rest)
  {
    var s3 := "" + "\n" + rest;
    var s2 := PrintData(lines) + s3;
    var s1 := PrintField("event:", kind) + s2;
    var r1 := r.(id := TrimSpace(id));
    var r2 := r1.(kind := TrimSpace(kind));
    assert PrintField("id:", id) + (PrintField("event:", kind) + (PrintData(lines) + "\n")) + rest
           == PrintField("id:", id) + s1;
    ReadIdLine(r, id, s1);
    ReadTypeLine(r1, kind, s2);
    ReadData(r2, lines, s3);
    ReadLine(r2.(data := AddAll("", lines)), "", rest);
  }

  /** For every list of printed items, whatever the payloads, and whatever was received before. */
  lemma {:induction false} ReadPrinted(r: Reader, items: seq<Item>)
    requires r.closed || r.data == ""
    requires forall i :: 0 <= i < |items| ==> Printable(items[i])
    ensures OutcomeOf(Read(r, PrintAll(items))) == DeliverAll(OutcomeOf(r), items)
    decreases |items|
  {
    if items != [] {
      if r.closed {
        ReadPrinted(r, items[1..]);
      } else {
        ReadItem(r, items[0], PrintAll(items[1..]));
        var r' :| AfterItem(r, items[0], r')
                  && Read(r, Print(items[0]) + PrintAll(items[1..])) == Read(r', PrintAll(items[1..]));
        ReadPrinted(r', items[1..]);
      }
    }
  }

  // ---------------------------------------------------------------------------------------
  // Lines that another printer may send
  // ---------------------------------------------------------------------------------------

  /** A line that is neither empty nor one of the three fields changes nothing: comments, unknown
      fields, field names in capitals. */
  lemma OtherLinesAreIgnored(r: Reader, line: string, rest: string)
    requires OneLine(line) && !r.closed && line != "" && line != "\r"
    requires !("data:" <= line) && !("id:" <= line) && !("event:" <= line)
    ensures Read(r, line + "\n" + rest) == Read(r, rest)
  {
    ReadLine(r, line, rest);
    DropReturnIsPrefix(line);
  }

  lemma DropReturnIsPrefix(line: string)
    ensures DropReturn(line) <= line && (DropReturn(line) == "" ==> line == "" || line == "\r")
  {
  }

  lemma FieldWithoutBlank(name: string, value: string)
    requires name != "" && name[|name| - 1] == ':'
    ensures DropReturn(name + value) == name + DropReturn(value)
    ensures TrimSpace(DropReturn(value)) == TrimSpace(value)
  {
    var line, bare := name + value, DropReturn(value);
    if value != "" && value[|value| - 1] == '\r' {
      assert value == bare + "\r";
      TrimDropsFinalReturn(bare);
      assert line == name + bare + "\r";
    } else {
      assert value == "" ==> line == name;
    }
  }

  /** Of a field the reader takes in the trimmed value only. */
  lemma OnlyTrimmedValueCounts(r: Reader, name: string, one: string, other: string)
    requires name in ["data:", "id:", "event:"] && TrimSpace(one) == TrimSpace(other)
    ensures TakeLine(r, name + one) == TakeLine(r, name + other)
  {
    var n := |name|;
    assert (name + one)[n..] == one && (name + other)[n..] == other;
    assert (name + one)[..n] == name == (name + other)[..n];
    assert (name + one)[0] == name[0] == (name + other)[0];
  }

  /** A field is read alike with and without the blank after its colon. */
  lemma BlankIsOptional(r: Reader, name: string, value: string, rest: string)
    requires name in ["data:", "id:", "event:"] && OneLine(value) && !r.closed
    ensures Read(r, name + value + "\n" + rest) == Read(r, name + " " + value + "\n" + rest)
  {
    var field := ReadField(r, name, value, rest);
    assert PrintField(name, value) + rest == name + " " + value + "\n" + rest;
    ReadLine(r, name + value, rest);
    FieldWithoutBlank(name, value);
    OnlyTrimmedValueCounts(r, name, DropReturn(value), field);
  }

  // ---------------------------------------------------------------------------------------
  // Exact round trips
  // ---------------------------------------------------------------------------------------

  /** Every line free of surrounding white space, and the first line not empty. */
  ghost predicate Faithful(payload: string) {
    Split(payload)[0] != "" && forall i :: 0 <= i < |Split(payload)| ==> Trimmed(Split(payload)[i])
  }

  lemma {:induction false} DropLeadingEmptyFacts(lines: seq<string>)
    ensures var kept := DropLeadingEmpty(lines);
            && |kept| <= |lines| && kept == lines[|lines| - |kept|..]
            && (kept != [] ==> kept[0] != "") && (kept == [] ==> forall i :: 0 <= i < |lines| ==> lines[i] == "")
  {
    if lines != [] && lines[0] == "" {
      DropLeadingEmptyFacts(lines[1..]);
    }
  }

  lemma JoinIsEmpty(lines: seq<string>)
    requires lines != [] && lines[0] != ""
    ensures Join(lines) != ""
  {
  }

  lemma TrimAllFacts(lines: seq<string>)
    ensures TrimAll(lines) == lines <==> forall i :: 0 <= i < |lines| ==> Trimmed(lines[i])
    ensures AllOneLine(lines) ==> AllOneLine(TrimAll(lines))
  {
    forall i | 0 <= i < |lines|
      ensures TrimAll(lines)[i] == lines[i] <==> Trimmed(lines[i])
      ensures OneLine(lines[i]) ==> OneLine(TrimAll(lines)[i])
    {
      TrimSpaceFacts(lines[i]);
    }
  }

  /** A payload survives printing and reading unchanged exactly when it is faithful. */
  lemma FaithfulIffUnchanged(payload: string)
    ensures Faithful(payload) <==> Normalized(payload) == payload && payload != ""
  {
    var lines := Split(payload);
    var kept := DropLeadingEmpty(TrimAll(lines));
    JoinOfSplit(payload);
    TrimAllFacts(lines);
    DropLeadingEmptyFacts(TrimAll(lines));
    if Faithful(payload) {
      JoinIsEmpty(lines);
    }
    if Normalized(payload) == payload && payload != "" {
      SplitOfJoin(kept);
    }
  }

  function Payloads(items: seq<Item>): seq<string> {
    if items == [] then []
    else (if items[0].Event? then [items[0].payload] else []) + Payloads(items[1..])
  }

  function LastId(items: seq<Item>, before: string): string {
    if items == [] then before
    else LastId(items[1..], if items[0].Event? then items[0].id else before)
  }

  /** What the server sends: no close event, and ids that are trimmed and not empty. */
  predicate Ordinary(item: Item) {
    item.Event? ==> item.id != "" && Trimmed(item.id) && TrimSpace(item.kind) != "close"
  }

  predicate AllOrdinary(items: seq<Item>) {
    items == [] || (Ordinary(items[0]) && AllOrdinary(items[1..]))
  }

  ghost predicate AllFaithful(items: seq<Item>) {
    items == [] || ((items[0].Event? ==> Faithful(items[0].payload)) && AllFaithful(items[1..]))
  }

  function ReceivedOne(item: Item): seq<string> {
    if item.Event? && Normalized(item.payload) != "" then [Normalized(item.payload)] else []
  }

  function Received(items: seq<Item>): seq<string> {
    if items == [] then [] else ReceivedOne(items[0]) + Received(items[1..])
  }

  lemma DeliverOne(o: Outcome, item: Item)
    requires Ordinary(item) && !o.closed
    ensures !Deliver(o, item).closed && Deliver(o, item).messages == o.messages + ReceivedOne(item)
    ensures item.Event? && Faithful(item.payload) ==> Deliver(o, item).lastEventID == item.id
    ensures item.Ping? ==> Deliver(o, item).lastEventID == o.lastEventID
  {
  }

  lemma AppendReceived(before: seq<string>, item: Item, rest: seq<Item>)
    ensures before + ReceivedOne(item) + Received(rest) == before + Received([item] + rest)
  {
    assert ([item] + rest)[1..] == rest;
  }

  lemma {:induction false} DeliverOrdinary(o: Outcome, items: seq<Item>)
    requires AllOrdinary(items) && !o.closed
    ensures !DeliverAll(o, items).closed && DeliverAll(o, items).messages == o.messages + Received(items)
    decreases |items|
  {
    if items == [] {
      assert o.messages + Received(items) == o.messages;
    } else {
      var item, rest := items[0], items[1..];
      var o1 := Deliver(o, item);
      DeliverOne(o, item);
      DeliverOrdinary(o1, rest);
      AppendReceived(o.messages, item, rest);
      assert items == [item] + rest;
      assert DeliverAll(o, items) == DeliverAll(o1, rest);
    }
  }

  lemma {:induction false} FaithfulLeaveLastId(o: Outcome, items: seq<Item>)
    requires AllOrdinary(items) && AllFaithful(items) && !o.closed
    ensures DeliverAll(o, items).lastEventID == LastId(items, o.lastEventID)
    decreases |items|
  {
    if items != [] {
      DeliverOne(o, items[0]);
      FaithfulLeaveLastId(Deliver(o, items[0]), items[1..]);
    }
  }

  lemma FirstPayloadDecides(payload: string, received: seq<string>, sent: seq<string>)
    requires |received| <= |sent|
    ensures var first := if Normalized(payload) != "" then [Normalized(payload)] else [];
            first + received == [payload] + sent <==> Faithful(payload) && received == sent
  {
    FaithfulIffUnchanged(payload);
    var all := [payload] + sent;
    assert all[0] == payload && all[1..] == sent && |all| > |received|;
    if Normalized(payload) != "" {
      var first := [Normalized(payload)] + received;
      assert first[0] == Normalized(payload) && first[1..] == received;
    }
  }

  /** A payload is lost or altered exactly when it is not faithful; later ones cannot make up for it. */
  lemma {:induction false} ReceivedExactly(items: seq<Item>)
    ensures |Received(items)| <= |Payloads(items)|
    ensures Received(items) == Payloads(items) <==> AllFaithful(items)
  {
    if items != [] {
      var rest := items[1..];
      ReceivedExactly(rest);
      if items[0].Event? {
        FirstPayloadDecides(items[0].payload, Received(rest), Payloads(rest));
      } else {
        assert Received(items) == Received(rest) && Payloads(items) == Payloads(rest);
      }
    }
  }

  /** A client that reads what the server printed receives exactly the payloads, in order and
      undisturbed by pings, if and only if every payload is faithful; it then remembers the
      last id. */
  lemma RoundTrip(r: Reader, items: seq<Item>)
    requires r.data == "" && !r.closed
    requires AllOrdinary(items) && forall i :: 0 <= i < |items| ==> Printable(items[i])
    ensures var end := Read(r, PrintAll(items));
            && (end.messages == r.messages + Payloads(items) <==> AllFaithful(items))
            && (AllFaithful(items) ==> end.lastEventID == LastId(items, r.lastEventID))
  {
    ReadPrinted(r, items);
    DeliverOrdinary(OutcomeOf(r), items);
    if AllFaithful(items) {
      FaithfulLeaveLastId(OutcomeOf(r), items);
    }
    ReceivedExactly(items);
    var n, end := |r.messages|, Read(r, PrintAll(items));
    assert end.messages[n..] == Received(items) && (r.messages + Payloads(items))[n..] == Payloads(items);
  }

  /** A close event is acknowledged in the last id, but its payload and all that follows it are
      not delivered. */
  lemma {:induction false} NothingAfterClose(r: Reader, before: seq<Item>, close: Item, after: seq<Item>)
    requires r.data == "" && !r.closed
    requires forall i :: 0 <= i < |before + [close] + after| ==> Printable((before + [close] + after)[i])
    requires close.Event? && TrimSpace(close.kind) == "close" && Normalized(close.payload) != ""
    ensures var end := Read(r, PrintAll(before + [close] + after));
            && end.closed && end.messages == DeliverAll(OutcomeOf(r), before).messages
            && (AllOrdinary(before) && AllFaithful(before) ==>
                  && end.messages == r.messages + Payloads(before)
                  && end.lastEventID == if TrimSpace(close.id) != "" then TrimSpace(close.id)
                                        else LastId(before, r.lastEventID))
  {
    ReadPrinted(r, before + [close] + after);
    DeliverJoins(OutcomeOf(r), before + [close], after);
    DeliverJoins(OutcomeOf(r), before, [close]);
    var o := DeliverAll(OutcomeOf(r), before);
    assert DeliverAll(o, [close]) == Deliver(o, close);
    DeliverClosed(Deliver(o, close), after);
    if AllOrdinary(before) && AllFaithful(before) {
      DeliverOrdinary(OutcomeOf(r), before);
      FaithfulLeaveLastId(OutcomeOf(r), before);
      ReceivedExactly(before);
    }
  }

  lemma {:induction false} DeliverJoins(o: Outcome, xs: seq<Item>, ys: seq<Item>)
    ensures DeliverAll(o, xs + ys) == DeliverAll(DeliverAll(o, xs), ys)
    decreases |xs|
  {
    if xs == [] {
      assert xs + ys == ys;
    } else {
      assert (xs + ys)[1..] == xs[1..] + ys;
      DeliverJoins(Deliver(o, xs[0]), xs[1..], ys);
    }
  }

  lemma {:induction false} DeliverClosed(o: Outcome, items: seq<Item>)
    requires o.closed
    ensures DeliverAll(o, items) == o
  {
    if items != [] {
      DeliverClosed(o, items[1..]);
    }
  }
}
