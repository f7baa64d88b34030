/** The session event stream: the server writes events as server-sent-event frames, the chat client
    reads them back line by line, and a connection cut at any byte is resumed from the client's cursor.

    Bytes are characters here. JSON is a codec given from outside; what is asked of it is that it
    decodes what it encoded, writes no line break, and decodes no proper prefix of an encoding. */
module SessionStream {
  import opened Strings

  /** A session event; `content` stands for everything but its sequence number and type. */
  datatype Event = Event(seqNo: nat, kind: string, content: string)

  datatype Codec = Codec(encode: Event -> string, decode: string -> Option<Event>)

  ghost predicate Faithful(codec: Codec) {
    && (forall e :: codec.decode(codec.encode(e)) == Some(e))
    && (forall e :: codec.encode(e) != "" && '\n' !in codec.encode(e) && '\r' !in codec.encode(e))
    && (forall e, k: nat :: k < |codec.encode(e)| ==> codec.decode(codec.encode(e)[..k]) == None)
  }

  // ---------------------------------------------------------------- the server's writer

  function TypeLine(e: Event): (s: string)
    ensures s != "" && s[0] == 'e'
  {
    "event: " + (if TrimSpace(e.kind) == "" then "session.event" else TrimSpace(e.kind))
  }

  function HeaderLines(e: Event): seq<string> {
    if e.seqNo > 0 then ["id: " + Decimal(e.seqNo), TypeLine(e)] else [TypeLine(e)]
  }

  function Terminated(lines: seq<string>): string {
    if lines == [] then "" else lines[0] + "\n" + Terminated(lines[1..])
  }

  /** What writeSessionSSE writes for one event. */
  function Frame(codec: Codec, e: Event): string {
    Terminated(HeaderLines(e)) + "data: " + codec.encode(e) + "\n\n"
  }

  const KEEP_ALIVE := ": keep-alive\n\n"

  /** A piece of the server's output. */
  datatype Piece = EventPiece(event: Event) | KeepAlive

  function PieceBytes(codec: Codec, p: Piece): string {
    match p case EventPiece(e) => Frame(codec, e) case KeepAlive => KEEP_ALIVE
  }

  function Bytes(codec: Codec, ps: seq<Piece>): string {
    if ps == [] then "" else PieceBytes(codec, ps[0]) + Bytes(codec, ps[1..])
  }

  function PieceEvents(p: Piece): seq<Event> {
    match p case EventPiece(e) => [e] case KeepAlive => []
  }

  function Events(ps: seq<Piece>): seq<Event> {
    if ps == [] then [] else PieceEvents(ps[0]) + Events(ps[1..])
  }

  // ---------------------------------------------------------------- the client's reader

  function DropCR(s: string): string {
    if s != "" && s[|s| - 1] == '\r' then s[..|s| - 1] else s
  }

  /** The lines of a stream that ends here, the unterminated last one included: bufio.ScanLines drops one
      carriage return, the client's TrimSuffix another. */
  function Lines(s: string): seq<string> {
    var parts := Split(s, '\n');
    Cleaned(if parts[|parts| - 1] == "" then parts[..|parts| - 1] else parts)
  }

  function Cleaned(parts: seq<string>): seq<string> {
    if parts == [] then [] else [DropCR(DropCR(parts[0]))] + Cleaned(parts[1..])
  }

  /** The chat client: its cursor, the events that moved it, and whether its handler ended the stream. */
  datatype Client = Client(cursor: nat, accepted: seq<Event>, stopped: bool)

  /** The frame under construction. */
  datatype Pending = Pending(id: string, kind: string, data: seq<string>)

  const EMPTY := Pending("", "", [])

  const MAX_UINT64 := 0xffff_ffff_ffff_ffff

  function ParseUint(s: string): nat {
    if s == "" || !AllDigits(s) then 0 else if DigitsValue(s) > MAX_UINT64 then MAX_UINT64 else DigitsValue(s)
  }

  function JoinLines(data: seq<string>): string {
    if data == [] then "" else Join(data, '\n')
  }

  /** The handler of one frame. `stops` says for which events it ends the stream (turn completed, failed
      and the like). */
  function OnFrame(codec: Codec, stops: Event -> bool, c: Client, p: Pending): Client {
    match codec.decode(JoinLines(p.data))
    case None => c
    case Some(decoded) =>
      var e := if decoded.seqNo == 0 && p.id != "" then decoded.(seqNo := ParseUint(p.id)) else decoded;
      if e.seqNo == 0 then c.(stopped := stops(e))
      else if e.seqNo <= c.cursor then c
      else Client(e.seqNo, c.accepted + [e], stops(e))
  }

  function Dispatch(codec: Codec, stops: Event -> bool, c: Client, p: Pending): Client {
    if p.data == [] then c else OnFrame(codec, stops, c, p)
  }

  /** strings.Cut at the first colon, with one leading blank of the value dropped. */
  function Cut(line: string): (string, string) {
    if line == "" then ("", "")
    else if line[0] == ':' then ("", if |line| > 1 && line[1] == ' ' then line[2..] else line[1..])
    else var (field, value) := Cut(line[1..]); ([line[0]] + field, value)
  }

  function Collect(p: Pending, line: string): Pending {
    if line != "" && line[0] == ':' then p
    else
      var (field, value) := Cut(line);
      if field == "id" then p.(id := value)
      else if field == "event" then p.(kind := value)
      else if field == "data" then p.(data := p.data + [value])
      else p
  }

  /** Reads the lines; a stream that ends without a read error also dispatches the unfinished frame. */
  function Read(codec: Codec, stops: Event -> bool, c: Client, p: Pending, lines: seq<string>, clean: bool): Client
    decreases |lines|
  {
    if c.stopped then c
    else if lines == [] then (if clean then Dispatch(codec, stops, c, p) else c)
    else if lines[0] == "" then Read(codec, stops, Dispatch(codec, stops, c, p), EMPTY, lines[1..], clean)
    else Read(codec, stops, c, Collect(p, lines[0]), lines[1..], clean)
  }

  /** One connection as the client sees it: the bytes that arrived and how the stream ended. */
  function Receive(codec: Codec, stops: Event -> bool, c: Client, bytes: string, clean: bool): Client {
    Read(codec, stops, c, EMPTY, Lines(bytes), clean)
  }

  // ---------------------------------------------------------------- one line at a time

  lemma LinesOfRest(line: string, rest: string)
    requires '\n' !in line
    ensures Lines(line + "\n" + rest) == [DropCR(DropCR(line))] + Lines(rest)
  {
    SplitPrefix(line, rest, '\n');
    assert line + "\n" + rest == line + ['\n'] + rest;
    var parts := Split(rest, '\n');
    assert ([line] + parts)[..|parts|] == [line] + parts[..|parts| - 1];
    assert ([line] + parts[..|parts| - 1])[1..] == parts[..|parts| - 1];
    assert ([line] + parts)[1..] == parts;
  }

  lemma LinesOfLast(line: string)
    requires '\n' !in line
    ensures Lines(line) == if line == "" then [] else [DropCR(DropCR(line))]
  {
    SplitWhole(line, '\n');
    if line != "" {
      var parts := [line];
      assert parts[1..] == [];
      assert Cleaned(parts) == [DropCR(DropCR(line))];
    }
  }

  /** A line may also end in carriage return and line feed. */
  lemma LinesOfCRLF(line: string, rest: string)
    requires '\n' !in line && (line == "" || line[|line| - 1] != '\r')
    ensures Lines(line + "\r\n" + rest) == [line] + Lines(rest)
  {
    hide Lines;
    assert line + "\r\n" + rest == (line + "\r") + "\n" + rest;
    LinesOfRest(line + "\r", rest);
  }

  /** What handling one event does to the client. */
  function Handle(stops: Event -> bool, c: Client, e: Event): Client {
    if c.stopped then c
    else if e.seqNo == 0 then c.(stopped := stops(e))
    else if e.seqNo <= c.cursor then c
    else Client(e.seqNo, c.accepted + [e], stops(e))
  }

  function HandleAll(stops: Event -> bool, c: Client, es: seq<Event>): Client
    decreases |es|
  {
    if es == [] then c else HandleAll(stops, Handle(stops, c, es[0]), es[1..])
  }

  predicate GoodHeader(e: Event, h: string) {
    h != "" && '\n' !in h && (h[0] == 'e' || (h[0] == 'i' && e.seqNo > 0))
  }

  /** A pending frame for `e` before its data line. */
  predicate Opening(e: Event, p: Pending) {
    p.data == [] && (e.seqNo == 0 ==> p.id == "")
  }

  lemma CutKeepsHead(line: string)
    requires line != "" && line[0] != ':'
    ensures Cut(line).0 != "" && Cut(line).0[0] == line[0]
  {
  }

  /** A header line, whole or cut short, leaves the frame without data. */
  lemma HeaderCollects(e: Event, p: Pending, h: string)
    requires Opening(e, p) && h != "" && (h[0] == 'e' || (h[0] == 'i' && e.seqNo > 0))
    ensures Opening(e, Collect(p, h))
  {
    CutKeepsHead(h);
  }

  lemma DropCRKeepsHead(h: string)
    requires h != "" && h[0] != '\r'
    ensures DropCR(DropCR(h)) != "" && DropCR(DropCR(h))[0] == h[0]
  {
  }

  /** A name without colon is the field of any line it starts up to a colon or the end. */
  lemma {:induction false} CutName(name: string, rest: string)
    requires ':' !in name && (rest == "" || rest[0] == ':')
    ensures Cut(name + rest) == (name, Cut(rest).1)
  {
    if name == "" {
      assert name + rest == rest;
    } else {
      CutName(name[1..], rest);
      assert (name + rest)[1..] == name[1..] + rest;
      assert name == [name[0]] + name[1..];
    }
  }

  lemma CutField(name: string, value: string)
    requires ':' !in name
    ensures Cut(name + ": " + value) == (name, value)
    ensures Cut(name + ":") == (name, "")
    ensures Cut(name) == (name, "")
  {
    CutRest(value);
    hide Cut;
    assert name + ": " + value == name + (": " + value) && name + "" == name;
    CutName(name, ": " + value);
    CutName(name, ":");
    CutName(name, "");
  }

  lemma CutRest(value: string)
    ensures Cut(": " + value).1 == value && Cut(":").1 == "" && Cut("").1 == ""
  {
    assert (": " + value)[2..] == value;
  }

  /** The data line, whole or cut after `n` characters, collects a prefix of the encoding or nothing. */
  lemma DataCollects(p: Pending, json: string, n: nat)
    requires p.data == [] && 0 < n <= 6 + |json|
    ensures var q := Collect(p, ("data: " + json)[..n]);
            q == p || q == p.(data := [json[..if n < 6 then 0 else n - 6]])
    ensures n == 6 + |json| ==> Collect(p, ("data: " + json)[..n]) == p.(data := [json])
  {
    var line := ("data: " + json)[..n];
    if n >= 6 {
      assert line == "data" + ": " + json[..n - 6];
      CutField("data", json[..n - 6]);
      assert json[..|json|] == json;
    } else if n == 5 {
      assert line == "data" + ":";
      CutField("data", "");
    } else {
      assert line == "data"[..n];
      CutField(line, "");
      assert line[0] == 'd';
    }
  }

  // ---------------------------------------------------------------- one frame

  function DataLine(codec: Codec, e: Event): string {
    "data: " + codec.encode(e)
  }

  function FrameFrom(codec: Codec, e: Event, headers: seq<string>): string {
    Terminated(headers) + DataLine(codec, e) + "\n\n"
  }

  lemma DataHandled(codec: Codec, stops: Event -> bool, c: Client, e: Event, p: Pending)
    requires Faithful(codec) && !c.stopped && p.data == [codec.encode(e)] && (e.seqNo == 0 ==> p.id == "")
    ensures Dispatch(codec, stops, c, p) == Handle(stops, c, e)
  {
  }

  lemma PartialIgnored(codec: Codec, stops: Event -> bool, c: Client, e: Event, p: Pending, k: nat)
    requires Faithful(codec) && k < |codec.encode(e)| && p.data == [codec.encode(e)[..k]]
    ensures Dispatch(codec, stops, c, p) == c
  {
  }

  lemma NoCR(line: string)
    requires '\r' !in line
    ensures DropCR(DropCR(line)) == line
  {
  }

  /** A whole frame moves the client exactly as its event does. */
  lemma {:induction false} FrameRead(codec: Codec, stops: Event -> bool, c: Client, e: Event, p: Pending,
                                     headers: seq<string>, rest: string, clean: bool)
    requires Faithful(codec) && !c.stopped && Opening(e, p)
    requires forall i :: 0 <= i < |headers| ==> GoodHeader(e, headers[i])
    ensures Read(codec, stops, c, p, Lines(FrameFrom(codec, e, headers) + rest), clean)
         == Read(codec, stops, Handle(stops, c, e), EMPTY, Lines(rest), clean)
    decreases |headers|
  {
    hide Lines, Collect, Dispatch, Handle, DropCR;
    var text := FrameFrom(codec, e, headers) + rest;
    if headers == [] {
      var line := DataLine(codec, e);
      assert text == line + "\n" + ("" + "\n" + rest);
      LinesOfRest(line, "" + "\n" + rest);
      LinesOfRest("", rest);
      NoCR(line);
      NoCR("");
      assert line[..6 + |codec.encode(e)|] == line;
      DataCollects(p, codec.encode(e), 6 + |codec.encode(e)|);
      DataHandled(codec, stops, c, e, p.(data := [codec.encode(e)]));
    } else {
      var h := headers[0];
      assert text == h + "\n" + (FrameFrom(codec, e, headers[1..]) + rest);
      LinesOfRest(h, FrameFrom(codec, e, headers[1..]) + rest);
      DropCRKeepsHead(h);
      HeaderCollects(e, p, DropCR(DropCR(h)));
      FrameRead(codec, stops, c, e, Collect(p, DropCR(DropCR(h))), headers[1..], rest, clean);
    }
  }

  /** A frame cut short has no effect, or the effect of its event. */
  lemma {:induction false} FrameCut(codec: Codec, stops: Event -> bool, c: Client, e: Event, p: Pending,
                                    headers: seq<string>, n: nat, clean: bool)
    requires Faithful(codec) && !c.stopped && Opening(e, p)
    requires forall i :: 0 <= i < |headers| ==> GoodHeader(e, headers[i])
    requires n < |FrameFrom(codec, e, headers)|
    ensures Read(codec, stops, c, p, Lines(FrameFrom(codec, e, headers)[..n]), clean) in {c, Handle(stops, c, e)}
    decreases |headers|
  {
    hide Lines, Collect, Dispatch, Handle, DropCR;
    var text := FrameFrom(codec, e, headers);
    if headers == [] {
      DataCut(codec, stops, c, e, p, n, clean);
    } else {
      var h := headers[0];
      assert text == h + "\n" + FrameFrom(codec, e, headers[1..]);
      if n <= |h| {
        assert text[..n] == h[..n];
        HeaderCut(codec, stops, c, e, p, h[..n], clean);
      } else {
        var m := n - |h| - 1;
        assert text[..n] == h + "\n" + FrameFrom(codec, e, headers[1..])[..m];
        LinesOfRest(h, FrameFrom(codec, e, headers[1..])[..m]);
        DropCRKeepsHead(h);
        HeaderCollects(e, p, DropCR(DropCR(h)));
        FrameCut(codec, stops, c, e, Collect(p, DropCR(DropCR(h))), headers[1..], m, clean);
      }
    }
  }

  lemma HeaderCut(codec: Codec, stops: Event -> bool, c: Client, e: Event, p: Pending, cut: string, clean: bool)
    requires !c.stopped && Opening(e, p) && (cut != "" ==> GoodHeader(e, cut)) && '\n' !in cut
    ensures Read(codec, stops, c, p, Lines(cut), clean) == c
  {
    hide Lines, Collect, DropCR;
    LinesOfLast(cut);
    if cut != "" {
      DropCRKeepsHead(cut);
      HeaderCollects(e, p, DropCR(DropCR(cut)));
    }
  }

  lemma DataCut(codec: Codec, stops: Event -> bool, c: Client, e: Event, p: Pending, n: nat, clean: bool)
    requires Faithful(codec) && !c.stopped && Opening(e, p) && n < |FrameFrom(codec, e, [])|
    ensures Read(codec, stops, c, p, Lines(FrameFrom(codec, e, [])[..n]), clean) in {c, Handle(stops, c, e)}
  {
    hide Lines, Collect, Dispatch, Handle, DropCR;
    var text, line, json := FrameFrom(codec, e, []), DataLine(codec, e), codec.encode(e);
    var m := if n <= |line| then n else |line|;
    var cut := line[..m];
    assert '\n' !in cut && '\r' !in cut;
    if n <= |line| {
      assert text[..n] == cut;
      LinesOfLast(cut);
    } else {
      assert text[..n] == cut + "\n" + "";
      LinesOfRest(cut, "");
      LinesOfLast("");
    }
    NoCR(cut);
    if m > 0 {
      DataCollects(p, json, m);
      var q := Collect(p, cut);
      if q != p {
        if m == 6 + |json| {
          DataHandled(codec, stops, c, e, q);
        } else {
          PartialIgnored(codec, stops, c, e, q, if m < 6 then 0 else m - 6);
        }
      }
    }
    assert Dispatch(codec, stops, c, p) == c by { NothingPending(codec, stops, c, p); }
  }

  lemma NothingPending(codec: Codec, stops: Event -> bool, c: Client, p: Pending)
    requires p.data == []
    ensures Dispatch(codec, stops, c, p) == c
  {
  }

  // ---------------------------------------------------------------- the header lines

  function CollectAll(p: Pending, lines: seq<string>): Pending
    decreases |lines|
  {
    if lines == [] then p else CollectAll(Collect(p, lines[0]), lines[1..])
  }

  lemma CollectField(p: Pending, value: string)
    ensures Collect(p, "id: " + value) == p.(id := value)
    ensures Collect(p, "event: " + value) == p.(kind := value)
    ensures Collect(p, "data: " + value) == p.(data := p.data + [value])
  {
    hide Cut;
    CutField("id", value);
    CutField("event", value);
    CutField("data", value);
    assert "id" + ": " + value == "id: " + value && "event" + ": " + value == "event: " + value && "data" + ": " + value == "data: " + value;
  }

  /** The lines of an event's frame say what it is: the id is its number, if it has one, the type its own
      without blanks around it, or "session.event", and the data its encoding. */
  lemma FrameLinesSay(codec: Codec, e: Event)
    ensures var p := CollectAll(EMPTY, HeaderLines(e) + [DataLine(codec, e)]);
            && (e.seqNo == 0 ==> p.id == "")
            && (0 < e.seqNo <= MAX_UINT64 ==> p.id != "" && ParseUint(p.id) == e.seqNo)
            && p.kind == (if TrimSpace(e.kind) == "" then "session.event" else TrimSpace(e.kind))
            && p.data == [codec.encode(e)]
  {
    hide Collect, TrimSpace, Decimal;
    var kind := if TrimSpace(e.kind) == "" then "session.event" else TrimSpace(e.kind);
    var numbered := if e.seqNo > 0 then EMPTY.(id := Decimal(e.seqNo)) else EMPTY;
    CollectField(EMPTY, Decimal(e.seqNo));
    CollectField(numbered, kind);
    CollectField(numbered.(kind := kind), codec.encode(e));
    var lines := HeaderLines(e) + [DataLine(codec, e)];
    var data, end := DataLine(codec, e), [TypeLine(e)] + ([DataLine(codec, e)] + []);
    CollectFirst(numbered.(kind := kind), data, []);
    CollectFirst(numbered, TypeLine(e), [data] + []);
    if e.seqNo > 0 {
      CollectFirst(EMPTY, "id: " + Decimal(e.seqNo), end);
      assert lines == ["id: " + Decimal(e.seqNo)] + end;
    } else {
      assert lines == end;
    }
  }

  lemma CollectFirst(p: Pending, line: string, rest: seq<string>)
    ensures CollectAll(p, [line] + rest) == CollectAll(Collect(p, line), rest)
  {
    hide Collect;
    assert ([line] + rest)[1..] == rest;
  }

  /** Data that was split into one line each is read whole again. */
  lemma DataLinesJoin(data: string)
    ensures JoinLines(Split(data, '\n')) == data
  {
    hide Split;
    JoinSplit(data, '\n');
  }

  /** An id is read as the number it spells, as far as 64 bits go. */
  lemma IdReads(n: nat)
    ensures ParseUint(Decimal(n)) == if n <= 0xffff_ffff_ffff_ffff then n else 0xffff_ffff_ffff_ffff
  {
    hide Decimal;
  }

  /** A codec that leaves out the number: what it decodes has number 0. */
  ghost predicate Unnumbered(codec: Codec) {
    && (forall e :: codec.decode(codec.encode(e)) == Some(e.(seqNo := 0)))
    && (forall e :: codec.encode(e) != "" && '\n' !in codec.encode(e) && '\r' !in codec.encode(e))
  }

  /** Lines that are whole and end in no carriage return are read as they are. */
  predicate Whole(line: string) {
    line != "" && '\n' !in line && line[|line| - 1] != '\r'
  }

  lemma {:induction false} ReadWhole(codec: Codec, stops: Event -> bool, c: Client, p: Pending, lines: seq<string>, rest: string, clean: bool)
    requires !c.stopped && forall i :: 0 <= i < |lines| ==> Whole(lines[i])
    ensures Read(codec, stops, c, p, Lines(Terminated(lines) + "\n" + rest), clean)
         == Read(codec, stops, Dispatch(codec, stops, c, CollectAll(p, lines)), EMPTY, Lines(rest), clean)
    decreases |lines|
  {
    hide Lines, Collect, Dispatch, DropCR;
    if lines == [] {
      assert Terminated(lines) + "\n" + rest == "" + "\n" + rest;
      LinesOfRest("", rest);
      NoCR("");
    } else {
      var more := Terminated(lines[1..]) + "\n" + rest;
      assert Terminated(lines) + "\n" + rest == lines[0] + "\n" + more;
      LinesOfRest(lines[0], more);
      WholeKept(lines[0]);
      ReadWhole(codec, stops, c, Collect(p, lines[0]), lines[1..], rest, clean);
    }
  }

  lemma WholeKept(line: string)
    requires Whole(line)
    ensures DropCR(DropCR(line)) == line
  {
  }

  /** A frame whose data leaves out the number acts as its event all the same: the number is taken from the id
      line. */
  lemma FrameReadById(codec: Codec, stops: Event -> bool, c: Client, e: Event, rest: string, clean: bool)
    requires Unnumbered(codec) && !c.stopped && Plain(e) && 0 < e.seqNo <= MAX_UINT64
    ensures Receive(codec, stops, c, Frame(codec, e) + rest, clean)
         == Read(codec, stops, Handle(stops, c, e), EMPTY, Lines(rest), clean)
  {
    hide Lines, Collect, TrimSpace, Decimal, CollectAll, Terminated, ParseUint, Whole, Unnumbered;
    var lines := HeaderLines(e) + [DataLine(codec, e)];
    FrameLinesSay(codec, e);
    FrameTerminates(codec, e);
    WholeLines(codec, e);
    assert Frame(codec, e) + rest == Terminated(lines) + "\n" + rest;
    ReadWhole(codec, stops, c, EMPTY, lines, rest, clean);
    HandledById(codec, stops, c, e, CollectAll(EMPTY, lines));
  }

  lemma HandledById(codec: Codec, stops: Event -> bool, c: Client, e: Event, p: Pending)
    requires Unnumbered(codec) && !c.stopped && e.seqNo > 0 && p.data == [codec.encode(e)] && p.id != "" && ParseUint(p.id) == e.seqNo
    ensures Dispatch(codec, stops, c, p) == Handle(stops, c, e)
  {
    hide ParseUint;
    assert e.(seqNo := 0).(seqNo := e.seqNo) == e;
  }

  lemma FrameTerminates(codec: Codec, e: Event)
    ensures Frame(codec, e) == Terminated(HeaderLines(e) + [DataLine(codec, e)]) + "\n"
  {
    hide HeaderLines;
    TerminatedMore(HeaderLines(e), DataLine(codec, e));
    assert "data: " + codec.encode(e) + "\n" + "\n" == "data: " + codec.encode(e) + "\n\n";
  }

  lemma {:induction false} TerminatedMore(lines: seq<string>, line: string)
    ensures Terminated(lines + [line]) == Terminated(lines) + line + "\n"
  {
    if lines == [] {
      assert lines + [line] == [line] && [line][1..] == [];
    } else {
      TerminatedMore(lines[1..], line);
      assert (lines + [line])[1..] == lines[1..] + [line];
    }
  }

  lemma WholeLines(codec: Codec, e: Event)
    requires Unnumbered(codec) && Plain(e)
    ensures var lines := HeaderLines(e) + [DataLine(codec, e)]; forall i :: 0 <= i < |lines| ==> Whole(lines[i])
  {
    hide TrimSpace, Decimal, IsSpace;
    HeadersGood(e);
    var kind, digits := TrimSpace(e.kind), Decimal(e.seqNo);
    if kind != "" {
      TrimmedEnd(e.kind);
      assert TypeLine(e)[|TypeLine(e)| - 1] == kind[|kind| - 1];
    }
    assert IsDigit(digits[|digits| - 1]) && ("id: " + digits)[|digits| + 3] == digits[|digits| - 1];
    assert codec.encode(e) != "" && '\r' !in codec.encode(e) && '\n' !in codec.encode(e);
    var line := DataLine(codec, e);
    assert line[|line| - 1] == codec.encode(e)[|codec.encode(e)| - 1];
  }

  lemma TrimmedEnd(s: string)
    requires TrimSpace(s) != ""
    ensures TrimSpace(s)[|TrimSpace(s)| - 1] != '\r'
  {
    assert IsSpace('\r');
  }

  // ---------------------------------------------------------------- one connection

  /** No line break in an event's type; the server writes it unescaped. */
  predicate Plain(e: Event) {
    '\n' !in e.kind
  }

  predicate PlainPieces(ps: seq<Piece>) {
    forall i :: 0 <= i < |ps| ==> ps[i].EventPiece? ==> Plain(ps[i].event)
  }

  lemma HeadersGood(e: Event)
    requires Plain(e)
    ensures forall i :: 0 <= i < |HeaderLines(e)| ==> GoodHeader(e, HeaderLines(e)[i])
  {
    hide Decimal, TrimSpace;
    if '\n' in TrimSpace(e.kind) {
      TrimSpaceKeeps(e.kind, '\n');
    }
    assert '\n' !in TypeLine(e);
    var digits := Decimal(e.seqNo);
    assert '\n' !in digits by { assert forall i :: 0 <= i < |digits| ==> IsDigit(digits[i]); }
    assert '\n' !in "id: " + digits;
  }

  lemma CommentIgnored(codec: Codec, stops: Event -> bool, c: Client, lines: seq<string>, clean: bool)
    requires !c.stopped && |lines| <= 1 && forall i :: 0 <= i < |lines| ==> lines[i] != "" && lines[i][0] == ':'
    ensures Read(codec, stops, c, EMPTY, lines, clean) == c
  {
  }

  lemma KeepAliveRead(codec: Codec, stops: Event -> bool, c: Client, rest: string, clean: bool)
    requires !c.stopped
    ensures Receive(codec, stops, c, KEEP_ALIVE + rest, clean) == Receive(codec, stops, c, rest, clean)
  {
    hide Lines, OnFrame;
    var line := ": keep-alive";
    assert KEEP_ALIVE + rest == line + "\n" + ("" + "\n" + rest);
    LinesOfRest(line, "" + "\n" + rest);
    LinesOfRest("", rest);
    NoCR(line);
    NoCR("");
    var lines := Lines(rest);
    assert Read(codec, stops, c, EMPTY, [""] + lines, clean) == Read(codec, stops, c, EMPTY, lines, clean) by {
      assert ([""] + lines)[1..] == lines;
    }
    assert ([line] + ([""] + lines))[1..] == [""] + lines;
  }

  lemma KeepAliveCut(codec: Codec, stops: Event -> bool, c: Client, n: nat, clean: bool)
    requires !c.stopped && n < |KEEP_ALIVE|
    ensures Receive(codec, stops, c, KEEP_ALIVE[..n], clean) == c
  {
    hide Lines, OnFrame;
    var line := ": keep-alive";
    var m := if n <= |line| then n else |line|;
    var cut := line[..m];
    assert forall ch :: ch in cut ==> ch in line;
    if n <= |line| {
      assert KEEP_ALIVE[..n] == cut;
      LinesOfLast(cut);
    } else {
      assert KEEP_ALIVE[..n] == cut + "\n" + "";
      LinesOfRest(cut, "");
      LinesOfLast("");
    }
    NoCR(cut);
    CommentIgnored(codec, stops, c, Lines(KEEP_ALIVE[..n]), clean);
  }

  lemma {:induction false} StoppedStays(stops: Event -> bool, c: Client, es: seq<Event>)
    requires c.stopped
    ensures HandleAll(stops, c, es) == c
  {
    if es != [] {
      StoppedStays(stops, c, es[1..]);
    }
  }

  /** However many bytes of the server's output arrive, and however the stream ends, the client ends up
      as if it had handled the first `k` events of that output and nothing else. */
  lemma {:induction false} StreamCut(codec: Codec, stops: Event -> bool, c: Client, ps: seq<Piece>, n: nat, clean: bool)
    returns (k: nat)
    requires Faithful(codec) && PlainPieces(ps) && n <= |Bytes(codec, ps)|
    ensures k <= |Events(ps)|
    ensures Receive(codec, stops, c, Bytes(codec, ps)[..n], clean) == HandleAll(stops, c, Events(ps)[..k])
    ensures n == |Bytes(codec, ps)| && !HandleAll(stops, c, Events(ps)[..k]).stopped ==> k == |Events(ps)|
    decreases |ps|
  {
    hide Lines, Handle, Dispatch, Frame;
    if c.stopped {
      k := 0;
    } else if ps == [] {
      k := 0;
      LinesOfLast("");
      NothingPending(codec, stops, c, EMPTY);
    } else if ps[0].KeepAlive? {
      var size := |KEEP_ALIVE|;
      if n < size {
        k := 0;
        assert Bytes(codec, ps)[..n] == KEEP_ALIVE[..n];
        KeepAliveCut(codec, stops, c, n, clean);
      } else {
        var rest := Bytes(codec, ps[1..])[..n - size];
        assert Bytes(codec, ps)[..n] == KEEP_ALIVE + rest;
        KeepAliveRead(codec, stops, c, rest, clean);
        k := StreamCut(codec, stops, c, ps[1..], n - size, clean);
        assert Events(ps) == Events(ps[1..]);
      }
    } else {
      k := EventCut(codec, stops, c, ps, n, clean);
    }
  }

  lemma {:induction false} EventCut(codec: Codec, stops: Event -> bool, c: Client, ps: seq<Piece>, n: nat, clean: bool)
    returns (k: nat)
    requires Faithful(codec) && PlainPieces(ps) && n <= |Bytes(codec, ps)|
    requires !c.stopped && ps != [] && ps[0].EventPiece?
    ensures k <= |Events(ps)|
    ensures Receive(codec, stops, c, Bytes(codec, ps)[..n], clean) == HandleAll(stops, c, Events(ps)[..k])
    ensures n == |Bytes(codec, ps)| && !HandleAll(stops, c, Events(ps)[..k]).stopped ==> k == |Events(ps)|
    decreases |ps|, 0
  {
    hide Lines, Handle, Dispatch, HeaderLines, Bytes, Events, Frame, FrameFrom, HandleAll;
    var e := ps[0].event;
    var frame := Frame(codec, e);
    FrameIs(codec, e);
    HeadersGood(e);
    FirstPiece(codec, ps);
    if n < |frame| {
      assert Bytes(codec, ps)[..n] == frame[..n];
      FrameCut(codec, stops, c, e, EMPTY, HeaderLines(e), n, clean);
      k := if Receive(codec, stops, c, frame[..n], clean) == c then 0 else 1;
      assert Events(ps)[..1] == [e] && Events(ps)[..0] == [];
      OneHandled(stops, c, e);
      NoneHandled(stops, c);
    } else {
      var rest := Bytes(codec, ps[1..])[..n - |frame|];
      assert Bytes(codec, ps)[..n] == frame + rest;
      FrameRead(codec, stops, c, e, EMPTY, HeaderLines(e), rest, clean);
      var m := StreamCut(codec, stops, Handle(stops, c, e), ps[1..], n - |frame|, clean);
      k := m + 1;
      assert Events(ps)[..k] == [e] + Events(ps[1..])[..m];
      FirstHandled(stops, c, e, Events(ps[1..])[..m]);
    }
  }

  lemma FrameIs(codec: Codec, e: Event)
    ensures Frame(codec, e) == FrameFrom(codec, e, HeaderLines(e))
  {
    hide HeaderLines, Terminated;
    assert "data: " + codec.encode(e) == DataLine(codec, e);
  }

  lemma FirstPiece(codec: Codec, ps: seq<Piece>)
    requires ps != [] && ps[0].EventPiece?
    ensures Bytes(codec, ps) == Frame(codec, ps[0].event) + Bytes(codec, ps[1..])
    ensures Events(ps) == [ps[0].event] + Events(ps[1..])
  {
    hide Frame;
  }

  lemma NoneHandled(stops: Event -> bool, c: Client)
    ensures HandleAll(stops, c, []) == c
  {
  }

  lemma FirstHandled(stops: Event -> bool, c: Client, e: Event, es: seq<Event>)
    ensures HandleAll(stops, c, [e] + es) == HandleAll(stops, Handle(stops, c, e), es)
  {
    hide Handle;
    assert ([e] + es)[1..] == es;
  }

  lemma OneHandled(stops: Event -> bool, c: Client, e: Event)
    ensures HandleAll(stops, c, [e]) == Handle(stops, c, e)
  {
  }

  // ---------------------------------------------------------------- any sequence of connections

  ghost predicate Increasing(log: seq<Event>) {
    && (forall i :: 0 <= i < |log| ==> log[i].seqNo > 0 && Plain(log[i]))
    && (forall i, j :: 0 <= i < j < |log| ==> log[i].seqNo < log[j].seqNo)
  }

  /** The first log position after a cursor. */
  ghost predicate Resumes(log: seq<Event>, cursor: nat, i: nat) {
    && i <= |log|
    && (forall x :: 0 <= x < i ==> log[x].seqNo <= cursor)
    && (forall x :: i <= x < |log| ==> log[x].seqNo > cursor)
  }

  /** A connection: what the server wrote, how much of it arrived, and whether the read ended without an
      error. */
  datatype Connection = Connection(pieces: seq<Piece>, arrived: nat, clean: bool)

  /** The server answered with the log from the client's cursor up to somewhere, with keep-alives anywhere,
      and possibly one failure event, which has no sequence number, at the end. */
  ghost predicate Served(codec: Codec, log: seq<Event>, cursor: nat, conn: Connection) {
    && PlainPieces(conn.pieces) && conn.arrived <= |Bytes(codec, conn.pieces)|
    && exists i: nat, j: nat, failure: seq<Event> ::
         && Resumes(log, cursor, i) && i <= j <= |log| && |failure| <= 1
         && (forall x :: 0 <= x < |failure| ==> failure[x].seqNo == 0)
         && Events(conn.pieces) == log[i..j] + failure
  }

  function Connect(codec: Codec, stops: Event -> bool, c: Client, conn: Connection): Client
    requires conn.arrived <= |Bytes(codec, conn.pieces)|
  {
    Receive(codec, stops, c, Bytes(codec, conn.pieces)[..conn.arrived], conn.clean)
  }

  /** The reconnect loop: each connection resumes from the cursor the previous ones left. */
  ghost predicate ServedRun(codec: Codec, stops: Event -> bool, log: seq<Event>, c: Client, conns: seq<Connection>)
    decreases |conns|
  {
    conns == [] || (Served(codec, log, c.cursor, conns[0])
                    && ServedRun(codec, stops, log, Connect(codec, stops, c, conns[0]), conns[1..]))
  }

  ghost function Follow(codec: Codec, stops: Event -> bool, log: seq<Event>, c: Client, conns: seq<Connection>): Client
    requires ServedRun(codec, stops, log, c, conns)
    decreases |conns|
  {
    if conns == [] then c else Follow(codec, stops, log, Connect(codec, stops, c, conns[0]), conns[1..])
  }

  /** The client has accepted exactly the log from its start cursor up to its cursor. */
  ghost predicate UpToDate(log: seq<Event>, start: nat, c: Client, from: nat) {
    && Resumes(log, start, from)
    && from + |c.accepted| <= |log| && c.accepted == log[from..from + |c.accepted|]
    && c.cursor == (if c.accepted == [] then start else log[from + |c.accepted| - 1].seqNo)
  }

  lemma {:induction false} HandleSlice(stops: Event -> bool, log: seq<Event>, start: nat, c: Client, from: nat, m: nat)
    requires Increasing(log) && UpToDate(log, start, c, from) && from + |c.accepted| + m <= |log|
    ensures UpToDate(log, start, HandleAll(stops, c, log[from + |c.accepted|..from + |c.accepted| + m]), from)
    decreases m
  {
    var i := from + |c.accepted|;
    if c.stopped {
      StoppedStays(stops, c, log[i..i + m]);
    } else if m > 0 {
      var next := Handle(stops, c, log[i]);
      HandleNext(stops, log, start, c, from);
      HandleSlice(stops, log, start, next, from, m - 1);
      assert log[i..i + m][1..] == log[i + 1..i + m];
    }
  }

  lemma HandleNext(stops: Event -> bool, log: seq<Event>, start: nat, c: Client, from: nat)
    requires Increasing(log) && UpToDate(log, start, c, from) && from + |c.accepted| < |log| && !c.stopped
    ensures var next := Handle(stops, c, log[from + |c.accepted|]);
            UpToDate(log, start, next, from) && |next.accepted| == |c.accepted| + 1
  {
  }

  lemma {:induction false} HandleAllSnoc(stops: Event -> bool, c: Client, es: seq<Event>, e: Event)
    ensures HandleAll(stops, c, es + [e]) == Handle(stops, HandleAll(stops, c, es), e)
    decreases |es|
  {
    if es == [] {
      OneHandled(stops, c, e);
      assert es + [e] == [e];
    } else {
      HandleAllSnoc(stops, Handle(stops, c, es[0]), es[1..], e);
      assert (es + [e])[1..] == es[1..] + [e];
    }
  }

  lemma {:induction false} ResumesOnce(log: seq<Event>, cursor: nat, i: nat)
    requires Resumes(log, cursor, i)
    ensures i == FirstAfter(log, cursor)
  {
    if i < |log| {
      assert log[|log| - 1].seqNo > cursor;
      ResumesOnce(log[..|log| - 1], cursor, i);
    }
  }

  lemma UpToDateResumes(log: seq<Event>, start: nat, c: Client, from: nat)
    requires Increasing(log) && UpToDate(log, start, c, from)
    ensures Resumes(log, c.cursor, from + |c.accepted|)
  {
  }

  /** Handling any first part of a served connection's events keeps the client up to date. */
  lemma ServedPart(stops: Event -> bool, log: seq<Event>, start: nat, c: Client, from: nat, j: nat, failure: seq<Event>, k: nat)
    requires Increasing(log) && UpToDate(log, start, c, from) && from + |c.accepted| <= j <= |log|
    requires |failure| <= 1 && (forall x :: 0 <= x < |failure| ==> failure[x].seqNo == 0)
    requires k <= j - (from + |c.accepted|) + |failure|
    ensures UpToDate(log, start, HandleAll(stops, c, (log[from + |c.accepted|..j] + failure)[..k]), from)
  {
    hide Handle, HandleAll, UpToDate;
    var i := from + |c.accepted|;
    var all := log[i..j] + failure;
    if k <= j - i {
      HandleSlice(stops, log, start, c, from, k);
      assert all[..k] == log[i..i + k];
    } else {
      HandleSlice(stops, log, start, c, from, j - i);
      assert all[..k] == log[i..j] + [failure[0]];
      HandleAllSnoc(stops, c, log[i..j], failure[0]);
      FailureKeeps(stops, HandleAll(stops, c, log[i..j]), failure[0]);
      SameProgress(log, start, HandleAll(stops, c, log[i..j]), HandleAll(stops, c, all[..k]), from);
    }
  }

  lemma SameProgress(log: seq<Event>, start: nat, c: Client, d: Client, from: nat)
    requires UpToDate(log, start, c, from) && d.cursor == c.cursor && d.accepted == c.accepted
    ensures UpToDate(log, start, d, from)
  {
  }

  lemma ConnectKeeps(codec: Codec, stops: Event -> bool, log: seq<Event>, start: nat, c: Client, from: nat, conn: Connection)
    requires Faithful(codec) && Increasing(log) && UpToDate(log, start, c, from) && Served(codec, log, c.cursor, conn)
    ensures UpToDate(log, start, Connect(codec, stops, c, conn), from)
  {
    hide Bytes, Events, Receive, HandleAll, Resumes, Faithful, Increasing, FirstAfter;
    var i: nat, j: nat, failure: seq<Event> :|
      && Resumes(log, c.cursor, i) && i <= j <= |log| && |failure| <= 1
      && (forall x :: 0 <= x < |failure| ==> failure[x].seqNo == 0)
      && Events(conn.pieces) == log[i..j] + failure;
    UpToDateResumes(log, start, c, from);
    ResumesOnce(log, c.cursor, i);
    ResumesOnce(log, c.cursor, from + |c.accepted|);
    var k := StreamCut(codec, stops, c, conn.pieces, conn.arrived, conn.clean);
    ServedPart(stops, log, start, c, from, j, failure, k);
  }

  lemma FailureKeeps(stops: Event -> bool, c: Client, e: Event)
    requires e.seqNo == 0
    ensures Handle(stops, c, e).cursor == c.cursor && Handle(stops, c, e).accepted == c.accepted
  {
  }

  lemma {:induction false} FollowKeeps(codec: Codec, stops: Event -> bool, log: seq<Event>, start: nat, c: Client, from: nat,
                                       conns: seq<Connection>)
    requires Faithful(codec) && Increasing(log) && UpToDate(log, start, c, from)
    requires ServedRun(codec, stops, log, c, conns)
    ensures UpToDate(log, start, Follow(codec, stops, log, c, conns), from)
    decreases |conns|
  {
    if conns != [] {
      ConnectKeeps(codec, stops, log, start, c, from, conns[0]);
      FollowKeeps(codec, stops, log, start, Connect(codec, stops, c, conns[0]), from, conns[1..]);
    }
  }

  lemma FreshUpToDate(log: seq<Event>, start: nat, from: nat)
    requires Resumes(log, start, from)
    ensures UpToDate(log, start, Client(start, [], false), from)
  {
  }

  /** Over any sequence of connections, each cut at any byte and resumed from the cursor, the events the
      client accepts are a gap-free, duplicate-free, in-order run of the log right after its start. */
  lemma AcceptedOnceInOrder(codec: Codec, stops: Event -> bool, log: seq<Event>, start: nat, from: nat, conns: seq<Connection>)
    requires Faithful(codec) && Increasing(log) && Resumes(log, start, from)
    requires ServedRun(codec, stops, log, Client(start, [], false), conns)
    ensures var end := Follow(codec, stops, log, Client(start, [], false), conns);
            from + |end.accepted| <= |log| && end.accepted == log[from..from + |end.accepted|]
  {
    hide Faithful, Increasing, Resumes, ServedRun, Follow;
    FreshUpToDate(log, start, from);
    FollowKeeps(codec, stops, log, start, Client(start, [], false), from, conns);
  }

  /** An uncut stream that does not stop the client delivers all of its events. */
  lemma UncutDelivers(codec: Codec, stops: Event -> bool, c: Client, ps: seq<Piece>, clean: bool)
    requires Faithful(codec) && PlainPieces(ps) && !Receive(codec, stops, c, Bytes(codec, ps), clean).stopped
    ensures Receive(codec, stops, c, Bytes(codec, ps), clean) == HandleAll(stops, c, Events(ps))
  {
    hide Bytes, Events, Receive, HandleAll;
    var k := StreamCut(codec, stops, c, ps, |Bytes(codec, ps)|, clean);
    assert Bytes(codec, ps)[..|Bytes(codec, ps)|] == Bytes(codec, ps);
    assert Events(ps)[..|Events(ps)|] == Events(ps);
  }

  // ---------------------------------------------------------------- the loops

  function FirstAfter(log: seq<Event>, after: nat): (i: nat)
    ensures i <= |log|
  {
    if log == [] || log[|log| - 1].seqNo <= after then |log| else FirstAfter(log[..|log| - 1], after)
  }

  const BATCH: nat := 500

  /** The store's listing: the first events after the cursor, at most one batch. */
  function ListEvents(log: seq<Event>, after: nat): seq<Event> {
    var i := FirstAfter(log, after);
    if |log| - i <= BATCH then log[i..] else log[i..i + BATCH]
  }

  lemma {:induction false} FirstAfterResumes(log: seq<Event>, after: nat)
    requires Increasing(log)
    ensures Resumes(log, after, FirstAfter(log, after))
  {
    if log != [] && log[|log| - 1].seqNo > after {
      FirstAfterResumes(log[..|log| - 1], after);
    }
  }

  /** The client's reader as it is written: a loop over the lines that fills a frame and dispatches it at
      every empty line. */
  method ScanChatEventStream(codec: Codec, stops: Event -> bool, start: Client, bytes: string, clean: bool) returns (c: Client)
    requires !start.stopped
    ensures c == Receive(codec, stops, start, bytes, clean)
  {
    hide Lines, Dispatch, Collect;
    c := start;
    var frame := EMPTY;
    var lines := Lines(bytes);
    for i := 0 to |lines|
      invariant !c.stopped
      invariant Read(codec, stops, c, frame, lines[i..], clean) == Receive(codec, stops, start, bytes, clean)
    {
      assert lines[i..][1..] == lines[i + 1..];
      if lines[i] == "" {
        c := Dispatch(codec, stops, c, frame);
        frame := EMPTY;
        if c.stopped {
          return;
        }
      } else {
        frame := Collect(frame, lines[i]);
      }
    }
    if clean {
      c := Dispatch(codec, stops, c, frame);
    }
  }

  function Pieces(es: seq<Event>): seq<Piece> {
    if es == [] then [] else Pieces(es[..|es| - 1]) + [EventPiece(es[|es| - 1])]
  }

  lemma FirstBytes(codec: Codec, ps: seq<Piece>)
    ensures Bytes(codec, ps) == if ps == [] then "" else PieceBytes(codec, ps[0]) + Bytes(codec, ps[1..])
  {
    hide PieceBytes;
  }

  lemma Associates(a: string, b: string, c: string)
    ensures a + (b + c) == (a + b) + c
  {
  }

  lemma {:induction false} BytesConcat(codec: Codec, ps: seq<Piece>, qs: seq<Piece>)
    ensures Bytes(codec, ps + qs) == Bytes(codec, ps) + Bytes(codec, qs)
  {
    hide Bytes, PieceBytes;
    FirstBytes(codec, ps);
    if ps == [] {
      assert ps + qs == qs;
      assert "" + Bytes(codec, qs) == Bytes(codec, qs);
    } else {
      BytesConcat(codec, ps[1..], qs);
      FirstBytes(codec, ps + qs);
      assert (ps + qs)[1..] == ps[1..] + qs;
      Associates(PieceBytes(codec, ps[0]), Bytes(codec, ps[1..]), Bytes(codec, qs));
    }
  }

  lemma {:induction false} EventsConcat(ps: seq<Piece>, qs: seq<Piece>)
    ensures Events(ps + qs) == Events(ps) + Events(qs)
    ensures PlainPieces(ps) && PlainPieces(qs) ==> PlainPieces(ps + qs)
  {
    hide PieceEvents;
    if ps == [] {
      assert ps + qs == qs;
    } else {
      EventsConcat(ps[1..], qs);
      assert (ps + qs)[1..] == ps[1..] + qs;
    }
  }

  lemma OnePiece(codec: Codec, p: Piece)
    ensures Bytes(codec, [p]) == PieceBytes(codec, p) && Events([p]) == PieceEvents(p)
    ensures p.KeepAlive? ==> PlainPieces([p])
  {
  }

  /** One more event. */
  lemma PieceMore(codec: Codec, es: seq<Event>, e: Event)
    ensures Bytes(codec, Pieces(es + [e])) == Bytes(codec, Pieces(es)) + Frame(codec, e)
    ensures Events(Pieces(es)) == es ==> Events(Pieces(es + [e])) == es + [e]
  {
    hide Frame, Bytes, Events;
    assert (es + [e])[..|es|] == es;
    BytesConcat(codec, Pieces(es), [EventPiece(e)]);
    EventsConcat(Pieces(es), [EventPiece(e)]);
    OnePiece(codec, EventPiece(e));
  }

  lemma NoPieces(codec: Codec)
    ensures Bytes(codec, Pieces([])) == "" && Events(Pieces([])) == []
  {
  }

  /** Writes a listed batch. */
  method WriteEvents(codec: Codec, events: seq<Event>) returns (out: string)
    ensures out == Bytes(codec, Pieces(events)) && Events(Pieces(events)) == events
  {
    hide Frame, Bytes, Events, Pieces;
    out := "";
    NoPieces(codec);
    assert events[..0] == [];
    for k := 0 to |events|
      invariant out == Bytes(codec, Pieces(events[..k])) && Events(Pieces(events[..k])) == events[..k]
    {
      PieceMore(codec, events[..k], events[k]);
      assert events[..k] + [events[k]] == events[..k + 1];
      out := out + Frame(codec, events[k]);
    }
    assert events[..|events|] == events;
  }

  lemma {:induction false} PlainBatch(es: seq<Event>)
    requires forall x :: 0 <= x < |es| ==> Plain(es[x])
    ensures PlainPieces(Pieces(es))
  {
    if es != [] {
      PlainBatch(es[..|es| - 1]);
    }
  }

  /** One round of the drain loop: the listing gives the log as it is then, after which a keep-alive may be
      due, or it fails. */
  datatype Round = Listed(log: seq<Event>, beat: bool) | ListFailed

  /** Every listing shows a beginning of the final log. */
  predicate Snapshots(rounds: seq<Round>, log: seq<Event>) {
    forall r :: 0 <= r < |rounds| && rounds[r].Listed? ==> rounds[r].log <= log
  }

  function Advance(at: nat, n: nat): nat {
    if n <= at then at else if n - at <= 500 then n else at + 500
  }

  /** How far into the log the rounds get: each adds at most one batch of what its listing has beyond that, up
      to the first that fails. */
  function DrainedTo(rounds: seq<Round>, start: nat): nat
    decreases |rounds|
  {
    if rounds == [] || rounds[0].ListFailed? then start else DrainedTo(rounds[1..], Advance(start, |rounds[0].log|))
  }

  predicate SomeFailed(rounds: seq<Round>) {
    exists r :: 0 <= r < |rounds| && rounds[r].ListFailed?
  }

  /** The output so far is the log from `i` to `j`, and the next listing goes on from there. */
  ghost predicate WrittenTo(codec: Codec, log: seq<Event>, i: nat, out: string, pieces: seq<Piece>, after: nat, j: nat) {
    && i <= j <= |log| && Resumes(log, after, j)
    && out == Bytes(codec, pieces) && PlainPieces(pieces) && Events(pieces) == log[i..j]
  }

  method OneRound(codec: Codec, ghost log: seq<Event>, round: Round, out0: string, after0: nat,
                  ghost pieces0: seq<Piece>, ghost i: nat, ghost j: nat)
    returns (out: string, after: nat, ghost pieces: seq<Piece>)
    requires Increasing(log) && round.Listed? && round.log <= log && WrittenTo(codec, log, i, out0, pieces0, after0, j)
    ensures WrittenTo(codec, log, i, out, pieces, after, Advance(j, |round.log|))
  {
    hide Bytes, Events, Pieces, ListEvents, Resumes, Increasing, PlainPieces;
    ListedNext(log, round.log, j, after0);
    var events := ListEvents(round.log, after0);
    var written := WriteEvents(codec, events);
    WrittenMore(codec, log, i, j, pieces0, Pieces(events), j + |events|);
    out, pieces, after := out0 + written, pieces0 + Pieces(events), after0;
    if events != [] {
      after := events[|events| - 1].seqNo;
    }
    if round.beat {
      ghost var k := j + |events|;
      assert log[k..k] == [];
      OnePiece(codec, KeepAlive);
      WrittenMore(codec, log, i, k, pieces, [KeepAlive], k);
      out, pieces := out + KEEP_ALIVE, pieces + [KeepAlive];
    }
  }

  /** One connection of the server's drain loop over successive listings of an append-only log; a listing that
      fails is reported by an event without a sequence number and ends the connection. The output is that of a
      served connection and reaches exactly as far as the listings allow. */
  method HandleSessionStream(codec: Codec, ghost log: seq<Event>, rounds: seq<Round>, cursor: nat, failure: Event)
    returns (out: string, ghost pieces: seq<Piece>, ghost i: nat, ghost j: nat)
    requires Increasing(log) && Snapshots(rounds, log) && failure.seqNo == 0 && Plain(failure)
    ensures out == Bytes(codec, pieces) && PlainPieces(pieces)
    ensures Resumes(log, cursor, i) && i <= j <= |log| && j == DrainedTo(rounds, i)
    ensures Events(pieces) == log[i..j] + if SomeFailed(rounds) then [failure] else []
    ensures forall n: nat, clean :: n <= |out| ==> Served(codec, log, cursor, Connection(pieces, n, clean))
  {
    hide Bytes, Events, Resumes, Increasing, PlainPieces, WrittenTo, Frame;
    var after := cursor;
    out, pieces, i := "", [], FirstAfter(log, cursor);
    NothingWritten(codec, log, cursor, i);
    j := i;
    var r := 0;
    while r < |rounds|
      invariant r <= |rounds| && Resumes(log, cursor, i) && WrittenTo(codec, log, i, out, pieces, after, j)
      invariant !SomeFailed(rounds[..r]) && DrainedTo(rounds[r..], j) == DrainedTo(rounds, i)
    {
      assert rounds[r..][1..] == rounds[r + 1..] && rounds[r..][0] == rounds[r];
      if rounds[r].ListFailed? {
        out, pieces := FinishFailed(codec, log, i, j, out, pieces, after, failure);
        ServedOutput(codec, log, cursor, pieces, i, j, [failure]);
        return;
      }
      out, after, pieces := OneRound(codec, log, rounds[r], out, after, pieces, i, j);
      j := Advance(j, |rounds[r].log|);
      r := r + 1;
    }
    assert rounds[..r] == rounds;
    WrittenEnd(codec, log, i, out, pieces, after, j);
    ServedOutput(codec, log, cursor, pieces, i, j, []);
  }

  /** The failure event goes out last. */
  method FinishFailed(codec: Codec, ghost log: seq<Event>, ghost i: nat, ghost j: nat, out0: string, ghost pieces0: seq<Piece>,
                      ghost after: nat, failure: Event)
    returns (out: string, ghost pieces: seq<Piece>)
    requires WrittenTo(codec, log, i, out0, pieces0, after, j) && Plain(failure)
    ensures i <= j <= |log| && out == Bytes(codec, pieces) && PlainPieces(pieces) && Events(pieces) == log[i..j] + [failure]
  {
    hide Bytes, Events, Frame, Resumes;
    pieces := pieces0 + [EventPiece(failure)];
    BytesConcat(codec, pieces0, [EventPiece(failure)]);
    EventsConcat(pieces0, [EventPiece(failure)]);
    OnePiece(codec, EventPiece(failure));
    out := out0 + Frame(codec, failure);
  }

  lemma NothingWritten(codec: Codec, log: seq<Event>, cursor: nat, i: nat)
    requires Increasing(log) && i == FirstAfter(log, cursor)
    ensures Resumes(log, cursor, i) && WrittenTo(codec, log, i, "", [], cursor, i)
  {
    hide FirstAfter, Increasing, Resumes;
    EmptyOutput(codec);
    FirstAfterResumes(log, cursor);
    assert log[i..i] == [];
  }

  lemma WrittenEnd(codec: Codec, log: seq<Event>, i: nat, out: string, pieces: seq<Piece>, after: nat, j: nat)
    requires WrittenTo(codec, log, i, out, pieces, after, j)
    ensures i <= j <= |log| && out == Bytes(codec, pieces) && PlainPieces(pieces) && Events(pieces) == log[i..j] + []
  {
    hide Bytes, Events, Resumes, PlainPieces;
  }

  lemma ServedOutput(codec: Codec, log: seq<Event>, cursor: nat, pieces: seq<Piece>, i: nat, j: nat, failure: seq<Event>)
    requires PlainPieces(pieces) && Resumes(log, cursor, i) && i <= j <= |log| && Events(pieces) == log[i..j] + failure
    requires |failure| <= 1 && forall x :: 0 <= x < |failure| ==> failure[x].seqNo == 0
    ensures forall n: nat, clean :: n <= |Bytes(codec, pieces)| ==> Served(codec, log, cursor, Connection(pieces, n, clean))
  {
    hide Bytes, Events, Resumes, PlainPieces;
  }

  /** Output that continues the log where it stopped. */
  lemma WrittenMore(codec: Codec, log: seq<Event>, i: nat, j: nat, pieces: seq<Piece>, more: seq<Piece>, k: nat)
    requires i <= j <= k <= |log| && Events(pieces) == log[i..j] && Events(more) == log[j..k]
    requires PlainPieces(pieces) && PlainPieces(more)
    ensures Bytes(codec, pieces + more) == Bytes(codec, pieces) + Bytes(codec, more)
    ensures Events(pieces + more) == log[i..k] && PlainPieces(pieces + more)
  {
    hide Bytes, Events, PlainPieces;
    BytesConcat(codec, pieces, more);
    EventsConcat(pieces, more);
  }

  lemma EmptyOutput(codec: Codec)
    ensures Bytes(codec, []) == "" && Events([]) == [] && PlainPieces([])
  {
  }

  /** What a snapshot lists after the last written event continues the log where it stopped. */
  lemma ListedNext(log: seq<Event>, shorter: seq<Event>, j: nat, after: nat)
    requires Increasing(log) && shorter <= log && Resumes(log, after, j)
    ensures var es, k := ListEvents(shorter, after), Advance(j, |shorter|);
            && j + |es| == k <= |log| && es == log[j..k] && PlainPieces(Pieces(es))
            && Resumes(log, if es == [] then after else es[|es| - 1].seqNo, k)
  {
    hide PlainPieces, Pieces, Increasing, ListEvents, Resumes;
    ListedIs(log, shorter, j, after);
    var k := Advance(j, |shorter|);
    PlainSlice(log, j, k);
    PlainBatch(log[j..k]);
    if j < k {
      ResumesBehind(log, k);
    }
  }

  lemma ListedIs(log: seq<Event>, shorter: seq<Event>, j: nat, after: nat)
    requires shorter <= log && Resumes(log, after, j)
    ensures Advance(j, |shorter|) <= |log| && ListEvents(shorter, after) == log[j..Advance(j, |shorter|)]
  {
    hide FirstAfter;
    ResumesOnce(shorter, after, if j <= |shorter| then j else |shorter|);
  }

  lemma PlainSlice(log: seq<Event>, j: nat, k: nat)
    requires Increasing(log) && j <= k <= |log|
    ensures forall x :: 0 <= x < k - j ==> Plain(log[j..k][x])
  {
  }

  lemma ResumesBehind(log: seq<Event>, k: nat)
    requires Increasing(log) && 0 < k <= |log|
    ensures Resumes(log, log[k - 1].seqNo, k)
  {
  }
}
