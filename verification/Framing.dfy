/**
 The receiving half of the SDK's IPC client (packages/sdk/src/client.ts): a text stream arrives in
 arbitrary chunks and is cut into JSON lines. JSON parsing is an oracle; a chunk is text that has
 already been decoded.
 */
module Framing {
  import opened Text
  import opened Seqs

  const PROTOCOL_VERSION := 1

  /** What `JSON.parse` yields: an exception, a falsy value, or an object with a version field. */
  datatype Parsed<+M> = Malformed | Falsy | Envelope(v: int, msg: M)

  /** JavaScript white space, as removed by `trim`. */
  predicate JsSpace(c: char) {
    || '\t' <= c <= '\r' || c == ' ' || c == '\U{00A0}' || c == '\U{1680}'
    || '\U{2000}' <= c <= '\U{200A}' || c == '\U{2028}' || c == '\U{2029}'
    || c == '\U{202F}' || c == '\U{205F}' || c == '\U{3000}' || c == '\U{FEFF}'
  }

  predicate Blank(line: string) {
    forall c :: c in line ==> JsSpace(c)
  }

  /** The messages one line hands to `onMessage`: at most one. */
  function MessageOf<M>(line: string, parse: string -> Parsed<M>): seq<M> {
    if Blank(line) then []
    else match parse(line)
      case Envelope(v, msg) => if v == PROTOCOL_VERSION then [msg] else []
      case _ => []
  }

  function MessagesOf<M>(lines: seq<string>, parse: string -> Parsed<M>): seq<M> {
    if lines == [] then [] else MessageOf(lines[0], parse) + MessagesOf(lines[1..], parse)
  }

  /** The lines of a text that are terminated by a newline. */
  function CompleteLines(text: string): seq<string> {
    Init(Split(text, '\n'))
  }

  /** What follows the last newline. */
  function Rest(text: string): (r: string)
    ensures '\n' !in r
  {
    SplitClean(text, '\n');
    Last(Split(text, '\n'))
  }

  /** The messages handed over for a text: those of its complete lines, in order. */
  function Framed<M>(text: string, parse: string -> Parsed<M>): seq<M> {
    MessagesOf(CompleteLines(text), parse)
  }

  function Concat(chunks: seq<string>): string {
    if chunks == [] then "" else chunks[0] + Concat(chunks[1..])
  }

  lemma {:induction false} MessagesOfAppend<M>(a: seq<string>, b: seq<string>, parse: string -> Parsed<M>)
    ensures MessagesOf(a + b, parse) == MessagesOf(a, parse) + MessagesOf(b, parse)
  {
    if a == [] {
      assert a + b == b;
    } else {
      assert (a + b)[1..] == a[1..] + b;
      MessagesOfAppend(a[1..], b, parse);
    }
  }

  /** Framing a stream in two pieces, carrying the unfinished line over, is framing it whole. */
  lemma FramingAppend<M>(a: string, b: string, parse: string -> Parsed<M>)
    ensures Framed(a + b, parse) == Framed(a, parse) + Framed(Rest(a) + b, parse)
    ensures Rest(a + b) == Rest(Rest(a) + b)
  {
    SplitAppend(a, b, '\n');
    var first, later := CompleteLines(a), CompleteLines(Rest(a) + b);
    assert CompleteLines(a + b) == first + later;
    MessagesOfAppend(first, later, parse);
  }

  lemma CutFirstLine(text: string, nl: nat)
    requires nl < |text| && text[nl] == '\n' && '\n' !in text[..nl]
    ensures CompleteLines(text) == [text[..nl]] + CompleteLines(text[nl + 1..])
    ensures Rest(text) == Rest(text[nl + 1..])
  {
    SplitFirst(text[..nl], text[nl + 1..], '\n');
    assert text[..nl] + (['\n'] + text[nl + 1..]) == text;
  }

  /** One round of the scan: the first line is handed over, the scan goes on behind it. */
  lemma ConsumeFirstLine<M>(done: seq<M>, text: string, nl: nat, parse: string -> Parsed<M>)
    requires nl < |text| && text[nl] == '\n' && '\n' !in text[..nl]
    ensures done + Framed(text, parse) == done + MessageOf(text[..nl], parse) + Framed(text[nl + 1..], parse)
    ensures Rest(text) == Rest(text[nl + 1..])
  {
    CutFirstLine(text, nl);
    var line, later := text[..nl], CompleteLines(text[nl + 1..]);
    assert ([line] + later)[1..] == later;
    Regroup(done, MessageOf(line, parse), Framed(text[nl + 1..], parse));
  }

  lemma UnfinishedLine<M>(text: string, parse: string -> Parsed<M>)
    requires '\n' !in text
    ensures Framed(text, parse) == [] && Rest(text) == text
  {
    SplitWithout(text, '\n');
  }

  /** The client's receiving state: text after the last newline, and every message handed to `onMessage`. */
  datatype Inbox<M> = Inbox(buffer: string, delivered: seq<M>)

  /** `runOnce` opens a connection; a `data` event brings a chunk. */
  datatype SocketEvent = Opened | Data(chunk: string)

  function Take<M>(inbox: Inbox<M>, event: SocketEvent, parse: string -> Parsed<M>): Inbox<M> {
    match event
    case Opened => Inbox("", inbox.delivered)
    case Data(chunk) =>
      var text := inbox.buffer + chunk;
      Inbox(Rest(text), inbox.delivered + Framed(text, parse))
  }

  function TakeAll<M>(inbox: Inbox<M>, events: seq<SocketEvent>, parse: string -> Parsed<M>): Inbox<M>
    decreases events
  {
    if events == [] then inbox else TakeAll(Take(inbox, events[0], parse), events[1..], parse)
  }

  class IpcClient<M(!new)> {
    var buffer: string
    var delivered: seq<M>
    const parse: string -> Parsed<M>

    constructor (parse: string -> Parsed<M>)
      ensures this.parse == parse && View() == Inbox("", [])
    {
      this.parse := parse;
      buffer, delivered := "", [];
    }

    ghost function View(): Inbox<M>
      reads this
    {
      Inbox(buffer, delivered)
    }

    /** A new connection starts with an empty buffer: a half line of the old one is forgotten. */
    method RunOnce()
      modifies this
      ensures View() == Take(old(View()), Opened, parse)
    {
      buffer := "";
    }

    /** The body of the scan loop: a blank or malformed line is skipped. */
    method HandOver(line: string)
      modifies this`delivered
      ensures delivered == old(delivered) + MessageOf(line, parse)
    {
      if !Blank(line) {
        match parse(line) {
          case Envelope(v, msg) =>
            if v == PROTOCOL_VERSION {
              delivered := delivered + [msg];
            }
          case _ =>
        }
      }
    }

    method OnData(chunk: string)
      modifies this
      ensures View() == Take(old(View()), Data(chunk), parse)
    {
      buffer := buffer + chunk;
      ghost var text, before := buffer, delivered;
      var nl := IndexOf(buffer, '\n');
      while nl >= 0
        invariant nl == IndexOf(buffer, '\n')
        invariant Rest(text) == Rest(buffer)
        invariant before + Framed(text, parse)
               == delivered + Framed(buffer, parse)
        decreases |buffer|
      {
        ConsumeFirstLine(delivered, buffer, nl, parse);
        var line := buffer[..nl];
        buffer := buffer[nl + 1..];
        HandOver(line);
        nl := IndexOf(buffer, '\n');
      }
      UnfinishedLine(buffer, parse);
    }

  }

  function DataEvents(chunks: seq<string>): seq<SocketEvent> {
    seq(|chunks|, i requires 0 <= i < |chunks| => Data(chunks[i]))
  }

  /** Chunk independence: on one connection only the concatenation of the chunks matters. */
  lemma {:induction false} ChunksDoNotMatter<M>(inbox: Inbox<M>, chunks: seq<string>, parse: string -> Parsed<M>)
    requires '\n' !in inbox.buffer
    ensures TakeAll(inbox, DataEvents(chunks), parse) == Take(inbox, Data(Concat(chunks)), parse)
    decreases chunks
  {
    if chunks == [] {
      assert inbox.buffer + "" == inbox.buffer;
      UnfinishedLine(inbox.buffer, parse);
    } else {
      var later := Concat(chunks[1..]);
      assert DataEvents(chunks)[0] == Data(chunks[0]);
      assert DataEvents(chunks)[1..] == DataEvents(chunks[1..]);
      ChunksDoNotMatter(Take(inbox, Data(chunks[0]), parse), chunks[1..], parse);
      TwoChunks(inbox, chunks[0], later, parse);
    }
  }

  lemma TwoChunks<M>(inbox: Inbox<M>, a: string, b: string, parse: string -> Parsed<M>)
    ensures Take(Take(inbox, Data(a), parse), Data(b), parse) == Take(inbox, Data(a + b), parse)
  {
    var text := inbox.buffer + a;
    assert inbox.buffer + (a + b) == text + b;
    FramingAppend(text, b, parse);
    Regroup(inbox.delivered, Framed(text, parse), Framed(Rest(text) + b, parse));
  }

  lemma {:induction false} TakeAllAppend<M>(inbox: Inbox<M>, a: seq<SocketEvent>, b: seq<SocketEvent>,
                                            parse: string -> Parsed<M>)
    ensures TakeAll(inbox, a + b, parse) == TakeAll(TakeAll(inbox, a, parse), b, parse)
    decreases a
  {
    if a == [] {
      assert a + b == b;
    } else {
      assert (a + b)[1..] == a[1..] + b;
      TakeAllAppend(Take(inbox, a[0], parse), a[1..], b, parse);
    }
  }

  /** The events of a client that reconnects: one list of chunks for every connection. */
  function ConnectionEvents(connections: seq<seq<string>>): seq<SocketEvent> {
    if connections == [] then []
    else [Opened] + DataEvents(connections[0]) + ConnectionEvents(connections[1..])
  }

  function FramedEach<M>(connections: seq<seq<string>>, parse: string -> Parsed<M>): seq<M> {
    if connections == [] then []
    else Framed(Concat(connections[0]), parse) + FramedEach(connections[1..], parse)
  }

  /**
   Over any number of reconnects the client hands over, connection by connection, exactly the valid
   complete lines of that connection's text; a half line never runs into the next connection.
   */
  lemma {:induction false} ReconnectsNeverMixLines<M>(inbox: Inbox<M>, connections: seq<seq<string>>,
                                                     parse: string -> Parsed<M>)
    ensures TakeAll(inbox, ConnectionEvents(connections), parse).delivered
         == inbox.delivered + FramedEach(connections, parse)
    decreases connections
  {
    if connections == [] {
    } else {
      var text := Concat(connections[0]);
      var clean := Inbox("", inbox.delivered);
      var data, later := DataEvents(connections[0]), ConnectionEvents(connections[1..]);
      var events := [Opened] + data + later;
      assert events[1..] == data + later;
      TakeAllAppend(clean, data, later, parse);
      ChunksDoNotMatter(clean, connections[0], parse);
      assert "" + text == text;
      var after := Inbox(Rest(text), inbox.delivered + Framed(text, parse));
      ReconnectsNeverMixLines(after, connections[1..], parse);
      Regroup(inbox.delivered, Framed(text, parse), FramedEach(connections[1..], parse));
    }
  }

  /** What the daemon writes: every message encoded and terminated by a newline. */
  function Stream<M>(msgs: seq<M>, encode: M -> string): string {
    if msgs == [] then "" else encode(msgs[0]) + "\n" + Stream(msgs[1..], encode)
  }

  /** The encoder produces one non-blank line per message, and the parser undoes it. */
  ghost predicate LineCodec<M(!new)>(encode: M -> string, parse: string -> Parsed<M>) {
    forall m :: '\n' !in encode(m) && !Blank(encode(m)) && parse(encode(m)) == Envelope(PROTOCOL_VERSION, m)
  }

  lemma {:induction false} StreamFrames<M(!new)>(msgs: seq<M>, encode: M -> string, parse: string -> Parsed<M>)
    requires LineCodec(encode, parse)
    ensures Framed(Stream(msgs, encode), parse) == msgs
    ensures Rest(Stream(msgs, encode)) == ""
  {
    if msgs == [] {
    } else {
      StreamFrames(msgs[1..], encode, parse);
      var line, later := encode(msgs[0]), Stream(msgs[1..], encode);
      var text := line + "\n" + later;
      assert text[..|line|] == line && text[|line| + 1..] == later;
      CutFirstLine(text, |line|);
      assert ([line] + CompleteLines(later))[1..] == CompleteLines(later);
    }
  }

  /** Round trip: however the transport cuts the stream, exactly the messages sent come out. */
  lemma AnyChunkingRoundTrips<M(!new)>(msgs: seq<M>, chunks: seq<string>, encode: M -> string,
                                       parse: string -> Parsed<M>)
    requires LineCodec(encode, parse)
    requires Concat(chunks) == Stream(msgs, encode)
    ensures TakeAll(Inbox("", []), DataEvents(chunks), parse) == Inbox("", msgs)
  {
    ChunksDoNotMatter(Inbox("", []), chunks, parse);
    assert "" + Concat(chunks) == Concat(chunks);
    StreamFrames(msgs, encode, parse);
  }

  /**
   A connection that breaks loses at most the line it was in: what was handed over is every message
   whose line had arrived in full, and what is left over is the beginning of the next one.
   */
  lemma {:induction false} BrokenConnectionDeliversPrefix<M(!new)>(msgs: seq<M>, text: string, encode: M -> string,
                                                                 parse: string -> Parsed<M>) returns (k: nat)
    requires LineCodec(encode, parse)
    requires text <= Stream(msgs, encode)
    ensures k <= |msgs| && Framed(text, parse) == msgs[..k]
    ensures text == Stream(msgs[..k], encode) + Rest(text)
    ensures if k == |msgs| then Rest(text) == "" else Rest(text) <= encode(msgs[k])
    decreases msgs
  {
    if msgs == [] {
      k := 0;
      UnfinishedLine(text, parse);
    } else if |text| <= |encode(msgs[0])| {
      k := 0;
      assert text <= encode(msgs[0]);
      UnfinishedLine(text, parse);
    } else {
      var line := encode(msgs[0]);
      var rest := text[|line| + 1..];
      assert text[..|line|] == line && text == line + "\n" + rest;
      k := BrokenConnectionDeliversPrefix(msgs[1..], rest, encode, parse);
      CutFirstLine(text, |line|);
      OneMoreMessage(msgs, k, rest, encode);
      assert ([line] + CompleteLines(rest))[1..] == CompleteLines(rest);
      k := k + 1;
    }
  }

  lemma OneMoreMessage<M>(msgs: seq<M>, k: nat, rest: string, encode: M -> string)
    requires k < |msgs| && rest == Stream(msgs[1..][..k], encode) + Rest(rest)
    ensures msgs[..k + 1] == [msgs[0]] + msgs[1..][..k]
    ensures encode(msgs[0]) + "\n" + rest == Stream(msgs[..k + 1], encode) + Rest(rest)
  {
    assert msgs[..k + 1][1..] == msgs[1..][..k];
  }

  // ----- Lines that are no messages

  /** What may stand on a line of the stream. */
  datatype Item<M> = Message(msg: M) | Junk(line: string)

  /** Blank, not JSON, a falsy value, or an envelope of another protocol version than 1. */
  predicate Skipped<M>(line: string, parse: string -> Parsed<M>) {
    && '\n' !in line
    && (Blank(line) || !parse(line).Envelope? || parse(line).v != 1)
  }

  function Lines<M>(items: seq<Item<M>>, encode: M -> string): string
    decreases |items|
  {
    if items == [] then ""
    else
      var line := match items[0] case Message(m) => encode(m) case Junk(text) => text;
      line + "\n" + Lines(items[1..], encode)
  }

  function MessagesIn<M>(items: seq<Item<M>>): seq<M>
    decreases |items|
  {
    if items == [] then []
    else (if items[0].Message? then [items[0].msg] else []) + MessagesIn(items[1..])
  }

  lemma {:induction false} ItemsFrame<M(!new)>(items: seq<Item<M>>, encode: M -> string, parse: string -> Parsed<M>)
    requires LineCodec(encode, parse)
    requires forall i :: 0 <= i < |items| && items[i].Junk? ==> Skipped(items[i].line, parse)
    ensures Framed(Lines(items, encode), parse) == MessagesIn(items) && Rest(Lines(items, encode)) == ""
    decreases |items|
  {
    if items == [] {
    } else {
      ItemsFrame(items[1..], encode, parse);
      var line := match items[0] case Message(m) => encode(m) case Junk(text) => text;
      var later := Lines(items[1..], encode);
      var text := line + "\n" + later;
      assert text[..|line|] == line && text[|line| + 1..] == later;
      CutFirstLine(text, |line|);
      assert ([line] + CompleteLines(later))[1..] == CompleteLines(later);
    }
  }

  /** Junk between the messages is skipped: however the stream is cut, exactly the messages come out, in order. */
  lemma JunkIsSkipped<M(!new)>(items: seq<Item<M>>, chunks: seq<string>, encode: M -> string,
                               parse: string -> Parsed<M>)
    requires LineCodec(encode, parse) && Concat(chunks) == Lines(items, encode)
    requires forall i :: 0 <= i < |items| && items[i].Junk? ==> Skipped(items[i].line, parse)
    ensures TakeAll(Inbox("", []), DataEvents(chunks), parse) == Inbox("", MessagesIn(items))
  {
    ChunksDoNotMatter(Inbox("", []), chunks, parse);
    assert "" + Concat(chunks) == Concat(chunks);
    ItemsFrame(items, encode, parse);
  }
}
