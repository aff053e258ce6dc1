/** The RESP2 wire format (Redis serialization protocol specification, sections "Simple strings",
    "Simple errors", "Integers", "Bulk strings", "Null bulk strings" and "Arrays") as the client in
    internal/cache/valkey.go writes and reads it.

    The functions below say what a flat stream of bytes means. `ValkeyConn` reads the same stream
    in whatever pieces the network delivers. */
module Resp {
  import opened Options
  import opened Decimal

  const CRLF: string := "\r\n"

  /** Every byte slice in the source has a length that is a 64-bit `int`. */
  type Bytes = s: string | |s| <= MAX_INT64 witness ""

  // ---------------------------------------------------------------- what a server sends

  datatype Reply =
    | Simple(data: string)
    | Integer(data: string)
    | Bulk(payload: Bytes)
    | Nil

  datatype ReadError =
    | EndOfStream
    | ServerError(message: string)
    | BadPrefix(prefix: char)
    | BadLength(text: string)
    | BadTermination

  /** `Panicked` is the source's `make([]byte, size)` with a negative size. */
  datatype ReadOutcome =
    | Received(reply: Reply)
    | Failed(error: ReadError)
    | Panicked

  datatype Parsed = Parsed(outcome: ReadOutcome, rest: string)

  function BulkFrame(data: string): string {
    "$" + (Itoa(|data|) + CRLF + (data + CRLF))
  }

  function ReplyFrame(reply: Reply): string {
    match reply
    case Simple(data) => "+" + (data + CRLF)
    case Integer(data) => ":" + (data + CRLF)
    case Bulk(payload) => BulkFrame(payload)
    case Nil => "$" + ("-1" + CRLF)
  }

  function ErrorFrame(message: string): string {
    "-" + (message + CRLF)
  }

  /** Line-framed text holds no line feed and does not end in a carriage return. */
  predicate IsLine(text: string) {
    '\n' !in text && (text == "" || text[|text| - 1] != '\r')
  }

  predicate IsSendable(reply: Reply) {
    match reply
    case Simple(data) => IsLine(data)
    case Integer(data) => IsLine(data)
    case Bulk(_) => true
    case Nil => true
  }

  // ---------------------------------------------------------------- what a client sends

  function Frames(parts: seq<Bytes>): string {
    if parts == [] then "" else BulkFrame(parts[0]) + Frames(parts[1..])
  }

  function CommandFrame(parts: seq<Bytes>): string {
    "*" + (Itoa(|parts|) + CRLF + Frames(parts))
  }

  // ---------------------------------------------------------------- what a flat stream means

  /** The position of the first line feed, or the length of the stream when it has none. */
  function LineFeedAt(stream: string): (at: nat)
    ensures at <= |stream|
    ensures forall i :: 0 <= i < at ==> stream[i] != '\n'
    ensures at < |stream| ==> stream[at] == '\n'
  {
    if stream == "" || stream[0] == '\n' then 0 else 1 + LineFeedAt(stream[1..])
  }

  function TrimCarriageReturn(line: string): string {
    if line != "" && line[|line| - 1] == '\r' then line[..|line| - 1] else line
  }

  /** A line up to its line feed, without the line feed and one carriage return before it; a
      stream that ends first is used up. */
  function ParseLine(stream: string): (Option<string>, string) {
    var at := LineFeedAt(stream);
    if at == |stream| then (None, "") else (Some(TrimCarriageReturn(stream[..at])), stream[at + 1..])
  }

  /** The two bytes that close a bulk string. */
  function ParseTerminator(stream: string): (Option<ReadError>, string) {
    if |stream| < 2 then (Some(EndOfStream), "")
    else (if stream[..2] == CRLF then None else Some(BadTermination), stream[2..])
  }

  function ParseBulk(stream: string): Parsed {
    var (line, body) := ParseLine(stream);
    if line.None? then Parsed(Failed(EndOfStream), body) else
      var size := Atoi(line.value);
      if size.None? then Parsed(Failed(BadLength(line.value)), body)
      else if size.value == -1 then Parsed(Received(Nil), body)
      else if size.value < 0 then Parsed(Panicked, body)
      else if |body| < size.value then Parsed(Failed(EndOfStream), "")
      else
        var (error, rest) := ParseTerminator(body[size.value..]);
        if error.Some? then Parsed(Failed(error.value), rest)
        else Parsed(Received(Bulk(body[..size.value])), rest)
  }

  function ParseReply(stream: string): Parsed {
    if stream == "" then Parsed(Failed(EndOfStream), "") else
      var prefix := stream[0];
      if prefix == '$' then ParseBulk(stream[1..])
      else if prefix == '+' || prefix == '-' || prefix == ':' then
        var (line, rest) := ParseLine(stream[1..]);
        if line.None? then Parsed(Failed(EndOfStream), rest)
        else if prefix == '+' then Parsed(Received(Simple(line.value)), rest)
        else if prefix == ':' then Parsed(Received(Integer(line.value)), rest)
        else Parsed(Failed(ServerError(line.value)), rest)
      else Parsed(Failed(BadPrefix(prefix)), stream[1..])
  }

  /** `count` bulk strings read one after the other: the body of a command. */
  function ParseParts(count: nat, stream: string): Option<(seq<Bytes>, string)> {
    if count == 0 then Some(([], stream)) else
      var head := ParseReply(stream);
      if !head.outcome.Received? || !head.outcome.reply.Bulk? then None else
        var tail := ParseParts(count - 1, head.rest);
        if tail.None? then None else Some(([head.outcome.reply.payload] + tail.value.0, tail.value.1))
  }

  /** How a server reads a command: an array header, then that many bulk strings. */
  function ParseCommand(stream: string): Option<(seq<Bytes>, string)> {
    if stream == "" || stream[0] != '*' then None else
      var (line, body) := ParseLine(stream[1..]);
      if line.None? then None else
        var count := Atoi(line.value);
        if count.None? || count.value < 0 then None else ParseParts(count.value, body)
  }

  // ---------------------------------------------------------------- framing laws

  lemma LineFeedIs(stream: string, at: nat)
    requires at < |stream| && stream[at] == '\n'
    requires forall i :: 0 <= i < at ==> stream[i] != '\n'
    ensures LineFeedAt(stream) == at
  {
    var found := LineFeedAt(stream);
    assert found < |stream| ==> stream[found] == '\n';
  }

  lemma LineRoundTrip(text: string, rest: string)
    requires IsLine(text)
    ensures ParseLine(text + CRLF + rest) == (Some(text), rest)
  {
    var stream := text + CRLF + rest;
    var at := |text| + 1;
    assert stream[..at] == text + "\r";
    LineFeedIs(stream, at);
  }

  /** A line cut anywhere before its line feed is not a line. */
  lemma LineCut(text: string, cut: nat)
    requires '\n' !in text && cut < |text + CRLF|
    ensures ParseLine((text + CRLF)[..cut]) == (None, "")
  {
    var stream := (text + CRLF)[..cut];
    assert '\n' !in stream;
  }

  lemma ItoaIsLine(n: int)
    ensures IsLine(Itoa(n))
  {
    ItoaCharacters(n, '\n');
    ItoaCharacters(n, '\r');
    assert Itoa(n)[|Itoa(n)| - 1] in Itoa(n);
  }

  lemma Associative(a: string, b: string, c: string)
    ensures (a + b) + c == a + (b + c)
  {
  }

  lemma TakeDrop(a: string, b: string)
    ensures (a + b)[..|a|] == a && (a + b)[|a|..] == b
  {
  }

  lemma ParseBulkRoundTrip(data: Bytes, rest: string)
    ensures ParseBulk(Itoa(|data|) + CRLF + (data + (CRLF + rest))) == Parsed(Received(Bulk(data)), rest)
  {
    ItoaIsLine(|data|);
    LineRoundTrip(Itoa(|data|), data + (CRLF + rest));
    AtoiItoa(|data|);
    TakeDrop(data, CRLF + rest);
    TakeDrop(CRLF, rest);
  }

  lemma BulkRoundTrip(data: Bytes, rest: string)
    ensures ParseReply(BulkFrame(data) + rest) == Parsed(Received(Bulk(data)), rest)
  {
    var header := Itoa(|data|) + CRLF;
    var body := header + (data + (CRLF + rest));
    Associative("$", header + (data + CRLF), rest);
    Associative(header, data + CRLF, rest);
    Associative(data, CRLF, rest);
    TakeDrop("$", body);
    ParseBulkRoundTrip(data, rest);
  }

  lemma NilRoundTrip(rest: string)
    ensures ParseReply(ReplyFrame(Nil) + rest) == Parsed(Received(Nil), rest)
  {
    var body := "-1" + CRLF + rest;
    Associative("$", "-1" + CRLF, rest);
    TakeDrop("$", body);
    LineRoundTrip("-1", rest);
    AtoiItoa(-1);
    assert Itoa(-1) == "-1";
  }

  function LineOutcome(prefix: char, text: string): ReadOutcome {
    if prefix == '+' then Received(Simple(text))
    else if prefix == ':' then Received(Integer(text))
    else Failed(ServerError(text))
  }

  lemma LineReplyRoundTrip(prefix: char, text: string, rest: string)
    requires prefix == '+' || prefix == ':' || prefix == '-'
    requires IsLine(text)
    ensures ParseReply([prefix] + (text + CRLF) + rest) == Parsed(LineOutcome(prefix, text), rest)
  {
    var body := text + CRLF + rest;
    Associative([prefix], text + CRLF, rest);
    TakeDrop([prefix], body);
    LineRoundTrip(text, rest);
  }

  /** Every reply a server can send is read back unchanged, whatever bytes it carries, and
      reading it uses up exactly its own frame. */
  lemma ReplyRoundTrip(reply: Reply, rest: string)
    requires IsSendable(reply)
    ensures ParseReply(ReplyFrame(reply) + rest) == Parsed(Received(reply), rest)
  {
    match reply
    case Simple(data) => LineReplyRoundTrip('+', data, rest);
    case Integer(data) => LineReplyRoundTrip(':', data, rest);
    case Bulk(payload) => BulkRoundTrip(payload, rest);
    case Nil => NilRoundTrip(rest);
  }

  lemma ErrorRoundTrip(message: string, rest: string)
    requires IsLine(message)
    ensures ParseReply(ErrorFrame(message) + rest) == Parsed(Failed(ServerError(message)), rest)
  {
    LineReplyRoundTrip('-', message, rest);
  }

  /** A prefix of a concatenation ends in its first part, or holds all of that part. */
  lemma CutConcat(a: string, b: string, cut: nat)
    requires cut <= |a + b|
    ensures (a + b)[..cut] == if cut < |a| then a[..cut] else a + b[..cut - |a|]
  {
  }

  lemma ParseBulkCut(data: Bytes, cut: nat)
    requires cut < |Itoa(|data|) + CRLF + (data + CRLF)|
    ensures ParseBulk((Itoa(|data|) + CRLF + (data + CRLF))[..cut]) == Parsed(Failed(EndOfStream), "")
  {
    var size := Itoa(|data|);
    var header := size + CRLF;
    ItoaIsLine(|data|);
    CutConcat(header, data + CRLF, cut);
    if cut < |header| {
      LineCut(size, cut);
    } else {
      LineRoundTrip(size, (data + CRLF)[..cut - |header|]);
      AtoiItoa(|data|);
    }
  }

  lemma BulkCut(data: Bytes, cut: nat)
    requires cut < |BulkFrame(data)|
    ensures ParseReply(BulkFrame(data)[..cut]) == Parsed(Failed(EndOfStream), "")
  {
    hide Itoa, ParseBulk;
    var body := Itoa(|data|) + CRLF + (data + CRLF);
    CutConcat("$", body, cut);
    if cut > 0 {
      TakeDrop("$", body[..cut - 1]);
      ParseBulkCut(data, cut - 1);
    }
  }

  lemma LineReplyCut(prefix: char, text: string, cut: nat)
    requires prefix == '+' || prefix == ':' || prefix == '-'
    requires '\n' !in text && cut < 1 + |text + CRLF|
    ensures ParseReply(([prefix] + (text + CRLF))[..cut]) == Parsed(Failed(EndOfStream), "")
  {
    if cut > 0 {
      CutConcat([prefix], text + CRLF, cut);
      TakeDrop([prefix], (text + CRLF)[..cut - 1]);
      LineCut(text, cut - 1);
    }
  }

  lemma NilCut(cut: nat)
    requires cut < |ReplyFrame(Nil)|
    ensures ParseReply(ReplyFrame(Nil)[..cut]) == Parsed(Failed(EndOfStream), "")
  {
    if cut > 0 {
      CutConcat("$", "-1" + CRLF, cut);
      TakeDrop("$", ("-1" + CRLF)[..cut - 1]);
      LineCut("-1", cut - 1);
    }
  }

  /** A reply cut short anywhere is never taken for a reply: the reader runs out of bytes. */
  lemma CutReplyIsNoReply(reply: Reply, cut: nat)
    requires IsSendable(reply) && cut < |ReplyFrame(reply)|
    ensures ParseReply(ReplyFrame(reply)[..cut]) == Parsed(Failed(EndOfStream), "")
  {
    match reply
    case Simple(data) => LineReplyCut('+', data, cut);
    case Integer(data) => LineReplyCut(':', data, cut);
    case Bulk(payload) => BulkCut(payload, cut);
    case Nil => NilCut(cut);
  }

  /** A line ends in LF or CR LF. */
  predicate IsLineEnd(end: string) {
    end == "\n" || end == CRLF
  }

  lemma ParsedLineWasFramed(stream: string)
    requires ParseLine(stream).0.Some?
    ensures var (line, rest) := ParseLine(stream);
            exists end :: IsLineEnd(end) && stream == line.value + end + rest
  {
    var at := LineFeedAt(stream);
    var text, rest := stream[..at], stream[at + 1..];
    assert stream == text + "\n" + rest;
    if text != "" && text[at - 1] == '\r' {
      assert text == text[..at - 1] + "\r";
      assert stream == text[..at - 1] + CRLF + rest;
      assert IsLineEnd(CRLF);
    } else {
      assert IsLineEnd("\n");
    }
  }

  /** The stream begins with the prefix, the text and the end of a line. */
  predicate StartsWithLine(stream: string, prefix: char, text: string, end: string, rest: string) {
    IsLineEnd(end) && stream == [prefix] + (text + end + rest)
  }

  /** What was read as a line reply was one, */
  lemma LineReplyWasFramed(stream: string)
    ensures var parsed := ParseReply(stream);
            match parsed.outcome
            case Received(Simple(data)) => exists end :: StartsWithLine(stream, '+', data, end, parsed.rest)
            case Received(Integer(data)) => exists end :: StartsWithLine(stream, ':', data, end, parsed.rest)
            case Failed(ServerError(message)) => exists end :: StartsWithLine(stream, '-', message, end, parsed.rest)
            case _ => true
  {
    if stream != "" && (stream[0] == '+' || stream[0] == ':' || stream[0] == '-') && ParseLine(stream[1..]).0.Some? {
      ParsedLineWasFramed(stream[1..]);
      var (line, rest) := ParseLine(stream[1..]);
      var end :| IsLineEnd(end) && stream[1..] == line.value + end + rest;
      assert stream == [stream[0]] + stream[1..];
      assert StartsWithLine(stream, stream[0], line.value, end, rest);
    }
  }

  lemma TerminatedBody(body: string, size: nat)
    requires size <= |body| && ParseTerminator(body[size..]).0.None?
    ensures body == body[..size] + (CRLF + ParseTerminator(body[size..]).1)
  {
    var tail := body[size..];
    assert tail == CRLF + tail[2..];
    assert body == body[..size] + tail;
  }

  /** A line with the length, then the rest. */
  predicate IsSized(stream: string, length: int, size: string, end: string, rest: string) {
    IsLineEnd(end) && Atoi(size) == Some(length) && stream == size + end + rest
  }

  lemma ParsedBulkWasFramed(stream: string)
    ensures var parsed := ParseBulk(stream);
            match parsed.outcome
            case Received(Bulk(payload)) => exists size, end :: IsSized(stream, |payload|, size, end, payload + (CRLF + parsed.rest))
            case Received(Nil) => exists size, end :: IsSized(stream, -1, size, end, parsed.rest)
            case Received(_) => false
            case _ => true
  {
    hide ParseLine, Atoi, ParseTerminator, IsLineEnd;
    var (line, body) := ParseLine(stream);
    if line.Some? && Atoi(line.value).Some? {
      ParsedLineWasFramed(stream);
      var end :| IsLineEnd(end) && stream == line.value + end + body;
      var length := Atoi(line.value).value;
      assert IsSized(stream, length, line.value, end, body);
      hide IsSized;
      if 0 <= length <= |body| && ParseTerminator(body[length..]).0.None? {
        TerminatedBody(body, length);
      }
    }
  }

  /** and what was read as a bulk string had its own length in front of it and CR LF behind it; nil had
      the length -1. */
  lemma BulkWasFramed(stream: string)
    ensures var parsed := ParseReply(stream);
            match parsed.outcome
            case Received(Bulk(payload)) =>
              stream[0] == '$' && exists size, end :: IsSized(stream[1..], |payload|, size, end, payload + (CRLF + parsed.rest))
            case Received(Nil) =>
              stream[0] == '$' && exists size, end :: IsSized(stream[1..], -1, size, end, parsed.rest)
            case _ => true
  {
    hide ParseLine, ParseBulk, IsSized;
    if stream != "" && stream[0] == '$' {
      ParsedBulkWasFramed(stream[1..]);
    }
  }

  /** A run of bulk frames is read back in order, each part once. */
  lemma {:induction false} FramesRoundTrip(parts: seq<Bytes>, rest: string)
    ensures ParseParts(|parts|, Frames(parts) + rest) == Some((parts, rest))
  {
    if parts == [] {
      assert Frames(parts) + rest == rest;
    } else {
      var head, tail := parts[0], Frames(parts[1..]) + rest;
      Associative(BulkFrame(head), Frames(parts[1..]), rest);
      BulkRoundTrip(head, tail);
      FramesRoundTrip(parts[1..], rest);
      assert [head] + parts[1..] == parts;
    }
  }

  lemma CommandRoundTrip(parts: seq<Bytes>, rest: string)
    requires |parts| <= MAX_INT64
    ensures ParseCommand(CommandFrame(parts) + rest) == Some((parts, rest))
  {
    var body := Frames(parts) + rest;
    var header := Itoa(|parts|) + CRLF;
    Associative("*", header + Frames(parts), rest);
    Associative(header, Frames(parts), rest);
    TakeDrop("*", header + body);
    ItoaIsLine(|parts|);
    LineRoundTrip(Itoa(|parts|), body);
    AtoiItoa(|parts|);
    FramesRoundTrip(parts, rest);
  }

  /** Commands delimit themselves: two streams that start with a command and are equal carry the
      same command and the same remainder, so pipelined commands never run into each other. */
  lemma CommandsSelfDelimiting(a: seq<Bytes>, b: seq<Bytes>, afterA: string, afterB: string)
    requires |a| <= MAX_INT64 && |b| <= MAX_INT64
    ensures CommandFrame(a) + afterA == CommandFrame(b) + afterB <==> a == b && afterA == afterB
  {
    CommandRoundTrip(a, afterA);
    CommandRoundTrip(b, afterB);
  }

  // ---------------------------------------------------------------- reading a real connection

  function Flatten(chunks: seq<string>): string {
    if chunks == [] then "" else chunks[0] + Flatten(chunks[1..])
  }

  /** The client's end of a connection: the chunks the network will deliver, any of them possibly
      empty, after which every read fails; and the bytes written so far. */
  class ValkeyConn {
    var incoming: seq<string>
    var outgoing: string

    constructor (chunks: seq<string>)
      ensures incoming == chunks && outgoing == ""
    {
      incoming, outgoing := chunks, "";
    }

    ghost function Rest(): string
      reads this
    {
      Flatten(incoming)
    }

    method WriteCommand(command: Bytes, args: seq<Bytes>)
      modifies `outgoing
      ensures outgoing == old(outgoing) + CommandFrame([command] + args)
    {
      Write([command] + args);
    }

    method Write(parts: seq<Bytes>)
      modifies `outgoing
      ensures outgoing == old(outgoing) + CommandFrame(parts)
    {
      outgoing := outgoing + ("*" + Itoa(|parts|) + CRLF);
      ghost var header := outgoing;
      for i := 0 to |parts|
        invariant outgoing + Frames(parts[i..]) == header + Frames(parts)
      {
        ghost var before := outgoing;
        WritePart(parts[i]);
        assert parts[i..][1..] == parts[i + 1..];
        Associative(before, BulkFrame(parts[i]), Frames(parts[i + 1..]));
      }
      assert outgoing == header + Frames(parts);
      Associative("*", Itoa(|parts|), CRLF);
      Associative("*", Itoa(|parts|) + CRLF, Frames(parts));
      Associative(old(outgoing), "*" + Itoa(|parts|) + CRLF, Frames(parts));
    }

    method WritePart(part: Bytes)
      modifies `outgoing
      ensures outgoing == old(outgoing) + BulkFrame(part)
    {
      outgoing := outgoing + ("$" + Itoa(|part|) + CRLF);
      outgoing := outgoing + part;
      outgoing := outgoing + CRLF;
      ghost var header := Itoa(|part|) + CRLF;
      Associative("$", Itoa(|part|), CRLF);
      Associative(old(outgoing), "$" + header, part);
      Associative(old(outgoing), "$" + header + part, CRLF);
      Associative("$", header, part);
      Associative("$", header + part, CRLF);
      Associative(header, part, CRLF);
    }

    /** One read of at most `limit` bytes. It may return fewer, even none; it fails only when the
        stream has ended. */
    method Read(limit: nat) returns (data: string, ok: bool)
      modifies `incoming
      ensures data + Rest() == old(Rest()) && |data| <= limit
      ensures !ok ==> data == "" && Rest() == ""
      ensures ok ==> |data| == limit || |incoming| < old(|incoming|)
      ensures |incoming| <= old(|incoming|)
    {
      if incoming == [] {
        return "", false;
      }
      var chunk := incoming[0];
      if |chunk| <= limit {
        data, incoming := chunk, incoming[1..];
      } else {
        data, incoming := chunk[..limit], [chunk[limit..]] + incoming[1..];
        assert incoming[1..] == old(incoming)[1..];
        assert chunk == data + chunk[limit..];
      }
      ok := true;
    }

    method ReadByte() returns (b: Option<char>)
      modifies `incoming
      ensures if old(Rest()) == "" then b == None && Rest() == ""
              else b == Some(old(Rest())[0]) && Rest() == old(Rest())[1..]
    {
      var data, ok := Read(1);
      while ok && data == ""
        invariant data + Rest() == old(Rest()) && |data| <= 1
        invariant !ok ==> data == "" && Rest() == ""
        decreases if ok && data == "" then |incoming| + 1 else 0
      {
        data, ok := Read(1);
      }
      b := if ok then Some(data[0]) else None;
    }

    method ReadLine() returns (line: Option<string>)
      modifies `incoming
      ensures (line, Rest()) == ParseLine(old(Rest()))
    {
      var text := "";
      var b := ReadByte();
      while b.Some? && b.value != '\n'
        invariant forall i :: 0 <= i < |text| ==> text[i] != '\n'
        invariant b.Some? ==> old(Rest()) == text + [b.value] + Rest()
        invariant b.None? ==> old(Rest()) == text && Rest() == ""
        decreases b.Some?, |Rest()|
      {
        text := text + [b.value];
        b := ReadByte();
      }
      if b.None? {
        return None;
      }
      LineFeedIs(old(Rest()), |text|);
      assert old(Rest())[..|text|] == text;
      return Some(TrimCarriageReturn(text));
    }

    /** Fills a buffer of the given size, however many reads that takes. */
    method ReadFull(size: nat) returns (data: Option<string>)
      modifies `incoming
      ensures if |old(Rest())| < size then data == None && Rest() == ""
              else data == Some(old(Rest())[..size]) && Rest() == old(Rest())[size..]
    {
      var buf := new char[size];
      var n := 0;
      while n < size
        invariant 0 <= n <= size == buf.Length && fresh(buf)
        invariant buf[..n] + Rest() == old(Rest())
        decreases |incoming|, size - n
      {
        var before := buf[..n];
        var piece, ok := Read(size - n);
        forall i | 0 <= i < |piece| {
          buf[n + i] := piece[i];
        }
        assert buf[..n + |piece|] == before + piece;
        n := n + |piece|;
        if !ok {
          return None;
        }
      }
      assert old(Rest())[..size] == buf[..];
      return Some(buf[..]);
    }

    method ExpectCrlf() returns (error: Option<ReadError>)
      modifies `incoming
      ensures (error, Rest()) == ParseTerminator(old(Rest()))
    {
      var b1 := ReadByte();
      if b1.None? {
        return Some(EndOfStream);
      }
      var b2 := ReadByte();
      if b2.None? {
        return Some(EndOfStream);
      }
      if b1.value != '\r' || b2.value != '\n' {
        return Some(BadTermination);
      }
      return None;
    }

    /** What is read depends only on the bytes delivered, not on how they were cut into chunks. */
    method ReadReply() returns (outcome: ReadOutcome)
      modifies `incoming
      ensures Parsed(outcome, Rest()) == ParseReply(old(Rest()))
    {
      var prefix := ReadByte();
      if prefix.None? {
        return Failed(EndOfStream);
      }
      match prefix.value {
        case '+' =>
          var line := ReadLine();
          outcome := if line.None? then Failed(EndOfStream) else Received(Simple(line.value));
        case '-' =>
          var line := ReadLine();
          outcome := Failed(if line.None? then EndOfStream else ServerError(line.value));
        case ':' =>
          var line := ReadLine();
          outcome := if line.None? then Failed(EndOfStream) else Received(Integer(line.value));
        case '$' =>
          outcome := ReadBulk();
        case other =>
          outcome := Failed(BadPrefix(other));
      }
    }

    method ReadBulk() returns (outcome: ReadOutcome)
      modifies `incoming
      ensures Parsed(outcome, Rest()) == ParseBulk(old(Rest()))
    {
      var line := ReadLine();
      if line.None? {
        return Failed(EndOfStream);
      }
      var size := Atoi(line.value);
      if size.None? {
        return Failed(BadLength(line.value));
      }
      if size.value == -1 {
        return Received(Nil);
      }
      if size.value < 0 {
        return Panicked;
      }
      var data := ReadFull(size.value);
      if data.None? {
        return Failed(EndOfStream);
      }
      var error := ExpectCrlf();
      if error.Some? {
        return Failed(error.value);
      }
      return Received(Bulk(data.value));
    }
  }
}
