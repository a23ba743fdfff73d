/**
 The newline-framed JSON channel to the codex process.

 Main results: `ChunkingIrrelevantIff` (how a stream is cut into reads never matters exactly when its
 lines fit the buffer cap), and `SendThenRead` (whatever is sent is read back, in order, through any
 cutting of the stream).
 */
module CodexJsonRpc {
  import opened Options
  import opened Json
  import opened Text

  const MAX_BUFFER: nat := 16 * 1024 * 1024

  /** What a read reports: a message, a line that is not a JSON object, or a dropped oversized frame. */
  datatype Report = Message(msg: Json) | ParseError(line: string) | Oversized(dropped: nat)

  /** `JSON.parse`: a value, or a failure. */
  type Parser = string -> Option<Json>

  /** The parser gives back each of these messages from its encoding. */
  predicate ReadsBack(parse: Parser, msgs: seq<Json>) {
    forall m :: m in msgs ==> parse(Encode(m)) == Some(m)
  }

  // ---------------------------------------------------------------------------------------------
  // Lines.
  // ---------------------------------------------------------------------------------------------

  function StripCR(line: string): string {
    if line != "" && line[|line| - 1] == '\r' then line[..|line| - 1] else line
  }

  function HandleLine(parse: Parser, raw: string): seq<Report> {
    var line := StripCR(raw);
    if Trim(line) == "" then []
    else
      match parse(line)
      case Some(Obj(_)) => [Message(parse(line).value)]
      case _ => [ParseError(line)]
  }

  /**
   What one line gives, with or without a carriage return before its newline: nothing if it is blank, a
   message if it parses to an object, and otherwise a parse error with the line.
   */
  lemma LineExact(parse: Parser, line: string)
    requires line == "" || line[|line| - 1] != '\r'
    ensures HandleLine(parse, line) == HandleLine(parse, line + "\r")
    ensures Trim(line) == "" ==> HandleLine(parse, line) == []
    ensures Trim(line) != "" && parse(line).Some? && parse(line).value.Obj? ==> HandleLine(parse, line) == [Message(parse(line).value)]
    ensures Trim(line) != "" && !(parse(line).Some? && parse(line).value.Obj?) ==> HandleLine(parse, line) == [ParseError(line)]
  {
    assert (line + "\r")[..|line|] == line;
    assert StripCR(line + "\r") == line && StripCR(line) == line;
  }

  predicate NoNewline(s: string) {
    '\n' !in s
  }

  /** The position of the first newline, or the length of the text. */
  function FirstNewline(s: string): (k: nat)
    ensures k <= |s|
  {
    if s == "" || s[0] == '\n' then 0 else 1 + FirstNewline(s[1..])
  }

  lemma {:induction false} FirstNewlineExact(s: string)
    ensures var k := FirstNewline(s);
      NoNewline(s[..k]) && (k < |s| ==> s[k] == '\n')
  {
    if s != "" && s[0] != '\n' {
      FirstNewlineExact(s[1..]);
      var k := FirstNewline(s);
      assert s[..k] == [s[0]] + s[1..][..k - 1];
    }
  }

  lemma {:induction false} FirstNewlineOf(line: string, rest: string)
    requires NoNewline(line)
    ensures FirstNewline(line + rest) == |line| + FirstNewline(rest)
  {
    if line == "" {
      assert line + rest == rest;
    } else {
      assert (line + rest)[1..] == line[1..] + rest;
      assert line[0] in line;
      FirstNewlineOf(line[1..], rest);
    }
  }

  datatype Outcome = Outcome(reports: seq<Report>, buffer: string)

  /** Every complete line of the buffer handled in order, and what is left. */
  function Consume(parse: Parser, s: string): (o: Outcome)
    decreases |s|
  {
    var k := FirstNewline(s);
    if k == |s| then Outcome([], s)
    else
      var rest := Consume(parse, s[k + 1..]);
      After(HandleLine(parse, s[..k]), rest)
  }

  function After(before: seq<Report>, o: Outcome): Outcome {
    Outcome(before + o.reports, o.buffer)
  }

  lemma AfterAfter(a: seq<Report>, b: seq<Report>, o: Outcome)
    ensures After(a, After(b, o)) == After(a + b, o)
  {
    assert a + (b + o.reports) == a + b + o.reports;
  }

  lemma AfterNothing(o: Outcome)
    ensures After([], o) == o
  {
    assert [] + o.reports == o.reports;
  }

  function DropOversized(o: Outcome): (r: Outcome)
    ensures |r.buffer| <= MAX_BUFFER
  {
    if |o.buffer| > MAX_BUFFER then Outcome(o.reports + [Oversized(|o.buffer|)], "") else o
  }

  /** One read. */
  function Ingest(parse: Parser, buffer: string, chunk: string): (r: Outcome)
    ensures |r.buffer| <= MAX_BUFFER
  {
    DropOversized(Consume(parse, buffer + chunk))
  }

  /** A sequence of reads. */
  function Feed(parse: Parser, buffer: string, chunks: seq<string>): Outcome
    decreases |chunks|
  {
    if chunks == [] then Outcome([], buffer)
    else
      var first := Ingest(parse, buffer, chunks[0]);
      After(first.reports, Feed(parse, first.buffer, chunks[1..]))
  }

  function Concat(chunks: seq<string>): string {
    if chunks == [] then "" else chunks[0] + Concat(chunks[1..])
  }

  // ---------------------------------------------------------------------------------------------
  // Consuming in two parts.
  // ---------------------------------------------------------------------------------------------

  lemma ConsumeLine(parse: Parser, line: string, rest: string)
    requires NoNewline(line)
    ensures Consume(parse, line + "\n" + rest) == After(HandleLine(parse, line), Consume(parse, rest))
  {
    var s := line + "\n" + rest;
    assert s == line + ("\n" + rest);
    FirstNewlineOf(line, "\n" + rest);
    assert s[..|line|] == line && s[|line| + 1..] == rest;
  }

  lemma ConsumePartial(parse: Parser, s: string)
    requires NoNewline(s)
    ensures Consume(parse, s) == Outcome([], s)
  {
    FirstNewlineOf(s, "");
    assert s + "" == s;
  }

  /** A text with a newline is its first line, the newline and the rest. */
  lemma FirstLine(s: string) returns (line: string, tail: string)
    requires FirstNewline(s) < |s|
    ensures NoNewline(line) && |line| == FirstNewline(s) && s == line + "\n" + tail && |tail| < |s|
  {
    FirstNewlineExact(s);
    var k := FirstNewline(s);
    line, tail := s[..k], s[k + 1..];
    SplitAt(s, k);
  }

  lemma {:induction false} BufferHasNoNewline(parse: Parser, s: string)
    ensures NoNewline(Consume(parse, s).buffer)
    decreases |s|
  {
    if FirstNewline(s) < |s| {
      var line, tail := FirstLine(s);
      ConsumeLine(parse, line, tail);
      BufferHasNoNewline(parse, tail);
    } else {
      FirstNewlineExact(s);
      assert s[..|s|] == s;
    }
  }

  lemma SplitAt(s: string, k: nat)
    requires k < |s| && s[k] == '\n'
    ensures s == s[..k] + "\n" + s[k + 1..]
  {
  }

  lemma JoinLast(a: string, b: string, c: string)
    ensures a + b + c == a + (b + c)
  {
  }

  lemma {:induction false} ConsumeSplit(parse: Parser, x: string, y: string)
    ensures Consume(parse, x + y) == After(Consume(parse, x).reports, Consume(parse, Consume(parse, x).buffer + y))
    decreases |x|
  {
    if FirstNewline(x) < |x| {
      var line, tail := FirstLine(x);
      ConsumeSplit(parse, tail, y);
      ConsumeSplitLine(parse, line, tail, y);
    } else {
      AfterNothing(Consume(parse, x + y));
    }
  }

  lemma ConsumeSplitLine(parse: Parser, line: string, tail: string, y: string)
    requires NoNewline(line)
    requires Consume(parse, tail + y) == After(Consume(parse, tail).reports, Consume(parse, Consume(parse, tail).buffer + y))
    ensures var x := line + "\n" + tail;
      Consume(parse, x + y) == After(Consume(parse, x).reports, Consume(parse, Consume(parse, x).buffer + y))
  {
    var first := Consume(parse, tail);
    JoinLast(line + "\n", tail, y);
    ConsumeLine(parse, line, tail);
    ConsumeLine(parse, line, tail + y);
    AfterAfter(HandleLine(parse, line), first.reports, Consume(parse, first.buffer + y));
  }

  // ---------------------------------------------------------------------------------------------
  // Streams that fit.
  // ---------------------------------------------------------------------------------------------

  /** Every terminated line fits the cap, and the unterminated rest exceeds it by at most one. */
  predicate Fits(s: string)
    decreases |s|
  {
    var k := FirstNewline(s);
    if k == |s| then |s| <= MAX_BUFFER + 1 else k <= MAX_BUFFER && Fits(s[k + 1..])
  }

  lemma FitsLine(line: string, rest: string)
    requires NoNewline(line)
    ensures Fits(line + "\n" + rest) <==> |line| <= MAX_BUFFER && Fits(rest)
  {
    var s := line + "\n" + rest;
    assert s == line + ("\n" + rest);
    FirstNewlineOf(line, "\n" + rest);
    assert s[|line| + 1..] == rest;
  }

  lemma {:induction false} FitsAfter(parse: Parser, x: string, y: string)
    requires Fits(x + y)
    ensures Fits(Consume(parse, x).buffer + y)
    decreases |x|
  {
    if FirstNewline(x) < |x| {
      var line, tail := FirstLine(x);
      JoinLast(line + "\n", tail, y);
      FitsLine(line, tail + y);
      ConsumeLine(parse, line, tail);
      FitsAfter(parse, tail, y);
    }
  }

  lemma PartialFits(r: string, y: string)
    requires Fits(r + y) && NoNewline(r) && y != ""
    ensures |r| <= MAX_BUFFER
  {
    FirstNewlineOf(r, y);
  }

  lemma {:induction false} NothingMore(parse: Parser, chunks: seq<string>)
    requires Concat(chunks) == ""
    ensures Feed(parse, "", chunks) == Outcome([], "")
  {
    if chunks != [] {
      assert |chunks[0]| == 0 && |Concat(chunks[1..])| == 0;
      assert "" + chunks[0] == "";
      NothingMore(parse, chunks[1..]);
    }
  }

  /** If the whole stream fits, reading it in any pieces is reading it in one. */
  lemma {:induction false} ChunkingIrrelevant(parse: Parser, buffer: string, chunks: seq<string>)
    requires NoNewline(buffer) && |buffer| <= MAX_BUFFER
    requires Fits(buffer + Concat(chunks))
    ensures Feed(parse, buffer, chunks) == Ingest(parse, buffer, Concat(chunks))
    decreases |chunks|
  {
    if chunks == [] {
      assert buffer + "" == buffer;
      ConsumePartial(parse, buffer);
    } else {
      var x, y := buffer + chunks[0], Concat(chunks[1..]);
      JoinLast(buffer, chunks[0], y);
      var first := Consume(parse, x);
      FitsAfter(parse, x, y);
      BufferHasNoNewline(parse, x);
      if |first.buffer| > MAX_BUFFER {
        if y != "" { PartialFits(first.buffer, y); }
        LastTooLong(parse, buffer, chunks);
      } else {
        ChunkingIrrelevant(parse, first.buffer, chunks[1..]);
        FirstChunk(parse, buffer, chunks);
      }
    }
  }

  /** A partial line one over the cap is dropped, and nothing follows. */
  lemma LastTooLong(parse: Parser, buffer: string, chunks: seq<string>)
    requires chunks != [] && Concat(chunks[1..]) == ""
    requires |Consume(parse, buffer + chunks[0]).buffer| > MAX_BUFFER
    ensures Feed(parse, buffer, chunks) == Ingest(parse, buffer, Concat(chunks))
  {
    NothingMore(parse, chunks[1..]);
    assert chunks[0] + "" == chunks[0];
    var first := Ingest(parse, buffer, chunks[0]);
    assert first.reports + [] == first.reports;
  }

  /** One chunk read, and the rest agreed to be read as one: all read as one. */
  lemma FirstChunk(parse: Parser, buffer: string, chunks: seq<string>)
    requires chunks != []
    requires |Consume(parse, buffer + chunks[0]).buffer| <= MAX_BUFFER
    requires var left := Consume(parse, buffer + chunks[0]).buffer;
      Feed(parse, left, chunks[1..]) == Ingest(parse, left, Concat(chunks[1..]))
    ensures Feed(parse, buffer, chunks) == Ingest(parse, buffer, Concat(chunks))
  {
    var x, y := buffer + chunks[0], Concat(chunks[1..]);
    var first := Consume(parse, x);
    JoinLast(buffer, chunks[0], y);
    ConsumeSplit(parse, x, y);
    AssocReports(first.reports, Consume(parse, first.buffer + y));
  }

  lemma AssocReports(before: seq<Report>, o: Outcome)
    ensures DropOversized(After(before, o)) == After(before, DropOversized(o))
  {
    if |o.buffer| > MAX_BUFFER {
      assert before + o.reports + [Oversized(|o.buffer|)] == before + (o.reports + [Oversized(|o.buffer|)]);
    }
  }

  // ---------------------------------------------------------------------------------------------
  // Streams that do not fit.
  // ---------------------------------------------------------------------------------------------

  function Drops(rs: seq<Report>): nat {
    if rs == [] then 0 else (if rs[0].Oversized? then 1 else 0) + Drops(rs[1..])
  }

  lemma {:induction false} DropsConcat(a: seq<Report>, b: seq<Report>)
    ensures Drops(a + b) == Drops(a) + Drops(b)
  {
    if a == [] {
      assert a + b == b;
    } else {
      assert (a + b)[1..] == a[1..] + b;
      DropsConcat(a[1..], b);
    }
  }

  lemma {:induction false} ConsumeDropsNothing(parse: Parser, s: string)
    ensures Drops(Consume(parse, s).reports) == 0
    decreases |s|
  {
    var k := FirstNewline(s);
    if k < |s| {
      ConsumeDropsNothing(parse, s[k + 1..]);
      assert Drops(HandleLine(parse, s[..k])) == 0;
      DropsConcat(HandleLine(parse, s[..k]), Consume(parse, s[k + 1..]).reports);
    }
  }

  lemma IngestDrops(parse: Parser, buffer: string, chunk: string)
    ensures var o := Consume(parse, buffer + chunk);
      Drops(Ingest(parse, buffer, chunk).reports) == if |o.buffer| > MAX_BUFFER then 1 else 0
  {
    var o := Consume(parse, buffer + chunk);
    ConsumeDropsNothing(parse, buffer + chunk);
    DropsConcat(o.reports, [Oversized(|o.buffer|)]);
    assert Drops([Oversized(|o.buffer|)]) == 1;
  }

  /** Where to cut a stream that does not fit: before a newline that comes too late, or before the last character. */
  function BadCut(s: string): (j: nat)
    requires !Fits(s)
    ensures j < |s|
    decreases |s|
  {
    var k := FirstNewline(s);
    if k == |s| then |s| - 1
    else if k > MAX_BUFFER then k
    else k + 1 + BadCut(s[k + 1..])
  }

  lemma BadCutLine(line: string, tail: string)
    requires NoNewline(line) && |line| <= MAX_BUFFER && !Fits(tail)
    ensures var s, i := line + "\n" + tail, BadCut(tail);
      && !Fits(s) && BadCut(s) == |line| + 1 + i
      && s[..BadCut(s)] == line + "\n" + tail[..i] && s[BadCut(s)..] == tail[i..]
  {
    var s := line + "\n" + tail;
    FitsLine(line, tail);
    assert s == line + ("\n" + tail);
    FirstNewlineOf(line, "\n" + tail);
    assert s[|line| + 1..] == tail;
  }

  predicate SplitsBadly(parse: Parser, s: string, j: nat) {
    && j < |s| && |Consume(parse, s[..j]).buffer| > MAX_BUFFER
    && (s[j] == '\n' || (j + 1 == |s| && NoNewline(s[j..]) && |Consume(parse, s).buffer| > MAX_BUFFER))
  }

  /** Cut there, the first part leaves an oversized partial line; the second starts with its newline, or is its last character. */
  lemma {:induction false} BadCutSplits(parse: Parser, s: string)
    requires !Fits(s)
    ensures SplitsBadly(parse, s, BadCut(s))
    decreases |s|
  {
    var k := FirstNewline(s);
    FirstNewlineExact(s);
    if k == |s| {
      BadCutPartial(parse, s);
    } else if k > MAX_BUFFER {
      ConsumePartial(parse, s[..k]);
    } else {
      var line, tail := FirstLine(s);
      FitsLine(line, tail);
      BadCutSplits(parse, tail);
      BadCutShift(parse, line, tail);
    }
  }

  lemma BadCutPartial(parse: Parser, s: string)
    requires !Fits(s) && FirstNewline(s) == |s|
    ensures SplitsBadly(parse, s, BadCut(s))
  {
    FirstNewlineExact(s);
    assert s[..|s|] == s;
    var j := |s| - 1;
    assert s == s[..j] + s[j..];
    ConsumePartial(parse, s[..j]);
    ConsumePartial(parse, s);
  }

  lemma BadCutShift(parse: Parser, line: string, tail: string)
    requires NoNewline(line) && |line| <= MAX_BUFFER && !Fits(tail) && SplitsBadly(parse, tail, BadCut(tail))
    ensures var s := line + "\n" + tail;
      !Fits(s) && SplitsBadly(parse, s, BadCut(s))
  {
    var s, i := line + "\n" + tail, BadCut(tail);
    BadCutLine(line, tail);
    ConsumeLine(parse, line, tail[..i]);
    ConsumeLine(parse, line, tail);
    assert s[BadCut(s)] == s[BadCut(s)..][0] == tail[i..][0];
  }

  function CutAt(s: string, j: nat): seq<string>
    requires j <= |s|
  {
    [s[..j], s[j..]]
  }

  lemma CutFeeds(parse: Parser, s: string, j: nat)
    requires j <= |s| && |Consume(parse, s[..j]).buffer| > MAX_BUFFER
    ensures Concat(CutAt(s, j)) == s
    ensures Feed(parse, "", CutAt(s, j)) == After(Ingest(parse, "", s[..j]).reports, Ingest(parse, "", s[j..]))
  {
    var chunks := CutAt(s, j);
    assert chunks[1..] == [s[j..]] && chunks[1..][1..] == [];
    assert Concat(chunks[1..]) == s[j..] by { assert s[j..] + "" == s[j..]; }
    assert s[..j] + s[j..] == s;
    assert "" + s[..j] == s[..j];
    var second := Ingest(parse, "", s[j..]);
    assert second.reports + [] == second.reports;
    assert Feed(parse, "", chunks[1..]) == second;
  }

  lemma TooLongDepends(parse: Parser, s: string)
    requires !Fits(s)
    ensures Feed(parse, "", CutAt(s, BadCut(s))) != Ingest(parse, "", s)
  {
    var j := BadCut(s);
    BadCutSplits(parse, s);
    CutFeeds(parse, s, j);
    var first, second := Ingest(parse, "", s[..j]), Ingest(parse, "", s[j..]);
    assert "" + s[..j] == s[..j] && "" + s[j..] == s[j..] && "" + s == s;
    IngestDrops(parse, "", s[..j]);
    IngestDrops(parse, "", s[j..]);
    IngestDrops(parse, "", s);
    DropsConcat(first.reports, second.reports);
    if s[j] == '\n' {
      SameRest(parse, s, j);
    } else {
      ConsumePartial(parse, s[j..]);
    }
  }

  /** After a newline, what is left depends only on the text after it. */
  lemma SameRest(parse: Parser, s: string, j: nat)
    requires j < |s| && s[j] == '\n'
    ensures Consume(parse, s[j..]).buffer == Consume(parse, s).buffer
  {
    var before, rest := s[..j], s[j + 1..];
    var partial := Consume(parse, before).buffer;
    BufferHasNoNewline(parse, before);
    CutNewline(s, j);
    ConsumeSplit(parse, before, s[j..]);
    JoinLast(partial, "\n", rest);
    ConsumeLine(parse, partial, rest);
    ConsumeLine(parse, "", rest);
  }

  lemma CutNewline(s: string, j: nat)
    requires j < |s| && s[j] == '\n'
    ensures s == s[..j] + s[j..]
    ensures s[j..] == "\n" + s[j + 1..] == "" + "\n" + s[j + 1..]
  {
  }

  /**
   The reports and the leftover buffer are the same for every way of cutting a stream into reads, if
   and only if every terminated line fits the cap and the unterminated rest exceeds it by at most one.
   */
  lemma ChunkingIrrelevantIff(parse: Parser, s: string)
    ensures Fits(s) <==> forall chunks :: Concat(chunks) == s ==> Feed(parse, "", chunks) == Ingest(parse, "", s)
  {
    if Fits(s) {
      forall chunks | Concat(chunks) == s ensures Feed(parse, "", chunks) == Ingest(parse, "", s) {
        assert "" + s == s;
        ChunkingIrrelevant(parse, "", chunks);
      }
    } else {
      TooLongDepends(parse, s);
      BadCutSplits(parse, s);
      CutFeeds(parse, s, BadCut(s));
    }
  }

  // ---------------------------------------------------------------------------------------------
  // Sending.
  // ---------------------------------------------------------------------------------------------

  function Wire(msg: Json): string {
    Encode(msg) + "\n"
  }

  function WireAll(msgs: seq<Json>): string {
    if msgs == [] then "" else Wire(msgs[0]) + WireAll(msgs[1..])
  }

  function Messages(msgs: seq<Json>): (r: seq<Report>)
    ensures |r| == |msgs| && forall i :: 0 <= i < |r| ==> r[i] == Message(msgs[i])
  {
    seq(|msgs|, i requires 0 <= i < |msgs| => Message(msgs[i]))
  }

  lemma SentLine(parse: Parser, msg: Json)
    requires msg.Obj? && parse(Encode(msg)) == Some(msg)
    ensures NoNewline(Encode(msg)) && HandleLine(parse, Encode(msg)) == [Message(msg)]
  {
    var line := Encode(msg);
    EncodePrintable(msg);
    FirstCharTellsKind(msg);
    assert line[0] == '{' && !IsSpace('{');
    assert StripCR(line) == line;
    assert parse(line) == Some(msg);
    TrimKeepsText(line);
  }

  lemma {:induction false} TrimKeepsText(s: string)
    requires s != "" && !IsSpace(s[0])
    ensures Trim(s) != ""
  {
    assert TrimLeft(s) == s;
    TrimRightKeeps(s);
  }

  lemma {:induction false} TrimRightKeeps(s: string)
    requires s != "" && !IsSpace(s[0])
    ensures TrimRight(s) != ""
  {
    if IsSpace(s[|s| - 1]) {
      assert |s| > 1;
      TrimRightKeeps(s[..|s| - 1]);
    }
  }

  lemma {:induction false} WireAllSplit(msgs: seq<Json>)
    requires msgs != []
    ensures WireAll(msgs) == Encode(msgs[0]) + "\n" + WireAll(msgs[1..])
    ensures Messages(msgs) == [Message(msgs[0])] + Messages(msgs[1..])
  {
    var all, rest := Messages(msgs), Messages(msgs[1..]);
    forall k | 0 <= k < |all| ensures all[k] == ([Message(msgs[0])] + rest)[k] {
      if k > 0 { assert msgs[1..][k - 1] == msgs[k]; }
    }
  }

  lemma {:induction false} WireConsumed(parse: Parser, msgs: seq<Json>)
    requires ReadsBack(parse, msgs) && forall m :: m in msgs ==> m.Obj? && |Encode(m)| <= MAX_BUFFER
    ensures Fits(WireAll(msgs))
    ensures Consume(parse, WireAll(msgs)) == Outcome(Messages(msgs), "")
  {
    if msgs == [] {
      ConsumePartial(parse, "");
    } else {
      var line, rest := Encode(msgs[0]), WireAll(msgs[1..]);
      WireConsumed(parse, msgs[1..]);
      SentLine(parse, msgs[0]);
      WireAllSplit(msgs);
      ConsumeLine(parse, line, rest);
      FitsLine(line, rest);
    }
  }

  /** Reading back what was sent, in any pieces, yields exactly the messages sent, and an empty buffer. */
  lemma SendThenRead(parse: Parser, msgs: seq<Json>, chunks: seq<string>)
    requires ReadsBack(parse, msgs) && forall m :: m in msgs ==> m.Obj? && |Encode(m)| <= MAX_BUFFER
    requires Concat(chunks) == WireAll(msgs)
    ensures Feed(parse, "", chunks) == Outcome(Messages(msgs), "")
  {
    WireConsumed(parse, msgs);
    assert "" + WireAll(msgs) == WireAll(msgs);
    ChunkingIrrelevant(parse, "", chunks);
  }

  // ---------------------------------------------------------------------------------------------
  // The client as the program runs it.
  // ---------------------------------------------------------------------------------------------

  class JsonRpcReader {
    const parse: Parser
    var buffer: string

    constructor (parse: Parser)
      ensures this.parse == parse && buffer == ""
    {
      this.parse := parse;
      buffer := "";
    }

    method Read(chunk: string) returns (reports: seq<Report>)
      modifies this
      ensures Outcome(reports, buffer) == Ingest(parse, old(buffer), chunk)
      ensures |buffer| <= MAX_BUFFER
    {
      buffer := buffer + chunk;
      reports := [];
      AfterNothing(Consume(parse, buffer));
      ghost var whole := Consume(parse, buffer);
      var nl := FirstNewline(buffer);
      while nl < |buffer|
        invariant nl == FirstNewline(buffer)
        invariant whole == After(reports, Consume(parse, buffer))
        decreases |buffer|
      {
        var line := buffer[..nl];
        AfterAfter(reports, HandleLine(parse, line), Consume(parse, buffer[nl + 1..]));
        buffer := buffer[nl + 1..];
        reports := reports + HandleLine(parse, line);
        nl := FirstNewline(buffer);
      }
      if |buffer| > MAX_BUFFER {
        var dropped := |buffer|;
        buffer := "";
        reports := reports + [Oversized(dropped)];
      }
    }
  }
}
