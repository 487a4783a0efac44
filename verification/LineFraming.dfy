/** Newline framing: the server's reader loop (a10_tcp_server.cpp:114-141), the client's blocking
    `_recv_line` (client/robot_tcp_client.py:64-78) and the collector's non-blocking
    `pollTcpLine` (tactile_collect_real.cpp:426-474). */
module LineFraming {
  import opened Basics

  // ---------------------------------------------------------------- the reference

  function FindNewline(s: string): (p: Option<nat>)
    ensures p.Some? ==> p.value < |s| && s[p.value] == '\n' && '\n' !in s[..p.value]
    ensures p.None? ==> '\n' !in s
  {
    if s == "" then None
    else if s[0] == '\n' then Some(0)
    else match FindNewline(s[1..])
      case None => None
      case Some(p) => assert s[..p + 1] == [s[0]] + s[1..][..p]; Some(p + 1)
  }

  /** The newline-terminated lines of a text, and what follows the last newline. */
  function Split(s: string): (seq<string>, string)
    decreases |s|
  {
    match FindNewline(s)
    case None => ([], s)
    case Some(p) => var (lines, tail) := Split(s[p + 1..]); ([s[..p]] + lines, tail)
  }

  function Unsplit(lines: seq<string>, tail: string): string {
    if lines == [] then tail else lines[0] + "\n" + Unsplit(lines[1..], tail)
  }

  predicate NewlineFree(lines: seq<string>, tail: string) {
    '\n' !in tail && forall i :: 0 <= i < |lines| ==> '\n' !in lines[i]
  }

  lemma {:induction false} FirstNewlineAt(line: string, rest: string)
    requires '\n' !in line
    ensures FindNewline(line + "\n" + rest) == Some(|line|)
  {
    if line != "" {
      FirstNewlineAt(line[1..], rest);
      assert (line + "\n" + rest)[1..] == line[1..] + "\n" + rest;
    }
  }

  /** `Split` is the one way to cut a text into newline-free lines and a newline-free tail. */
  lemma {:induction false} SplitIsTheOnlyCut(s: string, lines: seq<string>, tail: string)
    ensures Split(s) == (lines, tail) <==> NewlineFree(lines, tail) && s == Unsplit(lines, tail)
    decreases |lines|, |s|
  {
    SplitCuts(s);
    if NewlineFree(lines, tail) && s == Unsplit(lines, tail) {
      CutIsSplit(lines, tail);
    }
  }

  lemma {:induction false} SplitCuts(s: string)
    ensures var (lines, tail) := Split(s); NewlineFree(lines, tail) && s == Unsplit(lines, tail)
    decreases |s|
  {
    var at := FindNewline(s);
    if at.Some? {
      var p := at.value;
      var (lines, tail) := Split(s[p + 1..]);
      SplitCuts(s[p + 1..]);
      SplitOnce(s, p);
      CutAgain(s[..p], lines, tail);
    }
  }

  lemma SplitOnce(s: string, p: nat)
    requires FindNewline(s) == Some(p)
    ensures Split(s) == ([s[..p]] + Split(s[p + 1..]).0, Split(s[p + 1..]).1)
    ensures s == s[..p] + "\n" + s[p + 1..] && '\n' !in s[..p]
  {
  }

  lemma CutAgain(line: string, lines: seq<string>, tail: string)
    requires '\n' !in line && NewlineFree(lines, tail)
    ensures NewlineFree([line] + lines, tail) && Unsplit([line] + lines, tail) == line + "\n" + Unsplit(lines, tail)
  {
    assert ([line] + lines)[1..] == lines;
  }

  lemma {:induction false} CutIsSplit(lines: seq<string>, tail: string)
    requires NewlineFree(lines, tail)
    ensures Split(Unsplit(lines, tail)) == (lines, tail)
    decreases |lines|
  {
    if lines != [] {
      var rest := Unsplit(lines[1..], tail);
      var s := lines[0] + "\n" + rest;
      CutIsSplit(lines[1..], tail);
      FirstNewlineAt(lines[0], rest);
      assert s[..|lines[0]|] == lines[0];
      assert s[|lines[0]| + 1..] == rest;
      assert Split(s) == ([lines[0]] + lines[1..], tail);
      assert [lines[0]] + lines[1..] == lines;
    }
  }

  lemma {:induction false} UnsplitAppend(lines: seq<string>, tail: string, more: string)
    ensures Unsplit(lines, tail) + more == Unsplit(lines, tail + more)
  {
    if lines != [] {
      UnsplitAppend(lines[1..], tail, more);
      var rest := Unsplit(lines[1..], tail);
      assert lines[0] + "\n" + rest + more == lines[0] + "\n" + (rest + more);
    }
  }

  lemma {:induction false} UnsplitNest(a: seq<string>, b: seq<string>, tail: string)
    ensures Unsplit(a, Unsplit(b, tail)) == Unsplit(a + b, tail)
  {
    if a == [] {
      assert a + b == b;
    } else {
      assert (a + b)[1..] == a[1..] + b;
      UnsplitNest(a[1..], b, tail);
    }
  }

  /** Splitting in two goes: the tail of the first is the start of the second. */
  lemma SplitAppend(a: string, b: string)
    ensures var (l1, t1) := Split(a); var (l2, t2) := Split(t1 + b); Split(a + b) == (l1 + l2, t2)
  {
    var (l1, t1) := Split(a);
    var (l2, t2) := Split(t1 + b);
    SplitCuts(a);
    SplitCuts(t1 + b);
    UnsplitAppend(l1, t1, b);
    UnsplitNest(l1, l2, t2);
    SplitIsTheOnlyCut(a + b, l1 + l2, t2);
  }

  function Concat(chunks: seq<string>): string {
    if chunks == [] then "" else chunks[0] + Concat(chunks[1..])
  }

  // ---------------------------------------------------------------- the server's reader

  class ReaderLoop {
    var buffer: string

    constructor ()
      ensures buffer == ""
    {
      buffer := "";
    }

    /** One successful `recv`: every complete line is handed on, the rest is kept. */
    method OnReceive(chunk: string) returns (lines: seq<string>)
      modifies this
      ensures (lines, buffer) == Split(old(buffer) + chunk)
    {
      buffer := buffer + chunk;
      lines := [];
      var pos := FindNewline(buffer);
      assert [] + Split(buffer).0 == Split(buffer).0;
      while pos.Some?
        invariant pos == FindNewline(buffer)
        invariant var (l, t) := Split(buffer); (lines + l, t) == Split(old(buffer) + chunk)
        decreases |buffer|
      {
        var line := buffer[..pos.value];
        ghost var later := Split(buffer[pos.value + 1..]).0;
        assert lines + ([line] + later) == (lines + [line]) + later;
        lines := lines + [line];
        buffer := buffer[pos.value + 1..];
        pos := FindNewline(buffer);
      }
      assert lines + [] == lines;
    }
  }

  function FeedAll(buffer: string, chunks: seq<string>): (seq<string>, string)
    decreases |chunks|
  {
    if chunks == [] then ([], buffer)
    else
      var (l1, b1) := Split(buffer + chunks[0]);
      var (l2, b2) := FeedAll(b1, chunks[1..]);
      (l1 + l2, b2)
  }

  /** However the byte stream is cut into chunks, the lines handed on and the text kept are those of
      the whole stream. */
  lemma {:induction false} FramingIgnoresChunking(buffer: string, chunks: seq<string>)
    requires '\n' !in buffer
    ensures FeedAll(buffer, chunks) == Split(buffer + Concat(chunks))
    decreases |chunks|
  {
    if chunks == [] {
      assert buffer + Concat(chunks) == buffer;
    } else {
      var (l1, b1) := Split(buffer + chunks[0]);
      SplitCuts(buffer + chunks[0]);
      FramingIgnoresChunking(b1, chunks[1..]);
      SplitAppend(buffer + chunks[0], Concat(chunks[1..]));
      assert buffer + Concat(chunks) == (buffer + chunks[0]) + Concat(chunks[1..]);
    }
  }

  // ---------------------------------------------------------------- one line per call

  /** Return the first buffered line; otherwise read on until there is one. None: the peer closed. */
  function Pull(buffer: string, chunks: seq<string>): (Option<string>, string, seq<string>)
    decreases |chunks|
  {
    match FindNewline(buffer)
    case Some(p) => (Some(buffer[..p]), buffer[p + 1..], chunks)
    case None => if chunks == [] then (None, buffer, []) else Pull(buffer + chunks[0], chunks[1..])
  }

  class RobotTcpClient {
    var rxBuffer: string

    constructor ()
      ensures rxBuffer == ""
    {
      rxBuffer := "";
    }

    method RecvLine(chunks: seq<string>) returns (line: Option<string>, rest: seq<string>)
      modifies this
      ensures (line, rxBuffer, rest) == Pull(old(rxBuffer), chunks)
    {
      rest := chunks;
      while true
        invariant Pull(rxBuffer, rest) == Pull(old(rxBuffer), chunks)
        decreases |rest|
      {
        var pos := FindNewline(rxBuffer);
        if pos.Some? {
          line := Some(rxBuffer[..pos.value]);
          rxBuffer := rxBuffer[pos.value + 1..];
          return;
        }
        if rest == [] {
          return None, [];
        }
        rxBuffer := rxBuffer + rest[0];
        rest := rest[1..];
      }
    }
  }

  /** A call returns the first line of the stream still to come and leaves the stream after it; it
      fails exactly when that stream holds no complete line. */
  lemma {:induction false} PullIsHead(buffer: string, chunks: seq<string>)
    ensures var (line, b, c) := Pull(buffer, chunks);
            var (lines, tail) := Split(buffer + Concat(chunks));
            if line.Some? then lines != [] && line.value == lines[0] && Split(b + Concat(c)) == (lines[1..], tail)
            else lines == [] && b == tail && c == []
    decreases |chunks|
  {
    var pos := FindNewline(buffer);
    if pos.Some? {
      var p := pos.value;
      var rest := buffer[p + 1..] + Concat(chunks);
      assert buffer + Concat(chunks) == buffer[..p] + "\n" + rest;
      FirstNewlineAt(buffer[..p], rest);
      var s := buffer + Concat(chunks);
      assert s[..p] == buffer[..p] && s[p + 1..] == rest;
      assert ([buffer[..p]] + Split(rest).0)[1..] == Split(rest).0;
    } else if chunks == [] {
      assert buffer + Concat(chunks) == buffer;
    } else {
      PullIsHead(buffer + chunks[0], chunks[1..]);
      assert buffer + Concat(chunks) == (buffer + chunks[0]) + Concat(chunks[1..]);
    }
  }

  // ---------------------------------------------------------------- the collector's poll

  const RX_LIMIT: nat := 1024 * 1024

  function StripCr(line: string): string {
    if line != "" && line[|line| - 1] == '\r' then line[..|line| - 1] else line
  }

  /** What one poll leaves behind. `open` is false once the peer has closed the connection. */
  datatype Polled = Polled(line: Option<string>, buffer: string, chunks: seq<string>, open: bool)

  /** `chunks` is what the socket has ready; afterwards it would block, or report a close. */
  function Poll(buffer: string, chunks: seq<string>, closing: bool): Polled
    decreases |chunks|
  {
    match FindNewline(buffer)
    case Some(p) => Polled(Some(StripCr(buffer[..p])), buffer[p + 1..], chunks, true)
    case None =>
      if chunks == [] then (if closing then Polled(None, "", [], false) else Polled(None, buffer, [], true))
      else
        var b := buffer + chunks[0];
        if FindNewline(b).None? && |b| > RX_LIMIT then Polled(None, "", chunks[1..], true)
        else Poll(b, chunks[1..], closing)
  }

  class TcpPoller {
    var rxBuffer: string
    var connected: bool

    constructor ()
      ensures rxBuffer == "" && connected
    {
      rxBuffer, connected := "", true;
    }

    method PollTcpLine(chunks: seq<string>, closing: bool) returns (line: Option<string>, rest: seq<string>)
      modifies this
      ensures old(connected) ==>
                Polled(line, rxBuffer, rest, connected) == Poll(old(rxBuffer), chunks, closing)
      ensures !old(connected) ==> line == None && rest == chunks && !connected && rxBuffer == old(rxBuffer)
    {
      rest := chunks;
      if !connected {
        return None, rest;
      }
      var nl := FindNewline(rxBuffer);
      if nl.Some? {
        line := Some(StripCr(rxBuffer[..nl.value]));
        rxBuffer := rxBuffer[nl.value + 1..];
        return;
      }
      while rest != []
        invariant connected && FindNewline(rxBuffer).None?
        invariant Poll(rxBuffer, rest, closing) == Poll(old(rxBuffer), chunks, closing)
        decreases |rest|
      {
        rxBuffer := rxBuffer + rest[0];
        rest := rest[1..];
        nl := FindNewline(rxBuffer);
        if nl.Some? {
          line := Some(StripCr(rxBuffer[..nl.value]));
          rxBuffer := rxBuffer[nl.value + 1..];
          return;
        }
        if |rxBuffer| > RX_LIMIT {
          rxBuffer := "";
          return None, rest;
        }
      }
      if closing {
        connected := false;
        rxBuffer := "";
      }
      return None, [];
    }
  }

  /** No unterminated text beyond the limit builds up before the next newline arrives. */
  predicate Fits(buffer: string, chunks: seq<string>)
    decreases |chunks|
  {
    FindNewline(buffer).Some? || chunks == []
    || (var b := buffer + chunks[0]; (FindNewline(b).Some? || |b| <= RX_LIMIT) && Fits(b, chunks[1..]))
  }

  /** While the connection stays open a poll is `Pull` with one carriage return stripped, exactly
      when the receive buffer never overflows; an overflow returns no line and forgets the text. */
  lemma {:induction false} PollIsPull(buffer: string, chunks: seq<string>)
    ensures var q := Poll(buffer, chunks, false); var (line, b, c) := Pull(buffer, chunks);
            if Fits(buffer, chunks)
            then q == Polled(match line case Some(l) => Some(StripCr(l)) case None => None, b, c, true)
            else q.line == None && q.buffer == "" && q.open
                 && |q.chunks| < |chunks| && |buffer + Concat(chunks)| > RX_LIMIT
    decreases |chunks|
  {
    if FindNewline(buffer).None? && chunks != [] {
      var b := buffer + chunks[0];
      assert buffer + Concat(chunks) == b + Concat(chunks[1..]);
      if FindNewline(b).Some? || |b| <= RX_LIMIT {
        PollIsPull(b, chunks[1..]);
      }
    }
  }

  /** A closed connection is noticed only when no complete line is left to hand out, and then what remains of
      an unfinished one is forgotten. */
  lemma {:induction false} CloseComesLast(buffer: string, chunks: seq<string>)
    requires Fits(buffer, chunks)
    ensures Poll(buffer, chunks, true)
         == if Split(buffer + Concat(chunks)).0 != [] then Poll(buffer, chunks, false) else Polled(None, "", [], false)
    decreases |chunks|
  {
    PullIsHead(buffer, chunks);
    if FindNewline(buffer).None? && chunks != [] {
      assert buffer + Concat(chunks) == (buffer + chunks[0]) + Concat(chunks[1..]);
      CloseComesLast(buffer + chunks[0], chunks[1..]);
    }
  }

  // ---------------------------------------------------------------- many calls

  /** `n` calls of the blocking reader on one stream: the lines returned and the stream left. A call that finds
      no complete line returns none. */
  function Pulls(buffer: string, chunks: seq<string>, n: nat): (seq<string>, string, seq<string>)
    decreases n
  {
    if n == 0 then ([], buffer, chunks)
    else
      var (line, b, c) := Pull(buffer, chunks);
      var (lines, b', c') := Pulls(b, c, n - 1);
      (Returned(line) + lines, b', c')
  }

  function Returned(line: Option<string>): seq<string> {
    match line case Some(l) => [l] case None => []
  }

  /** What one call takes from the lines of the stream still to come. */
  predicate TakesHead(line: Option<string>, before: string, after: string) {
    var (lines, tail) := Split(before);
    Split(after) == (if lines == [] then [] else lines[1..], tail)
    && line == if lines == [] then None else Some(lines[0])
  }

  lemma PullTakesHead(buffer: string, chunks: seq<string>)
    ensures var (line, b, c) := Pull(buffer, chunks); TakesHead(line, buffer + Concat(chunks), b + Concat(c))
  {
    PullIsHead(buffer, chunks);
    var (line, b, c) := Pull(buffer, chunks);
    if line.None? {
      TailIsSplit(buffer + Concat(chunks));
      assert b + Concat([]) == b;
    }
  }

  lemma TailIsSplit(s: string)
    ensures var tail := Split(s).1; Split(tail) == ([], tail)
  {
    SplitCuts(s);
    SplitIsTheOnlyCut(Split(s).1, [], Split(s).1);
  }

  /** The complete lines of a stream, and the text behind them. */
  function LinesOf(buffer: string, chunks: seq<string>): seq<string> { Split(buffer + Concat(chunks)).0 }

  function TailOf(buffer: string, chunks: seq<string>): string { Split(buffer + Concat(chunks)).1 }

  /** However the stream is cut, the lines `n` calls return are its first lines, up to `n` of them, in order, and
      what they leave is the rest of it: the lines not yet returned and the same unterminated tail. */
  lemma {:induction false} PullsFollowTheStream(buffer: string, chunks: seq<string>, n: nat)
    ensures var (got, b, c) := Pulls(buffer, chunks, n);
            var lines := LinesOf(buffer, chunks);
            && got + LinesOf(b, c) == lines && TailOf(b, c) == TailOf(buffer, chunks)
            && |got| == if n <= |lines| then n else |lines|
    decreases n
  {
    if n > 0 {
      var (line, b, c) := Pull(buffer, chunks);
      PullsFollowTheStream(b, c, n - 1);
      var (got, b', c') := Pulls(b, c, n - 1);
      PullLines(buffer, chunks);
      HeadThenRest(LinesOf(buffer, chunks), line, LinesOf(b, c), got, LinesOf(b', c'), n);
    }
  }

  lemma PullLines(buffer: string, chunks: seq<string>)
    ensures var (line, b, c) := Pull(buffer, chunks);
            var lines := LinesOf(buffer, chunks);
            && TailOf(b, c) == TailOf(buffer, chunks) && LinesOf(b, c) == (if lines == [] then [] else lines[1..])
            && line == if lines == [] then None else Some(lines[0])
  {
    PullTakesHead(buffer, chunks);
  }

  lemma HeadThenRest(
    lines: seq<string>, line: Option<string>, after: seq<string>, got: seq<string>, rest: seq<string>, n: nat)
    requires n > 0 && after == (if lines == [] then [] else lines[1..])
    requires line == (if lines == [] then None else Some(lines[0]))
    requires got + rest == after && |got| == if n - 1 <= |after| then n - 1 else |after|
    ensures Returned(line) + got + rest == lines
    ensures |Returned(line) + got| == if n <= |lines| then n else |lines|
  {
    assert Returned(line) + got + rest == Returned(line) + (got + rest);
  }

  function Stripped(lines: seq<string>): (r: seq<string>)
    ensures |r| == |lines|
  {
    seq(|lines|, i requires 0 <= i < |lines| => StripCr(lines[i]))
  }

  function All(arrivals: seq<seq<string>>): string {
    if arrivals == [] then "" else Concat(arrivals[0]) + All(arrivals[1..])
  }

  /** One poll for each element of `arrivals`, which is what has come since the poll before; `left` is what
      the socket still held then. */
  function Polls(buffer: string, left: seq<string>, arrivals: seq<seq<string>>): (seq<string>, string, seq<string>)
    decreases |arrivals|
  {
    if arrivals == [] then ([], buffer, left)
    else
      var q := Poll(buffer, left + arrivals[0], false);
      var (lines, b, c) := Polls(q.buffer, q.chunks, arrivals[1..]);
      (Returned(q.line) + lines, b, c)
  }

  predicate AllFit(buffer: string, left: seq<string>, arrivals: seq<seq<string>>)
    decreases |arrivals|
  {
    arrivals == []
    || (var q := Poll(buffer, left + arrivals[0], false);
        Fits(buffer, left + arrivals[0]) && AllFit(q.buffer, q.chunks, arrivals[1..]))
  }

  lemma {:induction false} ConcatAppend(a: seq<string>, b: seq<string>)
    ensures Concat(a + b) == Concat(a) + Concat(b)
  {
    if a == [] {
      assert a + b == b && Concat(a) == "";
    } else {
      assert (a + b)[1..] == a[1..] + b;
      ConcatAppend(a[1..], b);
      assert a[0] + (Concat(a[1..]) + Concat(b)) == (a[0] + Concat(a[1..])) + Concat(b);
    }
  }

  /** More text behind it does not change what a call takes. */
  lemma HeadOfMore(line: Option<string>, before: string, after: string, more: string)
    requires TakesHead(line, before, after)
    ensures Split(before + more).1 == Split(after + more).1
    ensures Split(before + more).0 == Returned(line) + Split(after + more).0
  {
    SplitAppend(before, more);
    SplitAppend(after, more);
    HeadOff(line, Split(before).0, Split(after).0, Split(Split(before).1 + more).0);
  }

  lemma HeadOff(line: Option<string>, lines: seq<string>, after: seq<string>, more: seq<string>)
    requires after == (if lines == [] then [] else lines[1..])
    requires line == if lines == [] then None else Some(lines[0])
    ensures lines + more == Returned(line) + (after + more)
  {
  }

  /** What a poll leaves of the whole stream: the lines still to be had, stripped, and the tail. */
  function Ahead(buffer: string, chunks: seq<string>, more: string): (seq<string>, string) {
    var (lines, tail) := Split(buffer + Concat(chunks) + more);
    (Stripped(lines), tail)
  }

  /** One poll that fits, against the whole stream. */
  lemma PollTakesHead(buffer: string, chunks: seq<string>, more: string)
    requires Fits(buffer, chunks)
    ensures var q := Poll(buffer, chunks, false);
            var (lines, tail) := Ahead(q.buffer, q.chunks, more);
            Ahead(buffer, chunks, more) == (Returned(q.line) + lines, tail)
  {
    PollIsPull(buffer, chunks);
    PullTakesHead(buffer, chunks);
    var (line, b, c) := Pull(buffer, chunks);
    HeadOfMore(line, buffer + Concat(chunks), b + Concat(c), more);
    StrippedHead(line, Split(b + Concat(c) + more).0);
  }

  lemma StrippedHead(line: Option<string>, lines: seq<string>)
    ensures Stripped(Returned(line) + lines)
         == Returned(match line case Some(l) => Some(StripCr(l)) case None => None) + Stripped(lines)
  {
    if line.None? { assert [] + lines == lines; }
  }

  /** The collector's polls, with text arriving between them in any pieces: as long as no poll overflows, the
      lines returned, followed by those still to be had, are the lines of the whole stream with one
      carriage return stripped, none lost, split, joined or reordered, and the unterminated tail is its tail. */
  lemma {:induction false} PollsFollowTheStream(buffer: string, left: seq<string>, arrivals: seq<seq<string>>)
    requires AllFit(buffer, left, arrivals)
    ensures var (got, b, c) := Polls(buffer, left, arrivals);
            var (rest, tail) := Ahead(b, c, "");
            Ahead(buffer, left, All(arrivals)) == (got + rest, tail)
    decreases |arrivals|
  {
    if arrivals == [] {
      assert [] + Ahead(buffer, left, "").0 == Ahead(buffer, left, "").0;
    } else {
      var chunks, more := left + arrivals[0], All(arrivals[1..]);
      var q := Poll(buffer, chunks, false);
      AheadShifts(buffer, left, arrivals);
      PollTakesHead(buffer, chunks, more);
      PollsFollowTheStream(q.buffer, q.chunks, arrivals[1..]);
      var (got, b, c) := Polls(q.buffer, q.chunks, arrivals[1..]);
      assert Polls(buffer, left, arrivals) == (Returned(q.line) + got, b, c);
      Joins(Returned(q.line), got, Ahead(b, c, "").0, Ahead(q.buffer, q.chunks, more).0);
    }
  }

  lemma Joins(first: seq<string>, got: seq<string>, rest: seq<string>, lines: seq<string>)
    requires lines == got + rest
    ensures first + lines == (first + got) + rest
  {
  }

  lemma AheadShifts(buffer: string, left: seq<string>, arrivals: seq<seq<string>>)
    requires arrivals != []
    ensures Ahead(buffer, left, All(arrivals)) == Ahead(buffer, left + arrivals[0], All(arrivals[1..]))
  {
    ConcatAppend(left, arrivals[0]);
    Regrouped(buffer, Concat(left), Concat(arrivals[0]), All(arrivals[1..]));
  }

  lemma Regrouped(a: string, b: string, c: string, d: string)
    ensures a + b + (c + d) == a + (b + c) + d
  {
  }

  // ---------------------------------------------------------------- CRLF or LF

  /** Line `i` followed by a carriage return when `crs[i]`. */
  function Returns(lines: seq<string>, crs: seq<bool>): (sent: seq<string>)
    requires |crs| == |lines|
    ensures |sent| == |lines|
  {
    seq(|lines|, i requires 0 <= i < |lines| => if crs[i] then lines[i] + "\r" else lines[i])
  }

  predicate EndsInReturn(line: string) { line != "" && line[|line| - 1] == '\r' }

  lemma StrippedLine(line: string, cr: bool)
    ensures StripCr(if cr then line + "\r" else line) == line <==> cr || !EndsInReturn(line)
  {
  }

  /** A sender that ends each line with CRLF or with LF, as it likes, is understood by the poll exactly when no
      line it ends with a bare LF itself ends in a carriage return. */
  lemma EitherLineEndIsRead(lines: seq<string>, crs: seq<bool>, tail: string)
    requires |crs| == |lines| && NewlineFree(lines, tail)
    ensures Ahead("", [Unsplit(Returns(lines, crs), tail)], "") == (lines, tail)
       <==> forall i :: 0 <= i < |lines| ==> crs[i] || !EndsInReturn(lines[i])
  {
    var sent := Returns(lines, crs);
    var stream := Unsplit(sent, tail);
    forall i | 0 <= i < |lines| ensures '\n' !in sent[i] { assert '\n' !in lines[i]; }
    SplitIsTheOnlyCut(stream, sent, tail);
    assert "" + Concat([stream]) + "" == stream by { assert Concat([stream]) == stream + Concat([]) == stream; }
    forall i | 0 <= i < |lines| ensures Stripped(sent)[i] == lines[i] <==> crs[i] || !EndsInReturn(lines[i]) {
      StrippedLine(lines[i], crs[i]);
    }
    if forall i :: 0 <= i < |lines| ==> crs[i] || !EndsInReturn(lines[i]) {
      assert Stripped(sent) == lines;
    } else {
      var i :| 0 <= i < |lines| && !crs[i] && EndsInReturn(lines[i]);
      assert Stripped(sent)[i] != lines[i];
    }
  }
}
