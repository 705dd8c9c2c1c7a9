/** The meaning of the progress stream (progress_parser.cpp): cut the whole stream at
    newlines and apply the lines one by one. `char` stands for a byte. */
module ProgressSpec {
  import opened Types
  import opened Decimals

  const MAX_BUFFERED_LINE: nat := 65536
  const TWO_64: nat := 0x1_0000_0000_0000_0000

  /** A stored double: its bit pattern, never computed with. */
  datatype Double = Double(pattern: nat)

  /** std::stod on a whole string; which strings it accepts is left open. */
  type StringToDouble = string -> Option<Double>

  datatype ProducerStats = ProducerStats(
    framesTotal: nat,
    fps: Double,
    droppedFramesTotal: nat,
    duplicatedFramesTotal: nat,
    speedRatio: Double,
    lastUpdateUnixtime: nat)

  // ---- One line ---------------------------------------------------------------------

  /** Index of the first occurrence, or the length. */
  function Find(s: string, c: char): (k: nat)
    ensures k <= |s|
    ensures k < |s| ==> s[k] == c
    ensures forall i :: 0 <= i < k ==> s[i] != c
  {
    if s == [] || s[0] == c then 0 else 1 + Find(s[1..], c)
  }

  function WithoutReturn(line: string): string {
    if line != [] && Last(line) == '\r' then Init(line) else line
  }

  function WithoutX(value: string): string {
    if value != [] && Last(value) == 'x' then Init(value) else value
  }

  /** The key and value of a line, if it has the shape key=value. */
  function KeyValue(line: string): Option<(string, string)> {
    var text := WithoutReturn(line);
    var eq := Find(text, '=');
    if eq == |text| then None else Some((text[..eq], text[eq + 1..]))
  }

  predicate HasKey(line: string, key: string) {
    KeyValue(line).Some? && KeyValue(line).value.0 == key
  }

  /** A counter value: nonempty, all digits, taken modulo 2^64. */
  function ReadU64(s: string): Option<nat> {
    if s != [] && AllDigits(s) then Some(Value(s) % TWO_64) else None
  }

  function ReadDouble(stod: StringToDouble, s: string): Option<Double> {
    if s == "" || s == "N/A" then None else stod(s)
  }

  function Or<T>(o: Option<T>, otherwise: T): T {
    if o.Some? then o.value else otherwise
  }

  function Apply(stod: StringToDouble, s: ProducerStats, line: string, now: nat): ProducerStats {
    match KeyValue(line)
    case None => s
    case Some((key, value)) =>
      if key == "frame" then s.(framesTotal := Or(ReadU64(value), s.framesTotal))
      else if key == "fps" then s.(fps := Or(ReadDouble(stod, value), s.fps))
      else if key == "drop_frames" then s.(droppedFramesTotal := Or(ReadU64(value), s.droppedFramesTotal))
      else if key == "dup_frames" then s.(duplicatedFramesTotal := Or(ReadU64(value), s.duplicatedFramesTotal))
      else if key == "speed" then s.(speedRatio := Or(ReadDouble(stod, WithoutX(value)), s.speedRatio))
      else if key == "progress" then s.(lastUpdateUnixtime := now)
      else s
  }

  /** Lines applied in order; `times` gives the wall clock, in seconds, at each. */
  function ApplyAll(stod: StringToDouble, s: ProducerStats, lines: seq<string>, times: seq<nat>): ProducerStats
    requires |lines| == |times|
  {
    if lines == [] then s
    else Apply(stod, ApplyAll(stod, s, Init(lines), Init(times)), Last(lines), Last(times))
  }

  // ---- The whole stream -------------------------------------------------------------

  /** The complete lines of a stream, without their newlines. */
  function Lines(s: string): (ls: seq<string>)
    decreases |s|
  {
    var k := Find(s, '\n');
    if k == |s| then [] else [s[..k]] + Lines(s[k + 1..])
  }

  /** What follows the last newline. */
  function Tail(s: string): string
    decreases |s|
  {
    var k := Find(s, '\n');
    if k == |s| then s else Tail(s[k + 1..])
  }

  lemma {:induction false} FindInTwo(a: string, b: string, c: char)
    ensures Find(a + b, c) == if Find(a, c) < |a| then Find(a, c) else |a| + Find(b, c)
    decreases |a|
  {
    if a == [] {
      assert a + b == b;
    } else if a[0] != c {
      assert (a + b)[1..] == a[1..] + b;
      FindInTwo(a[1..], b, c);
    }
  }

  lemma {:induction false} FirstLine(head: string, rest: string)
    requires Find(head, '\n') == |head|
    ensures Lines(head + "\n" + rest) == [head] + Lines(rest)
    ensures Tail(head + "\n" + rest) == Tail(rest)
  {
    var s := head + "\n" + rest;
    assert s == head + ("\n" + rest);
    FindInTwo(head, "\n" + rest, '\n');
    assert Find("\n" + rest, '\n') == 0;
    assert s[..|head|] == head && s[|head| + 1..] == rest;
  }

  function Terminated(lines: seq<string>): string {
    if lines == [] then "" else lines[0] + "\n" + Terminated(lines[1..])
  }

  lemma {:induction false} PutTogether(s: string, k: nat)
    requires k < |s| && s[k] == '\n'
    ensures s[..k] + "\n" + s[k + 1..] == s
  {
  }

  lemma {:induction false} TerminatedCons(line: string, lines: seq<string>, tail: string)
    ensures Terminated([line] + lines) + tail == line + "\n" + (Terminated(lines) + tail)
  {
    assert ([line] + lines)[1..] == lines;
    Joined(line + "\n", Terminated(lines), tail);
  }

  /** The lines, each with its newline, and the tail make up the stream. */
  lemma {:induction false} LinesAreTheStream(s: string)
    ensures Terminated(Lines(s)) + Tail(s) == s
    decreases |s|
  {
    var k := Find(s, '\n');
    if k < |s| {
      var head, rest := s[..k], s[k + 1..];
      LinesAreTheStream(rest);
      CutFirstLine(s);
      TerminatedCons(head, Lines(rest), Tail(rest));
      PutTogether(s, k);
    }
  }

  /** No newline is left in any line, nor in the tail. */
  lemma {:induction false} LinesAreUnbroken(s: string)
    ensures forall i :: 0 <= i < |Lines(s)| ==> '\n' !in Lines(s)[i]
    ensures '\n' !in Tail(s)
    decreases |s|
  {
    if Find(s, '\n') < |s| {
      LinesAreUnbroken(s[Find(s, '\n') + 1..]);
      CutFirstLine(s);
    }
  }

  lemma {:induction false} TailIsUnterminated(s: string)
    ensures Find(Tail(s), '\n') == |Tail(s)|
    decreases |s|
  {
    var k := Find(s, '\n');
    if k < |s| {
      TailIsUnterminated(s[k + 1..]);
    }
  }

  lemma {:induction false} CutAtNewline(a: string, b: string, k: nat)
    requires k < |a|
    ensures (a + b)[..k] == a[..k] && (a + b)[k + 1..] == a[k + 1..] + b
  {
  }

  lemma {:induction false} CutFirstLine(s: string)
    requires Find(s, '\n') < |s|
    ensures var k := Find(s, '\n'); Lines(s) == [s[..k]] + Lines(s[k + 1..]) && Tail(s) == Tail(s[k + 1..])
  {
  }

  lemma {:induction false} FirstLineOfBoth(a: string, b: string)
    requires Find(a, '\n') < |a|
    ensures var k := Find(a, '\n'); Lines(a + b) == [a[..k]] + Lines(a[k + 1..] + b)
  {
    var k, ab := Find(a, '\n'), a + b;
    FindInTwo(a, b, '\n');
    CutFirstLine(ab);
    CutAtNewline(a, b, k);
    assert ab[..k] == a[..k];
  }

  lemma {:induction false} TailInTwo(a: string, b: string)
    ensures Tail(a + b) == Tail(Tail(a) + b)
    decreases |a|
  {
    var k := Find(a, '\n');
    if k < |a| {
      FindInTwo(a, b, '\n');
      CutAtNewline(a, b, k);
      TailInTwo(a[k + 1..], b);
    }
  }

  /** Chunk boundaries do not matter: cutting a stream anywhere and keeping the
      unterminated tail of the first part loses nothing. */
  lemma {:induction false} LinesInTwo(a: string, b: string)
    ensures Lines(a + b) == Lines(a) + Lines(Tail(a) + b)
    decreases |a|
  {
    var k := Find(a, '\n');
    if k < |a| {
      var first, rest := [a[..k]], a[k + 1..];
      FirstLineOfBoth(a, b);
      LinesInTwo(rest, b);
      CutFirstLine(a);
      Joined(first, Lines(rest), Lines(Tail(rest) + b));
    } else {
      assert [] + Lines(a + b) == Lines(a + b);
    }
  }

  // ---- The buffered parser ----------------------------------------------------------

  /** The buffer, and the lines handed to parse_line so far. */
  datatype Parser = Parser(buffer: string, parsed: seq<string>)

  predicate Overflows(p: Parser, chunk: string) {
    |p.buffer| + |chunk| > MAX_BUFFERED_LINE
  }

  /** The size is tested before any line is split off. */
  function Feed(p: Parser, chunk: string): Parser {
    if Overflows(p, chunk) then Parser("", p.parsed)
    else Parser(Tail(p.buffer + chunk), p.parsed + Lines(p.buffer + chunk))
  }

  function FeedAll(p: Parser, chunks: seq<string>): Parser {
    if chunks == [] then p else Feed(FeedAll(p, Init(chunks)), Last(chunks))
  }

  const FRESH := Parser("", [])

  function Join(chunks: seq<string>): string {
    if chunks == [] then "" else Join(Init(chunks)) + Last(chunks)
  }

  ghost predicate NoOverflow(p: Parser, chunks: seq<string>)
    decreases |chunks|
  {
    chunks != [] ==> NoOverflow(p, Init(chunks)) && !Overflows(FeedAll(p, Init(chunks)), Last(chunks))
  }

  /** Without overflow the parser has handed over exactly the complete lines of the whole
      stream and holds exactly its tail. */
  lemma {:induction false} FeedingIsSplitting(chunks: seq<string>)
    requires NoOverflow(FRESH, chunks)
    ensures FeedAll(FRESH, chunks) == Parser(Tail(Join(chunks)), Lines(Join(chunks)))
    decreases |chunks|
  {
    if chunks != [] {
      FeedingIsSplitting(Init(chunks));
      LinesInTwo(Join(Init(chunks)), Last(chunks));
      TailInTwo(Join(Init(chunks)), Last(chunks));
    }
  }

  // ---- Chunking independence with a bound ---------------------------------------------

  ghost predicate AllShort(lines: seq<string>, bound: nat) {
    forall i :: 0 <= i < |lines| ==> |lines[i]| <= bound
  }

  ghost predicate ShortLines(s: string, bound: nat) {
    |Tail(s)| <= bound && AllShort(Lines(s), bound)
  }

  lemma {:induction false} AllShortInTwo(a: seq<string>, b: seq<string>, bound: nat)
    ensures AllShort(a + b, bound) <==> AllShort(a, bound) && AllShort(b, bound)
  {
    var ab := a + b;
    assert forall i :: 0 <= i < |a| ==> a[i] == ab[i];
    assert forall i :: 0 <= i < |b| ==> b[i] == ab[|a| + i];
  }

  /** A stream that starts with a stretch free of newlines has a line or a tail that is
      at least as long. */
  lemma {:induction false} LongStart(start: string, b: string, bound: nat)
    requires Find(start, '\n') == |start|
    requires ShortLines(start + b, bound)
    ensures |start| <= bound
  {
    FindInTwo(start, b, '\n');
    var s := start + b;
    if Find(s, '\n') < |s| {
      CutFirstLine(s);
      assert Lines(s)[0] == s[..Find(s, '\n')];
    }
  }

  /** A prefix of a stream of short lines leaves a short tail. */
  lemma {:induction false} PrefixTailIsShort(a: string, b: string, bound: nat)
    requires ShortLines(a + b, bound)
    ensures |Tail(a)| <= bound && ShortLines(a, bound)
  {
    LinesInTwo(a, b);
    TailInTwo(a, b);
    TailIsUnterminated(a);
    AllShortInTwo(Lines(a), Lines(Tail(a) + b), bound);
    LongStart(Tail(a), b, bound);
  }

  /** If every line is at most `line` bytes and every chunk at most `chunk`, and the two
      fit the cap together, then no way of cutting the stream ever overflows, and all ways
      hand over the same lines and leave the same tail. The socket server reads 4096 bytes
      at a time, which leaves lines of up to 61440. */
  lemma {:induction false} AnyChunkingAgrees(chunks: seq<string>, line: nat, chunk: nat)
    requires line + chunk <= MAX_BUFFERED_LINE
    requires forall i :: 0 <= i < |chunks| ==> |chunks[i]| <= chunk
    requires ShortLines(Join(chunks), line)
    ensures NoOverflow(FRESH, chunks)
    ensures FeedAll(FRESH, chunks) == Parser(Tail(Join(chunks)), Lines(Join(chunks)))
    decreases |chunks|
  {
    if chunks != [] {
      var before := Init(chunks);
      PrefixTailIsShort(Join(before), Last(chunks), line);
      AnyChunkingAgrees(before, line, chunk);
    }
    FeedingIsSplitting(chunks);
  }

  function Repeat(c: char, n: nat): (s: string)
    ensures |s| == n && forall i :: 0 <= i < n ==> s[i] == c
  {
    if n == 0 then "" else Repeat(c, n - 1) + [c]
  }

  lemma {:induction false} FillByteByByte(n: nat)
    requires n <= MAX_BUFFERED_LINE
    ensures var chunks := seq(n, _ => "a");
      NoOverflow(FRESH, chunks) && FeedAll(FRESH, chunks) == Parser(Repeat('a', n), []) && Join(chunks) == Repeat('a', n)
  {
    var chunks := seq(n, _ => "a");
    if n > 0 {
      FillByteByByte(n - 1);
      assert Init(chunks) == seq(n - 1, _ => "a");
      var whole := Repeat('a', n - 1) + "a";
      assert Find(whole, '\n') == |whole|;
    }
  }

  /** A run of newlines is a run of empty lines. */
  lemma {:induction false} BlankLines(n: nat)
    ensures var s := Repeat('\n', n);
      |Lines(s)| == n && Tail(s) == "" && forall i :: 0 <= i < n ==> Lines(s)[i] == ""
    decreases n
  {
    if n > 0 {
      BlankLines(n - 1);
      FirstLine("", Repeat('\n', n - 1));
      FirstNewline(n);
      assert "" + "\n" == "\n";
    }
  }

  lemma {:induction false} RunOfLetters(n: nat)
    ensures Find(Repeat('a', n), '\n') == n
  {
  }

  lemma {:induction false} FirstNewline(n: nat)
    requires n > 0
    ensures Repeat('\n', n) == "\n" + Repeat('\n', n - 1)
  {
  }

  lemma {:induction false} LettersThenBlanks(m: nat, n: nat)
    requires n > 0
    ensures var s := Repeat('a', m) + Repeat('\n', n);
      Lines(s) != [] && Tail(s) == "" && AllShort(Lines(s), m)
  {
    var head, rest := Repeat('a', m), Repeat('\n', n - 1);
    RunOfLetters(m);
    BlankLines(n - 1);
    FirstLine(head, rest);
    FirstNewline(n);
    Joined(head, "\n", rest);
  }

  /** Chunks of at most `chunk` bytes that make a stream of lines of at most `line`. */
  ghost predicate Fits(chunks: seq<string>, line: nat, chunk: nat) {
    (forall i :: 0 <= i < |chunks| ==> |chunks[i]| <= chunk) && ShortLines(Join(chunks), line)
  }

  lemma {:induction false} OneChunkTooMany(head: seq<string>, last: string)
    requires Overflows(FeedAll(FRESH, head), last)
    ensures !NoOverflow(FRESH, head + [last]) && Join(head + [last]) == Join(head) + last
    ensures FeedAll(FRESH, head + [last]).parsed == FeedAll(FRESH, head).parsed
  {
    SnocParts(head, last);
  }

  /** Beyond the bound some stream overflows and loses a complete line: a line as long as
      may be, byte by byte, and then a chunk of newlines. */
  lemma {:induction false} BeyondTheBound(line: nat, chunk: nat)
    requires chunk >= 1 && line + chunk > MAX_BUFFERED_LINE
    ensures exists chunks ::
      Fits(chunks, line, chunk) && !NoOverflow(FRESH, chunks) && |FeedAll(FRESH, chunks).parsed| < |Lines(Join(chunks))|
  {
    var n := if line <= MAX_BUFFERED_LINE then line else MAX_BUFFERED_LINE;
    var head := seq(n, _ => "a");
    var last := Repeat('\n', chunk);
    var chunks := head + [last];
    FillByteByByte(n);
    LettersThenBlanks(n, chunk);
    OneChunkTooMany(head, last);
    assert Fits(chunks, line, chunk);
  }

  /** The bound is exact: no stream of lines of at most `line` bytes overflows however it is
      cut into chunks of at most `chunk`, if and only if the two fit the cap together. */
  lemma {:induction false} BoundIsExact(line: nat, chunk: nat)
    requires chunk >= 1
    ensures line + chunk <= 65536 <==> forall chunks :: Fits(chunks, line, chunk) ==> NoOverflow(FRESH, chunks)
  {
    if line + chunk <= MAX_BUFFERED_LINE {
      forall chunks | Fits(chunks, line, chunk)
        ensures NoOverflow(FRESH, chunks)
      {
        AnyChunkingAgrees(chunks, line, chunk);
      }
    } else {
      BeyondTheBound(line, chunk);
    }
  }

  // ---- Overflow ---------------------------------------------------------------------

  /** The lines of a stream with overflows: for each maximal stretch of chunks between
      overflows, the complete lines of that stretch. `stretch` is the one under way. */
  function StretchLines(stretch: string, chunks: seq<string>): seq<string>
    decreases |chunks|
  {
    if chunks == [] then Lines(stretch)
    else if |Tail(stretch)| + |chunks[0]| > MAX_BUFFERED_LINE then Lines(stretch) + StretchLines("", chunks[1..])
    else StretchLines(stretch + chunks[0], chunks[1..])
  }

  function LastStretch(stretch: string, chunks: seq<string>): string
    decreases |chunks|
  {
    if chunks == [] then stretch
    else if |Tail(stretch)| + |chunks[0]| > MAX_BUFFERED_LINE then LastStretch("", chunks[1..])
    else LastStretch(stretch + chunks[0], chunks[1..])
  }

  lemma {:induction false} FeedFromFront(p: Parser, chunks: seq<string>)
    requires chunks != []
    ensures FeedAll(p, chunks) == FeedAll(Feed(p, chunks[0]), chunks[1..])
    decreases |chunks|
  {
    if |chunks| == 1 {
      assert Init(chunks) == [] && chunks[1..] == [];
    } else {
      assert Init(chunks)[1..] == Init(chunks[1..]);
      FeedFromFront(p, Init(chunks));
    }
  }

  lemma {:induction false} FeedWithinStretch(p: Parser, stretch: string, chunk: string, done: seq<string>)
    requires p == Parser(Tail(stretch), done + Lines(stretch)) && !Overflows(p, chunk)
    ensures Feed(p, chunk) == Parser(Tail(stretch + chunk), done + Lines(stretch + chunk))
  {
    LinesInTwo(stretch, chunk);
    TailInTwo(stretch, chunk);
    Joined(done, Lines(stretch), Lines(Tail(stretch) + chunk));
  }

  lemma {:induction false} FeedingStretches(p: Parser, stretch: string, chunks: seq<string>, done: seq<string>)
    requires p == Parser(Tail(stretch), done + Lines(stretch))
    ensures FeedAll(p, chunks) == Parser(Tail(LastStretch(stretch, chunks)), done + StretchLines(stretch, chunks))
    decreases |chunks|
  {
    if chunks != [] {
      var chunk, rest := chunks[0], chunks[1..];
      FeedFromFront(p, chunks);
      if Overflows(p, chunk) {
        var lines := Lines(stretch);
        FeedingStretches(Feed(p, chunk), "", rest, done + lines);
        Joined(done, lines, StretchLines("", rest));
      } else {
        FeedWithinStretch(p, stretch, chunk, done);
        FeedingStretches(Feed(p, chunk), stretch + chunk, rest, done);
      }
    }
  }

  /** For arbitrary chunks the lines handed over are the complete lines of the stretches
      between overflows, and the buffer never holds a newline or exceeds the cap. */
  lemma {:induction false} OverflowsOnlyCutStretches(chunks: seq<string>)
    ensures var p := FeedAll(FRESH, chunks);
      && p.parsed == StretchLines("", chunks)
      && p.buffer == Tail(LastStretch("", chunks))
      && '\n' !in p.buffer
      && |p.buffer| <= 65536
  {
    FeedingStretches(FRESH, "", chunks, []);
    TailIsUnterminated(LastStretch("", chunks));
    BufferIsCapped(chunks);
  }

  lemma {:induction false} TailIsNoLonger(s: string)
    ensures |Tail(s)| <= |s|
    decreases |s|
  {
    var k := Find(s, '\n');
    if k < |s| {
      TailIsNoLonger(s[k + 1..]);
    }
  }

  lemma {:induction false} BufferIsCapped(chunks: seq<string>)
    ensures |FeedAll(FRESH, chunks).buffer| <= MAX_BUFFERED_LINE
    decreases |chunks|
  {
    if chunks != [] {
      BufferIsCapped(Init(chunks));
      TailIsNoLonger(FeedAll(FRESH, Init(chunks)).buffer + Last(chunks));
    }
  }
}
