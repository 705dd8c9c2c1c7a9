/** The progress parser (progress_parser.cpp) as an object that updates its buffer and
    the shared producer statistics, and the loop of the socket server that feeds it. */
module ProgressParsing {
  import opened Types
  import opened Decimals
  import opened ProgressSpec
  import opened Clocks

  /** One digit more, with both operations wrapping around at 2^64. */
  lemma {:induction false} DigitByDigit(v: nat, d: nat)
    ensures ((v % 0x1_0000_0000_0000_0000) * 10 % 0x1_0000_0000_0000_0000 + d) % 0x1_0000_0000_0000_0000
         == (10 * v + d) % 0x1_0000_0000_0000_0000
  {
  }

  /** The digits are accumulated in an unsigned 64-bit integer. */
  method ParseU64(s: string) returns (r: Option<nat>)
    ensures r == if s != "" && AllDigits(s) then Some(Value(s) % 0x1_0000_0000_0000_0000) else None
  {
    if s == "" {
      return None;
    }
    var value, i := 0, 0;
    while i < |s|
      invariant 0 <= i <= |s| && AllDigits(s[..i])
      invariant value == Value(s[..i]) % TWO_64
    {
      if !IsDigit(s[i]) {
        return None;
      }
      DigitByDigit(Value(s[..i]), DigitValue(s[i]));
      assert Init(s[..i + 1]) == s[..i];
      value := (value * 10 % TWO_64 + DigitValue(s[i])) % TWO_64;
      i := i + 1;
    }
    assert s[..i] == s;
    return Some(value);
  }

  /** What the parser will be once `rest` is handed over too. */
  ghost function Outlook(rest: string, parsed: seq<string>): Parser {
    Parser(Tail(rest), parsed + Lines(rest))
  }

  lemma {:induction false} OutlookAfterLine(rest: string, parsed: seq<string>)
    ensures var k := Find(rest, '\n');
      Outlook(rest, parsed) == if k < |rest| then Outlook(rest[k + 1..], parsed + [rest[..k]]) else Parser(rest, parsed)
  {
    var k := Find(rest, '\n');
    if k < |rest| {
      var lines := Lines(rest[k + 1..]);
      assert parsed + ([rest[..k]] + lines) == parsed + [rest[..k]] + lines;
    } else {
      assert parsed + [] == parsed;
    }
  }

  lemma {:induction false} CutFrom(text: string, consumed: nat, nl: nat)
    requires consumed <= nl < |text|
    ensures text[consumed..][..nl - consumed] == text[consumed..nl]
    ensures text[consumed..][nl - consumed + 1..] == text[nl + 1..]
  {
  }

  /** The line that starts at `consumed` and where the next one starts, if it is complete. */
  method NextLine(text: string, consumed: nat, ghost parsed: seq<string>)
      returns (done: bool, line: string, next: nat)
    requires consumed <= |text|
    ensures next <= |text|
    ensures done ==> next == consumed && Outlook(text[consumed..], parsed) == Parser(text[consumed..], parsed)
    ensures !done ==> consumed < next && Outlook(text[consumed..], parsed) == Outlook(text[next..], parsed + [line])
  {
    ghost var rest := text[consumed..];
    OutlookAfterLine(rest, parsed);
    var nl := consumed + Find(text[consumed..], '\n');
    done, line, next := true, "", consumed;
    if nl < |text| {
      done, line, next := false, text[consumed..nl], nl + 1;
      CutFrom(text, consumed, nl);
    }
  }

  /** The statistics the parser writes and the exporter reads. */
  class SharedStats {
    var framesTotal: nat
    var fps: Double
    var droppedFramesTotal: nat
    var duplicatedFramesTotal: nat
    var speedRatio: Double
    var lastUpdateUnixtime: nat

    ghost function View(): ProducerStats
      reads this
    {
      ProducerStats(framesTotal, fps, droppedFramesTotal, duplicatedFramesTotal, speedRatio, lastUpdateUnixtime)
    }
  }

  /** The times given to the lines with the key "progress". */
  ghost function ProgressTimes(lines: seq<string>, times: seq<nat>): seq<nat>
    requires |lines| == |times|
  {
    if lines == [] then []
    else
      ProgressTimes(Init(lines), Init(times)) + if HasKey(Last(lines), "progress") then [Last(times)] else []
  }

  ghost function WholeSeconds(readings: seq<nat>): seq<nat> {
    seq(|readings|, i requires 0 <= i < |readings| => readings[i] / NS_PER_S)
  }

  lemma {:induction false} ReadOnce(before: seq<nat>, after: seq<nat>, from: nat)
    requires from <= |before|
    requires after == before || (after != [] && after == before + [Last(after)])
    ensures WholeSeconds(after[from..])
         == WholeSeconds(before[from..]) + if after == before then [] else [Last(after) / 1_000_000_000]
  {
    if after != before {
      assert after[from..] == before[from..] + [Last(after)];
    }
  }

  class ProgressParser {
    const stats: SharedStats
    const clock: Clock
    const stod: StringToDouble
    var buffer: string

    ghost const first: ProducerStats
    ghost const readBefore: nat
    ghost var parsed: seq<string>
    ghost var times: seq<nat>

    ghost function View(): Parser
      reads this
    {
      Parser(buffer, parsed)
    }

    /** The statistics after the lines handed over so far, applied in order. */
    ghost function Account(): ProducerStats
      reads this
      requires |times| == |parsed|
    {
      ApplyAll(stod, first, parsed, times)
    }

    /** The clock was read once for each line with the key "progress", and that is its time. */
    ghost predicate OnTime()
      reads this, clock
      requires |times| == |parsed|
    {
      && readBefore <= |clock.wallReadings|
      && ProgressTimes(parsed, times) == WholeSeconds(clock.wallReadings[readBefore..])
    }

    ghost predicate Valid()
      reads this, stats, clock
    {
      |times| == |parsed| && stats.View() == Account() && OnTime()
    }

    constructor (stats: SharedStats, clock: Clock, stod: StringToDouble)
      ensures Valid() && View() == FRESH && first == stats.View()
      ensures this.stats == stats && this.clock == clock && this.stod == stod
    {
      this.stats, this.clock, this.stod := stats, clock, stod;
      buffer := "";
      first, parsed, times := stats.View(), [], [];
      readBefore := |clock.wallReadings|;
    }

    method ParseLine(line: string)
      requires Valid()
      modifies this`parsed, this`times, stats, clock`wallReadings
      ensures Valid() && parsed == old(parsed) + [line]
    {
      ghost var read := clock.wallReadings;
      ghost var now := WriteLine(line);
      SnocParts(parsed, line);
      SnocParts(times, now);
      ReadOnce(read, clock.wallReadings, readBefore);
      parsed, times := parsed + [line], times + [now];
    }

    method WriteLine(line: string) returns (ghost now: nat)
      modifies stats, clock`wallReadings
      ensures stats.View() == Apply(stod, old(stats.View()), line, now)
      ensures if HasKey(line, "progress") then
                && clock.wallReadings != [] && clock.wallReadings == old(clock.wallReadings) + [Last(clock.wallReadings)]
                && now == Last(clock.wallReadings) / 1_000_000_000
              else clock.wallReadings == old(clock.wallReadings)
    {
      now := 0;
      var text := line;
      if text != "" && Last(text) == '\r' {
        text := Init(text);
      }
      var eq := Find(text, '=');
      if eq == |text| {
        return;
      }
      var key, value := text[..eq], text[eq + 1..];
      if key == "frame" {
        var v := ParseU64(value);
        if v.Some? {
          stats.framesTotal := v.value;
        }
      } else if key == "fps" {
        var v := ReadDouble(stod, value);
        if v.Some? {
          stats.fps := v.value;
        }
      } else if key == "drop_frames" {
        var v := ParseU64(value);
        if v.Some? {
          stats.droppedFramesTotal := v.value;
        }
      } else if key == "dup_frames" {
        var v := ParseU64(value);
        if v.Some? {
          stats.duplicatedFramesTotal := v.value;
        }
      } else if key == "speed" {
        var numeric := value;
        if numeric != "" && Last(numeric) == 'x' {
          numeric := Init(numeric);
        }
        var v := ReadDouble(stod, numeric);
        if v.Some? {
          stats.speedRatio := v.value;
        }
      } else if key == "progress" {
        var t := clock.WallNow();
        now := t / NS_PER_S;
        stats.lastUpdateUnixtime := t / NS_PER_S;
      }
    }

    /** Hand over the line that starts at `consumed`, if it is complete. */
    method HandOverLine(text: string, consumed: nat, ghost goal: Parser) returns (next: nat, done: bool)
      requires Valid() && consumed <= |text| && Outlook(text[consumed..], parsed) == goal
      modifies this`parsed, this`times, stats, clock`wallReadings
      ensures Valid() && next <= |text|
      ensures done ==> next == consumed && Parser(text[consumed..], parsed) == goal
      ensures !done ==> consumed < next && Outlook(text[next..], parsed) == goal
    {
      var line;
      done, line, next := NextLine(text, consumed, parsed);
      if !done {
        ParseLine(line);
      }
    }

    /** Hand over the complete lines of the buffer one by one. */
    method HandOverLines(text: string, ghost goal: Parser) returns (consumed: nat)
      requires Valid() && Outlook(text, parsed) == goal
      modifies this`parsed, this`times, stats, clock`wallReadings
      ensures Valid() && consumed <= |text| && Parser(text[consumed..], parsed) == goal
    {
      consumed := 0;
      assert text[0..] == text;
      var done := false;
      while !done
        invariant consumed <= |text| && Valid()
        invariant (if done then Parser(text[consumed..], parsed) else Outlook(text[consumed..], parsed)) == goal
        decreases !done, |text| - consumed
      {
        consumed, done := HandOverLine(text, consumed, goal);
      }
    }

    /** Append, and drop everything if that is too much; else hand over the complete
        lines and keep the rest. */
    method Feed(chunk: string)
      requires Valid()
      modifies this`buffer, this`parsed, this`times, stats, clock`wallReadings
      ensures Valid() && View() == ProgressSpec.Feed(old(View()), chunk)
    {
      buffer := buffer + chunk;
      if |buffer| > MAX_BUFFERED_LINE {
        buffer := "";
        return;
      }
      var consumed := HandOverLines(buffer, Outlook(buffer, parsed));
      buffer := buffer[consumed..];
    }
  }

  /** What the socket server reads at once, and how long that lets lines be. */
  const READ_SIZE: nat := 4096
  const LONGEST_LINE: nat := MAX_BUFFERED_LINE - READ_SIZE

  lemma {:induction false} FeedNext(chunks: seq<string>, i: nat)
    requires i < |chunks|
    ensures FeedAll(FRESH, chunks[..i + 1]) == ProgressSpec.Feed(FeedAll(FRESH, chunks[..i]), chunks[i])
  {
    assert Init(chunks[..i + 1]) == chunks[..i] && Last(chunks[..i + 1]) == chunks[i];
  }

  /** The receiving loop over whatever the reads return: the parser takes every chunk, and
      if no line of the stream is too long the statistics are those of the complete lines
      of the whole stream. */
  method Receive(parser: ProgressParser, chunks: seq<string>)
    requires parser.Valid() && parser.View() == FRESH
    requires forall i :: 0 <= i < |chunks| ==> |chunks[i]| <= 4096
    modifies parser, parser.stats, parser.clock`wallReadings
    ensures parser.Valid() && parser.View() == FeedAll(FRESH, chunks)
    ensures ShortLines(Join(chunks), 61440) ==>
      && parser.buffer == Tail(Join(chunks))
      && |parser.times| == |Lines(Join(chunks))|
      && parser.stats.View() == ApplyAll(parser.stod, parser.first, Lines(Join(chunks)), parser.times)
  {
    var i := 0;
    while i < |chunks|
      invariant 0 <= i <= |chunks|
      invariant parser.Valid() && parser.View() == FeedAll(FRESH, chunks[..i])
    {
      parser.Feed(chunks[i]);
      FeedNext(chunks, i);
      i := i + 1;
    }
    assert chunks[..i] == chunks;
    if ShortLines(Join(chunks), LONGEST_LINE) {
      AnyChunkingAgrees(chunks, LONGEST_LINE, READ_SIZE);
    }
  }
}
