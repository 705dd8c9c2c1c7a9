/** What the producer statistics mean, over whole streams. */
module ProgressLaws {
  import opened Types
  import opened Decimals
  import opened ProgressSpec

  // ---- Last writer wins ---------------------------------------------------------------

  datatype CounterKey = Frames | Dropped | Duplicated {
    function Name(): string {
      match this
      case Frames => "frame"
      case Dropped => "drop_frames"
      case Duplicated => "dup_frames"
    }

    function Of(s: ProducerStats): nat {
      match this
      case Frames => s.framesTotal
      case Dropped => s.droppedFramesTotal
      case Duplicated => s.duplicatedFramesTotal
    }
  }

  /** What a line says for a key: the text after the key and an equals sign, one carriage
      return at the end of the line not counted. */
  function Said(line: string, key: string): Option<string> {
    var text := if line != "" && line[|line| - 1] == '\r' then line[..|line| - 1] else line;
    if key + "=" <= text then Some(text[|key| + 1..]) else None
  }

  lemma {:induction false} SaidInFront(text: string, key: string)
    requires '=' !in key && key + "=" <= text
    ensures Find(text, '=') == |key| && text[..|key|] == key
  {
    var rest := text[|key| + 1..];
    assert text == key + ("=" + rest);
    FindNone(key, '=');
    FindInTwo(key, "=" + rest, '=');
  }

  /** Cutting at the first equals sign finds what the line says. */
  lemma {:induction false} SaidIsTheValue(line: string, key: string)
    requires '=' !in key
    ensures Said(line, key) == if HasKey(line, key) then Some(KeyValue(line).value.1) else None
    ensures HasKey(line, key) <==> Said(line, key).Some?
  {
    var text := WithoutReturn(line);
    var eq := Find(text, '=');
    if key + "=" <= text {
      SaidInFront(text, key);
    }
    if eq < |text| {
      assert text == text[..eq] + "=" + text[eq + 1..];
    }
  }

  lemma {:induction false} FindNone(s: string, c: char)
    requires c !in s
    ensures Find(s, c) == |s|
  {
    assert Find(s, c) < |s| ==> c in s;
  }

  /** The value a line writes to a counter, if it writes it: nonempty, all digits, taken
      modulo 2^64. */
  function Written(line: string, key: CounterKey): Option<nat> {
    match Said(line, key.Name())
    case None => None
    case Some(v) => if v != "" && AllDigits(v) then Some(Value(v) % 0x1_0000_0000_0000_0000) else None
  }

  lemma {:induction false} ApplyReads(stod: StringToDouble, s: ProducerStats, line: string, now: nat, key: CounterKey)
    ensures key.Of(Apply(stod, s, line, now))
         == if HasKey(line, key.Name()) then Or(ReadU64(KeyValue(line).value.1), key.Of(s)) else key.Of(s)
  {
    assert "frame" != "drop_frames" && "frame" != "dup_frames" && "drop_frames" != "dup_frames";
    assert |"frame"| == 5 && |"fps"| == 3 && |"drop_frames"| == 11 && |"dup_frames"| == 10;
  }

  lemma {:induction false} ApplyWrites(stod: StringToDouble, s: ProducerStats, line: string, now: nat, key: CounterKey)
    ensures key.Of(Apply(stod, s, line, now)) == Or(Written(line, key), key.Of(s))
  {
    ApplyReads(stod, s, line, now, key);
    KeyNamesAreClean(key);
    SaidIsTheValue(line, key.Name());
  }

  lemma {:induction false} SaysItsValue(key: string, v: string)
    requires v != "" ==> Last(v) != '\r'
    ensures Said(key + "=" + v, key) == Some(v)
  {
    var line := key + "=" + v;
    assert line[|line| - 1] == if v == "" then '=' else Last(v);
    assert line[..|key| + 1] == key + "=" && line[|key| + 1..] == v;
  }

  lemma {:induction false} LineIs(key: string, v: string)
    requires '=' !in key && (v != "" ==> Last(v) != '\r')
    ensures KeyValue(key + "=" + v) == Some((key, v))
  {
    SaysItsValue(key, v);
    SaidIsTheValue(key + "=" + v, key);
  }

  /** What a value makes of a counter: a nonempty string of digits sets it to its worth
      modulo 2^64, any other value leaves it. */
  function Counter(v: string, otherwise: nat): nat {
    if v != "" && AllDigits(v) then Value(v) % 0x1_0000_0000_0000_0000 else otherwise
  }

  /** Which line sets which counter, to what, and that it changes nothing else. */
  lemma {:induction false} CounterLines(stod: StringToDouble, s: ProducerStats, now: nat, v: string)
    requires v != "" ==> Last(v) != '\r'
    ensures Apply(stod, s, "frame=" + v, now) == s.(framesTotal := Counter(v, s.framesTotal))
    ensures Apply(stod, s, "drop_frames=" + v, now) == s.(droppedFramesTotal := Counter(v, s.droppedFramesTotal))
    ensures Apply(stod, s, "dup_frames=" + v, now) == s.(duplicatedFramesTotal := Counter(v, s.duplicatedFramesTotal))
  {
    assert "frame" + "=" == "frame=" && "drop_frames" + "=" == "drop_frames=" && "dup_frames" + "=" == "dup_frames=";
    LineIs("frame", v);
    LineIs("drop_frames", v);
    LineIs("dup_frames", v);
    assert |"frame"| == 5 && |"fps"| == 3 && |"drop_frames"| == 11 && |"dup_frames"| == 10;
  }

  lemma {:induction false} KeyNamesAreClean(key: CounterKey)
    ensures var name := key.Name(); '=' !in name && '\n' !in name && '\r' !in name && |name| <= 11
  {
  }

  /** `i` is the index of the last line that writes the counter, or -1. */
  ghost predicate IsLastWrite(lines: seq<string>, key: CounterKey, i: int) {
    && -1 <= i < |lines|
    && (i >= 0 ==> Written(lines[i], key).Some?)
    && forall j :: i < j < |lines| ==> Written(lines[j], key) == None
  }

  lemma {:induction false} EarlierWrite(lines: seq<string>, key: CounterKey, i: int)
    requires i < |lines| - 1 && IsLastWrite(lines, key, i)
    ensures IsLastWrite(Init(lines), key, i) && Written(Last(lines), key) == None
  {
  }

  /** After any lines a counter holds the value of the last line that wrote it, whatever
      other lines lie between, or its first value if none did. */
  lemma {:induction false} LastWriterWins(
      stod: StringToDouble, s: ProducerStats, lines: seq<string>, times: seq<nat>, key: CounterKey, i: int)
    requires |lines| == |times| && IsLastWrite(lines, key, i)
    ensures key.Of(ApplyAll(stod, s, lines, times)) == if i < 0 then key.Of(s) else Written(lines[i], key).value
    decreases |lines|
  {
    if lines != [] {
      var before := ApplyAll(stod, s, Init(lines), Init(times));
      ApplyWrites(stod, before, Last(lines), Last(times), key);
      if i < |lines| - 1 {
        EarlierWrite(lines, key, i);
        LastWriterWins(stod, s, Init(lines), Init(times), key, i);
      }
    }
  }

  datatype GaugeKey = Fps | Speed {
    function Of(s: ProducerStats): Double {
      match this
      case Fps => s.fps
      case Speed => s.speedRatio
    }
  }

  /** What std::stod makes of a value, the empty one and N/A excepted. */
  function Reading(stod: StringToDouble, v: string): Option<Double> {
    if v == "" || v == "N/A" then None else stod(v)
  }

  /** The value a line writes to a gauge, if it writes it; a speed may end in an x. */
  function WrittenGauge(stod: StringToDouble, line: string, key: GaugeKey): Option<Double> {
    match (key, Said(line, if key == Fps then "fps" else "speed"))
    case (_, None) => None
    case (Fps, Some(v)) => Reading(stod, v)
    case (Speed, Some(v)) => Reading(stod, if v != "" && v[|v| - 1] == 'x' then v[..|v| - 1] else v)
  }

  lemma {:induction false} ApplyReadsGauge(stod: StringToDouble, s: ProducerStats, line: string, now: nat)
    ensures var n := Apply(stod, s, line, now);
      && n.fps == (if HasKey(line, "fps") then Or(ReadDouble(stod, KeyValue(line).value.1), s.fps) else s.fps)
      && n.speedRatio
         == if HasKey(line, "speed") then Or(ReadDouble(stod, WithoutX(KeyValue(line).value.1)), s.speedRatio)
            else s.speedRatio
  {
    assert |"frame"| == 5 && |"fps"| == 3 && |"drop_frames"| == 11 && |"dup_frames"| == 10 && |"speed"| == 5;
    assert "frame"[0] == 'f' && "speed"[0] == 's';
  }

  lemma {:induction false} ApplyWritesGauge(
      stod: StringToDouble, s: ProducerStats, line: string, now: nat, key: GaugeKey)
    ensures key.Of(Apply(stod, s, line, now)) == Or(WrittenGauge(stod, line, key), key.Of(s))
  {
    ApplyReadsGauge(stod, s, line, now);
    SaidIsTheValue(line, if key == Fps then "fps" else "speed");
  }

  lemma {:induction false} SpeedLine(stod: StringToDouble, s: ProducerStats, now: nat, v: string)
    requires v != "" ==> Last(v) != '\r'
    ensures Apply(stod, s, "speed=" + v, now) == s.(speedRatio := Or(ReadDouble(stod, WithoutX(v)), s.speedRatio))
  {
    assert "speed" + "=" == "speed=";
    LineIs("speed", v);
    assert |"frame"| == 5 && |"fps"| == 3 && |"drop_frames"| == 11 && |"dup_frames"| == 10 && |"speed"| == 5;
    assert "frame"[0] == 'f' && "speed"[0] == 's';
  }

  lemma {:induction false} FpsLine(stod: StringToDouble, s: ProducerStats, now: nat, v: string)
    requires v != "" ==> Last(v) != '\r'
    ensures Apply(stod, s, "fps=" + v, now) == s.(fps := Or(ReadDouble(stod, v), s.fps))
  {
    assert "fps" + "=" == "fps=";
    LineIs("fps", v);
    assert |"frame"| == 5 && |"fps"| == 3;
  }

  /** A line speed=v, with or without an x after it, sets the speed to what std::stod makes
      of v, and a line fps=v likewise the rate; the empty value, N/A and what std::stod
      refuses set nothing. */
  lemma {:induction false} GaugeLines(stod: StringToDouble, s: ProducerStats, now: nat, v: string)
    requires v != "" ==> Last(v) != '\r' && Last(v) != 'x'
    ensures var refused := v == "" || v == "N/A" || stod(v) == None;
      && Apply(stod, s, "speed=" + v, now) == s.(speedRatio := if refused then s.speedRatio else stod(v).value)
      && Apply(stod, s, "speed=" + v + "x", now) == s.(speedRatio := if refused then s.speedRatio else stod(v).value)
      && Apply(stod, s, "fps=" + v, now) == s.(fps := if refused then s.fps else stod(v).value)
  {
    FpsLine(stod, s, now, v);
    SpeedLine(stod, s, now, v);
    SpeedLine(stod, s, now, v + "x");
    Joined("speed=", v, "x");
    SnocParts(v, 'x');
  }

  /** `i` is the index of the last line that writes the gauge, or -1. */
  ghost predicate IsLastGaugeWrite(stod: StringToDouble, lines: seq<string>, key: GaugeKey, i: int) {
    && -1 <= i < |lines|
    && (i >= 0 ==> WrittenGauge(stod, lines[i], key).Some?)
    && forall j :: i < j < |lines| ==> WrittenGauge(stod, lines[j], key) == None
  }

  lemma {:induction false} EarlierGaugeWrite(stod: StringToDouble, lines: seq<string>, key: GaugeKey, i: int)
    requires i < |lines| - 1 && IsLastGaugeWrite(stod, lines, key, i)
    ensures IsLastGaugeWrite(stod, Init(lines), key, i) && WrittenGauge(stod, Last(lines), key) == None
  {
  }

  /** The same for the two gauges. */
  lemma {:induction false} LastGaugeWins(
      stod: StringToDouble, s: ProducerStats, lines: seq<string>, times: seq<nat>, key: GaugeKey, i: int)
    requires |lines| == |times| && IsLastGaugeWrite(stod, lines, key, i)
    ensures key.Of(ApplyAll(stod, s, lines, times))
         == if i < 0 then key.Of(s) else WrittenGauge(stod, lines[i], key).value
    decreases |lines|
  {
    if lines != [] {
      var before := ApplyAll(stod, s, Init(lines), Init(times));
      ApplyWritesGauge(stod, before, Last(lines), Last(times), key);
      if i < |lines| - 1 {
        EarlierGaugeWrite(stod, lines, key, i);
        LastGaugeWins(stod, s, Init(lines), Init(times), key, i);
      }
    }
  }

  // ---- Round trip of printed counters ---------------------------------------------------

  lemma {:induction false} DigitsAreClean(s: string)
    requires AllDigits(s)
    ensures '\n' !in s && '=' !in s && '\r' !in s
  {
  }

  lemma {:induction false} PrintedIsOneLine(key: CounterKey, n: nat)
    ensures var line := key.Name() + "=" + Print(n); Find(line, '\n') == |line| && Last(Print(n)) != '\r'
  {
    KeyNamesAreClean(key);
    PrintIsRead(n);
    DigitsAreClean(Print(n));
    assert Last(Print(n)) in Print(n);
    FindNone(key.Name() + "=" + Print(n), '\n');
  }

  lemma {:induction false} PrintedU64IsShort(n: nat)
    requires n < TWO_64
    ensures |Print(n)| <= 20
  {
    assert Pow10(10) == 10_000_000_000 by {
      assert Pow10(5) == 100_000;
      assert Pow10(10) == 10 * (10 * (10 * (10 * (10 * Pow10(5)))));
    }
    assert Pow10(20) == 100_000_000_000_000_000_000 by {
      assert Pow10(15) == 10 * (10 * (10 * (10 * (10 * Pow10(10)))));
      assert Pow10(20) == 10 * (10 * (10 * (10 * (10 * Pow10(15)))));
    }
    PrintLength(n, 20);
  }

  lemma {:induction false} FedWhole(parsed: seq<string>, line: string)
    requires Find(line, '\n') == |line| && |line| < MAX_BUFFERED_LINE
    ensures Feed(Parser("", parsed), line + "\n") == Parser("", parsed + [line])
  {
    FirstLine(line, "");
    assert "" + (line + "\n") == line + "\n" + "";
  }

  lemma {:induction false} PrintedIsFedWhole(parsed: seq<string>, key: CounterKey, n: nat)
    requires n < TWO_64
    ensures var line := key.Name() + "=" + Print(n);
      Feed(Parser("", parsed), line + "\n") == Parser("", parsed + [line])
  {
    KeyNamesAreClean(key);
    PrintedIsOneLine(key, n);
    PrintedU64IsShort(n);
    FedWhole(parsed, key.Name() + "=" + Print(n));
  }

  lemma {:induction false} PrintedIsCounted(stod: StringToDouble, s: ProducerStats, now: nat, key: CounterKey, n: nat)
    requires n < TWO_64
    ensures key.Of(Apply(stod, s, key.Name() + "=" + Print(n), now)) == n
  {
    PrintIsRead(n);
    PrintedIsOneLine(key, n);
    ApplyWrites(stod, s, key.Name() + "=" + Print(n), now, key);
    SaysItsValue(key.Name(), Print(n));
  }

  /** Feeding a printed counter to a parser with an empty buffer sets the counter to
      exactly that number, and printing the counter gives the same digits back. */
  lemma {:induction false} PrintedCounterIsReadBack(
      stod: StringToDouble, s: ProducerStats, now: nat, parsed: seq<string>, key: CounterKey, n: nat)
    requires n < 0x1_0000_0000_0000_0000
    ensures var line := key.Name() + "=" + Print(n);
      && Feed(Parser("", parsed), line + "\n") == Parser("", parsed + [line])
      && key.Of(Apply(stod, s, line, now)) == n
      && Print(key.Of(Apply(stod, s, line, now))) == Print(n)
  {
    PrintedIsFedWhole(parsed, key, n);
    PrintedIsCounted(stod, s, now, key, n);
  }

  // ---- Timestamps and CRLF --------------------------------------------------------------

  /** Everything but the timestamp. */
  function Untimed(s: ProducerStats): ProducerStats {
    s.(lastUpdateUnixtime := 0)
  }

  /** The clock readings reach nothing but the timestamp. */
  lemma {:induction false} TimesReachOnlyTheTimestamp(
      stod: StringToDouble, s: ProducerStats, r: ProducerStats, lines: seq<string>, times: seq<nat>, others: seq<nat>)
    requires |lines| == |times| == |others| && Untimed(s) == Untimed(r)
    ensures Untimed(ApplyAll(stod, s, lines, times)) == Untimed(ApplyAll(stod, r, lines, others))
    decreases |lines|
  {
    if lines != [] {
      TimesReachOnlyTheTimestamp(stod, s, r, Init(lines), Init(times), Init(others));
    }
  }

  /** `i` is the index of the last line with the key "progress", or -1. */
  ghost predicate IsLastProgress(lines: seq<string>, i: int) {
    && -1 <= i < |lines|
    && (i >= 0 ==> Said(lines[i], "progress").Some?)
    && forall j :: i < j < |lines| ==> Said(lines[j], "progress") == None
  }

  lemma {:induction false} EarlierProgress(lines: seq<string>, i: int)
    requires i < |lines| - 1 && IsLastProgress(lines, i)
    ensures IsLastProgress(Init(lines), i) && Said(Last(lines), "progress") == None
  {
  }

  /** The timestamp is the clock at the last line with the key "progress". */
  lemma {:induction false} TimestampIsLastProgress(
      stod: StringToDouble, s: ProducerStats, lines: seq<string>, times: seq<nat>, i: int)
    requires |lines| == |times| && IsLastProgress(lines, i)
    ensures ApplyAll(stod, s, lines, times).lastUpdateUnixtime == if i < 0 then s.lastUpdateUnixtime else times[i]
    decreases |lines|
  {
    if lines != [] {
      StampedByProgress(stod, ApplyAll(stod, s, Init(lines), Init(times)), Last(lines), Last(times));
      if i < |lines| - 1 {
        EarlierProgress(lines, i);
        TimestampIsLastProgress(stod, s, Init(lines), Init(times), i);
      }
    }
  }

  lemma {:induction false} StampedByProgress(stod: StringToDouble, s: ProducerStats, line: string, now: nat)
    ensures Apply(stod, s, line, now).lastUpdateUnixtime
         == if Said(line, "progress").Some? then now else s.lastUpdateUnixtime
  {
    SaidIsTheValue(line, "progress");
    assert |"progress"| == 8 && |"frame"| == 5 && |"fps"| == 3 && |"drop_frames"| == 11 && |"dup_frames"| == 10 && |"speed"| == 5;
  }

  /** A stream with every newline replaced by carriage return and newline. */
  function Crlf(s: string): string {
    if s == "" then ""
    else (if s[0] == '\n' then "\r\n" else [s[0]]) + Crlf(s[1..])
  }

  function WithReturns(lines: seq<string>): seq<string> {
    if lines == [] then [] else [lines[0] + "\r"] + WithReturns(lines[1..])
  }

  lemma {:induction false} CrlfFind(s: string)
    ensures var k := Find(s, '\n');
      if k == |s| then Crlf(s) == s
      else Crlf(s) == s[..k] + "\r\n" + Crlf(s[k + 1..])
    decreases |s|
  {
    if s != "" && s[0] != '\n' {
      CrlfFind(s[1..]);
      var k := Find(s[1..], '\n');
      if k < |s| - 1 {
        assert s[1..][..k] == s[1..k + 1] && s[1..][k + 1..] == s[k + 2..];
        assert [s[0]] + (s[1..k + 1] + "\r\n" + Crlf(s[k + 2..])) == s[..k + 1] + "\r\n" + Crlf(s[k + 2..]);
      } else {
        assert [s[0]] + s[1..] == s;
      }
    }
  }

  lemma {:induction false} CrlfFirstLine(s: string, k: nat)
    requires k == Find(s, '\n') < |s|
    ensures Lines(Crlf(s)) == [s[..k] + "\r"] + Lines(Crlf(s[k + 1..]))
  {
    var head, rest := s[..k] + "\r", Crlf(s[k + 1..]);
    CrlfFind(s);
    assert s[..k] + "\r\n" + rest == head + "\n" + rest;
    FindInTwo(s[..k], "\r", '\n');
    FindNone(s[..k], '\n');
    FirstLine(head, rest);
  }

  lemma {:induction false} CrlfLines(s: string)
    ensures Lines(Crlf(s)) == WithReturns(Lines(s))
    decreases |s|
  {
    var k := Find(s, '\n');
    if k < |s| {
      var head, rest := s[..k], s[k + 1..];
      CrlfFirstLine(s, k);
      CutFirstLine(s);
      CrlfLines(rest);
      WithReturnsCons(head, Lines(rest));
    } else {
      CrlfFind(s);
    }
  }

  lemma {:induction false} WithReturnsCons(line: string, lines: seq<string>)
    ensures WithReturns([line] + lines) == [line + "\r"] + WithReturns(lines)
  {
    assert ([line] + lines)[1..] == lines;
  }

  ghost predicate NoReturns(lines: seq<string>) {
    forall i :: 0 <= i < |lines| ==> lines[i] == "" || Last(lines[i]) != '\r'
  }

  lemma {:induction false} ReturnIsStripped(stod: StringToDouble, s: ProducerStats, line: string, now: nat)
    requires line == "" || Last(line) != '\r'
    ensures Apply(stod, s, line + "\r", now) == Apply(stod, s, line, now)
  {
    SnocParts(line, '\r');
  }

  lemma {:induction false} WithReturnsAt(lines: seq<string>)
    ensures |WithReturns(lines)| == |lines|
    ensures forall i :: 0 <= i < |lines| ==> WithReturns(lines)[i] == lines[i] + "\r"
    decreases |lines|
  {
    if lines != [] {
      WithReturnsAt(lines[1..]);
    }
  }

  lemma {:induction false} ReturnsChangeNothing(
      stod: StringToDouble, s: ProducerStats, lines: seq<string>, returned: seq<string>, times: seq<nat>)
    requires |lines| == |returned| == |times| && NoReturns(lines)
    requires forall i :: 0 <= i < |lines| ==> returned[i] == lines[i] + "\r"
    ensures ApplyAll(stod, s, returned, times) == ApplyAll(stod, s, lines, times)
    decreases |lines|
  {
    if lines != [] {
      ReturnsChangeNothing(stod, s, Init(lines), Init(returned), Init(times));
      ReturnIsStripped(stod, ApplyAll(stod, s, Init(lines), Init(times)), Last(lines), Last(times));
    }
  }

  /** CRLF transparency: two ways of cutting a stream and its CRLF form, neither of which
      overflows, give the same statistics but for the timestamp. */
  lemma {:induction false} CrlfIsTransparent(
      stod: StringToDouble, s: ProducerStats, chunks: seq<string>, crlf: seq<string>, times: seq<nat>, others: seq<nat>)
    requires NoOverflow(FRESH, chunks) && NoOverflow(FRESH, crlf)
    requires Join(crlf) == Crlf(Join(chunks))
    requires NoReturns(Lines(Join(chunks)))
    requires |times| == |FeedAll(FRESH, chunks).parsed| && |others| == |FeedAll(FRESH, crlf).parsed|
    ensures Untimed(ApplyAll(stod, s, FeedAll(FRESH, chunks).parsed, times))
         == Untimed(ApplyAll(stod, s, FeedAll(FRESH, crlf).parsed, others))
  {
    var lines := Lines(Join(chunks));
    FeedingIsSplitting(chunks);
    FeedingIsSplitting(crlf);
    CrlfLines(Join(chunks));
    WithReturnsAt(lines);
    ReturnsChangeNothing(stod, s, lines, WithReturns(lines), others);
    TimesReachOnlyTheTimestamp(stod, s, s, lines, times, others);
  }

  /** Chunking independence of the statistics: any two ways of cutting a stream of lines
      within the bound give the same statistics but for the timestamp. */
  lemma {:induction false} ChunkingDoesNotMatter(
      stod: StringToDouble, s: ProducerStats, a: seq<string>, b: seq<string>, times: seq<nat>, others: seq<nat>,
      line: nat, chunk: nat)
    requires line + chunk <= MAX_BUFFERED_LINE
    requires Join(a) == Join(b) && ShortLines(Join(a), line)
    requires forall i :: 0 <= i < |a| ==> |a[i]| <= chunk
    requires forall i :: 0 <= i < |b| ==> |b[i]| <= chunk
    requires |times| == |FeedAll(FRESH, a).parsed| && |others| == |FeedAll(FRESH, b).parsed|
    ensures FeedAll(FRESH, a) == FeedAll(FRESH, b)
    ensures Untimed(ApplyAll(stod, s, FeedAll(FRESH, a).parsed, times))
         == Untimed(ApplyAll(stod, s, FeedAll(FRESH, b).parsed, others))
  {
    AnyChunkingAgrees(a, line, chunk);
    AnyChunkingAgrees(b, line, chunk);
    TimesReachOnlyTheTimestamp(stod, s, s, FeedAll(FRESH, a).parsed, times, others);
  }
}
