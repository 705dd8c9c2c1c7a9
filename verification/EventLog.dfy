/** The event log file: one JSON line per event that the level lets through
    (json_logger.cpp), and what reading the file back says about the run. */
module EventLog {
  import opened Types
  import opened CaptureSpec
  import opened EventLanguage
  import opened Formats
  import opened JsonSpec
  import opened Utf8
  import S = ProgressSpec

  datatype LogLevel = Debug | Info | Warn | Error {
    function Rank(): nat {
      match this
      case Debug => 0
      case Info => 1
      case Warn => 2
      case Error => 3
    }

    function Name(): string {
      match this
      case Debug => "debug"
      case Info => "info"
      case Warn => "warn"
      case Error => "error"
    }
  }

  // ---- One line ---------------------------------------------------------------------

  function Byte(n: nat): (c: char)
    ensures c as int == n % 256
  {
    (n % 256) as char
  }

  /** The four bytes of a V4L2 four-character code, lowest first. */
  function PixelFormat(fourcc: uint32): (s: string)
    ensures |s| == 4
  {
    [Byte(fourcc), Byte(fourcc / 0x100), Byte(fourcc / 0x1_0000), Byte(fourcc / 0x100_0000)]
  }

  /** The printed characters determine the code. */
  lemma {:induction false} PixelFormatIsReadBack(fourcc: uint32)
    ensures var s := PixelFormat(fourcc);
      fourcc == s[0] as int + 0x100 * (s[1] as int) + 0x1_0000 * (s[2] as int) + 0x100_0000 * (s[3] as int)
  {
    var a, b, c := fourcc / 0x100, fourcc / 0x1_0000, fourcc / 0x100_0000;
    assert b == a / 0x100 && c == b / 0x100;
  }

  /** Lower-case letters and underscores. */
  predicate Word(s: string) {
    forall i :: 0 <= i < |s| ==> s[i] == '_' || 'a' <= s[i] <= 'z'
  }

  lemma {:induction false} WordIsPlain(s: string)
    requires Word(s)
    ensures Plain(s) && WellFormed(s)
  {
    AsciiIsWellFormed(s);
  }

  function Name(kind: EventKind): (s: string)
    ensures Word(s)
  {
    match kind
    case DeviceOpened => "device_opened"
    case ProducerAwaited => "awaiting_producer"
    case StreamingStarted => "streaming_started"
    case DeviceLost => "device_lost"
    case Reconnecting => "reconnecting"
    case StallDetected => "stall_detected"
    case StallCleared => "stall_cleared"
    case FormatChanged => "format_changed"
  }

  function KindNamed(name: string): Option<EventKind> {
    if name == "device_opened" then Some(DeviceOpened)
    else if name == "awaiting_producer" then Some(ProducerAwaited)
    else if name == "streaming_started" then Some(StreamingStarted)
    else if name == "device_lost" then Some(DeviceLost)
    else if name == "reconnecting" then Some(Reconnecting)
    else if name == "stall_detected" then Some(StallDetected)
    else if name == "stall_cleared" then Some(StallCleared)
    else if name == "format_changed" then Some(FormatChanged)
    else None
  }

  lemma {:induction false} NameIsReadBack(kind: EventKind)
    ensures KindNamed(Name(kind)) == Some(kind)
  {
    assert "device_opened"[0] == 'd' && "device_lost"[0] == 'd' && |"device_opened"| == 13 && |"device_lost"| == 11;
    assert |"awaiting_producer"| == 17 && |"streaming_started"| == 17;
    assert "awaiting_producer"[0] == 'a' && "streaming_started"[0] == 's';
    assert |"reconnecting"| == 12 && |"stall_detected"| == 14 && |"stall_cleared"| == 13 && |"format_changed"| == 14;
    assert "stall_detected"[0] == 's' && "stall_cleared"[0] == 's' && "format_changed"[0] == 'f';
  }

  function LevelOf(kind: EventKind): LogLevel {
    if kind == DeviceLost || kind == StallDetected then Warn else Info
  }

  function FormatFields(prefix: string, f: StreamFormat): seq<Member> {
    [Member(prefix + "width", Number(f.width)), Member(prefix + "height", Number(f.height)),
     Member(prefix + "pixel_format", Text(PixelFormat(f.pixelFormatFourcc)))]
  }

  function ReasonName(reason: Option<ErrorReason>): (s: string)
    ensures Word(s)
  {
    match reason
    case Some(OpenFailed) => "open"
    case Some(FormatFailed) => "format"
    case Some(BufferFailed) => "buffer"
    case Some(TimedOut) => "timeout"
    case Some(DequeueFailed) => "dequeue"
    case Some(DeviceGone) => "device_lost"
    case Some(Geometry) => "geometry"
    case None => "unknown"
  }

  function Fields(e: Event): seq<Member> {
    match e.kind
    case StreamingStarted => FormatFields("", e.format)
    case DeviceLost => [Member("reason", Text(ReasonName(e.reason)))]
    case FormatChanged => FormatFields("", e.format) + FormatFields("previous_", e.previousFormat)
    case _ => []
  }

  function Head(stamp: string, level: LogLevel, event: string): seq<Member> {
    [Member("ts", Text(stamp)), Member("level", Text(level.Name())), Member("event", Text(event))]
  }

  function Members(stamp: string, e: Event): seq<Member> {
    Head(stamp, LevelOf(e.kind), Name(e.kind)) + Fields(e)
  }

  predicate Shown(threshold: LogLevel, e: Event) {
    LevelOf(e.kind).Rank() >= threshold.Rank()
  }

  /** Every byte of the code is at least 0x20. */
  predicate PrintableCode(fourcc: uint32) {
    && fourcc % 0x100 >= 0x20
    && fourcc / 0x100 % 0x100 >= 0x20
    && fourcc / 0x1_0000 % 0x100 >= 0x20
    && fourcc / 0x100_0000 % 0x100 >= 0x20
  }

  /** The code prints as a JSON string. */
  predicate ReadableCode(fourcc: uint32) {
    PrintableCode(fourcc) && WellFormed(PixelFormat(fourcc))
  }

  /** The codes that the event prints are readable. */
  predicate ReadableEvent(e: Event) {
    && (e.kind in {StreamingStarted, FormatChanged} ==> ReadableCode(e.format.pixelFormatFourcc))
    && (e.kind == FormatChanged ==> ReadableCode(e.previousFormat.pixelFormatFourcc))
  }

  /** A time stamp: nothing to escape, and in UTF-8. */
  predicate IsStamp(s: string) {
    Plain(s) && WellFormed(s)
  }

  predicate Readable(ms: seq<Member>) {
    AllPrintable(ms) && AllInUtf8(ms)
  }

  lemma {:induction false} PrintableCodeIff(fourcc: uint32)
    ensures NoControls(PixelFormat(fourcc)) <==> PrintableCode(fourcc)
  {
    var s := PixelFormat(fourcc);
    assert NoControls(s) <==> !IsControl(s[0]) && !IsControl(s[1]) && !IsControl(s[2]) && !IsControl(s[3]);
    assert ' ' as int == 0x20;
  }

  lemma {:induction false} ReadableInTwo(a: seq<Member>, b: seq<Member>)
    ensures Readable(a + b) <==> Readable(a) && Readable(b)
    ensures PlainKeys(a + b) <==> PlainKeys(a) && PlainKeys(b)
  {
    var ab := a + b;
    assert forall i :: 0 <= i < |a| ==> a[i] == ab[i];
    assert forall i :: 0 <= i < |b| ==> b[i] == ab[|a| + i];
  }

  lemma {:induction false} FormatFieldsArePlain(prefix: string, f: StreamFormat)
    requires Word(prefix)
    ensures PlainKeys(FormatFields(prefix, f))
    ensures Readable(FormatFields(prefix, f)) <==> ReadableCode(f.pixelFormatFourcc)
  {
    var fields := FormatFields(prefix, f);
    assert Word("width") && Word("height") && Word("pixel_format");
    forall i | 0 <= i < |fields|
      ensures Plain(fields[i].key) && WellFormed(fields[i].key)
    {
      WordIsPlain(fields[i].key);
    }
    PrintableCodeIff(f.pixelFormatFourcc);
    assert Readable(fields) <==> Printable(fields[2].value) && ValueInUtf8(fields[2].value);
  }

  lemma {:induction false} TextIsReadable(key: string, text: string)
    requires Word(key) && IsStamp(text)
    ensures PlainKeys([Member(key, Text(text))]) && Readable([Member(key, Text(text))])
  {
    WordIsPlain(key);
  }

  lemma {:induction false} ReasonIsReadable(reason: Option<ErrorReason>)
    ensures var field := [Member("reason", Text(ReasonName(reason)))]; PlainKeys(field) && Readable(field)
  {
    assert Word("reason");
    WordIsPlain(ReasonName(reason));
    TextIsReadable("reason", ReasonName(reason));
  }

  lemma {:induction false} FieldsArePlain(e: Event)
    ensures PlainKeys(Fields(e))
    ensures Readable(Fields(e)) <==> ReadableEvent(e)
  {
    assert Word("") && Word("previous_");
    match e.kind {
      case StreamingStarted =>
        FormatFieldsArePlain("", e.format);
      case FormatChanged =>
        FormatFieldsArePlain("", e.format);
        FormatFieldsArePlain("previous_", e.previousFormat);
        ReadableInTwo(FormatFields("", e.format), FormatFields("previous_", e.previousFormat));
      case DeviceLost =>
        ReasonIsReadable(e.reason);
      case _ =>
    }
  }

  lemma {:induction false} HeadKeysAreWords(level: LogLevel)
    ensures Word("ts") && Word("level") && Word("event") && IsStamp(level.Name())
  {
    assert Word(level.Name());
    WordIsPlain(level.Name());
  }

  lemma {:induction false} HeadIsPlain(stamp: string, level: LogLevel, event: string)
    requires IsStamp(stamp) && Word(event)
    ensures PlainKeys(Head(stamp, level, event)) && Readable(Head(stamp, level, event))
  {
    var head := Head(stamp, level, event);
    HeadKeysAreWords(level);
    WordIsPlain(event);
    TextIsReadable("ts", stamp);
    TextIsReadable("level", level.Name());
    TextIsReadable("event", event);
    ReadableInTwo([head[0]], [head[1]]);
    ReadableInTwo([head[0]] + [head[1]], [head[2]]);
    assert [head[0]] + [head[1]] + [head[2]] == head;
  }

  lemma {:induction false} MembersArePlain(stamp: string, e: Event)
    requires IsStamp(stamp)
    ensures PlainKeys(Members(stamp, e))
    ensures Readable(Members(stamp, e)) <==> ReadableEvent(e)
  {
    HeadIsPlain(stamp, LevelOf(e.kind), Name(e.kind));
    FieldsArePlain(e);
    ReadableInTwo(Head(stamp, LevelOf(e.kind), Name(e.kind)), Fields(e));
  }

  /** An event's line is read back as its members exactly if the codes it prints have no
      byte below 0x20 and are in UTF-8; otherwise it is refused. */
  lemma {:induction false} EventLineIsReadBack(stamp: string, e: Event)
    requires IsStamp(stamp)
    ensures ReadObject(PrintObject(Members(stamp, e)))
         == if ReadableEvent(e) then Some(Members(stamp, e)) else None
  {
    MembersArePlain(stamp, e);
    PrintedObjectIsReadBack(Members(stamp, e));
  }

  // ---- What a line tells ------------------------------------------------------------

  /** The value under a key: that of the first member with the key. */
  function Lookup(ms: seq<Member>, key: string): Option<JsonValue> {
    if ms == [] then None
    else if ms[0].key == key then Some(ms[0].value)
    else Lookup(ms[1..], key)
  }

  lemma {:induction false} LookupAt(ms: seq<Member>, i: nat)
    requires i < |ms| && forall j :: 0 <= j < i ==> ms[j].key != ms[i].key
    ensures Lookup(ms, ms[i].key) == Some(ms[i].value)
    decreases |ms|
  {
    if i > 0 {
      LookupAt(ms[1..], i - 1);
    }
  }

  /** The three keys give the width, the height and the code of a format, the code as four
      bytes with the lowest first. */
  ghost predicate TellsFormat(ms: seq<Member>, width: string, height: string, code: string, f: StreamFormat) {
    && Lookup(ms, width) == Some(Number(f.width))
    && Lookup(ms, height) == Some(Number(f.height))
    && match Lookup(ms, code)
       case Some(Text(s)) =>
         |s| == 4 && f.pixelFormatFourcc
                     == s[0] as int + 0x100 * (s[1] as int) + 0x1_0000 * (s[2] as int) + 0x100_0000 * (s[3] as int)
       case _ => false
  }

  /** The kind, the time and the level that a line gives. */
  ghost predicate TellsHead(ms: seq<Member>, stamp: string, level: string, event: string) {
    && Lookup(ms, "ts") == Some(Text(stamp))
    && Lookup(ms, "level") == Some(Text(level))
    && Lookup(ms, "event") == Some(Text(event))
  }

  lemma {:induction false} HeadIsTold(stamp: string, level: LogLevel, event: string, rest: seq<Member>)
    ensures TellsHead(Head(stamp, level, event) + rest, stamp, level.Name(), event)
  {
    var ms := Head(stamp, level, event) + rest;
    assert ms[0].key == "ts" && ms[1].key == "level" && ms[2].key == "event";
    assert |"ts"| == 2 && "level"[0] == 'l' && "event"[0] == 'e';
    LookupAt(ms, 0);
    LookupAt(ms, 1);
    LookupAt(ms, 2);
  }

  /** The fields of a format at `i`, whose keys no earlier member has. */
  lemma {:induction false} FormatIsTold(ms: seq<Member>, i: nat, prefix: string, f: StreamFormat)
    requires i + 3 <= |ms| && ms[i..i + 3] == FormatFields(prefix, f)
    requires forall j :: 0 <= j < i ==> ms[j].key !in [prefix + "width", prefix + "height", prefix + "pixel_format"]
    ensures TellsFormat(ms, prefix + "width", prefix + "height", prefix + "pixel_format", f)
  {
    var fields := FormatFields(prefix, f);
    assert ms[i] == fields[0] && ms[i + 1] == fields[1] && ms[i + 2] == fields[2];
    assert |"width"| == 5 && |"height"| == 6 && |"pixel_format"| == 12;
    LookupAt(ms, i);
    LookupAt(ms, i + 1);
    LookupAt(ms, i + 2);
    PixelFormatIsReadBack(f.pixelFormatFourcc);
  }

  /** What the line of an event says when it is read: under which key which number stands. */
  ghost predicate Tells(ms: seq<Member>, stamp: string, e: Event) {
    match e.kind
    case StreamingStarted =>
      && TellsHead(ms, stamp, "info", "streaming_started")
      && TellsFormat(ms, "width", "height", "pixel_format", e.format)
    case FormatChanged =>
      && TellsHead(ms, stamp, "info", "format_changed")
      && TellsFormat(ms, "width", "height", "pixel_format", e.format)
      && TellsFormat(ms, "previous_width", "previous_height", "previous_pixel_format", e.previousFormat)
    case DeviceLost =>
      && TellsHead(ms, stamp, "warn", "device_lost")
      && (e.reason == None ==> Lookup(ms, "reason") == Some(Text("unknown")))
    case StallDetected => TellsHead(ms, stamp, "warn", "stall_detected") && |ms| == 3
    case StallCleared => TellsHead(ms, stamp, "info", "stall_cleared") && |ms| == 3
    case Reconnecting => TellsHead(ms, stamp, "info", "reconnecting") && |ms| == 3
    case DeviceOpened => TellsHead(ms, stamp, "info", "device_opened") && |ms| == 3
    case ProducerAwaited => TellsHead(ms, stamp, "info", "awaiting_producer") && |ms| == 3
  }

  lemma {:induction false} StartIsTold(stamp: string, e: Event)
    requires e.kind == StreamingStarted
    ensures TellsFormat(Members(stamp, e), "width", "height", "pixel_format", e.format)
  {
    var ms := Members(stamp, e);
    assert "" + "width" == "width" && "" + "height" == "height" && "" + "pixel_format" == "pixel_format";
    assert ms[3..6] == FormatFields("", e.format);
    HeadIsOther(stamp, e);
    FormatIsTold(ms, 3, "", e.format);
  }

  lemma {:induction false} PreviousKeys()
    ensures "previous_" + "width" == "previous_width" && |"previous_width"| == 14
    ensures "previous_" + "height" == "previous_height" && |"previous_height"| == 15
    ensures "previous_" + "pixel_format" == "previous_pixel_format" && |"previous_pixel_format"| == 21
  {
  }

  lemma {:induction false} NewFormatIsTold(stamp: string, e: Event)
    requires e.kind == FormatChanged
    ensures TellsFormat(Members(stamp, e), "width", "height", "pixel_format", e.format)
    ensures forall j :: 3 <= j < 6 ==> |Members(stamp, e)[j].key| <= 12
  {
    var ms := Members(stamp, e);
    assert "" + "width" == "width" && "" + "height" == "height" && "" + "pixel_format" == "pixel_format";
    assert ms[3..6] == FormatFields("", e.format);
    HeadIsOther(stamp, e);
    FormatIsTold(ms, 3, "", e.format);
    assert ms[3].key == "width" && ms[4].key == "height" && ms[5].key == "pixel_format";
    assert |"width"| == 5 && |"height"| == 6 && |"pixel_format"| == 12;
  }

  lemma {:induction false} PreviousFormatIsTold(stamp: string, e: Event)
    requires e.kind == FormatChanged
    ensures TellsFormat(Members(stamp, e), "previous_width", "previous_height", "previous_pixel_format", e.previousFormat)
  {
    var ms := Members(stamp, e);
    assert ms[6..9] == FormatFields("previous_", e.previousFormat);
    PreviousKeys();
    HeadIsOther(stamp, e);
    NewFormatIsTold(stamp, e);
    FormatIsTold(ms, 6, "previous_", e.previousFormat);
  }

  /** The keys of the head are none of those of the fields. */
  lemma {:induction false} HeadIsOther(stamp: string, e: Event)
    ensures forall j :: 0 <= j < 3 ==>
      && |Members(stamp, e)[j].key| <= 5
      && Members(stamp, e)[j].key !in ["width", "height", "pixel_format", "reason"]
  {
    var ms := Members(stamp, e);
    assert ms[0].key == "ts" && ms[1].key == "level" && ms[2].key == "event";
    assert |"ts"| == 2 && |"level"| == 5 && |"event"| == 5 && |"height"| == 6 && |"pixel_format"| == 12 && |"reason"| == 6;
    assert "level"[0] == 'l' && "event"[0] == 'e' && "width"[0] == 'w';
  }

  lemma {:induction false} MembersTell(stamp: string, e: Event)
    ensures Tells(Members(stamp, e), stamp, e)
  {
    HeadIsTold(stamp, LevelOf(e.kind), Name(e.kind), Fields(e));
    match e.kind {
      case StreamingStarted =>
        StartIsTold(stamp, e);
      case FormatChanged =>
        NewFormatIsTold(stamp, e);
        PreviousFormatIsTold(stamp, e);
      case DeviceLost =>
        HeadIsOther(stamp, e);
        LookupAt(Members(stamp, e), 3);
      case _ =>
    }
  }

  /** The line of every readable event is a JSON object that gives the kind, the time, the
      level and, for a start or a change, each number of each format under its own key. */
  lemma {:induction false} LineTells(stamp: string, e: Event)
    requires IsStamp(stamp) && ReadableEvent(e)
    ensures var read := ReadObject(PrintObject(Members(stamp, e))); read.Some? && Tells(read.value, stamp, e)
  {
    EventLineIsReadBack(stamp, e);
    MembersTell(stamp, e);
  }

  /** In every run the line of a start gives the format that the driver was just asked for,
      and that of a change this and the one the latest query before had delivered. */
  lemma {:induction false} FormatLinesNameTheQueries(
      config: DaemonConfig, now: int, before: seq<Answers>, a: Answers, e: Event, stamp: string)
    requires e in Step(Run(Begin(config, now), before).machine, a).events
    requires e.kind == StreamingStarted || e.kind == FormatChanged
    requires IsStamp(stamp) && ReadableEvent(e)
    ensures var read := ReadObject(PrintObject(Members(stamp, e)));
      && a.query.Known? && read.Some?
      && TellsFormat(read.value, "width", "height", "pixel_format", a.query.format)
      && (e.kind == FormatChanged ==>
            TellsFormat(read.value, "previous_width", "previous_height", "previous_pixel_format",
                        NoteAll(BLANK, Run(Begin(config, now), before).calls).latest))
  {
    EventsNameTheQueries(config, now, before, a, e);
    LineTells(stamp, e);
  }

  /** The levels let through: info everything, warn the loss of the device and a stall,
      error nothing. */
  lemma {:induction false} ThresholdsLetThrough(e: Event)
    ensures Shown(Debug, e) && Shown(Info, e) && !Shown(Error, e)
    ensures Shown(Warn, e) <==> e.kind == DeviceLost || e.kind == StallDetected
  {
  }

  /** The big-endian 16-bit grey format of V4L2, "Y16 " with the highest bit set. */
  const Y16_BIG_ENDIAN: uint32 := 0xA036_3159

  lemma {:induction false} LoneByteIsIllFormed(a: char, b: char, c: char, d: char)
    requires IsAscii(a) && IsAscii(b) && IsAscii(c) && Continues(d)
    ensures !WellFormed([a, b, c, d])
  {
    CutAround("", [a, b, c], [d]);
    assert "" + [a, b, c] + [d] == [a, b, c, d];
    assert FirstLength([d]) == 0;
  }

  /** Its code has no control character, but ends in the lone byte 0xA0: the line that
      announces a stream in that format is refused. */
  lemma {:induction false} BigEndianGreyIsRefused(stamp: string, e: Event)
    requires IsStamp(stamp) && e.kind == StreamingStarted && e.format.pixelFormatFourcc == Y16_BIG_ENDIAN
    ensures PrintableCode(Y16_BIG_ENDIAN) && ReadObject(PrintObject(Members(stamp, e))) == None
  {
    var s := PixelFormat(Y16_BIG_ENDIAN);
    assert s[0] as int == 0x59 && s[1] as int == 0x31 && s[2] as int == 0x36 && s[3] as int == 0xA0;
    LoneByteIsIllFormed(s[0], s[1], s[2], s[3]);
    assert s == [s[0], s[1], s[2], s[3]];
    EventLineIsReadBack(stamp, e);
  }

  // ---- The whole file ---------------------------------------------------------------

  /** An event with the time stamp it is logged under. */
  datatype Entry = Entry(stamp: string, event: Event)

  function Line(entry: Entry): string {
    PrintObject(Members(entry.stamp, entry.event)) + "\n"
  }

  function Printed(threshold: LogLevel, entry: Entry): string {
    if Shown(threshold, entry.event) then Line(entry) else ""
  }

  function LogText(threshold: LogLevel, entries: seq<Entry>): string {
    if entries == [] then "" else LogText(threshold, Init(entries)) + Printed(threshold, Last(entries))
  }

  lemma {:induction false} LogOneMore(threshold: LogLevel, entries: seq<Entry>, last: Entry)
    ensures LogText(threshold, entries + [last]) == LogText(threshold, entries) + Printed(threshold, last)
  {
    SnocParts(entries, last);
  }

  lemma {:induction false} LogTextInTwo(threshold: LogLevel, a: seq<Entry>, b: seq<Entry>)
    ensures LogText(threshold, a + b) == LogText(threshold, a) + LogText(threshold, b)
    decreases |b|
  {
    if b == [] {
      assert a + b == a;
    } else {
      var before, last := Init(b), Last(b);
      assert b == before + [last];
      LogTextInTwo(threshold, a, before);
      LogOneMore(threshold, before, last);
      LogOneMore(threshold, a + before, last);
      Joined(a, before, [last]);
      Joined(LogText(threshold, a), LogText(threshold, before), Printed(threshold, last));
    }
  }

  /** The entries are the events, each under some plain time stamp. */
  ghost predicate Stamps(entries: seq<Entry>, events: seq<Event>) {
    && |entries| == |events|
    && forall i :: 0 <= i < |entries| ==> entries[i].event == events[i] && IsStamp(entries[i].stamp)
  }

  lemma {:induction false} StampsInTwo(a: seq<Entry>, b: seq<Entry>, events: seq<Event>, more: seq<Event>)
    requires Stamps(a, events) && Stamps(b, more)
    ensures Stamps(a + b, events + more)
  {
  }

  function ShownEntries(threshold: LogLevel, entries: seq<Entry>): seq<Entry> {
    if entries == [] then []
    else if Shown(threshold, Last(entries).event) then ShownEntries(threshold, Init(entries)) + [Last(entries)]
    else ShownEntries(threshold, Init(entries))
  }

  /** The codes of the events that are shown are readable. */
  ghost predicate Loggable(threshold: LogLevel, entries: seq<Entry>) {
    forall i :: 0 <= i < |entries| ==>
      IsStamp(entries[i].stamp) && (Shown(threshold, entries[i].event) ==> ReadableEvent(entries[i].event))
  }

  /** The kind of event that a line of the file reports, if it is such a line. */
  function KindOfLine(line: string): Option<EventKind> {
    match ReadObject(line)
    case None => None
    case Some(ms) =>
      if |ms| >= 3 && ms[2].key == "event" && ms[2].value.Text? then KindNamed(ms[2].value.text) else None
  }

  ghost predicate Reports(line: string, entry: Entry) {
    && ReadObject(line) == Some(Members(entry.stamp, entry.event))
    && Tells(ReadObject(line).value, entry.stamp, entry.event)
    && KindOfLine(line) == Some(entry.event.kind)
  }

  lemma {:induction false} LineReports(entry: Entry)
    requires IsStamp(entry.stamp) && ReadableEvent(entry.event)
    ensures Reports(PrintObject(Members(entry.stamp, entry.event)), entry)
  {
    var e := entry.event;
    EventLineIsReadBack(entry.stamp, e);
    MembersTell(entry.stamp, e);
    NameIsReadBack(e.kind);
    assert Members(entry.stamp, e)[2] == Head(entry.stamp, LevelOf(e.kind), Name(e.kind))[2];
  }

  lemma {:induction false} LineIsOneLine(entry: Entry)
    requires IsStamp(entry.stamp) && ReadableEvent(entry.event)
    ensures S.Lines(Line(entry)) == [PrintObject(Members(entry.stamp, entry.event))] && S.Tail(Line(entry)) == ""
  {
    var content := PrintObject(Members(entry.stamp, entry.event));
    MembersArePlain(entry.stamp, entry.event);
    PrintedObjectIsOneLine(Members(entry.stamp, entry.event));
    assert S.Find(content, '\n') < |content| ==> IsControl(content[S.Find(content, '\n')]);
    S.FirstLine(content, "");
    assert content + "\n" + "" == content + "\n";
  }

  lemma {:induction false} AppendLine(text: string, line: string)
    requires S.Tail(text) == ""
    ensures S.Lines(text + line) == S.Lines(text) + S.Lines(line) && S.Tail(text + line) == S.Tail(line)
  {
    S.LinesInTwo(text, line);
    S.TailInTwo(text, line);
    assert "" + line == line;
  }

  ghost predicate AllReport(lines: seq<string>, entries: seq<Entry>) {
    |lines| == |entries| && forall i :: 0 <= i < |lines| ==> Reports(lines[i], entries[i])
  }

  lemma {:induction false} AllReportMore(lines: seq<string>, entries: seq<Entry>, line: string, entry: Entry)
    requires AllReport(lines, entries) && Reports(line, entry)
    ensures AllReport(lines + [line], entries + [entry])
  {
  }

  /** The file, cut at its newlines and read line by line, is the events that the level
      lets through, in order, each with the members printed for it; nothing is left over. */
  lemma {:induction false} FileIsReadBack(threshold: LogLevel, entries: seq<Entry>)
    requires Loggable(threshold, entries)
    ensures S.Tail(LogText(threshold, entries)) == ""
    ensures AllReport(S.Lines(LogText(threshold, entries)), ShownEntries(threshold, entries))
    decreases |entries|
  {
    if entries != [] {
      var before, last := Init(entries), Last(entries);
      FileIsReadBack(threshold, before);
      var text := LogText(threshold, before);
      if Shown(threshold, last.event) {
        LineIsOneLine(last);
        LineReports(last);
        AppendLine(text, Line(last));
        AllReportMore(S.Lines(text), ShownEntries(threshold, before),
                      PrintObject(Members(last.stamp, last.event)), last);
      } else {
        assert text + "" == text;
      }
    }
  }

  lemma {:induction false} EverythingIsShown(threshold: LogLevel, entries: seq<Entry>)
    requires threshold.Rank() <= Info.Rank()
    ensures ShownEntries(threshold, entries) == entries
    decreases |entries|
  {
    if entries != [] {
      EverythingIsShown(threshold, Init(entries));
    }
  }

  /** The file that a run leaves at level info or below tells the whole run: the kinds read
      back line by line are those of the events emitted, and they are a word of the event
      language. */
  lemma {:induction false} FileTellsTheRun(
      config: DaemonConfig, now: int, answers: seq<Answers>, threshold: LogLevel, entries: seq<Entry>)
    requires threshold.Rank() <= Info.Rank() && Loggable(threshold, entries)
    requires |entries| == |Run(Begin(config, now), answers).events|
    requires forall i :: 0 <= i < |entries| ==> entries[i].event == Run(Begin(config, now), answers).events[i]
    ensures var h := Run(Begin(config, now), answers);
      var lines, kinds := S.Lines(LogText(threshold, entries)), Kinds(h.events);
      && |lines| == |kinds|
      && (forall i :: 0 <= i < |lines| ==> KindOfLine(lines[i]) == Some(kinds[i]))
      && ReadFrom(Gone(false), kinds) == Position(h.machine)
  {
    EverythingIsShown(threshold, entries);
    FileIsReadBack(threshold, entries);
    LogIsAWord(config, now, answers);
    var lines := S.Lines(LogText(threshold, entries));
    assert forall i :: 0 <= i < |lines| ==> Reports(lines[i], entries[i]);
  }

  /** In every run the line of a lost device gives its reason as unknown. */
  lemma {:induction false} LossesAreUnexplained(
      config: DaemonConfig, now: int, answers: seq<Answers>, e: Event, stamp: string)
    requires e in Run(Begin(config, now), answers).events && e.kind == DeviceLost && IsStamp(stamp)
    ensures var read := ReadObject(PrintObject(Members(stamp, e)));
      && read.Some? && TellsHead(read.value, stamp, "warn", "device_lost")
      && Lookup(read.value, "reason") == Some(Text("unknown"))
  {
    NoReasonIsGiven(Begin(config, now), answers);
    LineTells(stamp, e);
  }
}
