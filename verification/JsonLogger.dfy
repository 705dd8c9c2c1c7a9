/** The JSON logger and the event sink over it (json_logger.cpp) as objects: each event
    appends to the output exactly its line, or nothing below the level. */
module JsonLogging {
  import opened Types
  import opened Decimals
  import opened JsonSpec
  import opened EventLog

  method EscapeText(s: string) returns (out: string)
    ensures out == Escaped(s)
  {
    out := "";
    var i := 0;
    while i < |s|
      invariant 0 <= i <= |s| && out == Escaped(s[..i])
    {
      EscapeInTwo(s[..i], [s[i]]);
      assert s[..i + 1] == s[..i] + [s[i]];
      assert [s[i]][1..] == "";
      if NeedsEscape(s[i]) {
        out := out + ['\\'];
      }
      out := out + [s[i]];
      i := i + 1;
    }
    assert s[..i] == s;
  }

  /** An object before its closing brace. */
  function Unclosed(ms: seq<Member>): string
    requires ms != []
  {
    "{" + PrintMembers(ms)
  }

  lemma {:induction false} OneMore(ms: seq<Member>, m: Member)
    requires ms != []
    ensures Unclosed(ms + [m]) == Unclosed(ms) + "," + PrintMember(m)
  {
    MembersInTwo(ms, m);
    Flat("{", PrintMembers(ms), ",", PrintMember(m));
  }

  lemma {:induction false} PlainMember(key: string, value: string)
    requires Plain(value)
    ensures PrintMember(Member(key, Text(value))) == "\"" + key + "\":\"" + value + "\""
  {
    PlainIsNotEscaped(value);
    assert "\"" + key + "\":" + ("\"" + value + "\"") == "\"" + key + ("\":" + "\"") + value + "\"";
  }

  /** A plain member put down raw after `start`, which lacks its last quote. */
  lemma {:induction false} RawMember(start: string, key: string, value: string)
    requires Plain(value)
    ensures (start + "\"") + "," + PrintMember(Member(key, Text(value)))
         == start + ("\",\"" + key + "\":\"") + value + "\""
  {
    PlainMember(key, value);
    assert (start + "\"") + "," + ("\"" + key + "\":\"" + value + "\"")
        == start + (("\"" + "," + "\"") + key + "\":\"") + value + "\"";
  }

  lemma {:induction false} FirstMember(stamp: string)
    requires Plain(stamp)
    ensures Unclosed([Member("ts", Text(stamp))]) == "{\"ts\":\"" + stamp + "\""
  {
    PlainMember("ts", stamp);
    var rest := stamp + "\"";
    assert "{" + ("\"" + "ts" + "\":\"" + stamp + "\"" + "") == ("{" + "\"" + "ts" + "\":\"") + rest;
    assert "{" + "\"" + "ts" + "\":\"" == "{\"ts\":\"";
    assert "{\"ts\":\"" + rest == "{\"ts\":\"" + stamp + "\"";
  }

  lemma {:induction false} LaterKeys()
    ensures "\",\"" + "level" + "\":\"" == "\",\"level\":\""
    ensures "\",\"" + "event" + "\":\"" == "\",\"event\":\""
  {
  }

  lemma {:induction false} LevelIsPlain(level: LogLevel)
    ensures Plain(level.Name())
  {
    assert Word(level.Name());
    WordIsPlain(level.Name());
  }

  lemma {:induction false} HeadOneByOne(stamp: string, level: LogLevel, event: string)
    ensures var head := Head(stamp, level, event);
      Unclosed(head) == Unclosed([head[0]]) + "," + PrintMember(head[1]) + "," + PrintMember(head[2])
  {
    var head := Head(stamp, level, event);
    OneMore([head[0]], head[1]);
    OneMore([head[0]] + [head[1]], head[2]);
    assert [head[0]] + [head[1]] + [head[2]] == head;
  }

  lemma {:induction false} PrefixIsPrinted(stamp: string, level: LogLevel, event: string)
    requires Plain(stamp) && Plain(event)
    ensures "{\"ts\":\"" + stamp + "\",\"level\":\"" + level.Name() + "\",\"event\":\"" + event + "\""
         == Unclosed(Head(stamp, level, event))
  {
    var start := "{\"ts\":\"" + stamp;
    FirstMember(stamp);
    LevelIsPlain(level);
    LaterKeys();
    RawMember(start, "level", level.Name());
    RawMember(start + "\",\"level\":\"" + level.Name(), "event", event);
    HeadOneByOne(stamp, level, event);
  }

  class OutputStream {
    var text: string
  }

  /** A line under construction; without an output it stays silent. */
  class LogLine {
    const out: OutputStream?
    var buf: string

    constructor (out: OutputStream?, prefix: string)
      ensures this.out == out && buf == prefix
    {
      this.out, buf := out, prefix;
    }

    method TextField(key: string, value: string)
      modifies this
      ensures out != null ==> buf == old(buf) + "," + PrintMember(Member(key, Text(value)))
    {
      if out != null {
        var escaped := EscapeText(value);
        buf := buf + ",\"";
        buf := buf + key;
        buf := buf + "\":\"";
        buf := buf + escaped;
        buf := buf + "\"";
        assert buf == old(buf) + "," + ("\"" + key + "\":" + ("\"" + Escaped(value) + "\""));
      }
    }

    method NumberField(key: string, value: uint32)
      modifies this
      ensures out != null ==> buf == old(buf) + "," + PrintMember(Member(key, Number(value)))
    {
      if out != null {
        buf := buf + ",\"";
        buf := buf + key;
        buf := buf + "\":";
        buf := buf + Print(value);
        assert buf == old(buf) + "," + ("\"" + key + "\":" + Print(value));
      }
    }

    /** What the destructor does. */
    method Finish()
      modifies this, out
      ensures out != null ==> out.text == old(out.text) + (old(buf) + "}\n")
    {
      if out != null {
        buf := buf + "}\n";
        out.text := out.text + buf;
      }
    }
  }

  class JsonLogger {
    const out: OutputStream
    const minLevel: LogLevel

    constructor (out: OutputStream, minLevel: LogLevel)
      ensures this.out == out && this.minLevel == minLevel
    {
      this.out, this.minLevel := out, minLevel;
    }

    /** The time stamp is made of digits and punctuation that need no escaping. */
    method Now() returns (stamp: string)
      ensures IsStamp(stamp)
    {
      stamp := *;
      if !IsStamp(stamp) {
        stamp := "";
      }
    }

    /** The level and the event are put down unescaped. */
    method Log(level: LogLevel, event: string) returns (line: LogLine, ghost stamp: string)
      ensures fresh(line) && IsStamp(stamp)
      ensures line.out == if level.Rank() < minLevel.Rank() then null else out
      ensures line.out != null && Plain(event) ==> line.buf == Unclosed(Head(stamp, level, event))
    {
      if level.Rank() < minLevel.Rank() {
        line := new LogLine(null, "");
        stamp := "";
        return;
      }
      var now := Now();
      stamp := now;
      var prefix := "{\"ts\":\"";
      prefix := prefix + now;
      prefix := prefix + "\",\"level\":\"";
      prefix := prefix + level.Name();
      prefix := prefix + "\",\"event\":\"";
      prefix := prefix + event;
      prefix := prefix + "\"";
      if Plain(event) {
        PrefixIsPrinted(now, level, event);
      }
      line := new LogLine(out, prefix);
    }
  }

  lemma {:induction false} OneMoreEntry(
      threshold: LogLevel, start: string, text: string, entries: seq<Entry>, entry: Entry)
    requires text == start + LogText(threshold, entries)
    ensures text + Printed(threshold, entry) == start + LogText(threshold, entries + [entry])
  {
    LogOneMore(threshold, entries, entry);
    Joined(start, LogText(threshold, entries), Printed(threshold, entry));
  }

  lemma {:induction false} StampsSoFar(entries: seq<Entry>, events: seq<Event>, i: nat, entry: Entry)
    requires i < |events| && Stamps(entries, events[..i])
    requires IsStamp(entry.stamp) && entry.event == events[i]
    ensures Stamps(entries + [entry], events[..i + 1])
  {
  }

  /** Translates the events of the state machine into log lines. */
  class JsonEventSink {
    const logger: JsonLogger

    constructor (logger: JsonLogger)
      ensures this.logger == logger
    {
      this.logger := logger;
    }

    method FormatFieldsTo(line: LogLine, prefix: string, f: StreamFormat, ghost ms: seq<Member>)
      requires ms != [] && (line.out != null ==> line.buf == Unclosed(ms))
      modifies line
      ensures line.out != null ==> line.buf == Unclosed(ms + FormatFields(prefix, f))
    {
      ghost var fields := FormatFields(prefix, f);
      line.NumberField(prefix + "width", f.width);
      OneMore(ms, fields[0]);
      line.NumberField(prefix + "height", f.height);
      OneMore(ms + [fields[0]], fields[1]);
      line.TextField(prefix + "pixel_format", PixelFormat(f.pixelFormatFourcc));
      OneMore(ms + [fields[0]] + [fields[1]], fields[2]);
      assert ms + [fields[0]] + [fields[1]] + [fields[2]] == ms + fields;
    }

    /** The fields that go with the kind of event. */
    method AddFields(line: LogLine, e: Event, ghost head: seq<Member>)
      requires head != [] && (line.out != null ==> line.buf == Unclosed(head))
      modifies line
      ensures line.out != null ==> line.buf == Unclosed(head + Fields(e))
    {
      match e.kind {
        case StreamingStarted =>
          FormatFieldsTo(line, "", e.format, head);
        case DeviceLost =>
          line.TextField("reason", ReasonName(e.reason));
          OneMore(head, Member("reason", Text(ReasonName(e.reason))));
        case FormatChanged =>
          FormatFieldsTo(line, "", e.format, head);
          FormatFieldsTo(line, "previous_", e.previousFormat, head + FormatFields("", e.format));
          assert head + FormatFields("", e.format) + FormatFields("previous_", e.previousFormat) == head + Fields(e);
        case _ =>
          assert head + [] == head;
      }
    }

    /** The output grows by the event's line, or by nothing if the level is too low. */
    method Emit(e: Event) returns (ghost stamp: string)
      modifies logger.out
      ensures IsStamp(stamp)
      ensures logger.out.text == old(logger.out.text) + Printed(logger.minLevel, Entry(stamp, e))
    {
      WordIsPlain(Name(e.kind));
      var line;
      line, stamp := logger.Log(LevelOf(e.kind), Name(e.kind));
      AddFields(line, e, Head(stamp, LevelOf(e.kind), Name(e.kind)));
      line.Finish();
      assert Unclosed(Members(stamp, e)) + "}\n" == Unclosed(Members(stamp, e)) + "}" + "\n";
    }

    method EmitAll(events: seq<Event>) returns (ghost entries: seq<Entry>)
      modifies logger.out
      ensures Stamps(entries, events)
      ensures logger.out.text == old(logger.out.text) + LogText(logger.minLevel, entries)
    {
      entries := [];
      for i := 0 to |events|
        invariant Stamps(entries, events[..i])
        invariant logger.out.text == old(logger.out.text) + LogText(logger.minLevel, entries)
      {
        ghost var before := logger.out.text;
        ghost var stamp := Emit(events[i]);
        ghost var entry := Entry(stamp, events[i]);
        OneMoreEntry(logger.minLevel, old(logger.out.text), before, entries, entry);
        StampsSoFar(entries, events, i, entry);
        entries := entries + [entry];
      }
    }
  }
}
