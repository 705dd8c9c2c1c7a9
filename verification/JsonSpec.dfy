/** The lines the logger prints, and an independent reader for them that follows RFC 8259:
    text in UTF-8 (section 8.1), white space (section 2), objects (section 4), numbers without sign, fraction or
    exponent (section 6) and strings with every two-character escape (section 7). What the
    reader takes is JSON; other JSON, such as nested values, it refuses. `char` stands for a
    byte. */
module JsonSpec {
  import opened Types
  import opened Decimals
  import opened Utf8

  datatype JsonValue = Text(text: string) | Number(number: nat)
  datatype Member = Member(key: string, value: JsonValue)

  // ---- The printer ------------------------------------------------------------------

  predicate NeedsEscape(c: char) {
    c == '"' || c == '\\'
  }

  function Escape(c: char): string {
    if NeedsEscape(c) then ['\\', c] else [c]
  }

  function Escaped(s: string): string {
    if s == "" then "" else Escape(s[0]) + Escaped(s[1..])
  }

  function PrintValue(v: JsonValue): string {
    match v
    case Text(text) => "\"" + Escaped(text) + "\""
    case Number(number) => Print(number)
  }

  /** Keys are printed as they are. */
  function PrintMember(m: Member): string {
    "\"" + m.key + "\":" + PrintValue(m.value)
  }

  function PrintMembers(ms: seq<Member>): string
    requires ms != []
  {
    PrintMember(ms[0]) + if |ms| == 1 then "" else "," + PrintMembers(ms[1..])
  }

  function PrintObject(ms: seq<Member>): string
    requires ms != []
  {
    "{" + PrintMembers(ms) + "}"
  }

  lemma {:induction false} EscapeInTwo(a: string, b: string)
    ensures Escaped(a + b) == Escaped(a) + Escaped(b)
    decreases |a|
  {
    if a == "" {
      assert a + b == b;
    } else {
      assert (a + b)[1..] == a[1..] + b;
      EscapeInTwo(a[1..], b);
    }
  }

  lemma {:induction false} Regroup(a: string, b: string, c: string)
    ensures a + ("," + (b + "," + c)) == (a + ("," + b)) + "," + c
  {
  }

  lemma {:induction false} MembersInTwo(ms: seq<Member>, m: Member)
    requires ms != []
    ensures PrintMembers(ms + [m]) == PrintMembers(ms) + "," + PrintMember(m)
    decreases |ms|
  {
    var all := ms + [m];
    if |ms| == 1 {
      assert all[1..] == [m];
    } else {
      assert all[1..] == ms[1..] + [m];
      MembersInTwo(ms[1..], m);
      Regroup(PrintMember(ms[0]), PrintMembers(ms[1..]), PrintMember(m));
    }
  }

  // ---- The reader -------------------------------------------------------------------

  predicate IsControl(c: char) {
    c < ' '
  }

  function Skip(s: string): (rest: string)
    ensures |rest| <= |s|
  {
    if s != "" && (s[0] == ' ' || s[0] == '\t' || s[0] == '\n' || s[0] == '\r') then Skip(s[1..]) else s
  }

  /** The character that a short escape stands for. */
  function Unescape(c: char): Option<char> {
    match c
    case '"' => Some('"')
    case '\\' => Some('\\')
    case '/' => Some('/')
    case 'b' => Some(8 as char)
    case 'f' => Some(12 as char)
    case 'n' => Some('\n')
    case 'r' => Some('\r')
    case 't' => Some('\t')
    case _ => None
  }

  /** A string after its opening quote: what it says, and what follows its closing quote. */
  function ReadString(s: string): (r: Option<(string, string)>)
    ensures r.Some? ==> |r.value.1| < |s|
    decreases |s|
  {
    if s == "" || IsControl(s[0]) then None
    else if s[0] == '"' then Some(("", s[1..]))
    else if s[0] != '\\' then Prepend(Some(s[0]), ReadString(s[1..]))
    else if |s| == 1 then None
    else Prepend(Unescape(s[1]), ReadString(s[2..]))
  }

  function Prepend(c: Option<char>, r: Option<(string, string)>): Option<(string, string)> {
    if c.Some? && r.Some? then Some(([c.value] + r.value.0, r.value.1)) else None
  }

  function CountDigits(s: string): (k: nat)
    ensures k <= |s| && AllDigits(s[..k])
    ensures k < |s| ==> !IsDigit(s[k])
  {
    if s == "" || !IsDigit(s[0]) then 0
    else
      var k := CountDigits(s[1..]);
      assert s[..k + 1] == [s[0]] + s[1..][..k];
      k + 1
  }

  /** The longest run of digits, not starting with a superfluous zero. */
  function ReadNumber(s: string): (r: Option<(nat, string)>)
    ensures r.Some? ==> |r.value.1| < |s|
  {
    var k := CountDigits(s);
    if k == 0 || (k > 1 && s[0] == '0') then None else Some((Value(s[..k]), s[k..]))
  }

  function ReadValue(s: string): (r: Option<(JsonValue, string)>)
    ensures r.Some? ==> |r.value.1| < |s|
  {
    if s != "" && s[0] == '"' then
      match ReadString(s[1..])
      case None => None
      case Some((text, rest)) => Some((Text(text), rest))
    else
      match ReadNumber(s)
      case None => None
      case Some((number, rest)) => Some((Number(number), rest))
  }

  function ReadMember(s: string): (r: Option<(Member, string)>)
    ensures r.Some? ==> |r.value.1| < |s|
  {
    var start := Skip(s);
    if start == "" || start[0] != '"' then None
    else
      match ReadString(start[1..])
      case None => None
      case Some((key, rest)) =>
        var colon := Skip(rest);
        if colon == "" || colon[0] != ':' then None
        else
          match ReadValue(Skip(colon[1..]))
          case None => None
          case Some((value, rest)) => Some((Member(key, value), rest))
  }

  function ReadMembers(s: string): (r: Option<(seq<Member>, string)>)
    decreases |s|
  {
    match ReadMember(s)
    case None => None
    case Some((m, rest)) =>
      var next := Skip(rest);
      if next == "" then None
      else if next[0] == '}' then Some(([m], next[1..]))
      else if next[0] != ',' then None
      else
        match ReadMembers(next[1..])
        case None => None
        case Some((ms, rest)) => Some(([m] + ms, rest))
  }

  /** A text, in UTF-8, that is one object with at least one member. */
  function ReadObject(s: string): Option<seq<Member>> {
    var start := Skip(s);
    if !WellFormed(s) || start == "" || start[0] != '{' then None
    else
      match ReadMembers(start[1..])
      case None => None
      case Some((ms, rest)) => if Skip(rest) == "" then Some(ms) else None
  }

  // ---- The round trip ---------------------------------------------------------------

  predicate NoControls(s: string) {
    forall i :: 0 <= i < |s| ==> !IsControl(s[i])
  }

  /** Needs no escaping and has no control characters. */
  predicate Plain(s: string) {
    NoControls(s) && forall i :: 0 <= i < |s| ==> !NeedsEscape(s[i])
  }

  predicate Printable(v: JsonValue) {
    v.Text? ==> NoControls(v.text)
  }

  predicate AllPrintable(ms: seq<Member>) {
    forall i :: 0 <= i < |ms| ==> Printable(ms[i].value)
  }

  predicate PlainKeys(ms: seq<Member>) {
    forall i :: 0 <= i < |ms| ==> Plain(ms[i].key)
  }

  lemma {:induction false} PlainIsNotEscaped(s: string)
    requires Plain(s)
    ensures Escaped(s) == s
    decreases |s|
  {
    if s != "" {
      PlainIsNotEscaped(s[1..]);
    }
  }

  /** A printed string is read back exactly if it has no control characters. */
  lemma {:induction false} ReadEscaped(s: string, rest: string)
    ensures ReadString(Escaped(s) + "\"" + rest) == if NoControls(s) then Some((s, rest)) else None
    decreases |s|
  {
    if s == "" {
      assert Escaped(s) + "\"" + rest == "\"" + rest;
    } else {
      ReadEscaped(s[1..], rest);
      Flat(Escape(s[0]), Escaped(s[1..]), "\"", rest);
      ReadOneEscaped(s[0], Escaped(s[1..]) + "\"" + rest);
      NoControlsFromFirst(s);
    }
  }

  lemma {:induction false} NoControlsFromFirst(s: string)
    requires s != ""
    ensures NoControls(s) <==> !IsControl(s[0]) && NoControls(s[1..])
    ensures [s[0]] + s[1..] == s
  {
  }

  lemma {:induction false} ReadOneEscaped(c: char, more: string)
    ensures ReadString(Escape(c) + more) == if IsControl(c) then None else Prepend(Some(c), ReadString(more))
  {
    var s := Escape(c) + more;
    if NeedsEscape(c) {
      assert s[2..] == more && s[0] == '\\' && s[1] == c;
    } else {
      assert s[1..] == more && s[0] == c;
    }
  }

  lemma {:induction false} CountPrinted(digits: string, rest: string)
    requires AllDigits(digits) && (rest == "" || !IsDigit(rest[0]))
    ensures CountDigits(digits + rest) == |digits|
    decreases |digits|
  {
    if digits == "" {
      assert digits + rest == rest;
    } else {
      assert (digits + rest)[1..] == digits[1..] + rest;
      CountPrinted(digits[1..], rest);
    }
  }

  lemma {:induction false} ReadPrintedNumber(n: nat, rest: string)
    requires rest == "" || !IsDigit(rest[0])
    ensures ReadNumber(Print(n) + rest) == Some((n, rest))
  {
    PrintIsRead(n);
    CountPrinted(Print(n), rest);
    assert (Print(n) + rest)[..|Print(n)|] == Print(n);
    assert (Print(n) + rest)[|Print(n)|..] == rest;
  }

  lemma {:induction false} QuotedParts(body: string, rest: string)
    ensures var s := "\"" + body + "\"" + rest; s[0] == '"' && s[1..] == body + "\"" + rest
  {
    assert "\"" + body + "\"" + rest == "\"" + (body + "\"" + rest);
  }

  lemma {:induction false} ReadPrintedText(text: string, rest: string)
    ensures var s := PrintValue(Text(text)) + rest;
      Skip(s) == s && ReadValue(s) == if NoControls(text) then Some((Text(text), rest)) else None
  {
    ReadEscaped(text, rest);
    QuotedParts(Escaped(text), rest);
  }

  lemma {:induction false} ReadPrintedValue(v: JsonValue, rest: string)
    requires rest == "" || !IsDigit(rest[0])
    ensures Skip(PrintValue(v) + rest) == PrintValue(v) + rest
    ensures ReadValue(PrintValue(v) + rest) == if Printable(v) then Some((v, rest)) else None
  {
    match v {
      case Text(text) => ReadPrintedText(text, rest);
      case Number(number) =>
        PrintIsRead(number);
        ReadPrintedNumber(number, rest);
        assert (PrintValue(v) + rest)[0] == Print(number)[0];
    }
  }

  /** A member whose key has been read. */
  lemma {:induction false} ReadAfterKey(s: string, key: string, v: JsonValue, rest: string)
    requires s != "" && s[0] == '"' && (rest == "" || !IsDigit(rest[0]))
    requires ReadString(s[1..]) == Some((key, ":" + (PrintValue(v) + rest)))
    ensures ReadMember(s) == if Printable(v) then Some((Member(key, v), rest)) else None
  {
    ReadPrintedValue(v, rest);
    assert (":" + (PrintValue(v) + rest))[1..] == PrintValue(v) + rest;
  }

  lemma {:induction false} MemberParts(key: string, value: string, rest: string)
    ensures "\"" + key + "\":" + value + rest == "\"" + key + "\"" + (":" + (value + rest))
  {
    assert "\":" == "\"" + ":";
  }

  lemma {:induction false} ReadPrintedMember(m: Member, rest: string)
    requires Plain(m.key) && (rest == "" || !IsDigit(rest[0]))
    ensures ReadMember(PrintMember(m) + rest) == if Printable(m.value) then Some((m, rest)) else None
  {
    var afterKey := ":" + (PrintValue(m.value) + rest);
    PlainIsNotEscaped(m.key);
    ReadEscaped(m.key, afterKey);
    MemberParts(m.key, PrintValue(m.value), rest);
    QuotedParts(m.key, afterKey);
    ReadAfterKey(PrintMember(m) + rest, m.key, m.value, rest);
  }

  /** What ReadMembers does with a member and what follows it. */
  lemma {:induction false} ReadOneMember(m: Member, rest: string)
    requires Plain(m.key) && rest != "" && (rest[0] == '}' || rest[0] == ',')
    ensures var r := ReadMembers(PrintMember(m) + rest);
      if !Printable(m.value) then r == None
      else if rest[0] == '}' then r == Some(([m], rest[1..]))
      else
        var more := ReadMembers(rest[1..]);
        r == if more.Some? then Some(([m] + more.value.0, more.value.1)) else None
  {
    ReadPrintedMember(m, rest);
  }

  lemma {:induction false} Regroup4(a: string, b: string, c: string)
    ensures (a + ("," + b)) + "}" + c == a + ("," + (b + "}" + c))
    ensures (a + "") + "}" + c == a + ("}" + c)
  {
  }

  lemma {:induction false} FirstAndOthers(ms: seq<Member>)
    requires ms != []
    ensures ms == [ms[0]] + ms[1..]
    ensures AllPrintable(ms) <==> Printable(ms[0].value) && AllPrintable(ms[1..])
    ensures PlainKeys(ms) <==> Plain(ms[0].key) && PlainKeys(ms[1..])
  {
  }

  lemma {:induction false} ReadPrintedMembers(ms: seq<Member>, tail: string)
    requires ms != [] && PlainKeys(ms)
    ensures ReadMembers(PrintMembers(ms) + "}" + tail) == if AllPrintable(ms) then Some((ms, tail)) else None
    decreases |ms|
  {
    FirstAndOthers(ms);
    var first, others := PrintMember(ms[0]), ms[1..];
    if |ms| == 1 {
      Regroup4(first, "", tail);
      assert ("}" + tail)[1..] == tail && ms == [ms[0]];
      ReadOneMember(ms[0], "}" + tail);
    } else {
      var more := PrintMembers(others) + "}" + tail;
      Regroup4(first, PrintMembers(others), tail);
      ReadOneMember(ms[0], "," + more);
      ReadPrintedMembers(others, tail);
    }
  }

  // ---- UTF-8 in what is printed --------------------------------------------------------

  predicate ValueInUtf8(v: JsonValue) {
    v.Text? ==> WellFormed(v.text)
  }

  predicate MemberInUtf8(m: Member) {
    WellFormed(m.key) && ValueInUtf8(m.value)
  }

  predicate AllInUtf8(ms: seq<Member>) {
    forall i :: 0 <= i < |ms| ==> MemberInUtf8(ms[i])
  }

  /** The index of the first character to escape, or the length. */
  function FirstSpecial(s: string): (k: nat)
    ensures k <= |s|
    ensures k < |s| ==> NeedsEscape(s[k])
    ensures forall i :: 0 <= i < k ==> !NeedsEscape(s[i])
  {
    if s == "" || NeedsEscape(s[0]) then 0 else 1 + FirstSpecial(s[1..])
  }

  lemma {:induction false} NothingIsEscaped(s: string)
    requires forall i :: 0 <= i < |s| ==> !NeedsEscape(s[i])
    ensures Escaped(s) == s
    decreases |s|
  {
    if s != "" {
      NothingIsEscaped(s[1..]);
    }
  }

  lemma {:induction false} EscapedAtSpecial(a: string, c: char, b: string)
    requires (forall i :: 0 <= i < |a| ==> !NeedsEscape(a[i])) && NeedsEscape(c)
    ensures Escaped(a + [c] + b) == a + ['\\', c] + Escaped(b)
  {
    NothingIsEscaped(a);
    EscapeInTwo(a, [c] + b);
    assert ([c] + b)[1..] == b;
    Joined(a, [c], b);
    Joined(a, ['\\', c], Escaped(b));
  }

  /** Escaping neither makes nor breaks UTF-8. */
  lemma {:induction false} EscapedInUtf8(s: string)
    ensures WellFormed(Escaped(s)) <==> WellFormed(s)
    decreases |s|
  {
    var k := FirstSpecial(s);
    if k == |s| {
      NothingIsEscaped(s);
    } else {
      var a, c, b := s[..k], s[k], s[k + 1..];
      assert s == a + [c] + b;
      EscapedAtSpecial(a, c, b);
      CutAtAscii(a, c, b);
      CutAround(a, ['\\', c], Escaped(b));
      EscapedInUtf8(b);
    }
  }

  lemma {:induction false} PrintedValueInUtf8(v: JsonValue)
    ensures WellFormed(PrintValue(v)) <==> ValueInUtf8(v)
  {
    match v {
      case Text(text) =>
        EscapedInUtf8(text);
        CutAround("", "\"", Escaped(text) + "\"");
        CutAround(Escaped(text), "\"", "");
        assert "" + "\"" + (Escaped(text) + "\"") == PrintValue(v);
        assert Escaped(text) + "\"" + "" == Escaped(text) + "\"";
      case Number(number) =>
        PrintIsRead(number);
        AsciiIsWellFormed(PrintValue(v));
    }
  }

  lemma {:induction false} PrintedMemberInUtf8(m: Member)
    ensures WellFormed(PrintMember(m)) <==> MemberInUtf8(m)
  {
    var value := PrintValue(m.value);
    PrintedValueInUtf8(m.value);
    CutAround(m.key, "\":", value);
    CutAround("", "\"", m.key + "\":" + value);
    assert "" + "\"" + (m.key + "\":" + value) == PrintMember(m);
  }

  lemma {:induction false} PrintedMembersInUtf8(ms: seq<Member>)
    requires ms != []
    ensures WellFormed(PrintMembers(ms)) <==> AllInUtf8(ms)
    decreases |ms|
  {
    var first := PrintMember(ms[0]);
    PrintedMemberInUtf8(ms[0]);
    if |ms| == 1 {
      assert PrintMembers(ms) == first;
    } else {
      var others := PrintMembers(ms[1..]);
      PrintedMembersInUtf8(ms[1..]);
      CutAround(first, ",", others);
      Joined(first, ",", others);
      assert AllInUtf8(ms) <==> MemberInUtf8(ms[0]) && AllInUtf8(ms[1..]);
    }
  }

  lemma {:induction false} BracesInUtf8(inside: string)
    ensures WellFormed("{" + inside + "}") <==> WellFormed(inside)
  {
    CutAround("{" + inside, "}", "");
    CutAround("", "{", inside);
    assert "{" + inside + "}" + "" == "{" + inside + "}" && "" + "{" + inside == "{" + inside;
  }

  lemma {:induction false} PrintedObjectInUtf8(ms: seq<Member>)
    requires ms != []
    ensures WellFormed(PrintObject(ms)) <==> AllInUtf8(ms)
  {
    PrintedMembersInUtf8(ms);
    BracesInUtf8(PrintMembers(ms));
  }

  /** The round trip, exactly: with keys that need no escaping, a printed object is read
      back as the same keys, strings and numbers in the same order if no string has a
      control character and all are in UTF-8, and is refused otherwise. */
  lemma {:induction false} PrintedObjectIsReadBack(ms: seq<Member>)
    requires ms != [] && PlainKeys(ms)
    ensures ReadObject(PrintObject(ms)) == if AllPrintable(ms) && AllInUtf8(ms) then Some(ms) else None
  {
    var inside := PrintMembers(ms) + "}" + "";
    assert PrintObject(ms) == "{" + inside;
    ReadPrintedMembers(ms, "");
    PrintedObjectInUtf8(ms);
  }

  // ---- One object is one line ---------------------------------------------------------

  lemma {:induction false} NoControlsInTwo(a: string, b: string)
    ensures NoControls(a + b) <==> NoControls(a) && NoControls(b)
  {
    var ab := a + b;
    assert forall i :: 0 <= i < |a| ==> a[i] == ab[i];
    assert forall i :: 0 <= i < |b| ==> b[i] == ab[|a| + i];
  }

  lemma {:induction false} EscapedHasNoControls(s: string)
    requires NoControls(s)
    ensures NoControls(Escaped(s))
    decreases |s|
  {
    if s != "" {
      EscapedHasNoControls(s[1..]);
      NoControlsInTwo(Escape(s[0]), Escaped(s[1..]));
    }
  }

  lemma {:induction false} PrintedValueHasNoControls(v: JsonValue)
    requires Printable(v)
    ensures NoControls(PrintValue(v))
  {
    match v {
      case Text(text) =>
        EscapedHasNoControls(text);
        NoControlsInTwo("\"", Escaped(text));
        NoControlsInTwo("\"" + Escaped(text), "\"");
      case Number(number) =>
        PrintIsRead(number);
    }
  }

  lemma {:induction false} PrintedMemberHasNoControls(m: Member)
    requires Plain(m.key) && Printable(m.value)
    ensures NoControls(PrintMember(m))
  {
    PrintedValueHasNoControls(m.value);
    NoControlsInTwo("\"", m.key);
    NoControlsInTwo("\"" + m.key, "\":");
    NoControlsInTwo("\"" + m.key + "\":", PrintValue(m.value));
  }

  lemma {:induction false} PrintedMembersHaveNoControls(ms: seq<Member>)
    requires ms != [] && PlainKeys(ms) && AllPrintable(ms)
    ensures NoControls(PrintMembers(ms))
    decreases |ms|
  {
    PrintedMemberHasNoControls(ms[0]);
    if |ms| > 1 {
      PrintedMembersHaveNoControls(ms[1..]);
      NoControlsInTwo(",", PrintMembers(ms[1..]));
      NoControlsInTwo(PrintMember(ms[0]), "," + PrintMembers(ms[1..]));
    } else {
      NoControlsInTwo(PrintMember(ms[0]), "");
    }
  }

  /** A printed object without control characters in its strings has none at all, so no
      newline: it is one line. */
  lemma {:induction false} PrintedObjectIsOneLine(ms: seq<Member>)
    requires ms != [] && PlainKeys(ms) && AllPrintable(ms)
    ensures NoControls(PrintObject(ms))
  {
    PrintedMembersHaveNoControls(ms);
    NoControlsInTwo("{", PrintMembers(ms));
    NoControlsInTwo("{" + PrintMembers(ms), "}");
  }
}
