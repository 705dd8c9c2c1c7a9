/** Well-formed UTF-8 (RFC 3629, section 4). `char` stands for a byte. */
module Utf8 {

  predicate Within(c: char, low: int, high: int) {
    low <= c as int <= high
  }

  predicate IsAscii(c: char) {
    Within(c, 0, 0x7F)
  }

  predicate Continues(c: char) {
    Within(c, 0x80, 0xBF)
  }

  /** The first two bytes of a sequence of three. */
  predicate LeadsThree(a: char, b: char) {
    || (Within(a, 0xE0, 0xE0) && Within(b, 0xA0, 0xBF))
    || (Within(a, 0xE1, 0xEC) && Continues(b))
    || (Within(a, 0xED, 0xED) && Within(b, 0x80, 0x9F))
    || (Within(a, 0xEE, 0xEF) && Continues(b))
  }

  /** The first two bytes of a sequence of four. */
  predicate LeadsFour(a: char, b: char) {
    || (Within(a, 0xF0, 0xF0) && Within(b, 0x90, 0xBF))
    || (Within(a, 0xF1, 0xF3) && Continues(b))
    || (Within(a, 0xF4, 0xF4) && Within(b, 0x80, 0x8F))
  }

  /** The number of bytes of the character that `s` starts with, or 0 if there is none. */
  function FirstLength(s: string): (n: nat)
    ensures n <= |s|
  {
    if s == "" then 0
    else if IsAscii(s[0]) then 1
    else if |s| >= 2 && Within(s[0], 0xC2, 0xDF) && Continues(s[1]) then 2
    else if |s| >= 3 && LeadsThree(s[0], s[1]) && Continues(s[2]) then 3
    else if |s| >= 4 && LeadsFour(s[0], s[1]) && Continues(s[2]) && Continues(s[3]) then 4
    else 0
  }

  predicate WellFormed(s: string)
    decreases |s|
  {
    s == "" || (FirstLength(s) > 0 && WellFormed(s[FirstLength(s)..]))
  }

  predicate AllAscii(s: string) {
    forall i :: 0 <= i < |s| ==> IsAscii(s[i])
  }

  lemma {:induction false} FirstIsWithin(a: string, c: char, b: string)
    requires a != "" && IsAscii(c)
    ensures FirstLength(a + [c] + b) == FirstLength(a)
  {
    var s := a + [c] + b;
    assert s[..|a|] == a && s[|a|] == c;
    assert |a| < 4 ==> !Continues(s[|a|]);
  }

  /** Text is well formed exactly if it is on both sides of any ASCII character in it. */
  lemma {:induction false} CutAtAscii(a: string, c: char, b: string)
    requires IsAscii(c)
    ensures WellFormed(a + [c] + b) <==> WellFormed(a) && WellFormed(b)
    decreases |a|
  {
    var s := a + [c] + b;
    if a == "" {
      assert s == [c] + b && s[1..] == b;
    } else {
      FirstIsWithin(a, c, b);
      var n := FirstLength(a);
      if n > 0 {
        assert s[n..] == a[n..] + [c] + b;
        CutAtAscii(a[n..], c, b);
      }
    }
  }

  /** The same for any stretch of ASCII characters. */
  lemma {:induction false} CutAround(a: string, middle: string, b: string)
    requires middle != "" && AllAscii(middle)
    ensures WellFormed(a + middle + b) <==> WellFormed(a) && WellFormed(b)
    decreases |middle|
  {
    var c, others := middle[0], middle[1..];
    if others == "" {
      assert middle == [c];
      CutAtAscii(a, c, b);
    } else {
      assert a + middle + b == a + [c] + (others + b);
      CutAtAscii(a, c, others + b);
      CutAround("", others, b);
      assert "" + others + b == others + b;
    }
  }

  lemma {:induction false} AsciiIsWellFormed(s: string)
    requires AllAscii(s)
    ensures WellFormed(s)
  {
    if s != "" {
      CutAround("", s, "");
      assert "" + s + "" == s;
    }
  }
}
