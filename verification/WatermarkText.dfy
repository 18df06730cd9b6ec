/** Reading a stored watermark back: a JSON list of strings, read the way the next poll reads it. */
module WatermarkText {
  import opened Options
  import Sources

  function HexValue(c: char): Option<nat> {
    if '0' <= c <= '9' then Some(c as nat - 48)
    else if 'a' <= c <= 'f' then Some(c as nat - 87)
    else if 'A' <= c <= 'F' then Some(c as nat - 55)
    else None
  }

  /** Four hexadecimal digits. */
  function ReadUnit(s: string): (r: Option<nat>)
    ensures r.Some? ==> |s| >= 4 && r.value < 0x10000
  {
    if |s| < 4 then None
    else
      var a, b, c, d := HexValue(s[0]), HexValue(s[1]), HexValue(s[2]), HexValue(s[3]);
      if a.None? || b.None? || c.None? || d.None? then None
      else Some(a.value * 0x1000 + b.value * 0x100 + c.value * 0x10 + d.value)
  }

  /** After `\u`: one code unit, or the two halves of a character beyond the first 65536. */
  function ReadCoded(s: string): (r: Option<(char, string)>)
    ensures r.Some? ==> |r.value.1| < |s|
  {
    var high := ReadUnit(s);
    if high.None? then None
    else if !(0xD800 <= high.value < 0xE000) then Some((high.value as char, s[4..]))
    else if high.value >= 0xDC00 || |s| < 6 || s[4] != '\\' || s[5] != 'u' then None
    else
      var low := ReadUnit(s[6..]);
      if low.None? || !(0xDC00 <= low.value < 0xE000) then None
      else Some(((0x10000 + (high.value - 0xD800) * 0x400 + (low.value - 0xDC00)) as char, s[10..]))
  }

  /** One character of a JSON string. */
  function ReadOne(s: string): (r: Option<(char, string)>)
    ensures r.Some? ==> |r.value.1| < |s|
  {
    if s == "" then None
    else if s[0] != '\\' then Some((s[0], s[1..]))
    else if |s| == 1 then None
    else match s[1]
      case '"' => Some(('"', s[2..]))
      case '\\' => Some(('\\', s[2..]))
      case '/' => Some(('/', s[2..]))
      case 'b' => Some((8 as char, s[2..]))
      case 'f' => Some((12 as char, s[2..]))
      case 'n' => Some(('\n', s[2..]))
      case 'r' => Some(('\r', s[2..]))
      case 't' => Some(('\t', s[2..]))
      case 'u' => ReadCoded(s[2..])
      case _ => None
  }

  /** A string up to its closing quote. */
  function ReadString(s: string): (r: Option<(string, string)>)
    ensures r.Some? ==> |r.value.1| < |s|
    decreases |s|
  {
    if s == "" then None
    else if s[0] == '"' then Some(("", s[1..]))
    else
      var one := ReadOne(s);
      if one.None? then None
      else
        var rest := ReadString(one.value.1);
        if rest.None? then None else Some(([one.value.0] + rest.value.0, rest.value.1))
  }

  /** The strings of a list up to its closing bracket. */
  function ReadStrings(s: string): Option<seq<string>>
    decreases |s|
  {
    if s == "" || s[0] != '"' then None
    else
      var first := ReadString(s[1..]);
      if first.None? then None
      else
        var (k, left) := first.value;
        if left == "]" then Some([k])
        else if |left| < 2 || left[0] != ',' || left[1] != ' ' then None
        else
          var rest := ReadStrings(left[2..]);
          if rest.None? then None else Some([k] + rest.value)
  }

  function ReadList(s: string): Option<seq<string>> {
    if s == "" || s[0] != '[' then None else if s[1..] == "]" then Some([]) else ReadStrings(s[1..])
  }

  lemma DigitReadsBack(n: nat)
    requires n < 16
    ensures HexValue(Sources.HexDigit(n)) == Some(n)
  {}

  lemma NumberOfDigits(n: nat)
    requires n < 0x10000
    ensures n / 0x1000 < 16 && n / 0x1000 * 0x1000 + n / 0x100 % 0x10 * 0x100 + n / 0x10 % 0x10 * 0x10 + n % 0x10 == n
  {
    assert n / 0x1000 == n / 0x100 / 0x10 && n / 0x100 == n / 0x10 / 0x10;
  }

  lemma UnitReadsBack(n: nat, tail: string)
    requires n < 0x10000
    ensures ReadUnit(Sources.CodeUnit(n)[2..] + tail) == Some(n)
  {
    hide Sources.HexDigit, HexValue;
    NumberOfDigits(n);
    UnitOf(n / 0x1000, n / 0x100 % 0x10, n / 0x10 % 0x10, n % 0x10, tail);
    assert Sources.CodeUnit(n)[2..] == [Sources.HexDigit(n / 0x1000), Sources.HexDigit(n / 0x100 % 0x10),
                                        Sources.HexDigit(n / 0x10 % 0x10), Sources.HexDigit(n % 0x10)];
  }

  lemma UnitOf(a: nat, b: nat, c: nat, d: nat, tail: string)
    requires a < 16 && b < 16 && c < 16 && d < 16
    ensures ReadUnit([Sources.HexDigit(a), Sources.HexDigit(b), Sources.HexDigit(c), Sources.HexDigit(d)] + tail)
            == Some(a * 0x1000 + b * 0x100 + c * 0x10 + d)
  {
    hide Sources.HexDigit, HexValue;
    DigitReadsBack(a);
    DigitReadsBack(b);
    DigitReadsBack(c);
    DigitReadsBack(d);
  }

  lemma CodedReadsBack(c: char, tail: string)
    requires c as int >= 0x80 || c < ' ' || c as int == 0x7F
    ensures var n := c as int;
            var text := if n < 0x10000 then Sources.CodeUnit(n)
                        else Sources.CodeUnit(0xD800 + (n - 0x10000) / 0x400) + Sources.CodeUnit(0xDC00 + (n - 0x10000) % 0x400);
            text[0] == '\\' && text[1] == 'u' && ReadCoded((text + tail)[2..]) == Some((c, tail))
  {
    hide ReadUnit, Sources.CodeUnit;
    var n := c as int;
    if n < 0x10000 {
      UnitReadsBack(n, tail);
      var text := Sources.CodeUnit(n);
      UnitStarts(n);
      assert (text + tail)[2..] == text[2..] + tail;
      assert (text[2..] + tail)[4..] == tail;
    } else {
      var h, l := 0xD800 + (n - 0x10000) / 0x400, 0xDC00 + (n - 0x10000) % 0x400;
      var a, b := Sources.CodeUnit(h), Sources.CodeUnit(l);
      UnitStarts(h);
      UnitStarts(l);
      UnitReadsBack(h, b + tail);
      UnitReadsBack(l, tail);
      var s := a[2..] + (b + tail);
      assert (a + b + tail)[2..] == s;
      assert s[4] == b[0] && s[5] == b[1] && s[6..] == b[2..] + tail && s[10..] == tail;
    }
  }

  lemma UnitStarts(n: nat)
    requires n < 0x10000
    ensures Sources.CodeUnit(n)[0] == '\\' && Sources.CodeUnit(n)[1] == 'u'
  {}

  lemma CharReadsBack(c: char, tail: string)
    ensures Sources.Escape(c)[0] != '"' && ReadOne(Sources.Escape(c) + tail) == Some((c, tail))
  {
    hide ReadCoded, Sources.CodeUnit;
    var text := Sources.Escape(c);
    if c as int >= 0x80 || c as int == 0x7F || (c < ' ' && |text| >= 6) {
      CodedReadsBack(c, tail);
    } else {
      assert (text + tail)[|text|..] == tail;
    }
  }

  lemma {:induction false} StringReadsBack(k: string, tail: string)
    ensures ReadString(Sources.Escapes(k) + "\"" + tail) == Some((k, tail))
  {
    hide ReadOne, Sources.Escape;
    if k == "" {
      assert (Sources.Escapes(k) + "\"" + tail)[1..] == tail;
    } else {
      var rest := Sources.Escapes(k[1..]) + "\"" + tail;
      assert Sources.Escapes(k) + "\"" + tail == Sources.Escape(k[0]) + rest;
      CharReadsBack(k[0], rest);
      StringReadsBack(k[1..], tail);
      assert k == [k[0]] + k[1..];
    }
  }

  /** The first key of a list, and what is left of the text. */
  lemma FirstReadsBack(k: Sources.Key, left: string)
    ensures var text := "\"" + Sources.Escapes(k) + "\"" + left; text[0] == '"' && ReadString(text[1..]) == Some((k, left))
  {
    hide ReadString, Sources.Escapes;
    StringReadsBack(k, left);
    assert ("\"" + Sources.Escapes(k) + "\"" + left)[1..] == Sources.Escapes(k) + "\"" + left;
  }

  lemma {:induction false} StringsReadBack(keys: seq<Sources.Key>)
    requires keys != []
    ensures ReadStrings(Sources.Joined(keys) + "]") == Some(keys)
    decreases |keys|
  {
    hide ReadString, Sources.Escapes, Sources.Joined;
    var left := if |keys| == 1 then "]" else ", " + (Sources.Joined(keys[1..]) + "]");
    JoinedText(keys, left);
    FirstReadsBack(keys[0], left);
    assert keys == [keys[0]] + keys[1..];
    if |keys| > 1 {
      StringsReadBack(keys[1..]);
      assert left[2..] == Sources.Joined(keys[1..]) + "]";
    } else {
      assert keys == [keys[0]];
    }
  }

  lemma JoinedText(keys: seq<Sources.Key>, left: string)
    requires keys != [] && left == if |keys| == 1 then "]" else ", " + (Sources.Joined(keys[1..]) + "]")
    ensures Sources.Joined(keys) + "]" == "\"" + Sources.Escapes(keys[0]) + "\"" + left
  {
    hide Sources.Escapes;
  }

  /** Main result. Whatever a poll stores, the next poll reads back: quotes, backslashes, control characters
    * and characters of any plane included. */
  lemma WindowReadsBack(keys: seq<Sources.Key>)
    ensures ReadList(Sources.Encode(keys)) == Some(keys)
  {
    var text := Sources.Encode(keys);
    assert text[1..] == Sources.Joined(keys) + "]";
    if keys != [] {
      StringsReadBack(keys);
      assert |Sources.Joined(keys)| >= 2;
    }
  }

  /** Main result. How a character is written: as itself if it is printable ASCII other than the quote and the
    * backslash, as a backslash and one more for these two and the five short escapes, as one code unit of four
    * lower-case digits or as two of them otherwise; in printable ASCII always. */
  lemma WrittenExactly(c: char)
    ensures var n, text := c as int, Sources.Escape(c);
            && |text| == (if n in {34, 92, 10, 13, 9, 8, 12} then 2 else if 32 <= n < 127 then 1 else if n < 65536 then 6 else 12)
            && (forall p :: 0 <= p < |text| ==> 32 <= text[p] as int < 127)
            && (|text| >= 6 ==> forall p :: 2 <= p < |text| && p != 6 && p != 7 ==> Lower(text[p]))
  {
    hide Sources.CodeUnit;
    var n := c as int;
    if n >= 0x10000 {
      UnitIsWritten(0xD800 + (n - 0x10000) / 0x400);
      UnitIsWritten(0xDC00 + (n - 0x10000) % 0x400);
    } else {
      UnitIsWritten(n);
    }
  }

  predicate Lower(c: char) {
    '0' <= c <= '9' || 'a' <= c <= 'f'
  }

  lemma UnitIsWritten(n: nat)
    requires n < 0x10000
    ensures var text := Sources.CodeUnit(n); text[0] == '\\' && text[1] == 'u' && forall p :: 2 <= p < 6 ==> Lower(text[p])
  {
    hide Sources.HexDigit;
    DigitIsLower(n / 0x1000);
    DigitIsLower(n / 0x100 % 0x10);
    DigitIsLower(n / 0x10 % 0x10);
    DigitIsLower(n % 0x10);
  }

  lemma DigitIsLower(d: nat)
    requires d < 16
    ensures Lower(Sources.HexDigit(d))
  {}
}
