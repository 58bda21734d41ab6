/**
 * JSON strings in ASCII (section 7 of RFC 8259): every character outside the printable ASCII range
 * is escaped, beyond the basic plane as a surrogate pair; and arrays of strings.
 */
module JsonText {
  import opened Wrappers
  import opened Text

  function HexDigit(n: nat): char
    requires n < 16
  {
    if n < 10 then ('0' as int + n) as char else ('a' as int + n - 10) as char
  }

  function HexValue(c: char): Option<nat> {
    if '0' <= c <= '9' then Some(c as int - '0' as int)
    else if 'a' <= c <= 'f' then Some(c as int - 'a' as int + 10)
    else if 'A' <= c <= 'F' then Some(c as int - 'A' as int + 10)
    else None
  }

  function FourDigits(n: nat): (r: string)
    requires n < 0x10000
    ensures |r| == 4
  {
    [HexDigit(n / 4096), HexDigit(n % 4096 / 256), HexDigit(n % 4096 % 256 / 16), HexDigit(n % 4096 % 256 % 16)]
  }

  /** A code unit as backslash, u, and four digits. */
  function UnitEscape(n: nat): string
    requires n < 0x10000
  {
    ['\\', 'u'] + FourDigits(n)
  }

  /** The code unit that four digits name. */
  function ReadUnit(s: string): (r: Option<nat>)
    ensures r.Some? ==> r.value < 0x10000
  {
    if |s| < 4 then None
    else
      var a, b, c, d := HexValue(s[0]), HexValue(s[1]), HexValue(s[2]), HexValue(s[3]);
      if a.None? || b.None? || c.None? || d.None? || a.value > 15 || b.value > 15 || c.value > 15 || d.value > 15 then None
      else Some(a.value * 4096 + b.value * 256 + c.value * 16 + d.value)
  }

  function EscapeChar(c: char): string {
    if c == '"' then ['\\', '"']
    else if c == '\\' then ['\\', '\\']
    else if ' ' <= c <= '~' then [c]
    else if c == '\n' then ['\\', 'n']
    else if c == '\r' then ['\\', 'r']
    else if c == '\t' then ['\\', 't']
    else if c == '\U{000C}' then ['\\', 'f']
    else if c == '\U{0008}' then ['\\', 'b']
    else
      var n := c as int;
      if n < 0x10000 then UnitEscape(n)
      else UnitEscape(0xD800 + (n - 0x10000) / 0x400) + UnitEscape(0xDC00 + (n - 0x10000) % 0x400)
  }

  function Escape(s: string): string {
    if s == "" then "" else EscapeChar(s[0]) + Escape(s[1..])
  }

  // ---- reading

  predicate IsHigh(n: nat) { 0xD800 <= n < 0xDC00 }

  predicate IsLow(n: nat) { 0xDC00 <= n < 0xE000 }

  /** The character after backslash and u: one unit, or the two units of a pair. */
  function ReadEscapedUnit(s: string): Option<(char, string)> {
    var high := ReadUnit(s);
    if high.None? || IsLow(high.value) then None
    else if !IsHigh(high.value) then Some((high.value as char, s[4..]))
    else if |s| < 6 || s[4] != '\\' || s[5] != 'u' then None
    else
      var low := ReadUnit(s[6..]);
      if low.None? || !IsLow(low.value) then None
      else Some(((0x10000 + (high.value - 0xD800) * 0x400 + (low.value - 0xDC00)) as char, s[10..]))
  }

  /** One character of a string body. */
  function ReadChar(s: string): (r: Option<(char, string)>)
    ensures r.Some? ==> |r.value.1| < |s|
  {
    if s == "" || s[0] < ' ' then None
    else if s[0] != '\\' then Some((s[0], s[1..]))
    else if |s| < 2 then None
    else if s[1] == '"' || s[1] == '\\' || s[1] == '/' then Some((s[1], s[2..]))
    else if s[1] == 'n' then Some(('\n', s[2..]))
    else if s[1] == 'r' then Some(('\r', s[2..]))
    else if s[1] == 't' then Some(('\t', s[2..]))
    else if s[1] == 'f' then Some(('\U{000C}', s[2..]))
    else if s[1] == 'b' then Some(('\U{0008}', s[2..]))
    else if s[1] == 'u' then ReadEscapedUnit(s[2..])
    else None
  }

  /** A string body up to its closing quote, and what follows it. */
  function ReadBody(s: string): (r: Option<(string, string)>)
    ensures r.Some? ==> |r.value.1| < |s|
    decreases |s|
  {
    if s == "" then None
    else if s[0] == '"' then Some(("", s[1..]))
    else
      var first := ReadChar(s);
      if first.None? then None
      else
        var rest := ReadBody(first.value.1);
        if rest.None? then None else Some(([first.value.0] + rest.value.0, rest.value.1))
  }

  lemma HexRoundTrip(n: nat)
    requires n < 16
    ensures HexValue(HexDigit(n)) == Some(n)
  {
  }

  lemma DigitsMakeUnit(a: nat, b: nat, c: nat, d: nat, rest: string)
    requires a < 16 && b < 16 && c < 16 && d < 16
    ensures ReadUnit([HexDigit(a), HexDigit(b), HexDigit(c), HexDigit(d)] + rest)
            == Some(a * 4096 + b * 256 + c * 16 + d)
  {
    HexRoundTrip(a);
    HexRoundTrip(b);
    HexRoundTrip(c);
    HexRoundTrip(d);
    hide HexValue, HexDigit;
  }

  lemma UnitRoundTrip(n: nat, rest: string)
    requires n < 0x10000
    ensures ReadUnit(FourDigits(n) + rest) == Some(n)
    ensures (FourDigits(n) + rest)[4..] == rest
  {
    DigitsMakeUnit(n / 4096, n % 4096 / 256, n % 4096 % 256 / 16, n % 4096 % 256 % 16, rest);
    hide ReadUnit, HexDigit;
  }

  lemma UnitRead(n: nat, rest: string)
    requires n < 0x10000 && !IsHigh(n) && !IsLow(n)
    ensures ReadChar(UnitEscape(n) + rest) == Some((n as char, rest))
  {
    UnitRoundTrip(n, rest);
    var s := UnitEscape(n) + rest;
    hide ReadUnit, FourDigits;
    assert s[2..] == FourDigits(n) + rest;
  }

  lemma PairRead(high: nat, low: nat, rest: string)
    requires IsHigh(high) && IsLow(low)
    ensures ReadChar(UnitEscape(high) + UnitEscape(low) + rest)
            == Some(((0x10000 + (high - 0xD800) * 0x400 + (low - 0xDC00)) as char, rest))
  {
    var tail := UnitEscape(low) + rest;
    UnitRoundTrip(high, tail);
    UnitRoundTrip(low, rest);
    var s := UnitEscape(high) + UnitEscape(low) + rest;
    hide ReadUnit, FourDigits;
    assert s[2..] == FourDigits(high) + tail;
    assert s[2..][4..] == tail && tail[2..] == FourDigits(low) + rest;
    assert s[2..][6..] == tail[2..] && s[2..][10..] == rest;
    assert s[2..][4] == '\\' && s[2..][5] == 'u';
  }

  lemma PlainRead(c: char, rest: string)
    requires ' ' <= c <= '~' || c == '\n' || c == '\r' || c == '\t' || c == '\U{000C}' || c == '\U{0008}'
    ensures ReadChar(EscapeChar(c) + rest) == Some((c, rest))
  {
    hide ReadEscapedUnit;
    var s, e := EscapeChar(c) + rest, EscapeChar(c);
    assert s[|e|..] == rest && s[0] == e[0];
  }

  lemma CharRoundTrip(c: char, rest: string)
    ensures EscapeChar(c) != "" && EscapeChar(c)[0] != '"'
    ensures ReadChar(EscapeChar(c) + rest) == Some((c, rest))
  {
    hide ReadChar, FourDigits;
    if ' ' <= c <= '~' || c == '\n' || c == '\r' || c == '\t' || c == '\U{000C}' || c == '\U{0008}' {
      PlainRead(c, rest);
    } else if c as int < 0x10000 {
      UnitRead(c as int, rest);
    } else {
      var n := c as int - 0x10000;
      PairRead(0xD800 + n / 0x400, 0xDC00 + n % 0x400, rest);
    }
  }

  lemma BodyStep(c: char, tail: string)
    ensures ReadBody(EscapeChar(c) + tail)
            == var rest := ReadBody(tail); if rest.None? then None else Some(([c] + rest.value.0, rest.value.1))
  {
    CharRoundTrip(c, tail);
    hide EscapeChar, ReadChar;
    assert (EscapeChar(c) + tail)[0] == EscapeChar(c)[0];
  }

  /** What was escaped reads back, whatever follows the closing quote. */
  lemma {:induction false} BodyRoundTrip(s: string, rest: string)
    ensures ReadBody(Escape(s) + ['"'] + rest) == Some((s, rest))
  {
    if s == "" {
      assert (Escape(s) + ['"'] + rest)[1..] == rest;
    } else {
      hide EscapeChar, ReadChar, ReadBody;
      var tail := Escape(s[1..]) + ['"'] + rest;
      assert Escape(s) + ['"'] + rest == EscapeChar(s[0]) + tail;
      BodyStep(s[0], tail);
      BodyRoundTrip(s[1..], rest);
      assert [s[0]] + s[1..] == s;
    }
  }

  // ---- arrays of strings

  predicate IsSpace(c: char) { c == ' ' || c == '\t' || c == '\n' || c == '\r' }

  function SkipSpace(s: string): (r: string)
    ensures |r| <= |s|
  {
    if s != "" && IsSpace(s[0]) then SkipSpace(s[1..]) else s
  }

  /** The elements from the next string on, up to the end of the text. */
  function ReadElements(text: string): Option<seq<string>>
    decreases |text|
  {
    var s := SkipSpace(text);
    if s == "" || s[0] != '"' then None
    else
      var body := ReadBody(s[1..]);
      if body.None? then None
      else
        var rest := SkipSpace(body.value.1);
        if rest == "" then None
        else if rest[0] == ']' then if SkipSpace(rest[1..]) == "" then Some([body.value.0]) else None
        else if rest[0] != ',' then None
        else
          var more := ReadElements(rest[1..]);
          if more.None? then None else Some([body.value.0] + more.value)
  }

  /** Reads an array of strings; anything else, and the empty array, is no such array. */
  function ReadStrings(text: string): Option<seq<string>> {
    var s := SkipSpace(text);
    if s == "" || s[0] != '[' then None else ReadElements(s[1..])
  }

  function Quoted(s: string): string { ['"'] + Escape(s) + ['"'] }

  function WriteElements(items: seq<string>): string
    requires items != []
  {
    if |items| == 1 then Quoted(items[0]) + [']'] else Quoted(items[0]) + [','] + WriteElements(items[1..])
  }

  function WriteStrings(items: seq<string>): string
    requires items != []
  {
    ['['] + WriteElements(items)
  }

  lemma NoSpace(s: string)
    requires s == "" || !IsSpace(s[0])
    ensures SkipSpace(s) == s
  {
  }

  /** One element read, with what the text goes on with. */
  lemma ElementRead(item: string, after: string)
    requires after != "" && !IsSpace(after[0])
    ensures var text := Quoted(item) + after;
            && SkipSpace(text) == text && text[0] == '"'
            && ReadBody(text[1..]) == Some((item, after)) && SkipSpace(after) == after
  {
    var text := Quoted(item) + after;
    hide ReadBody, Escape, SkipSpace;
    BodyRoundTrip(item, after);
    assert text[1..] == Escape(item) + ['"'] + after;
    NoSpace(text);
    NoSpace(after);
  }

  lemma LastElement(item: string)
    ensures ReadElements(Quoted(item) + [']']) == Some([item])
  {
    ElementRead(item, [']']);
    NoSpace("");
    hide ReadBody, SkipSpace, Quoted;
    assert [']'][1..] == "";
  }

  lemma FurtherElement(item: string, more: string)
    ensures ReadElements(Quoted(item) + [','] + more)
            == var rest := ReadElements(more); if rest.None? then None else Some([item] + rest.value)
  {
    ElementRead(item, [','] + more);
    hide ReadBody, SkipSpace, Quoted;
    assert Quoted(item) + [','] + more == Quoted(item) + ([','] + more);
    assert ([','] + more)[1..] == more;
  }

  lemma {:induction false} ElementsRoundTrip(items: seq<string>)
    requires items != []
    ensures ReadElements(WriteElements(items)) == Some(items)
  {
    hide ReadElements, Quoted;
    if |items| > 1 {
      FurtherElement(items[0], WriteElements(items[1..]));
      ElementsRoundTrip(items[1..]);
      assert [items[0]] + items[1..] == items;
    } else {
      LastElement(items[0]);
      assert items == [items[0]];
    }
  }

  lemma StringsRoundTrip(items: seq<string>)
    requires items != []
    ensures ReadStrings(WriteStrings(items)) == Some(items)
  {
    ElementsRoundTrip(items);
    hide WriteElements, ReadElements;
    assert WriteStrings(items)[1..] == WriteElements(items);
  }

  // ---- the text is ASCII

  lemma EscapeCharAscii(c: char)
    ensures Ascii(EscapeChar(c))
  {
  }

  lemma {:induction false} EscapeAscii(s: string)
    ensures Ascii(Escape(s))
  {
    if s != "" {
      EscapeCharAscii(s[0]);
      EscapeAscii(s[1..]);
      hide EscapeChar;
    }
  }

  lemma {:induction false} StringsAscii(items: seq<string>)
    requires items != []
    ensures Ascii(WriteElements(items)) && Ascii(WriteStrings(items))
  {
    EscapeAscii(items[0]);
    hide Escape;
    if |items| > 1 { StringsAscii(items[1..]); }
  }
}
