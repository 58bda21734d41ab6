/** Base64 with the URL alphabet (section 5 of RFC 4648), written without padding, read leniently. */
module Base64Url {
  import opened Wrappers
  import opened Text

  type Byte = n: nat | n < 256

  /** The letter of a six-bit value. */
  function Letter(n: nat): char
    requires n < 64
  {
    if n < 26 then ('A' as int + n) as char
    else if n < 52 then ('a' as int + n - 26) as char
    else if n < 62 then ('0' as int + n - 52) as char
    else if n == 62 then '-' else '_'
  }

  /** The six-bit value of a letter; the standard alphabet's last two letters are read as well. */
  function ValueOf(c: char): Option<nat> {
    if 'A' <= c <= 'Z' then Some(c as int - 'A' as int)
    else if 'a' <= c <= 'z' then Some(c as int - 'a' as int + 26)
    else if '0' <= c <= '9' then Some(c as int - '0' as int + 52)
    else if c == '-' || c == '+' then Some(62)
    else if c == '_' || c == '/' then Some(63)
    else None
  }

  function OneByte(b: Byte): string { [Letter(b / 4), Letter(b % 4 * 16), '=', '='] }

  function TwoBytes(b0: Byte, b1: Byte): string {
    [Letter(b0 / 4), Letter(b0 % 4 * 16 + b1 / 16), Letter(b1 % 16 * 4), '=']
  }

  function ThreeBytes(b0: Byte, b1: Byte, b2: Byte): string {
    [Letter(b0 / 4), Letter(b0 % 4 * 16 + b1 / 16), Letter(b1 % 16 * 4 + b2 / 64), Letter(b2 % 64)]
  }

  function Encode(bytes: seq<Byte>): string {
    if bytes == [] then ""
    else if |bytes| == 1 then OneByte(bytes[0])
    else if |bytes| == 2 then TwoBytes(bytes[0], bytes[1])
    else ThreeBytes(bytes[0], bytes[1], bytes[2]) + Encode(bytes[3..])
  }

  function StripPadding(s: string): string {
    if s != "" && s[|s| - 1] == '=' then StripPadding(s[..|s| - 1]) else s
  }

  function Padding(n: nat): string {
    match n % 4 case 0 => "" case 1 => "===" case 2 => "==" case _ => "="
  }

  /** Where the decoder stands in a group of four letters, with the bits left over. */
  datatype Place = Place(count: nat, left: nat)

  predicate InPlace(p: Place) {
    p.count < 4 && p.left < (match p.count case 0 => 1 case 1 => 64 case 2 => 16 case _ => 4)
  }

  /** The byte that a letter of value v completes. */
  function Completed(p: Place, v: nat): seq<Byte>
    requires InPlace(p) && v < 64
  {
    match p.count
    case 0 => []
    case 1 => [p.left * 4 + v / 16]
    case 2 => [p.left * 16 + v / 4]
    case _ => [p.left * 64 + v]
  }

  function NextPlace(p: Place, v: nat): (r: Place)
    requires InPlace(p) && v < 64
    ensures InPlace(r)
  {
    match p.count
    case 0 => Place(1, v)
    case 1 => Place(2, v % 16)
    case 2 => Place(3, v % 4)
    case _ => Place(0, 0)
  }

  /** Letter by letter; other characters are skipped, and enough padding ends the text. */
  function Read(s: string, p: Place, pads: nat): Option<seq<Byte>>
    requires InPlace(p)
    decreases |s|
  {
    if s == "" then if p.count == 0 then Some([]) else None
    else if s[0] == '=' then
      if p.count >= 2 && p.count + pads + 1 >= 4 then Some([])
      else Read(s[1..], p, if p.count >= 2 then pads + 1 else pads)
    else
      var v := ValueOf(s[0]);
      if v.None? || v.value >= 64 then Read(s[1..], p, pads)
      else
        var rest := Read(s[1..], NextPlace(p, v.value), 0);
        if rest.None? then None else Some(Completed(p, v.value) + rest.value)
  }

  /** Text outside ASCII is refused before reading. */
  function Decode(s: string): Option<seq<Byte>> {
    if Ascii(s) then Read(s, Place(0, 0), 0) else None
  }

  lemma LetterRoundTrip(n: nat)
    requires n < 64
    ensures ValueOf(Letter(n)) == Some(n) && Letter(n) != '=' && Letter(n) as int < 128
  {
  }

  lemma ReadLetter(n: nat, s: string, p: Place, pads: nat)
    requires n < 64 && InPlace(p)
    ensures Read([Letter(n)] + s, p, pads)
            == var rest := Read(s, NextPlace(p, n), 0);
               if rest.None? then None else Some(Completed(p, n) + rest.value)
  {
    LetterRoundTrip(n);
    hide Letter, ValueOf;
    assert ([Letter(n)] + s)[1..] == s;
  }

  /** The bits of three bytes, cut into sixes and put together again. */
  lemma Bits(b0: Byte, b1: Byte, b2: Byte)
    ensures var v0, v1, v2, v3 := b0 / 4, b0 % 4 * 16 + b1 / 16, b1 % 16 * 4 + b2 / 64, b2 % 64;
            && v0 < 64 && v1 < 64 && v2 < 64
            && v0 * 4 + v1 / 16 == b0 && v1 % 16 * 16 + v2 / 4 == b1 && v2 % 4 * 64 + v3 == b2
  {
  }

  /** The first three letters of a group give its first two bytes. */
  lemma ReadThree(v0: nat, v1: nat, v2: nat, s: string)
    requires v0 < 64 && v1 < 64 && v2 < 64
    ensures Read([Letter(v0)] + ([Letter(v1)] + ([Letter(v2)] + s)), Place(0, 0), 0)
            == var rest := Read(s, Place(3, v2 % 4), 0);
               if rest.None? then None else Some([v0 * 4 + v1 / 16] + ([v1 % 16 * 16 + v2 / 4] + rest.value))
  {
    hide Letter, Read;
    ReadLetter(v2, s, Place(2, v1 % 16), 0);
    ReadLetter(v1, [Letter(v2)] + s, Place(1, v0), 0);
    ReadLetter(v0, [Letter(v1)] + ([Letter(v2)] + s), Place(0, 0), 0);
    var rest := Read([Letter(v1)] + ([Letter(v2)] + s), Place(1, v0), 0);
    assert Completed(Place(0, 0), v0) == [];
    if rest.Some? { assert Completed(Place(0, 0), v0) + rest.value == rest.value; }
  }

  lemma ReadPadding(p: Place)
    requires InPlace(p)
    ensures p.count == 2 ==> Read(['=', '='], p, 0) == Some([])
    ensures p.count == 3 ==> Read(['='], p, 0) == Some([])
  {
    assert ['=', '='][1..] == ['='];
  }

  lemma ReadOneByte(b: Byte)
    ensures Read(OneByte(b), Place(0, 0), 0) == Some([b])
  {
    ReadPadding(Place(2, 0));
    hide Letter, Read;
    ReadLetter(b % 4 * 16, ['=', '='], Place(1, b / 4), 0);
    ReadLetter(b / 4, [Letter(b % 4 * 16)] + ['=', '='], Place(0, 0), 0);
    Bits(b, 0, 0);
    assert OneByte(b) == [Letter(b / 4)] + ([Letter(b % 4 * 16)] + ['=', '=']);
    var empty: seq<Byte> := [];
    assert Completed(Place(0, 0), b / 4) == empty && Completed(Place(1, b / 4), b % 4 * 16) == [b];
    assert empty + ([b] + empty) == [b];
  }

  lemma ReadTwoBytes(b0: Byte, b1: Byte)
    ensures Read(TwoBytes(b0, b1), Place(0, 0), 0) == Some([b0, b1])
  {
    var v0, v1, v2 := b0 / 4, b0 % 4 * 16 + b1 / 16, b1 % 16 * 4;
    Bits(b0, b1, 0);
    ReadThree(v0, v1, v2, ['=']);
    ReadPadding(Place(3, v2 % 4));
    hide Letter, Read;
    assert TwoBytes(b0, b1) == [Letter(v0)] + ([Letter(v1)] + ([Letter(v2)] + ['=']));
    var empty: seq<Byte> := [];
    assert [b0] + ([b1] + empty) == [b0, b1];
  }

  lemma ReadThreeBytes(b0: Byte, b1: Byte, b2: Byte, s: string)
    ensures Read(ThreeBytes(b0, b1, b2) + s, Place(0, 0), 0)
            == var rest := Read(s, Place(0, 0), 0); if rest.None? then None else Some([b0, b1, b2] + rest.value)
  {
    var v0, v1, v2, v3 := b0 / 4, b0 % 4 * 16 + b1 / 16, b1 % 16 * 4 + b2 / 64, b2 % 64;
    Bits(b0, b1, b2);
    ReadThree(v0, v1, v2, [Letter(v3)] + s);
    ReadLetter(v3, s, Place(3, v2 % 4), 0);
    hide Letter, Read;
    assert ThreeBytes(b0, b1, b2) + s == [Letter(v0)] + ([Letter(v1)] + ([Letter(v2)] + ([Letter(v3)] + s)));
    var rest := Read(s, Place(0, 0), 0);
    if rest.Some? { assert [b0] + ([b1] + ([b2] + rest.value)) == [b0, b1, b2] + rest.value; }
  }

  /** Padded text reads back. */
  lemma {:induction false} ReadEncoded(bytes: seq<Byte>)
    ensures Read(Encode(bytes), Place(0, 0), 0) == Some(bytes)
  {
    if bytes == [] {
    } else if |bytes| == 1 {
      ReadOneByte(bytes[0]);
      hide OneByte, Read;
      assert bytes == [bytes[0]];
    } else if |bytes| == 2 {
      ReadTwoBytes(bytes[0], bytes[1]);
      hide TwoBytes, Read;
      assert bytes == [bytes[0], bytes[1]];
    } else {
      hide ThreeBytes, Read;
      ReadEncoded(bytes[3..]);
      ReadThreeBytes(bytes[0], bytes[1], bytes[2], Encode(bytes[3..]));
      assert [bytes[0], bytes[1], bytes[2]] + bytes[3..] == bytes;
    }
  }

  // ---- padding

  lemma {:induction false} StripEnd(a: string, x: string)
    requires StripPadding(x) != ""
    ensures StripPadding(a + x) == a + StripPadding(x)
  {
    if x[|x| - 1] == '=' {
      assert (a + x)[..|a + x| - 1] == a + x[..|x| - 1];
      StripEnd(a, x[..|x| - 1]);
    }
  }

  lemma StripTail(b0: Byte, b1: Byte, b2: Byte)
    ensures StripPadding(OneByte(b0)) == OneByte(b0)[..2]
    ensures StripPadding(TwoBytes(b0, b1)) == TwoBytes(b0, b1)[..3]
    ensures StripPadding(ThreeBytes(b0, b1, b2)) == ThreeBytes(b0, b1, b2)
  {
    LetterRoundTrip(b0 % 4 * 16);
    LetterRoundTrip(b1 % 16 * 4);
    LetterRoundTrip(b2 % 64);
    hide Letter;
    var one := OneByte(b0);
    assert StripPadding(one[..2]) == one[..2];
    assert one[..3][..2] == one[..2] && StripPadding(one[..3]) == one[..2];
  }

  /** Whole groups, with as much padding as the length without it calls for. */
  lemma {:induction false} PaddingRebuilt(bytes: seq<Byte>)
    ensures |Encode(bytes)| % 4 == 0
    ensures bytes != [] ==> StripPadding(Encode(bytes)) != ""
    ensures StripPadding(Encode(bytes)) + Padding(|StripPadding(Encode(bytes))|) == Encode(bytes)
  {
    var text := Encode(bytes);
    hide Letter;
    if bytes == [] {
    } else if |bytes| == 1 {
      StripTail(bytes[0], 0, 0);
      assert text[..2] + ['=', '='] == text;
    } else if |bytes| == 2 {
      StripTail(bytes[0], bytes[1], 0);
      assert text[..3] + ['='] == text;
    } else {
      StripTail(bytes[0], bytes[1], bytes[2]);
      var group, rest := ThreeBytes(bytes[0], bytes[1], bytes[2]), Encode(bytes[3..]);
      PaddingRebuilt(bytes[3..]);
      hide ThreeBytes, Encode, StripPadding;
      GroupPadding(group, rest);
    }
  }

  lemma GroupPadding(group: string, rest: string)
    requires |group| == 4 && StripPadding(group) == group
    requires |rest| % 4 == 0 && (rest != "" ==> StripPadding(rest) != "")
    requires StripPadding(rest) + Padding(|StripPadding(rest)|) == rest
    ensures var text := group + rest;
            |text| % 4 == 0 && StripPadding(text) != "" && StripPadding(text) + Padding(|StripPadding(text)|) == text
  {
    if rest == "" {
      hide StripPadding;
      assert group + rest == group && group + Padding(4) == group;
    } else {
      StripEnd(group, rest);
      hide StripPadding, Padding;
      var kept := StripPadding(rest);
      SamePadding(|kept|);
      assert |group + kept| == 4 + |kept|;
      Associative(group, kept, Padding(|kept|));
    }
  }

  lemma Associative(a: string, b: string, c: string)
    ensures a + b + c == a + (b + c)
  {
  }

  lemma SamePadding(n: nat)
    ensures Padding(4 + n) == Padding(n)
  {
  }

  lemma GroupAscii(b0: Byte, b1: Byte, b2: Byte)
    ensures Ascii(OneByte(b0)) && Ascii(TwoBytes(b0, b1)) && Ascii(ThreeBytes(b0, b1, b2))
  {
    LetterRoundTrip(b0 / 4);
    LetterRoundTrip(b0 % 4 * 16);
    LetterRoundTrip(b0 % 4 * 16 + b1 / 16);
    LetterRoundTrip(b1 % 16 * 4);
    LetterRoundTrip(b1 % 16 * 4 + b2 / 64);
    LetterRoundTrip(b2 % 64);
    hide Letter, ValueOf;
  }

  lemma {:induction false} EncodeAscii(bytes: seq<Byte>)
    ensures Ascii(Encode(bytes))
  {
    hide OneByte, TwoBytes, ThreeBytes;
    if |bytes| == 1 {
      GroupAscii(bytes[0], 0, 0);
    } else if |bytes| == 2 {
      GroupAscii(bytes[0], bytes[1], 0);
    } else if |bytes| >= 3 {
      GroupAscii(bytes[0], bytes[1], bytes[2]);
      EncodeAscii(bytes[3..]);
    }
  }

  /** What was written without padding reads back once the padding is rebuilt from the length. */
  lemma RoundTrip(bytes: seq<Byte>)
    ensures var text := StripPadding(Encode(bytes)); Decode(text + Padding(|text|)) == Some(bytes)
  {
    hide Read, Encode, StripPadding, Padding;
    PaddingRebuilt(bytes);
    EncodeAscii(bytes);
    ReadEncoded(bytes);
  }
}
