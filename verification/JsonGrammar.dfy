/** The grammar of JSON strings and of arrays of them (sections 5 and 7 of RFC 8259), and that exactly it is read. */
module JsonGrammar {
  import opened Wrappers
  import opened JsonText

  // ---- one character

  predicate IsHex(c: char, v: nat) { v < 16 && (c == "0123456789abcdef"[v] || c == "0123456789ABCDEF"[v]) }

  /** Four hexadecimal digits that name n. */
  ghost predicate NamesUnit(t: string, n: nat) {
    |t| == 4 && exists a: nat, b: nat, c: nat, d: nat ::
      IsHex(t[0], a) && IsHex(t[1], b) && IsHex(t[2], c) && IsHex(t[3], d) && n == a * 4096 + b * 256 + c * 16 + d
  }

  /** The letter after a backslash that names c. */
  predicate NamesChar(letter: char, c: char) {
    || (letter == '"' && c == '"') || (letter == '\\' && c == '\\') || (letter == '/' && c == '/')
    || (letter == 'n' && c as int == 10) || (letter == 'r' && c as int == 13) || (letter == 't' && c as int == 9)
    || (letter == 'f' && c as int == 12) || (letter == 'b' && c as int == 8)
  }

  /** t is one of the ways to write c inside a string. */
  ghost predicate SpellsChar(t: string, c: char) {
    || (|t| == 1 && t[0] == c && c as int >= 32 && c != '"' && c != '\\')
    || (|t| == 2 && t[0] == '\\' && NamesChar(t[1], c))
    || (|t| == 6 && t[0] == '\\' && t[1] == 'u' && NamesUnit(t[2..6], c as int))
    || (|t| == 12 && t[0] == '\\' && t[1] == 'u' && t[6] == '\\' && t[7] == 'u'
        && exists h: nat, l: nat ::
             0xD800 <= h < 0xDC00 <= l < 0xE000 && NamesUnit(t[2..6], h) && NamesUnit(t[8..12], l)
             && c as int == 0x10000 + (h - 0xD800) * 0x400 + (l - 0xDC00))
  }

  lemma HexExactly(c: char, v: nat)
    ensures HexValue(c) == Some(v) <==> IsHex(c, v)
  {
  }

  lemma UnitFrom(s: string, a: nat, b: nat, c: nat, d: nat)
    requires |s| >= 4 && IsHex(s[0], a) && IsHex(s[1], b) && IsHex(s[2], c) && IsHex(s[3], d)
    ensures ReadUnit(s) == Some(a * 4096 + b * 256 + c * 16 + d)
  {
    HexExactly(s[0], a);
    HexExactly(s[1], b);
    HexExactly(s[2], c);
    HexExactly(s[3], d);
    HexBelow(s[0], a);
    HexBelow(s[1], b);
    HexBelow(s[2], c);
    HexBelow(s[3], d);
    hide HexValue, IsHex;
  }

  lemma UnitDigits(s: string, n: nat) returns (a: nat, b: nat, c: nat, d: nat)
    requires ReadUnit(s) == Some(n)
    ensures |s| >= 4 && IsHex(s[0], a) && IsHex(s[1], b) && IsHex(s[2], c) && IsHex(s[3], d)
    ensures n == a * 4096 + b * 256 + c * 16 + d
  {
    hide IsHex, HexValue;
    a, b, c, d := HexValue(s[0]).value, HexValue(s[1]).value, HexValue(s[2]).value, HexValue(s[3]).value;
    HexExactly(s[0], a);
    HexExactly(s[1], b);
    HexExactly(s[2], c);
    HexExactly(s[3], d);
  }

  lemma UnitExactly(s: string, n: nat)
    requires |s| >= 4
    ensures ReadUnit(s) == Some(n) <==> NamesUnit(s[..4], n)
  {
    hide ReadUnit, IsHex;
    if ReadUnit(s) == Some(n) {
      var a, b, c, d := UnitDigits(s, n);
      assert IsHex(s[..4][0], a) && IsHex(s[..4][1], b) && IsHex(s[..4][2], c) && IsHex(s[..4][3], d);
    }
    if NamesUnit(s[..4], n) {
      var a: nat, b: nat, c: nat, d: nat :| IsHex(s[0], a) && IsHex(s[1], b) && IsHex(s[2], c) && IsHex(s[3], d)
        && n == a * 4096 + b * 256 + c * 16 + d;
      UnitFrom(s, a, b, c, d);
    }
  }

  lemma HexBelow(c: char, v: nat)
    requires IsHex(c, v)
    ensures v < 16
  {
  }

  /** Text beginning with an escaped unit: one unit, or a pair of them. */
  lemma EscapedExactly(s: string, c: char, k: nat)
    requires |s| >= 2 && s[0] == '\\' && s[1] == 'u' && k <= |s|
    ensures ReadEscapedUnit(s[2..]) == Some((c, s[k..])) <==> (k == 6 || k == 12) && SpellsChar(s[..k], c)
  {
    var t := s[2..];
    if |t| >= 4 {
      assert t[..4] == s[2..6];
      forall n: nat ensures ReadUnit(t) == Some(n) <==> NamesUnit(s[2..6], n) { UnitExactly(t, n); }
      if |t| >= 10 {
        assert t[6..][..4] == s[8..12];
        forall n: nat ensures ReadUnit(t[6..]) == Some(n) <==> NamesUnit(s[8..12], n) { UnitExactly(t[6..], n); }
        PairExactly(s, c, k);
      } else {
        ShortExactly(s, c, k);
      }
    } else {
      assert ReadUnit(t) == None;
    }
  }

  lemma ShortExactly(s: string, c: char, k: nat)
    requires 6 <= |s| < 12 && s[0] == '\\' && s[1] == 'u' && k <= |s|
    requires forall n: nat :: ReadUnit(s[2..]) == Some(n) <==> NamesUnit(s[2..6], n)
    ensures ReadEscapedUnit(s[2..]) == Some((c, s[k..])) <==> (k == 6 || k == 12) && SpellsChar(s[..k], c)
  {
    hide ReadUnit, NamesUnit;
    var t := s[2..];
    if |t| >= 6 { assert |t[6..]| < 4; ShortUnit(t[6..]); }
    assert t[4..] == s[6..];
    if k == 6 { assert s[..k][2..6] == s[2..6]; }
    if s[k..] == s[6..] { assert k == 6; }
  }

  lemma ShortUnit(s: string)
    requires |s| < 4
    ensures ReadUnit(s) == None
  {
  }

  lemma PairExactly(s: string, c: char, k: nat)
    requires |s| >= 12 && s[0] == '\\' && s[1] == 'u' && k <= |s|
    requires forall n: nat :: ReadUnit(s[2..]) == Some(n) <==> NamesUnit(s[2..6], n)
    requires forall n: nat :: ReadUnit(s[2..][6..]) == Some(n) <==> NamesUnit(s[8..12], n)
    ensures ReadEscapedUnit(s[2..]) == Some((c, s[k..])) <==> (k == 6 || k == 12) && SpellsChar(s[..k], c)
  {
    hide ReadUnit, NamesUnit;
    var t := s[2..];
    assert t[4..] == s[6..] && t[10..] == s[12..] && t[4] == s[6] && t[5] == s[7];
    if k == 6 { assert s[..k][2..6] == s[2..6]; }
    if k == 12 { assert s[..k][2..6] == s[2..6] && s[..k][8..12] == s[8..12] && s[..k][6] == s[6] && s[..k][7] == s[7]; }
    if s[k..] == s[6..] { assert k == 6; }
    if s[k..] == s[12..] { assert k == 12; }
  }

  lemma PlainExactly(s: string, c: char, k: nat)
    requires s != "" && s[0] != '"' && s[0] != '\\' && k <= |s|
    ensures ReadChar(s) == Some((c, s[k..])) <==> SpellsChar(s[..k], c)
  {
    hide ReadEscapedUnit, NamesUnit, NamesChar;
    if s[k..] == s[1..] { assert k == 1; }
  }

  lemma LoneBackslash(s: string, c: char, k: nat)
    requires s == "\\" && k <= |s|
    ensures ReadChar(s) == None && !SpellsChar(s[..k], c)
  {
    hide ReadEscapedUnit, NamesUnit, NamesChar;
  }

  lemma NamedExactly(s: string, c: char, k: nat)
    requires |s| >= 2 && s[0] == '\\' && s[1] != 'u' && k <= |s|
    ensures ReadChar(s) == Some((c, s[k..])) <==> SpellsChar(s[..k], c)
  {
    NamedLetter(s, c);
    hide ReadChar, NamesUnit, NamesChar;
    if s[k..] == s[2..] { assert k == 2; }
    if k >= 2 { assert s[..k][1] == s[1]; }
  }

  lemma NamedLetter(s: string, c: char)
    requires |s| >= 2 && s[0] == '\\' && s[1] != 'u'
    ensures ReadChar(s).Some? ==> ReadChar(s).value.1 == s[2..]
    ensures ReadChar(s) == Some((c, s[2..])) <==> NamesChar(s[1], c)
  {
    hide ReadEscapedUnit;
  }

  lemma EscapedRead(s: string)
    requires |s| >= 2 && s[0] == '\\' && s[1] == 'u'
    ensures ReadChar(s) == ReadEscapedUnit(s[2..])
  {
    hide ReadEscapedUnit;
  }

  /** One character is read exactly as it is spelled. */
  lemma CharExactly(s: string, c: char, k: nat)
    requires s != "" && s[0] != '"' && k <= |s|
    ensures ReadChar(s) == Some((c, s[k..])) <==> SpellsChar(s[..k], c)
  {
    hide ReadChar, SpellsChar, ReadEscapedUnit;
    if s[0] != '\\' {
      PlainExactly(s, c, k);
    } else if |s| < 2 {
      assert s == "\\";
      LoneBackslash(s, c, k);
    } else if s[1] != 'u' {
      NamedExactly(s, c, k);
    } else {
      EscapedRead(s);
      EscapedExactly(s, c, k);
      if SpellsChar(s[..k], c) { OnlyEscaped(s, c, k); }
    }
  }

  lemma OnlyEscaped(s: string, c: char, k: nat)
    requires |s| >= 2 && s[0] == '\\' && s[1] == 'u' && k <= |s| && SpellsChar(s[..k], c)
    ensures k == 6 || k == 12
  {
    hide NamesUnit;
    if k >= 2 { assert s[..k][1] == s[1]; }
  }

  lemma SpelledStart(t: string, c: char)
    requires SpellsChar(t, c)
    ensures t != "" && t[0] != '"'
  {
  }

  // ---- a string

  ghost predicate SpellsBody(t: string, s: string)
    decreases |s|
  {
    if s == "" then t == ""
    else exists k: nat :: k <= |t| && SpellsChar(t[..k], s[0]) && SpellsBody(t[k..], s[1..])
  }

  /** A string body ends at the first quote that is not part of a character, and means what it spells. */
  lemma {:induction false} BodyExactly(text: string, s: string, n: nat)
    requires n < |text|
    ensures ReadBody(text) == Some((s, text[n + 1..])) <==> text[n] == '"' && SpellsBody(text[..n], s)
    decreases |text|
  {
    hide SpellsChar, ReadChar;
    if text[0] == '"' {
      BodyEnds(text, s, n);
    } else {
      if ReadBody(text) == Some((s, text[n + 1..])) {
        BodySpelled(text, s, n);
      }
      if text[n] == '"' && SpellsBody(text[..n], s) {
        assert s != "";
        var k: nat :| k <= n && SpellsChar(text[..n][..k], s[0]) && SpellsBody(text[..n][k..], s[1..]);
        assert text[..n][..k] == text[..k] && text[..n][k..] == text[k..][..n - k];
        CharExactly(text, s[0], k);
        SpelledStart(text[..k], s[0]);
        assert text[k..][n - k] == text[n] && text[k..][n - k + 1..] == text[n + 1..];
        BodyExactly(text[k..], s[1..], n - k);
        assert [s[0]] + s[1..] == s;
      }
    }
  }

  lemma BodyEnds(text: string, s: string, n: nat)
    requires n < |text| && text[0] == '"'
    ensures ReadBody(text) == Some((s, text[n + 1..])) <==> text[n] == '"' && SpellsBody(text[..n], s)
  {
    hide SpellsChar, ReadChar;
    if text[1..] == text[n + 1..] { assert n == 0; }
    if SpellsBody(text[..n], s) && s != "" {
      var k: nat :| k <= n && SpellsChar(text[..n][..k], s[0]) && SpellsBody(text[..n][k..], s[1..]);
      SpelledStart(text[..n][..k], s[0]);
      assert false;
    }
  }

  lemma {:induction false} BodySpelled(text: string, s: string, n: nat)
    requires n < |text| && text[0] != '"' && ReadBody(text) == Some((s, text[n + 1..]))
    ensures text[n] == '"' && SpellsBody(text[..n], s)
    decreases |text|, 0
  {
    hide SpellsChar, ReadChar;
    var first := ReadChar(text).value;
    var k := |text| - |first.1|;
    CharReadsPrefix(text);
    CharExactly(text, first.0, k);
    var rest := first.1;
    RestLonger(rest);
    assert s == [first.0] + s[1..] && ReadBody(rest) == Some((s[1..], text[n + 1..]));
    assert n + 1 > k;
    assert rest[n - k + 1..] == text[n + 1..] && rest[n - k] == text[n];
    BodyExactly(rest, s[1..], n - k);
    assert text[..n][..k] == text[..k] && text[..n][k..] == rest[..n - k];
  }

  lemma RestLonger(rest: string)
    ensures ReadBody(rest).Some? ==> |ReadBody(rest).value.1| < |rest|
  {
  }

  /** What is left after one character is the end of the text. */
  lemma CharReadsPrefix(s: string)
    requires ReadChar(s).Some?
    ensures var rest := ReadChar(s).value.1; |rest| <= |s| && rest == s[|s| - |rest|..]
  {
  }

  // ---- an array of strings

  predicate Blanks(t: string) { forall c <- t :: c == ' ' || c as int == 9 || c as int == 10 || c as int == 13 }

  /** Strings separated by commas up to a closing bracket, with blanks anywhere between them. */
  ghost predicate SpellsElements(t: string, items: seq<string>)
    requires items != []
    decreases |items|, 0
  {
    exists i: nat, n: nat, m: nat :: SpellsFirst(t, items[0], i, n, m) && SpellsRest(t[m..], items[1..])
  }

  /** Up to m there is nothing but one string, between the quotes at i and n. */
  ghost predicate SpellsFirst(t: string, item: string, i: nat, n: nat, m: nat) {
    && i < n < m < |t| && Blanks(t[..i]) && t[i] == '"' && t[n] == '"' && SpellsBody(t[i + 1..n], item)
    && Blanks(t[n + 1..m])
  }

  ghost predicate SpellsRest(t: string, items: seq<string>)
    decreases |items|, 1
  {
    t != "" && if items == [] then t[0] == ']' && Blanks(t[1..]) else t[0] == ',' && SpellsElements(t[1..], items)
  }

  ghost predicate SpellsArray(t: string, items: seq<string>) {
    items != [] && exists i: nat :: i < |t| && Blanks(t[..i]) && t[i] == '[' && SpellsElements(t[i + 1..], items)
  }

  lemma BlankExactly(c: char)
    ensures IsSpace(c) <==> Blanks([c])
  {
    if IsSpace(c) { assert forall x <- [c] :: x == c; } else { assert c in [c]; }
  }

  lemma BlanksCons(c: char, t: string)
    ensures Blanks([c] + t) <==> Blanks([c]) && Blanks(t)
  {
    assert c in [c] + t && c in [c];
    assert forall x <- t :: x in [c] + t;
  }

  /** Skipping stops at the first character that is no blank. */
  lemma {:induction false} SkipExactly(t: string, i: nat)
    requires i <= |t|
    ensures SkipSpace(t) == t[i..] <==> Blanks(t[..i]) && (i == |t| || !IsSpace(t[i]))
  {
    if t != "" {
      hide Blanks, IsSpace;
      BlankExactly(t[0]);
      if IsSpace(t[0]) {
        if i > 0 {
          SkipExactly(t[1..], i - 1);
          assert t[..i] == [t[0]] + t[1..][..i - 1];
          BlanksCons(t[0], t[1..][..i - 1]);
        } else {
          SkipShorter(t[1..]);
        }
      } else if i > 0 {
        assert t[..i] == [t[0]] + t[1..i];
        BlanksCons(t[0], t[1..i]);
        assert |t[i..]| < |t|;
      } else {
        NoBlanks();
      }
    } else {
      NoBlanks();
    }
  }

  lemma NoBlanks()
    ensures Blanks("")
  {
  }

  lemma SkipShorter(t: string)
    ensures |SkipSpace(t)| <= |t|
  {
  }

  /** Where skipping stops. */
  lemma {:induction false} SkipStops(t: string) returns (i: nat)
    ensures i <= |t| && SkipSpace(t) == t[i..]
  {
    if t != "" && IsSpace(t[0]) {
      var k := SkipStops(t[1..]);
      i := k + 1;
    } else {
      i := 0;
    }
  }

  lemma Suffix(text: string, a: nat, b: nat)
    requires a <= b < |text|
    ensures text[a..][b - a] == text[b] && text[a..][..b - a] == text[a..b]
    ensures text[a..][b - a..] == text[b..] && text[a..][b - a + 1..] == text[b + 1..]
  {
  }

  lemma BodyWithin(text: string, item: string, i: nat, n: nat)
    requires i < n < |text|
    ensures ReadBody(text[i + 1..]) == Some((item, text[n + 1..])) <==> text[n] == '"' && SpellsBody(text[i + 1..n], item)
  {
    hide ReadBody, SpellsBody;
    Suffix(text, i + 1, n);
    BodyExactly(text[i + 1..], item, n - i - 1);
  }

  lemma SkipWithin(text: string, n: nat, m: nat)
    requires n < m < |text| && !IsSpace(text[m])
    ensures SkipSpace(text[n + 1..]) == text[m..] <==> Blanks(text[n + 1..m])
  {
    hide Blanks, IsSpace, SkipSpace;
    Suffix(text, n + 1, m);
    SkipExactly(text[n + 1..], m - n - 1);
  }

  /** What is read of an element, once blanks and the string are behind. */
  lemma FirstRead(text: string, item: string, i: nat, n: nat, m: nat)
    requires i < n < m < |text| && !IsSpace(text[m])
    ensures SpellsFirst(text, item, i, n, m)
            <==> && SkipSpace(text) == text[i..] && text[i] == '"'
                 && ReadBody(text[i + 1..]) == Some((item, text[n + 1..])) && SkipSpace(text[n + 1..]) == text[m..]
  {
    assert text[i] == '"' ==> !IsSpace(text[i]);
    hide Blanks, SpellsBody, ReadBody, SkipSpace, IsSpace;
    SkipExactly(text, i);
    SkipWithin(text, n, m);
    BodyWithin(text, item, i, n);
  }

  // ---- the reader

  lemma RestSpelled(t: string, items: seq<string>)
    requires SpellsRest(t, items)
    ensures t != "" && !IsSpace(t[0]) && (if items == [] then t[0] == ']' else t[0] == ',')
  {
    hide SpellsElements, Blanks;
  }

  /** Elements that are spelled are read. */
  lemma {:induction false} SpelledIsRead(text: string, items: seq<string>)
    requires items != [] && SpellsElements(text, items)
    ensures ReadElements(text) == Some(items)
    decreases |items|
  {
    hide SpellsBody, ReadBody, SkipSpace, Blanks, IsSpace;
    var i: nat, n: nat, m: nat :| SpellsFirst(text, items[0], i, n, m) && SpellsRest(text[m..], items[1..]);
    RestSpelled(text[m..], items[1..]);
    FirstRead(text, items[0], i, n, m);
    assert text[i..][1..] == text[i + 1..] && text[m..][1..] == text[m + 1..];
    if |items| == 1 {
      AllBlanks(text[m + 1..]);
      assert items == [items[0]];
    } else {
      SpelledIsRead(text[m + 1..], items[1..]);
      assert [items[0]] + items[1..] == items;
    }
  }

  lemma AllBlanks(t: string)
    ensures SkipSpace(t) == "" <==> Blanks(t)
  {
    SkipExactly(t, |t|);
    assert t[..|t|] == t && t[|t|..] == "";
  }

  /** Elements that are read are spelled. */
  lemma {:induction false} ReadIsSpelled(text: string, items: seq<string>)
    requires ReadElements(text) == Some(items)
    ensures items != [] && SpellsElements(text, items)
    decreases |text|
  {
    hide SpellsBody, ReadBody, SkipSpace, Blanks, IsSpace;
    var i := SkipStops(text);
    assert text[i..][1..] == text[i + 1..];
    var body := ReadBody(text[i + 1..]).value;
    BodySuffix(text[i + 1..]);
    var n := |text| - |body.1| - 1;
    assert body.1 == text[n + 1..];
    var k := SkipStops(text[n + 1..]);
    var m := n + 1 + k;
    assert text[n + 1..][k..] == text[m..] && text[m..][1..] == text[m + 1..];
    NoBlank(text[m]);
    FirstRead(text, body.0, i, n, m);
    if text[m] == ']' {
      AllBlanks(text[m + 1..]);
      assert items == [body.0] && items[1..] == [];
    } else {
      var more := ReadElements(text[m + 1..]).value;
      assert items == [body.0] + more && items[1..] == more;
      ReadIsSpelled(text[m + 1..], more);
    }
    assert SpellsRest(text[m..], items[1..]);
    assert SpellsFirst(text, items[0], i, n, m);
  }

  lemma NoBlank(c: char)
    ensures c == ']' || c == ',' || c == '[' ==> !IsSpace(c)
  {
  }

  /** What is left after a string body is the end of the text. */
  lemma {:induction false} BodySuffix(s: string)
    requires ReadBody(s).Some?
    ensures var rest := ReadBody(s).value.1; |rest| < |s| && rest == s[|s| - |rest|..]
    decreases |s|
  {
    hide ReadChar;
    if s[0] != '"' {
      CharReadsPrefix(s);
      BodySuffix(ReadChar(s).value.1);
    }
  }

  /** Exactly the text of the grammar is read as an array of strings, and as the strings that it spells. */
  lemma ArraysExactly(text: string, items: seq<string>)
    ensures ReadStrings(text) == Some(items) <==> SpellsArray(text, items)
  {
    hide SpellsElements, ReadElements, SkipSpace, Blanks, IsSpace;
    if ReadStrings(text) == Some(items) {
      var i := SkipStops(text);
      assert text[i..][1..] == text[i + 1..];
      ReadIsSpelled(text[i + 1..], items);
      NoBlank(text[i]);
      SkipExactly(text, i);
    }
    if SpellsArray(text, items) {
      var i: nat :| i < |text| && Blanks(text[..i]) && text[i] == '[' && SpellsElements(text[i + 1..], items);
      NoBlank(text[i]);
      SkipExactly(text, i);
      assert text[i..][1..] == text[i + 1..];
      SpelledIsRead(text[i + 1..], items);
    }
  }
}
